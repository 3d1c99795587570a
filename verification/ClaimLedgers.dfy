/** The ledger of one invoice inside the claim protocol: claims, watchers and everyone else add up to a run
    of ledger steps, and the events are the canonical form of what they recorded. */
module ClaimLedgers {
  import opened Base
  import opened Chain
  import opened Swaps
  import opened ClaimProtocol
  import P = ClaimProofs
  import L = InvoiceLedger
  import LP = InvoiceLedgerProofs

  // --- The ledger steps of a run ---

  ghost function SettlementStepOf(kind: SwapKind, i: InvoiceId, to: L.Settlement): Option<L.Step> {
    if InvoiceOf(kind) == Some(i) then Some(L.SettlementStep(to)) else None
  }

  /** What a protocol step does to invoice `i`, if anything. */
  ghost function LedgerStep(st: State, step: Step, cfg: Config, i: InvoiceId): Option<L.Step> {
    match step
    case InvoiceWrite(j, lstep) => if j == i && WatcherStep(lstep) then Some(lstep) else None
    case Bookkeep(w, settled, _) =>
      var p := PhaseOf(st, w);
      if p.Marked? && p.s in st.rows && settled then SettlementStepOf(st.rows[p.s].kind, i, L.Settled) else None
    case RecordFailure(w, error, now, u, marked) =>
      var p := PhaseOf(st, w);
      if p.Failing? && p.s in st.rows && marked
         && RecordClaimFailure(st.rows[p.s], error, cfg.maxAttempts, now, u).1 == Stuck
      then SettlementStepOf(st.rows[p.s].kind, i, L.ClaimStuck)
      else None
    case RecordEvent(w, clock) =>
      var p := PhaseOf(st, w);
      if p.Booked? && p.s in st.rows && InvoiceOf(st.rows[p.s].kind) == Some(i)
      then Some(L.RecordPayment(SettlementEvidence(p.s, st.rows[p.s].kind, p.txid), clock))
      else None
    case _ => None
  }

  ghost function After(inv: L.Invoice, l: Option<L.Step>, tol: L.Tolerances): L.Invoice {
    if l.Some? then L.Apply(inv, l.value, tol) else inv
  }

  // Steps that touch no invoice, group by group.

  lemma PreparingQuiet(st: State, step: Step, cfg: Config)
    requires step.Acquire? || step.ReadRow? || step.UsePersisted? || step.Construct? || step.CooperativeRefused?
        || step.Commit?
    ensures Apply(st, step, cfg).invoices == st.invoices
  {
  }

  lemma ResolvingQuiet(st: State, w: WorkerId)
    ensures DoResolveAddress(st, w).invoices == st.invoices
  {
    var p := PhaseOf(st, w);
    if p.HasRow? && p.snap.kind.ReverseSwap? {
      ResolvingReverseQuiet(st, w);
    }
  }

  lemma ResolvingReverseQuiet(st: State, w: WorkerId)
    requires PhaseOf(st, w).HasRow? && PhaseOf(st, w).snap.kind.ReverseSwap?
    ensures DoResolveAddress(st, w).invoices == st.invoices
  {
  }

  lemma BroadcastQuiet(st: State, w: WorkerId, accepted: bool, reported: bool)
    ensures DoBroadcast(st, w, accepted, reported).invoices == st.invoices
  {
  }

  lemma ProbingQuiet(st: State, w: WorkerId, probe: Probe)
    ensures DoProbe(st, w, probe).invoices == st.invoices
  {
  }

  lemma MarkingQuiet(st: State, w: WorkerId)
    ensures DoMarkClaimed(st, w).invoices == st.invoices
  {
  }

  lemma FailingQuiet(st: State, w: WorkerId)
    ensures DoFail(st, w).invoices == st.invoices && DoCrash(st, w).invoices == st.invoices
  {
  }

  lemma OutsideQuiet(st: State, step: Step, cfg: Config)
    requires step.WebhookWrite? || step.ReconcileWrite? || step.NewSwap? || step.UserWrite? || step.OtherTx?
    ensures DoEnvironment(st, step, cfg).invoices == st.invoices
  {
  }

  predicate TouchesInvoices(step: Step) {
    step.Bookkeep? || step.RecordFailure? || step.RecordEvent? || step.InvoiceWrite? || step.NewInvoice?
  }

  lemma Quiet(st: State, step: Step, cfg: Config)
    requires !TouchesInvoices(step)
    ensures Apply(st, step, cfg).invoices == st.invoices
  {
    if step.Acquire? || step.ReadRow? || step.UsePersisted? || step.Construct? || step.CooperativeRefused?
       || step.Commit? {
      PreparingQuiet(st, step, cfg);
    } else if step.ResolveAddress? {
      ResolvingQuiet(st, step.w);
    } else if step.Broadcast? {
      BroadcastQuiet(st, step.w, step.accepted, step.reported);
    } else if step.ProbeNetwork? {
      ProbingQuiet(st, step.w, step.probe);
    } else if step.MarkClaimed? {
      MarkingQuiet(st, step.w);
    } else if step.Fail? || step.Crash? {
      FailingQuiet(st, step.w);
    } else {
      OutsideQuiet(st, step, cfg);
    }
  }

  // Steps that do.

  lemma BookkeepOnLedger(st: State, w: WorkerId, settled: bool, cleared: bool, cfg: Config, i: InvoiceId)
    requires i in st.invoices
    ensures var st' := DoBookkeep(st, w, settled, cleared);
      i in st'.invoices && st'.invoices[i]
          == After(st.invoices[i], LedgerStep(st, Bookkeep(w, settled, cleared), cfg, i), cfg.tol)
  {
  }

  lemma FailureInvoices(st: State, w: WorkerId, s: SwapId, error: string, max: int, now: real, u: real, marked: bool)
    requires PhaseOf(st, w) == Failing(s) && s in st.rows
    ensures DoRecordFailure(st, w, error, max, now, u, marked).invoices
         == if marked && RecordClaimFailure(st.rows[s], error, max, now, u).1 == Stuck
            then SettleInvoice(st, st.rows[s].kind, L.ClaimStuck).invoices else st.invoices
  {
  }

  lemma FailureOnLedger(st: State, step: Step, cfg: Config, i: InvoiceId)
    requires i in st.invoices && step.RecordFailure?
    ensures var st' := DoRecordFailure(st, step.w, step.error, cfg.maxAttempts, step.now, step.u, step.marked);
      i in st'.invoices && st'.invoices[i] == After(st.invoices[i], LedgerStep(st, step, cfg, i), cfg.tol)
  {
    var p := PhaseOf(st, step.w);
    if p.Failing? && p.s in st.rows {
      FailureInvoices(st, step.w, p.s, step.error, cfg.maxAttempts, step.now, step.u, step.marked);
      SettledOnLedger(st, st.rows[p.s].kind, L.ClaimStuck, cfg, i);
    }
  }

  lemma SettledOnLedger(st: State, kind: SwapKind, to: L.Settlement, cfg: Config, i: InvoiceId)
    requires i in st.invoices
    ensures var st' := SettleInvoice(st, kind, to);
      i in st'.invoices && st'.invoices[i] == After(st.invoices[i], SettlementStepOf(kind, i, to), cfg.tol)
  {
  }

  lemma EventOnLedger(st: State, w: WorkerId, clock: int, cfg: Config, i: InvoiceId)
    requires i in st.invoices
    ensures var st' := DoRecordEvent(st, w, clock, cfg.tol);
      i in st'.invoices && st'.invoices[i]
          == After(st.invoices[i], LedgerStep(st, RecordEvent(w, clock), cfg, i), cfg.tol)
  {
  }

  lemma InvoicesOnLedger(st: State, step: Step, cfg: Config, i: InvoiceId)
    requires i in st.invoices && (step.InvoiceWrite? || step.NewInvoice?)
    ensures var st' := DoEnvironment(st, step, cfg);
      i in st'.invoices && st'.invoices[i] == After(st.invoices[i], LedgerStep(st, step, cfg, i), cfg.tol)
  {
  }

  /** The invoice after the step is the invoice before it, one ledger step on. */
  lemma StepOnLedger(st: State, step: Step, cfg: Config, i: InvoiceId)
    requires i in st.invoices
    ensures i in Apply(st, step, cfg).invoices
    ensures Apply(st, step, cfg).invoices[i] == After(st.invoices[i], LedgerStep(st, step, cfg, i), cfg.tol)
  {
    if step.Bookkeep? {
      BookkeepOnLedger(st, step.w, step.settled, step.cleared, cfg, i);
    } else if step.RecordFailure? {
      FailureOnLedger(st, step, cfg, i);
    } else if step.RecordEvent? {
      EventOnLedger(st, step.w, step.clock, cfg, i);
    } else if step.InvoiceWrite? || step.NewInvoice? {
      InvoicesOnLedger(st, step, cfg, i);
    } else {
      Quiet(st, step, cfg);
    }
  }

  /** Only one step creates invoices, and it creates them fresh. */
  lemma Created(st: State, step: Step, cfg: Config, i: InvoiceId)
    requires i !in st.invoices && i in Apply(st, step, cfg).invoices
    ensures L.Fresh(Apply(st, step, cfg).invoices[i])
  {
    if !TouchesInvoices(step) {
      Quiet(st, step, cfg);
    } else if step.NewInvoice? {
      CreatedFresh(st, step, cfg, i);
    } else {
      WritesCreateNone(st, step, cfg);
    }
  }

  lemma CreatedFresh(st: State, step: Step, cfg: Config, i: InvoiceId)
    requires step.NewInvoice? && i !in st.invoices && i in DoEnvironment(st, step, cfg).invoices
    ensures L.Fresh(DoEnvironment(st, step, cfg).invoices[i])
  {
  }

  lemma WritesCreateNone(st: State, step: Step, cfg: Config)
    requires step.Bookkeep? || step.RecordFailure? || step.RecordEvent? || step.InvoiceWrite?
    ensures Apply(st, step, cfg).invoices.Keys == st.invoices.Keys
  {
    if step.Bookkeep? {
      BookkeepCreatesNone(st, step.w, step.settled, step.cleared);
    } else if step.RecordFailure? {
      FailureCreatesNone(st, step.w, step.error, cfg.maxAttempts, step.now, step.u, step.marked);
    }
  }

  lemma BookkeepCreatesNone(st: State, w: WorkerId, settled: bool, cleared: bool)
    ensures DoBookkeep(st, w, settled, cleared).invoices.Keys == st.invoices.Keys
  {
  }

  lemma FailureCreatesNone(st: State, w: WorkerId, error: string, max: int, now: real, u: real, marked: bool)
    ensures DoRecordFailure(st, w, error, max, now, u, marked).invoices.Keys == st.invoices.Keys
  {
  }

  /** The ledger steps a run makes on invoice `i`, oldest first. */
  ghost function LedgerOf(steps: seq<Step>, cfg: Config, i: InvoiceId): seq<L.Step> {
    if steps == [] then []
    else
      var init := steps[..|steps|-1];
      var st := Run(init, cfg);
      LedgerOf(init, cfg, i)
        + if i in st.invoices && LedgerStep(st, steps[|steps|-1], cfg, i).Some?
          then [LedgerStep(st, steps[|steps|-1], cfg, i).value] else []
  }

  lemma {:induction false} NoLedgerYet(steps: seq<Step>, cfg: Config, i: InvoiceId)
    requires i !in Run(steps, cfg).invoices
    ensures LedgerOf(steps, cfg, i) == []
  {
    if steps != [] {
      NoLedgerYet(steps[..|steps|-1], cfg, i);
    }
  }

  lemma LedgerSnoc(inv0: L.Invoice, steps: seq<L.Step>, l: Option<L.Step>, tol: L.Tolerances)
    ensures L.Run(inv0, steps + if l.Some? then [l.value] else [], tol) == After(L.Run(inv0, steps, tol), l, tol)
  {
    if l.Some? {
      assert (steps + [l.value])[..|steps|] == steps;
    } else {
      assert steps + [] == steps;
    }
  }

  /** An invoice of the protocol is a run of its ledger steps from a fresh invoice. */
  lemma {:induction false} InvoiceIsLedgerRun(steps: seq<Step>, cfg: Config, i: InvoiceId) returns (inv0: L.Invoice)
    requires i in Run(steps, cfg).invoices
    ensures L.Fresh(inv0) && Run(steps, cfg).invoices[i] == L.Run(inv0, LedgerOf(steps, cfg, i), cfg.tol)
  {
    var init, last := steps[..|steps|-1], steps[|steps|-1];
    var st := Run(init, cfg);
    if i in st.invoices {
      inv0 := InvoiceIsLedgerRun(init, cfg, i);
      StepOnLedger(st, last, cfg, i);
      LedgerSnoc(inv0, LedgerOf(init, cfg, i), LedgerStep(st, last, cfg, i), cfg.tol);
    } else {
      NoLedgerYet(init, cfg, i);
      Created(st, last, cfg, i);
      inv0 := Run(steps, cfg).invoices[i];
    }
  }

  // --- What the run recorded ---

  lemma GrowsExtends(a: State, b: State)
    requires Grows(a, b)
    ensures P.Extends(a, b)
  {
  }

  lemma RecordedHere(st: State, step: Step, cfg: Config, i: InvoiceId)
    requires P.Inv(st) && i in st.invoices
    requires var l := LedgerStep(st, step, cfg, i); l.Some? && l.value.RecordPayment?
    ensures P.EventOk(st, i, LedgerStep(st, step, cfg, i).value.evidence)
  {
    if step.RecordEvent? {
      P.WorkerIsOk(st, step.w);
    }
  }

  lemma HistoryOfSnoc(steps: seq<L.Step>, last: L.Step)
    ensures LP.History(steps + [last])
         == LP.History(steps) + if last.RecordPayment? && L.Valid(last.evidence) then {last.evidence} else {}
  {
    LP.HistorySnoc(steps + [last]);
    assert (steps + [last])[..|steps|] == steps;
  }

  /** Every Boltz settlement recorded in the run is one of a swap of the invoice, settled by now. */
  lemma {:induction false} HistorySettled(steps: seq<Step>, cfg: Config, i: InvoiceId, e: L.Evidence)
    requires e in LP.History(LedgerOf(steps, cfg, i))
    ensures P.EventOk(Run(steps, cfg), i, e)
  {
    if steps == [] {
      assert false;
    } else {
      var init, last := steps[..|steps|-1], steps[|steps|-1];
      var st := Run(init, cfg);
      P.InvariantOfRuns(init, cfg);
      GrowsExtends(st, Apply(st, last, cfg));
      var l := LedgerStep(st, last, cfg, i);
      if i in st.invoices && l.Some? {
        HistoryOfSnoc(LedgerOf(init, cfg, i), l.value);
      }
      if e in LP.History(LedgerOf(init, cfg, i)) {
        HistorySettled(init, cfg, i, e);
      } else {
        RecordedHere(st, last, cfg, i);
      }
      P.EventFrame(st, Apply(st, last, cfg), i, e);
    }
  }

  ghost predicate SameOutput(a: L.Evidence, b: L.Evidence) {
    !L.IsBoltz(a.source) && !L.IsBoltz(b.source) && a.source == b.source && a.txid == b.txid && a.vout == b.vout
  }

  /** The watchers' event keys are made of source and outpoint, and what they say of an output does not
      change: its amount and its address. */
  ghost predicate WatchersFaithful(h: set<L.Evidence>) {
    && (forall e :: e in h && !L.IsBoltz(e.source) && e.txid.Some? && e.vout.Some?
          ==> e.eventKey == L.DirectKey(e.source, e.txid.value, e.vout.value))
    && (forall a, b :: a in h && b in h && SameOutput(a, b) ==> a.amountSat == b.amountSat && a.address == b.address)
  }

  lemma DirectByKey(h: set<L.Evidence>, a: L.Evidence, b: L.Evidence)
    requires WatchersFaithful(h) && a in h && b in h && L.Valid(a) && L.Valid(b)
    requires !L.IsBoltz(a.source) && !L.IsBoltz(b.source) && a.eventKey == b.eventKey
    ensures a == b
  {
    assert SameOutput(a, b);
  }

  lemma BoltzByKey(st: State, i: InvoiceId, a: L.Evidence, b: L.Evidence)
    requires P.Inv(st) && P.EventOk(st, i, a) && P.EventOk(st, i, b)
    requires L.IsBoltz(a.source) && L.IsBoltz(b.source) && a.eventKey == b.eventKey
    ensures a == b
  {
    P.SettlersEqual(st, a.boltzSwapId.value, a.txid.value, b.txid.value);
  }

  lemma SameKeySameEvidence(st: State, i: InvoiceId, h: set<L.Evidence>, a: L.Evidence, b: L.Evidence)
    requires P.Inv(st) && WatchersFaithful(h) && a in h && b in h && L.Valid(a) && L.Valid(b)
    requires P.EventOk(st, i, a) && P.EventOk(st, i, b) && a.eventKey == b.eventKey
    ensures a == b
  {
    KeyKind(st, i, h, a);
    KeyKind(st, i, h, b);
    if L.IsBoltz(a.source) {
      BoltzByKey(st, i, a, b);
    } else {
      DirectByKey(h, a, b);
    }
  }

  lemma KeyKind(st: State, i: InvoiceId, h: set<L.Evidence>, e: L.Evidence)
    requires WatchersFaithful(h) && e in h && L.Valid(e) && P.EventOk(st, i, e)
    ensures e.eventKey.BoltzKey? <==> L.IsBoltz(e.source)
  {
  }

  /** Main result: with faithful watchers, after any run of the claim protocol the ledger of an invoice that
      is not cancelled is the canonical form of everything recorded in it, whatever the order and repeats:
      that one event key names one piece of evidence is then proved, not assumed. */
  lemma ClaimLedgersConfluent(steps: seq<Step>, cfg: Config, i: InvoiceId)
    requires i in Run(steps, cfg).invoices && WatchersFaithful(LP.History(LedgerOf(steps, cfg, i)))
    ensures var inv := Run(steps, cfg).invoices[i]; var h := LP.History(LedgerOf(steps, cfg, i));
      LP.KeysConsistent(h) && if inv.status == L.Cancelled then inv.events == [] else LP.Tracks(inv, h)
  {
    var st, h := Run(steps, cfg), LP.History(LedgerOf(steps, cfg, i));
    P.InvariantOfRuns(steps, cfg);
    forall a, b | a in h && b in h && a.eventKey == b.eventKey ensures a == b {
      HistorySettled(steps, cfg, i, a);
      HistorySettled(steps, cfg, i, b);
      SameKeySameEvidence(st, i, h, a, b);
    }
    var inv0 := InvoiceIsLedgerRun(steps, cfg, i);
    LP.LedgerConfluence(inv0, LedgerOf(steps, cfg, i), cfg.tol);
  }

  /** Main result: and its money is as it should be whoever sweeps; its status says how the sum compares with
      the amount unless a batch sweep wrote it when it was covered and nothing has come in since. */
  lemma ClaimLedgersExplained(steps: seq<Step>, cfg: Config, i: InvoiceId) returns (inv0: L.Invoice)
    requires i in Run(steps, cfg).invoices
    ensures var inv := Run(steps, cfg).invoices[i]; var ledger := LedgerOf(steps, cfg, i);
      && L.Fresh(inv0) && inv == L.Run(inv0, ledger, cfg.tol)
      && LP.Inv(inv)
      && (LP.Explained(inv) <==> !exists k :: 0 <= k < |ledger| && LP.SweptSince(inv0, ledger, k, cfg.tol))
  {
    inv0 := InvoiceIsLedgerRun(steps, cfg, i);
    var ledger := LedgerOf(steps, cfg, i);
    LP.LedgerInvariant(inv0, ledger, cfg.tol);
    LP.ExplainedIff(L.Run(inv0, ledger, cfg.tol));
    LP.CoveredButUnderpaidIff(inv0, ledger, cfg.tol);
  }
}

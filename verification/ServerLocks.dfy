/** A chain swap is claimed only after its server lockup was reported: the user's own lockup is no
    reason to claim. */
module ServerLocks {
  import opened Base
  import opened Chain
  import opened Swaps
  import opened ClaimProtocol
  import P = ClaimProofs
  import L = InvoiceLedger

  /** The worker has read the row of `s` to claim it, or goes on from there. */
  predicate Claims(p: Phase, s: SwapId) {
    (p.HasRow? || p.HasAddress? || p.HasTx? || p.Committed? || p.BroadcastFailed? || p.OnNetwork? || p.Marked?
     || p.Booked?) && p.s == s
  }

  /** The sweep may select the chain swap, it has a claim transaction, or it counts as claimed. */
  ghost predicate RowServed(row: SwapRow) {
    row.kind.ChainSwap? && (IsClaimable(row.status) || row.claimTx.Some? || row.status == Chn(ChainClaimed))
  }

  /** Something is being done about claiming the chain swap, or was. */
  ghost predicate Served(st: State, s: SwapId) {
    s in st.rows && st.rows[s].kind.ChainSwap?
    && (RowServed(st.rows[s]) || (exists w :: Claims(PhaseOf(st, w), s)) || (exists tx :: (s, tx) in st.broadcasts))
  }

  predicate ReportsServerLock(step: Step, s: SwapId) {
    step == WebhookWrite(s, ServerMempool) || step == WebhookWrite(s, ServerConfirmed)
  }

  // --- One webhook ---

  /** The Boltz statuses that say something about a chain swap. */
  predicate Informs(b: BoltzStatus) {
    b in {TransactionMempool, TransactionConfirmed, ServerMempool, ServerConfirmed, SwapExpired, ZeroconfRejected,
          TransactionLockupFailed, TransactionFailed, TransactionRefunded}
  }

  /** A webhook leaves a chain swap that has not ended claimable exactly when it reports the server lockup, or
      says nothing and the swap was claimable; it ends it exactly when it reports an expiry, a failure of one
      of the lockups or a refund; and it touches nothing but the status. */
  lemma ChainWebhookIff(row: SwapRow, b: BoltzStatus)
    requires row.status.Chn? && !IsTerminal(row.status)
    ensures var row' := ChainWebhook(row, b);
      && row' == row.(status := row'.status) && row'.status.Chn?
      && (IsClaimable(row'.status) <==>
            b == ServerMempool || b == ServerConfirmed || (!Informs(b) && IsClaimable(row.status)))
      && (IsTerminal(row'.status) <==> b in {SwapExpired, ZeroconfRejected, TransactionLockupFailed, TransactionFailed,
                                             TransactionRefunded})
    ensures ChainWebhook(row, b).status ==
      if b == TransactionMempool then Chn(UserLockMempool)
      else if b == TransactionConfirmed then Chn(UserLockConfirmed)
      else if b == ServerMempool then Chn(ServerLockMempool)
      else if b == ServerConfirmed then Chn(ServerLockConfirmed)
      else if b == SwapExpired then Chn(ChainExpired)
      else if b == TransactionRefunded then Chn(ChainRefunded)
      else if Informs(b) then Chn(LockupFailed)
      else row.status
  {
  }

  lemma EndedChainWebhook(row: SwapRow, b: BoltzStatus)
    requires row.status.Chn? && IsTerminal(row.status)
    ensures ChainWebhook(row, b) == row
  {
  }

  // --- A worker's steps ---

  /** A claim goes on, or begins at a row that may be claimed. */
  ghost predicate GoesOn(st: State, before: Phase, after: Phase) {
    forall s :: Claims(after, s) ==>
      Claims(before, s) || (s in st.rows && (st.rows[s].kind.ChainSwap? ==> RowServed(st.rows[s])))
  }

  /** Only a claim makes a row served. */
  ghost predicate RowsBy(st: State, st': State, before: Phase) {
    forall s :: s in st.rows ==>
      s in st'.rows && st'.rows[s].kind == st.rows[s].kind
      && (RowServed(st'.rows[s]) ==> RowServed(st.rows[s]) || Claims(before, s))
  }

  ghost predicate NoOtherWorker(st: State, st': State, w: WorkerId) {
    forall v :: v != w ==> PhaseOf(st', v) == PhaseOf(st, v)
  }

  ghost predicate BroadcastBy(st: State, st': State, before: Phase) {
    forall b :: b in st'.broadcasts ==> b in st.broadcasts || Claims(before, b.0)
  }

  ghost predicate WorkerStep(st: State, st': State, w: WorkerId) {
    && st'.rows.Keys == st.rows.Keys
    && NoOtherWorker(st, st', w) && GoesOn(st, PhaseOf(st, w), PhaseOf(st', w)) && RowsBy(st, st', PhaseOf(st, w))
    && BroadcastBy(st, st', PhaseOf(st, w))
  }

  lemma AcquireStep(st: State, w: WorkerId, x: SwapId)
    ensures WorkerStep(st, DoAcquire(st, w, x), w)
  {
  }

  /** The row is read only if it has not ended and, for a chain swap, may be claimed. */
  lemma ReadStep(st: State, w: WorkerId)
    requires forall s :: s in st.rows ==> P.RowOk(st, s)
    ensures WorkerStep(st, DoReadRow(st, w), w)
  {
    var p := PhaseOf(st, w);
    if p.Locked? && p.s in st.rows {
      ReadPhase(st, w);
    }
  }

  lemma ReadPhase(st: State, w: WorkerId)
    requires PhaseOf(st, w).Locked? && PhaseOf(st, w).s in st.rows && P.RowOk(st, PhaseOf(st, w).s)
    ensures var st', s := DoReadRow(st, w), PhaseOf(st, w).s;
      || st' == Release(st, w, s, Idle)
      || (st' == SetPhase(st, w, HasRow(s, st.rows[s]))
          && (st.rows[s].kind.ChainSwap? ==> IsClaimable(st.rows[s].status)))
  {
  }

  lemma ResolveStep(st: State, w: WorkerId)
    ensures WorkerStep(st, DoResolveAddress(st, w), w)
  {
    var p := PhaseOf(st, w);
    if p.HasRow? && p.s in st.rows {
      if p.snap.kind.ReverseSwap? && st.rows[p.s].address.None? {
        ResolvedReverse(st, w);
      } else {
        ResolvedElsewhere(st, w);
      }
    }
  }

  /** At most the address of the one row changes, and the cursor it came from. */
  ghost predicate Resolved(st: State, st': State, w: WorkerId, s: SwapId)
    requires s in st.rows
  {
    && st'.broadcasts == st.broadcasts && st'.rows.Keys == st.rows.Keys
    && st'.rows == st.rows[s := st.rows[s].(address := st'.rows[s].address)]
    && st'.workers == st.workers[w := PhaseOf(st', w)]
    && (PhaseOf(st', w).HasAddress? || PhaseOf(st', w).Failing?) && PhaseOf(st', w).s == s
  }

  lemma ResolvedElsewhere(st: State, w: WorkerId)
    requires PhaseOf(st, w).HasRow? && PhaseOf(st, w).s in st.rows
    requires PhaseOf(st, w).snap.kind.ReverseSwap? ==> st.rows[PhaseOf(st, w).s].address.Some?
    ensures Resolved(st, DoResolveAddress(st, w), w, PhaseOf(st, w).s)
  {
    var p := PhaseOf(st, w);
    NothingWritten(st, w);
    if DoResolveAddress(st, w) == Release(st, w, p.s, Failing(p.s)) {
      PhaseOnly(st, w, p.s, Failing(p.s), st.locks - {p.s});
    } else {
      PhaseOnly(st, w, p.s, PhaseOf(DoResolveAddress(st, w), w), st.locks);
    }
  }

  lemma NothingWritten(st: State, w: WorkerId)
    requires PhaseOf(st, w).HasRow? && PhaseOf(st, w).s in st.rows
    requires PhaseOf(st, w).snap.kind.ReverseSwap? ==> st.rows[PhaseOf(st, w).s].address.Some?
    ensures var st', s := DoResolveAddress(st, w), PhaseOf(st, w).s;
      || st' == Release(st, w, s, Failing(s))
      || (PhaseOf(st', w).HasAddress? && PhaseOf(st', w).s == s && st' == SetPhase(st, w, PhaseOf(st', w)))
  {
  }

  lemma PhaseOnly(st: State, w: WorkerId, s: SwapId, p: Phase, locks: map<SwapId, WorkerId>)
    requires s in st.rows && (p.HasAddress? || p.Failing?) && p.s == s
    ensures Resolved(st, st.(locks := locks, workers := st.workers[w := p]), w, s)
  {
  }

  lemma ResolvedReverse(st: State, w: WorkerId)
    requires PhaseOf(st, w).HasRow? && PhaseOf(st, w).s in st.rows
    requires PhaseOf(st, w).snap.kind.ReverseSwap? && st.rows[PhaseOf(st, w).s].address.None?
    ensures Resolved(st, DoResolveAddress(st, w), w, PhaseOf(st, w).s)
  {
    var p := PhaseOf(st, w);
    if DoResolveAddress(st, w) != Release(st, w, p.s, Failing(p.s)) {
      if p.snap.kind.invoice.Some? {
        FixedResolved(st, st, w, p.s, p.snap, st.liquidAddress[p.snap.kind.invoice.value].value);
      } else {
        var user := st.users[p.snap.kind.nym.value];
        FixedResolved(st, BumpCursor(st, p.snap.kind.nym.value), w, p.s, p.snap,
                      Derived(user.descriptor, user.nextAddrIdx));
      }
    }
  }

  lemma FixedResolved(st: State, bumped: State, w: WorkerId, s: SwapId, snap: SwapRow, a: Address)
    requires s in st.rows && bumped == st.(users := bumped.users)
    ensures Resolved(st, FixAddress(bumped, w, s, snap, a), w, s)
  {
  }

  lemma UseStep(st: State, w: WorkerId)
    ensures WorkerStep(st, DoUsePersisted(st, w), w)
  {
  }

  lemma ConstructStep(st: State, w: WorkerId, tx: Tx)
    ensures WorkerStep(st, DoConstruct(st, w, tx), w)
  {
  }

  lemma RefusedStep(st: State, w: WorkerId)
    ensures WorkerStep(st, DoCooperativeRefused(st, w), w)
  {
  }

  lemma CommitStep(st: State, w: WorkerId, now: real)
    ensures WorkerStep(st, DoCommit(st, w, now), w)
  {
  }

  lemma BroadcastStep(st: State, w: WorkerId, accepted: bool, reported: bool)
    ensures WorkerStep(st, DoBroadcast(st, w, accepted, reported), w)
  {
  }

  lemma ProbeStep(st: State, w: WorkerId, probe: Probe)
    ensures WorkerStep(st, DoProbe(st, w, probe), w)
  {
  }

  lemma MarkStep(st: State, w: WorkerId)
    ensures WorkerStep(st, DoMarkClaimed(st, w), w)
  {
  }

  lemma BookkeepStep(st: State, w: WorkerId, settled: bool, cleared: bool)
    ensures WorkerStep(st, DoBookkeep(st, w, settled, cleared), w)
  {
  }

  lemma EventStep(st: State, w: WorkerId, clock: int, tol: L.Tolerances)
    ensures WorkerStep(st, DoRecordEvent(st, w, clock, tol), w)
  {
  }

  lemma FailStep(st: State, w: WorkerId)
    ensures WorkerStep(st, DoFail(st, w), w)
  {
    FailPhase(st, w);
  }

  lemma FailPhase(st: State, w: WorkerId)
    ensures var st' := DoFail(st, w);
      && st'.rows == st.rows && st'.broadcasts == st.broadcasts
      && (st' == st || (PhaseOf(st', w).Failing? && st'.workers == st.workers[w := PhaseOf(st', w)]))
  {
  }

  lemma CrashStep(st: State, w: WorkerId)
    ensures WorkerStep(st, DoCrash(st, w), w)
  {
    CrashPhase(st, w);
  }

  lemma CrashPhase(st: State, w: WorkerId)
    ensures var st' := DoCrash(st, w);
      st'.rows == st.rows && st'.broadcasts == st.broadcasts && st'.workers == st.workers[w := Idle]
  {
  }

  lemma FailureStep(st: State, w: WorkerId, error: string, max: int, now: real, u: real, marked: bool)
    ensures WorkerStep(st, DoRecordFailure(st, w, error, max, now, u, marked), w)
  {
    var p := PhaseOf(st, w);
    if p.Failing? && p.s in st.rows {
      FailurePhase(st, w, error, max, now, u, marked);
      FailedRow(st.rows[p.s], error, max, now, u);
    }
  }

  lemma FailedRow(row: SwapRow, error: string, max: int, now: real, u: real)
    ensures var row' := RecordClaimFailure(row, error, max, now, u).0;
      row'.kind == row.kind && (RowServed(row') ==> RowServed(row))
  {
  }

  lemma FailurePhase(st: State, w: WorkerId, error: string, max: int, now: real, u: real, marked: bool)
    requires PhaseOf(st, w).Failing? && PhaseOf(st, w).s in st.rows
    ensures var st', s := DoRecordFailure(st, w, error, max, now, u, marked), PhaseOf(st, w).s;
      && st'.rows == st.rows[s := RecordClaimFailure(st.rows[s], error, max, now, u).0]
      && st'.broadcasts == st.broadcasts && st'.workers == st.workers[w := Idle]
  {
  }

  lemma WorkerNothingNew(st: State, st': State, w: WorkerId, s: SwapId)
    requires WorkerStep(st, st', w) && Served(st', s)
    ensures Served(st, s)
  {
    if v :| Claims(PhaseOf(st', v), s) {
      if v == w {
        assert Claims(PhaseOf(st, w), s) || RowServed(st.rows[s]);
      } else {
        assert Claims(PhaseOf(st, v), s);
      }
    }
    if tx :| (s, tx) in st'.broadcasts {
      assert (s, tx) in st.broadcasts || Claims(PhaseOf(st, w), s);
    }
  }

  predicate IsWorkerStep(step: Step) {
    !(step.WebhookWrite? || step.ReconcileWrite? || step.InvoiceWrite? || step.NewInvoice? || step.NewSwap?
      || step.UserWrite? || step.OtherTx?)
  }

  predicate IsClaiming(step: Step) {
    step.Acquire? || step.ReadRow? || step.ResolveAddress? || step.UsePersisted? || step.Construct?
        || step.CooperativeRefused? || step.Commit?
  }

  lemma ClaimingStep(st: State, step: Step, cfg: Config)
    requires P.Inv(st) && IsClaiming(step)
    ensures WorkerStep(st, Apply(st, step, cfg), step.w)
  {
    match step
    case Acquire(w, x) => AcquireStep(st, w, x);
    case ReadRow(w) => ReadStep(st, w);
    case ResolveAddress(w) => ResolveStep(st, w);
    case UsePersisted(w) => UseStep(st, w);
    case Construct(w, tx) => ConstructStep(st, w, tx);
    case CooperativeRefused(w) => RefusedStep(st, w);
    case Commit(w, now) => CommitStep(st, w, now);
  }

  lemma SendingStep(st: State, step: Step, cfg: Config)
    requires IsWorkerStep(step) && !IsClaiming(step)
    ensures WorkerStep(st, Apply(st, step, cfg), step.w)
  {
    match step
    case Broadcast(w, accepted, reported) => BroadcastStep(st, w, accepted, reported);
    case ProbeNetwork(w, probe) => ProbeStep(st, w, probe);
    case MarkClaimed(w) => MarkStep(st, w);
    case Bookkeep(w, settled, cleared) => BookkeepStep(st, w, settled, cleared);
    case RecordEvent(w, clock) => EventStep(st, w, clock, cfg.tol);
    case Fail(w) => FailStep(st, w);
    case RecordFailure(w, error, now, u, marked) => FailureStep(st, w, error, cfg.maxAttempts, now, u, marked);
    case Crash(w) => CrashStep(st, w);
  }

  // --- Everyone else's ---

  lemma WebhookRows(st: State, x: SwapId, b: BoltzStatus, cfg: Config)
    ensures var st' := DoEnvironment(st, WebhookWrite(x, b), cfg);
      && st'.workers == st.workers && st'.broadcasts == st.broadcasts
      && (x !in st.rows ==> st'.rows == st.rows)
      && (x in st.rows ==> st'.rows == st.rows[x := if st.rows[x].status.Rev? then Webhook(st.rows[x], b)
                                                    else ChainWebhook(st.rows[x], b)])
  {
  }

  lemma WebhookNothingNew(st: State, x: SwapId, b: BoltzStatus, cfg: Config, s: SwapId)
    requires P.Inv(st) && Served(DoEnvironment(st, WebhookWrite(x, b), cfg), s)
    ensures Served(st, s) || ReportsServerLock(WebhookWrite(x, b), s)
  {
    var st' := DoEnvironment(st, WebhookWrite(x, b), cfg);
    WebhookRows(st, x, b, cfg);
    if v :| Claims(PhaseOf(st', v), s) {
      assert Claims(PhaseOf(st, v), s);
    }
    if x == s && s in st.rows {
      assert P.RowOk(st, s);
      WebhookServed(st.rows[s], b);
    }
  }

  lemma WebhookServed(row: SwapRow, b: BoltzStatus)
    requires row.kind.ReverseSwap? <==> row.status.Rev?
    ensures var row' := if row.status.Rev? then Webhook(row, b) else ChainWebhook(row, b);
      row'.kind == row.kind && (RowServed(row') ==> RowServed(row) || b == ServerMempool || b == ServerConfirmed)
  {
    if row.status.Chn? && !IsTerminal(row.status) {
      ChainWebhookIff(row, b);
    }
  }

  lemma NewSwapNothingNew(st: State, x: SwapId, kind: SwapKind, addr: Option<Address>, cfg: Config, s: SwapId)
    requires P.Inv(st) && Served(DoEnvironment(st, NewSwap(x, kind, addr), cfg), s)
    ensures Served(st, s)
  {
    var st' := DoEnvironment(st, NewSwap(x, kind, addr), cfg);
    NewSwapRows(st, x, kind, addr, cfg);
    if v :| Claims(PhaseOf(st', v), s) {
      P.WorkerIsOk(st, v);
      assert Claims(PhaseOf(st, v), s) && s in st.rows;
    }
    if tx :| (s, tx) in st'.broadcasts {
      var b := (s, tx);
      assert b in st.broadcasts && s in st.rows;
    }
  }

  lemma NewSwapRows(st: State, x: SwapId, kind: SwapKind, addr: Option<Address>, cfg: Config)
    ensures var st' := DoEnvironment(st, NewSwap(x, kind, addr), cfg);
      && st'.workers == st.workers && st'.broadcasts == st.broadcasts
      && (st'.rows == st.rows
          || (x !in st.rows && x in st'.rows && !RowServed(st'.rows[x]) && st'.rows == st.rows[x := st'.rows[x]]))
  {
  }

  lemma ReconcileNothingNew(st: State, x: SwapId, a: Action, now: real, cfg: Config, s: SwapId)
    requires P.Inv(st) && Served(DoEnvironment(st, ReconcileWrite(x, a, now), cfg), s)
    ensures Served(st, s)
  {
    var st' := DoEnvironment(st, ReconcileWrite(x, a, now), cfg);
    ReconcileRows(st, x, a, now, cfg);
    if v :| Claims(PhaseOf(st', v), s) {
      assert Claims(PhaseOf(st, v), s);
    }
    assert x in st.rows ==> P.RowOk(st, x);
  }

  lemma ReconcileRows(st: State, x: SwapId, a: Action, now: real, cfg: Config)
    ensures var st' := DoEnvironment(st, ReconcileWrite(x, a, now), cfg);
      && st'.workers == st.workers && st'.broadcasts == st.broadcasts
      && (st' == st || (x in st.rows && st.rows[x].status.Rev? && x in st'.rows
                        && st'.rows[x].kind == st.rows[x].kind && st'.rows == st.rows[x := st'.rows[x]]))
  {
  }

  lemma OthersNothingNew(st: State, step: Step, cfg: Config, s: SwapId)
    requires step.InvoiceWrite? || step.NewInvoice? || step.UserWrite? || step.OtherTx?
    requires Served(DoEnvironment(st, step, cfg), s)
    ensures Served(st, s)
  {
    var st' := DoEnvironment(st, step, cfg);
    OthersRows(st, step, cfg);
    if v :| Claims(PhaseOf(st', v), s) {
      assert Claims(PhaseOf(st, v), s);
    }
  }

  lemma OthersRows(st: State, step: Step, cfg: Config)
    requires step.InvoiceWrite? || step.NewInvoice? || step.UserWrite? || step.OtherTx?
    ensures var st' := DoEnvironment(st, step, cfg);
      st'.workers == st.workers && st'.broadcasts == st.broadcasts && st'.rows == st.rows
  {
    if step.InvoiceWrite? || step.NewInvoice? {
      InvoicesOnly(st, step, cfg);
    }
  }

  lemma InvoicesOnly(st: State, step: Step, cfg: Config)
    requires step.InvoiceWrite? || step.NewInvoice?
    ensures var st' := DoEnvironment(st, step, cfg);
      st' == st.(invoices := st'.invoices, liquidAddress := st'.liquidAddress)
  {
  }

  // --- Every run ---

  lemma StepNothingNew(st: State, step: Step, cfg: Config, s: SwapId)
    requires P.Inv(st) && Served(Apply(st, step, cfg), s)
    ensures Served(st, s) || ReportsServerLock(step, s)
  {
    if IsWorkerStep(step) {
      if IsClaiming(step) {
        ClaimingStep(st, step, cfg);
      } else {
        SendingStep(st, step, cfg);
      }
      WorkerNothingNew(st, Apply(st, step, cfg), step.w, s);
    } else {
      match step
      case WebhookWrite(x, b) => WebhookNothingNew(st, x, b, cfg, s);
      case NewSwap(x, kind, addr) => NewSwapNothingNew(st, x, kind, addr, cfg, s);
      case ReconcileWrite(x, a, now) => ReconcileNothingNew(st, x, a, now, cfg, s);
      case _ => OthersNothingNew(st, step, cfg, s);
    }
  }

  /** Main result: in every run, a chain swap is selected by the sweep, read by a worker that claims it, given a
      claim transaction, broadcast or claimed only after a webhook reported its server lockup. */
  lemma {:induction false} ServerLockNeeded(steps: seq<Step>, cfg: Config, s: SwapId)
    requires Served(Run(steps, cfg), s)
    ensures exists k :: 0 <= k < |steps| && ReportsServerLock(steps[k], s)
  {
    if steps == [] {
      assert false;
    } else {
      var init, last := steps[..|steps|-1], steps[|steps|-1];
      P.InvariantOfRuns(init, cfg);
      StepNothingNew(Run(init, cfg), last, cfg, s);
      if Served(Run(init, cfg), s) {
        ServerLockNeeded(init, cfg, s);
        var k :| 0 <= k < |init| && ReportsServerLock(init[k], s);
        assert steps[k] == init[k];
      } else {
        assert ReportsServerLock(steps[|init|], s);
      }
    }
  }
}

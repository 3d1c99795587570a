/** Who writes which column of an invoice, and what each column says of the run that led to it. */
module InvoiceColumns {
  import opened Base
  import opened Chain
  import opened InvoiceLedger
  import opened InvoiceLedgerProofs

  predicate Accepted(status: Status) {
    status == Paid || status == Overpaid
  }

  predicate IsOpen(status: Status) {
    status == Unpaid || status == InProgress || status == PartiallyPaid
  }

  // --- Evidence and tolerances ---

  /** What counts as evidence: a positive amount on one of the four rails and sources that go together, the
      outpoint and address of a direct payment, the transaction and swap of a Boltz settlement. */
  lemma ValidIff(e: Evidence)
    ensures Valid(e) <==>
      && e.amountSat >= 1 && e.txid.Some?
      && (|| ((e.rail, e.source) in {(Bitcoin, BitcoinDirect), (Liquid, LiquidDirect)}
              && e.vout.Some? && e.vout.value >= 0 && e.address.Some? && e.boltzSwapId.None?)
          || ((e.rail, e.source) in {(Lightning, LightningBoltzReverse), (Bitcoin, BitcoinBoltzChain)}
              && e.vout.None? && e.boltzSwapId.Some?))
  {
  }

  /** And what is wrong with anything else: the amount first, then the rail, then whether the source goes
      with it, then the fields. */
  lemma RejectedFor(e: Evidence)
    ensures Validate(e) == Some(AmountNotPositive) <==> e.amountSat <= 0
    ensures Validate(e) == Some(RailUnknown) <==> e.amountSat > 0 && e.rail !in {Bitcoin, Liquid, Lightning}
    ensures Validate(e) == Some(SourceRailMismatch) <==>
      && e.amountSat > 0 && e.rail in {Bitcoin, Liquid, Lightning}
      && (e.source == BitcoinDirect ==> e.rail != Bitcoin) && (e.source == LiquidDirect ==> e.rail != Liquid)
      && (e.source == LightningBoltzReverse ==> e.rail != Lightning)
      && (e.source == BitcoinBoltzChain ==> e.rail != Bitcoin)
  {
  }

  /** A rail forgives what is configured for it, at most one percent of the amount or else one sat. */
  lemma ForgivenIff(amountSat: int, tol: Tolerances, short: int)
    requires amountSat > 0 && short >= 1
    ensures short <= Tolerance(amountSat, Bitcoin, tol)
      <==> short <= tol.btcSat && (short == 1 || 100 * short <= amountSat)
    ensures short <= Tolerance(amountSat, Liquid, tol)
      <==> short <= tol.liquidSat && (short == 1 || 100 * short <= amountSat)
    ensures short <= Tolerance(amountSat, Lightning, tol)
      <==> short <= tol.lightningSat && (short == 1 || 100 * short <= amountSat)
  {
  }

  // --- One payment ---

  /** Only the columns a payment is about can change. */
  ghost predicate SameInvoice(a: Invoice, b: Invoice) {
    a.amountSat == b.amountSat && a.origin == b.origin && a.expiresAt == b.expiresAt && a.cancelledAt == b.cancelledAt
        && a.selectedBy == b.selectedBy
  }

  /** What an invoice reads after a payment changed its events: accepted when the sum is in excess or short
      by no more than the rail forgives, and then settled; otherwise with no settlement under way; and paid
      at the time it was first accepted. */
  ghost predicate ReadsAfterPayment(before: Invoice, after: Invoice, forgiven: int, now: int) {
    var short := before.amountSat - SumAmounts(after.events);
    && (after.status == Overpaid <==> short < 0)
    && (after.status == Paid <==> 0 <= short <= forgiven)
    && (after.status == Underpaid <==> short > forgiven && (before.status == Underpaid || before.expiresAt <= now))
    && (after.status == PartiallyPaid <==> short > forgiven && before.status != Underpaid && now < before.expiresAt)
    && after.settlement == (if Accepted(after.status) then Settled else NoSettlement)
    && after.paidAt == (if before.paidAt.None? && Accepted(after.status) then Some(now) else before.paidAt)
    && after.paidAmountSat == Some(SumAmounts(after.events))
  }

  /** A payment either leaves the invoice as it is, or changes its events and is read off them. */
  lemma PaymentColumns(inv: Invoice, e: Evidence, tol: Tolerances, now: int)
    requires inv.amountSat > 0
    ensures var inv' := Record(inv, e, tol, now).0;
      inv' == inv || (&& inv'.events != inv.events && SameInvoice(inv, inv')
                      && ReadsAfterPayment(inv, inv', Tolerance(inv.amountSat, e.rail, tol), now))
  {
    RecordResets(inv, e, tol, now);
  }

  /** Boltz has settled the transaction of this direct payment. */
  ghost predicate SettledAlready(inv: Invoice, e: Evidence) {
    && e.source == LiquidDirect
    && exists r :: r in inv.events && r.evidence.txid == e.txid
         && r.evidence.source in {LightningBoltzReverse, BitcoinBoltzChain}
  }

  /** The direct event of a transaction that this settlement is about. */
  ghost predicate GivesWay(r: EventRow, e: Evidence) {
    e.source in {LightningBoltzReverse, BitcoinBoltzChain} && r.evidence.source == LiquidDirect
      && r.evidence.txid == e.txid
  }

  ghost predicate KeyStays(inv: Invoice, e: Evidence) {
    exists r :: r in inv.events && r.evidence.eventKey == e.eventKey && !GivesWay(r, e)
  }

  /** It leaves it exactly when it is no evidence, the invoice is cancelled, Boltz has settled the same
      transaction, or its event is there already and none gives way to it. And it answers one row when its
      event is new, none otherwise. */
  lemma PaymentIgnoredIff(inv: Invoice, e: Evidence, tol: Tolerances, now: int)
    ensures var (inv', answer) := Record(inv, e, tol, now);
      var ignored := !Valid(e) || inv.status == Cancelled || SettledAlready(inv, e);
      && (inv' == inv <==> ignored || (KeyStays(inv, e) && forall r :: r in inv.events ==> !GivesWay(r, e)))
      && (Valid(e) ==> answer == Rows(if ignored || KeyStays(inv, e) then 0 else 1))
      && (!Valid(e) ==> answer == Rejected(Validate(e).value))
  {
    PruneMembers(inv.events, e.txid);
    RecordResets(inv, e, tol, now);
    if forall r :: r in inv.events ==> !GivesWay(r, e) {
      if IsBoltz(e.source) {
        PruneNothing(inv.events, e.txid);
      }
    } else if |PruneDirect(inv.events, e.txid)| == |inv.events| {
      PrunedNone(inv.events, e.txid);
    }
  }

  // --- The other writers ---

  /** The sweep past the deadline changes exactly the open invoices whose deadline is strictly past, and only
      their status: with something received they end short, with nothing expired. */
  lemma ExpireIff(inv: Invoice, now: int)
    requires Inv(inv)
    ensures var inv' := Expire(inv, now);
      && (inv' != inv <==> IsOpen(inv.status) && inv.expiresAt < now)
      && inv' == inv.(status := inv'.status)
      && (inv' != inv ==> inv'.status == if inv.events == [] then Expired else Underpaid)
  {
  }

  predicate Opens(to: Settlement) {
    to == Pending || to == ClaimStuck || to == Refunded
  }

  /** A sweep takes up a checkout's partial payment when all its events are older than the grace period and
      its settlement is not open. */
  lemma StaleIff(inv: Invoice, graceSecs: nat, now: int)
    requires Inv(inv)
    ensures IsStale(inv, graceSecs, now) <==>
      && inv.origin == Checkout && inv.status == PartiallyPaid
      && !Opens(inv.settlement)
      && forall r :: r in inv.events ==> r.createdAt < now - graceSecs
  {
    if inv.events != [] {
      LatestBefore(inv.events, now - graceSecs);
    }
  }

  lemma {:induction false} LatestBefore(rows: seq<EventRow>, t: int)
    requires rows != []
    ensures LatestEvent(rows).Some? && (LatestEvent(rows).value < t <==> forall r :: r in rows ==> r.createdAt < t)
  {
    assert forall r :: r in rows <==> r == rows[0] || r in rows[1..];
    if |rows| > 1 {
      LatestBefore(rows[1..], t);
    }
  }

  /** The sweep of one invoice is its snapshot and its write. */
  lemma WholeSweep(inv: Invoice, sweep: SweepId, graceSecs: nat, now: int)
    requires sweep !in inv.selectedBy
    ensures TerminalizeStale(inv, graceSecs, now) == WriteStale(SelectStale(inv, sweep, graceSecs, now), sweep, true)
  {
    assert inv.selectedBy + {sweep} - {sweep} == inv.selectedBy;
  }

  // --- The columns over runs ---

  lemma Unfold(inv0: Invoice, steps: seq<Step>, tol: Tolerances)
    requires steps != []
    ensures Run(inv0, steps, tol) == Apply(Run(inv0, steps[..|steps|-1], tol), steps[|steps|-1], tol)
  {
  }

  /** Who accepts an invoice: only a payment, and it dates it. */
  lemma AcceptedStep(inv: Invoice, step: Step, tol: Tolerances)
    requires Inv(inv)
    ensures var inv' := Apply(inv, step, tol);
      && (Accepted(inv'.status) && !Accepted(inv.status) ==>
            step.RecordPayment? && inv'.paidAt == if inv.paidAt.None? then Some(step.now) else inv.paidAt)
      && (inv'.paidAt != inv.paidAt ==> inv.paidAt.None? && Accepted(inv'.status))
  {
    if step.RecordPayment? {
      PaymentColumns(inv, step.evidence, tol, step.now);
    }
  }

  /** Step `n` is the first that leaves the invoice accepted. */
  ghost predicate FirstAccepts(inv0: Invoice, steps: seq<Step>, n: nat, tol: Tolerances)
    requires n < |steps|
  {
    Accepted(At(inv0, steps, n + 1, tol).status)
    && forall m :: 0 <= m <= n ==> !Accepted(At(inv0, steps, m, tol).status)
  }

  lemma AtPrefix(inv0: Invoice, steps: seq<Step>, k: nat, tol: Tolerances)
    requires k < |steps|
    ensures At(inv0, steps[..|steps|-1], k, tol) == At(inv0, steps, k, tol)
  {
    assert steps[..|steps|-1][..k] == steps[..k];
  }

  lemma AtEnds(inv0: Invoice, steps: seq<Step>, tol: Tolerances)
    ensures At(inv0, steps, |steps|, tol) == Run(inv0, steps, tol)
    ensures steps != [] ==> At(inv0, steps, |steps| - 1, tol) == Run(inv0, steps[..|steps|-1], tol)
  {
    assert steps[..|steps|] == steps;
  }

  /** The invoice was accepted at some point of the run. */
  ghost predicate WasAccepted(inv0: Invoice, steps: seq<Step>, tol: Tolerances) {
    exists m :: 0 <= m <= |steps| && Accepted(At(inv0, steps, m, tol).status)
  }

  lemma WasAcceptedSnoc(inv0: Invoice, steps: seq<Step>, tol: Tolerances)
    requires steps != []
    ensures WasAccepted(inv0, steps, tol)
      <==> WasAccepted(inv0, steps[..|steps|-1], tol) || Accepted(Run(inv0, steps, tol).status)
  {
    var init := steps[..|steps|-1];
    AtEnds(inv0, steps, tol);
    if m :| 0 <= m <= |init| && Accepted(At(inv0, init, m, tol).status) {
      AtPrefix(inv0, steps, m, tol);
      assert Accepted(At(inv0, steps, m, tol).status);
    }
    if m :| 0 <= m <= |steps| && Accepted(At(inv0, steps, m, tol).status) && m <= |init| {
      AtPrefix(inv0, steps, m, tol);
      assert Accepted(At(inv0, init, m, tol).status);
    }
  }

  lemma {:induction false} DatedIfAccepted(inv0: Invoice, steps: seq<Step>, tol: Tolerances)
    requires Fresh(inv0)
    ensures Run(inv0, steps, tol).paidAt.Some? <==> WasAccepted(inv0, steps, tol)
  {
    LedgerInvariant(inv0, steps, tol);
    if steps == [] {
      AtEnds(inv0, steps, tol);
    } else {
      var init := steps[..|steps|-1];
      DatedIfAccepted(inv0, init, tol);
      LedgerInvariant(inv0, init, tol);
      AcceptedStep(Run(inv0, init, tol), steps[|steps|-1], tol);
      WasAcceptedSnoc(inv0, steps, tol);
    }
  }

  /** A payment at `t` is the first step that leaves the invoice accepted. */
  ghost predicate AcceptedFirstAt(inv0: Invoice, steps: seq<Step>, t: int, tol: Tolerances) {
    exists n :: 0 <= n < |steps| && FirstAccepts(inv0, steps, n, tol) && steps[n].RecordPayment? && steps[n].now == t
  }

  lemma FirstAcceptsPrefix(inv0: Invoice, steps: seq<Step>, n: nat, tol: Tolerances)
    requires n + 1 < |steps|
    ensures FirstAccepts(inv0, steps, n, tol) <==> FirstAccepts(inv0, steps[..|steps|-1], n, tol)
  {
    var init := steps[..|steps|-1];
    assert forall m :: 0 <= m <= n + 1 ==> init[..m] == steps[..m];
    assert forall m :: 0 <= m <= n + 1 ==> At(inv0, init, m, tol) == At(inv0, steps, m, tol);
  }

  lemma FirstAcceptsLast(inv0: Invoice, steps: seq<Step>, tol: Tolerances)
    requires steps != []
    ensures FirstAccepts(inv0, steps, |steps| - 1, tol)
      <==> Accepted(Run(inv0, steps, tol).status) && !WasAccepted(inv0, steps[..|steps|-1], tol)
  {
    var init := steps[..|steps|-1];
    AtEnds(inv0, steps, tol);
    assert forall m :: 0 <= m <= |init| ==> init[..m] == steps[..m];
    assert forall m :: 0 <= m <= |init| ==> At(inv0, init, m, tol) == At(inv0, steps, m, tol);
  }

  lemma AcceptedFirstSnoc(inv0: Invoice, steps: seq<Step>, t: int, tol: Tolerances)
    requires steps != []
    ensures var init, last := steps[..|steps|-1], steps[|steps|-1];
      AcceptedFirstAt(inv0, steps, t, tol) <==>
        || AcceptedFirstAt(inv0, init, t, tol)
        || (Accepted(Run(inv0, steps, tol).status) && !WasAccepted(inv0, init, tol)
            && last.RecordPayment? && last.now == t)
  {
    var init, k := steps[..|steps|-1], |steps| - 1;
    FirstAcceptsLast(inv0, steps, tol);
    if n :| 0 <= n < |init| && FirstAccepts(inv0, init, n, tol) && init[n].RecordPayment? && init[n].now == t {
      FirstAcceptsPrefix(inv0, steps, n, tol);
      assert steps[n] == init[n];
    }
    if n :| 0 <= n < |steps| && FirstAccepts(inv0, steps, n, tol) && steps[n].RecordPayment? && steps[n].now == t {
      if n < k {
        FirstAcceptsPrefix(inv0, steps, n, tol);
        assert steps[n] == init[n];
      }
    }
  }

  /** Main result: `paid_at` is the time of the payment that first made the invoice accepted, and is there
      exactly when there was one. */
  lemma {:induction false} PaidAtIff(inv0: Invoice, steps: seq<Step>, t: int, tol: Tolerances)
    requires Fresh(inv0)
    ensures Run(inv0, steps, tol).paidAt == Some(t) <==> AcceptedFirstAt(inv0, steps, t, tol)
  {
    if steps != [] {
      var init := steps[..|steps|-1];
      PaidAtIff(inv0, init, t, tol);
      DatedIfAccepted(inv0, init, tol);
      DatedIfAccepted(inv0, steps, tol);
      LedgerInvariant(inv0, init, tol);
      AcceptedStep(Run(inv0, init, tol), steps[|steps|-1], tol);
      WasAcceptedSnoc(inv0, steps, tol);
      AcceptedFirstSnoc(inv0, steps, t, tol);
    }
  }

  // --- Settlement ---

  /** What a step writes to the settlement column, if it writes it: whoever settles an open invoice, the
      first sign of a payment, and a payment. */
  ghost function SettlementWritten(inv: Invoice, step: Step, tol: Tolerances): Option<Settlement> {
    match step
    case SettlementStep(to) => if IsOpen(inv.status) then Some(to) else None
    case InProgressStep => if inv.status == Unpaid then Some(Pending) else None
    case RecordPayment(_, _) =>
      var after := Apply(inv, step, tol);
      if after.events == inv.events then None
      else Some(if SumAmounts(after.events) > inv.amountSat || after.status == Paid then Settled else NoSettlement)
    case _ => None
  }

  ghost function LastSettlement(inv0: Invoice, steps: seq<Step>, tol: Tolerances): Settlement {
    if steps == [] then NoSettlement
    else
      var init := steps[..|steps|-1];
      SettlementWritten(Run(inv0, init, tol), steps[|steps|-1], tol).GetOr(LastSettlement(inv0, init, tol))
  }

  lemma SettlementStepWrites(inv: Invoice, step: Step, tol: Tolerances)
    requires Inv(inv)
    ensures Apply(inv, step, tol).settlement == SettlementWritten(inv, step, tol).GetOr(inv.settlement)
  {
    if step.RecordPayment? {
      PaymentColumns(inv, step.evidence, tol, step.now);
    }
  }

  lemma {:induction false} SettlementIsLastWritten(inv0: Invoice, steps: seq<Step>, tol: Tolerances)
    requires Fresh(inv0)
    ensures Run(inv0, steps, tol).settlement == LastSettlement(inv0, steps, tol)
  {
    if steps != [] {
      var init := steps[..|steps|-1];
      SettlementIsLastWritten(inv0, init, tol);
      LedgerInvariant(inv0, init, tol);
      SettlementStepWrites(Run(inv0, init, tol), steps[|steps|-1], tol);
    }
  }

  /** Step `j` is neither a settlement write nor a payment that counts. */
  ghost predicate LeavesSettlement(inv0: Invoice, steps: seq<Step>, j: nat, tol: Tolerances)
    requires j < |steps|
  {
    !steps[j].SettlementStep? && At(inv0, steps, j + 1, tol).events == At(inv0, steps, j, tol).events
  }

  /** Write `k` opened the settlement, and neither another such write nor a payment has come since. */
  ghost predicate OpenedAt(inv0: Invoice, steps: seq<Step>, k: nat, tol: Tolerances)
    requires k < |steps|
  {
    && steps[k].SettlementStep? && Opens(steps[k].settlement)
    && forall j :: k < j < |steps| ==> LeavesSettlement(inv0, steps, j, tol)
  }

  ghost predicate OpenedSince(inv0: Invoice, steps: seq<Step>, tol: Tolerances) {
    exists k :: 0 <= k < |steps| && OpenedAt(inv0, steps, k, tol)
  }

  lemma LeavesPrefix(inv0: Invoice, steps: seq<Step>, j: nat, tol: Tolerances)
    requires j + 1 < |steps|
    ensures LeavesSettlement(inv0, steps, j, tol) <==> LeavesSettlement(inv0, steps[..|steps|-1], j, tol)
  {
    AtPrefix(inv0, steps, j, tol);
    AtPrefix(inv0, steps, j + 1, tol);
  }

  lemma LeavesLast(inv0: Invoice, steps: seq<Step>, tol: Tolerances)
    requires steps != []
    ensures LeavesSettlement(inv0, steps, |steps| - 1, tol) <==>
      !steps[|steps|-1].SettlementStep?
          && Run(inv0, steps, tol).events == Run(inv0, steps[..|steps|-1], tol).events
  {
    AtEnds(inv0, steps, tol);
  }

  lemma OpenedAtSnoc(inv0: Invoice, steps: seq<Step>, k: nat, tol: Tolerances)
    requires k + 1 < |steps|
    ensures OpenedAt(inv0, steps, k, tol)
      <==> OpenedAt(inv0, steps[..|steps|-1], k, tol) && LeavesSettlement(inv0, steps, |steps| - 1, tol)
  {
    var init := steps[..|steps|-1];
    assert init[k] == steps[k];
    forall j | k < j < |init|
      ensures LeavesSettlement(inv0, steps, j, tol) <==> LeavesSettlement(inv0, init, j, tol)
    {
      LeavesPrefix(inv0, steps, j, tol);
    }
    if OpenedAt(inv0, init, k, tol) && LeavesSettlement(inv0, steps, |init|, tol) {
      forall j | k < j < |steps| ensures LeavesSettlement(inv0, steps, j, tol) {
        if j < |init| {
          assert LeavesSettlement(inv0, init, j, tol);
        }
      }
    }
  }

  lemma OpenedSinceSnoc(inv0: Invoice, steps: seq<Step>, tol: Tolerances)
    requires steps != []
    ensures var init, last := steps[..|steps|-1], steps[|steps|-1];
      OpenedSince(inv0, steps, tol) <==>
        || (last.SettlementStep? && Opens(last.settlement))
        || (!last.SettlementStep? && OpenedSince(inv0, init, tol)
            && Run(inv0, steps, tol).events == Run(inv0, init, tol).events)
  {
    var init, n := steps[..|steps|-1], |steps| - 1;
    LeavesLast(inv0, steps, tol);
    if k :| 0 <= k < |steps| && OpenedAt(inv0, steps, k, tol) && k < n {
      OpenedAtSnoc(inv0, steps, k, tol);
    }
    if k :| 0 <= k < |init| && OpenedAt(inv0, init, k, tol) {
      OpenedAtSnoc(inv0, steps, k, tol);
    }
    if steps[n].SettlementStep? && Opens(steps[n].settlement) {
      assert OpenedAt(inv0, steps, n, tol);
    }
  }

  lemma {:induction false} OpenSettlementIff(inv0: Invoice, steps: seq<Step>, tol: Tolerances)
    requires Fresh(inv0) && Run(inv0, steps, tol).status == PartiallyPaid
    ensures Opens(Run(inv0, steps, tol).settlement) <==> OpenedSince(inv0, steps, tol)
  {
    if steps != [] {
      var init, last := steps[..|steps|-1], steps[|steps|-1];
      var inv := Run(inv0, init, tol);
      LedgerInvariant(inv0, init, tol);
      OpenedSinceSnoc(inv0, steps, tol);
      SettlementStepWrites(inv, last, tol);
      PartialStep(inv, last, tol);
      if inv.status == PartiallyPaid {
        OpenSettlementIff(inv0, init, tol);
      }
    }
  }

  /** Only a payment leaves an invoice partially paid that was not. */
  lemma PartialStep(inv: Invoice, step: Step, tol: Tolerances)
    requires Inv(inv) && Apply(inv, step, tol).status == PartiallyPaid
    ensures inv.status == PartiallyPaid || (step.RecordPayment? && Apply(inv, step, tol).events != inv.events)
  {
    if step.RecordPayment? {
      PaymentColumns(inv, step.evidence, tol, step.now);
    }
  }

  /** Main result: after any run the sweep takes up a checkout's partial payment past its grace exactly when no
      write has opened its settlement since the last payment and settlement write: whatever was in progress
      before it, a payment resets it. */
  lemma SweepSelectsIff(inv0: Invoice, steps: seq<Step>, tol: Tolerances, sweep: SweepId, graceSecs: nat, now: int)
    requires Fresh(inv0) && sweep !in Run(inv0, steps, tol).selectedBy
    ensures var inv := Run(inv0, steps, tol);
      sweep in SelectStale(inv, sweep, graceSecs, now).selectedBy <==>
        && inv0.origin == Checkout && inv.status == PartiallyPaid && !OpenedSince(inv0, steps, tol)
        && forall r :: r in inv.events ==> r.createdAt < now - graceSecs
  {
    LedgerInvariant(inv0, steps, tol);
    OriginFixed(inv0, steps, tol);
    StaleIff(Run(inv0, steps, tol), graceSecs, now);
    if Run(inv0, steps, tol).status == PartiallyPaid {
      OpenSettlementIff(inv0, steps, tol);
    }
  }

  lemma {:induction false} OriginFixed(inv0: Invoice, steps: seq<Step>, tol: Tolerances)
    ensures Run(inv0, steps, tol).origin == inv0.origin
  {
    if steps != [] {
      OriginFixed(inv0, steps[..|steps|-1], tol);
    }
  }

  // --- The statuses of an invoice nothing was received for ---

  /** A sweep past the deadline finds the invoice open with nothing received. */
  ghost predicate Lapses(inv: Invoice, step: Step) {
    step.ExpireStep? && inv.expiresAt < step.now && inv.status in {Unpaid, InProgress}
  }

  /** Somebody cancels it while it is unpaid. */
  ghost predicate Cancels(inv: Invoice, step: Step) {
    step.CancelStep? && inv.status == Unpaid
  }

  ghost predicate Starts(inv: Invoice, step: Step) {
    step.InProgressStep? && inv.status == Unpaid
  }

  lemma StatusStep(inv: Invoice, step: Step, tol: Tolerances)
    requires Inv(inv)
    ensures var inv' := Apply(inv, step, tol); var kept := inv'.events == inv.events;
      && (inv'.status == Expired <==> Lapses(inv, step) || (inv.status == Expired && kept))
      && (inv'.status == Cancelled <==> Cancels(inv, step) || inv.status == Cancelled)
      && (inv'.status == InProgress <==>
            kept && (Starts(inv, step) || (inv.status == InProgress && !Lapses(inv, step))))
      && (inv'.status == Unpaid <==>
            kept && inv.status == Unpaid && !Lapses(inv, step) && !Cancels(inv, step) && !Starts(inv, step))
      && inv'.cancelledAt == (if Cancels(inv, step) then Some(step.now) else inv.cancelledAt)
      && inv'.expiresAt == inv.expiresAt && (inv'.events == [] ==> inv.events == [])
  {
    if step.RecordPayment? {
      PaymentColumns(inv, step.evidence, tol, step.now);
    }
  }

  ghost predicate LapsedAt(inv0: Invoice, steps: seq<Step>, n: nat, tol: Tolerances)
    requires n < |steps|
  {
    Lapses(At(inv0, steps, n, tol), steps[n])
  }

  ghost predicate CancelledAt(inv0: Invoice, steps: seq<Step>, n: nat, t: int, tol: Tolerances)
    requires n < |steps|
  {
    Cancels(At(inv0, steps, n, tol), steps[n]) && steps[n].now == t
  }

  ghost predicate StartedAt(inv0: Invoice, steps: seq<Step>, n: nat, tol: Tolerances)
    requires n < |steps|
  {
    Starts(At(inv0, steps, n, tol), steps[n])
  }

  ghost predicate Lapsed(inv0: Invoice, steps: seq<Step>, tol: Tolerances) {
    exists n :: 0 <= n < |steps| && LapsedAt(inv0, steps, n, tol)
  }

  ghost predicate WasCancelled(inv0: Invoice, steps: seq<Step>, t: int, tol: Tolerances) {
    exists n :: 0 <= n < |steps| && CancelledAt(inv0, steps, n, t, tol)
  }

  ghost predicate Started(inv0: Invoice, steps: seq<Step>, tol: Tolerances) {
    exists n :: 0 <= n < |steps| && StartedAt(inv0, steps, n, tol)
  }

  lemma LapsedSnoc(inv0: Invoice, steps: seq<Step>, tol: Tolerances)
    requires steps != []
    ensures var init, last := steps[..|steps|-1], steps[|steps|-1];
      Lapsed(inv0, steps, tol) <==> Lapsed(inv0, init, tol) || Lapses(Run(inv0, init, tol), last)
  {
    var init, k := steps[..|steps|-1], |steps| - 1;
    AtEnds(inv0, steps, tol);
    assert LapsedAt(inv0, steps, k, tol) <==> Lapses(Run(inv0, init, tol), steps[k]);
    forall n | 0 <= n < k ensures LapsedAt(inv0, steps, n, tol) <==> LapsedAt(inv0, init, n, tol) {
      AtPrefix(inv0, steps, n, tol);
    }
  }

  lemma WasCancelledSnoc(inv0: Invoice, steps: seq<Step>, t: int, tol: Tolerances)
    requires steps != []
    ensures var init, last := steps[..|steps|-1], steps[|steps|-1];
      WasCancelled(inv0, steps, t, tol)
      <==> WasCancelled(inv0, init, t, tol) || (Cancels(Run(inv0, init, tol), last) && last.now == t)
  {
    var init, k := steps[..|steps|-1], |steps| - 1;
    AtEnds(inv0, steps, tol);
    assert CancelledAt(inv0, steps, k, t, tol) <==> Cancels(Run(inv0, init, tol), steps[k]) && steps[k].now == t;
    forall n | 0 <= n < k ensures CancelledAt(inv0, steps, n, t, tol) <==> CancelledAt(inv0, init, n, t, tol) {
      AtPrefix(inv0, steps, n, tol);
    }
  }

  lemma StartedSnoc(inv0: Invoice, steps: seq<Step>, tol: Tolerances)
    requires steps != []
    ensures var init, last := steps[..|steps|-1], steps[|steps|-1];
      Started(inv0, steps, tol) <==> Started(inv0, init, tol) || Starts(Run(inv0, init, tol), last)
  {
    var init, k := steps[..|steps|-1], |steps| - 1;
    AtEnds(inv0, steps, tol);
    assert StartedAt(inv0, steps, k, tol) <==> Starts(Run(inv0, init, tol), steps[k]);
    forall n | 0 <= n < k ensures StartedAt(inv0, steps, n, tol) <==> StartedAt(inv0, init, n, tol) {
      AtPrefix(inv0, steps, n, tol);
    }
  }

  /** Main result: an invoice reads `expired` exactly when a sweep after its deadline found it open with nothing
      received, and nothing has been received since. */
  lemma {:induction false} ExpiredIff(inv0: Invoice, steps: seq<Step>, tol: Tolerances)
    requires Fresh(inv0)
    ensures Run(inv0, steps, tol).status == Expired
      <==> Run(inv0, steps, tol).events == [] && Lapsed(inv0, steps, tol)
  {
    if steps != [] {
      var init := steps[..|steps|-1];
      ExpiredIff(inv0, init, tol);
      LedgerInvariant(inv0, init, tol);
      LedgerInvariant(inv0, steps, tol);
      StatusStep(Run(inv0, init, tol), steps[|steps|-1], tol);
      LapsedSnoc(inv0, steps, tol);
    }
  }

  /** An unpaid invoice has been neither cancelled nor started nor expired. */
  lemma {:induction false} StillUnpaid(inv0: Invoice, steps: seq<Step>, tol: Tolerances)
    requires Fresh(inv0) && Run(inv0, steps, tol).status == Unpaid
    ensures Run(inv0, steps, tol).cancelledAt.None? && !Started(inv0, steps, tol) && !Lapsed(inv0, steps, tol)
  {
    if steps != [] {
      var init := steps[..|steps|-1];
      LedgerInvariant(inv0, init, tol);
      StatusStep(Run(inv0, init, tol), steps[|steps|-1], tol);
      StillUnpaid(inv0, init, tol);
      LapsedSnoc(inv0, steps, tol);
      StartedSnoc(inv0, steps, tol);
    }
  }

  /** Main result: it is cancelled, for good and as of then, exactly when somebody cancelled it unpaid. */
  lemma {:induction false} CancelledIff(inv0: Invoice, steps: seq<Step>, t: int, tol: Tolerances)
    requires Fresh(inv0)
    ensures var inv := Run(inv0, steps, tol);
      && (inv.status == Cancelled <==> inv.cancelledAt.Some?)
      && (inv.cancelledAt == Some(t) <==> WasCancelled(inv0, steps, t, tol))
  {
    LedgerInvariant(inv0, steps, tol);
    if steps != [] {
      var init := steps[..|steps|-1];
      CancelledIff(inv0, init, t, tol);
      LedgerInvariant(inv0, init, tol);
      StatusStep(Run(inv0, init, tol), steps[|steps|-1], tol);
      WasCancelledSnoc(inv0, steps, t, tol);
      if Run(inv0, init, tol).status == Unpaid {
        StillUnpaid(inv0, init, tol);
      }
    }
  }

  /** Main result: it is in progress exactly when somebody saw a payment coming while it was unpaid, nothing has
      been received and no sweep after the deadline has closed it. */
  lemma {:induction false} InProgressIff(inv0: Invoice, steps: seq<Step>, tol: Tolerances)
    requires Fresh(inv0)
    ensures Run(inv0, steps, tol).status == InProgress <==>
      Run(inv0, steps, tol).events == [] && Started(inv0, steps, tol) && !Lapsed(inv0, steps, tol)
  {
    if steps != [] {
      var init := steps[..|steps|-1];
      InProgressIff(inv0, init, tol);
      LedgerInvariant(inv0, init, tol);
      LedgerInvariant(inv0, steps, tol);
      StatusStep(Run(inv0, init, tol), steps[|steps|-1], tol);
      LapsedSnoc(inv0, steps, tol);
      StartedSnoc(inv0, steps, tol);
      if Run(inv0, init, tol).status == Unpaid {
        StillUnpaid(inv0, init, tol);
      }
    }
  }
}

/** When a status, once reached, lasts: on a single rail, across rails, with prunes, and with batch sweeps
    that write an invoice accepted since they selected it. */
module InvoiceStability {
  import opened Base
  import opened Chain
  import opened InvoiceLedger
  import opened InvoiceLedgerProofs

  /** How a status may change later in a run: `overpaid` and `cancelled` are final, `paid` only
      becomes `overpaid`, `underpaid` only becomes `paid` or `overpaid`. */
  ghost predicate MayBecome(a: Status, b: Status) {
    a == b || match a
      case Overpaid => false
      case Cancelled => false
      case Paid => b == Overpaid
      case Underpaid => b == Paid || b == Overpaid
      case _ => true
  }

  /** The sum explains the status, with shortfalls of up to `t` counted as paid; sweeps select payments. */
  ghost predicate Covered(inv: Invoice, t: int) {
    var sum := SumAmounts(inv.events);
    && (inv.status == Paid ==> inv.amountSat - sum <= t) && (inv.status == Overpaid ==> sum > inv.amountSat)
    && (inv.selectedBy != {} ==> HasEvents(inv.status))
  }

  /** A batch sweep writes a row that has been accepted since it was selected. */
  ghost predicate SweepsAccepted(inv: Invoice, step: Step) {
    step.WriteStep? && !step.rechecks && step.sweep in inv.selectedBy && inv.status in {Paid, Overpaid}
  }

  ghost predicate PrunesNothing(rows: seq<EventRow>, e: Evidence) {
    IsBoltz(e.source) ==> forall r :: r in rows ==> !IsDirectLiquidOf(r, e.txid)
  }

  /** Without a direct Liquid row of a Boltz transaction to prune, a payment only adds to the sum. */
  lemma RecordAppends(inv: Invoice, e: Evidence, tol: Tolerances, now: int)
    requires PrunesNothing(inv.events, e)
    ensures var inv' := Record(inv, e, tol, now).0;
      || inv' == inv
      || (&& Valid(e) && inv.status != Cancelled
          && inv' == Recompute(inv, inv.events + [EventRow(e, now)], e.rail, tol, now)
          && SumAmounts(inv'.events) == SumAmounts(inv.events) + e.amountSat)
  {
    if IsBoltz(e.source) {
      PruneNothing(inv.events, e.txid);
    }
    SumAppend(inv.events, EventRow(e, now));
  }

  /** One step that prunes nothing, when the tolerances in use lie between `t - 1` and `t`. */
  lemma CoveredStep(inv: Invoice, step: Step, tol: Tolerances, t: int)
    requires Covered(inv, t)
    requires step.RecordPayment? ==> PrunesNothing(inv.events, step.evidence)
    requires step.RecordPayment? && Valid(step.evidence) ==> Tolerance(inv.amountSat, step.evidence.rail, tol) <= t
    ensures var inv' := Apply(inv, step, tol);
      && Covered(inv', t) && SumAmounts(inv'.events) >= SumAmounts(inv.events) && inv'.amountSat == inv.amountSat
    ensures var e := if step.RecordPayment? then Some(step.evidence) else None;
      (e.Some? && Valid(e.value) ==> t - 1 <= Tolerance(inv.amountSat, e.value.rail, tol)) ==>
      (MayBecome(inv.status, Apply(inv, step, tol).status) <==> !SweepsAccepted(inv, step))
  {
    if step.RecordPayment? {
      RecordAppends(inv, step.evidence, tol, step.now);
    }
  }

  // --- One rail ---

  ghost predicate OnRail(steps: seq<Step>, rail: Rail) {
    forall s :: s in steps && s.RecordPayment? ==> s.evidence.rail == rail
  }

  ghost predicate RowsOnRail(inv: Invoice, rail: Rail) {
    forall r :: r in inv.events ==> Valid(r.evidence) && r.evidence.rail == rail
  }

  lemma SingleRailStep(inv: Invoice, step: Step, rail: Rail, tol: Tolerances)
    requires RowsOnRail(inv, rail) && (step.RecordPayment? ==> step.evidence.rail == rail)
    requires Covered(inv, Tolerance(inv.amountSat, rail, tol))
    ensures var inv' := Apply(inv, step, tol);
      && RowsOnRail(inv', rail) && Covered(inv', Tolerance(inv.amountSat, rail, tol)) && inv'.amountSat == inv.amountSat
      && SumAmounts(inv'.events) >= SumAmounts(inv.events)
      && (MayBecome(inv.status, inv'.status) <==> !SweepsAccepted(inv, step))
  {
    if step.RecordPayment? {
      var e := step.evidence;
      if Valid(e) {
        RecordAppends(inv, e, tol, step.now);
        CoveredStep(inv, step, tol, Tolerance(inv.amountSat, rail, tol));
      }
    } else {
      CoveredStep(inv, step, tol, Tolerance(inv.amountSat, rail, tol));
    }
  }

  lemma {:induction false} SingleRailRun(inv0: Invoice, steps: seq<Step>, n: nat, rail: Rail, tol: Tolerances)
    requires Fresh(inv0) && OnRail(steps, rail) && n <= |steps|
    ensures var inv := At(inv0, steps, n, tol);
      RowsOnRail(inv, rail) && inv.amountSat == inv0.amountSat && Covered(inv, Tolerance(inv.amountSat, rail, tol))
  {
    if n > 0 {
      SingleRailRun(inv0, steps, n - 1, rail, tol);
      AtStep(inv0, steps, n - 1, tol);
      SingleRailStep(At(inv0, steps, n - 1, tol), steps[n - 1], rail, tol);
    }
  }

  lemma SingleRailNext(inv0: Invoice, steps: seq<Step>, n: nat, rail: Rail, tol: Tolerances)
    requires Fresh(inv0) && OnRail(steps, rail) && n < |steps|
    ensures var a, b := At(inv0, steps, n, tol), At(inv0, steps, n + 1, tol);
      && SumAmounts(a.events) <= SumAmounts(b.events)
      && (MayBecome(a.status, b.status) <==> !SweepsAccepted(a, steps[n]))
  {
    SingleRailRun(inv0, steps, n, rail, tol);
    AtStep(inv0, steps, n, tol);
    SingleRailStep(At(inv0, steps, n, tol), steps[n], rail, tol);
  }

  /** From one point of the run to a later one. */
  lemma {:induction false} SumGrows(inv0: Invoice, steps: seq<Step>, i: nat, j: nat, rail: Rail, tol: Tolerances)
    requires Fresh(inv0) && OnRail(steps, rail) && i <= j <= |steps|
    ensures SumAmounts(At(inv0, steps, i, tol).events) <= SumAmounts(At(inv0, steps, j, tol).events)
  {
    if i < j {
      SumGrows(inv0, steps, i, j - 1, rail, tol);
      SingleRailNext(inv0, steps, j - 1, rail, tol);
    }
  }

  lemma {:induction false} StatusMoves(inv0: Invoice, steps: seq<Step>, i: nat, j: nat, rail: Rail, tol: Tolerances)
    requires Fresh(inv0) && OnRail(steps, rail) && i <= j <= |steps|
    requires forall n :: i <= n < j ==> !SweepsAccepted(At(inv0, steps, n, tol), steps[n])
    ensures MayBecome(At(inv0, steps, i, tol).status, At(inv0, steps, j, tol).status)
  {
    if i < j {
      StatusMoves(inv0, steps, i, j - 1, rail, tol);
      SingleRailNext(inv0, steps, j - 1, rail, tol);
      MovesOn(At(inv0, steps, i, tol).status, At(inv0, steps, j - 1, tol).status, At(inv0, steps, j, tol).status);
    }
  }

  lemma MovesOn(a: Status, b: Status, c: Status)
    requires MayBecome(a, b) && MayBecome(b, c)
    ensures MayBecome(a, c)
  {
  }

  /** Whatever statuses a run passes through, they move only as `MayBecome` allows. */
  ghost predicate MovesForward(inv0: Invoice, steps: seq<Step>, tol: Tolerances) {
    forall i, j :: 0 <= i <= j <= |steps|
      ==> MayBecome(At(inv0, steps, i, tol).status, At(inv0, steps, j, tol).status)
  }

  /** Main result: on a single rail the amount paid never decreases, and statuses move only as `MayBecome`
      allows exactly when no batch sweep writes an invoice accepted since it was selected, whatever
      cancels, expiries and other sweeps are interleaved. */
  lemma SingleRailStability(inv0: Invoice, steps: seq<Step>, rail: Rail, tol: Tolerances)
    requires Fresh(inv0) && OnRail(steps, rail)
    ensures forall i, j :: 0 <= i <= j <= |steps| ==>
      At(inv0, steps, i, tol).paidAmountSat.GetOr(0) <= At(inv0, steps, j, tol).paidAmountSat.GetOr(0)
    ensures MovesForward(inv0, steps, tol)
      <==> forall n :: 0 <= n < |steps| ==> !SweepsAccepted(At(inv0, steps, n, tol), steps[n])
  {
    forall i, j | 0 <= i <= j <= |steps|
      ensures At(inv0, steps, i, tol).paidAmountSat.GetOr(0) <= At(inv0, steps, j, tol).paidAmountSat.GetOr(0)
    {
      SumGrows(inv0, steps, i, j, rail, tol);
      PaidAmountIsSum(inv0, steps[..i], tol);
      PaidAmountIsSum(inv0, steps[..j], tol);
    }
    if MovesForward(inv0, steps, tol) {
      forall n | 0 <= n < |steps| ensures !SweepsAccepted(At(inv0, steps, n, tol), steps[n]) {
        SingleRailNext(inv0, steps, n, rail, tol);
      }
    }
    if forall n :: 0 <= n < |steps| ==> !SweepsAccepted(At(inv0, steps, n, tol), steps[n]) {
      forall i, j | 0 <= i <= j <= |steps|
        ensures MayBecome(At(inv0, steps, i, tol).status, At(inv0, steps, j, tol).status)
      {
        StatusMoves(inv0, steps, i, j, rail, tol);
      }
    }
  }

  lemma PaidAmountIsSum(inv0: Invoice, steps: seq<Step>, tol: Tolerances)
    requires Fresh(inv0)
    ensures var inv := Run(inv0, steps, tol); inv.paidAmountSat.GetOr(0) == SumAmounts(inv.events)
  {
    LedgerInvariant(inv0, steps, tol);
  }

  // --- Across rails ---

  function MaxTolerance(amountSat: int, tol: Tolerances): int {
    Max(Tolerance(amountSat, Bitcoin, tol),
        Max(Tolerance(amountSat, Liquid, tol), Tolerance(amountSat, Lightning, tol)))
  }

  function MinTolerance(amountSat: int, tol: Tolerances): int {
    Min(Tolerance(amountSat, Bitcoin, tol),
        Min(Tolerance(amountSat, Liquid, tol), Tolerance(amountSat, Lightning, tol)))
  }

  lemma ToleranceBetween(amountSat: int, rail: Rail, tol: Tolerances)
    requires !rail.UnknownRail?
    ensures MinTolerance(amountSat, tol) <= Tolerance(amountSat, rail, tol) <= MaxTolerance(amountSat, tol)
  {
  }

  /** No payment of the run makes another one be pruned. */
  ghost predicate PruneFree(steps: seq<Step>) {
    forall a, b :: a in History(steps) && b in History(steps) && a.source == LiquidDirect && IsBoltz(b.source)
      ==> a.txid != b.txid
  }

  /** Along prune-free runs, an invoice that is `paid` is `paid` or `overpaid` one step later. */
  ghost predicate PaidLasts(inv0: Invoice, tol: Tolerances) {
    forall steps, step :: PruneFree(steps + [step]) && Run(inv0, steps, tol).status == Paid ==>
      Run(inv0, steps + [step], tol).status in {Paid, Overpaid}
  }

  /** The same, but for a batch sweep that writes it. */
  ghost predicate PaidLastsUnswept(inv0: Invoice, tol: Tolerances) {
    forall steps, step :: PruneFree(steps + [step]) && Run(inv0, steps, tol).status == Paid
        && !SweepsAccepted(Run(inv0, steps, tol), step)
      ==> Run(inv0, steps + [step], tol).status in {Paid, Overpaid}
  }

  ghost predicate RowsFrom(inv: Invoice, h: set<Evidence>) {
    forall r :: r in inv.events ==> r.evidence in h
  }

  lemma PruneFreeStep(inv: Invoice, steps: seq<Step>, step: Step, tol: Tolerances)
    requires RowsFrom(inv, History(steps)) && PruneFree(steps + [step])
    requires Covered(inv, MaxTolerance(inv.amountSat, tol))
    ensures var inv' := Apply(inv, step, tol);
      RowsFrom(inv', History(steps + [step])) && Covered(inv', MaxTolerance(inv.amountSat, tol))
          && inv'.amountSat == inv.amountSat
    ensures MaxTolerance(inv.amountSat, tol) - MinTolerance(inv.amountSat, tol) <= 1 ==>
      (MayBecome(inv.status, Apply(inv, step, tol).status) <==> !SweepsAccepted(inv, step))
  {
    HistorySnoc(steps + [step]);
    assert (steps + [step])[..|steps + [step]| - 1] == steps;
    if step.RecordPayment? {
      var e := step.evidence;
      if Valid(e) {
        assert PrunesNothing(inv.events, e);
        RecordAppends(inv, e, tol, step.now);
        ToleranceBetween(inv.amountSat, e.rail, tol);
        CoveredStep(inv, step, tol, MaxTolerance(inv.amountSat, tol));
      }
    } else {
      CoveredStep(inv, step, tol, MaxTolerance(inv.amountSat, tol));
    }
  }

  lemma {:induction false} PruneFreeRun(inv0: Invoice, steps: seq<Step>, tol: Tolerances)
    requires Fresh(inv0) && PruneFree(steps)
    ensures var inv := Run(inv0, steps, tol);
      RowsFrom(inv, History(steps)) && Covered(inv, MaxTolerance(inv.amountSat, tol)) && inv.amountSat == inv0.amountSat
  {
    if steps != [] {
      var init, last := steps[..|steps|-1], steps[|steps|-1];
      HistorySnoc(steps);
      assert init + [last] == steps;
      PruneFreeRun(inv0, init, tol);
      PruneFreeStep(Run(inv0, init, tol), init, last, tol);
    }
  }

  /** Evidence of a payment of `sat` on `rail`, in transaction number `n`. */
  ghost function Payment(rail: Rail, n: nat, sat: int): (e: Evidence)
    requires !rail.UnknownRail? && sat > 0
    ensures Valid(e) && e.rail == rail && e.amountSat == sat
    ensures e.txid == Some(Tx(n, [], [])) && (e.source == LiquidDirect || IsBoltz(e.source) ==> rail != Bitcoin)
  {
    var tx := Tx(n, [], []);
    match rail
    case Bitcoin =>
      Evidence(Bitcoin, BitcoinDirect, DirectKey(BitcoinDirect, tx, 0), sat, Some(tx), Some(0), None, Some(Wallet("")))
    case Liquid =>
      Evidence(Liquid, LiquidDirect, DirectKey(LiquidDirect, tx, 0), sat, Some(tx), Some(0), None, Some(Wallet("")))
    case Lightning =>
      var id := if n == 0 then "" else "1";
      Evidence(Lightning, LightningBoltzReverse, BoltzKey(LightningBoltzReverse, id), sat, Some(tx), None, Some(id),
          None)
  }

  /** One payment into an invoice without events, as a row and as a status. */
  lemma FirstPayment(inv0: Invoice, e: Evidence, tol: Tolerances, now: int)
    requires Fresh(inv0) && Valid(e)
    ensures Record(inv0, e, tol, now).0 == Recompute(inv0, [EventRow(e, now)], e.rail, tol, now)
    ensures SumAmounts([EventRow(e, now)]) == e.amountSat
  {
    RecordAppends(inv0, e, tol, now);
    assert inv0.events + [EventRow(e, now)] == [EventRow(e, now)];
  }

  /** One more payment, of another transaction. */
  lemma NextPayment(inv: Invoice, a: EventRow, b: Evidence, tol: Tolerances, now: int)
    requires inv.events == [a] && inv.status != Cancelled && Valid(b)
    requires a.evidence.eventKey != b.eventKey && a.evidence.txid != b.txid
    ensures var inv' := Record(inv, b, tol, now).0;
      && SumAmounts(inv'.events) == a.evidence.amountSat + b.amountSat
      && inv' == Recompute(inv, [a] + [EventRow(b, now)], b.rail, tol, now)
  {
    assert SumAmounts([a]) == a.evidence.amountSat;
    RecordAppends(inv, b, tol, now);
    assert !HasKey(inv.events, b.eventKey);
    assert !SettledByBoltz(inv.events, b.txid);
  }

  lemma SecondPayment(inv0: Invoice, a: Evidence, b: Evidence, tol: Tolerances)
    requires Fresh(inv0) && Valid(a) && Valid(b) && a.eventKey != b.eventKey && a.txid != b.txid
    ensures var inv1 := Record(inv0, a, tol, 0).0; var inv2 := Record(inv1, b, tol, 0).0;
      && SumAmounts(inv2.events) == a.amountSat + b.amountSat
      && inv2.status == StatusFor(inv1, a.amountSat + b.amountSat, Tolerance(inv0.amountSat, b.rail, tol), 0)
  {
    FirstPayment(inv0, a, tol, 0);
    NextPayment(Record(inv0, a, tol, 0).0, EventRow(a, 0), b, tol, 0);
  }

  lemma TwoRecords(inv0: Invoice, a: Evidence, b: Evidence, tol: Tolerances)
    ensures Run(inv0, [RecordPayment(a, 0)], tol) == Record(inv0, a, tol, 0).0
    ensures Run(inv0, [RecordPayment(a, 0)] + [RecordPayment(b, 0)], tol)
        == Record(Record(inv0, a, tol, 0).0, b, tol, 0).0
  {
    var s1 := [RecordPayment(a, 0)];
    var s2 := s1 + [RecordPayment(b, 0)];
    assert s1[..0] == [] && s2[..1] == s1;
    assert Run(inv0, [], tol) == inv0;
  }

  lemma TwoSteps(inv0: Invoice, a: Evidence, b: Evidence, tol: Tolerances)
    requires Valid(a) && Valid(b) && a.txid != b.txid
    ensures Run(inv0, [RecordPayment(a, 0)], tol) == Record(inv0, a, tol, 0).0
    ensures Run(inv0, [RecordPayment(a, 0)] + [RecordPayment(b, 0)], tol)
        == Record(Record(inv0, a, tol, 0).0, b, tol, 0).0
    ensures PruneFree([RecordPayment(a, 0)] + [RecordPayment(b, 0)])
  {
    var s1 := [RecordPayment(a, 0)];
    var s2 := s1 + [RecordPayment(b, 0)];
    assert s1[..0] == [] && s2[..1] == s1;
    TwoRecords(inv0, a, b, tol);
    HistorySnoc(s1);
    HistorySnoc(s2);
    assert History([]) == {};
    assert forall e :: e in History(s2) ==> e == a || e == b;
  }

  /** A shortfall that one rail forgives, followed by one sat on a stricter rail, loses `paid`. */
  lemma PaidReverts(inv0: Invoice, tol: Tolerances, lax: Rail, strict: Rail)
    requires Fresh(inv0) && !lax.UnknownRail? && !strict.UnknownRail?
    requires Tolerance(inv0.amountSat, lax, tol) - Tolerance(inv0.amountSat, strict, tol) >= 2
    ensures inv0.amountSat > Tolerance(inv0.amountSat, lax, tol)
    ensures var a := Payment(lax, 0, inv0.amountSat - Tolerance(inv0.amountSat, lax, tol));
      var b := Payment(strict, 1, 1);
      && PruneFree([RecordPayment(a, 0)] + [RecordPayment(b, 0)])
      && Run(inv0, [RecordPayment(a, 0)], tol).status == Paid
      && Run(inv0, [RecordPayment(a, 0)] + [RecordPayment(b, 0)], tol).status in {PartiallyPaid, Underpaid}
    ensures !PaidLasts(inv0, tol) && !PaidLastsUnswept(inv0, tol)
  {
    LaxThenStrictStatuses(inv0, tol, lax, strict);
    var a := Payment(lax, 0, inv0.amountSat - Tolerance(inv0.amountSat, lax, tol));
    PaidThenNot(inv0, a, Payment(strict, 1, 1), tol);
  }

  lemma PaidThenNot(inv0: Invoice, a: Evidence, b: Evidence, tol: Tolerances)
    requires Valid(a) && Valid(b) && a.txid != b.txid && Record(inv0, a, tol, 0).0.status == Paid
    requires Record(Record(inv0, a, tol, 0).0, b, tol, 0).0.status in {PartiallyPaid, Underpaid}
    ensures PruneFree([RecordPayment(a, 0)] + [RecordPayment(b, 0)])
    ensures Run(inv0, [RecordPayment(a, 0)], tol).status == Paid
    ensures Run(inv0, [RecordPayment(a, 0)] + [RecordPayment(b, 0)], tol).status in {PartiallyPaid, Underpaid}
    ensures !PaidLasts(inv0, tol) && !PaidLastsUnswept(inv0, tol)
  {
    TwoSteps(inv0, a, b, tol);
    NotLasting(inv0, [RecordPayment(a, 0)], RecordPayment(b, 0), tol);
  }

  lemma NotLasting(inv0: Invoice, steps: seq<Step>, step: Step, tol: Tolerances)
    requires PruneFree(steps + [step]) && Run(inv0, steps, tol).status == Paid
    requires Run(inv0, steps + [step], tol).status !in {Paid, Overpaid}
    ensures !PaidLasts(inv0, tol) && !PaidAlwaysLasts(inv0, tol)
    ensures !step.WriteStep? ==> !PaidLastsUnswept(inv0, tol)
  {
  }

  lemma ShortStatus(inv: Invoice, short: int, tolerance: int)
    requires 0 < short && tolerance < short
    ensures StatusFor(inv, inv.amountSat - short, tolerance, 0) in {PartiallyPaid, Underpaid}
  {
  }

  /** All but the tolerance is enough. */
  lemma ForgivenIsPaid(inv0: Invoice, tol: Tolerances, lax: Rail)
    requires Fresh(inv0) && !lax.UnknownRail? && Tolerance(inv0.amountSat, lax, tol) >= 2
    ensures inv0.amountSat > Tolerance(inv0.amountSat, lax, tol)
    ensures Record(inv0, Payment(lax, 0, inv0.amountSat - Tolerance(inv0.amountSat, lax, tol)), tol, 0).0.status == Paid
  {
    FirstPayment(inv0, Payment(lax, 0, inv0.amountSat - Tolerance(inv0.amountSat, lax, tol)), tol, 0);
  }

  lemma LaxThenStrictStatuses(inv0: Invoice, tol: Tolerances, lax: Rail, strict: Rail)
    requires Fresh(inv0) && !lax.UnknownRail? && !strict.UnknownRail?
    requires Tolerance(inv0.amountSat, lax, tol) - Tolerance(inv0.amountSat, strict, tol) >= 2
    ensures inv0.amountSat > Tolerance(inv0.amountSat, lax, tol)
    ensures var a := Payment(lax, 0, inv0.amountSat - Tolerance(inv0.amountSat, lax, tol));
      var b := Payment(strict, 1, 1);
      && a.txid != b.txid && Record(inv0, a, tol, 0).0.status == Paid
      && Record(Record(inv0, a, tol, 0).0, b, tol, 0).0.status in {PartiallyPaid, Underpaid}
  {
    var t := Tolerance(inv0.amountSat, lax, tol);
    ForgivenIsPaid(inv0, tol, lax);
    SecondPayment(inv0, Payment(lax, 0, inv0.amountSat - t), Payment(strict, 1, 1), tol);
    var inv1 := Record(inv0, Payment(lax, 0, inv0.amountSat - t), tol, 0).0;
    RecordKeepsAmount(inv0, Payment(lax, 0, inv0.amountSat - t), tol);
    ShortStatus(inv1, t - 1, Tolerance(inv0.amountSat, strict, tol));
  }

  lemma RecordKeepsAmount(inv: Invoice, e: Evidence, tol: Tolerances)
    ensures Record(inv, e, tol, 0).0.amountSat == inv.amountSat
  {
  }

  lemma RunSnoc(inv0: Invoice, steps: seq<Step>, step: Step, tol: Tolerances)
    ensures Run(inv0, steps + [step], tol) == Apply(Run(inv0, steps, tol), step, tol)
  {
    assert (steps + [step])[..|steps|] == steps;
  }

  /** The partial payment, selected. */
  lemma PartSelected(inv0: Invoice, a: EventRow, graceSecs: nat, tol: Tolerances, now: int)
    requires Fresh(inv0) && inv0.origin == Checkout && a.createdAt < inv0.expiresAt && a.createdAt < now - graceSecs
    requires 0 < a.evidence.amountSat < inv0.amountSat - Tolerance(inv0.amountSat, a.evidence.rail, tol)
    ensures var inv1 := Recompute(inv0, [a], a.evidence.rail, tol, a.createdAt);
      inv1.status == PartiallyPaid && SelectStale(inv1, 0, graceSecs, now) == inv1.(selectedBy := {0})
  {
    assert SumAmounts([a]) == a.evidence.amountSat;
    assert LatestEvent([a][1..]) == None;
    assert LatestEvent([a]) == Some(a.createdAt);
  }

  ghost predicate LosesPaid(paid: Invoice, swept: Invoice) {
    && paid.status == Paid && swept.status == Underpaid
    && swept.paidAmountSat == Some(swept.amountSat) && CoveredButUnderpaid(swept)
  }

  /** Then paid in full, then written. */
  lemma PartPaidThenSwept(inv0: Invoice, inv: Invoice, a: EventRow, b: Evidence, tol: Tolerances, now: int)
    requires Fresh(inv0) && Valid(b) && a.evidence.eventKey != b.eventKey && a.evidence.txid != b.txid
    requires a.evidence.amountSat + b.amountSat == inv0.amountSat
    requires inv == Recompute(inv0, [a], a.evidence.rail, tol, a.createdAt).(selectedBy := {0})
    requires inv.status == PartiallyPaid
    ensures var paid := Record(inv, b, tol, now).0; LosesPaid(paid, WriteStale(paid, 0, false))
  {
    NextPayment(inv, a, b, tol, now);
  }

  lemma RunTwo(inv0: Invoice, s1: Step, inv1: Invoice, s2: Step, tol: Tolerances)
    requires inv1 == Apply(inv0, s1, tol)
    ensures Run(inv0, [s1] + [s2], tol) == Apply(inv1, s2, tol)
  {
    assert [] + [s1] == [s1];
    RunSnoc(inv0, [], s1, tol);
    RunSnoc(inv0, [s1], s2, tol);
  }

  lemma PartSelectedRun(inv0: Invoice, a: Evidence, at: int, graceSecs: nat, tol: Tolerances, now: int)
    requires Fresh(inv0) && inv0.origin == Checkout && at < inv0.expiresAt && at < now - graceSecs && Valid(a)
    requires a.amountSat < inv0.amountSat - Tolerance(inv0.amountSat, a.rail, tol)
    ensures var part := Recompute(inv0, [EventRow(a, at)], a.rail, tol, at);
      part.status == PartiallyPaid
          && Run(inv0, [RecordPayment(a, at)] + [SelectStep(0, graceSecs, now)], tol) == part.(selectedBy := {0})
  {
    FirstPayment(inv0, a, tol, at);
    PartSelected(inv0, EventRow(a, at), graceSecs, tol, now);
    RunTwo(inv0, RecordPayment(a, at), Recompute(inv0, [EventRow(a, at)], a.rail, tol, at),
           SelectStep(0, graceSecs, now), tol);
  }

  lemma PaidThenSwept(inv0: Invoice, part: seq<Step>, a: EventRow, b: Evidence, tol: Tolerances, now: int)
    requires Fresh(inv0) && Valid(b) && a.evidence.eventKey != b.eventKey && a.evidence.txid != b.txid
    requires a.evidence.amountSat + b.amountSat == inv0.amountSat
    requires var inv := Recompute(inv0, [a], a.evidence.rail, tol, a.createdAt);
      inv.status == PartiallyPaid && Run(inv0, part, tol) == inv.(selectedBy := {0})
    ensures LosesPaid(Run(inv0, part + [RecordPayment(b, now)], tol),
                      Run(inv0, part + [RecordPayment(b, now)] + [WriteStep(0, false)], tol))
  {
    PartPaidThenSwept(inv0, Run(inv0, part, tol), a, b, tol, now);
    RunSnoc(inv0, part, RecordPayment(b, now), tol);
    RunSnoc(inv0, part + [RecordPayment(b, now)], WriteStep(0, false), tol);
  }

  /** A payment, a sweep's snapshot, another payment, and the sweep's write. */
  lemma PaidBetweenSwept(inv0: Invoice, a: Evidence, at: int, b: Evidence, graceSecs: nat, tol: Tolerances, now: int)
    requires Fresh(inv0) && inv0.origin == Checkout && at < inv0.expiresAt && at < now - graceSecs
    requires Valid(a) && Valid(b)
    requires a.eventKey != b.eventKey && a.txid != b.txid && a.amountSat + b.amountSat == inv0.amountSat
    requires a.amountSat < inv0.amountSat - Tolerance(inv0.amountSat, a.rail, tol)
    ensures LosesPaid(
      Run(inv0, [RecordPayment(a, at)] + [SelectStep(0, graceSecs, now)] + [RecordPayment(b, now)], tol),
      Run(inv0, [RecordPayment(a, at)] + [SelectStep(0, graceSecs, now)] + [RecordPayment(b, now)]
                  + [WriteStep(0, false)], tol))
  {
    PartSelectedRun(inv0, a, at, graceSecs, tol, now);
    PaidThenSwept(inv0, [RecordPayment(a, at)] + [SelectStep(0, graceSecs, now)], EventRow(a, at), b, tol, now);
  }

  /** A batch sweep that writes a checkout paid in full since it was selected, on any rail that does not
      take one sat for the whole: `paid` becomes `underpaid`. */
  lemma PaidSwept(inv0: Invoice, rail: Rail, graceSecs: nat, tol: Tolerances, now: int)
    requires Fresh(inv0) && inv0.origin == Checkout && !rail.UnknownRail?
    requires inv0.amountSat - Tolerance(inv0.amountSat, rail, tol) >= 2
    requires now == inv0.expiresAt + graceSecs
    ensures inv0.amountSat >= 2
    ensures var a, b := RecordPayment(Payment(rail, 0, 1), inv0.expiresAt - 1),
                        RecordPayment(Payment(rail, 1, inv0.amountSat - 1), now);
      var steps := [a] + [SelectStep(0, graceSecs, now)] + [b];
      && PruneFree(steps + [WriteStep(0, false)]) && OnRail(steps + [WriteStep(0, false)], rail)
      && LosesPaid(Run(inv0, steps, tol), Run(inv0, steps + [WriteStep(0, false)], tol))
  {
    var a, b := Payment(rail, 0, 1), Payment(rail, 1, inv0.amountSat - 1);
    PaidBetweenSwept(inv0, a, inv0.expiresAt - 1, b, graceSecs, tol, now);
    SweptHistory(a, inv0.expiresAt - 1, b, graceSecs, now);
  }

  lemma SweptHistory(a: Evidence, at: int, b: Evidence, graceSecs: nat, now: int)
    requires a.rail == b.rail && a.source == b.source
    ensures var steps := [RecordPayment(a, at)] + [SelectStep(0, graceSecs, now)] + [RecordPayment(b, now)]
        + [WriteStep(0, false)];
      PruneFree(steps) && OnRail(steps, a.rail)
  {
    var steps := [RecordPayment(a, at)] + [SelectStep(0, graceSecs, now)] + [RecordPayment(b, now)]
      + [WriteStep(0, false)];
    assert forall s :: s in steps && s.RecordPayment? ==> s.evidence in {a, b};
    forall e | e in History(steps) ensures e in {a, b} {
      var i :| 0 <= i < |steps| && steps[i].RecordPayment? && Valid(steps[i].evidence) && steps[i].evidence == e;
      assert steps[i] in steps;
    }
  }

  /** No rail takes less than `amountSat - 1` for the whole, so there is no partial payment. */
  predicate OneSatSuffices(inv: Invoice, tol: Tolerances) {
    inv.amountSat - MinTolerance(inv.amountSat, tol) <= 1
  }

  /** Then no sweep ever selects the invoice. */
  lemma {:induction false} NeverSelected(inv0: Invoice, steps: seq<Step>, tol: Tolerances)
    requires Fresh(inv0) && (inv0.origin == Checkout ==> OneSatSuffices(inv0, tol))
    ensures var inv := Run(inv0, steps, tol);
      && inv.selectedBy == {} && (inv.origin == Checkout ==> inv.status != PartiallyPaid)
      && inv.origin == inv0.origin && inv.amountSat == inv0.amountSat
  {
    if steps != [] {
      var init, last := steps[..|steps|-1], steps[|steps|-1];
      NeverSelected(inv0, init, tol);
      var inv := Run(inv0, init, tol);
      LedgerInvariant(inv0, init, tol);
      if last.RecordPayment? && inv0.origin == Checkout {
        NeverPartial(inv, last.evidence, tol, last.now);
      }
    }
  }

  lemma NeverPartial(inv: Invoice, e: Evidence, tol: Tolerances, now: int)
    requires Inv(inv) && OneSatSuffices(inv, tol)
    ensures var inv' := Record(inv, e, tol, now).0; inv' == inv || inv'.status in {Paid, Overpaid}
  {
    RecordInv(inv, e, tol, now);
    SumPositive(Record(inv, e, tol, now).0.events);
    if Valid(e) {
      ToleranceBetween(inv.amountSat, e.rail, tol);
    }
  }

  /** Main result: across rails, payments leave `paid` alone exactly when the effective tolerances of the
      three rails differ by at most one sat; the default 300/60/1 does not qualify for large invoices. With
      batch sweeps it lasts exactly when besides the invoice is no checkout or one sat pays it. */
  lemma PaidLastsIff(inv0: Invoice, tol: Tolerances)
    requires Fresh(inv0)
    ensures PaidLastsUnswept(inv0, tol) <==> MaxTolerance(inv0.amountSat, tol) - MinTolerance(inv0.amountSat, tol) <= 1
    ensures PaidLasts(inv0, tol) <==>
      && MaxTolerance(inv0.amountSat, tol) - MinTolerance(inv0.amountSat, tol) <= 1
      && (inv0.origin == Checkout ==> OneSatSuffices(inv0, tol))
  {
    if MaxTolerance(inv0.amountSat, tol) - MinTolerance(inv0.amountSat, tol) <= 1 {
      CloseTolerances(inv0, tol);
      if inv0.origin == Checkout && !OneSatSuffices(inv0, tol) {
        SweptNotLasting(inv0, StrictestRail(inv0.amountSat, tol), tol);
      }
    } else {
      PaidReverts(inv0, tol, LaxestRail(inv0.amountSat, tol), StrictestRail(inv0.amountSat, tol));
    }
  }

  lemma SweptNotLasting(inv0: Invoice, rail: Rail, tol: Tolerances)
    requires Fresh(inv0) && inv0.origin == Checkout && !rail.UnknownRail?
    requires inv0.amountSat - Tolerance(inv0.amountSat, rail, tol) >= 2
    ensures !PaidLasts(inv0, tol) && !PaidAlwaysLasts(inv0, tol)
  {
    var now := inv0.expiresAt;
    PaidSwept(inv0, rail, 0, tol, now);
    NotLasting(inv0, [RecordPayment(Payment(rail, 0, 1), inv0.expiresAt - 1)] + [SelectStep(0, 0, now)]
      + [RecordPayment(Payment(rail, 1, inv0.amountSat - 1), now)], WriteStep(0, false), tol);
  }

  function LaxestRail(amountSat: int, tol: Tolerances): (rail: Rail)
    ensures !rail.UnknownRail? && Tolerance(amountSat, rail, tol) == MaxTolerance(amountSat, tol)
  {
    var b, l := Tolerance(amountSat, Bitcoin, tol), Tolerance(amountSat, Liquid, tol);
    var n := Tolerance(amountSat, Lightning, tol);
    if b >= l && b >= n then Bitcoin else if l >= n then Liquid else Lightning
  }

  function StrictestRail(amountSat: int, tol: Tolerances): (rail: Rail)
    ensures !rail.UnknownRail? && Tolerance(amountSat, rail, tol) == MinTolerance(amountSat, tol)
  {
    var b, l := Tolerance(amountSat, Bitcoin, tol), Tolerance(amountSat, Liquid, tol);
    var n := Tolerance(amountSat, Lightning, tol);
    if b <= l && b <= n then Bitcoin else if l <= n then Liquid else Lightning
  }

  lemma CloseTolerances(inv0: Invoice, tol: Tolerances)
    requires Fresh(inv0) && MaxTolerance(inv0.amountSat, tol) - MinTolerance(inv0.amountSat, tol) <= 1
    ensures PaidLastsUnswept(inv0, tol)
    ensures (inv0.origin == Checkout ==> OneSatSuffices(inv0, tol)) ==> PaidLasts(inv0, tol)
  {
    forall steps, step | PruneFree(steps + [step]) && Run(inv0, steps, tol).status == Paid
      ensures SweepsAccepted(Run(inv0, steps, tol), step) || Run(inv0, steps + [step], tol).status in {Paid, Overpaid}
      ensures (inv0.origin == Checkout ==> OneSatSuffices(inv0, tol)) ==> !SweepsAccepted(Run(inv0, steps, tol), step)
    {
      HistorySnoc(steps + [step]);
      RunSnoc(inv0, steps, step, tol);
      PruneFreeRun(inv0, steps, tol);
      PruneFreeStep(Run(inv0, steps, tol), steps, step, tol);
      if inv0.origin == Checkout ==> OneSatSuffices(inv0, tol) {
        NeverSelected(inv0, steps, tol);
      }
    }
  }

  // --- With pruning ---

  /** Along all runs, an invoice that is `paid` is `paid` or `overpaid` one step later. */
  ghost predicate PaidAlwaysLasts(inv0: Invoice, tol: Tolerances) {
    forall steps, step :: Run(inv0, steps, tol).status == Paid
        ==> Run(inv0, steps + [step], tol).status in {Paid, Overpaid}
  }

  /** A Boltz settlement of one sat on `rail`, in the transaction of `Payment(Liquid, 0, _)`. */
  ghost function TinySettlement(rail: Rail): (e: Evidence)
    requires rail in {Lightning, Bitcoin}
    ensures Valid(e) && IsBoltz(e.source) && e.rail == rail && e.amountSat == 1
  {
    var source := if rail == Lightning then LightningBoltzReverse else BitcoinBoltzChain;
    Evidence(rail, source, BoltzKey(source, ""), 1, Some(Tx(0, [], [])), None, Some(""), None)
  }

  lemma OneRowLeft(inv: Invoice, a: Evidence, b: Evidence, tol: Tolerances)
    requires inv.events == [EventRow(a, 0)] && a.source == LiquidDirect && a.txid == b.txid
    requires inv.status != Cancelled && Valid(b) && IsBoltz(b.source)
    ensures Record(inv, b, tol, 0).0 == Recompute(inv, [EventRow(b, 0)], b.rail, tol, 0)
    ensures SumAmounts([EventRow(b, 0)]) == b.amountSat
  {
    assert PruneDirect(inv.events[1..], b.txid) == [];
    assert PruneDirect(inv.events, b.txid) == [];
    assert [] + [EventRow(b, 0)] == [EventRow(b, 0)];
  }

  /** A direct payment in full, pruned by a settlement of one sat in the same transaction. */
  lemma PruneLeavesOne(inv0: Invoice, rail: Rail, tol: Tolerances)
    requires Fresh(inv0) && rail in {Lightning, Bitcoin}
    ensures var a := RecordPayment(Payment(Liquid, 0, inv0.amountSat), 0);
      var b := RecordPayment(TinySettlement(rail), 0);
      && Run(inv0, [a], tol).status == Paid
      && Run(inv0, [a] + [b], tol).paidAmountSat == Some(1)
      && (Run(inv0, [a] + [b], tol).status in {Paid, Overpaid}
          <==> inv0.amountSat - 1 <= Tolerance(inv0.amountSat, rail, tol))
  {
    TwoRecords(inv0, Payment(Liquid, 0, inv0.amountSat), TinySettlement(rail), tol);
    PrunedStatuses(inv0, rail, tol);
  }

  lemma PrunedStatuses(inv0: Invoice, rail: Rail, tol: Tolerances)
    requires Fresh(inv0) && rail in {Lightning, Bitcoin}
    ensures var inv1 := Record(inv0, Payment(Liquid, 0, inv0.amountSat), tol, 0).0;
      var inv2 := Record(inv1, TinySettlement(rail), tol, 0).0;
      && inv1.status == Paid && inv2.paidAmountSat == Some(1)
      && (inv2.status in {Paid, Overpaid} <==> inv0.amountSat - 1 <= Tolerance(inv0.amountSat, rail, tol))
  {
    var a := Payment(Liquid, 0, inv0.amountSat);
    FirstPayment(inv0, a, tol, 0);
    var inv1 := Record(inv0, a, tol, 0).0;
    assert inv1.events == [EventRow(a, 0)] && inv1.status == Paid && inv1.amountSat == inv0.amountSat;
    OneRowLeft(inv1, a, TinySettlement(rail), tol);
    OneSatStatus(inv1, rail, tol);
  }

  lemma OneSatStatus(inv: Invoice, rail: Rail, tol: Tolerances)
    requires inv.amountSat >= 1 && rail in {Lightning, Bitcoin}
    ensures StatusFor(inv, 1, Tolerance(inv.amountSat, rail, tol), 0) in {Paid, Overpaid}
      <==> inv.amountSat - 1 <= Tolerance(inv.amountSat, rail, tol)
  {
  }

  /** What little an invoice of one or two sat can lose to a prune. */
  lemma SmallStaysPaid(inv: Invoice, step: Step, tol: Tolerances)
    requires Inv(inv) && inv.status == Paid
    requires inv.amountSat == 1
      || (inv.amountSat == 2 && Tolerance(2, Lightning, tol) >= 1 && Tolerance(2, Bitcoin, tol) >= 1)
    requires inv.selectedBy == {}
    ensures Apply(inv, step, tol).status in {Paid, Overpaid}
  {
    if step.RecordPayment? {
      var e := step.evidence;
      RecordInv(inv, e, tol, step.now);
      var inv' := Record(inv, e, tol, step.now).0;
      if inv' != inv {
        SumPositive(inv'.events);
        if !IsBoltz(e.source) {
          SumPositive(inv.events);
          SumAppend(inv.events, EventRow(e, step.now));
        }
      }
    }
  }

  predicate SmallEnough(inv: Invoice, tol: Tolerances) {
    && (inv.amountSat == 1
        || (inv.amountSat == 2 && Tolerance(2, Lightning, tol) >= 1 && Tolerance(2, Bitcoin, tol) >= 1))
    && (inv.origin == Checkout ==> OneSatSuffices(inv, tol))
  }

  /** Main result: over all runs, prunes and batch sweeps included, `paid` lasts exactly for invoices of one
      sat, and of two sat when both Boltz rails, and for a checkout the Liquid rail too, forgive one. From
      three sat on it never does, whatever the tolerances. */
  lemma PaidAlwaysLastsIff(inv0: Invoice, tol: Tolerances)
    requires Fresh(inv0)
    ensures PaidAlwaysLasts(inv0, tol) <==> SmallEnough(inv0, tol)
    ensures SmallEnough(inv0, tol) <==>
      || inv0.amountSat == 1
      || (inv0.amountSat == 2 && Tolerance(2, Lightning, tol) >= 1 && Tolerance(2, Bitcoin, tol) >= 1
          && (inv0.origin == Checkout ==> Tolerance(2, Liquid, tol) >= 1))
  {
    if PaidAlwaysLasts(inv0, tol) {
      PruneLeavesOne(inv0, Lightning, tol);
      PruneLeavesOne(inv0, Bitcoin, tol);
      var a := RecordPayment(Payment(Liquid, 0, inv0.amountSat), 0);
      assert Run(inv0, [a] + [RecordPayment(TinySettlement(Lightning), 0)], tol).status in {Paid, Overpaid};
      assert Run(inv0, [a] + [RecordPayment(TinySettlement(Bitcoin), 0)], tol).status in {Paid, Overpaid};
      if inv0.origin == Checkout && !OneSatSuffices(inv0, tol) {
        SweptNotLasting(inv0, StrictestRail(inv0.amountSat, tol), tol);
      }
    }
    if SmallEnough(inv0, tol) {
      forall steps, step | Run(inv0, steps, tol).status == Paid
        ensures Run(inv0, steps + [step], tol).status in {Paid, Overpaid}
      {
        LedgerInvariant(inv0, steps, tol);
        NeverSelected(inv0, steps, tol);
        SmallStaysPaid(Run(inv0, steps, tol), step, tol);
        RunSnoc(inv0, steps, step, tol);
      }
    }
  }
}

/** What every run of ledger steps keeps, and why the order of payments does not matter. */
module InvoiceLedgerProofs {
  import opened Base
  import opened Chain
  import opened InvoiceLedger

  // --- The event table as a set of evidence ---

  ghost function EvidenceOf(rows: seq<EventRow>): set<Evidence> {
    set r | r in rows :: r.evidence
  }

  ghost predicate Distinct(rows: seq<EventRow>) {
    forall i, j :: 0 <= i < j < |rows| ==> rows[i].evidence.eventKey != rows[j].evidence.eventKey
  }

  /** One event key always names one piece of evidence. */
  ghost predicate KeysConsistent(s: set<Evidence>) {
    forall a, b :: a in s && b in s && a.eventKey == b.eventKey ==> a == b
  }

  ghost predicate BoltzTxid(s: set<Evidence>, txid: Option<Tx>) {
    exists b :: b in s && IsBoltz(b.source) && b.txid == txid
  }

  /** The order-free meaning of a payment history: everything recorded, less each direct Liquid
      payment whose transaction is also a Boltz settlement. */
  ghost function Canonical(s: set<Evidence>): set<Evidence> {
    set e | e in s && !(e.source == LiquidDirect && BoltzTxid(s, e.txid))
  }

  ghost function Total(s: set<Evidence>): int {
    if s == {} then 0 else var e :| e in s; e.amountSat + Total(s - {e})
  }

  lemma {:induction false} TotalAdd(s: set<Evidence>, e: Evidence)
    requires e !in s
    ensures Total(s + {e}) == Total(s) + e.amountSat
    decreases |s|
  {
    var t := s + {e};
    var p :| p in t && Total(t) == p.amountSat + Total(t - {p});
    if p == e {
      assert t - {p} == s;
    } else {
      assert t - {p} == (s - {p}) + {e};
      TotalAdd(s - {p}, e);
      TotalAdd(s - {p}, p);
      assert (s - {p}) + {p} == s;
    }
  }

  lemma {:induction false} SumIsTotal(rows: seq<EventRow>)
    requires Distinct(rows)
    ensures SumAmounts(rows) == Total(EvidenceOf(rows))
  {
    if rows != [] {
      SumIsTotal(rows[1..]);
      TotalAdd(EvidenceOf(rows[1..]), rows[0].evidence);
      assert EvidenceOf(rows) == EvidenceOf(rows[1..]) + {rows[0].evidence};
    } else {
      assert EvidenceOf(rows) == {};
    }
  }

  lemma {:induction false} PruneMembers(rows: seq<EventRow>, txid: Option<Tx>)
    ensures forall r :: r in PruneDirect(rows, txid) <==> r in rows && !IsDirectLiquidOf(r, txid)
  {
    if rows != [] {
      PruneMembers(rows[1..], txid);
      assert forall r :: r in rows <==> r == rows[0] || r in rows[1..];
    }
  }

  lemma {:induction false} PruneDistinct(rows: seq<EventRow>, txid: Option<Tx>)
    requires Distinct(rows)
    ensures Distinct(PruneDirect(rows, txid))
  {
    if rows != [] {
      PruneDistinct(rows[1..], txid);
      PruneMembers(rows[1..], txid);
      forall r | r in PruneDirect(rows[1..], txid) ensures r.evidence.eventKey != rows[0].evidence.eventKey {
        var i :| 0 <= i < |rows[1..]| && rows[1..][i] == r;
        assert rows[i + 1] == r;
      }
    }
  }

  /** The prune removes the direct Liquid rows of the transaction and nothing else. */
  lemma PruneEvidence(rows: seq<EventRow>, txid: Option<Tx>)
    requires Distinct(rows)
    ensures var kept := PruneDirect(rows, txid);
      && Distinct(kept)
      && (forall r :: r in kept <==> r in rows && !IsDirectLiquidOf(r, txid))
      && (|kept| == |rows| ==> kept == rows)
  {
    PruneMembers(rows, txid);
    PruneDistinct(rows, txid);
    if |PruneDirect(rows, txid)| == |rows| {
      PrunedNone(rows, txid);
    }
  }

  lemma {:induction false} SumAppend(rows: seq<EventRow>, r: EventRow)
    ensures SumAmounts(rows + [r]) == SumAmounts(rows) + r.evidence.amountSat
  {
    if rows != [] {
      assert (rows + [r])[1..] == rows[1..] + [r];
      SumAppend(rows[1..], r);
    }
  }

  lemma {:induction false} SumPositive(rows: seq<EventRow>)
    requires forall r :: r in rows ==> Valid(r.evidence)
    ensures SumAmounts(rows) >= 0 && (rows != [] ==> SumAmounts(rows) > 0)
  {
    if rows != [] {
      SumPositive(rows[1..]);
    }
  }

  // --- The whole-run invariant ---

  ghost predicate HasEvents(status: Status) {
    status in {PartiallyPaid, Paid, Underpaid, Overpaid}
  }

  ghost predicate NoDoubleCount(rows: seq<EventRow>) {
    forall a, b :: a in rows && b in rows && a.evidence.source == LiquidDirect && IsBoltz(b.evidence.source)
      ==> a.evidence.txid != b.evidence.txid
  }

  /** What holds whoever writes and when: all about the money, and of a status what it is set on. */
  ghost predicate Inv(inv: Invoice) {
    var sum := SumAmounts(inv.events);
    && inv.amountSat > 0
    && (forall r :: r in inv.events ==> Valid(r.evidence))
    && Distinct(inv.events)
    && NoDoubleCount(inv.events)
    && inv.paidAmountSat.GetOr(0) == sum
    && (HasEvents(inv.status) <==> inv.events != [])
    && (inv.paidAmountSat.Some? <==> inv.events != [])
    && inv.paidVia == (if inv.events == [] then None else Some(ViaOf(inv.events)))
    && (inv.status == Overpaid ==> sum > inv.amountSat)
    && (inv.status == Paid ==> 0 <= inv.amountSat - sum <= Max(1, inv.amountSat / 100))
    && (inv.status == PartiallyPaid ==> sum < inv.amountSat)
    && (inv.status in {Paid, Overpaid} ==> inv.settlement == Settled && inv.paidAt.Some?)
    && (inv.cancelledAt.Some? <==> inv.status == Cancelled)
    && (inv.selectedBy != {} ==> inv.events != [])
  }

  /** The status says how the sum compares with the amount. */
  ghost predicate Explained(inv: Invoice) {
    var sum := SumAmounts(inv.events);
    && (inv.status == Overpaid <==> sum > inv.amountSat)
    && (inv.status in {PartiallyPaid, Underpaid} ==> 0 < sum < inv.amountSat)
  }

  ghost predicate CoveredButUnderpaid(inv: Invoice) {
    inv.status == Underpaid && SumAmounts(inv.events) >= inv.amountSat
  }

  /** A batch sweep writes a row whose amount has come in since it was selected. */
  ghost predicate SweepsCovered(inv: Invoice, step: Step) {
    step.WriteStep? && !step.rechecks && step.sweep in inv.selectedBy && SumAmounts(inv.events) >= inv.amountSat
  }

  lemma {:induction false} PruneNothing(rows: seq<EventRow>, txid: Option<Tx>)
    requires forall r :: r in rows ==> !IsDirectLiquidOf(r, txid)
    ensures PruneDirect(rows, txid) == rows
  {
    if rows != [] {
      PruneNothing(rows[1..], txid);
    }
  }

  lemma {:induction false} PrunedNone(rows: seq<EventRow>, txid: Option<Tx>)
    requires |PruneDirect(rows, txid)| == |rows|
    ensures PruneDirect(rows, txid) == rows
  {
    if rows != [] {
      PrunedNone(rows[1..], txid);
    }
  }

  /** The rows `e` leaves in place: a Boltz settlement removes the direct rows of its transaction. */
  ghost function Kept(rows: seq<EventRow>, e: Evidence): seq<EventRow> {
    if IsBoltz(e.source) then PruneDirect(rows, e.txid) else rows
  }

  ghost predicate Blocked(rows: seq<EventRow>, e: Evidence) {
    e.source == LiquidDirect && SettledByBoltz(rows, e.txid)
  }

  /** The insert conflicts exactly on a repeated payment, and then nothing was pruned either. */
  lemma KeyTaken(rows: seq<EventRow>, e: Evidence)
    requires Distinct(rows) && NoDoubleCount(rows)
    requires KeysConsistent(EvidenceOf(rows) + {e})
    ensures HasKey(Kept(rows, e), e.eventKey) <==> e in EvidenceOf(rows)
    ensures e in EvidenceOf(rows) ==> Kept(rows, e) == rows
    ensures forall r :: r in Kept(rows, e) <==> r in rows && !(IsBoltz(e.source) && IsDirectLiquidOf(r, e.txid))
    ensures Distinct(Kept(rows, e))
  {
    PruneEvidence(rows, e.txid);
    var kept := Kept(rows, e);
    if e in EvidenceOf(rows) {
      var r :| r in rows && r.evidence == e;
      if IsBoltz(e.source) {
        forall x | x in rows ensures !IsDirectLiquidOf(x, e.txid) {}
        PruneNothing(rows, e.txid);
      }
      assert r in kept;
    } else {
      forall r | r in kept ensures r.evidence.eventKey != e.eventKey {
        assert r.evidence in EvidenceOf(rows);
      }
    }
  }

  /** `Record` is a no-op on a blocked or repeated payment and otherwise appends exactly one row. */
  lemma RecordedRows(inv: Invoice, e: Evidence, tol: Tolerances, now: int)
    requires Distinct(inv.events) && NoDoubleCount(inv.events) && Valid(e) && inv.status != Cancelled
    requires KeysConsistent(EvidenceOf(inv.events) + {e})
    ensures var inv' := Record(inv, e, tol, now).0;
      if Blocked(inv.events, e) || e in EvidenceOf(inv.events) then inv' == inv
      else inv' == Recompute(inv, Kept(inv.events, e) + [EventRow(e, now)], e.rail, tol, now)
  {
    KeyTaken(inv.events, e);
  }

  // --- Confluence ---

  /** The event table holds the canonical form of the evidence `h` recorded so far. */
  ghost predicate Tracks(inv: Invoice, h: set<Evidence>) {
    Distinct(inv.events) && EvidenceOf(inv.events) == Canonical(h)
  }

  lemma CanonicalNoDouble(inv: Invoice, h: set<Evidence>)
    requires Tracks(inv, h)
    ensures NoDoubleCount(inv.events)
  {
    forall a, b | a in inv.events && b in inv.events && a.evidence.source == LiquidDirect && IsBoltz(b.evidence.source)
      ensures a.evidence.txid != b.evidence.txid
    {
      assert a.evidence in Canonical(h) && b.evidence in Canonical(h);
    }
  }

  lemma BlockedIff(rows: seq<EventRow>, e: Evidence, h: set<Evidence>)
    requires EvidenceOf(rows) == Canonical(h)
    ensures SettledByBoltz(rows, e.txid) <==> BoltzTxid(h, e.txid)
  {
    if b :| b in h && IsBoltz(b.source) && b.txid == e.txid {
      assert b in EvidenceOf(rows);
    }
    if r :| r in rows && IsBoltz(r.evidence.source) && r.evidence.txid == e.txid {
      assert r.evidence in EvidenceOf(rows);
    }
  }

  /** Appending new evidence after pruning keeps the table canonical. */
  lemma AppendTracks(rows: seq<EventRow>, e: Evidence, now: int, h: set<Evidence>)
    requires Valid(e) && Distinct(rows) && NoDoubleCount(rows) && EvidenceOf(rows) == Canonical(h)
    requires KeysConsistent(EvidenceOf(rows) + {e}) && !Blocked(rows, e) && e !in EvidenceOf(rows)
    ensures var rows' := Kept(rows, e) + [EventRow(e, now)]; Distinct(rows') && EvidenceOf(rows') == Canonical(h + {e})
  {
    KeyTaken(rows, e);
    BlockedIff(rows, e, h);
    var kept := Kept(rows, e);
    var rows' := kept + [EventRow(e, now)];
    assert Distinct(rows') by {
      forall r | r in kept ensures r.evidence.eventKey != e.eventKey {}
    }
    assert EvidenceOf(rows') == EvidenceOf(kept) + {e};
    assert EvidenceOf(rows') == Canonical(h + {e});
  }

  lemma RecordTracks(inv: Invoice, e: Evidence, tol: Tolerances, now: int, h: set<Evidence>)
    requires Valid(e) && inv.status != Cancelled && Tracks(inv, h) && KeysConsistent(h + {e})
    ensures Tracks(Record(inv, e, tol, now).0, h + {e})
  {
    var rows := inv.events;
    CanonicalNoDouble(inv, h);
    assert KeysConsistent(EvidenceOf(rows) + {e});
    RecordedRows(inv, e, tol, now);
    if Blocked(rows, e) || e in EvidenceOf(rows) {
      BlockedIff(rows, e, h);
      assert Canonical(h + {e}) == Canonical(h);
    } else {
      AppendTracks(rows, e, now, h);
    }
  }

  /** The valid evidence recorded by a run, as a set: order and repeats are forgotten. */
  ghost function History(steps: seq<Step>): set<Evidence> {
    set i | 0 <= i < |steps| && steps[i].RecordPayment? && Valid(steps[i].evidence) :: steps[i].evidence
  }

  lemma HistorySnoc(steps: seq<Step>)
    requires steps != []
    ensures var init := steps[..|steps|-1]; var last := steps[|steps|-1];
      History(steps) == History(init)
        + (if last.RecordPayment? && Valid(last.evidence) then {last.evidence} else {})
  {
    var init := steps[..|steps|-1];
    forall e | e in History(steps)
      ensures e in History(init) || (steps[|steps|-1].RecordPayment? && steps[|steps|-1].evidence == e)
    {
      var i :| 0 <= i < |steps| && steps[i].RecordPayment? && Valid(steps[i].evidence) && steps[i].evidence == e;
      if i < |init| {
        assert init[i] == steps[i];
      }
    }
    forall e | e in History(init) ensures e in History(steps) {
      var i :| 0 <= i < |init| && init[i].RecordPayment? && Valid(init[i].evidence) && init[i].evidence == e;
      assert steps[i] == init[i];
    }
  }

  /** Main result: after any run, in any order and with any repeats, cancels, expiries and sweeps
      between the payments, the event table is the canonical form of the evidence recorded. */
  lemma {:induction false} LedgerConfluence(inv0: Invoice, steps: seq<Step>, tol: Tolerances)
    requires Fresh(inv0) && KeysConsistent(History(steps))
    ensures var inv := Run(inv0, steps, tol);
      if inv.status == Cancelled then inv.events == [] else Tracks(inv, History(steps))
    ensures var inv := Run(inv0, steps, tol);
      inv.status == Unpaid ==> inv.events == []
  {
    if steps == [] {
      assert History(steps) == {};
      assert Canonical({}) == {};
      assert EvidenceOf(inv0.events) == {};
    } else {
      var init, last := steps[..|steps|-1], steps[|steps|-1];
      HistorySnoc(steps);
      LedgerConfluence(inv0, init, tol);
      LedgerInvariant(inv0, init, tol);
      ConfluenceStep(Run(inv0, init, tol), last, tol, History(init), History(steps));
    }
  }

  /** One step, `h'` being `h` with the evidence it records. */
  lemma ConfluenceStep(inv: Invoice, step: Step, tol: Tolerances, h: set<Evidence>, h': set<Evidence>)
    requires Inv(inv) && KeysConsistent(h')
    requires h' == h + if step.RecordPayment? && Valid(step.evidence) then {step.evidence} else {}
    requires (if inv.status == Cancelled then inv.events == [] else Tracks(inv, h))
    requires inv.status == Unpaid ==> inv.events == []
    ensures var inv' := Apply(inv, step, tol);
      && (if inv'.status == Cancelled then inv'.events == [] else Tracks(inv', h'))
      && (inv'.status == Unpaid ==> inv'.events == [])
  {
    if step.RecordPayment? {
      if Valid(step.evidence) && inv.status != Cancelled {
        RecordTracks(inv, step.evidence, tol, step.now, h);
        RecordedStatus(inv, step.evidence, tol, step.now);
      }
    } else {
      StatusStepTracks(inv, step, tol, h);
    }
  }

  lemma RecordedStatus(inv: Invoice, e: Evidence, tol: Tolerances, now: int)
    requires inv.status != Cancelled
    ensures var inv' := Record(inv, e, tol, now).0; inv' == inv || inv'.status !in {Unpaid, Cancelled}
  {
  }

  lemma StatusStepTracks(inv: Invoice, step: Step, tol: Tolerances, h: set<Evidence>)
    requires Inv(inv) && !step.RecordPayment?
    requires (if inv.status == Cancelled then inv.events == [] else Tracks(inv, h))
    requires inv.status == Unpaid ==> inv.events == []
    ensures var inv' := Apply(inv, step, tol);
      && (if inv'.status == Cancelled then inv'.events == [] else Tracks(inv', h))
      && (inv'.status == Unpaid ==> inv'.events == [])
  {
  }

  // --- The invariant over all runs ---

  ghost predicate RowsOk(rows: seq<EventRow>) {
    (forall r :: r in rows ==> Valid(r.evidence)) && Distinct(rows) && NoDoubleCount(rows)
  }

  lemma RecomputeInv(inv: Invoice, rows: seq<EventRow>, rail: Rail, tol: Tolerances, now: int)
    requires inv.amountSat > 0 && inv.cancelledAt.None? && RowsOk(rows) && rows != []
    ensures Inv(Recompute(inv, rows, rail, tol, now))
  {
    SumPositive(rows);
  }

  lemma KeptRowsOk(rows: seq<EventRow>, e: Evidence)
    requires RowsOk(rows)
    ensures RowsOk(Kept(rows, e))
  {
    PruneEvidence(rows, e.txid);
  }

  /** What the prune and the block leave room for. */
  lemma NoRival(rows: seq<EventRow>, e: Evidence)
    requires Distinct(rows) && !Blocked(rows, e)
    ensures forall r :: r in Kept(rows, e) && r.evidence.txid == e.txid ==>
      !(r.evidence.source == LiquidDirect && IsBoltz(e.source))
          && !(e.source == LiquidDirect && IsBoltz(r.evidence.source))
  {
    PruneEvidence(rows, e.txid);
  }

  lemma AppendRowsOk(rows: seq<EventRow>, e: Evidence, now: int)
    requires RowsOk(rows) && Valid(e) && !HasKey(rows, e.eventKey)
    requires forall r :: r in rows && r.evidence.txid == e.txid ==>
      !(r.evidence.source == LiquidDirect && IsBoltz(e.source))
          && !(e.source == LiquidDirect && IsBoltz(r.evidence.source))
    ensures RowsOk(rows + [EventRow(e, now)])
  {
    assert forall r :: r in rows ==> r.evidence.eventKey != e.eventKey;
  }

  lemma RecordInv(inv: Invoice, e: Evidence, tol: Tolerances, now: int)
    requires Inv(inv)
    ensures Inv(Record(inv, e, tol, now).0)
  {
    if Valid(e) && inv.status != Cancelled && !Blocked(inv.events, e) {
      var kept := Kept(inv.events, e);
      KeptRowsOk(inv.events, e);
      if HasKey(kept, e.eventKey) {
        RecomputeInv(inv, kept, e.rail, tol, now);
      } else {
        NoRival(inv.events, e);
        AppendRowsOk(kept, e, now);
        RecomputeInv(inv, kept + [EventRow(e, now)], e.rail, tol, now);
      }
    }
  }

  lemma StatusStepInv(inv: Invoice, step: Step, tol: Tolerances)
    requires Inv(inv) && !step.RecordPayment?
    ensures Inv(Apply(inv, step, tol))
  {
  }

  // --- What a batch sweep does to the status ---

  lemma ExplainedIff(inv: Invoice)
    requires Inv(inv)
    ensures Explained(inv) <==> !CoveredButUnderpaid(inv)
  {
    SumPositive(inv.events);
  }

  /** A payment that is not a no-op changes the event table, and the status is then set on the sum. */
  lemma RecordResets(inv: Invoice, e: Evidence, tol: Tolerances, now: int)
    ensures var inv' := Record(inv, e, tol, now).0;
      inv' == inv || (inv'.events != inv.events && !CoveredButUnderpaid(inv'))
  {
    PruneMembers(inv.events, e.txid);
  }

  lemma CoveredStepIff(inv: Invoice, step: Step, tol: Tolerances)
    requires Inv(inv)
    ensures var inv' := Apply(inv, step, tol);
      CoveredButUnderpaid(inv')
      <==> SweepsCovered(inv, step) || (CoveredButUnderpaid(inv) && inv'.events == inv.events)
  {
    if step.RecordPayment? {
      RecordResets(inv, step.evidence, tol, step.now);
    }
  }

  /** The invoice a run passes through, `n` steps in. */
  ghost function At(inv0: Invoice, steps: seq<Step>, n: nat, tol: Tolerances): Invoice
    requires n <= |steps|
  {
    Run(inv0, steps[..n], tol)
  }

  lemma AtStep(inv0: Invoice, steps: seq<Step>, n: nat, tol: Tolerances)
    requires n < |steps|
    ensures At(inv0, steps, n + 1, tol) == Apply(At(inv0, steps, n, tol), steps[n], tol)
  {
    assert steps[..n + 1][..n] == steps[..n];
  }

  /** Step `k` sweeps a covered invoice, and no payment has changed the event table since. */
  ghost predicate SweptSince(inv0: Invoice, steps: seq<Step>, k: nat, tol: Tolerances)
    requires k < |steps|
  {
    && SweepsCovered(At(inv0, steps, k, tol), steps[k])
    && forall j :: k < j <= |steps| ==> At(inv0, steps, j, tol).events == At(inv0, steps, k, tol).events
  }

  lemma SweptSinceSnoc(inv0: Invoice, init: seq<Step>, last: Step, tol: Tolerances, k: nat)
    requires k < |init|
    ensures SweptSince(inv0, init + [last], k, tol)
      <==> (SweptSince(inv0, init, k, tol) && Run(inv0, init + [last], tol).events == Run(inv0, init, tol).events)
  {
    var steps := init + [last];
    assert steps[..|steps|] == steps && init[..|init|] == init;
    assert forall j :: 0 <= j <= |init| ==> steps[..j] == init[..j];
    assert At(inv0, steps, |steps|, tol) == Run(inv0, steps, tol);
    assert At(inv0, steps, |init|, tol) == Run(inv0, init, tol) == At(inv0, init, |init|, tol);
    assert forall j :: 0 <= j <= |init| ==> At(inv0, steps, j, tol) == At(inv0, init, j, tol);
  }

  /** Main result: the status of an invoice with its amount covered reads `underpaid` exactly when a batch
      sweep wrote it after the amount had come in and no payment has changed the table since. */
  lemma {:induction false} CoveredButUnderpaidIff(inv0: Invoice, steps: seq<Step>, tol: Tolerances)
    requires Fresh(inv0)
    ensures CoveredButUnderpaid(Run(inv0, steps, tol))
      <==> exists k :: 0 <= k < |steps| && SweptSince(inv0, steps, k, tol)
  {
    if steps != [] {
      var init, last := steps[..|steps|-1], steps[|steps|-1];
      assert steps == init + [last];
      CoveredButUnderpaidIff(inv0, init, tol);
      LedgerInvariant(inv0, init, tol);
      CoveredStepIff(Run(inv0, init, tol), last, tol);
      forall k | 0 <= k < |init|
        ensures SweptSince(inv0, steps, k, tol)
          <==> (SweptSince(inv0, init, k, tol) && Run(inv0, steps, tol).events == Run(inv0, init, tol).events)
      {
        SweptSinceSnoc(inv0, init, last, tol, k);
      }
      LastSweep(inv0, steps, tol);
    }
  }

  lemma LastSweep(inv0: Invoice, steps: seq<Step>, tol: Tolerances)
    requires steps != []
    ensures var k := |steps| - 1;
      SweptSince(inv0, steps, k, tol) <==> SweepsCovered(Run(inv0, steps[..k], tol), steps[k])
  {
    var k := |steps| - 1;
    AtStep(inv0, steps, k, tol);
  }

  /** Main result: all along a run the status says how the sum compares with the amount exactly when no
      batch sweep writes an invoice whose amount has come in since it was selected. */
  lemma ExplainedThroughoutIff(inv0: Invoice, steps: seq<Step>, tol: Tolerances)
    requires Fresh(inv0)
    ensures (forall n :: 0 <= n <= |steps| ==> Explained(At(inv0, steps, n, tol)))
      <==> (forall n :: 0 <= n < |steps| ==> !SweepsCovered(At(inv0, steps, n, tol), steps[n]))
  {
    if n :| 0 <= n < |steps| && SweepsCovered(At(inv0, steps, n, tol), steps[n]) {
      AtStep(inv0, steps, n, tol);
      assert !Explained(At(inv0, steps, n + 1, tol));
    }
    if n :| 0 <= n <= |steps| && !Explained(At(inv0, steps, n, tol)) {
      LedgerInvariant(inv0, steps[..n], tol);
      ExplainedIff(At(inv0, steps, n, tol));
      CoveredButUnderpaidIff(inv0, steps[..n], tol);
      var k :| 0 <= k < n && SweptSince(inv0, steps[..n], k, tol);
      assert steps[..n][..k] == steps[..k];
      assert SweepsCovered(At(inv0, steps, k, tol), steps[k]);
    }
  }

  /** Past its deadline and swept, an invoice reached by a run is closed: `expired` exactly when nothing
      was received and nobody cancelled it, `underpaid` exactly when something was received and it had
      not been accepted as `paid` or `overpaid`. What was received then fell short, unless a batch sweep
      wrote the invoice when it was covered and nothing has come in since. */
  lemma ExpiryCloses(inv0: Invoice, steps: seq<Step>, tol: Tolerances, now: int)
    requires Fresh(inv0) && inv0.expiresAt < now
    ensures var inv := Run(inv0, steps, tol); var swept := Expire(inv, now);
      && swept.status in {Paid, Underpaid, Overpaid, Expired, Cancelled}
      && (swept.status == Expired <==> inv.events == [] && inv.status != Cancelled)
      && (swept.status == Underpaid <==> inv.events != [] && inv.status !in {Paid, Overpaid})
      && ((swept.status == Underpaid <==> 0 < SumAmounts(inv.events) < inv.amountSat && inv.status != Paid)
          <==> !exists k :: 0 <= k < |steps| && SweptSince(inv0, steps, k, tol))
  {
    LedgerInvariant(inv0, steps, tol);
    DeadlineFixed(inv0, steps, tol);
    SumPositive(Run(inv0, steps, tol).events);
    CoveredButUnderpaidIff(inv0, steps, tol);
  }

  lemma {:induction false} DeadlineFixed(inv0: Invoice, steps: seq<Step>, tol: Tolerances)
    ensures Run(inv0, steps, tol).expiresAt == inv0.expiresAt
  {
    if steps != [] {
      DeadlineFixed(inv0, steps[..|steps|-1], tol);
    }
  }

  /** Main result: the ledger invariant holds after every run, for every evidence and tolerance, whoever
      sweeps in between. */
  lemma {:induction false} LedgerInvariant(inv0: Invoice, steps: seq<Step>, tol: Tolerances)
    requires Fresh(inv0)
    ensures Inv(Run(inv0, steps, tol))
  {
    if steps == [] {
      assert SumAmounts(inv0.events) == 0;
    } else {
      var init, last := steps[..|steps|-1], steps[|steps|-1];
      LedgerInvariant(inv0, init, tol);
      if last.RecordPayment? {
        RecordInv(Run(inv0, init, tol), last.evidence, tol, last.now);
      } else {
        StatusStepInv(Run(inv0, init, tol), last, tol);
      }
    }
  }

  /** `paid_at`, once set, never changes. */
  lemma {:induction false} PaidAtWriteOnce(inv0: Invoice, steps: seq<Step>, more: seq<Step>, tol: Tolerances)
    requires Run(inv0, steps, tol).paidAt.Some?
    ensures Run(inv0, steps + more, tol).paidAt == Run(inv0, steps, tol).paidAt
  {
    if more == [] {
      assert steps + more == steps;
    } else {
      var init := more[..|more|-1];
      PaidAtWriteOnce(inv0, steps, init, tol);
      assert (steps + more)[..|steps + more| - 1] == steps + init;
    }
  }

  ghost function ViaOfSet(s: set<Evidence>): Option<PaidVia> {
    var rails := set e | e in s :: e.rail;
    if s == {} then None else if exists r :: rails == {r} then var r :| rails == {r}; Some(OneRail(r)) else Some(Mixed)
  }

  lemma ViaOfRows(rows: seq<EventRow>)
    ensures (if rows == [] then None else Some(ViaOf(rows))) == ViaOfSet(EvidenceOf(rows))
  {
    var rails := set e | e in EvidenceOf(rows) :: e.rail;
    assert Rails(rows) == rails by {
      forall r | r in rows ensures r.evidence.rail in rails {
        assert r.evidence in EvidenceOf(rows);
      }
    }
    if rows != [] {
      assert rows[0].evidence in EvidenceOf(rows);
      assert rows[0].evidence.rail in rails;
    }
  }

  /** Main result: unless cancelled, the amount paid and the rail shown are functions of the set of
      evidence recorded. */
  lemma LedgerTotals(inv0: Invoice, steps: seq<Step>, tol: Tolerances)
    requires Fresh(inv0) && KeysConsistent(History(steps))
    ensures var inv := Run(inv0, steps, tol); var c := Canonical(History(steps));
      inv.status != Cancelled ==>
        inv.paidAmountSat == (if c == {} then None else Some(Total(c))) && inv.paidVia == ViaOfSet(c)
  {
    var inv := Run(inv0, steps, tol);
    LedgerConfluence(inv0, steps, tol);
    if inv.status != Cancelled {
      LedgerInvariant(inv0, steps, tol);
      SumIsTotal(inv.events);
      ViaOfRows(inv.events);
      assert inv.events != [] ==> inv.events[0].evidence in EvidenceOf(inv.events);
    }
  }

  // --- What one payment does ---

  /** A fresh invoice that receives exactly one payment of `x` sat on a rail is `paid` exactly when
      the shortfall is within the rail's tolerance, itself at most one percent (at least one sat). */
  lemma SinglePaymentStatus(inv: Invoice, e: Evidence, tol: Tolerances, now: int)
    requires Fresh(inv) && Valid(e)
    ensures var inv' := Record(inv, e, tol, now).0;
      var (x, t) := (e.amountSat, Tolerance(inv.amountSat, e.rail, tol));
      && inv'.paidAmountSat == Some(x) && inv'.paidVia == Some(OneRail(e.rail))
      && (inv'.status == Overpaid <==> x > inv.amountSat)
      && (inv'.status == Paid <==> inv.amountSat - t <= x <= inv.amountSat)
      && (inv'.status == Underpaid <==> x < inv.amountSat - t && inv.expiresAt <= now)
      && (inv'.status == PartiallyPaid <==> x < inv.amountSat - t && now < inv.expiresAt)
    ensures var t := Tolerance(inv.amountSat, e.rail, tol);
      && 0 <= t && (t <= 1 || 100 * t <= inv.amountSat) && (t > 0 ==> t <= ForRail(tol, e.rail))
      && (t < ForRail(tol, e.rail) ==> 100 * (t + 1) > inv.amountSat)
  {
    KeyTaken(inv.events, e);
    assert EvidenceOf(inv.events) == {};
    RecordedRows(inv, e, tol, now);
    assert Kept([], e) + [EventRow(e, now)] == [EventRow(e, now)];
    assert SumAmounts([EventRow(e, now)]) == e.amountSat;
    assert Rails([EventRow(e, now)]) == {e.rail} by {
      assert EventRow(e, now) in [EventRow(e, now)];
    }
  }
}

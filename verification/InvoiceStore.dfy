/** One row of `invoices` and its event table, updated in place, against the ledger functions. */
module InvoiceStore {
  import opened Base
  import opened Chain
  import L = InvoiceLedger
  import LP = InvoiceLedgerProofs

  class InvoiceRow {
    const amountSat: int
    const origin: L.Origin
    const expiresAt: int
    var status: L.Status
    var settlement: L.Settlement
    var paidVia: Option<L.PaidVia>
    var paidAmountSat: Option<int>
    var paidAt: Option<int>
    var cancelledAt: Option<int>
    var events: seq<L.EventRow>
    var selectedBy: set<L.SweepId>

    ghost function View(): L.Invoice
      reads this
    {
      L.Invoice(amountSat, origin, expiresAt, status, settlement, paidVia, paidAmountSat, paidAt, cancelledAt, events,
                selectedBy)
    }

    constructor (amountSat: int, origin: L.Origin, expiresAt: int)
      requires amountSat > 0
      ensures L.Fresh(View())
      ensures this.amountSat == amountSat && this.origin == origin && this.expiresAt == expiresAt
    {
      this.amountSat, this.origin, this.expiresAt := amountSat, origin, expiresAt;
      status, settlement, paidVia := L.Unpaid, L.NoSettlement, None;
      paidAmountSat, paidAt, cancelledAt, events, selectedBy := None, None, None, [], {};
    }

    /** DELETE of the direct Liquid rows of `txid`. */
    method DeleteDirectRows(txid: Option<Tx>) returns (deleted: nat)
      modifies `events
      ensures events == L.PruneDirect(old(events), txid)
      ensures deleted == |old(events)| - |events|
    {
      var kept: seq<L.EventRow> := [];
      for i := 0 to |events|
        invariant kept + L.PruneDirect(events[i..], txid) == L.PruneDirect(events, txid)
      {
        assert events[i..][1..] == events[i + 1..];
        if !L.IsDirectLiquidOf(events[i], txid) {
          kept := kept + [events[i]];
        }
      }
      assert kept == L.PruneDirect(events, txid);
      deleted := |events| - |kept|;
      events := kept;
    }

    /** INSERT ... ON CONFLICT (event_key) DO NOTHING. */
    method InsertEvent(e: L.Evidence, now: int) returns (inserted: bool)
      modifies `events
      ensures inserted == !L.HasKey(old(events), e.eventKey)
      ensures events == if inserted then old(events) + [L.EventRow(e, now)] else old(events)
    {
      inserted := true;
      for i := 0 to |events|
        invariant inserted == forall k :: 0 <= k < i ==> events[k].evidence.eventKey != e.eventKey
      {
        if events[i].evidence.eventKey == e.eventKey {
          inserted := false;
        }
      }
      if inserted {
        events := events + [L.EventRow(e, now)];
      }
    }

    method SumOfAmounts() returns (sum: int)
      ensures sum == L.SumAmounts(events)
    {
      sum := 0;
      for i := 0 to |events|
        invariant sum + L.SumAmounts(events[i..]) == L.SumAmounts(events)
      {
        assert events[i..][1..] == events[i + 1..];
        sum := sum + events[i].evidence.amountSat;
      }
    }

    /** The second half of the transaction: the cached columns from the event table as it now is. */
    method RecomputeColumns(rail: L.Rail, tol: L.Tolerances, now: int)
      modifies this
      ensures View() == L.Recompute(old(View()), old(events), rail, tol, now)
    {
      var received := SumOfAmounts();
      var tolerance := L.Tolerance(amountSat, rail, tol);
      var row := L.Invoice(amountSat, origin, expiresAt, status, settlement, paidVia, paidAmountSat, paidAt,
                           cancelledAt, events, selectedBy);
      var newStatus := L.StatusFor(row, received, tolerance, now);
      paidVia := Some(L.ViaOf(events));
      paidAmountSat := Some(received);
      status := newStatus;
      if status == L.Paid || status == L.Overpaid {
        settlement := L.Settled;
        if paidAt.None? {
          paidAt := Some(now);
        }
      } else {
        settlement := L.NoSettlement;
      }
    }

    method RecordInvoicePayment(e: L.Evidence, tol: L.Tolerances, now: int) returns (r: L.Recorded)
      modifies this
      ensures View() == L.Record(old(View()), e, tol, now).0
      ensures r == L.Record(old(View()), e, tol, now).1
    {
      var invalid := L.Validate(e);
      if invalid.Some? {
        return L.Rejected(invalid.value);
      }
      if status == L.Cancelled {
        return L.Rows(0);
      }
      if e.source == L.LiquidDirect && L.SettledByBoltz(events, e.txid) {
        return L.Rows(0);
      }
      var pruned := 0;
      if L.IsBoltz(e.source) {
        pruned := DeleteDirectRows(e.txid);
      }
      var inserted := InsertEvent(e, now);
      if !inserted && pruned == 0 {
        assert events == old(events) by {
          if L.IsBoltz(e.source) {
            LP.PrunedNone(old(events), e.txid);
          }
        }
        return L.Rows(0);
      }
      RecomputeColumns(e.rail, tol, now);
      r := L.Rows(if inserted then 1 else 0);
    }

    method MarkInProgress() returns (rows: nat)
      modifies this
      ensures View() == L.MarkInProgress(old(View()))
      ensures rows == (if old(status) == L.Unpaid then 1 else 0)
    {
      rows := 0;
      if status == L.Unpaid {
        status, settlement, rows := L.InProgress, L.Pending, 1;
      }
    }

    method MarkSettlement(s: L.Settlement) returns (rows: nat)
      modifies this
      ensures View() == L.MarkSettlement(old(View()), s)
      ensures rows == if old(status) in {L.Paid, L.Underpaid, L.Overpaid, L.Expired, L.Cancelled} then 0 else 1
    {
      rows := 0;
      if status !in {L.Paid, L.Underpaid, L.Overpaid, L.Expired, L.Cancelled} {
        settlement, rows := s, 1;
      }
    }

    /** Answers the rows changed and the status the row has afterwards. */
    method Cancel(now: int) returns (rows: nat, final: L.Status)
      modifies this
      ensures View() == L.Cancel(old(View()), now)
      ensures rows == (if old(status) == L.Unpaid then 1 else 0) && final == status
    {
      rows := 0;
      if status == L.Unpaid {
        status, cancelledAt, rows := L.Cancelled, Some(now), 1;
      }
      final := status;
    }

    method ExpirePastDeadline(now: int)
      modifies this
      ensures View() == L.Expire(old(View()), now)
    {
      if status in {L.Unpaid, L.InProgress, L.PartiallyPaid} && expiresAt < now {
        status := if status == L.PartiallyPaid then L.Underpaid else L.Expired;
      }
    }

    method LatestPayment() returns (latest: Option<int>)
      ensures latest == L.LatestEvent(events)
    {
      latest := None;
      var i := |events|;
      while i > 0
        invariant 0 <= i <= |events| && latest == L.LatestEvent(events[i..])
      {
        i := i - 1;
        assert events[i..][1..] == events[i + 1..];
        latest := Some(if latest.None? then events[i].createdAt else Max(events[i].createdAt, latest.value));
      }
    }

    /** The snapshot of a sweep, on this row. */
    method SelectStale(sweep: L.SweepId, graceSecs: nat, now: int) returns (selected: bool)
      modifies `selectedBy
      ensures View() == L.SelectStale(old(View()), sweep, graceSecs, now)
      ensures selected == L.IsStale(old(View()), graceSecs, now)
    {
      var latest := LatestPayment();
      selected := origin == L.Checkout && status == L.PartiallyPaid
        && settlement !in {L.Pending, L.ClaimStuck, L.Refunded}
        && latest.Some? && latest.value < now - graceSecs;
      if selected {
        selectedBy := selectedBy + {sweep};
      }
    }

    /** UPDATE of a row the sweep selected, by its id alone. */
    method WriteSelected(sweep: L.SweepId) returns (rows: nat)
      modifies `status, `selectedBy
      ensures View() == L.WriteStale(old(View()), sweep, false)
      ensures rows == if sweep in old(selectedBy) then 1 else 0
    {
      rows := 0;
      if sweep in selectedBy {
        status, selectedBy, rows := L.Underpaid, selectedBy - {sweep}, 1;
      }
    }

    /** UPDATE of a row the sweep selected, its columns checked again. */
    method WriteRechecked(sweep: L.SweepId) returns (rows: nat)
      modifies `status, `selectedBy
      ensures View() == L.WriteStale(old(View()), sweep, true)
      ensures rows == if sweep in old(selectedBy) && L.Sweepable(old(View())) then 1 else 0
    {
      rows := 0;
      if sweep in selectedBy {
        selectedBy := selectedBy - {sweep};
        if origin == L.Checkout && status == L.PartiallyPaid
           && settlement !in {L.Pending, L.ClaimStuck, L.Refunded}
        {
          status, rows := L.Underpaid, 1;
        }
      }
    }

    /** The sweep of one invoice when nothing comes between its snapshot and its write. */
    method TerminalizeStale(sweep: L.SweepId, graceSecs: nat, now: int) returns (rows: nat)
      requires sweep !in selectedBy
      modifies this
      ensures View() == L.TerminalizeStale(old(View()), graceSecs, now)
      ensures rows == if L.IsStale(old(View()), graceSecs, now) then 1 else 0
    {
      var selected := SelectStale(sweep, graceSecs, now);
      rows := WriteRechecked(sweep);
    }
  }
}

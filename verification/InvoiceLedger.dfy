/** The payment ledger of one invoice: an event table keyed by `event_key` and the invoice
    columns recomputed from it. Every step is one row-locked transaction or one guarded UPDATE, but for the
    sweeps of stale partial payments: they select their rows in a snapshot and write them later. */
module InvoiceLedger {
  import opened Base
  import opened Chain

  datatype Rail = Bitcoin | Liquid | Lightning | UnknownRail(name: string)

  datatype Source =
    | BitcoinDirect
    | LiquidDirect
    | LightningBoltzReverse
    | BitcoinBoltzChain
    | UnknownSource(name: string)

  /** The three formats of `event_key`: source and outpoint, or source and Boltz swap id. */
  datatype EventKey =
    | DirectKey(source: Source, txid: Tx, vout: int)
    | BoltzKey(source: Source, swap: SwapId)

  datatype Evidence = Evidence(
    rail: Rail,
    source: Source,
    eventKey: EventKey,
    amountSat: int,
    txid: Option<Tx>,
    vout: Option<int>,
    boltzSwapId: Option<SwapId>,
    address: Option<Address>)

  datatype EvidenceError = AmountNotPositive | RailUnknown | FieldsMissing | SourceRailMismatch

  datatype Tolerances = Tolerances(btcSat: int, liquidSat: int, lightningSat: int)

  datatype Status =
    | Unpaid | InProgress | PartiallyPaid | Paid | Underpaid | Overpaid | Expired | Cancelled

  datatype Settlement = NoSettlement | Pending | Settled | ClaimStuck | Refunded | Failed

  datatype Origin = Checkout | WalletOrigin

  datatype PaidVia = OneRail(rail: Rail) | Mixed

  datatype EventRow = EventRow(evidence: Evidence, createdAt: int)

  type SweepId = nat

  /** The last column is bookkeeping: the sweeps that have selected the row and not written it yet. */
  datatype Invoice = Invoice(
    amountSat: int,
    origin: Origin,
    expiresAt: int,
    status: Status,
    settlement: Settlement,
    paidVia: Option<PaidVia>,
    paidAmountSat: Option<int>,
    paidAt: Option<int>,
    cancelledAt: Option<int>,
    events: seq<EventRow>,
    selectedBy: set<SweepId>)

  /** What `record_invoice_payment` answers: a validation error, or the rows it inserted. */
  datatype Recorded = Rejected(error: EvidenceError) | Rows(n: nat)

  // --- Evidence ---

  predicate IsBoltz(source: Source) {
    source == LightningBoltzReverse || source == BitcoinBoltzChain
  }

  predicate HasDirectFields(e: Evidence) {
    e.txid.Some? && e.vout.Some? && e.vout.value >= 0 && e.address.Some? && e.boltzSwapId.None?
  }

  predicate HasBoltzFields(e: Evidence) {
    e.txid.Some? && e.boltzSwapId.Some? && e.vout.None?
  }

  function Validate(e: Evidence): Option<EvidenceError> {
    if e.amountSat <= 0 then Some(AmountNotPositive)
    else if e.rail.UnknownRail? then Some(RailUnknown)
    else match (e.source, e.rail)
      case (BitcoinDirect, Bitcoin) => if HasDirectFields(e) then None else Some(FieldsMissing)
      case (LiquidDirect, Liquid) => if HasDirectFields(e) then None else Some(FieldsMissing)
      case (LightningBoltzReverse, Lightning) => if HasBoltzFields(e) then None else Some(FieldsMissing)
      case (BitcoinBoltzChain, Bitcoin) => if HasBoltzFields(e) then None else Some(FieldsMissing)
      case _ => Some(SourceRailMismatch)
  }

  predicate Valid(e: Evidence) {
    Validate(e).None?
  }

  // --- Tolerances ---

  function ForRail(tol: Tolerances, rail: Rail): int {
    Max(match rail
        case Bitcoin => tol.btcSat
        case Liquid => tol.liquidSat
        case Lightning => tol.lightningSat
        case UnknownRail(_) => 0, 0)
  }

  function Tolerance(amountSat: int, rail: Rail, tol: Tolerances): int {
    // The amount column is CHECKed positive, so Euclidean and truncating division agree.
    var onePercent := Max(amountSat / 100, 1);
    Max(Min(ForRail(tol, rail), onePercent), 0)
  }

  // --- The event table ---

  predicate IsDirectLiquidOf(r: EventRow, txid: Option<Tx>) {
    r.evidence.source == LiquidDirect && r.evidence.txid == txid
  }

  predicate SettledByBoltz(rows: seq<EventRow>, txid: Option<Tx>) {
    exists r :: r in rows && IsBoltz(r.evidence.source) && r.evidence.txid == txid
  }

  function PruneDirect(rows: seq<EventRow>, txid: Option<Tx>): (kept: seq<EventRow>)
    ensures |kept| <= |rows|
  {
    if rows == [] then []
    else if IsDirectLiquidOf(rows[0], txid) then PruneDirect(rows[1..], txid)
    else [rows[0]] + PruneDirect(rows[1..], txid)
  }

  predicate HasKey(rows: seq<EventRow>, key: EventKey) {
    exists r :: r in rows && r.evidence.eventKey == key
  }

  function SumAmounts(rows: seq<EventRow>): int {
    if rows == [] then 0 else rows[0].evidence.amountSat + SumAmounts(rows[1..])
  }

  function Rails(rows: seq<EventRow>): set<Rail> {
    set r | r in rows :: r.evidence.rail
  }

  function ViaOf(rows: seq<EventRow>): PaidVia {
    if rows != [] && Rails(rows) == {rows[0].evidence.rail} then OneRail(rows[0].evidence.rail) else Mixed
  }

  function LatestEvent(rows: seq<EventRow>): Option<int> {
    if rows == [] then None
    else match LatestEvent(rows[1..])
      case None => Some(rows[0].createdAt)
      case Some(t) => Some(Max(rows[0].createdAt, t))
  }

  // --- Steps ---

  function StatusFor(inv: Invoice, received: int, tolerance: int, now: int): Status {
    if received > inv.amountSat then Overpaid
    else if inv.amountSat - received <= tolerance then Paid
    else if inv.status == Underpaid then Underpaid
    else if inv.expiresAt <= now then Underpaid
    else PartiallyPaid
  }

  /** Recompute the cached columns after the event table changed to `rows`. */
  function Recompute(inv: Invoice, rows: seq<EventRow>, rail: Rail, tol: Tolerances, now: int): Invoice {
    var received := SumAmounts(rows);
    var status := StatusFor(inv, received, Tolerance(inv.amountSat, rail, tol), now);
    var settled := status == Paid || status == Overpaid;
    inv.(events := rows,
         status := status,
         paidVia := Some(ViaOf(rows)),
         paidAmountSat := Some(received),
         settlement := if settled then Settled else NoSettlement,
         paidAt := if settled && inv.paidAt.None? then Some(now) else inv.paidAt)
  }

  function Record(inv: Invoice, e: Evidence, tol: Tolerances, now: int): (Invoice, Recorded) {
    if !Valid(e) then (inv, Rejected(Validate(e).value))
    else if inv.status == Cancelled then (inv, Rows(0))
    else if e.source == LiquidDirect && SettledByBoltz(inv.events, e.txid) then (inv, Rows(0))
    else
      var kept := if IsBoltz(e.source) then PruneDirect(inv.events, e.txid) else inv.events;
      var inserted := !HasKey(kept, e.eventKey);
      if !inserted && |kept| == |inv.events| then (inv, Rows(0))
      else
        var rows := if inserted then kept + [EventRow(e, now)] else kept;
        (Recompute(inv, rows, e.rail, tol, now), Rows(if inserted then 1 else 0))
  }

  function MarkInProgress(inv: Invoice): Invoice {
    if inv.status == Unpaid then inv.(status := InProgress, settlement := Pending) else inv
  }

  function MarkSettlement(inv: Invoice, s: Settlement): Invoice {
    if inv.status in {Paid, Underpaid, Overpaid, Expired, Cancelled} then inv else inv.(settlement := s)
  }

  function Cancel(inv: Invoice, now: int): Invoice {
    if inv.status == Unpaid then inv.(status := Cancelled, cancelledAt := Some(now)) else inv
  }

  function Expire(inv: Invoice, now: int): Invoice {
    if inv.status in {Unpaid, InProgress, PartiallyPaid} && inv.expiresAt < now then
      inv.(status := if inv.status == PartiallyPaid then Underpaid else Expired)
    else inv
  }

  /** The columns a sweep of stale partial payments asks for. */
  predicate Sweepable(inv: Invoice) {
    inv.origin == Checkout && inv.status == PartiallyPaid && inv.settlement !in {Pending, ClaimStuck, Refunded}
  }

  predicate IsStale(inv: Invoice, graceSecs: nat, now: int) {
    Sweepable(inv) && LatestEvent(inv.events).Some? && LatestEvent(inv.events).value < now - graceSecs
  }

  function SelectStale(inv: Invoice, sweep: SweepId, graceSecs: nat, now: int): Invoice {
    if IsStale(inv, graceSecs, now) then inv.(selectedBy := inv.selectedBy + {sweep}) else inv
  }

  /** The write of a sweep to a row it selected. Under READ COMMITTED only the UPDATE's own WHERE is checked
      against the row as it has become: the sweep of one invoice checks the columns again, the batch sweep
      nothing but the id. */
  function WriteStale(inv: Invoice, sweep: SweepId, rechecks: bool): Invoice {
    if sweep !in inv.selectedBy then inv
    else inv.(selectedBy := inv.selectedBy - {sweep},
              status := if !rechecks || Sweepable(inv) then Underpaid else inv.status)
  }

  /** A sweep that nothing interrupts. */
  function TerminalizeStale(inv: Invoice, graceSecs: nat, now: int): Invoice {
    if IsStale(inv, graceSecs, now) then inv.(status := Underpaid) else inv
  }

  datatype Step =
    | RecordPayment(evidence: Evidence, now: int)
    | InProgressStep
    | SettlementStep(settlement: Settlement)
    | CancelStep(now: int)
    | ExpireStep(now: int)
    | TerminalizeStep(graceSecs: nat, now: int)
    | SelectStep(sweep: SweepId, graceSecs: nat, now: int)
    | WriteStep(sweep: SweepId, rechecks: bool)

  function Apply(inv: Invoice, step: Step, tol: Tolerances): Invoice {
    match step
    case RecordPayment(e, now) => Record(inv, e, tol, now).0
    case InProgressStep => MarkInProgress(inv)
    case SettlementStep(s) => MarkSettlement(inv, s)
    case CancelStep(now) => Cancel(inv, now)
    case ExpireStep(now) => Expire(inv, now)
    case TerminalizeStep(grace, now) => TerminalizeStale(inv, grace, now)
    case SelectStep(sweep, grace, now) => SelectStale(inv, sweep, grace, now)
    case WriteStep(sweep, rechecks) => WriteStale(inv, sweep, rechecks)
  }

  function Run(inv: Invoice, steps: seq<Step>, tol: Tolerances): Invoice {
    if steps == [] then inv else Apply(Run(inv, steps[..|steps|-1], tol), steps[|steps|-1], tol)
  }

  predicate Fresh(inv: Invoice) {
    inv.amountSat > 0 && inv.status == Unpaid && inv.settlement == NoSettlement && inv.paidVia.None?
    && inv.paidAmountSat.None? && inv.paidAt.None? && inv.cancelledAt.None? && inv.events == []
    && inv.selectedBy == {}
  }
}

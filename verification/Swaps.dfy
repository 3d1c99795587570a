/** Swap rows of both tables (`swap_records` and `chain_swap_records`) and every guarded UPDATE on
    them. Times are in seconds. */
module Swaps {
  import opened Base
  import opened Chain

  type InvoiceId = string

  datatype SwapStatus =
    | Pending | LockupMempool | LockupConfirmed | Claiming | Claimed | ClaimFailed
    | Expired | ClaimStuck | LockupRefunded

  datatype ChainSwapStatus =
    | ChainPending | UserLockMempool | UserLockConfirmed | ServerLockMempool | ServerLockConfirmed
    | ChainClaiming | ChainClaimed | ChainClaimFailed | ChainClaimStuck | ChainExpired
    | LockupFailed | ChainRefunded

  /** A status of either table. */
  datatype RowStatus = Rev(s: SwapStatus) | Chn(c: ChainSwapStatus)

  predicate IsTerminal(st: RowStatus) {
    match st
    case Rev(s) => s in {Claimed, Expired, ClaimStuck, LockupRefunded}
    case Chn(c) => c in {ChainClaimed, ChainClaimStuck, ChainExpired, LockupFailed, ChainRefunded}
  }

  /** Statuses the background sweep selects. */
  predicate IsClaimable(st: RowStatus) {
    match st
    case Rev(s) => s in {LockupMempool, LockupConfirmed, Claiming, ClaimFailed}
    case Chn(c) => c in {ServerLockMempool, ServerLockConfirmed, ChainClaiming, ChainClaimFailed}
  }

  /** The statuses with the same name in both tables. */
  function ClaimingOf(st: RowStatus): RowStatus {
    if st.Rev? then Rev(Claiming) else Chn(ChainClaiming)
  }

  function ClaimedOf(st: RowStatus): RowStatus {
    if st.Rev? then Rev(Claimed) else Chn(ChainClaimed)
  }

  function StuckOf(st: RowStatus): RowStatus {
    if st.Rev? then Rev(ClaimStuck) else Chn(ChainClaimStuck)
  }

  datatype ClaimPath = Cooperative | Script

  /** The columns fixed at creation. A chain swap always belongs to an invoice. */
  datatype SwapKind =
    | ReverseSwap(invoice: Option<InvoiceId>, nym: Option<string>, amountSat: int)
    | ChainSwap(chainInvoice: InvoiceId, userLockAmountSat: int, serverLockAmountSat: int)

  datatype SwapRow = SwapRow(
    kind: SwapKind,
    status: RowStatus,
    address: Option<Address>,
    claimTx: Option<Tx>,
    claimTxid: Option<Tx>,
    claimPath: Option<ClaimPath>,
    claimAttempts: int,
    nextClaimAttemptAt: Option<real>,
    lastClaimError: Option<string>,
    cooperativeRefused: bool)

  const LEASE: real := 120.0

  // --- Guarded updates ---

  function UpdateStatus(row: SwapRow, status: RowStatus, txid: Option<Tx>): SwapRow {
    if IsTerminal(row.status) then row
    else row.(status := status, claimTxid := if txid.Some? then txid else row.claimTxid)
  }

  function MarkCooperativeRefused(row: SwapRow): SwapRow {
    if IsTerminal(row.status) then row else row.(cooperativeRefused := true)
  }

  function BackoffSecs(attempt: int): int {
    if attempt <= 1 then 10
    else if attempt == 2 then 20
    else if attempt == 3 then 60
    else if attempt == 4 then 300
    else if attempt == 5 then 600
    else if attempt == 6 then 1800
    else 3600
  }

  /** `random()` of the database is `u`, in [0, 1). */
  function JitteredDelay(attempt: int, u: real): real {
    (BackoffSecs(attempt) as real) * (0.8 + 0.4 * u)
  }

  datatype FailureOutcome = Scheduled | Stuck | NoOp

  function RecordClaimFailure(row: SwapRow, error: string, maxAttempts: int, now: real, u: real)
    : (SwapRow, FailureOutcome)
  {
    if IsTerminal(row.status) then (row, NoOp)
    else
      var attempts := row.claimAttempts + 1;
      var bumped := row.(claimAttempts := attempts,
                         lastClaimError := Some(error),
                         nextClaimAttemptAt := Some(now + JitteredDelay(attempts, u)));
      if attempts >= maxAttempts then (bumped.(status := StuckOf(row.status)), Stuck) else (bumped, Scheduled)
  }

  /** The due time after a nudge: a running broadcast lease is not collapsed. */
  function Nudged(row: SwapRow, now: real): real {
    if row.status == Rev(Claiming) && row.nextClaimAttemptAt.Some? && row.nextClaimAttemptAt.value > now then
      if row.nextClaimAttemptAt.value <= now + LEASE then row.nextClaimAttemptAt.value else now + LEASE
    else now
  }

  function ScheduleImmediateClaim(row: SwapRow, now: real): SwapRow {
    if IsTerminal(row.status) then row else row.(nextClaimAttemptAt := Some(Nudged(row, now)))
  }

  function ScheduleScriptPathRetry(row: SwapRow, now: real): SwapRow {
    if IsTerminal(row.status) then row
    else row.(cooperativeRefused := true, nextClaimAttemptAt := Some(Nudged(row, now)))
  }

  function ClearClaimFailureState(row: SwapRow): SwapRow {
    row.(lastClaimError := None, nextClaimAttemptAt := None)
  }

  /** The claimer's write of the claim address, which never replaces one and does not look at the status.
      Rows of chain swaps have no such column. */
  function AssignAddress(row: SwapRow, a: Address): SwapRow {
    if row.status.Chn? || row.address.Some? then row else row.(address := Some(a))
  }

  /** The claimer's write of a constructed transaction, which never replaces one and does not look at
      the status. */
  function Persist(row: SwapRow, tx: Tx, path: Option<ClaimPath>): SwapRow {
    if row.claimTx.Some? then row else row.(claimTx := Some(tx), claimTxid := Some(tx), claimPath := path)
  }

  /** The claimer's status write before it commits: `claiming`, with a lease on the due time. The time is
      the database's `NOW()`, the start of the transaction. */
  function StartClaiming(row: SwapRow, now: real): SwapRow {
    if IsTerminal(row.status) then row
    else row.(status := ClaimingOf(row.status), nextClaimAttemptAt := Some(now + LEASE))
  }

  predicate ReadyToClaim(row: SwapRow, now: real) {
    IsClaimable(row.status) && (row.nextClaimAttemptAt.None? || row.nextClaimAttemptAt.value <= now)
  }

  // --- Boltz statuses ---

  datatype BoltzStatus =
    | SwapCreated | TransactionMempool | TransactionConfirmed | ServerMempool | ServerConfirmed
    | InvoiceSettled | SwapExpired | TransactionFailed | InvoiceExpired | TransactionRefunded
    | ZeroconfRejected | TransactionLockupFailed | TransactionClaimed | OtherStatus(name: string)

  /** The webhook arms for a reverse swap, before any claim attempt. */
  function Webhook(row: SwapRow, b: BoltzStatus): SwapRow {
    if IsTerminal(row.status) then row
    else match b
      case TransactionMempool => UpdateStatus(row, Rev(LockupMempool), None)
      case TransactionConfirmed => UpdateStatus(row, Rev(LockupConfirmed), None)
      case SwapExpired => MarkCooperativeRefused(row)
      case TransactionFailed => UpdateStatus(row, Rev(Expired), None)
      case InvoiceExpired => UpdateStatus(row, Rev(Expired), None)
      case TransactionRefunded => UpdateStatus(row, Rev(LockupRefunded), None)
      case _ => row
  }

  function ChainStatusFromBoltz(b: BoltzStatus): Option<ChainSwapStatus> {
    match b
    case TransactionMempool => Some(UserLockMempool)
    case TransactionConfirmed => Some(UserLockConfirmed)
    case ServerMempool => Some(ServerLockMempool)
    case ServerConfirmed => Some(ServerLockConfirmed)
    case SwapExpired => Some(ChainExpired)
    case ZeroconfRejected => Some(LockupFailed)
    case TransactionLockupFailed => Some(LockupFailed)
    case TransactionFailed => Some(LockupFailed)
    case TransactionRefunded => Some(ChainRefunded)
    case _ => None
  }

  /** The webhook arms for a chain swap, before any claim attempt. */
  function ChainWebhook(row: SwapRow, b: BoltzStatus): SwapRow {
    if IsTerminal(row.status) || b == TransactionClaimed then row
    else match ChainStatusFromBoltz(b)
      case None => row
      case Some(next) => UpdateStatus(row, Chn(next), None)
  }

  // --- Reconciler ---

  datatype Action =
    | Noop | AdvanceToLockupMempool | AdvanceToLockupConfirmed | ImmediateClaim | ScriptPathRetry
    | MarkExpired | MarkLockupRefunded

  function DecideAction(seen: SwapStatus, b: BoltzStatus): Action {
    if IsTerminal(Rev(seen)) then Noop
    else match b
      case SwapCreated => Noop
      case TransactionMempool => if seen == Pending then AdvanceToLockupMempool else ImmediateClaim
      case TransactionConfirmed =>
        if seen == Pending || seen == LockupMempool then AdvanceToLockupConfirmed else ImmediateClaim
      case SwapExpired => ScriptPathRetry
      case InvoiceExpired => MarkExpired
      case TransactionFailed => MarkExpired
      case TransactionRefunded => MarkLockupRefunded
      case InvoiceSettled => ImmediateClaim
      case _ => Noop
  }

  function ApplyAction(row: SwapRow, a: Action, now: real): SwapRow {
    match a
    case Noop => row
    case AdvanceToLockupMempool => ScheduleImmediateClaim(UpdateStatus(row, Rev(LockupMempool), None), now)
    case AdvanceToLockupConfirmed => ScheduleImmediateClaim(UpdateStatus(row, Rev(LockupConfirmed), None), now)
    case ImmediateClaim => ScheduleImmediateClaim(row, now)
    case ScriptPathRetry => ScheduleScriptPathRetry(row, now)
    case MarkExpired => UpdateStatus(row, Rev(Expired), None)
    case MarkLockupRefunded => UpdateStatus(row, Rev(LockupRefunded), None)
  }
}

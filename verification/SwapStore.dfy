/** One row of `swap_records` or `chain_swap_records`, updated in place. */
module SwapStore {
  import opened Base
  import opened Chain
  import S = Swaps

  class SwapRecord {
    const kind: S.SwapKind
    var status: S.RowStatus
    var address: Option<Address>
    var claimTx: Option<Tx>
    var claimTxid: Option<Tx>
    var claimPath: Option<S.ClaimPath>
    var claimAttempts: int
    var nextClaimAttemptAt: Option<real>
    var lastClaimError: Option<string>
    var cooperativeRefused: bool

    ghost function View(): S.SwapRow
      reads this
    {
      S.SwapRow(kind, status, address, claimTx, claimTxid, claimPath, claimAttempts, nextClaimAttemptAt,
                lastClaimError, cooperativeRefused)
    }

    constructor (kind: S.SwapKind, address: Option<Address>)
      ensures View() == S.SwapRow(kind, if kind.ReverseSwap? then S.Rev(S.Pending) else S.Chn(S.ChainPending), address,
                                  None, None, None, 0, None, None, false)
    {
      this.kind, this.address := kind, address;
      status := if kind.ReverseSwap? then S.Rev(S.Pending) else S.Chn(S.ChainPending);
      claimTx, claimTxid, claimPath, claimAttempts := None, None, None, 0;
      nextClaimAttemptAt, lastClaimError, cooperativeRefused := None, None, false;
    }

    method UpdateStatus(next: S.RowStatus, txid: Option<Tx>) returns (rows: nat)
      modifies this
      ensures View() == S.UpdateStatus(old(View()), next, txid)
      ensures rows == if S.IsTerminal(old(status)) then 0 else 1
    {
      rows := 0;
      if !S.IsTerminal(status) {
        status, rows := next, 1;
        if txid.Some? {
          claimTxid := txid;
        }
      }
    }

    method MarkCooperativeRefused()
      modifies this
      ensures View() == S.MarkCooperativeRefused(old(View()))
    {
      if !cooperativeRefused && !S.IsTerminal(status) {
        cooperativeRefused := true;
      }
    }

    /** Two updates in one transaction: the bump, then the stuck status when the budget is used up. */
    method RecordClaimFailure(error: string, maxAttempts: int, now: real, u: real) returns (outcome: S.FailureOutcome)
      modifies this
      ensures View() == S.RecordClaimFailure(old(View()), error, maxAttempts, now, u).0
      ensures outcome == S.RecordClaimFailure(old(View()), error, maxAttempts, now, u).1
    {
      if S.IsTerminal(status) {
        return S.NoOp;
      }
      claimAttempts := claimAttempts + 1;
      lastClaimError := Some(error);
      nextClaimAttemptAt := Some(now + S.JitteredDelay(claimAttempts, u));
      if claimAttempts >= maxAttempts {
        status := S.StuckOf(status);
        return S.Stuck;
      }
      return S.Scheduled;
    }

    method ScheduleImmediateClaim(now: real) returns (rows: nat)
      modifies this
      ensures View() == S.ScheduleImmediateClaim(old(View()), now)
      ensures rows == if S.IsTerminal(old(status)) then 0 else 1
    {
      rows := 0;
      if !S.IsTerminal(status) {
        nextClaimAttemptAt, rows := Some(NudgedDue(now)), 1;
      }
    }

    method ScheduleScriptPathRetry(now: real) returns (rows: nat)
      modifies this
      ensures View() == S.ScheduleScriptPathRetry(old(View()), now)
      ensures rows == if S.IsTerminal(old(status)) then 0 else 1
    {
      rows := 0;
      if !S.IsTerminal(status) {
        cooperativeRefused, nextClaimAttemptAt, rows := true, Some(NudgedDue(now)), 1;
      }
    }

    function NudgedDue(now: real): (due: real)
      reads this
      ensures due == S.Nudged(View(), now)
    {
      if status == S.Rev(S.Claiming) && nextClaimAttemptAt.Some? && nextClaimAttemptAt.value > now then
        if now + S.LEASE < nextClaimAttemptAt.value then now + S.LEASE else nextClaimAttemptAt.value
      else now
    }

    method ClearClaimFailureState()
      modifies this
      ensures View() == S.ClearClaimFailureState(old(View()))
    {
      lastClaimError, nextClaimAttemptAt := None, None;
    }

    method AssignAddress(a: Address)
      modifies this
      ensures old(address).Some? ==> address == old(address)
      ensures View() == S.AssignAddress(old(View()), a)
    {
      if status.Rev? && address.None? {
        address := Some(a);
      }
    }

    /** The claimer's two updates before it commits: persist the constructed transaction unless one
        is there, then take the lease. */
    method PersistAndStart(tx: Tx, path: Option<S.ClaimPath>, now: real)
      modifies this
      ensures old(claimTx).Some? ==> claimTx == old(claimTx)
      ensures old(claimTx).None? ==> claimTx == Some(tx)
      ensures View() == S.StartClaiming(S.Persist(old(View()), tx, path), now)
    {
      if claimTx.None? {
        claimTx, claimTxid, claimPath := Some(tx), Some(tx), path;
      }
      if !S.IsTerminal(status) {
        status, nextClaimAttemptAt := S.ClaimingOf(status), Some(now + S.LEASE);
      }
    }
  }
}

/** Who writes which column of a swap row, what a reconciler decides, and when the sweep takes a row up. */
module SwapColumns {
  import opened Base
  import opened Chain
  import opened Swaps
  import opened SwapProofs

  // --- Statuses ---

  /** What a webhook says of a reverse swap that has not ended: the two lockup sightings, the three ends, and an
      expiry that only rules out the cooperative path. Everything else is ignored. */
  lemma ReverseWebhookIff(row: SwapRow, b: BoltzStatus)
    requires row.status.Rev? && !IsTerminal(row.status)
    ensures var row' := Webhook(row, b);
      && row' == row.(status := row'.status, cooperativeRefused := row'.cooperativeRefused)
      && (row'.status == Rev(LockupMempool)
          <==> b == TransactionMempool || (row.status == Rev(LockupMempool) && Silent(b)))
      && (row'.status == Rev(LockupConfirmed)
          <==> b == TransactionConfirmed || (row.status == Rev(LockupConfirmed) && Silent(b)))
      && (row'.status == Rev(Expired) <==> b == TransactionFailed || b == InvoiceExpired)
      && (row'.status == Rev(LockupRefunded) <==> b == TransactionRefunded)
      && (Silent(b) ==> row'.status == row.status)
      && (row'.cooperativeRefused <==> row.cooperativeRefused || b == SwapExpired)
  {
  }

  predicate Silent(b: BoltzStatus) {
    b !in {TransactionMempool, TransactionConfirmed, TransactionFailed, InvoiceExpired, TransactionRefunded}
  }

  /** The statuses no write leaves again. */
  lemma EndedStatuses(st: RowStatus)
    ensures IsTerminal(st) <==> st in {Rev(Claimed), Rev(Expired), Rev(ClaimStuck), Rev(LockupRefunded),
      Chn(ChainClaimed), Chn(ChainClaimStuck), Chn(ChainExpired), Chn(LockupFailed), Chn(ChainRefunded)}
  {
  }

  /** The rows the sweep takes up: a lockup it may claim, a claim under way or failed, due or never scheduled;
      a user's own lockup is no reason. */
  lemma SweepTakesIff(row: SwapRow, now: real)
    ensures ReadyToClaim(row, now) <==>
      && row.status in {Rev(LockupMempool), Rev(LockupConfirmed), Rev(Claiming), Rev(ClaimFailed),
                        Chn(ServerLockMempool), Chn(ServerLockConfirmed), Chn(ChainClaiming), Chn(ChainClaimFailed)}
      && (row.nextClaimAttemptAt.Some? ==> row.nextClaimAttemptAt.value <= now)
  {
  }

  // --- What a reconciler decides ---

  /** A swap it read as ended is left alone; a lockup it had not seen advances the row; a lockup it had seen, or
      a settled Lightning invoice, is a reason to claim at once; an expiry, to claim by script. */
  lemma DecidedIff(seen: SwapStatus, b: BoltzStatus)
    ensures var a := DecideAction(seen, b); var open := seen !in {Claimed, Expired, ClaimStuck, LockupRefunded};
      && (a == AdvanceToLockupMempool <==> b == TransactionMempool && seen == Pending)
      && (a == AdvanceToLockupConfirmed <==> b == TransactionConfirmed && seen in {Pending, LockupMempool})
      && (a == ImmediateClaim <==>
            && open
            && (b == InvoiceSettled || (b == TransactionMempool && seen != Pending)
                || (b == TransactionConfirmed && seen !in {Pending, LockupMempool})))
      && (a == ScriptPathRetry <==> open && b == SwapExpired)
      && (a == MarkExpired <==> open && b in {InvoiceExpired, TransactionFailed})
      && (a == MarkLockupRefunded <==> open && b == TransactionRefunded)
  {
  }

  /** The waits of the database's table, with no jitter and at either end of it. */
  lemma BackoffTable(attempt: int)
    requires attempt >= 1
    ensures var secs := if attempt == 1 then 10.0 else if attempt == 2 then 20.0 else if attempt == 3 then 60.0
        else if attempt == 4 then 300.0 else if attempt == 5 then 600.0 else if attempt == 6 then 1800.0 else 3600.0;
      && JitteredDelay(attempt, 0.5) == secs && JitteredDelay(attempt, 0.0) == secs * 0.8
      && forall u, v :: 0.0 <= u < v < 1.0 ==> JitteredDelay(attempt, u) < JitteredDelay(attempt, v) < secs * 1.2
  {
    var d := BackoffSecs(attempt) as real;
    forall u, v | 0.0 <= u < v < 1.0 ensures JitteredDelay(attempt, u) < JitteredDelay(attempt, v) < d * 1.2 {
      Stretch(d, 0.8 + 0.4 * u, 0.8 + 0.4 * v);
      Stretch(d, 0.8 + 0.4 * v, 1.2);
    }
  }

  lemma Stretch(d: real, x: real, y: real)
    requires d > 0.0 && x < y
    ensures d * x < d * y
  {
    assert d * (y - x) > 0.0;
  }

  // --- Column by column ---

  /** A write that respects the end of a swap, on a row that has not ended. */
  predicate Counts(row: SwapRow) {
    !IsTerminal(row.status)
  }

  predicate IsNudgeOp(row: SwapRow, op: RowOp) {
    row.status.Rev? && op.ReconcileOp? && IsNudge(op.action)
  }

  /** The claim transaction and its path are written once, by the persist; the address once, by the claimer; the
      reported txid by the persist and by the claimed write. */
  lemma ClaimColumns(row: SwapRow, op: RowOp, maxAttempts: int)
    ensures var row' := ApplyOp(row, op, maxAttempts); var first := op.PersistOp? && row.claimTx.None?;
      && row'.kind == row.kind
      && row'.claimTx == (if first then Some(op.tx) else row.claimTx)
      && row'.claimPath == (if first then op.path else row.claimPath)
      && row'.claimTxid == (if first then Some(op.tx)
                            else if op.ClaimedOp? && Counts(row) then Some(op.txid) else row.claimTxid)
      && row'.address == (if op.AssignAddressOp? && row.status.Rev? && row.address.None? then Some(op.a)
                          else row.address)
  {
  }

  predicate Refuses(row: SwapRow, op: RowOp) {
    op.RefuseOp?
    || (row.status.Rev? && (op == WebhookOp(SwapExpired) || (op.ReconcileOp? && op.action == ScriptPathRetry)))
  }

  /** Failures are counted and described by nobody but the claimer's failure write, and forgotten by its clearing;
      the refusal flag is raised by three writers and lowered by none. */
  lemma FailureColumns(row: SwapRow, op: RowOp, maxAttempts: int)
    ensures var row' := ApplyOp(row, op, maxAttempts); var failed := op.FailureOp? && Counts(row);
      && row'.claimAttempts == (if failed then row.claimAttempts + 1 else row.claimAttempts)
      && row'.lastClaimError == (if op.ClearOp? then None else if failed then Some(op.error) else row.lastClaimError)
      && (row'.cooperativeRefused <==> row.cooperativeRefused || (Counts(row) && Refuses(row, op)))
  {
  }

  predicate Schedules(row: SwapRow, op: RowOp) {
    op.StartClaimingOp? || op.FailureOp? || IsNudgeOp(row, op)
  }

  /** The due time: the lease of a claim, the backoff of a failure, a nudge, a clearing. */
  lemma DueColumn(row: SwapRow, op: RowOp, maxAttempts: int)
    ensures var due := ApplyOp(row, op, maxAttempts).nextClaimAttemptAt;
      && (op.ClearOp? ==> due.None?)
      && (op.StartClaimingOp? && Counts(row) ==> due == Some(op.now + 120.0))
      && (op.FailureOp? && Counts(row) ==> due == Some(op.now + JitteredDelay(row.claimAttempts + 1, op.u)))
      && (IsNudgeOp(row, op) && Counts(row) ==>
            due == Some(if row.status == Rev(Claiming) && !IsAdvance(op.action) && row.nextClaimAttemptAt.Some?
                           && row.nextClaimAttemptAt.value > op.now
                        then (if row.nextClaimAttemptAt.value < op.now + 120.0 then row.nextClaimAttemptAt.value
                              else op.now + 120.0)
                        else op.now))
      && (!op.ClearOp? && !(Counts(row) && Schedules(row, op)) ==> due == row.nextClaimAttemptAt)
  {
  }

  /** The status: what webhooks and reconcilers say, a claim under way, a claim made, a budget used up. */
  lemma StatusColumn(row: SwapRow, op: RowOp, maxAttempts: int)
    ensures var status := ApplyOp(row, op, maxAttempts).status;
      && (!Counts(row) ==> status == row.status)
      && (status.Rev? <==> row.status.Rev?)
      && (op.StartClaimingOp? && Counts(row) ==> status in {Rev(Claiming), Chn(ChainClaiming)})
      && (op.ClaimedOp? && Counts(row) ==> status in {Rev(Claimed), Chn(ChainClaimed)})
      && (op.FailureOp? && Counts(row) ==>
            if row.claimAttempts + 1 >= maxAttempts then status in {Rev(ClaimStuck), Chn(ChainClaimStuck)}
            else status == row.status)
      && (op.ReconcileOp? && row.status.Rev? && Counts(row) ==> status == match op.action
            case AdvanceToLockupMempool => Rev(LockupMempool)
            case AdvanceToLockupConfirmed => Rev(LockupConfirmed)
            case MarkExpired => Rev(Expired)
            case MarkLockupRefunded => Rev(LockupRefunded)
            case _ => row.status)
      && (op.ReconcileOp? && row.status.Chn? ==> status == row.status)
      && (op.RefuseOp? || op.ClearOp? || op.PersistOp? || op.AssignAddressOp? ==> status == row.status)
  {
  }
}

/** Attempt budget, backoff, lease, and why webhook and reconciler are interchangeable. */
module SwapProofs {
  import opened Base
  import opened Chain
  import opened Swaps

  // --- Attempt budget ---

  /** Every write to a row, by whichever worker. */
  datatype RowOp =
    | WebhookOp(b: BoltzStatus)
    | ReconcileOp(action: Action, now: real)
    | StartClaimingOp(now: real)
    | FailureOp(error: string, now: real, u: real)
    | ClaimedOp(txid: Tx)
    | RefuseOp
    | ClearOp
    | PersistOp(tx: Tx, path: Option<ClaimPath>)
    | AssignAddressOp(a: Address)

  function ApplyOp(row: SwapRow, op: RowOp, maxAttempts: int): SwapRow {
    match op
    case WebhookOp(b) => if row.status.Rev? then Webhook(row, b) else ChainWebhook(row, b)
    case ReconcileOp(a, now) => if row.status.Rev? then ApplyAction(row, a, now) else row
    case StartClaimingOp(now) => StartClaiming(row, now)
    case FailureOp(error, now, u) => RecordClaimFailure(row, error, maxAttempts, now, u).0
    case ClaimedOp(txid) => UpdateStatus(row, ClaimedOf(row.status), Some(txid))
    case RefuseOp => MarkCooperativeRefused(row)
    case ClearOp => ClearClaimFailureState(row)
    case PersistOp(tx, path) => Persist(row, tx, path)
    case AssignAddressOp(a) => AssignAddress(row, a)
  }

  function RunOps(row: SwapRow, ops: seq<RowOp>, maxAttempts: int): SwapRow {
    if ops == [] then row else ApplyOp(RunOps(row, ops[..|ops|-1], maxAttempts), ops[|ops|-1], maxAttempts)
  }

  /** Failures recorded by the run: those that found the row not yet terminal. */
  ghost function FailuresRecorded(row: SwapRow, ops: seq<RowOp>, maxAttempts: int): nat {
    if ops == [] then 0
    else
      var init := ops[..|ops|-1];
      FailuresRecorded(row, init, maxAttempts)
        + if ops[|ops|-1].FailureOp? && !IsTerminal(RunOps(row, init, maxAttempts).status) then 1 else 0
  }

  /** Main result, for both tables and any budget: the attempt counter counts the recorded failures,
      a row that is not terminal has attempts left, and the row is stuck exactly when the recorded
      failures have used the budget up. A budget below one acts as one. */
  lemma {:induction false} AttemptBudget(row0: SwapRow, ops: seq<RowOp>, maxAttempts: int)
    requires row0.claimAttempts == 0 && !IsTerminal(row0.status)
    ensures var row := RunOps(row0, ops, maxAttempts); var budget := Max(1, maxAttempts);
      && row.claimAttempts == FailuresRecorded(row0, ops, maxAttempts) <= budget
      && (row.status == StuckOf(row.status) <==> row.claimAttempts == budget)
      && (!IsTerminal(row.status) ==> row.claimAttempts < budget)
  {
    if ops != [] {
      AttemptBudget(row0, ops[..|ops|-1], maxAttempts);
      BudgetStep(RunOps(row0, ops[..|ops|-1], maxAttempts), ops[|ops|-1], maxAttempts);
    }
  }

  /** One write moves the counter exactly when it records a failure, and ends in `stuck` exactly when
      that failure is the last the budget allows. */
  lemma BudgetStep(row: SwapRow, op: RowOp, maxAttempts: int)
    requires 0 <= row.claimAttempts <= Max(1, maxAttempts)
    requires row.status == StuckOf(row.status) <==> row.claimAttempts == Max(1, maxAttempts)
    requires !IsTerminal(row.status) ==> row.claimAttempts < Max(1, maxAttempts)
    ensures var row' := ApplyOp(row, op, maxAttempts); var budget := Max(1, maxAttempts);
      && row'.claimAttempts == row.claimAttempts + (if op.FailureOp? && !IsTerminal(row.status) then 1 else 0)
      && (row'.status == StuckOf(row'.status) <==> row'.claimAttempts == budget)
      && (!IsTerminal(row'.status) ==> row'.claimAttempts < budget)
  {
  }

  // --- Backoff ---

  /** Jittered delays strictly increase until the cap. */
  lemma BackoffIncreases(attempt: int, u: real, v: real)
    requires 1 <= attempt < 7 && 0.0 <= u < 1.0 && 0.0 <= v < 1.0
    ensures JitteredDelay(attempt, u) < JitteredDelay(attempt + 1, v)
  {
    var d, e := BackoffSecs(attempt) as real, BackoffSecs(attempt + 1) as real;
    assert 2.0 * d <= e;
    assert JitteredDelay(attempt, u) < d * 1.2 by {
      assert d * (0.8 + 0.4 * u) < d * 1.2;
    }
    assert JitteredDelay(attempt + 1, v) >= e * 0.8;
  }

  /** Unjittered waiting time scheduled by the first `failures` failures. */
  function TotalBackoff(failures: nat): int {
    if failures == 0 then 0 else TotalBackoff(failures - 1) + BackoffSecs(failures)
  }

  lemma JitterBounds(attempt: int, u: real)
    requires 0.0 <= u < 1.0
    ensures 0.8 * (BackoffSecs(attempt) as real) <= JitteredDelay(attempt, u) <= 1.2 * (BackoffSecs(attempt) as real)
  {
    var d := BackoffSecs(attempt) as real;
    assert d * 0.8 <= d * (0.8 + 0.4 * u) <= d * 1.2;
  }

  /** One failed attempt: when it failed, and the database's jitter. */
  datatype Failed = Failed(at: real, u: real)

  function RunFailures(row: SwapRow, fs: seq<Failed>, maxAttempts: int): SwapRow {
    if fs == [] then row
    else
      var last := fs[|fs|-1];
      RecordClaimFailure(RunFailures(row, fs[..|fs|-1], maxAttempts), "", maxAttempts, last.at, last.u).0
  }

  /** The waits the run scheduled: each due time less the time of its failure. */
  ghost function Waits(row: SwapRow, fs: seq<Failed>, maxAttempts: int): real {
    if fs == [] then 0.0
    else
      Waits(row, fs[..|fs|-1], maxAttempts)
        + RunFailures(row, fs, maxAttempts).nextClaimAttemptAt.GetOr(0.0) - fs[|fs|-1].at
  }

  /** A row that only fails stays retryable until the budget's last attempt, and the waits scheduled
      until then are the backoff table within 20% either way: 2790 s after six failures and one hour
      for each further one. */
  lemma {:induction false} BackoffBeforeStuck(row0: SwapRow, fs: seq<Failed>, maxAttempts: int)
    requires row0.claimAttempts == 0 && !IsTerminal(row0.status)
    requires forall f :: f in fs ==> 0.0 <= f.u < 1.0
    requires |fs| < maxAttempts
    ensures var row := RunFailures(row0, fs, maxAttempts); row.claimAttempts == |fs| && !IsTerminal(row.status)
    ensures 0.8 * (TotalBackoff(|fs|) as real) <= Waits(row0, fs, maxAttempts) <= 1.2 * (TotalBackoff(|fs|) as real)
    ensures |fs| >= 6 ==> TotalBackoff(|fs|) == 2790 + 3600 * (|fs| - 6)
  {
    BackoffClosedForm(|fs|);
    if fs != [] {
      var init, last := fs[..|fs|-1], fs[|fs|-1];
      assert last in fs;
      BackoffBeforeStuck(row0, init, maxAttempts);
      JitterBounds(|fs|, last.u);
      assert RunFailures(row0, fs, maxAttempts).nextClaimAttemptAt == Some(last.at + JitteredDelay(|fs|, last.u));
    }
  }

  lemma {:induction false} BackoffClosedForm(n: nat)
    ensures n >= 6 ==> TotalBackoff(n) == 2790 + 3600 * (n - 6)
  {
    if n > 6 {
      BackoffClosedForm(n - 1);
    } else if n == 6 {
      assert TotalBackoff(3) == 90;
    }
  }

  // --- Lease ---

  ghost predicate LeaseHeld(row: SwapRow, due: real) {
    row.status == Rev(Claiming) && row.nextClaimAttemptAt == Some(due)
  }

  predicate IsAdvance(a: Action) {
    a == AdvanceToLockupMempool || a == AdvanceToLockupConfirmed
  }

  /** A reconciler write that finds the lease held keeps it or ends the row exactly when it is not an
      advance. */
  lemma LeaseStepIff(row: SwapRow, a: Action, t: real, now: real)
    requires LeaseHeld(row, t + LEASE) && t <= now < t + LEASE
    ensures LeaseHeld(ApplyAction(row, a, now), t + LEASE) || IsTerminal(ApplyAction(row, a, now).status)
        <==> !IsAdvance(a)
  {
  }

  lemma AdvanceOnlyFromStaleRead(seen: SwapStatus, b: BoltzStatus)
    ensures IsAdvance(DecideAction(seen, b)) <==>
      (seen == Pending && b in {TransactionMempool, TransactionConfirmed})
          || (seen == LockupMempool && b == TransactionConfirmed)
  {
  }

  /** No sweep before `due` selects the row. */
  ghost predicate UnselectedUntil(row: SwapRow, due: real) {
    forall now :: now < due ==> !ReadyToClaim(row, now)
  }

  /** A reverse row after a claim started: it never goes back to `pending`. */
  predicate Started(row: SwapRow) {
    row.status.Rev? && (IsTerminal(row.status) || IsClaimable(row.status))
  }

  /** The writes that carry a time carry one before the end of the lease taken at `t`. */
  predicate InWindow(op: RowOp, t: real) {
    (op.ReconcileOp? || op.StartClaimingOp? || op.FailureOp?) ==> op.now < t + LEASE
  }

  /** The claimer clears its retry bookkeeping only after the swap is claimed, so it finds the row ended;
      `ClaimProofs.BookkeepFindsEnded` says so of every run of the claim protocol. */
  predicate ClearsEnded(row: SwapRow, op: RowOp) {
    op.ClearOp? ==> IsTerminal(row.status)
  }

  predicate IsNudge(a: Action) {
    IsAdvance(a) || a == ImmediateClaim || a == ScriptPathRetry
  }

  /** The writes that make a row that has not ended due before `t + 120`: a nudge that finds it, or makes
      it, other than `claiming`; a recorded failure with attempts left and a short backoff; and the nudge or
      the lease of a transaction that began before `t`. */
  predicate EndsLease(row: SwapRow, op: RowOp, t: real, maxAttempts: int) {
    !IsTerminal(row.status) &&
    match op
    case ReconcileOp(a, now) => IsNudge(a) && (IsAdvance(a) || row.status != Rev(Claiming) || now < t)
    case FailureOp(_, now, u) =>
      row.claimAttempts + 1 < maxAttempts && now + JitteredDelay(row.claimAttempts + 1, u) < t + LEASE
    case StartClaimingOp(now) => now < t
    case _ => false
  }

  lemma UnselectedMeans(row: SwapRow, due: real)
    requires Started(row)
    ensures UnselectedUntil(row, due) <==>
      IsTerminal(row.status) || (row.nextClaimAttemptAt.Some? && row.nextClaimAttemptAt.value >= due)
  {
    if !IsTerminal(row.status) {
      if row.nextClaimAttemptAt.None? {
        assert ReadyToClaim(row, due - 1.0);
      } else if row.nextClaimAttemptAt.value < due {
        assert ReadyToClaim(row, row.nextClaimAttemptAt.value);
      }
    }
  }

  /** One write, by anybody, on a row no sweep before `t + 120` selects. */
  lemma LeaseOpIff(row: SwapRow, op: RowOp, t: real, maxAttempts: int)
    requires Started(row) && UnselectedUntil(row, t + LEASE) && InWindow(op, t) && ClearsEnded(row, op)
    ensures var row' := ApplyOp(row, op, maxAttempts);
      Started(row') && (UnselectedUntil(row', t + LEASE) <==> !EndsLease(row, op, t, maxAttempts))
  {
    var row' := ApplyOp(row, op, maxAttempts);
    UnselectedMeans(row, t + LEASE);
    UnselectedMeans(row', t + LEASE);
  }

  /** The rows a run passes through, `n` writes in. */
  ghost function RowAfter(row: SwapRow, ops: seq<RowOp>, n: nat, maxAttempts: int): SwapRow
    requires n <= |ops|
  {
    RunOps(row, ops[..n], maxAttempts)
  }

  lemma RowAfterStep(row: SwapRow, ops: seq<RowOp>, n: nat, maxAttempts: int)
    requires n < |ops|
    ensures RowAfter(row, ops, n + 1, maxAttempts) == ApplyOp(RowAfter(row, ops, n, maxAttempts), ops[n], maxAttempts)
  {
    assert ops[..n + 1][..n] == ops[..n];
  }

  lemma {:induction false} RunStarted(row: SwapRow, ops: seq<RowOp>, n: nat, maxAttempts: int)
    requires n <= |ops| && Started(row)
    ensures Started(RowAfter(row, ops, n, maxAttempts))
  {
    if n > 0 {
      RunStarted(row, ops, n - 1, maxAttempts);
      RowAfterStep(row, ops, n - 1, maxAttempts);
    }
  }

  /** As long as no write ends the lease it holds. */
  lemma {:induction false} LeaseLasts(row: SwapRow, ops: seq<RowOp>, n: nat, t: real, maxAttempts: int)
    requires n <= |ops| && Started(row) && UnselectedUntil(row, t + LEASE)
    requires forall k :: 0 <= k < n ==>
      InWindow(ops[k], t) && ClearsEnded(RowAfter(row, ops, k, maxAttempts), ops[k])
    requires forall k :: 0 <= k < n ==> !EndsLease(RowAfter(row, ops, k, maxAttempts), ops[k], t, maxAttempts)
    ensures UnselectedUntil(RowAfter(row, ops, n, maxAttempts), t + LEASE)
  {
    if n > 0 {
      LeaseLasts(row, ops, n - 1, t, maxAttempts);
      RunStarted(row, ops, n - 1, maxAttempts);
      RowAfterStep(row, ops, n - 1, maxAttempts);
      LeaseOpIff(RowAfter(row, ops, n - 1, maxAttempts), ops[n - 1], t, maxAttempts);
    }
  }

  /** Without another write the sweep selects the row from `t + 120` on. The time a claim writes is the
      start of its database transaction, before the construction of the claim; if that took until `commit`,
      what is left of the lease is the rest, and nothing once it took the whole of it. */
  lemma LeaseFromBegin(row0: SwapRow, begin: real, commit: real)
    requires row0.status.Rev? && !IsTerminal(row0.status) && begin <= commit
    ensures var row := StartClaiming(row0, begin);
      && (forall now :: ReadyToClaim(row, now) <==> now >= begin + LEASE)
      && UnselectedUntil(row, begin + LEASE)
      && (UnselectedUntil(row, commit + LEASE) <==> begin == commit)
      && (ReadyToClaim(row, commit) <==> commit - begin >= LEASE)
  {
    var row := StartClaiming(row0, begin);
    UnselectedMeans(row, commit + LEASE);
  }

  /** Main result: after the commit of a claim whose database transaction began at `t`, over any run of
      webhooks, reconciler and claimer writes inside the window, the row is at no point selectable before
      `t + 120` exactly when no write ends the lease: no nudge found the row neither `claiming` nor ended,
      and so on. */
  lemma LeasePreserved(row0: SwapRow, t: real, ops: seq<RowOp>, maxAttempts: int)
    requires row0.status.Rev? && !IsTerminal(row0.status)
    requires forall k :: 0 <= k < |ops| ==>
      InWindow(ops[k], t) && ClearsEnded(RowAfter(StartClaiming(row0, t), ops, k, maxAttempts), ops[k])
    ensures var row := StartClaiming(row0, t);
      (forall n :: 0 <= n <= |ops| ==> UnselectedUntil(RowAfter(row, ops, n, maxAttempts), t + LEASE))
      <==> (forall n :: 0 <= n < |ops| ==> !EndsLease(RowAfter(row, ops, n, maxAttempts), ops[n], t, maxAttempts))
  {
    var row := StartClaiming(row0, t);
    if forall n :: 0 <= n <= |ops| ==> UnselectedUntil(RowAfter(row, ops, n, maxAttempts), t + LEASE) {
      forall n | 0 <= n < |ops| ensures !EndsLease(RowAfter(row, ops, n, maxAttempts), ops[n], t, maxAttempts) {
        RunStarted(row, ops, n, maxAttempts);
        RowAfterStep(row, ops, n, maxAttempts);
        LeaseOpIff(RowAfter(row, ops, n, maxAttempts), ops[n], t, maxAttempts);
      }
    }
    if forall n :: 0 <= n < |ops| ==> !EndsLease(RowAfter(row, ops, n, maxAttempts), ops[n], t, maxAttempts) {
      forall n | 0 <= n <= |ops| ensures UnselectedUntil(RowAfter(row, ops, n, maxAttempts), t + LEASE) {
        LeaseLasts(row, ops, n, t, maxAttempts);
      }
    }
  }

  /** So a reconciler alone keeps the lease as long as it decides no advance. */
  lemma {:induction false} ReconcilerKeepsLease(row0: SwapRow, t: real, ops: seq<RowOp>, maxAttempts: int)
    requires row0.status.Rev? && !IsTerminal(row0.status)
    requires forall op :: op in ops ==> op.ReconcileOp? && t <= op.now < t + LEASE && !IsAdvance(op.action)
    ensures var row := RunOps(StartClaiming(row0, t), ops, maxAttempts);
      row.status.Rev? && (LeaseHeld(row, t + LEASE) || IsTerminal(row.status))
  {
    if ops != [] {
      var init, last := ops[..|ops|-1], ops[|ops|-1];
      assert last in ops;
      ReconcilerKeepsLease(row0, t, init, maxAttempts);
      var row := RunOps(StartClaiming(row0, t), init, maxAttempts);
      if LeaseHeld(row, t + LEASE) {
        LeaseStepIff(row, last.action, t, last.now);
      }
    }
  }

  /** Two runs that lose it. A lockup webhook takes the row out of `claiming`, and a reconciler that reads
      it as it is now nudges it; or the reconciler read the row before the claim and advances it. */
  lemma LeaseLost(row0: SwapRow, t: real, now: real, b: BoltzStatus, maxAttempts: int)
    requires row0.status.Rev? && !IsTerminal(row0.status) && t <= now < t + LEASE
    requires b in {TransactionMempool, TransactionConfirmed}
    ensures var seen := if b == TransactionMempool then LockupMempool else LockupConfirmed;
      var ops := [WebhookOp(b), ReconcileOp(DecideAction(seen, b), now)]; var claimed := StartClaiming(row0, t);
      && RowAfter(claimed, ops, 1, maxAttempts).status == Rev(seen) && !IsAdvance(DecideAction(seen, b))
      && ReadyToClaim(RunOps(claimed, ops, maxAttempts), now)
    ensures ReadyToClaim(RunOps(StartClaiming(row0, t), [ReconcileOp(DecideAction(Pending, b), now)], maxAttempts), now)
  {
    var seen := if b == TransactionMempool then LockupMempool else LockupConfirmed;
    var claimed := StartClaiming(row0, t);
    var first, second := WebhookOp(b), ReconcileOp(DecideAction(seen, b), now);
    OneOp(claimed, first, maxAttempts);
    assert [first, second][..1] == [first];
    OneOp(claimed, ReconcileOp(DecideAction(Pending, b), now), maxAttempts);
  }

  lemma OneOp(row: SwapRow, op: RowOp, maxAttempts: int)
    ensures RunOps(row, [op], maxAttempts) == ApplyOp(row, op, maxAttempts)
  {
    assert [op][..0] == [];
  }

  /** A nudge of a `claiming` row with a future due time never makes it later, nor due now. */
  lemma NudgeNeverLater(row: SwapRow, now: real)
    requires row.status == Rev(Claiming) && row.nextClaimAttemptAt.Some? && now < row.nextClaimAttemptAt.value
    ensures now < Nudged(row, now) <= row.nextClaimAttemptAt.value
    ensures Nudged(row, now) <= now + LEASE
  {
  }

  /** After a nudge the sweep selects a claimable row at once, unless a claim's lease is running. */
  lemma NudgedReadyIff(row: SwapRow, now: real)
    requires IsClaimable(row.status)
    ensures ReadyToClaim(ScheduleImmediateClaim(row, now), now) <==>
      !(row.status == Rev(Claiming) && row.nextClaimAttemptAt.Some? && row.nextClaimAttemptAt.value > now)
    ensures ReadyToClaim(ScheduleScriptPathRetry(row, now), now)
        <==> ReadyToClaim(ScheduleImmediateClaim(row, now), now)
  {
  }

  // --- What a row keeps once it has ended ---

  /** The writes that change a row that has ended: none of them looks at the status. */
  predicate ChangesEnded(row: SwapRow, op: RowOp) {
    match op
    case PersistOp(_, _) => row.claimTx.None?
    case AssignAddressOp(_) => row.status.Rev? && row.address.None?
    case ClearOp => row.lastClaimError.Some? || row.nextClaimAttemptAt.Some?
    case _ => false
  }

  /** `b` is `a` but for a claim transaction or an address where there was none, and retry bookkeeping
      cleared. */
  ghost predicate Gains(a: SwapRow, b: SwapRow) {
    && b.kind == a.kind && b.status == a.status
    && b.claimAttempts == a.claimAttempts && b.cooperativeRefused == a.cooperativeRefused
    && (a.address.Some? ==> b.address == a.address)
    && (a.claimTx.Some? || b.claimTx.None? ==>
          b.claimTx == a.claimTx && b.claimTxid == a.claimTxid && b.claimPath == a.claimPath)
    && (b.lastClaimError.None? || b.lastClaimError == a.lastClaimError)
    && (b.nextClaimAttemptAt.None? || b.nextClaimAttemptAt == a.nextClaimAttemptAt)
  }

  /** One write on a row that has ended, in both tables. */
  lemma EndedWriteIff(row: SwapRow, op: RowOp, maxAttempts: int)
    requires IsTerminal(row.status)
    ensures var row' := ApplyOp(row, op, maxAttempts); Gains(row, row') && (row' != row <==> ChangesEnded(row, op))
  {
  }

  /** Main result: whatever is written to a row that has ended, its status, attempts and refusal flag stay,
      and so do its claim transaction and address if it has them; and it stays as it is altogether exactly
      when no write persists a claim or fixes an address where there was none, or clears bookkeeping. */
  lemma {:induction false} TerminalRowsFrozen(row: SwapRow, ops: seq<RowOp>, maxAttempts: int)
    requires IsTerminal(row.status)
    ensures Gains(row, RunOps(row, ops, maxAttempts))
    ensures RunOps(row, ops, maxAttempts) == row <==> forall op :: op in ops ==> !ChangesEnded(row, op)
  {
    if ops != [] {
      var init, last := ops[..|ops|-1], ops[|ops|-1];
      var before := RunOps(row, init, maxAttempts);
      TerminalRowsFrozen(row, init, maxAttempts);
      EndedWriteIff(before, last, maxAttempts);
      assert ops == init + [last];
      assert forall op :: op in ops <==> op in init || op == last;
    }
  }

  // --- Webhook and reconciler are interchangeable ---

  /** What the two paths must agree on: how far the swap got. */
  datatype Class = PendingClass | ClaimableClass | TerminalClass(s: SwapStatus)

  datatype Abstract = Abstract(class_: Class, refused: bool, attempts: int)

  ghost function ClassOf(s: SwapStatus): Class {
    if s == Pending then PendingClass else if IsTerminal(Rev(s)) then TerminalClass(s) else ClaimableClass
  }

  ghost function AbstractOf(row: SwapRow): Abstract
    requires row.status.Rev?
  {
    Abstract(ClassOf(row.status.s), row.cooperativeRefused, row.claimAttempts)
  }

  datatype ClaimWrite =
    | FixTo(a: Address)
    | Prepare(tx: Tx, path: Option<ClaimPath>)
    | Start(now: real)
    | Fail(error: string, now: real, u: real)
    | Done(txid: Tx)
    | Refuse
    | Clear

  /** One event of a swap's life. A Boltz status arrives by webhook, deduplicated by status, or by a
      reconciler visit that acts on the row as it was `lag` writes ago. */
  datatype Event =
    | ByWebhook(b: BoltzStatus)
    | ByReconciler(b: BoltzStatus, lag: nat, now: real)
    | ByClaimer(w: ClaimWrite)

  /** The same event with the delivery path forgotten. */
  datatype News = BoltzSays(b: BoltzStatus) | ClaimerWrites(w: ClaimWrite)

  function NewsOf(e: Event): News {
    match e
    case ByWebhook(b) => BoltzSays(b)
    case ByReconciler(b, _, _) => BoltzSays(b)
    case ByClaimer(w) => ClaimerWrites(w)
  }

  function ClaimWriteRow(row: SwapRow, w: ClaimWrite, maxAttempts: int): SwapRow {
    match w
    case FixTo(a) => AssignAddress(row, a)
    case Prepare(tx, path) => Persist(row, tx, path)
    case Start(now) => StartClaiming(row, now)
    case Fail(error, now, u) => RecordClaimFailure(row, error, maxAttempts, now, u).0
    case Done(txid) => UpdateStatus(row, Rev(Claimed), Some(txid))
    case Refuse => MarkCooperativeRefused(row)
    case Clear => ClearClaimFailureState(row)
  }

  /** Versions of the row, oldest first, and the webhook statuses already processed. */
  datatype Life = Life(versions: seq<SwapRow>, processed: set<BoltzStatus>)

  function Step(l: Life, e: Event, maxAttempts: int): Life
    requires l.versions != [] && forall v :: v in l.versions ==> v.status.Rev?
  {
    var row := l.versions[|l.versions|-1];
    match e
    case ByWebhook(b) =>
      if b in l.processed then l
      else Life(l.versions + [Webhook(row, b)], l.processed + {b})
    case ByReconciler(b, lag, now) =>
      var seen := l.versions[Max(0, |l.versions| - 1 - lag)].status.s;
      // The scan skips rows that were terminal when read.
      if IsTerminal(Rev(seen)) then l
      else l.(versions := l.versions + [ApplyAction(row, DecideAction(seen, b), now)])
    case ByClaimer(w) => l.(versions := l.versions + [ClaimWriteRow(row, w, maxAttempts)])
  }

  /** The effect of news on the abstract state, without a delivery path. */
  ghost function AbstractStep(a: Abstract, n: News, maxAttempts: int): Abstract {
    if a.class_.TerminalClass? then a
    else match n
      case BoltzSays(TransactionMempool) => a.(class_ := ClaimableClass)
      case BoltzSays(TransactionConfirmed) => a.(class_ := ClaimableClass)
      case BoltzSays(SwapExpired) => a.(refused := true)
      case BoltzSays(InvoiceExpired) => a.(class_ := TerminalClass(Expired))
      case BoltzSays(TransactionFailed) => a.(class_ := TerminalClass(Expired))
      case BoltzSays(TransactionRefunded) => a.(class_ := TerminalClass(LockupRefunded))
      case BoltzSays(_) => a
      case ClaimerWrites(Start(_)) => a.(class_ := ClaimableClass)
      case ClaimerWrites(Fail(_, _, _)) =>
        var attempts := a.attempts + 1;
        Abstract(if attempts >= maxAttempts then TerminalClass(ClaimStuck) else a.class_, a.refused, attempts)
      case ClaimerWrites(Done(_)) => a.(class_ := TerminalClass(Claimed))
      case ClaimerWrites(Refuse) => a.(refused := true)
      case ClaimerWrites(_) => a
  }

  ghost function AbstractRun(a: Abstract, news: seq<News>, maxAttempts: int): Abstract {
    if news == [] then a else AbstractStep(AbstractRun(a, news[..|news|-1], maxAttempts), news[|news|-1], maxAttempts)
  }

  /** How far a class is along; it never decreases. */
  ghost function Rank(c: Class): nat {
    match c
    case PendingClass => 0
    case ClaimableClass => 1
    case TerminalClass(_) => 2
  }

  ghost predicate LifeOk(l: Life) {
    && l.versions != []
    && (forall v :: v in l.versions ==> v.status.Rev?)
    && var now := AbstractOf(l.versions[|l.versions|-1]);
       && (forall v :: v in l.versions ==>
             Rank(ClassOf(v.status.s)) <= Rank(now.class_) && (v.cooperativeRefused ==> now.refused))
       && (forall b, m :: b in l.processed ==> AbstractStep(now, BoltzSays(b), m) == now)
  }

  lemma StepRefines(l: Life, e: Event, maxAttempts: int)
    requires LifeOk(l)
    ensures var l' := Step(l, e, maxAttempts);
      && l'.versions != [] && l'.versions[|l'.versions|-1].status.Rev?
      && AbstractOf(l'.versions[|l'.versions|-1])
           == AbstractStep(AbstractOf(l.versions[|l.versions|-1]), NewsOf(e), maxAttempts)
  {
    var row := l.versions[|l.versions|-1];
    match e
    case ByWebhook(b) => WebhookRefines(row, b, maxAttempts);
    case ByReconciler(b, lag, now) =>
      var seen := l.versions[Max(0, |l.versions| - 1 - lag)];
      assert seen in l.versions;
      if IsTerminal(seen.status) {
        assert Rank(ClassOf(seen.status.s)) == 2;
      } else {
        ReconcileRefines(row, seen.status.s, b, now, maxAttempts);
      }
    case ByClaimer(w) => ClaimWriteRefines(row, w, maxAttempts);
  }

  lemma WebhookRefines(row: SwapRow, b: BoltzStatus, maxAttempts: int)
    requires row.status.Rev?
    ensures Webhook(row, b).status.Rev?
    ensures AbstractOf(Webhook(row, b)) == AbstractStep(AbstractOf(row), BoltzSays(b), maxAttempts)
  {
  }

  /** A read the row has overtaken decides an action of the same effect. */
  lemma ReconcileRefines(row: SwapRow, seen: SwapStatus, b: BoltzStatus, now: real, maxAttempts: int)
    requires row.status.Rev? && !IsTerminal(Rev(seen)) && Rank(ClassOf(seen)) <= Rank(ClassOf(row.status.s))
    ensures var row' := ApplyAction(row, DecideAction(seen, b), now);
      row'.status.Rev? && AbstractOf(row') == AbstractStep(AbstractOf(row), BoltzSays(b), maxAttempts)
  {
  }

  lemma ClaimWriteRefines(row: SwapRow, w: ClaimWrite, maxAttempts: int)
    requires row.status.Rev?
    ensures ClaimWriteRow(row, w, maxAttempts).status.Rev?
    ensures AbstractOf(ClaimWriteRow(row, w, maxAttempts))
        == AbstractStep(AbstractOf(row), ClaimerWrites(w), maxAttempts)
  {
  }

  lemma AbstractMonotone(a: Abstract, n: News, maxAttempts: int)
    ensures var a' := AbstractStep(a, n, maxAttempts);
      && Rank(a.class_) <= Rank(a'.class_) && (a.refused ==> a'.refused)
      && (a.class_.TerminalClass? ==> a' == a)
  {
  }

  /** News once absorbed stays absorbed, so processing a duplicate changes nothing. */
  lemma NewsAbsorbed(a: Abstract, n: News, maxAttempts: int)
    ensures forall b: BoltzStatus, m ::
      AbstractStep(a, BoltzSays(b), m) == a || n == BoltzSays(b) ==>
        AbstractStep(AbstractStep(a, n, maxAttempts), BoltzSays(b), m) == AbstractStep(a, n, maxAttempts)
  {
  }

  lemma StepKeepsOk(l: Life, e: Event, maxAttempts: int)
    requires LifeOk(l)
    ensures LifeOk(Step(l, e, maxAttempts))
  {
    StepRefines(l, e, maxAttempts);
    AbstractMonotone(AbstractOf(l.versions[|l.versions|-1]), NewsOf(e), maxAttempts);
    NewsAbsorbed(AbstractOf(l.versions[|l.versions|-1]), NewsOf(e), maxAttempts);
  }

  ghost function RunLife(l: Life, events: seq<Event>, maxAttempts: int): (l': Life)
    requires LifeOk(l)
    ensures LifeOk(l')
  {
    if events == [] then l
    else
      var before := RunLife(l, events[..|events|-1], maxAttempts);
      StepKeepsOk(before, events[|events|-1], maxAttempts);
      Step(before, events[|events|-1], maxAttempts)
  }

  ghost function AllNews(events: seq<Event>): seq<News> {
    seq(|events|, i requires 0 <= i < |events| => NewsOf(events[i]))
  }

  /** Where the row stands after the events. */
  ghost function Outcome(l: Life, events: seq<Event>, maxAttempts: int): Abstract
    requires LifeOk(l)
  {
    var l' := RunLife(l, events, maxAttempts);
    AbstractOf(l'.versions[|l'.versions|-1])
  }

  lemma OutcomeSnoc(l: Life, events: seq<Event>, maxAttempts: int)
    requires LifeOk(l) && events != []
    ensures Outcome(l, events, maxAttempts)
      == AbstractStep(Outcome(l, events[..|events|-1], maxAttempts), NewsOf(events[|events|-1]), maxAttempts)
  {
    StepRefines(RunLife(l, events[..|events|-1], maxAttempts), events[|events|-1], maxAttempts);
  }

  /** Every row starts a life of its own. */
  lemma NewLifeOk(row0: SwapRow)
    requires row0.status.Rev?
    ensures LifeOk(Life([row0], {}))
  {
  }

  /** Main result: class, refusal flag and attempts depend only on the news, not on who delivered it,
      how stale the reconciler's reads were, or which webhooks were duplicates. */
  lemma {:induction false} DeliveryIrrelevant(l: Life, events: seq<Event>, maxAttempts: int)
    requires LifeOk(l)
    ensures Outcome(l, events, maxAttempts) == AbstractRun(Outcome(l, [], maxAttempts), AllNews(events), maxAttempts)
  {
    if events != [] {
      var init := events[..|events|-1];
      DeliveryIrrelevant(l, init, maxAttempts);
      OutcomeSnoc(l, events, maxAttempts);
      assert AllNews(events)[..|events|-1] == AllNews(init);
    } else {
      assert AllNews(events) == [];
    }
  }

  /** The news with every Boltz status kept only where it first comes. */
  function Once(news: seq<News>): seq<News> {
    if news == [] then []
    else
      var init, last := news[..|news|-1], news[|news|-1];
      if last.BoltzSays? && last in init then Once(init) else Once(init) + [last]
  }

  lemma {:induction false} StaysAbsorbed(a0: Abstract, news: seq<News>, b: BoltzStatus, maxAttempts: int)
    requires BoltzSays(b) in news
    ensures var a := AbstractRun(a0, news, maxAttempts); AbstractStep(a, BoltzSays(b), maxAttempts) == a
  {
    var init, last := news[..|news|-1], news[|news|-1];
    if BoltzSays(b) in init {
      StaysAbsorbed(a0, init, b, maxAttempts);
    } else {
      assert last == BoltzSays(b);
    }
    NewsAbsorbed(AbstractRun(a0, init, maxAttempts), last, maxAttempts);
  }

  lemma {:induction false} OnceIsEnough(a0: Abstract, news: seq<News>, maxAttempts: int)
    ensures AbstractRun(a0, Once(news), maxAttempts) == AbstractRun(a0, news, maxAttempts)
  {
    if news != [] {
      var init, last := news[..|news|-1], news[|news|-1];
      OnceIsEnough(a0, init, maxAttempts);
      if last.BoltzSays? && last in init {
        StaysAbsorbed(a0, init, last.b, maxAttempts);
      } else {
        assert (Once(init) + [last])[..|Once(init)|] == Once(init);
      }
    }
  }

  /** Main result: and a Boltz status acts once, however often it comes, by whichever paths and whatever
      happened in between. */
  lemma RepeatsIrrelevant(l: Life, events: seq<Event>, maxAttempts: int)
    requires LifeOk(l)
    ensures Outcome(l, events, maxAttempts)
      == AbstractRun(Outcome(l, [], maxAttempts), Once(AllNews(events)), maxAttempts)
  {
    DeliveryIrrelevant(l, events, maxAttempts);
    OnceIsEnough(Outcome(l, [], maxAttempts), AllNews(events), maxAttempts);
  }

  /** So from a new row on, two deliveries of the same news end alike, whichever path each Boltz status
      took, or both, and however stale the reads behind it. */
  lemma SameNewsSameOutcome(row0: SwapRow, events: seq<Event>, others: seq<Event>, maxAttempts: int)
    requires row0.status.Rev? && Once(AllNews(events)) == Once(AllNews(others))
    ensures LifeOk(Life([row0], {}))
    ensures Outcome(Life([row0], {}), events, maxAttempts) == Outcome(Life([row0], {}), others, maxAttempts)
  {
    NewLifeOk(row0);
    RepeatsIrrelevant(Life([row0], {}), events, maxAttempts);
    RepeatsIrrelevant(Life([row0], {}), others, maxAttempts);
  }

  lemma {:induction false} AbstractNeverMovesBack(a0: Abstract, news: seq<News>, more: seq<News>, maxAttempts: int)
    ensures var a, b := AbstractRun(a0, news, maxAttempts), AbstractRun(a0, news + more, maxAttempts);
      && Rank(a.class_) <= Rank(b.class_) && (a.refused ==> b.refused) && (a.class_.TerminalClass? ==> b == a)
  {
    if more == [] {
      assert news + more == news;
    } else {
      var init := more[..|more|-1];
      AbstractNeverMovesBack(a0, news, init, maxAttempts);
      assert (news + more)[..|news + more| - 1] == news + init;
      AbstractMonotone(AbstractRun(a0, news + init, maxAttempts), more[|more|-1], maxAttempts);
    }
  }

  lemma NewsConcat(events: seq<Event>, more: seq<Event>)
    ensures AllNews(events + more) == AllNews(events) + AllNews(more)
  {
  }

  /** The class never moves back, the refusal flag never clears and an ended swap stays as it is. */
  lemma NeverMovesBack(l: Life, events: seq<Event>, more: seq<Event>, maxAttempts: int)
    requires LifeOk(l)
    ensures var a, b := Outcome(l, events, maxAttempts), Outcome(l, events + more, maxAttempts);
      && Rank(a.class_) <= Rank(b.class_) && (a.refused ==> b.refused) && (a.class_.TerminalClass? ==> b == a)
  {
    DeliveryIrrelevant(l, events, maxAttempts);
    DeliveryIrrelevant(l, events + more, maxAttempts);
    NewsConcat(events, more);
    AbstractNeverMovesBack(Outcome(l, [], maxAttempts), AllNews(events), AllNews(more), maxAttempts);
  }
}

/** What the steps of a claim leave behind beside the way that succeeds: where an attempt can fail, what the
    network decides, and what everyone else writes. */
module ClaimColumns {
  import opened Base
  import opened Chain
  import opened Swaps
  import opened ClaimProtocol
  import L = InvoiceLedger

  ghost predicate InPhase(st: State, w: WorkerId, p: Phase) {
    w in st.workers && st.workers[w] == p
  }

  ghost predicate RestKept(st: State, st': State) {
    st'.rows == st.rows && st'.invoices == st.invoices && st'.network == st.network && st'.broadcasts == st.broadcasts
  }

  // --- Address and transaction ---

  /** An address derived for a reverse swap of a nym uses up one index of the nym's cursor. */
  lemma ResolveBumps(st: State, cfg: Config, w: WorkerId, s: SwapId, snap: SwapRow, nym: string)
    requires InPhase(st, w, HasRow(s, snap)) && s in st.rows && st.rows[s].address.None?
    requires snap.kind.ReverseSwap? && snap.kind.invoice.None? && snap.kind.nym == Some(nym)
    requires nym in st.users && st.users[nym].descriptor != "" && st.users[nym].nextAddrIdx >= 0
    ensures var st' := Apply(st, ResolveAddress(w), cfg); var user := st.users[nym];
      var a := Derived(user.descriptor, user.nextAddrIdx);
      && st'.users == st.users[nym := user.(nextAddrIdx := user.nextAddrIdx + 1)]
      && st'.rows == st.rows[s := st.rows[s].(address := Some(a))] && InPhase(st', w, HasAddress(s, snap, a))
      && st'.locks == st.locks
  {
  }

  /** It spends lockup outputs of this swap only, and pays this address only. */
  ghost predicate ClaimsTo(tx: Tx, s: SwapId, a: Address) {
    && tx.inputs != [] && (forall o :: o in tx.inputs ==> exists n :: o == Lockup(s, n))
    && (exists x :: x in tx.outputs && x == PayTo(a)) && (forall x :: x in tx.outputs ==> x in {PayTo(a), FeeScript})
  }

  lemma ClaimsToIff(tx: Tx, s: SwapId, a: Address)
    ensures ClaimsTo(tx, s, a) <==> ClaimFor(tx, s, a)
  {
    if ClaimFor(tx, s, a) {
      forall o | o in tx.inputs ensures exists n :: o == Lockup(s, n) {
        assert o == Lockup(s, o.n);
      }
    }
  }

  /** Without a persisted transaction such a one is constructed, by the script path once the cooperative one was
      refused; chain swaps record no path. */
  lemma ConstructIff(st: State, cfg: Config, w: WorkerId, s: SwapId, snap: SwapRow, a: Address, tx: Tx)
    requires InPhase(st, w, HasAddress(s, snap, a))
    ensures var st' := Apply(st, Construct(w, tx), cfg);
      if snap.claimTx.None? && ClaimsTo(tx, s, a) then
        RestKept(st, st') && st'.locks == st.locks && InPhase(st', w, HasTx(s, snap, tx,
          if snap.kind.ChainSwap? then None else if snap.cooperativeRefused then Some(Script) else Some(Cooperative)))
      else st' == st
  {
    ClaimsToIff(tx, s, a);
  }

  /** A refused cooperative signature is noted on a reverse swap and ends the attempt as a failure. */
  lemma RefusedIff(st: State, cfg: Config, w: WorkerId, s: SwapId, snap: SwapRow, a: Address)
    requires InPhase(st, w, HasAddress(s, snap, a)) && s in st.rows
    ensures var st' := Apply(st, CooperativeRefused(w), cfg);
      if snap.claimTx.None? && snap.kind.ReverseSwap? && !snap.cooperativeRefused then
        && InPhase(st', w, Failing(s)) && st'.locks == st.locks - {s} && st'.invoices == st.invoices
        && st'.rows == st.rows[s := if IsTerminal(st.rows[s].status) then st.rows[s]
                                    else st.rows[s].(cooperativeRefused := true)]
      else st' == st
  {
  }

  // --- On the network ---

  /** Another transaction on the network spends an output this one spends. */
  ghost predicate Rivalled(network: set<Tx>, tx: Tx) {
    exists t, o :: t in network && t != tx && o in t.inputs && o in tx.inputs
  }

  lemma RivalledIff(network: set<Tx>, tx: Tx)
    ensures Rivalled(network, tx) <==> Conflicts(network, tx)
  {
  }

  /** A broadcast gets on the network exactly what is there already or accepted without a rival; the worker is told
      of success only for what is there, and the attempt is on record either way. */
  lemma BroadcastIff(st: State, cfg: Config, w: WorkerId, s: SwapId, tx: Tx, accepted: bool, reported: bool)
    requires InPhase(st, w, Committed(s, tx))
    ensures var st' := Apply(st, Broadcast(w, accepted, reported), cfg);
      && (forall t :: t in st'.network <==>
            t in st.network || (t == tx && accepted && !Rivalled(st.network, tx)))
      && st'.broadcasts == st.broadcasts + {(s, tx)} && st'.rows == st.rows && st'.invoices == st.invoices
      && st'.locks == st.locks
      && InPhase(st', w, if reported && tx in st'.network then OnNetwork(s, tx, tx) else BroadcastFailed(s, tx))
  {
    RivalledIff(st.network, tx);
  }

  /** After a failed broadcast the claim goes on if the transaction is there after all. */
  lemma ProbePresentIff(st: State, cfg: Config, w: WorkerId, s: SwapId, tx: Tx)
    requires InPhase(st, w, BroadcastFailed(s, tx))
    ensures var st' := Apply(st, ProbeNetwork(w, Present), cfg);
      if tx in st.network then RestKept(st, st') && st'.locks == st.locks && InPhase(st', w, OnNetwork(s, tx, tx))
      else st' == st
  {
  }

  /** Or under a spender of its lockup output, if that pays an output the claim pays; any other spender is a
      failure. */
  lemma ProbeSpenderIff(st: State, cfg: Config, w: WorkerId, s: SwapId, tx: Tx, t: Tx)
    requires InPhase(st, w, BroadcastFailed(s, tx))
    ensures var st' := Apply(st, ProbeNetwork(w, Spender(t)), cfg);
      if t in st.network && tx.inputs != [] && tx.inputs[0] in t.inputs then
        && RestKept(st, st') && st'.locks == st.locks
        && InPhase(st', w, if PayAlike(t, tx) then OnNetwork(s, tx, t) else Failing(s))
      else st' == st
  {
    DestinationIff(t, tx);
  }

  /** And finding nothing is one. */
  lemma ProbeNothing(st: State, cfg: Config, w: WorkerId, s: SwapId, tx: Tx)
    requires InPhase(st, w, BroadcastFailed(s, tx))
    ensures var st' := Apply(st, ProbeNetwork(w, Nothing), cfg);
      RestKept(st, st') && st'.locks == st.locks && InPhase(st', w, Failing(s))
  {
  }

  /** They have an output in common that is no fee. */
  ghost predicate PayAlike(a: Tx, b: Tx) {
    exists x :: x in b.outputs && x != FeeScript && x in a.outputs
  }

  lemma DestinationIff(spending: Tx, claim: Tx)
    ensures MatchesClaimDestination(spending, claim) <==> PayAlike(spending, claim)
  {
    if MatchesClaimDestination(spending, claim) {
      var i, j :| 0 <= i < |claim.outputs| && 0 <= j < |spending.outputs|
        && claim.outputs[i] != FeeScript && spending.outputs[j] == claim.outputs[i];
      assert claim.outputs[i] in claim.outputs && claim.outputs[i] in spending.outputs;
    }
    if x :| x in claim.outputs && x != FeeScript && x in spending.outputs {
      var i :| 0 <= i < |claim.outputs| && claim.outputs[i] == x;
      var j :| 0 <= j < |spending.outputs| && spending.outputs[j] == x;
      assert claim.outputs[i] != FeeScript && spending.outputs[j] == claim.outputs[i];
    }
  }

  // --- Accounting and failures ---

  /** Which invoice a swap is for, read off its own columns. */
  ghost predicate IsFor(kind: SwapKind, i: InvoiceId) {
    match kind
    case ReverseSwap(invoice, _, _) => invoice == Some(i)
    case ChainSwap(invoice, _, _) => invoice == i
  }

  predicate IsOpen(inv: L.Invoice) {
    inv.status == L.Unpaid || inv.status == L.InProgress || inv.status == L.PartiallyPaid
  }

  /** A settlement mark is refused on an invoice that is closed. */
  lemma SettlementMarkIff(inv: L.Invoice, to: L.Settlement)
    ensures L.MarkSettlement(inv, to) == if IsOpen(inv) then inv.(settlement := to) else inv
  {
    match inv.status
    case Unpaid =>
    case InProgress =>
    case PartiallyPaid =>
    case _ =>
  }

  /** The two writes after a swap is marked claimed, each of which may fail: the invoice of the swap is settled if it
      is open, and the retry bookkeeping is cleared. */
  lemma BookkeepIff(st: State, w: WorkerId, s: SwapId, tx: Tx, txid: Tx, settled: bool, cleared: bool, i: InvoiceId)
    requires InPhase(st, w, Marked(s, tx, txid)) && s in st.rows && i in st.invoices
    ensures var st', inv := DoBookkeep(st, w, settled, cleared), st.invoices[i];
      && InPhase(st', w, Booked(s, tx, txid)) && i in st'.invoices && st'.locks == st.locks
      && st'.invoices[i] == (if settled && IsFor(st.rows[s].kind, i) && IsOpen(inv)
                             then inv.(settlement := L.Settled) else inv)
      && st'.rows == st.rows[s := if cleared then st.rows[s].(lastClaimError := None, nextClaimAttemptAt := None)
                                  else st.rows[s]]
  {
    SettlementMarkIff(st.invoices[i], L.Settled);
  }

  /** An error anywhere before the swap is marked gives back the lock, if held, and nothing else. */
  lemma FailIff(st: State, cfg: Config, w: WorkerId)
    requires w in st.workers
    ensures var st', p := Apply(st, Fail(w), cfg), st.workers[w];
      if p.Locked? || p.HasRow? || p.HasAddress? || p.HasTx? || p.Committed? || p.BroadcastFailed? || p.OnNetwork? then
        && RestKept(st, st') && InPhase(st', w, Failing(p.s))
        && st'.locks == if p.Committed? || p.BroadcastFailed? || p.OnNetwork? then st.locks else st.locks - {p.s}
      else st' == st
  {
  }

  /** The failure is recorded on the row; with the budget used up the swap is stuck, and its invoice's settlement, if
      the invoice is open and the write goes through; and the worker is done. */
  lemma FailureIff(st: State, w: WorkerId, s: SwapId, error: string, max: int, now: real, u: real, marked: bool,
                   i: InvoiceId)
    requires InPhase(st, w, Failing(s)) && s in st.rows && i in st.invoices
    ensures var st', row, inv := DoRecordFailure(st, w, error, max, now, u, marked), st.rows[s], st.invoices[i];
      var last := !IsTerminal(row.status) && row.claimAttempts + 1 >= max;
      && InPhase(st', w, Idle) && st'.locks == st.locks && i in st'.invoices
      && st'.network == st.network && st'.broadcasts == st.broadcasts
      && st'.rows == st.rows[s := RecordClaimFailure(row, error, max, now, u).0]
      && st'.invoices[i] == (if last && marked && IsFor(row.kind, i) && IsOpen(inv)
                             then inv.(settlement := L.ClaimStuck) else inv)
  {
    SettlementMarkIff(st.invoices[i], L.ClaimStuck);
  }

  /** The failure of a swap that is not there leaves nothing. */
  lemma FailureOfNone(st: State, cfg: Config, w: WorkerId, s: SwapId, error: string, now: real, u: real, marked: bool)
    requires InPhase(st, w, Failing(s)) && s !in st.rows
    ensures var st' := Apply(st, RecordFailure(w, error, now, u, marked), cfg);
      RestKept(st, st') && InPhase(st', w, Idle) && st'.locks == st.locks
  {
  }

  /** Main result: an attempt that fails anywhere gives back the lock, counts on the row and ends the worker; nothing
      is taken off the network and no other row changes; and the invoice hears of it only when the budget is gone. */
  lemma FailedAttempt(st: State, cfg: Config, w: WorkerId, s: SwapId, error: string, now: real, u: real, marked: bool,
                      i: InvoiceId)
    requires w in st.workers && s in st.rows && i in st.invoices && !st.workers[w].Idle? && st.workers[w].s == s
    requires !st.workers[w].Marked? && !st.workers[w].Booked? && !st.workers[w].Failing?
    ensures var st', row := Apply(Apply(st, Fail(w), cfg), RecordFailure(w, error, now, u, marked), cfg), st.rows[s];
      && InPhase(st', w, Idle) && (HoldsLock(st.workers[w]) ==> st'.locks == st.locks - {s})
      && st'.network == st.network && st'.broadcasts == st.broadcasts && i in st'.invoices
      && st'.rows == st.rows[s := RecordClaimFailure(row, error, cfg.maxAttempts, now, u).0]
      && (row.claimAttempts + 1 < cfg.maxAttempts || IsTerminal(row.status) ==> st'.invoices[i] == st.invoices[i])
  {
    var failed := Apply(st, Fail(w), cfg);
    FailIff(st, cfg, w);
    FailureApplied(failed, cfg, w, error, now, u, marked);
    RecordedAfter(st, failed, w, s, error, cfg.maxAttempts, now, u, marked, i);
  }

  lemma FailureApplied(st: State, cfg: Config, w: WorkerId, error: string, now: real, u: real, marked: bool)
    ensures Apply(st, RecordFailure(w, error, now, u, marked), cfg)
      == DoRecordFailure(st, w, error, cfg.maxAttempts, now, u, marked)
  {
  }

  lemma RecordedAfter(st: State, failed: State, w: WorkerId, s: SwapId, error: string, max: int, now: real, u: real,
                      marked: bool, i: InvoiceId)
    requires s in st.rows && i in st.invoices && RestKept(st, failed) && InPhase(failed, w, Failing(s))
    ensures var st', row := DoRecordFailure(failed, w, error, max, now, u, marked), st.rows[s];
      && InPhase(st', w, Idle) && st'.locks == failed.locks
      && st'.network == st.network && st'.broadcasts == st.broadcasts && i in st'.invoices
      && st'.rows == st.rows[s := RecordClaimFailure(row, error, max, now, u).0]
      && (row.claimAttempts + 1 < max || IsTerminal(row.status) ==> st'.invoices[i] == st.invoices[i])
  {
    FailureIff(failed, w, s, error, max, now, u, marked, i);
  }

  /** A crash drops the worker's lock and what it had not written. */
  lemma CrashIff(st: State, cfg: Config, w: WorkerId)
    requires w in st.workers
    ensures var st', p := Apply(st, Crash(w), cfg), st.workers[w];
      && RestKept(st, st') && InPhase(st', w, Idle)
      && st'.locks == if p.Locked? || p.HasRow? || p.HasAddress? || p.HasTx? then st.locks - {p.s} else st.locks
  {
  }

  // --- Everyone else ---

  /** The reconciler writes reverse swaps only. */
  lemma ReconcilerWrites(st: State, cfg: Config, s: SwapId, a: Action, now: real)
    requires s in st.rows
    ensures Apply(st, ReconcileWrite(s, a, now), cfg)
      == if st.rows[s].status.Rev? then st.(rows := st.rows[s := ApplyAction(st.rows[s], a, now)]) else st
  {
  }

  /** A swap is created pending, unclaimed and never tried, once, for an invoice that exists or for none; a chain swap
      without an address of its own. */
  lemma NewSwapIff(st: State, cfg: Config, s: SwapId, kind: SwapKind, addr: Option<Address>)
    ensures var st' := Apply(st, NewSwap(s, kind, addr), cfg);
      if s !in st.rows && (forall i :: IsFor(kind, i) ==> i in st.invoices) && (kind.ChainSwap? ==> addr.None?) then
        var status := if kind.ReverseSwap? then Rev(Pending) else Chn(ChainPending);
        st' == st.(rows := st.rows[s := SwapRow(kind, status, addr, None, None, None, 0, None, None, false)])
      else st' == st
  {
  }

  /** An invoice is created fresh, once, with its address. */
  lemma NewInvoiceIff(st: State, cfg: Config, i: InvoiceId, inv: L.Invoice, addr: Option<Address>)
    ensures Apply(st, NewInvoice(i, inv, addr), cfg)
      == if i !in st.invoices && i !in st.liquidAddress && L.Fresh(inv)
         then st.(invoices := st.invoices[i := inv], liquidAddress := st.liquidAddress[i := addr]) else st
  {
  }

  /** Users change, and transactions appear that double-spend nothing. */
  lemma ElsewhereWrites(st: State, cfg: Config, nym: string, user: User, tx: Tx)
    ensures Apply(st, UserWrite(nym, user), cfg) == st.(users := st.users[nym := user])
    ensures Apply(st, OtherTx(tx), cfg)
      == if Rivalled(st.network, tx) then st else st.(network := st.network + {tx})
  {
    RivalledIff(st.network, tx);
  }
}

/** What every interleaving of the claim protocol keeps. */
module ClaimProofs {
  import opened Base
  import opened Chain
  import opened Swaps
  import opened ClaimProtocol
  import L = InvoiceLedger
  import LP = InvoiceLedgerProofs

  // --- The invariant ---

  /** The one address a claim of the swap may pay, once it is fixed. */
  ghost function Destination(st: State, s: SwapId): Option<Address>
    requires s in st.rows
  {
    match st.rows[s].kind
    case ReverseSwap(_, _, _) => st.rows[s].address
    case ChainSwap(i, _, _) => if i in st.liquidAddress then st.liquidAddress[i] else None
  }

  ghost predicate PaysDestination(st: State, s: SwapId, tx: Tx)
    requires s in st.rows
  {
    Destination(st, s).Some? && ClaimFor(tx, s, Destination(st, s).value)
  }

  ghost predicate RowOk(st: State, s: SwapId)
    requires s in st.rows
  {
    var row := st.rows[s];
    && (row.kind.ReverseSwap? <==> row.status.Rev?)
    && (InvoiceOf(row.kind).Some? ==> InvoiceOf(row.kind).value in st.invoices)
    && (row.claimTx.Some? ==> PaysDestination(st, s, row.claimTx.value))
  }

  /** The snapshot read under the lock still agrees with the row in everything a claim depends on. */
  ghost predicate SnapshotOk(st: State, s: SwapId, snap: SwapRow) {
    && s in st.rows
    && snap.kind == st.rows[s].kind && snap.claimTx == st.rows[s].claimTx
  }

  /** `tx` is the persisted claim of `s`, and `txid` is on the network, spends the same lockup
      output and pays the claim's destination. */
  ghost predicate Settles(st: State, s: SwapId, txid: Tx) {
    s in st.rows && st.rows[s].claimTx.Some? && txid in st.network
    && var tx := st.rows[s].claimTx.value;
       tx.inputs != [] && tx.inputs[0] in txid.inputs && MatchesClaimDestination(txid, tx)
  }

  ghost predicate WorkerOk(st: State, w: WorkerId) {
    var p := PhaseOf(st, w);
    && (HoldsLock(p) ==> p.s in st.locks && st.locks[p.s] == w)
    && match p
       case HasRow(s, snap) => SnapshotOk(st, s, snap)
       case HasAddress(s, snap, addr) => SnapshotOk(st, s, snap) && Destination(st, s) == Some(addr)
       case HasTx(s, snap, tx, _) =>
         SnapshotOk(st, s, snap) && PaysDestination(st, s, tx) && (snap.claimTx.Some? ==> tx == snap.claimTx.value)
       case Committed(s, tx) => s in st.rows && st.rows[s].claimTx == Some(tx)
       case BroadcastFailed(s, tx) => s in st.rows && st.rows[s].claimTx == Some(tx)
       case OnNetwork(s, tx, txid) => Settles(st, s, txid) && st.rows[s].claimTx == Some(tx)
       case Marked(s, tx, txid) => Settles(st, s, txid) && st.rows[s].claimTx == Some(tx)
       case Booked(s, tx, txid) => Settles(st, s, txid) && st.rows[s].claimTx == Some(tx)
       case _ => true
  }

  /** A Boltz event of an invoice's ledger is the settlement evidence of a swap of that invoice. */
  ghost predicate EventOk(st: State, i: InvoiceId, e: L.Evidence) {
    L.IsBoltz(e.source) ==>
      && e.boltzSwapId.Some? && e.txid.Some?
      && var s := e.boltzSwapId.value;
         && s in st.rows && InvoiceOf(st.rows[s].kind) == Some(i)
         && e == SettlementEvidence(s, st.rows[s].kind, e.txid.value)
         && Settles(st, s, e.txid.value)
  }

  ghost predicate LedgerOk(st: State, i: InvoiceId)
    requires i in st.invoices
  {
    LP.Inv(st.invoices[i]) && forall r :: r in st.invoices[i].events ==> EventOk(st, i, r.evidence)
  }

  ghost predicate LocksOk(st: State) {
    forall s :: s in st.locks ==> HoldsLock(PhaseOf(st, st.locks[s])) && PhaseOf(st, st.locks[s]).s == s
  }

  ghost predicate RowsOk(st: State) {
    forall s :: s in st.rows ==> RowOk(st, s)
  }

  ghost predicate WorkersOk(st: State) {
    forall w :: w in st.workers ==> WorkerOk(st, w)
  }

  ghost predicate LedgersOk(st: State) {
    forall i :: i in st.invoices ==> LedgerOk(st, i)
  }

  ghost predicate BroadcastsOk(st: State) {
    forall b :: b in st.broadcasts ==> b.0 in st.rows && st.rows[b.0].claimTx == Some(b.1)
  }

  ghost predicate Inv(st: State) {
    RowsOk(st) && WorkersOk(st) && LedgersOk(st) && BroadcastsOk(st) && LocksOk(st) && NoDoubleSpend(st.network)
  }

  // --- Framing ---

  /** What every step keeps of a swap: its kind and table, its claim transaction and its destination,
      each once it is there. The network only grows. */
  ghost predicate Extends(a: State, b: State) {
    && (forall s :: s in a.rows ==>
          && s in b.rows && b.rows[s].kind == a.rows[s].kind
          && (a.rows[s].claimTx.Some? ==> b.rows[s].claimTx == a.rows[s].claimTx)
          && (Destination(a, s).Some? ==> Destination(b, s) == Destination(a, s)))
    && a.network <= b.network
    && a.invoices.Keys <= b.invoices.Keys
  }

  lemma RowFrame(a: State, b: State, s: SwapId)
    requires Extends(a, b) && s in a.rows && RowOk(a, s)
    requires b.rows[s].claimTx == a.rows[s].claimTx && (b.rows[s].status.Rev? <==> a.rows[s].status.Rev?)
    ensures RowOk(b, s)
  {
  }

  lemma RowsFrame(a: State, b: State)
    requires Extends(a, b) && b.rows == a.rows && RowsOk(a)
    ensures RowsOk(b)
  {
    forall s | s in b.rows ensures RowOk(b, s) {
      RowFrame(a, b, s);
    }
  }

  /** One row written, or added; the others as they were. */
  lemma OtherRowsFrame(a: State, b: State, s: SwapId)
    requires Extends(a, b) && RowsOk(a)
    requires forall x :: x in b.rows && x != s ==> x in a.rows && b.rows[x] == a.rows[x]
    requires s in b.rows ==> RowOk(b, s)
    ensures RowsOk(b)
  {
    forall x | x in b.rows && x != s ensures RowOk(b, x) {
      RowFrame(a, b, x);
    }
  }

  lemma WorkerFrame(a: State, b: State, w: WorkerId)
    requires Extends(a, b) && WorkerOk(a, w) && PhaseOf(b, w) == PhaseOf(a, w)
    requires var p := PhaseOf(a, w); HoldsLock(p) ==>
      && p.s in b.locks && b.locks[p.s] == w
      && (p.s in a.rows ==> b.rows[p.s].claimTx == a.rows[p.s].claimTx)
    ensures WorkerOk(b, w)
  {
  }

  lemma EventFrame(a: State, b: State, i: InvoiceId, e: L.Evidence)
    requires Extends(a, b) && EventOk(a, i, e)
    ensures EventOk(b, i, e)
  {
  }

  // --- Writes that keep the invariant, one part of the state at a time ---

  /** A worker moves on without taking or dropping a lock. */
  lemma PhaseKeeps(st: State, w: WorkerId, p: Phase)
    requires Inv(st)
    requires WorkerOk(SetPhase(st, w, p), w)
    requires HoldsLock(PhaseOf(st, w)) <==> HoldsLock(p)
    requires HoldsLock(p) ==> p.s == PhaseOf(st, w).s
    ensures Inv(SetPhase(st, w, p))
  {
    var st' := SetPhase(st, w, p);
    RowsFrame(st, st');
    OtherWorkersFrame(st, st', w);
    LedgersFrame(st, st');
    PhaseLocks(st, w, p);
  }

  lemma PhaseLocks(st: State, w: WorkerId, p: Phase)
    requires LocksOk(st) && (HoldsLock(PhaseOf(st, w)) <==> HoldsLock(p)) && (HoldsLock(p) ==> p.s == PhaseOf(st, w).s)
    ensures LocksOk(SetPhase(st, w, p))
  {
    var st' := SetPhase(st, w, p);
    forall x | x in st'.locks ensures HoldsLock(PhaseOf(st', st'.locks[x])) && PhaseOf(st', st'.locks[x]).s == x {
      assert HoldsLock(PhaseOf(st, st.locks[x])) && PhaseOf(st, st.locks[x]).s == x;
    }
  }

  lemma OtherWorkersFrame(a: State, b: State, w: WorkerId)
    requires Extends(a, b) && b.locks == a.locks && b.rows == a.rows && WorkersOk(a)
    requires forall v :: v != w ==> PhaseOf(b, v) == PhaseOf(a, v)
    requires forall v :: v in b.workers && v != w ==> v in a.workers
    requires WorkerOk(b, w)
    ensures WorkersOk(b)
  {
    forall v | v in b.workers && v != w ensures WorkerOk(b, v) {
      assert WorkerOk(a, v);
      WorkerFrame(a, b, v);
    }
  }

  /** Dropping a worker's lock leaves the workers that hold others as they were. */
  lemma ReleaseFrame(st: State, w: WorkerId, s: SwapId, p: Phase)
    requires WorkersOk(st) && s in st.locks && st.locks[s] == w && WorkerOk(Release(st, w, s, p), w)
    ensures WorkersOk(Release(st, w, s, p))
  {
    var st' := Release(st, w, s, p);
    forall v | v in st.workers && v != w ensures WorkerOk(st', v) {
      assert WorkerOk(st, v);
      WorkerFrame(st, st', v);
    }
  }

  lemma ReleaseLocks(st: State, w: WorkerId, s: SwapId, p: Phase)
    requires LocksOk(st) && HoldsLock(PhaseOf(st, w)) && PhaseOf(st, w).s == s
    ensures LocksOk(Release(st, w, s, p))
  {
    var st' := Release(st, w, s, p);
    forall x | x in st'.locks ensures HoldsLock(PhaseOf(st', st'.locks[x])) && PhaseOf(st', st'.locks[x]).s == x {
      assert HoldsLock(PhaseOf(st, st.locks[x])) && PhaseOf(st, st.locks[x]).s == x;
    }
  }

  lemma ReleaseKeeps(st: State, w: WorkerId, s: SwapId, p: Phase)
    requires Inv(st) && HoldsLock(PhaseOf(st, w)) && PhaseOf(st, w).s == s && !HoldsLock(p)
    requires WorkerOk(Release(st, w, s, p), w)
    ensures Inv(Release(st, w, s, p))
    ensures s !in Release(st, w, s, p).locks
  {
    var st' := Release(st, w, s, p);
    assert WorkerOk(st, w);
    RowsFrame(st, st');
    ReleaseFrame(st, w, s, p);
    ReleaseLocks(st, w, s, p);
    LedgersFrame(st, st');
  }

  lemma LedgersFrame(a: State, b: State)
    requires Extends(a, b) && b.invoices == a.invoices && LedgersOk(a)
    ensures LedgersOk(b)
  {
    forall i | i in b.invoices ensures LedgerOk(b, i) {
      forall r | r in b.invoices[i].events ensures EventOk(b, i, r.evidence) {
        assert LedgerOk(a, i);
        EventFrame(a, b, i, r.evidence);
      }
    }
  }

  lemma WorkersFrame(a: State, b: State)
    requires Extends(a, b) && b.workers == a.workers && b.locks == a.locks && WorkersOk(a)
    requires forall s :: s in a.rows && s in a.locks ==> b.rows[s].claimTx == a.rows[s].claimTx
    ensures WorkersOk(b)
  {
    forall w | w in b.workers ensures WorkerOk(b, w) {
      assert WorkerOk(a, w);
      WorkerFrame(a, b, w);
    }
  }

  lemma LocksFrame(a: State, b: State)
    requires LocksOk(a) && b.workers == a.workers && b.locks == a.locks
    ensures LocksOk(b)
  {
    forall s | s in b.locks ensures HoldsLock(PhaseOf(b, b.locks[s])) && PhaseOf(b, b.locks[s]).s == s {
      assert PhaseOf(b, b.locks[s]) == PhaseOf(a, a.locks[s]);
    }
  }

  /** A row write that changes neither kind nor table, sets the claim transaction at most once and
      only while nobody holds the swap's lock, and fixes the address at most once. */
  ghost predicate SafeRowWrite(st: State, s: SwapId, row: SwapRow) {
    && s in st.rows && row.kind == st.rows[s].kind && (row.status.Rev? <==> st.rows[s].status.Rev?)
    && (st.rows[s].address.Some? ==> row.address == st.rows[s].address)
    && (row.claimTx == st.rows[s].claimTx
        || (st.rows[s].claimTx.None? && s !in st.locks && row.claimTx.Some?
            && PaysDestination(st, s, row.claimTx.value)))
  }

  lemma RowWriteExtends(st: State, s: SwapId, row: SwapRow)
    requires SafeRowWrite(st, s, row) && RowOk(st, s)
    ensures Extends(st, SetRow(st, s, row)) && RowOk(SetRow(st, s, row), s)
  {
  }

  lemma RowWriteKeeps(st: State, s: SwapId, row: SwapRow)
    requires Inv(st) && SafeRowWrite(st, s, row)
    ensures Inv(SetRow(st, s, row))
  {
    var st' := SetRow(st, s, row);
    RowWriteExtends(st, s, row);
    OtherRowsFrame(st, st', s);
    WorkersFrame(st, st');
    LedgersFrame(st, st');
    LocksFrame(st, st');
  }

  /** The network accepts a transaction that spends nothing already spent. */
  lemma NetworkKeeps(st: State, tx: Tx)
    requires Inv(st) && !Conflicts(st.network, tx)
    ensures var st' := st.(network := st.network + {tx}); Inv(st')
  {
    var st' := st.(network := st.network + {tx});
    RowsFrame(st, st');
    WorkersFrame(st, st');
    LedgersFrame(st, st');
    LocksFrame(st, st');
  }

  lemma SendKeeps(st: State, s: SwapId, tx: Tx)
    requires Inv(st) && s in st.rows && st.rows[s].claimTx == Some(tx)
    ensures var st' := st.(broadcasts := st.broadcasts + {(s, tx)}); Inv(st')
  {
    var st' := st.(broadcasts := st.broadcasts + {(s, tx)});
    RowsFrame(st, st');
    WorkersFrame(st, st');
    LedgersFrame(st, st');
    LocksFrame(st, st');
  }

  /** A ledger write whose new events are all justified. */
  lemma InvoiceWriteKeeps(st: State, i: InvoiceId, inv: L.Invoice)
    requires Inv(st) && LP.Inv(inv)
    requires forall r :: r in inv.events ==>
      (i in st.invoices && r in st.invoices[i].events) || EventOk(st, i, r.evidence)
    ensures Inv(SetInvoice(st, i, inv))
  {
    var st' := SetInvoice(st, i, inv);
    RowsFrame(st, st');
    WorkersFrame(st, st');
    forall j | j in st'.invoices ensures LedgerOk(st', j) {
      forall r | r in st'.invoices[j].events ensures EventOk(st', j, r.evidence) {
        assert j in st.invoices ==> LedgerOk(st, j);
        EventFrame(st, st', j, r.evidence);
      }
    }
    LocksFrame(st, st');
  }

  // --- One lemma per step ---

  lemma TakenFrame(st: State, w: WorkerId, s: SwapId)
    requires WorkersOk(st) && LocksOk(st) && PhaseOf(st, w) == Idle && s !in st.locks
    ensures WorkersOk(DoAcquire(st, w, s)) && LocksOk(DoAcquire(st, w, s))
  {
    var st' := DoAcquire(st, w, s);
    forall v | v in st'.workers ensures WorkerOk(st', v) {
      if v != w {
        assert WorkerOk(st, v);
        WorkerFrame(st, st', v);
      }
    }
    forall x | x in st'.locks ensures HoldsLock(PhaseOf(st', st'.locks[x])) && PhaseOf(st', st'.locks[x]).s == x {
      if x != s {
        assert HoldsLock(PhaseOf(st, st.locks[x]));
      }
    }
  }

  lemma AcquireKeeps(st: State, w: WorkerId, s: SwapId)
    requires Inv(st)
    ensures Inv(DoAcquire(st, w, s))
  {
    if PhaseOf(st, w) == Idle && s !in st.locks {
      RowsFrame(st, DoAcquire(st, w, s));
      TakenFrame(st, w, s);
      LedgersFrame(st, DoAcquire(st, w, s));
    }
  }

  lemma WorkerIsOk(st: State, w: WorkerId)
    requires Inv(st)
    ensures WorkerOk(st, w)
  {
  }

  lemma ReadRowKeeps(st: State, w: WorkerId)
    requires Inv(st)
    ensures Inv(DoReadRow(st, w))
  {
    WorkerIsOk(st, w);
    match PhaseOf(st, w)
    case Locked(s) =>
      if s !in st.rows {
        ReleaseKeeps(st, w, s, Failing(s));
      } else {
        var row := st.rows[s];
        if IsTerminal(row.status) || (row.status.Chn? && !IsClaimable(row.status)) {
          ReleaseKeeps(st, w, s, Idle);
        } else {
          PhaseKeeps(st, w, HasRow(s, row));
        }
      }
    case _ =>
  }

  lemma AddressKeeps(st: State, w: WorkerId, s: SwapId, snap: SwapRow, a: Address)
    requires Inv(st) && PhaseOf(st, w) == HasRow(s, snap) && s in st.rows
    requires st.rows[s].kind.ReverseSwap? && st.rows[s].address.None?
    ensures Inv(FixAddress(st, w, s, snap, a))
  {
    WorkerIsOk(st, w);
    var st1 := SetRow(st, s, st.rows[s].(address := Some(a)));
    RowWriteKeeps(st, s, st.rows[s].(address := Some(a)));
    WorkerIsOk(st1, w);
    PhaseKeeps(st1, w, HasAddress(s, snap, a));
  }

  lemma BumpCursorKeeps(st: State, nym: string)
    requires Inv(st) && nym in st.users
    ensures Inv(BumpCursor(st, nym))
  {
    UsersKeep(st, BumpCursor(st, nym).users);
  }

  lemma UsersKeep(st: State, users: map<string, User>)
    requires Inv(st)
    ensures Inv(st.(users := users))
  {
    var st' := st.(users := users);
    RowsFrame(st, st');
    WorkersFrame(st, st');
    LedgersFrame(st, st');
    LocksFrame(st, st');
  }

  lemma ResolveChainKeeps(st: State, w: WorkerId, s: SwapId, snap: SwapRow)
    requires Inv(st) && PhaseOf(st, w) == HasRow(s, snap) && snap.kind.ChainSwap?
    ensures Inv(DoResolveAddress(st, w))
  {
    WorkerIsOk(st, w);
    var i := snap.kind.chainInvoice;
    if i in st.liquidAddress && st.liquidAddress[i].Some? {
      PhaseKeeps(st, w, HasAddress(s, snap, st.liquidAddress[i].value));
    } else {
      ReleaseKeeps(st, w, s, Failing(s));
    }
  }

  lemma ResolveCachedKeeps(st: State, w: WorkerId, s: SwapId, snap: SwapRow)
    requires Inv(st) && PhaseOf(st, w) == HasRow(s, snap) && snap.kind.ReverseSwap?
    requires s in st.rows && st.rows[s].address.Some?
    ensures Inv(DoResolveAddress(st, w))
  {
    WorkerIsOk(st, w);
    PhaseKeeps(st, w, HasAddress(s, snap, st.rows[s].address.value));
  }

  lemma ResolveInvoiceKeeps(st: State, w: WorkerId, s: SwapId, snap: SwapRow)
    requires Inv(st) && PhaseOf(st, w) == HasRow(s, snap) && snap.kind.ReverseSwap?
    requires s in st.rows && snap.kind == st.rows[s].kind && st.rows[s].address.None? && snap.kind.invoice.Some?
    ensures Inv(DoResolveAddress(st, w))
  {
    var i := snap.kind.invoice.value;
    if i in st.liquidAddress && st.liquidAddress[i].Some? {
      AddressKeeps(st, w, s, snap, st.liquidAddress[i].value);
    } else {
      ReleaseKeeps(st, w, s, Failing(s));
    }
  }

  lemma ResolveUserKeeps(st: State, w: WorkerId, s: SwapId, snap: SwapRow)
    requires Inv(st) && PhaseOf(st, w) == HasRow(s, snap) && snap.kind.ReverseSwap?
    requires s in st.rows && snap.kind == st.rows[s].kind && st.rows[s].address.None? && snap.kind.invoice.None?
    ensures Inv(DoResolveAddress(st, w))
  {
    var nym := snap.kind.nym;
    if nym.Some? && nym.value in st.users && st.users[nym.value].descriptor != ""
        && st.users[nym.value].nextAddrIdx >= 0 {
      BumpCursorKeeps(st, nym.value);
      AddressKeeps(BumpCursor(st, nym.value), w, s, snap,
                   Derived(st.users[nym.value].descriptor, st.users[nym.value].nextAddrIdx));
    } else {
      ReleaseKeeps(st, w, s, Failing(s));
    }
  }

  lemma ResolveAddressKeeps(st: State, w: WorkerId)
    requires Inv(st)
    ensures Inv(DoResolveAddress(st, w))
  {
    match PhaseOf(st, w)
    case HasRow(s, snap) =>
      if snap.kind.ChainSwap? {
        ResolveChainKeeps(st, w, s, snap);
      } else {
        WorkerIsOk(st, w);
        if st.rows[s].address.Some? {
          ResolveCachedKeeps(st, w, s, snap);
        } else if snap.kind.invoice.Some? {
          ResolveInvoiceKeeps(st, w, s, snap);
        } else {
          ResolveUserKeeps(st, w, s, snap);
        }
      }
    case _ =>
  }

  lemma PrepareKeeps(st: State, w: WorkerId, tx: Tx)
    requires Inv(st)
    ensures Inv(DoUsePersisted(st, w))
    ensures Inv(DoConstruct(st, w, tx))
  {
    WorkerIsOk(st, w);
    match PhaseOf(st, w)
    case HasAddress(s, snap, addr) =>
      if snap.claimTx.Some? {
        assert RowOk(st, s);
        PhaseKeeps(st, w, HasTx(s, snap, snap.claimTx.value, None));
      } else if ClaimFor(tx, s, addr) {
        var path := if snap.kind.ChainSwap? then None
            else Some(if snap.cooperativeRefused then Script else Cooperative);
        PhaseKeeps(st, w, HasTx(s, snap, tx, path));
      }
    case _ =>
  }

  lemma CooperativeRefusedKeeps(st: State, w: WorkerId)
    requires Inv(st)
    ensures Inv(DoCooperativeRefused(st, w))
  {
    match PhaseOf(st, w)
    case HasAddress(s, snap, addr) =>
      if s in st.rows {
        var row := MarkCooperativeRefused(st.rows[s]);
        RowWriteKeeps(st, s, row);
        ReleaseKeeps(SetRow(st, s, row), w, s, Failing(s));
      }
    case _ =>
  }

  /** The commit persists a claim transaction only where there was none: nobody else can have written
      one since the row was read, because only lock holders write it. */
  lemma CommitKeeps(st: State, w: WorkerId, now: real)
    requires Inv(st)
    ensures Inv(DoCommit(st, w, now))
  {
    WorkerIsOk(st, w);
    match PhaseOf(st, w)
    case HasTx(s, snap, tx, path) =>
      ReleaseKeeps(st, w, s, Idle);
      PersistKeeps(Release(st, w, s, Idle), w, s, CommittedRow(st.rows[s], snap, tx, path, now), tx);
      CommitShape(st, w, now);
    case _ =>
  }

  lemma CommitShape(st: State, w: WorkerId, now: real)
    requires PhaseOf(st, w).HasTx? && PhaseOf(st, w).s in st.rows
    ensures var p := PhaseOf(st, w);
      DoCommit(st, w, now) == SetPhase(SetRow(Release(st, w, p.s, Idle), p.s,
          CommittedRow(st.rows[p.s], p.snap, p.tx, p.path, now)),
                                       w, Committed(p.s, p.tx))
  {
    var p := PhaseOf(st, w);
    assert st.workers[w := Idle][w := Committed(p.s, p.tx)] == st.workers[w := Committed(p.s, p.tx)];
  }

  lemma PersistKeeps(st: State, w: WorkerId, s: SwapId, row: SwapRow, tx: Tx)
    requires Inv(st) && PhaseOf(st, w) == Idle && s in st.rows && s !in st.locks
    requires row.kind == st.rows[s].kind && row.address == st.rows[s].address
        && (row.status.Rev? <==> st.rows[s].status.Rev?)
    requires row.claimTx == Some(tx) && PaysDestination(st, s, tx)
    requires st.rows[s].claimTx.Some? ==> st.rows[s].claimTx == Some(tx)
    ensures var st' := SetPhase(SetRow(st, s, row), w, Committed(s, tx)); Inv(st')
  {
    RowWriteKeeps(st, s, row);
    PhaseKeeps(SetRow(st, s, row), w, Committed(s, tx));
  }

  lemma ClaimMatchesItself(st: State, s: SwapId, tx: Tx)
    requires s in st.rows && PaysDestination(st, s, tx)
    ensures tx.inputs != [] && tx.inputs[0] in tx.inputs && MatchesClaimDestination(tx, tx)
  {
    var a := Destination(st, s).value;
    var i :| 0 <= i < |tx.outputs| && tx.outputs[i] == PayTo(a);
    assert tx.outputs[i] != FeeScript && tx.outputs[i] == tx.outputs[i];
  }

  lemma SentKeeps(st: State, w: WorkerId, reported: bool)
    requires Inv(st) && PhaseOf(st, w).Committed?
    ensures var p := PhaseOf(st, w); var (s, tx) := (p.s, p.tx);
      var st' := SetPhase(st.(broadcasts := st.broadcasts + {(s, tx)}), w,
                          if reported && tx in st.network then OnNetwork(s, tx, tx) else BroadcastFailed(s, tx));
      Inv(st')
  {
    WorkerIsOk(st, w);
    var s, tx := PhaseOf(st, w).s, PhaseOf(st, w).tx;
    SendKeeps(st, s, tx);
    assert RowOk(st, s);
    ClaimMatchesItself(st, s, tx);
    PhaseKeeps(st.(broadcasts := st.broadcasts + {(s, tx)}), w,
               if reported && tx in st.network then OnNetwork(s, tx, tx) else BroadcastFailed(s, tx));
  }

  lemma BroadcastKeeps(st: State, w: WorkerId, accepted: bool, reported: bool)
    requires Inv(st)
    ensures Inv(DoBroadcast(st, w, accepted, reported))
  {
    match PhaseOf(st, w)
    case Committed(s, tx) =>
      if accepted && !Conflicts(st.network, tx) {
        NetworkKeeps(st, tx);
        SentKeeps(st.(network := st.network + {tx}), w, reported);
      } else {
        SentKeeps(st, w, reported);
      }
    case _ =>
  }

  /** The broadcast failed but the network has the claim. */
  lemma PresentKeeps(st: State, w: WorkerId, s: SwapId, tx: Tx)
    requires Inv(st) && PhaseOf(st, w) == BroadcastFailed(s, tx) && tx in st.network
    ensures Inv(SetPhase(st, w, OnNetwork(s, tx, tx)))
  {
    WorkerIsOk(st, w);
    assert RowOk(st, s);
    ClaimMatchesItself(st, s, tx);
    PhaseKeeps(st, w, OnNetwork(s, tx, tx));
  }

  /** A transaction of the network spends the lockup output the claim spends. */
  lemma SpenderKeeps(st: State, w: WorkerId, s: SwapId, tx: Tx, t: Tx)
    requires Inv(st) && PhaseOf(st, w) == BroadcastFailed(s, tx)
    requires t in st.network && tx.inputs != [] && tx.inputs[0] in t.inputs
    ensures Inv(SetPhase(st, w, if MatchesClaimDestination(t, tx) then OnNetwork(s, tx, t) else Failing(s)))
  {
    WorkerIsOk(st, w);
    PhaseKeeps(st, w, if MatchesClaimDestination(t, tx) then OnNetwork(s, tx, t) else Failing(s));
  }

  lemma ProbeKeeps(st: State, w: WorkerId, probe: Probe)
    requires Inv(st)
    ensures Inv(DoProbe(st, w, probe))
  {
    match PhaseOf(st, w)
    case BroadcastFailed(s, tx) =>
      match probe {
        case Present =>
          if tx in st.network {
            PresentKeeps(st, w, s, tx);
          }
        case Spender(t) =>
          if t in st.network && tx.inputs != [] && tx.inputs[0] in t.inputs {
            SpenderKeeps(st, w, s, tx, t);
          }
        case Nothing => PhaseKeeps(st, w, Failing(s));
      }
    case _ =>
  }

  lemma MarkClaimedKeeps(st: State, w: WorkerId)
    requires Inv(st)
    ensures Inv(DoMarkClaimed(st, w))
  {
    WorkerIsOk(st, w);
    match PhaseOf(st, w)
    case OnNetwork(s, tx, txid) =>
      assert RowOk(st, s);
      var row := UpdateStatus(st.rows[s], ClaimedOf(st.rows[s].status), Some(txid));
      RowWriteKeeps(st, s, row);
      var st1 := SetRow(st, s, row);
      WorkerIsOk(st1, w);
      PhaseKeeps(st1, w, Marked(s, tx, txid));
    case _ =>
  }

  lemma SettlementMark(inv: L.Invoice, to: L.Settlement)
    requires LP.Inv(inv)
    ensures LP.Inv(L.MarkSettlement(inv, to)) && L.MarkSettlement(inv, to).events == inv.events
  {
    LP.StatusStepInv(inv, L.SettlementStep(to), L.Tolerances(0, 0, 0));
  }

  lemma SettleInvoiceKeeps(st: State, kind: SwapKind, to: L.Settlement)
    requires Inv(st)
    ensures Inv(SettleInvoice(st, kind, to))
  {
    var i := InvoiceOf(kind);
    if i.Some? && i.value in st.invoices {
      assert LedgerOk(st, i.value);
      SettlementMark(st.invoices[i.value], to);
      InvoiceWriteKeeps(st, i.value, L.MarkSettlement(st.invoices[i.value], to));
    }
  }

  lemma SettleInvoiceFrame(st: State, kind: SwapKind, to: L.Settlement)
    ensures var st' := SettleInvoice(st, kind, to); st'.rows == st.rows && st'.workers == st.workers
  {
  }

  lemma ClearedKeeps(st: State, w: WorkerId, cleared: bool)
    requires Inv(st) && PhaseOf(st, w).Marked?
    ensures var p := PhaseOf(st, w); var s := p.s;
      s in st.rows
      && var cleaned := if cleared then SetRow(st, s, ClearClaimFailureState(st.rows[s])) else st;
         var st' := SetPhase(cleaned, w, Booked(s, p.tx, p.txid));
         Inv(st')
  {
    WorkerIsOk(st, w);
    var p := PhaseOf(st, w);
    if cleared {
      RowWriteKeeps(st, p.s, ClearClaimFailureState(st.rows[p.s]));
      WorkerIsOk(SetRow(st, p.s, ClearClaimFailureState(st.rows[p.s])), w);
      PhaseKeeps(SetRow(st, p.s, ClearClaimFailureState(st.rows[p.s])), w, Booked(p.s, p.tx, p.txid));
    } else {
      PhaseKeeps(st, w, Booked(p.s, p.tx, p.txid));
    }
  }

  lemma BookkeepKeeps(st: State, w: WorkerId, settled: bool, cleared: bool)
    requires Inv(st)
    ensures Inv(DoBookkeep(st, w, settled, cleared))
  {
    if PhaseOf(st, w).Marked? {
      var kind := st.rows[PhaseOf(st, w).s].kind by {
        WorkerIsOk(st, w);
      }
      if settled {
        SettleInvoiceKeeps(st, kind, L.Settled);
        SettleInvoiceFrame(st, kind, L.Settled);
        ClearedKeeps(SettleInvoice(st, kind, L.Settled), w, cleared);
      } else {
        ClearedKeeps(st, w, cleared);
      }
    }
  }

  /** `Record` adds no row but the evidence it was given. */
  lemma RecordAddsOnly(inv: L.Invoice, e: L.Evidence, tol: L.Tolerances, now: int)
    requires LP.Inv(inv)
    ensures forall r :: r in L.Record(inv, e, tol, now).0.events ==> r in inv.events || r.evidence == e
  {
    LP.PruneEvidence(inv.events, e.txid);
  }

  lemma EventWriteKeeps(st: State, i: InvoiceId, e: L.Evidence, tol: L.Tolerances, now: int)
    requires Inv(st) && i in st.invoices && EventOk(st, i, e)
    ensures Inv(SetInvoice(st, i, L.Record(st.invoices[i], e, tol, now).0))
  {
    assert LedgerOk(st, i);
    LP.RecordInv(st.invoices[i], e, tol, now);
    RecordAddsOnly(st.invoices[i], e, tol, now);
    InvoiceWriteKeeps(st, i, L.Record(st.invoices[i], e, tol, now).0);
  }

  lemma RecordEventKeeps(st: State, w: WorkerId, now: int, tol: L.Tolerances)
    requires Inv(st)
    ensures Inv(DoRecordEvent(st, w, now, tol))
  {
    match PhaseOf(st, w)
    case Booked(s, tx, txid) =>
      WorkerIsOk(st, w);
      var kind := st.rows[s].kind;
      var i := InvoiceOf(kind);
      if i.Some? && i.value in st.invoices {
        var inv, e := st.invoices[i.value], SettlementEvidence(s, kind, txid);
        assert EventOk(st, i.value, e);
        EventWriteKeeps(st, i.value, e, tol, now);
        PhaseKeeps(SetInvoice(st, i.value, L.Record(inv, e, tol, now).0), w, Idle);
      } else {
        PhaseKeeps(st, w, Idle);
      }
    case _ =>
  }

  lemma FailKeeps(st: State, w: WorkerId)
    requires Inv(st)
    ensures Inv(DoFail(st, w))
    ensures Inv(DoCrash(st, w))
  {
    var p := PhaseOf(st, w);
    if HoldsLock(p) {
      ReleaseKeeps(st, w, p.s, Failing(p.s));
      ReleaseKeeps(st, w, p.s, Idle);
    } else {
      PhaseKeeps(st, w, Idle);
      if p.Committed? || p.BroadcastFailed? || p.OnNetwork? {
        PhaseKeeps(st, w, Failing(p.s));
      }
    }
  }

  lemma SettleThenIdleKeeps(st: State, w: WorkerId, kind: SwapKind, mark: bool)
    requires Inv(st) && !HoldsLock(PhaseOf(st, w))
    ensures var st' := SetPhase(if mark then SettleInvoice(st, kind, L.ClaimStuck) else st, w, Idle); Inv(st')
  {
    if mark {
      SettleInvoiceKeeps(st, kind, L.ClaimStuck);
      PhaseKeeps(SettleInvoice(st, kind, L.ClaimStuck), w, Idle);
    } else {
      PhaseKeeps(st, w, Idle);
    }
  }

  lemma FailureKeepsClaim(row: SwapRow, error: string, max: int, now: real, u: real)
    ensures SameClaim(row, RecordClaimFailure(row, error, max, now, u).0)
  {
  }

  lemma RecordFailureKeeps(st: State, w: WorkerId, error: string, max: int, now: real, u: real, marked: bool)
    requires Inv(st)
    ensures var st' := DoRecordFailure(st, w, error, max, now, u, marked); Inv(st')
  {
    match PhaseOf(st, w)
    case Failing(s) =>
      if s in st.rows {
        var (row, outcome) := RecordClaimFailure(st.rows[s], error, max, now, u);
        FailureKeepsClaim(st.rows[s], error, max, now, u);
        OutsideWriteKeeps(st, s, row);
        SettleThenIdleKeeps(SetRow(st, s, row), w, row.kind, outcome == Stuck && marked);
      } else {
        PhaseKeeps(st, w, Idle);
      }
    case _ =>
  }

  lemma OutsideWriteKeeps(st: State, s: SwapId, row: SwapRow)
    requires Inv(st) && s in st.rows && SameClaim(st.rows[s], row)
    ensures Inv(SetRow(st, s, row))
  {
    RowWriteKeeps(st, s, row);
  }

  /** Webhook and reconciler writes of a row. */
  lemma StatusWriteKeeps(st: State, step: Step, cfg: Config)
    requires Inv(st) && (step.WebhookWrite? || step.ReconcileWrite?)
    ensures Inv(DoEnvironment(st, step, cfg))
  {
    match step
    case WebhookWrite(s, b) =>
      if s in st.rows {
        var row := st.rows[s];
        ClaimColumnsUntouched(row, b, Noop, 0.0);
        OutsideWriteKeeps(st, s, if row.status.Rev? then Webhook(row, b) else ChainWebhook(row, b));
      }
    case ReconcileWrite(s, a, now) =>
      if s in st.rows && st.rows[s].status.Rev? {
        ClaimColumnsUntouched(st.rows[s], SwapCreated, a, now);
        OutsideWriteKeeps(st, s, ApplyAction(st.rows[s], a, now));
      }
  }

  lemma CreationKeeps(st: State, step: Step, cfg: Config)
    requires Inv(st) && (step.NewInvoice? || step.NewSwap?)
    ensures Inv(DoEnvironment(st, step, cfg))
  {
    match step
    case NewInvoice(i, inv, addr) =>
      if i !in st.invoices && i !in st.liquidAddress && L.Fresh(inv) {
        NewInvoiceKeeps(st, i, inv, addr);
      }
    case NewSwap(s, kind, addr) =>
      var i := InvoiceOf(kind);
      if !(s in st.rows || (i.Some? && i.value !in st.invoices) || (kind.ChainSwap? && addr.Some?)) {
        NewSwapKeeps(st, s, kind, addr);
      }
  }

  lemma EnvironmentKeeps(st: State, step: Step, cfg: Config)
    requires Inv(st)
    ensures Inv(DoEnvironment(st, step, cfg))
  {
    match step
    case WebhookWrite(_, _) => StatusWriteKeeps(st, step, cfg);
    case ReconcileWrite(_, _, _) => StatusWriteKeeps(st, step, cfg);
    case NewInvoice(_, _, _) => CreationKeeps(st, step, cfg);
    case NewSwap(_, _, _) => CreationKeeps(st, step, cfg);
    case InvoiceWrite(i, lstep) =>
      if i in st.invoices && WatcherStep(lstep) {
        WatcherWriteKeeps(st, i, lstep, cfg.tol);
      }
    case UserWrite(nym, user) => UsersKeep(st, st.users[nym := user]);
    case OtherTx(tx) =>
      if !Conflicts(st.network, tx) {
        NetworkKeeps(st, tx);
      }
    case _ =>
  }

  /** A watcher's step leaves a well-formed invoice whose new rows, if any, are not Boltz settlements. */
  lemma WatcherStepOk(inv: L.Invoice, lstep: L.Step, tol: L.Tolerances)
    requires LP.Inv(inv) && WatcherStep(lstep)
    ensures var inv' := L.Apply(inv, lstep, tol);
      LP.Inv(inv') && forall r :: r in inv'.events ==> r in inv.events || !L.IsBoltz(r.evidence.source)
  {
    if lstep.RecordPayment? {
      LP.RecordInv(inv, lstep.evidence, tol, lstep.now);
      RecordAddsOnly(inv, lstep.evidence, tol, lstep.now);
    } else {
      LP.StatusStepInv(inv, lstep, tol);
    }
  }

  lemma WatcherWriteKeeps(st: State, i: InvoiceId, lstep: L.Step, tol: L.Tolerances)
    requires Inv(st) && i in st.invoices && WatcherStep(lstep)
    ensures var st' := SetInvoice(st, i, L.Apply(st.invoices[i], lstep, tol)); Inv(st')
  {
    assert LedgerOk(st, i);
    WatcherStepOk(st.invoices[i], lstep, tol);
    InvoiceWriteKeeps(st, i, L.Apply(st.invoices[i], lstep, tol));
  }

  lemma NewInvoiceKeeps(st: State, i: InvoiceId, inv: L.Invoice, addr: Option<Address>)
    requires Inv(st) && i !in st.invoices && i !in st.liquidAddress && L.Fresh(inv)
    ensures var st' := SetInvoice(st, i, inv).(liquidAddress := st.liquidAddress[i := addr]); Inv(st')
  {
    assert L.SumAmounts(inv.events) == 0;
    InvoiceWriteKeeps(st, i, inv);
    AddressOfNewInvoice(SetInvoice(st, i, inv), i, addr);
  }

  lemma AddressOfNewInvoice(st: State, i: InvoiceId, addr: Option<Address>)
    requires Inv(st) && i !in st.liquidAddress
    ensures var st' := st.(liquidAddress := st.liquidAddress[i := addr]); Inv(st')
  {
    var st' := st.(liquidAddress := st.liquidAddress[i := addr]);
    RowsFrame(st, st');
    WorkersFrame(st, st');
    LedgersFrame(st, st');
    LocksFrame(st, st');
  }

  lemma NewRowKeeps(st: State, s: SwapId, row: SwapRow)
    requires Inv(st) && s !in st.rows && row.claimTx.None? && (row.kind.ReverseSwap? <==> row.status.Rev?)
    requires InvoiceOf(row.kind).Some? ==> InvoiceOf(row.kind).value in st.invoices
    ensures Inv(SetRow(st, s, row))
  {
    var st' := SetRow(st, s, row);
    assert Extends(st, st');
    OtherRowsFrame(st, st', s);
    WorkersFrame(st, st');
    LedgersFrame(st, st');
    LocksFrame(st, st');
  }

  function NewRow(kind: SwapKind, addr: Option<Address>): SwapRow {
    var status := if kind.ReverseSwap? then Rev(Pending) else Chn(ChainPending);
    SwapRow(kind, status, addr, None, None, None, 0, None, None, false)
  }

  lemma NewSwapKeeps(st: State, s: SwapId, kind: SwapKind, addr: Option<Address>)
    requires Inv(st) && s !in st.rows && (InvoiceOf(kind).Some? ==> InvoiceOf(kind).value in st.invoices)
    ensures Inv(SetRow(st, s, NewRow(kind, addr)))
  {
    NewRowKeeps(st, s, NewRow(kind, addr));
  }

  /** Steps up to the commit. */
  lemma LockedStepKeeps(st: State, step: Step, cfg: Config)
    requires Inv(st)
    requires step.Acquire? || step.ReadRow? || step.ResolveAddress? || step.UsePersisted? || step.Construct?
      || step.CooperativeRefused? || step.Commit?
    ensures Inv(Apply(st, step, cfg))
  {
    match step
    case Acquire(w, s) => AcquireKeeps(st, w, s);
    case ReadRow(w) => ReadRowKeeps(st, w);
    case ResolveAddress(w) => ResolveAddressKeeps(st, w);
    case UsePersisted(w) => PrepareKeeps(st, w, Tx(0, [], []));
    case Construct(w, tx) => PrepareKeeps(st, w, tx);
    case CooperativeRefused(w) => CooperativeRefusedKeeps(st, w);
    case Commit(w, now) => CommitKeeps(st, w, now);
  }

  /** Steps from the broadcast to the ledger. */
  lemma SendingStepKeeps(st: State, step: Step, cfg: Config)
    requires Inv(st)
    requires step.Broadcast? || step.ProbeNetwork? || step.MarkClaimed? || step.Bookkeep? || step.RecordEvent?
    ensures Inv(Apply(st, step, cfg))
  {
    match step
    case Broadcast(w, accepted, reported) => BroadcastKeeps(st, w, accepted, reported);
    case ProbeNetwork(w, probe) => ProbeKeeps(st, w, probe);
    case MarkClaimed(w) => MarkClaimedKeeps(st, w);
    case Bookkeep(w, settled, cleared) => BookkeepKeeps(st, w, settled, cleared);
    case RecordEvent(w, clock) => RecordEventKeeps(st, w, clock, cfg.tol);
  }

  /** Errors and crashes. */
  lemma FailureStepKeeps(st: State, step: Step, cfg: Config)
    requires Inv(st) && (step.Fail? || step.RecordFailure? || step.Crash?)
    ensures Inv(Apply(st, step, cfg))
  {
    match step
    case Fail(w) => FailKeeps(st, w);
    case RecordFailure(w, error, now, u, marked) => RecordFailureKeeps(st, w, error, cfg.maxAttempts, now, u, marked);
    case Crash(w) => FailKeeps(st, w);
  }

  lemma StepKeeps(st: State, step: Step, cfg: Config)
    requires Inv(st)
    ensures Inv(Apply(st, step, cfg))
  {
    if step.Acquire? || step.ReadRow? || step.ResolveAddress? || step.UsePersisted? || step.Construct?
      || step.CooperativeRefused? || step.Commit? {
      LockedStepKeeps(st, step, cfg);
    } else if step.Broadcast? || step.ProbeNetwork? || step.MarkClaimed? || step.Bookkeep? || step.RecordEvent? {
      SendingStepKeeps(st, step, cfg);
    } else if step.Fail? || step.RecordFailure? || step.Crash? {
      FailureStepKeeps(st, step, cfg);
    } else {
      EnvironmentKeeps(st, step, cfg);
    }
  }

  // --- Every run ---

  lemma {:induction false} InvariantOfRuns(steps: seq<Step>, cfg: Config)
    ensures Inv(Run(steps, cfg))
  {
    if steps != [] {
      InvariantOfRuns(steps[..|steps|-1], cfg);
      StepKeeps(Run(steps[..|steps|-1], cfg), steps[|steps|-1], cfg);
    }
  }

  lemma {:induction false} RunsGrow(steps: seq<Step>, more: seq<Step>, cfg: Config)
    ensures Grows(Run(steps, cfg), Run(steps + more, cfg))
  {
    if more == [] {
      assert steps + more == steps;
    } else {
      RunsGrow(steps, more[..|more|-1], cfg);
      assert (steps + more)[..|steps + more| - 1] == steps + more[..|more|-1];
    }
  }

  /** No worker gets to clear the retry bookkeeping by this. */
  ghost predicate MarksNobody(st: State, st': State) {
    forall w :: PhaseOf(st', w).Marked? ==> PhaseOf(st, w) == PhaseOf(st', w)
  }

  lemma AcquireMarksNobody(st: State, w: WorkerId, s: SwapId)
    ensures MarksNobody(st, DoAcquire(st, w, s))
  {
  }

  lemma ReadMarksNobody(st: State, w: WorkerId)
    ensures MarksNobody(st, DoReadRow(st, w))
  {
  }

  lemma ResolvingMarksNobody(st: State, w: WorkerId)
    ensures MarksNobody(st, DoResolveAddress(st, w))
  {
    ResolvingPhase(st, w);
  }

  lemma ResolvingPhase(st: State, w: WorkerId)
    ensures var st' := DoResolveAddress(st, w);
      st' == st || (!PhaseOf(st', w).Marked? && st'.workers == st.workers[w := PhaseOf(st', w)])
  {
    var p := PhaseOf(st, w);
    if p.HasRow? {
      if p.snap.kind.ChainSwap? {
        ResolvingChainPhase(st, w);
      } else {
        ResolvingReversePhase(st, w);
      }
    }
  }

  lemma ResolvingChainPhase(st: State, w: WorkerId)
    requires PhaseOf(st, w).HasRow? && PhaseOf(st, w).snap.kind.ChainSwap?
    ensures var st' := DoResolveAddress(st, w);
      !PhaseOf(st', w).Marked? && st'.workers == st.workers[w := PhaseOf(st', w)]
  {
  }

  lemma ResolvingReversePhase(st: State, w: WorkerId)
    requires PhaseOf(st, w).HasRow? && PhaseOf(st, w).snap.kind.ReverseSwap?
    ensures var st' := DoResolveAddress(st, w);
      !PhaseOf(st', w).Marked? && st'.workers == st.workers[w := PhaseOf(st', w)]
  {
    var p := PhaseOf(st, w);
    if p.s in st.rows && st.rows[p.s].address.None? {
      if p.snap.kind.invoice.Some? {
        InvoiceAddressPhase(st, w);
      } else {
        AllocatedPhase(st, w);
      }
    }
  }

  lemma InvoiceAddressPhase(st: State, w: WorkerId)
    requires var p := PhaseOf(st, w);
      p.HasRow? && p.snap.kind.ReverseSwap? && p.s in st.rows && st.rows[p.s].address.None? && p.snap.kind.invoice.Some?
    ensures var st' := DoResolveAddress(st, w);
      !PhaseOf(st', w).Marked? && st'.workers == st.workers[w := PhaseOf(st', w)]
  {
  }

  lemma AllocatedPhase(st: State, w: WorkerId)
    requires var p := PhaseOf(st, w);
      p.HasRow? && p.snap.kind.ReverseSwap? && p.s in st.rows && st.rows[p.s].address.None? && p.snap.kind.invoice.None?
    ensures var st' := DoResolveAddress(st, w);
      !PhaseOf(st', w).Marked? && st'.workers == st.workers[w := PhaseOf(st', w)]
  {
  }

  lemma UseMarksNobody(st: State, w: WorkerId)
    ensures MarksNobody(st, DoUsePersisted(st, w))
  {
  }

  lemma ConstructMarksNobody(st: State, w: WorkerId, tx: Tx)
    ensures MarksNobody(st, DoConstruct(st, w, tx))
  {
  }

  lemma RefusedMarksNobody(st: State, w: WorkerId)
    ensures MarksNobody(st, DoCooperativeRefused(st, w))
  {
  }

  lemma CommitMarksNobody(st: State, w: WorkerId, now: real)
    ensures MarksNobody(st, DoCommit(st, w, now))
  {
  }

  lemma SendingMarksNobody(st: State, w: WorkerId, accepted: bool, reported: bool)
    ensures MarksNobody(st, DoBroadcast(st, w, accepted, reported))
  {
  }

  lemma ProbeMarksNobody(st: State, w: WorkerId, probe: Probe)
    ensures MarksNobody(st, DoProbe(st, w, probe))
  {
  }

  lemma BookkeepMarksNobody(st: State, w: WorkerId, settled: bool, cleared: bool)
    ensures MarksNobody(st, DoBookkeep(st, w, settled, cleared))
  {
  }

  lemma EventMarksNobody(st: State, w: WorkerId, clock: int, tol: L.Tolerances)
    ensures MarksNobody(st, DoRecordEvent(st, w, clock, tol))
  {
  }

  lemma FailingMarksNobody(st: State, w: WorkerId)
    ensures MarksNobody(st, DoFail(st, w)) && MarksNobody(st, DoCrash(st, w))
  {
  }

  lemma FailureMarksNobody(st: State, w: WorkerId, error: string, max: int, now: real, u: real, marked: bool)
    ensures MarksNobody(st, DoRecordFailure(st, w, error, max, now, u, marked))
  {
  }

  lemma EnvironmentMarksNobody(st: State, step: Step, cfg: Config)
    ensures DoEnvironment(st, step, cfg).workers == st.workers
  {
  }

  lemma MarkingEnds(st: State, w: WorkerId, v: WorkerId)
    requires PhaseOf(DoMarkClaimed(st, w), v).Marked?
    ensures var st' := DoMarkClaimed(st, w); var s := PhaseOf(st', v).s;
      PhaseOf(st, v) == PhaseOf(st', v) || (s in st'.rows && IsTerminal(st'.rows[s].status))
  {
  }

  predicate BeforeSending(step: Step) {
    step.Acquire? || step.ReadRow? || step.ResolveAddress? || step.UsePersisted? || step.Construct?
        || step.CooperativeRefused? || step.Commit?
  }

  lemma PreparingMarksNobody(st: State, step: Step, cfg: Config)
    requires BeforeSending(step)
    ensures MarksNobody(st, Apply(st, step, cfg))
  {
    match step
    case Acquire(w, s) => AcquireMarksNobody(st, w, s);
    case ReadRow(w) => ReadMarksNobody(st, w);
    case ResolveAddress(w) => ResolvingMarksNobody(st, w);
    case UsePersisted(w) => UseMarksNobody(st, w);
    case Construct(w, tx) => ConstructMarksNobody(st, w, tx);
    case CooperativeRefused(w) => RefusedMarksNobody(st, w);
    case Commit(w, now) => CommitMarksNobody(st, w, now);
  }

  lemma LaterMarksNobody(st: State, step: Step, cfg: Config)
    requires !BeforeSending(step) && !step.MarkClaimed?
    ensures MarksNobody(st, Apply(st, step, cfg))
  {
    match step
    case Broadcast(w, accepted, reported) => SendingMarksNobody(st, w, accepted, reported);
    case ProbeNetwork(w, probe) => ProbeMarksNobody(st, w, probe);
    case Bookkeep(w, settled, cleared) => BookkeepMarksNobody(st, w, settled, cleared);
    case RecordEvent(w, clock) => EventMarksNobody(st, w, clock, cfg.tol);
    case _ => RestMarksNobody(st, step, cfg);
  }

  lemma RestMarksNobody(st: State, step: Step, cfg: Config)
    requires !BeforeSending(step) && !step.MarkClaimed?
    requires !step.Broadcast? && !step.ProbeNetwork? && !step.Bookkeep? && !step.RecordEvent?
    ensures MarksNobody(st, Apply(st, step, cfg))
  {
    match step
    case Fail(w) => FailingMarksNobody(st, w);
    case RecordFailure(w, error, now, u, marked) => FailureMarksNobody(st, w, error, cfg.maxAttempts, now, u, marked);
    case Crash(w) => FailingMarksNobody(st, w);
    case _ => EnvironmentMarksNobody(st, step, cfg);
  }

  /** Only the status write lets a worker clear it. */
  lemma MarkedBy(st: State, step: Step, cfg: Config, v: WorkerId)
    requires PhaseOf(Apply(st, step, cfg), v).Marked?
    ensures var st' := Apply(st, step, cfg); var s := PhaseOf(st', v).s;
      PhaseOf(st, v) == PhaseOf(st', v) || (s in st'.rows && IsTerminal(st'.rows[s].status))
  {
    if step.MarkClaimed? {
      MarkingEnds(st, step.w, v);
    } else if BeforeSending(step) {
      PreparingMarksNobody(st, step, cfg);
    } else {
      LaterMarksNobody(st, step, cfg);
    }
  }

  /** So a worker that clears it finds the swap ended, whatever ran in between. */
  lemma {:induction false} BookkeepFindsEnded(steps: seq<Step>, cfg: Config, w: WorkerId)
    requires PhaseOf(Run(steps, cfg), w).Marked?
    ensures var st := Run(steps, cfg); var s := PhaseOf(st, w).s; s in st.rows && IsTerminal(st.rows[s].status)
  {
    if steps == [] {
      assert false;
    } else {
      var init, last := steps[..|steps|-1], steps[|steps|-1];
      MarkedBy(Run(init, cfg), last, cfg, w);
      if PhaseOf(Run(init, cfg), w) == PhaseOf(Run(steps, cfg), w) {
        BookkeepFindsEnded(init, cfg, w);
      }
    }
  }

  /** Main result: over every interleaving of workers, webhooks, reconciler and crashes, all
      transactions ever broadcast for a swap are the one persisted transaction; it spends only the
      swap's lockup outputs and pays only the swap's one claim address; and transaction and address,
      once fixed, are the same in every later state. */
  lemma SingleClaimTransaction(steps: seq<Step>, more: seq<Step>, cfg: Config, s: SwapId, tx: Tx)
    requires (s, tx) in Run(steps, cfg).broadcasts
    ensures var st := Run(steps, cfg); var later := Run(steps + more, cfg);
      && s in st.rows && s in later.rows
      && st.rows[s].claimTx == later.rows[s].claimTx == Some(tx)
      && Destination(st, s).Some? && Destination(later, s) == Destination(st, s)
      && ClaimFor(tx, s, Destination(st, s).value)
    ensures forall t :: (s, t) in Run(steps + more, cfg).broadcasts ==> t == tx
  {
    var st, later := Run(steps, cfg), Run(steps + more, cfg);
    InvariantOfRuns(steps, cfg);
    InvariantOfRuns(steps + more, cfg);
    RunsGrow(steps, more, cfg);
    var b := (s, tx);
    assert b in st.broadcasts;
    assert RowOk(st, s);
    forall t | (s, t) in later.broadcasts ensures t == tx {
      var c := (s, t);
      assert c in later.broadcasts;
    }
  }

  /** What a settled swap pays, read off its own columns: a reverse swap its amount to its invoice over
      Lightning, a chain swap the amount its user locked up to its invoice over Bitcoin. */
  ghost predicate Credits(i: InvoiceId, s: SwapId, kind: SwapKind, e: L.Evidence) {
    && e.txid.Some? && e.vout.None? && e.address.None? && e.boltzSwapId == Some(s)
    && match kind
       case ReverseSwap(invoice, _, amount) =>
         invoice == Some(i) && e.amountSat == amount && e.rail == L.Lightning && e.source == L.LightningBoltzReverse
         && e.eventKey == L.BoltzKey(L.LightningBoltzReverse, s)
       case ChainSwap(invoice, userLock, _) =>
         invoice == i && e.amountSat == userLock && e.rail == L.Bitcoin && e.source == L.BitcoinBoltzChain
         && e.eventKey == L.BoltzKey(L.BitcoinBoltzChain, s)
  }

  /** Main result: a Boltz event in any invoice's ledger is the settlement of one swap of that
      invoice, with that swap's amount, the user's for a chain swap; its transaction is on the
      network, spends the lockup output the persisted claim spends and pays the claim's destination. */
  lemma SettlementSoundness(steps: seq<Step>, cfg: Config, i: InvoiceId, r: L.EventRow)
    requires i in Run(steps, cfg).invoices && r in Run(steps, cfg).invoices[i].events && L.IsBoltz(r.evidence.source)
    ensures var st := Run(steps, cfg); var e := r.evidence;
      && e.boltzSwapId.Some? && e.txid.Some? && e.boltzSwapId.value in st.rows
      && var s := e.boltzSwapId.value; var row := st.rows[s];
         && Credits(i, s, row.kind, e)
         && Settles(st, s, e.txid.value) && PaysDestination(st, s, row.claimTx.value)
         && PayTo(Destination(st, s).value) in e.txid.value.outputs
  {
    var st := Run(steps, cfg);
    InvariantOfRuns(steps, cfg);
    assert LedgerOk(st, i);
    assert EventOk(st, i, r.evidence);
    var s := r.evidence.boltzSwapId.value;
    assert RowOk(st, s);
    var tx, a := st.rows[s].claimTx.value, Destination(st, s).value;
    var x, y :| 0 <= x < |tx.outputs| && 0 <= y < |r.evidence.txid.value.outputs|
      && tx.outputs[x] != FeeScript && r.evidence.txid.value.outputs[y] == tx.outputs[x];
    assert tx.outputs[x] in tx.outputs;
  }

  /** Main result: a swap never contributes twice. Two Boltz events of one swap, in whichever ledgers,
      are one event in one ledger. */
  lemma SwapContributesOnce(steps: seq<Step>, cfg: Config, i: InvoiceId, j: InvoiceId, m: nat, n: nat)
    requires var st := Run(steps, cfg);
      && i in st.invoices && j in st.invoices && m < |st.invoices[i].events| && n < |st.invoices[j].events|
      && var (a, b) := (st.invoices[i].events[m].evidence, st.invoices[j].events[n].evidence);
         L.IsBoltz(a.source) && L.IsBoltz(b.source) && a.boltzSwapId == b.boltzSwapId
    ensures i == j && m == n
  {
    var st := Run(steps, cfg);
    InvariantOfRuns(steps, cfg);
    assert LedgerOk(st, i) && LedgerOk(st, j);
    assert EventOk(st, i, st.invoices[i].events[m].evidence);
    assert EventOk(st, j, st.invoices[j].events[n].evidence);
  }

  /** Main result: whatever is recorded for a swap at any time is the same evidence: the ledger's
      assumption that an event key names one piece of evidence holds of the claim protocol. */
  lemma SettlementEvidenceUnique(steps: seq<Step>, more: seq<Step>, cfg: Config, v: WorkerId, w: WorkerId)
    requires PhaseOf(Run(steps, cfg), v).Booked? && PhaseOf(Run(steps + more, cfg), w).Booked?
    requires PhaseOf(Run(steps, cfg), v).s == PhaseOf(Run(steps + more, cfg), w).s
    ensures PhaseOf(Run(steps, cfg), v).txid == PhaseOf(Run(steps + more, cfg), w).txid
  {
    var st, later := Run(steps, cfg), Run(steps + more, cfg);
    InvariantOfRuns(steps, cfg);
    InvariantOfRuns(steps + more, cfg);
    RunsGrow(steps, more, cfg);
    WorkerIsOk(st, v);
    WorkerIsOk(later, w);
    var s := PhaseOf(st, v).s;
    SettlersEqual(later, s, PhaseOf(st, v).txid, PhaseOf(later, w).txid);
  }

  lemma SettlersEqual(st: State, s: SwapId, a: Tx, b: Tx)
    requires NoDoubleSpend(st.network) && Settles(st, s, a) && Settles(st, s, b)
    ensures a == b
  {
    var o := st.rows[s].claimTx.value.inputs[0];
    assert o in a.inputs && o in b.inputs;
  }
}

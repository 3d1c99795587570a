/** What every run of registrations, updates, purges and reservations keeps, and when it does not. */
module RegistrationProofs {
  import opened Base
  import opened Chain
  import opened Registration
  import Swaps

  // --- What every run keeps ---

  ghost predicate WithinCap(users: map<Nym, User>, cap: int) {
    forall npub :: Owned(users, npub) == {} || |Owned(users, npub)| <= cap
  }

  /** The descriptor a reservation has come under: that of the write beside its insert if it has committed
      by now, otherwise the one at its insert. */
  function Under(writes: Writes, row: Reservation): string {
    if row.beside.Some? && row.beside.value in writes.committed then writes.committed[row.beside.value]
    else row.insertedUnder
  }

  ghost predicate RowOk(users: map<Nym, User>, writes: Writes, k: (Nym, string), row: Reservation) {
    && k.0 in users && Under(writes, row) == users[k.0].descriptor
    && (row.beside.Some? ==> row.beside.value < writes.begun)
    && (forall w :: w in writes.pending && row.beside == Some(writes.pending[w].id) ==> writes.pending[w].nym == k.0)
  }

  ghost predicate RowsOk(users: map<Nym, User>, rows: map<(Nym, string), Reservation>, writes: Writes) {
    forall k :: k in rows ==> RowOk(users, writes, k, rows[k])
  }

  ghost predicate NewestInactive(users: map<Nym, User>, nym: Nym)
    requires nym in users
  {
    forall n :: n in users && users[n].npub == users[nym].npub
        ==> !users[n].active && users[n].createdAt <= users[nym].createdAt
  }

  /** Every reservation the delete has not found was inserted beside the write. */
  ghost predicate FoundOrBeside(rows: map<(Nym, string), Reservation>, write: Write) {
    forall k :: k in rows && k.0 == write.nym ==> k in write.doomed || rows[k].beside == Some(write.id)
  }

  /** A write updates an active row or reactivates the newest row of a key with no active one. */
  ghost predicate WriteOk(users: map<Nym, User>, writes: Writes, write: Write) {
    && write.nym in users && (users[write.nym].active || NewestInactive(users, write.nym))
    && write.id < writes.begun && write.id !in writes.committed
    && (forall k :: k in write.doomed ==> k.0 == write.nym)
  }

  /** No two of them write rows of one key. */
  ghost predicate WritesOk(users: map<Nym, User>, writes: Writes) {
    && (forall w :: w in writes.pending ==> WriteOk(users, writes, writes.pending[w]))
    && (forall v, w :: v in writes.pending && w in writes.pending && v != w ==>
          writes.pending[v].id != writes.pending[w].id
          && users[writes.pending[v].nym].npub != users[writes.pending[w].nym].npub)
    && (forall id :: id in writes.committed ==> id < writes.begun)
  }

  ghost predicate Tracked(rows: map<(Nym, string), Reservation>, writes: Writes) {
    forall w :: w in writes.pending ==> FoundOrBeside(rows, writes.pending[w])
  }

  ghost predicate PurgesSafe(users: map<Nym, User>, swaps: map<SwapId, SwapRef>, purging: map<WorkerId, Nym>) {
    && (forall w :: w in purging ==>
          purging[w] in users && users[purging[w]].active && InFlight(swaps, purging[w]) == {})
    && (forall v, w :: v in purging && w in purging && purging[v] == purging[w] ==> v == w)
  }

  ghost predicate LocksApart(purging: map<WorkerId, Nym>, writes: Writes) {
    forall v, w :: v in purging && w in writes.pending ==> purging[v] != writes.pending[w].nym
  }

  ghost predicate Inv(st: State, cap: int) {
    && OneActive(st.t.users) && WithinCap(st.t.users, cap)
    && RowsOk(st.t.users, st.t.reservations, st.writes) && Tracked(st.t.reservations, st.writes)
    && WritesOk(st.t.users, st.writes)
    && PurgesSafe(st.t.users, st.t.swaps, st.purging) && LocksApart(st.purging, st.writes)
  }

  /** An update of columns other than the owner leaves everybody's rows as many as they were. */
  lemma SameOwners(users: map<Nym, User>, nym: Nym, row: User, cap: int)
    requires WithinCap(users, cap) && nym in users && row.npub == users[nym].npub
    ensures WithinCap(users[nym := row], cap)
  {
    var users' := users[nym := row];
    forall npub ensures Owned(users', npub) == {} || |Owned(users', npub)| <= cap {
      assert Owned(users', npub) == Owned(users, npub);
    }
  }

  lemma NewOwner(users: map<Nym, User>, nym: Nym, row: User, cap: int)
    requires WithinCap(users, cap) && nym !in users && |Owned(users, row.npub)| < cap
    ensures WithinCap(users[nym := row], cap)
  {
    var users' := users[nym := row];
    forall npub ensures Owned(users', npub) == {} || |Owned(users', npub)| <= cap {
      if npub == row.npub {
        assert Owned(users', npub) == Owned(users, npub) + {nym};
      } else {
        assert Owned(users', npub) == Owned(users, npub);
      }
    }
  }

  lemma NoneActive(users: map<Nym, User>, npub: Npub, nym: Nym, row: User)
    requires OneActive(users) && ActiveOf(users, npub).None? && row.npub == npub
    ensures OneActive(users[nym := row])
  {
    NotActive(users, npub);
  }

  /** No descriptor write of the key is under way. */
  ghost predicate Quiet(users: map<Nym, User>, writes: Writes, npub: Npub) {
    forall w :: w in writes.pending && writes.pending[w].nym in users ==> users[writes.pending[w].nym].npub != npub
  }

  lemma QuietWithoutActive(users: map<Nym, User>, writes: Writes, npub: Npub)
    requires ActiveOf(users, npub).None? && !Registering(users, writes, npub)
    ensures Quiet(users, writes, npub)
  {
    NotActive(users, npub);
  }

  lemma QuietUnlocked(users: map<Nym, User>, writes: Writes, nym: Nym)
    requires OneActive(users) && WritesOk(users, writes)
    requires nym in users && users[nym].active && !Writing(writes, nym)
    ensures Quiet(users, writes, users[nym].npub)
  {
    forall w | w in writes.pending && writes.pending[w].nym in users
      ensures users[writes.pending[w].nym].npub != users[nym].npub
    {
      assert WriteOk(users, writes, writes.pending[w]);
    }
  }

  // One user row written.

  /** Descriptor writes of other keys do not mind. */
  lemma WritesKept(users: map<Nym, User>, writes: Writes, nym: Nym, row: User)
    requires WritesOk(users, writes) && Quiet(users, writes, row.npub) && (nym in users ==> users[nym].npub == row.npub)
    ensures WritesOk(users[nym := row], writes)
  {
    forall w | w in writes.pending ensures WriteOk(users[nym := row], writes, writes.pending[w]) {
      assert WriteOk(users, writes, writes.pending[w]);
    }
  }

  /** A cursor write does not concern any. */
  lemma WritesKeptByCursor(users: map<Nym, User>, writes: Writes, nym: Nym, idx: int)
    requires WritesOk(users, writes) && nym in users
    ensures WritesOk(users[nym := users[nym].(nextAddrIdx := idx)], writes)
  {
    var users' := users[nym := users[nym].(nextAddrIdx := idx)];
    forall w | w in writes.pending ensures WriteOk(users', writes, writes.pending[w]) {
      assert WriteOk(users, writes, writes.pending[w]);
    }
  }

  /** Neither the owner nor the descriptor of the row changes. */
  lemma RowsKept(users: map<Nym, User>, rows: map<(Nym, string), Reservation>, writes: Writes, nym: Nym, row: User)
    requires RowsOk(users, rows, writes) && (nym in users ==> row.descriptor == users[nym].descriptor)
    ensures RowsOk(users[nym := row], rows, writes)
  {
    forall k | k in rows ensures RowOk(users[nym := row], writes, k, rows[k]) {
      assert RowOk(users, writes, k, rows[k]);
    }
  }

  lemma RowsDropped(users: map<Nym, User>, rows: map<(Nym, string), Reservation>, writes: Writes, nym: Nym, row: User)
    requires RowsOk(users, rows, writes) && Tracked(rows, writes)
    ensures RowsOk(users[nym := row], WithoutReservations(rows, nym), writes)
    ensures Tracked(WithoutReservations(rows, nym), writes)
  {
    var rows' := WithoutReservations(rows, nym);
    forall k | k in rows' ensures RowOk(users[nym := row], writes, k, rows'[k]) {
      assert RowOk(users, writes, k, rows[k]);
    }
    forall w | w in writes.pending ensures FoundOrBeside(rows', writes.pending[w]) {
      assert FoundOrBeside(rows, writes.pending[w]);
    }
  }

  /** A descriptor write nothing interrupts drops all of the nym's reservations. */
  lemma DescriptorWriteKeeps(st: State, cap: int, nym: Nym, row: User)
    requires Inv(st, cap) && nym in st.t.users && row.npub == st.t.users[nym].npub && row.active
    requires OneActive(st.t.users[nym := row]) && Quiet(st.t.users, st.writes, row.npub)
    ensures var kept := WithoutReservations(st.t.reservations, nym);
      Inv(st.(t := st.t.(users := st.t.users[nym := row], reservations := kept)), cap)
  {
    SameOwners(st.t.users, nym, row, cap);
    WritesKept(st.t.users, st.writes, nym, row);
    RowsDropped(st.t.users, st.t.reservations, st.writes, nym, row);
  }

  lemma CreationKeeps(st: State, cap: int, nym: Nym, row: User)
    requires Inv(st, cap) && nym !in st.t.users && |Owned(st.t.users, row.npub)| < cap
    requires OneActive(st.t.users[nym := row]) && Quiet(st.t.users, st.writes, row.npub)
    ensures Inv(st.(t := st.t.(users := st.t.users[nym := row])), cap)
  {
    NewOwner(st.t.users, nym, row, cap);
    WritesKept(st.t.users, st.writes, nym, row);
    RowsKept(st.t.users, st.t.reservations, st.writes, nym, row);
  }

  lemma RegisterKeeps(st: State, cap: int, npub: Npub, nym: Nym, d: string, v: Npub)
    requires Inv(st, cap)
    ensures Inv(Apply(st, cap, DoRegister(npub, nym, d, v)), cap)
  {
    if ActiveOf(st.t.users, npub).None? && !Registering(st.t.users, st.writes, npub) {
      QuietWithoutActive(st.t.users, st.writes, npub);
      if IsLatestInactive(st.t.users, npub, nym) {
        var row := st.t.users[nym].(descriptor := d, verification := v, active := true);
        NoneActive(st.t.users, npub, nym, row);
        DescriptorWriteKeeps(st, cap, nym, row);
      } else if |Owned(st.t.users, npub)| < cap && nym !in st.t.users {
        var row := User(npub, d, v, 0, true, |st.t.users|);
        NoneActive(st.t.users, npub, nym, row);
        CreationKeeps(st, cap, nym, row);
      }
    }
  }

  lemma UpdateKeeps(st: State, cap: int, npub: Npub, d: string)
    requires Inv(st, cap)
    ensures Inv(Apply(st, cap, DoUpdate(npub, d)), cap)
  {
    if ActiveOf(st.t.users, npub).Some? && !ActiveLocked(st, npub) {
      var nym := ActiveOf(st.t.users, npub).value;
      QuietUnlocked(st.t.users, st.writes, nym);
      DescriptorWriteKeeps(st, cap, nym, st.t.users[nym].(descriptor := d));
    }
  }

  lemma DeactivateKeeps(st: State, cap: int, npub: Npub)
    requires Inv(st, cap)
    ensures Inv(Apply(st, cap, DoDeactivate(npub)), cap)
  {
    if ActiveOf(st.t.users, npub).Some? && !ActiveLocked(st, npub) {
      var nym := ActiveOf(st.t.users, npub).value;
      var row := st.t.users[nym].(active := false);
      SameOwners(st.t.users, nym, row, cap);
      QuietUnlocked(st.t.users, st.writes, nym);
      WritesKept(st.t.users, st.writes, nym, row);
      RowsKept(st.t.users, st.t.reservations, st.writes, nym, row);
    }
  }

  lemma CursorKeeps(st: State, cap: int, nym: Nym, idx: int)
    requires Inv(st, cap)
    ensures Inv(Apply(st, cap, MoveCursor(nym, idx)), cap)
  {
    if nym in st.t.users && !Locked(st, nym) {
      var row := st.t.users[nym].(nextAddrIdx := idx);
      SameOwners(st.t.users, nym, row, cap);
      WritesKeptByCursor(st.t.users, st.writes, nym, idx);
      RowsKept(st.t.users, st.t.reservations, st.writes, nym, row);
    }
  }

  // Descriptor writes begin, commit and are rolled back.

  lemma OpenedOk(users: map<Nym, User>, rows: map<(Nym, string), Reservation>, writes: Writes, w: WorkerId, nym: Nym,
                 d: string, v: Npub)
    requires WritesOk(users, writes) && RowsOk(users, rows, writes) && Tracked(rows, writes)
    requires w !in writes.pending && nym in users && (users[nym].active || NewestInactive(users, nym))
    requires Quiet(users, writes, users[nym].npub)
    ensures var writes' := Opened(writes, w, nym, d, v, KeysOf(rows, nym));
      WritesOk(users, writes') && RowsOk(users, rows, writes') && Tracked(rows, writes')
  {
    var writes' := Opened(writes, w, nym, d, v, KeysOf(rows, nym));
    forall x | x in writes'.pending
      ensures WriteOk(users, writes', writes'.pending[x]) && FoundOrBeside(rows, writes'.pending[x])
    {
      if x != w {
        assert WriteOk(users, writes, writes.pending[x]) && FoundOrBeside(rows, writes.pending[x]);
      }
    }
    forall k | k in rows ensures RowOk(users, writes', k, rows[k]) {
      assert RowOk(users, writes, k, rows[k]);
    }
  }

  lemma BeginKeeps(st: State, cap: int, step: Step)
    requires Inv(st, cap) && (step.BeginReactivate? || step.BeginUpdate?)
    ensures Inv(Apply(st, cap, step), cap)
  {
    if Apply(st, cap, step) != st {
      match step
      case BeginReactivate(w, npub, nym, d, v) =>
        QuietWithoutActive(st.t.users, st.writes, npub);
        NotActive(st.t.users, npub);
        OpenedOk(st.t.users, st.t.reservations, st.writes, w, nym, d, v);
      case BeginUpdate(w, npub, d) =>
        var nym := ActiveOf(st.t.users, npub).value;
        QuietUnlocked(st.t.users, st.writes, nym);
        OpenedOk(st.t.users, st.t.reservations, st.writes, w, nym, d, st.t.users[nym].verification);
    }
  }

  lemma CommitUsers(users: map<Nym, User>, cap: int, writes: Writes, w: WorkerId)
    requires OneActive(users) && WithinCap(users, cap) && WritesOk(users, writes) && w in writes.pending
    ensures var write := writes.pending[w];
      write.nym in users && var users' := users[write.nym := Written(users[write.nym], write)];
      OneActive(users') && WithinCap(users', cap)
  {
    var write := writes.pending[w];
    assert WriteOk(users, writes, write);
    SameOwners(users, write.nym, Written(users[write.nym], write), cap);
  }

  lemma CommitRows(users: map<Nym, User>, rows: map<(Nym, string), Reservation>, writes: Writes, w: WorkerId)
    requires RowsOk(users, rows, writes) && WritesOk(users, writes) && Tracked(rows, writes) && w in writes.pending
    ensures var write := writes.pending[w]; var rows' := LeftBy(rows, write.doomed);
      write.nym in users && var users' := users[write.nym := Written(users[write.nym], write)];
      RowsOk(users', rows', Closed(writes, w)) && Tracked(rows', Closed(writes, w))
  {
    var write, writes' := writes.pending[w], Closed(writes, w);
    assert WriteOk(users, writes, write) && FoundOrBeside(rows, write);
    var users' := users[write.nym := Written(users[write.nym], write)];
    var rows' := LeftBy(rows, write.doomed);
    forall k | k in rows' ensures RowOk(users', writes', k, rows'[k]) {
      assert RowOk(users, writes, k, rows[k]);
    }
    forall x | x in writes'.pending ensures FoundOrBeside(rows', writes'.pending[x]) {
      assert FoundOrBeside(rows, writes.pending[x]);
    }
  }

  lemma CommitWrites(users: map<Nym, User>, writes: Writes, w: WorkerId)
    requires WritesOk(users, writes) && w in writes.pending
    ensures var write := writes.pending[w];
      write.nym in users && WritesOk(users[write.nym := Written(users[write.nym], write)], Closed(writes, w))
  {
    var write, writes' := writes.pending[w], Closed(writes, w);
    assert WriteOk(users, writes, write);
    forall x | x in writes'.pending
      ensures WriteOk(users[write.nym := Written(users[write.nym], write)], writes', writes'.pending[x])
    {
      assert WriteOk(users, writes, writes.pending[x]);
    }
  }

  lemma CommitKeeps(st: State, cap: int, w: WorkerId)
    requires Inv(st, cap) && w in st.writes.pending
    ensures st.writes.pending[w].nym in st.t.users && Inv(Commit(st, w), cap)
  {
    CommitUsers(st.t.users, cap, st.writes, w);
    CommitRows(st.t.users, st.t.reservations, st.writes, w);
    CommitWrites(st.t.users, st.writes, w);
  }

  lemma CrashKeeps(st: State, cap: int, w: WorkerId)
    requires Inv(st, cap)
    ensures Inv(Apply(st, cap, Crash(w)), cap)
  {
    var writes' := st.writes.(pending := st.writes.pending - {w});
    forall x | x in writes'.pending ensures WriteOk(st.t.users, writes', writes'.pending[x]) {
      assert WriteOk(st.t.users, st.writes, st.writes.pending[x]);
    }
    forall k | k in st.t.reservations ensures RowOk(st.t.users, writes', k, st.t.reservations[k]) {
      assert RowOk(st.t.users, st.writes, k, st.t.reservations[k]);
    }
  }

  // Purges.

  lemma BeginPurgeKeeps(st: State, cap: int, w: WorkerId, npub: Npub)
    requires Inv(st, cap)
    ensures Inv(Apply(st, cap, BeginPurge(w, npub)), cap)
  {
  }

  lemma FinishPurgeKeeps(st: State, cap: int, w: WorkerId)
    requires Inv(st, cap)
    ensures Inv(Apply(st, cap, FinishPurge(w)), cap)
  {
    if w in st.purging && st.purging[w] in st.t.users {
      var nym := st.purging[w];
      var row := st.t.users[nym].(active := false, descriptor := "");
      QuietUnlocked(st.t.users, st.writes, nym);
      SameOwners(st.t.users, nym, row, cap);
      WritesKept(st.t.users, st.writes, nym, row);
      RowsDropped(st.t.users, st.t.reservations, st.writes, nym, row);
      PurgedPurges(st, w);
    }
  }

  lemma PurgedPurges(st: State, w: WorkerId)
    requires PurgesSafe(st.t.users, st.t.swaps, st.purging) && w in st.purging && st.purging[w] in st.t.users
    ensures var t' := PurgeRows(st.t, st.purging[w]); PurgesSafe(t'.users, t'.swaps, st.purging - {w})
  {
    var t' := PurgeRows(st.t, st.purging[w]);
    forall nym | InFlight(st.t.swaps, nym) == {} ensures InFlight(t'.swaps, nym) == {} {
      assert InFlight(t'.swaps, nym) <= InFlight(st.t.swaps, nym);
    }
  }

  // Reservations.

  lemma InsertKeeps(st: State, cap: int, r: Read)
    requires Inv(st, cap)
    ensures Inv(st.(t := ReserveInsert(st.t, r, if r.Fresh? then Beside(st.writes, r.nym) else None)), cap)
  {
    if r.Fresh? && r.nym in st.t.users && (r.nym, r.outpoint) !in st.t.reservations {
      var row := Reservation(r.index, false, r.descriptor, st.t.users[r.nym].descriptor, Beside(st.writes, r.nym));
      InsertedOk(st.t.users, st.t.reservations, st.writes, (r.nym, r.outpoint), row);
    }
  }

  lemma InsertedOk(users: map<Nym, User>, rows: map<(Nym, string), Reservation>, writes: Writes, key: (Nym, string),
                   row: Reservation)
    requires WritesOk(users, writes) && RowsOk(users, rows, writes) && Tracked(rows, writes)
    requires key.0 in users && row.insertedUnder == users[key.0].descriptor && row.beside == Beside(writes, key.0)
    ensures RowsOk(users, rows[key := row], writes) && Tracked(rows[key := row], writes)
  {
    BesideIt(users, writes, key.0);
    forall w | w in writes.pending ensures FoundOrBeside(rows[key := row], writes.pending[w]) {
      assert FoundOrBeside(rows, writes.pending[w]);
    }
    var rows' := rows[key := row];
    forall k | k in rows' ensures RowOk(users, writes, k, rows'[k]) {
      if k != key {
        assert RowOk(users, writes, k, rows[k]);
      }
    }
  }

  lemma BesideIt(users: map<Nym, User>, writes: Writes, nym: Nym)
    requires WritesOk(users, writes) && nym in users
    ensures var id := Beside(writes, nym);
      && (forall w :: w in writes.pending ==> (id == Some(writes.pending[w].id) <==> writes.pending[w].nym == nym))
      && (id.Some? ==> id.value < writes.begun && id.value !in writes.committed)
  {
    forall w | w in writes.pending
      ensures Beside(writes, nym) == Some(writes.pending[w].id) <==> writes.pending[w].nym == nym
    {
      assert WriteOk(users, writes, writes.pending[w]);
    }
  }

  /** Rows only go, or are marked fulfilled. */
  lemma RowsMarked(users: map<Nym, User>, rows: map<(Nym, string), Reservation>, writes: Writes,
                   rows': map<(Nym, string), Reservation>)
    requires RowsOk(users, rows, writes) && Tracked(rows, writes)
    requires forall k :: k in rows' ==> k in rows && rows'[k] in {rows[k], rows[k].(fulfilled := true)}
    ensures RowsOk(users, rows', writes) && Tracked(rows', writes)
  {
    forall k | k in rows' ensures RowOk(users, writes, k, rows'[k]) {
      assert RowOk(users, writes, k, rows[k]);
    }
    forall w | w in writes.pending ensures FoundOrBeside(rows', writes.pending[w]) {
      assert FoundOrBeside(rows, writes.pending[w]);
    }
  }

  lemma ReserveKeeps(st: State, cap: int, step: Step)
    requires Inv(st, cap) && (step.BeginReserve? || step.FinishReserve? || step.ReserveAtOnce?)
    ensures Inv(Apply(st, cap, step), cap)
  {
    match step
    case BeginReserve(_, _, _) =>
    case FinishReserve(w) =>
      if w in st.readers {
        InsertKeeps(st, cap, st.readers[w]);
      }
    case ReserveAtOnce(nym, o) => InsertKeeps(st, cap, ReserveRead(st.t, nym, o));
  }

  lemma MarkingKeeps(st: State, cap: int, step: Step)
    requires Inv(st, cap) && (step.MarkFulfilled? || step.Prune?)
    ensures Inv(Apply(st, cap, step), cap)
  {
    OnlyMarks(st, cap, step);
    RowsMarked(st.t.users, st.t.reservations, st.writes, Apply(st, cap, step).t.reservations);
  }

  lemma OnlyMarks(st: State, cap: int, step: Step)
    requires step.MarkFulfilled? || step.Prune?
    ensures var rows, rows' := st.t.reservations, Apply(st, cap, step).t.reservations;
      forall k :: k in rows' ==> k in rows && rows'[k] in {rows[k], rows[k].(fulfilled := true)}
    ensures Apply(st, cap, step) == st.(t := st.t.(reservations := Apply(st, cap, step).t.reservations))
  {
  }

  lemma SwapKeeps(st: State, cap: int, step: Step)
    requires Inv(st, cap) && (step.RecordSwap? || step.SetSwapStatus?)
    ensures Inv(Apply(st, cap, step), cap)
  {
    OnlySwaps(st, cap, step);
  }

  lemma OnlySwaps(st: State, cap: int, step: Step)
    requires step.RecordSwap? || step.SetSwapStatus?
    ensures var swaps' := Apply(st, cap, step).t.swaps;
      && Apply(st, cap, step) == st.(t := st.t.(swaps := swaps'))
      && forall nym :: Purging(st.purging, nym) && InFlight(st.t.swaps, nym) == {} ==> InFlight(swaps', nym) == {}
  {
    var swaps' := Apply(st, cap, step).t.swaps;
    forall nym | Purging(st.purging, nym) && InFlight(st.t.swaps, nym) == {} ensures InFlight(swaps', nym) == {} {
      assert InFlight(swaps', nym) <= InFlight(st.t.swaps, nym);
    }
  }

  lemma StepKeeps(st: State, cap: int, step: Step)
    requires Inv(st, cap)
    ensures Inv(Apply(st, cap, step), cap)
  {
    match step
    case DoRegister(npub, nym, d, v) => RegisterKeeps(st, cap, npub, nym, d, v);
    case DoUpdate(npub, d) => UpdateKeeps(st, cap, npub, d);
    case BeginReactivate(_, _, _, _, _) => BeginKeeps(st, cap, step);
    case BeginUpdate(_, _, _) => BeginKeeps(st, cap, step);
    case CommitWrite(w) =>
      if w in st.writes.pending {
        CommitKeeps(st, cap, w);
      }
    case DoDeactivate(npub) => DeactivateKeeps(st, cap, npub);
    case MoveCursor(nym, idx) => CursorKeeps(st, cap, nym, idx);
    case BeginPurge(w, npub) => BeginPurgeKeeps(st, cap, w, npub);
    case FinishPurge(w) => FinishPurgeKeeps(st, cap, w);
    case Crash(w) => CrashKeeps(st, cap, w);
    case RecordSwap(_, _) => SwapKeeps(st, cap, step);
    case SetSwapStatus(_, _) => SwapKeeps(st, cap, step);
    case MarkFulfilled(_, _) => MarkingKeeps(st, cap, step);
    case Prune(_) => MarkingKeeps(st, cap, step);
    case _ => ReserveKeeps(st, cap, step);
  }

  lemma {:induction false} InvariantOfRuns(steps: seq<Step>, cap: int)
    ensures Inv(Run(steps, cap), cap)
  {
    if steps != [] {
      InvariantOfRuns(steps[..|steps|-1], cap);
      StepKeeps(Run(steps[..|steps|-1], cap), cap, steps[|steps|-1]);
    }
  }

  /** A descriptor write with nothing between its halves is the uninterrupted one. */
  lemma WholeUpdate(st: State, cap: int, w: WorkerId, npub: Npub, d: string)
    requires w !in st.writes.pending
    ensures Apply(Apply(st, cap, BeginUpdate(w, npub, d)), cap, CommitWrite(w)).t
      == Apply(st, cap, DoUpdate(npub, d)).t
  {
    if ActiveOf(st.t.users, npub).Some? && !ActiveLocked(st, npub) {
      WholeDelete(st.t.reservations, ActiveOf(st.t.users, npub).value);
    }
  }

  lemma WholeReactivation(st: State, cap: int, w: WorkerId, npub: Npub, nym: Nym, d: string, v: Npub)
    requires w !in st.writes.pending && IsLatestInactive(st.t.users, npub, nym)
    ensures Apply(Apply(st, cap, BeginReactivate(w, npub, nym, d, v)), cap, CommitWrite(w)).t
      == Apply(st, cap, DoRegister(npub, nym, d, v)).t
  {
    WholeDelete(st.t.reservations, nym);
  }

  lemma WholeDelete(rows: map<(Nym, string), Reservation>, nym: Nym)
    ensures LeftBy(rows, KeysOf(rows, nym)) == WithoutReservations(rows, nym)
  {
  }

  /** Main result: over any run, a key has at most one active nym and at most `cap` nyms in all. */
  lemma KeysWithinLimits(steps: seq<Step>, cap: int, npub: Npub)
    ensures var users := Run(steps, cap).t.users;
      && (forall a, b :: IsActive(users, npub, a) && IsActive(users, npub, b) ==> a == b)
      && (Owned(users, npub) == {} || |Owned(users, npub)| <= cap)
  {
    InvariantOfRuns(steps, cap);
  }

  /** Main result: a nym, once registered, stays with its key for ever. */
  lemma {:induction false} OwnerNeverChanges(steps: seq<Step>, cap: int, n: nat, nym: Nym)
    requires n <= |steps| && nym in Run(steps[..n], cap).t.users
    ensures nym in Run(steps, cap).t.users
        && Run(steps, cap).t.users[nym].npub == Run(steps[..n], cap).t.users[nym].npub
  {
    if n == |steps| {
      assert steps[..n] == steps;
    } else {
      var init := steps[..|steps|-1];
      assert init[..n] == steps[..n];
      OwnerNeverChanges(init, cap, n, nym);
      OwnerKept(Run(init, cap), cap, steps[|steps|-1], nym);
    }
  }

  lemma OwnerKept(st: State, cap: int, step: Step, nym: Nym)
    requires nym in st.t.users
    ensures nym in Apply(st, cap, step).t.users && Apply(st, cap, step).t.users[nym].npub == st.t.users[nym].npub
  {
  }

  /** Main result: whatever runs beside a purge between its check and its deletes, a swap row is deleted
      only when it is claimed or expired, and only by the purge of its nym. */
  lemma SwapDeletedOnlyWhenDone(steps: seq<Step>, cap: int, step: Step, id: SwapId)
    requires id in Run(steps, cap).t.swaps
    requires id !in Run(steps + [step], cap).t.swaps
    ensures var st := Run(steps, cap);
      && st.t.swaps[id].status in {Swaps.Claimed, Swaps.Expired}
      && step.FinishPurge? && step.w in st.purging && st.t.swaps[id].nym == Some(st.purging[step.w])
  {
    InvariantOfRuns(steps, cap);
    assert (steps + [step])[..|steps|] == steps;
    var st := Run(steps, cap);
    if st.t.swaps[id].status !in {Swaps.Claimed, Swaps.Expired} && step.FinishPurge? && step.w in st.purging {
      assert id !in InFlight(st.t.swaps, st.purging[step.w]);
    }
  }

  /** Main result: a cached reservation belongs to its nym's current descriptor exactly when its index was
      read under the descriptor in force when the row was inserted or, if a descriptor write was then past
      its delete and has committed since, under the one it committed. */
  lemma ReservationCurrentIff(steps: seq<Step>, cap: int, key: (Nym, string))
    requires key in Run(steps, cap).t.reservations
    ensures var st := Run(steps, cap); var row := st.t.reservations[key];
      key.0 in st.t.users && (row.readUnder == st.t.users[key.0].descriptor <==> row.readUnder == Under(st.writes, row))
  {
    InvariantOfRuns(steps, cap);
  }

  /** Neither the reservations nor the descriptor writes have anything in between. */
  predicate AtOnce(s: Step) {
    !s.BeginReserve? && !s.BeginUpdate? && !s.BeginReactivate?
  }

  /** So with transactions that nothing interrupts, every cached row is current. */
  lemma UninterruptedReservationsCurrent(steps: seq<Step>, cap: int)
    requires forall s :: s in steps ==> AtOnce(s)
    ensures var st := Run(steps, cap);
      && st.readers == map[]
      && forall k :: k in st.t.reservations
          ==> k.0 in st.t.users && st.t.reservations[k].readUnder == st.t.users[k.0].descriptor
  {
    InvariantOfRuns(steps, cap);
    ReadAsInserted(steps, cap);
    var st := Run(steps, cap);
    forall k | k in st.t.reservations
      ensures k.0 in st.t.users && st.t.reservations[k].readUnder == st.t.users[k.0].descriptor
    {
      assert RowOk(st.t.users, st.writes, k, st.t.reservations[k]);
    }
  }

  ghost predicate AllAsInserted(st: State) {
    && st.readers == map[] && st.writes.pending == map[]
    && forall k :: k in st.t.reservations ==>
         st.t.reservations[k].readUnder == st.t.reservations[k].insertedUnder && st.t.reservations[k].beside.None?
  }

  lemma StepAsInserted(st: State, cap: int, step: Step)
    requires AllAsInserted(st) && AtOnce(step)
    ensures AllAsInserted(Apply(st, cap, step))
  {
  }

  lemma {:induction false} ReadAsInserted(steps: seq<Step>, cap: int)
    requires forall s :: s in steps ==> AtOnce(s)
    ensures AllAsInserted(Run(steps, cap))
  {
    if steps != [] {
      ReadAsInserted(steps[..|steps|-1], cap);
      assert AtOnce(steps[|steps|-1]);
      StepAsInserted(Run(steps[..|steps|-1], cap), cap, steps[|steps|-1]);
    }
  }

  /** A reservation cached under one descriptor while another is the nym's. */
  ghost predicate LeftStale(t: Tables, nym: Nym, outpoint: string, before: string, after: string) {
    && (nym, outpoint) in t.reservations && t.reservations[(nym, outpoint)].readUnder == before
    && nym in t.users && t.users[nym].descriptor == after
  }

  /** One that a descriptor update interrupts is left behind stale. */
  lemma InterruptedReservation(npub: Npub, nym: Nym, outpoint: string, before: string, after: string, cap: int)
    requires before != after && cap >= 1
    ensures LeftStale(Run([DoRegister(npub, nym, before, npub)] + [BeginReserve(0, nym, outpoint)]
                          + [DoUpdate(npub, after)] + [FinishReserve(0)], cap).t, nym, outpoint, before, after)
  {
    var s1 := [DoRegister(npub, nym, before, npub)];
    FirstNym(npub, nym, before, cap);
    RunSnoc(s1, BeginReserve(0, nym, outpoint), cap);
    var s2 := s1 + [BeginReserve(0, nym, outpoint)];
    assert IsActive(Run(s2, cap).t.users, npub, nym);
    RunSnoc(s2, DoUpdate(npub, after), cap);
    RunSnoc(s2 + [DoUpdate(npub, after)], FinishReserve(0), cap);
  }

  /** And so is one made between the delete and the commit of an update, at once: the update deletes the
      reservation it found and leaves the one that came after. A nym used before is locked for neither. */
  lemma ReservationInTheGap(npub: Npub, nym: Nym, found: string, late: string, before: string, after: string, cap: int)
    requires before != after && found != late && cap >= 1
    ensures var t := Run([DoRegister(npub, nym, before, npub)] + [ReserveAtOnce(nym, found)]
                         + [BeginUpdate(0, npub, after)] + [ReserveAtOnce(nym, late)] + [CommitWrite(0)], cap).t;
      LeftStale(t, nym, late, before, after) && (nym, found) !in t.reservations
  {
    var s1 := [DoRegister(npub, nym, before, npub)];
    FirstNym(npub, nym, before, cap);
    RunSnoc(s1, ReserveAtOnce(nym, found), cap);
    var s2 := s1 + [ReserveAtOnce(nym, found)];
    RunSnoc(s2, BeginUpdate(0, npub, after), cap);
    var s3 := s2 + [BeginUpdate(0, npub, after)];
    RunSnoc(s3, ReserveAtOnce(nym, late), cap);
    RunSnoc(s3 + [ReserveAtOnce(nym, late)], CommitWrite(0), cap);
    FoundThenLate(Run(s1, cap), npub, nym, found, late, before, after, cap);
  }

  lemma FoundThenLate(st: State, npub: Npub, nym: Nym, found: string, late: string, before: string, after: string,
                      cap: int)
    requires before != after && found != late && IsActive(st.t.users, npub, nym) && OneActive(st.t.users)
    requires st.t.users[nym].descriptor == before && st.t.reservations == map[]
    requires st.purging == map[] && st.writes.pending == map[]
    ensures var st' := Apply(Apply(st, cap, ReserveAtOnce(nym, found)), cap, BeginUpdate(0, npub, after));
      var t := Apply(Apply(st', cap, ReserveAtOnce(nym, late)), cap, CommitWrite(0)).t;
      LeftStale(t, nym, late, before, after) && (nym, found) !in t.reservations
  {
    var st1 := Apply(st, cap, ReserveAtOnce(nym, found));
    var st2 := Apply(st1, cap, BeginUpdate(0, npub, after));
    assert st2 == BeginWrite(st1, 0, nym, after, st.t.users[nym].verification);
    var st3 := Apply(st2, cap, ReserveAtOnce(nym, late));
    assert (nym, late) in st3.t.reservations && (nym, late) !in st3.writes.pending[0].doomed;
  }

  // --- Coming back to a nym ---

  /** Rows are numbered as they are inserted, and the active nym of a key is its newest. */
  ghost predicate NewestActive(users: map<Nym, User>) {
    && (forall n :: n in users ==> users[n].createdAt < |users|)
    && (forall a, b :: a in users && b in users && users[a].npub == users[b].npub && users[a].active
          ==> users[b].createdAt <= users[a].createdAt)
    && (forall a, b :: a in users && b in users && users[a].createdAt == users[b].createdAt ==> a == b)
  }

  lemma SizeOfUpdate(users: map<Nym, User>, nym: Nym, row: User)
    ensures |users[nym := row]| == |users| + if nym in users then 0 else 1
  {
    assert users[nym := row].Keys == users.Keys + {nym};
  }

  lemma ReactivateNewest(users: map<Nym, User>, nym: Nym, row: User)
    requires NewestActive(users) && nym in users && row.npub == users[nym].npub && row.createdAt == users[nym].createdAt
    requires forall n :: n in users && users[n].npub == row.npub ==> users[n].createdAt <= row.createdAt
    ensures NewestActive(users[nym := row])
  {
    SizeOfUpdate(users, nym, row);
  }

  lemma CreateNewest(users: map<Nym, User>, nym: Nym, row: User)
    requires NewestActive(users) && nym !in users && row.createdAt == |users|
    requires forall n :: n in users && users[n].npub == row.npub ==> !users[n].active
    ensures NewestActive(users[nym := row])
  {
    SizeOfUpdate(users, nym, row);
  }

  lemma RegisterNewest(t: Tables, npub: Npub, nym: Nym, d: string, v: Npub, cap: int)
    requires NewestActive(t.users)
    ensures NewestActive(Register(t, npub, nym, d, v, cap).0.users)
  {
    if ActiveOf(t.users, npub).None? {
      NotActive(t.users, npub);
      if IsLatestInactive(t.users, npub, nym) {
        ReactivateNewest(t.users, nym, t.users[nym].(descriptor := d, verification := v, active := true));
      } else if nym !in t.users {
        CreateNewest(t.users, nym, User(npub, d, v, 0, true, |t.users|));
      }
    }
  }

  lemma NotActive(users: map<Nym, User>, npub: Npub)
    requires ActiveOf(users, npub).None?
    ensures forall n :: n in users && users[n].npub == npub ==> !users[n].active
  {
    forall n | n in users && users[n].npub == npub ensures !users[n].active {
      assert !IsActive(users, npub, n);
    }
  }

  /** A write that leaves owner and age, and activates nobody. */
  ghost predicate QuietWrite(users: map<Nym, User>, nym: Nym, row: User) {
    nym in users && row.npub == users[nym].npub && row.createdAt == users[nym].createdAt
        && (row.active ==> users[nym].active)
  }

  lemma WriteNewest(users: map<Nym, User>, nym: Nym, row: User)
    requires NewestActive(users) && QuietWrite(users, nym, row)
    ensures NewestActive(users[nym := row])
  {
    SizeOfUpdate(users, nym, row);
  }

  /** The one user row a step other than a registration or a commit may write. */
  ghost function WrittenRow(st: State, step: Step): Nym {
    match step
    case DoUpdate(npub, _) => ActiveOf(st.t.users, npub).GetOr("")
    case DoDeactivate(npub) => ActiveOf(st.t.users, npub).GetOr("")
    case FinishPurge(w) => if w in st.purging then st.purging[w] else ""
    case MoveCursor(nym, _) => nym
    case _ => ""
  }

  /** Every other step writes at most one user row, quietly. */
  lemma UsersStep(st: State, cap: int, step: Step)
    requires !step.DoRegister? && !step.CommitWrite?
    ensures var (users', nym) := (Apply(st, cap, step).t.users, WrittenRow(st, step));
      users' == st.t.users || (nym in users' && QuietWrite(st.t.users, nym, users'[nym])
          && users' == st.t.users[nym := users'[nym]])
  {
  }

  lemma CommitNewest(st: State, w: WorkerId)
    requires NewestActive(st.t.users) && w in st.writes.pending && WriteOk(st.t.users, st.writes, st.writes.pending[w])
    ensures NewestActive(Commit(st, w).t.users)
  {
    var write := st.writes.pending[w];
    var row := Written(st.t.users[write.nym], write);
    if st.t.users[write.nym].active {
      WriteNewest(st.t.users, write.nym, row);
    } else {
      ReactivateNewest(st.t.users, write.nym, row);
    }
  }

  lemma StepNewest(st: State, cap: int, step: Step)
    requires NewestActive(st.t.users) && Inv(st, cap)
    ensures NewestActive(Apply(st, cap, step).t.users)
  {
    if step.DoRegister? {
      RegisterNewest(st.t, step.npub, step.nym, step.descriptor, step.verification, cap);
    } else if step.CommitWrite? {
      if step.w in st.writes.pending {
        CommitNewest(st, step.w);
      }
    } else {
      UsersStep(st, cap, step);
      if Apply(st, cap, step).t.users != st.t.users {
        WriteNewest(st.t.users, WrittenRow(st, step), Apply(st, cap, step).t.users[WrittenRow(st, step)]);
      }
    }
  }

  lemma {:induction false} NewestActiveOfRuns(steps: seq<Step>, cap: int)
    ensures NewestActive(Run(steps, cap).t.users)
  {
    if steps != [] {
      NewestActiveOfRuns(steps[..|steps|-1], cap);
      InvariantOfRuns(steps[..|steps|-1], cap);
      StepNewest(Run(steps[..|steps|-1], cap), cap, steps[|steps|-1]);
    }
  }

  /** Main result: after any run, a key that deactivates or purges its nym gets it back by registering it
      again, whatever its quota, under the new descriptor, with the cursor where it was and no cached
      reservation. */
  lemma OwnerCanReturn(steps: seq<Step>, cap: int, npub: Npub, nym: Nym, d: string, v: Npub, purge: bool)
    requires var t := Run(steps, cap).t; ActiveOf(t.users, npub) == Some(nym) && (purge ==> Purge(t, npub).1.Purged?)
    ensures var t := Run(steps, cap).t;
      var gone := if purge then Purge(t, npub).0 else Deactivate(t, npub);
      var (t', outcome) := Register(gone, npub, nym, d, v, cap);
      && outcome == Reactivated(nym) && IsActive(t'.users, npub, nym)
      && t'.users[nym].descriptor == d && t'.users[nym].nextAddrIdx == t.users[nym].nextAddrIdx
      && forall k :: k in t'.reservations ==> k.0 != nym
  {
    InvariantOfRuns(steps, cap);
    NewestActiveOfRuns(steps, cap);
    var t := Run(steps, cap).t;
    var gone := if purge then Purge(t, npub).0 else Deactivate(t, npub);
    forall n ensures !IsActive(gone.users, npub, n) {
      assert n in t.users && t.users[n].npub == npub && t.users[n].active ==> n == nym;
    }
  }

  ghost predicate NewestOf(users: map<Nym, User>, npub: Npub, nym: Nym)
    requires nym in users
  {
    forall n :: n in users && users[n].npub == npub ==> users[n].createdAt <= users[nym].createdAt
  }

  /** But only to the newest: without an active nym a key is given an older one of its own exactly when it
      has none newer; otherwise registering it fails and changes nothing. */
  lemma ReturnIff(steps: seq<Step>, cap: int, npub: Npub, nym: Nym, d: string, v: Npub)
    requires var t := Run(steps, cap).t; ActiveOf(t.users, npub).None? && nym in t.users && t.users[nym].npub == npub
    ensures var t := Run(steps, cap).t; var (t', outcome) := Register(t, npub, nym, d, v, cap);
      var newest := NewestOf(t.users, npub, nym);
      && (outcome == Reactivated(nym) <==> newest)
      && (!newest ==> t' == t && (outcome.QuotaExceeded? || outcome.NymTaken?))
  {
    NotActive(Run(steps, cap).t.users, npub);
  }

  function TwoNyms(npub: Npub, older: Nym, newer: Nym, d: string): seq<Step> {
    [DoRegister(npub, older, d, npub)] + [DoDeactivate(npub)]
      + [DoRegister(npub, newer, d, npub)] + [DoDeactivate(npub)]
  }

  /** The run that loses a nym: register one, leave it, register and leave another, and come back. */
  lemma OlderNymLost(npub: Npub, older: Nym, newer: Nym, d: string, cap: int)
    requires older != newer && cap >= 2
    ensures var t := Run(TwoNyms(npub, older, newer, d), cap).t;
      && older in t.users && t.users[older].npub == npub && ActiveOf(t.users, npub).None?
      && Register(t, npub, older, d, npub, cap) == (t, if cap > 2 then NymTaken else QuotaExceeded(2))
  {
    var gone := [DoRegister(npub, older, d, npub)] + [DoDeactivate(npub)];
    LeftOne(npub, older, d, cap);
    RunSnoc(gone, DoRegister(npub, newer, d, npub), cap);
    SecondNym(Run(gone, cap), npub, older, newer, d, cap);
    var third := gone + [DoRegister(npub, newer, d, npub)];
    LeaveNym(Run(third, cap), npub, newer, cap);
    RunSnoc(third, DoDeactivate(npub), cap);
    BackToOlder(Run(third + [DoDeactivate(npub)], cap).t, npub, older, newer, d, cap);
  }

  lemma LeftOne(npub: Npub, nym: Nym, d: string, cap: int)
    requires cap >= 2
    ensures Run([DoRegister(npub, nym, d, npub)] + [DoDeactivate(npub)], cap)
         == Empty.(t := Tables(map[nym := User(npub, d, npub, 0, false, 0)], map[], map[]))
  {
    FirstNym(npub, nym, d, cap);
    RunSnoc([DoRegister(npub, nym, d, npub)], DoDeactivate(npub), cap);
    var st := Empty.(t := Tables(map[nym := User(npub, d, npub, 0, true, 0)], map[], map[]));
    assert IsActive(st.t.users, npub, nym);
    LeaveNym(st, npub, nym, cap);
  }

  lemma RunSnoc(steps: seq<Step>, step: Step, cap: int)
    ensures Run(steps + [step], cap) == Apply(Run(steps, cap), cap, step)
  {
    assert (steps + [step])[..|steps|] == steps;
  }

  lemma BackToOlder(t: Tables, npub: Npub, older: Nym, newer: Nym, d: string, cap: int)
    requires older != newer && cap >= 2 && t.users.Keys == {older, newer}
    requires forall n :: n in t.users ==> t.users[n].npub == npub && !t.users[n].active
    requires t.users[older].createdAt < t.users[newer].createdAt
    ensures ActiveOf(t.users, npub).None?
    ensures Register(t, npub, older, d, npub, cap) == (t, if cap > 2 then NymTaken else QuotaExceeded(2))
  {
    assert Owned(t.users, npub) == {older, newer};
    assert !IsLatestInactive(t.users, npub, older);
  }

  lemma FirstNym(npub: Npub, nym: Nym, d: string, cap: int)
    requires cap >= 1
    ensures Run([DoRegister(npub, nym, d, npub)], cap)
         == Empty.(t := Tables(map[nym := User(npub, d, npub, 0, true, 0)], map[], map[]))
  {
    assert [DoRegister(npub, nym, d, npub)][..0] == [];
    assert Owned(Empty.t.users, npub) == {};
  }

  lemma LeaveNym(st: State, npub: Npub, nym: Nym, cap: int)
    requires IsActive(st.t.users, npub, nym) && OneActive(st.t.users) && st.purging == map[]
    requires st.writes.pending == map[]
    ensures Apply(st, cap, DoDeactivate(npub))
        == st.(t := st.t.(users := st.t.users[nym := st.t.users[nym].(active := false)]))
  {
  }

  lemma SecondNym(st: State, npub: Npub, older: Nym, newer: Nym, d: string, cap: int)
    requires cap >= 2 && older != newer && st.t.users.Keys == {older}
    requires st.t.users[older].npub == npub && !st.t.users[older].active && st.writes.pending == map[]
    ensures Apply(st, cap, DoRegister(npub, newer, d, npub))
         == st.(t := st.t.(users := st.t.users[newer := User(npub, d, npub, 0, true, 1)]))
  {
    assert Owned(st.t.users, npub) == {older};
    assert |st.t.users.Keys| == 1;
  }
}

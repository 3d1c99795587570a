/** What every registration transaction answers, exactly when, and what it leaves in which row. */
module RegistrationColumns {
  import opened Base
  import opened Chain
  import opened Registration
  import opened RegistrationProofs
  import Swaps

  ghost predicate HasActive(users: map<Nym, User>, npub: Npub) {
    exists n :: IsActive(users, npub, n)
  }

  /** Only the row of `nym` may differ, and no row goes. */
  ghost predicate OthersKept(a: map<Nym, User>, b: map<Nym, User>, nym: Nym) {
    a.Keys <= b.Keys && forall n :: n in b && n != nym ==> n in a && b[n] == a[n]
  }

  /** The nym's reservations are gone, and no others. */
  ghost predicate NymForgotten(a: map<(Nym, string), Reservation>, b: map<(Nym, string), Reservation>, nym: Nym) {
    forall k :: (k in b <==> k in a && k.0 != nym) && (k in b ==> b[k] == a[k])
  }

  lemma ForgottenIsWithout(a: map<(Nym, string), Reservation>, nym: Nym)
    ensures NymForgotten(a, WithoutReservations(a, nym), nym)
  {
  }

  // --- Registration ---

  /** The answers, each exactly when: the key has an active nym; the nym is its newest; it has had `cap` nyms; the
      nym is somebody's; none of these. */
  lemma RegisterAnswers(t: Tables, npub: Npub, nym: Nym, d: string, v: Npub, cap: int)
    ensures var r := Register(t, npub, nym, d, v, cap).1;
      var mine := nym in t.users && NewestOf(t.users, npub, nym) && t.users[nym].npub == npub;
      var had := |set n | n in t.users && t.users[n].npub == npub|;
      if HasActive(t.users, npub) then r.KeyAlreadyRegistered? && IsActive(t.users, npub, r.active)
      else if mine then r == Reactivated(nym)
      else if had >= cap then r == QuotaExceeded(had)
      else if nym in t.users then r == NymTaken
      else r == Created(nym)
  {
    assert Owned(t.users, npub) == set n | n in t.users && t.users[n].npub == npub;
    if !HasActive(t.users, npub) {
      NotActive(t.users, npub);
    }
  }

  /** What it leaves: a refusal nothing new; a registered nym active under the new descriptor, its cursor where it
      was, or at zero for a new one; its reservations gone if there were any; everything else as it was. */
  lemma RegisterLeaves(t: Tables, npub: Npub, nym: Nym, d: string, v: Npub, cap: int)
    ensures var (t', r) := Register(t, npub, nym, d, v, cap);
      if r.Created? || r.Reactivated? then
        && nym in t'.users && OthersKept(t.users, t'.users, nym) && t'.swaps == t.swaps
        && t'.users[nym].npub == npub && t'.users[nym].active
        && t'.users[nym].descriptor == d && t'.users[nym].verification == v
        && (if r.Created? then t'.users[nym].nextAddrIdx == 0 && t'.reservations == t.reservations
            else nym in t.users && t'.users[nym].nextAddrIdx == t.users[nym].nextAddrIdx
                 && NymForgotten(t.reservations, t'.reservations, nym))
      else t' == t
  {
    ForgottenIsWithout(t.reservations, nym);
  }

  /** An update writes the descriptor of the active nym and forgets its reservations. */
  lemma UpdateLeaves(t: Tables, npub: Npub, d: string)
    ensures var t' := UpdateDescriptor(t, npub, d);
      if HasActive(t.users, npub) then
        exists n :: IsActive(t.users, npub, n) && n in t'.users && OthersKept(t.users, t'.users, n)
          && t'.users[n] == t.users[n].(descriptor := d) && NymForgotten(t.reservations, t'.reservations, n)
          && t'.swaps == t.swaps
      else t' == t
  {
    if HasActive(t.users, npub) {
      ForgottenIsWithout(t.reservations, ActiveOf(t.users, npub).value);
    }
  }

  /** A deactivation clears the flag of the active nym. */
  lemma DeactivateLeaves(t: Tables, npub: Npub)
    ensures var t' := Deactivate(t, npub);
      if HasActive(t.users, npub) then
        exists n :: IsActive(t.users, npub, n) && n in t'.users && OthersKept(t.users, t'.users, n)
          && t'.users[n] == t.users[n].(active := false)
          && t'.reservations == t.reservations && t'.swaps == t.swaps
      else t' == t
  {
  }

  // --- Purge ---

  /** No swap of the nym is still under way. */
  ghost predicate AllDone(swaps: map<SwapId, SwapRef>, nym: Nym) {
    forall id :: id in swaps && swaps[id].nym == Some(nym) ==>
      swaps[id].status == Swaps.Claimed || swaps[id].status == Swaps.Expired
  }

  ghost function UnderWay(swaps: map<SwapId, SwapRef>, nym: Nym): set<SwapId> {
    set id | id in swaps && swaps[id].nym == Some(nym)
      && swaps[id].status != Swaps.Claimed && swaps[id].status != Swaps.Expired
  }

  /** A purge is carried out exactly when the key has an active nym all of whose swaps are claimed or expired; it
      is refused with the number of the others, or because there is no active nym, and then changes nothing. */
  lemma PurgeIff(t: Tables, npub: Npub)
    requires OneActive(t.users)
    ensures var (t', r) := Purge(t, npub);
      && (r.NotFound? <==> !HasActive(t.users, npub))
      && (r.Purged? <==> exists n :: IsActive(t.users, npub, n) && AllDone(t.swaps, n))
      && (r.Purged? ==> IsActive(t.users, npub, r.nym) && Purged(t, t', r.nym))
      && (!r.Purged? ==> t' == t)
      && (r.InFlightSwaps? ==> exists n :: IsActive(t.users, npub, n) && r.count == |UnderWay(t.swaps, n)|)
  {
    if HasActive(t.users, npub) {
      var n := ActiveOf(t.users, npub).value;
      assert InFlight(t.swaps, n) == UnderWay(t.swaps, n);
      InFlightIff(t.swaps, n);
      ForgottenIsWithout(t.reservations, n);
    }
  }

  lemma InFlightIff(swaps: map<SwapId, SwapRef>, nym: Nym)
    ensures InFlight(swaps, nym) == {} <==> AllDone(swaps, nym)
  {
    if InFlight(swaps, nym) == {} {
      forall id | id in swaps && swaps[id].nym == Some(nym)
        ensures swaps[id].status == Swaps.Claimed || swaps[id].status == Swaps.Expired
      {
        assert id !in InFlight(swaps, nym);
      }
    }
  }

  /** Of the nym no swap and no reservation is left, and its row is inactive with an empty descriptor, its owner,
      cursor and age kept; nothing else changes. */
  ghost predicate Purged(t: Tables, t': Tables, nym: Nym) {
    && nym in t.users && nym in t'.users && OthersKept(t.users, t'.users, nym)
    && t'.users[nym] == t.users[nym].(active := false, descriptor := "")
    && NymForgotten(t.reservations, t'.reservations, nym)
    && forall id :: (id in t'.swaps <==> id in t.swaps && t.swaps[id].nym != Some(nym))
         && (id in t'.swaps ==> t'.swaps[id] == t.swaps[id])
  }

  /** The two halves of a purge with nothing in between are the purge, if no lock is in the way. */
  lemma WholePurge(st: State, cap: int, w: WorkerId, npub: Npub)
    requires w !in st.purging && !ActiveLocked(st, npub)
    ensures Apply(Apply(st, cap, BeginPurge(w, npub)), cap, FinishPurge(w)).t == Purge(st.t, npub).0
    ensures Apply(Apply(st, cap, BeginPurge(w, npub)), cap, FinishPurge(w)).purging == st.purging
  {
    if ActiveOf(st.t.users, npub).Some? && InFlight(st.t.swaps, ActiveOf(st.t.users, npub).value) == {} {
      var n := ActiveOf(st.t.users, npub).value;
      assert st.purging[w := n] - {w} == st.purging;
    } else {
      assert Apply(st, cap, BeginPurge(w, npub)) == st;
    }
  }

  /** And a purge that begins is one whose nym is active and done. */
  lemma BeginPurgeIff(st: State, cap: int, w: WorkerId, npub: Npub)
    requires w !in st.purging
    ensures var st' := Apply(st, cap, BeginPurge(w, npub));
      && (w in st'.purging <==>
            HasActive(st.t.users, npub) && !ActiveLocked(st, npub)
            && AllDone(st.t.swaps, ActiveOf(st.t.users, npub).value))
      && st'.t == st.t
  {
    if HasActive(st.t.users, npub) {
      InFlightIff(st.t.swaps, ActiveOf(st.t.users, npub).value);
    }
  }

  // --- Reservations ---

  /** A reservation answers the cached index if there is one; otherwise it caches the cursor of the nym's active
      row, unfulfilled; without an active row it does nothing. Nothing else changes. */
  lemma ReserveLeaves(t: Tables, nym: Nym, outpoint: string, beside: Option<WriteId>)
    ensures var key := (nym, outpoint); var t' := ReserveInsert(t, ReserveRead(t, nym, outpoint), beside);
      && (forall k :: k != key ==>
            && (k in t'.reservations <==> k in t.reservations)
            && (k in t.reservations ==> t'.reservations[k] == t.reservations[k]))
      && t'.users == t.users && t'.swaps == t.swaps
      && (if key in t.reservations then
            && ReserveRead(t, nym, outpoint) == Cached(t.reservations[key].addrIndex)
            && key in t'.reservations && t'.reservations[key] == t.reservations[key]
          else if nym in t.users && t.users[nym].active then
            && key in t'.reservations
            && t'.reservations[key].addrIndex == t.users[nym].nextAddrIdx && !t'.reservations[key].fulfilled
          else key !in t'.reservations)
  {
  }

  /** So the index answered for an outpoint never changes while it is cached, wherever the cursor goes. */
  lemma ReserveAgain(t: Tables, nym: Nym, outpoint: string, beside: Option<WriteId>, users: map<Nym, User>)
    requires nym in t.users && t.users[nym].active && (nym, outpoint) !in t.reservations
    ensures var t' := ReserveInsert(t, ReserveRead(t, nym, outpoint), beside).(users := users);
      ReserveRead(t', nym, outpoint) == Cached(t.users[nym].nextAddrIdx)
  {
  }

  // --- Who waits for whom ---

  /** A purge of the nym is past its check. */
  ghost predicate PurgeUnderWay(st: State, nym: Nym) {
    exists w :: w in st.purging && st.purging[w] == nym
  }

  /** A descriptor write has deleted this reservation and not committed. */
  ghost predicate DeleteUnderWay(st: State, key: (Nym, string)) {
    exists w :: w in st.writes.pending && key in st.writes.pending[w].doomed
  }

  /** A reservation that has read waits for a purge of its nym and for a delete of its key; otherwise it inserts what
      it read, unless somebody was faster, and is done. */
  lemma FinishReserveIff(st: State, cap: int, w: WorkerId)
    requires w in st.readers
    ensures var st', r := Apply(st, cap, FinishReserve(w)), st.readers[w];
      if r.Fresh? && (PurgeUnderWay(st, r.nym) || DeleteUnderWay(st, (r.nym, r.outpoint))) then st' == st
      else
        && st' == st.(t := st.t.(reservations := st'.t.reservations), readers := st.readers - {w})
        && (r.Fresh? && r.nym in st.t.users && (r.nym, r.outpoint) !in st.t.reservations ==>
              var (key, rows') := ((r.nym, r.outpoint), st'.t.reservations);
              key in rows' && rows'[key].addrIndex == r.index && rows' == st.t.reservations[key := rows'[key]])
        && (!r.Fresh? || (r.nym, r.outpoint) in st.t.reservations ==> st'.t == st.t)
  {
  }

  /** One made at once waits for a purge of its nym. */
  lemma ReserveAtOnceIff(st: State, cap: int, nym: Nym, outpoint: string)
    ensures var st' := Apply(st, cap, ReserveAtOnce(nym, outpoint));
      if PurgeUnderWay(st, nym) then st' == st
      else st'.t == ReserveInsert(st.t, ReserveRead(st.t, nym, outpoint), Beside(st.writes, nym))
           && st' == st.(t := st'.t)
  {
  }

  /** A payment's mark waits for a delete of its reservation. */
  lemma MarkWaitsIff(st: State, cap: int, nym: Nym, outpoint: string)
    requires (nym, outpoint) in st.t.reservations && !st.t.reservations[(nym, outpoint)].fulfilled
    ensures var rows := Apply(st, cap, MarkFulfilled(nym, outpoint)).t.reservations;
      (nym, outpoint) in rows && (rows[(nym, outpoint)].fulfilled <==> !DeleteUnderWay(st, (nym, outpoint)))
  {
  }

  /** A registration waits for a reactivation of a nym of the same key, and for nothing else. */
  lemma RegisterWaitsIff(st: State, cap: int, npub: Npub, nym: Nym, d: string, v: Npub)
    ensures var st' := Apply(st, cap, DoRegister(npub, nym, d, v));
      if exists w :: w in st.writes.pending && st.writes.pending[w].nym in st.t.users
           && st.t.users[st.writes.pending[w].nym].npub == npub && !st.t.users[st.writes.pending[w].nym].active
      then st' == st
      else st' == st.(t := Register(st.t, npub, nym, d, v, cap).0)
  {
  }

  /** A crash rolls back what its worker was at: its purge, its descriptor write and its reservation. */
  lemma CrashRollsBack(st: State, cap: int, w: WorkerId)
    ensures var st' := Apply(st, cap, Crash(w));
      && w !in st'.purging && w !in st'.writes.pending && w !in st'.readers && st'.t == st.t
      && (forall x :: x != w ==> (x in st'.purging <==> x in st.purging) && (x in st'.readers <==> x in st.readers)
                                 && (x in st'.writes.pending <==> x in st.writes.pending))
  {
  }

  /** Who writes the descriptor of the nym in this step. */
  ghost predicate WritesDescriptor(st: State, step: Step, nym: Nym) {
    match step
    case DoRegister(_, n, _, _) => n == nym
    case DoUpdate(npub, _) => IsActive(st.t.users, npub, nym)
    case CommitWrite(w) => w in st.writes.pending && st.writes.pending[w].nym == nym
    case FinishPurge(w) => w in st.purging && st.purging[w] == nym
    case _ => false
  }

  ghost predicate KeptOrDroppedBy(st: State, cap: int, step: Step, key: (Nym, string))
    requires key in st.t.reservations
  {
    var rows, rows' := st.t.reservations, Apply(st, cap, step).t.reservations;
    if key in rows' then
      rows'[key].addrIndex == rows[key].addrIndex && (rows[key].fulfilled ==> rows'[key].fulfilled)
    else WritesDescriptor(st, step, key.0) || (step.Prune? && key in step.keys && !rows[key].fulfilled)
  }

  lemma DroppedByOwner(st: State, cap: int, step: Step, key: (Nym, string))
    requires key in st.t.reservations && Inv(st, cap)
    requires step.DoRegister? || step.DoUpdate? || step.CommitWrite? || step.FinishPurge?
    ensures KeptOrDroppedBy(st, cap, step, key)
  {
    if step.CommitWrite? && step.w in st.writes.pending {
      assert WriteOk(st.t.users, st.writes, st.writes.pending[step.w]);
    }
  }

  lemma DroppedByPrune(st: State, cap: int, step: Step, key: (Nym, string))
    requires key in st.t.reservations
    requires step.Prune? || step.MarkFulfilled? || step.ReserveAtOnce? || step.FinishReserve?
    ensures KeptOrDroppedBy(st, cap, step, key)
  {
  }

  predicate TouchesReservations(step: Step) {
    step.DoRegister? || step.DoUpdate? || step.CommitWrite? || step.FinishPurge? || step.Prune? || step.MarkFulfilled?
        || step.ReserveAtOnce? || step.FinishReserve?
  }

  lemma OthersLeaveReservations(st: State, cap: int, step: Step)
    requires !TouchesReservations(step)
    ensures Apply(st, cap, step).t.reservations == st.t.reservations
  {
  }

  /** Main result: a cached reservation goes only with a descriptor write or a purge of its nym, or when a prune
      names it while it is not fulfilled; and what stays keeps its index, and a fulfilled one its mark. */
  lemma ReservationDroppedBy(st: State, cap: int, step: Step, key: (Nym, string))
    requires key in st.t.reservations && Inv(st, cap)
    ensures KeptOrDroppedBy(st, cap, step, key)
  {
    if step.DoRegister? || step.DoUpdate? || step.CommitWrite? || step.FinishPurge? {
      DroppedByOwner(st, cap, step, key);
    } else if TouchesReservations(step) {
      DroppedByPrune(st, cap, step, key);
    } else {
      OthersLeaveReservations(st, cap, step);
    }
  }

  /** The row a payment fulfils, and the rows a prune takes. */
  lemma MarkedAndPruned(st: State, cap: int, nym: Nym, outpoint: string, keys: set<(Nym, string)>)
    requires st.writes.pending == map[]
    ensures var rows := st.t.reservations;
      var marked, pruned := Apply(st, cap, MarkFulfilled(nym, outpoint)).t.reservations,
                            Apply(st, cap, Prune(keys)).t.reservations;
      && marked.Keys == rows.Keys
      && (forall k :: k in rows ==>
            marked[k] == if k == (nym, outpoint) then rows[k].(fulfilled := true) else rows[k])
      && (forall k :: k in pruned <==> k in rows && (k !in keys || rows[k].fulfilled))
      && (forall k :: k in pruned ==> pruned[k] == rows[k])
  {
    assert forall k :: !Doomed(st.writes, k);
  }

  /** A swap is recorded pending for a registered nym no purge holds, or for none; its status then moves until it
      has ended. */
  lemma SwapSteps(st: State, cap: int, id: SwapId, payee: Option<Nym>, status: Swaps.SwapStatus)
    ensures var swaps := st.t.swaps;
      var added := Apply(st, cap, RecordSwap(id, payee)).t.swaps;
      var moved := Apply(st, cap, SetSwapStatus(id, status)).t.swaps;
      && (id in added <==>
            id in swaps || payee.None? || (payee.value in st.t.users && !Purging(st.purging, payee.value)))
      && (id in added && id !in swaps ==> added[id] == SwapRef(payee, Swaps.Pending))
      && (id in swaps ==> added == swaps && id in moved && moved[id].nym == swaps[id].nym)
      && (id in swaps ==> moved[id].status == if HasEnded(swaps[id]) then swaps[id].status else status)
  {
  }

  predicate HasEnded(swap: SwapRef) {
    swap.status in {Swaps.Claimed, Swaps.Expired, Swaps.ClaimStuck, Swaps.LockupRefunded}
  }

  /** The cursor of a row nobody holds is moved, and nothing else. */
  lemma CursorStep(st: State, cap: int, nym: Nym, idx: int)
    ensures var st' := Apply(st, cap, MoveCursor(nym, idx));
      && st' == st.(t := st.t.(users := st'.t.users)) && OthersKept(st.t.users, st'.t.users, nym)
      && (nym in st.t.users ==>
            && nym in st'.t.users
            && st'.t.users[nym] == if Locked(st, nym) then st.t.users[nym] else st.t.users[nym].(nextAddrIdx := idx))
  {
  }
}

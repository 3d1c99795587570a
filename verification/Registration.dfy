/** The registration tables: nyms and their owners, the cached LUD-22 reservations, and the swap rows a
    purge may delete. Each function is the effect of one transaction, or of one half of it. */
module Registration {
  import opened Base
  import opened Chain
  import Swaps

  type Nym = string
  type Npub = string
  /** Numbers the descriptor writes. */
  type WriteId = nat

  /** `createdAt` is the order of insertion: rows are never deleted. */
  datatype User = User(
    npub: Npub,
    descriptor: string,
    verification: Npub,
    nextAddrIdx: int,
    active: bool,
    createdAt: nat)

  /** The last three columns are bookkeeping: the nym's descriptor when the index was read and when the row
      was inserted, and the descriptor write that was then past its delete and not yet committed. */
  datatype Reservation = Reservation(
    addrIndex: int,
    fulfilled: bool,
    readUnder: string,
    insertedUnder: string,
    beside: Option<WriteId>)

  datatype SwapRef = SwapRef(nym: Option<Nym>, status: Swaps.SwapStatus)

  datatype Tables = Tables(
    users: map<Nym, User>,
    reservations: map<(Nym, string), Reservation>,
    swaps: map<SwapId, SwapRef>)

  datatype RegisterOutcome =
    | Created(nym: Nym)
    | Reactivated(nym: Nym)
    | KeyAlreadyRegistered(active: Nym)
    | QuotaExceeded(used: nat)
    | NymTaken

  datatype PurgeOutcome = Purged(nym: Nym) | NotFound | InFlightSwaps(count: nat)

  predicate IsActive(users: map<Nym, User>, npub: Npub, nym: Nym) {
    nym in users && users[nym].npub == npub && users[nym].active
  }

  /** The row of the partial unique index on active keys. */
  ghost function ActiveOf(users: map<Nym, User>, npub: Npub): (r: Option<Nym>)
    ensures r.Some? ==> IsActive(users, npub, r.value)
    ensures r.None? ==> forall n :: !IsActive(users, npub, n)
  {
    if exists n :: IsActive(users, npub, n) then var n :| IsActive(users, npub, n); Some(n) else None
  }

  ghost predicate OneActive(users: map<Nym, User>) {
    forall a, b :: a in users && b in users && users[a].npub == users[b].npub && users[a].active && users[b].active
        ==> a == b
  }

  predicate IsLatestInactive(users: map<Nym, User>, npub: Npub, nym: Nym) {
    && nym in users && users[nym].npub == npub && !users[nym].active
    && forall n :: n in users && users[n].npub == npub && !users[n].active
        ==> users[n].createdAt <= users[nym].createdAt
  }

  function Owned(users: map<Nym, User>, npub: Npub): set<Nym> {
    set n | n in users && users[n].npub == npub
  }

  function WithoutReservations(rows: map<(Nym, string), Reservation>, nym: Nym): map<(Nym, string), Reservation> {
    map k | k in rows && k.0 != nym :: rows[k]
  }

  function InFlight(swaps: map<SwapId, SwapRef>, nym: Nym): set<SwapId> {
    set id | id in swaps && swaps[id].nym == Some(nym) && swaps[id].status !in {Swaps.Claimed, Swaps.Expired}
  }

  // --- The transactions ---

  /** A registration nothing interrupts. */
  ghost function Register(t: Tables, npub: Npub, nym: Nym, descriptor: string, verification: Npub, cap: int)
    : (Tables, RegisterOutcome)
  {
    if ActiveOf(t.users, npub).Some? then (t, KeyAlreadyRegistered(ActiveOf(t.users, npub).value))
    else if IsLatestInactive(t.users, npub, nym) then
      var row := t.users[nym].(descriptor := descriptor, verification := verification, active := true);
      (t.(users := t.users[nym := row], reservations := WithoutReservations(t.reservations, nym)), Reactivated(nym))
    else if |Owned(t.users, npub)| >= cap then (t, QuotaExceeded(|Owned(t.users, npub)|))
    else if nym in t.users then (t, NymTaken)
    else (t.(users := t.users[nym := User(npub, descriptor, verification, 0, true, |t.users|)]), Created(nym))
  }

  /** An update nothing interrupts. */
  ghost function UpdateDescriptor(t: Tables, npub: Npub, descriptor: string): Tables {
    match ActiveOf(t.users, npub)
    case None => t
    case Some(nym) =>
      t.(users := t.users[nym := t.users[nym].(descriptor := descriptor)],
         reservations := WithoutReservations(t.reservations, nym))
  }

  ghost function Deactivate(t: Tables, npub: Npub): Tables {
    match ActiveOf(t.users, npub)
    case None => t
    case Some(nym) => t.(users := t.users[nym := t.users[nym].(active := false)])
  }

  /** What a purge deletes and clears once its check has passed. */
  function PurgeRows(t: Tables, nym: Nym): Tables
    requires nym in t.users
  {
    Tables(t.users[nym := t.users[nym].(active := false, descriptor := "")],
           WithoutReservations(t.reservations, nym),
           map id | id in t.swaps && t.swaps[id].nym != Some(nym) :: t.swaps[id])
  }

  /** A purge nothing interrupts. */
  ghost function Purge(t: Tables, npub: Npub): (Tables, PurgeOutcome) {
    match ActiveOf(t.users, npub)
    case None => (t, NotFound)
    case Some(nym) =>
      if InFlight(t.swaps, nym) != {} then (t, InFlightSwaps(|InFlight(t.swaps, nym)|))
      else (PurgeRows(t, nym), Purged(nym))
  }

  /** What the first half of a reservation reads; the cached index when there is one. */
  datatype Read = Cached(index: int) | NoUser | Fresh(nym: Nym, outpoint: string, index: int, descriptor: string)

  function ReserveRead(t: Tables, nym: Nym, outpoint: string): Read {
    if (nym, outpoint) in t.reservations then Cached(t.reservations[(nym, outpoint)].addrIndex)
    else if nym !in t.users || !t.users[nym].active then NoUser
    else Fresh(nym, outpoint, t.users[nym].nextAddrIdx, t.users[nym].descriptor)
  }

  /** The second half; it fails on the unique key when another transaction was faster. */
  function ReserveInsert(t: Tables, r: Read, beside: Option<WriteId>): Tables {
    if r.Fresh? && r.nym in t.users && (r.nym, r.outpoint) !in t.reservations
    then
      var row := Reservation(r.index, false, r.descriptor, t.users[r.nym].descriptor, beside);
      t.(reservations := t.reservations[(r.nym, r.outpoint) := row])
    else t
  }

  class Registry {
    var users: map<Nym, User>
    var reservations: map<(Nym, string), Reservation>
    var swaps: map<SwapId, SwapRef>

    ghost function View(): Tables reads this {
      Tables(users, reservations, swaps)
    }

    ghost predicate Valid() reads this {
      OneActive(users)
    }

    constructor ()
      ensures Valid() && View() == Tables(map[], map[], map[])
    {
      users, reservations, swaps := map[], map[], map[];
    }

    method RegisterUser(npub: Npub, nym: Nym, descriptor: string, verification: Npub, cap: int)
      returns (r: RegisterOutcome)
      requires Valid()
      modifies this
      ensures Valid()
      ensures (View(), r) == Register(old(View()), npub, nym, descriptor, verification, cap)
    {
      if n :| n in users && IsActive(users, npub, n) {
        return KeyAlreadyRegistered(n);
      }
      if IsLatestInactive(users, npub, nym) {
        users := users[nym := users[nym].(descriptor := descriptor, verification := verification, active := true)];
        reservations := map k | k in reservations && k.0 != nym :: reservations[k];
        return Reactivated(nym);
      }
      var used := |Owned(users, npub)|;
      if used >= cap {
        return QuotaExceeded(used);
      }
      if nym in users {
        return NymTaken;
      }
      users := users[nym := User(npub, descriptor, verification, 0, true, |users|)];
      r := Created(nym);
    }

    method Update(npub: Npub, descriptor: string) returns (found: bool)
      requires Valid()
      modifies this
      ensures Valid()
      ensures View() == UpdateDescriptor(old(View()), npub, descriptor) && found == ActiveOf(old(users), npub).Some?
    {
      if n :| n in users && IsActive(users, npub, n) {
        users := users[n := users[n].(descriptor := descriptor)];
        reservations := map k | k in reservations && k.0 != n :: reservations[k];
        return true;
      }
      found := false;
    }

    method DeactivateUser(npub: Npub) returns (found: bool)
      requires Valid()
      modifies this
      ensures Valid()
      ensures View() == Deactivate(old(View()), npub) && found == ActiveOf(old(users), npub).Some?
    {
      if n :| n in users && IsActive(users, npub, n) {
        users := users[n := users[n].(active := false)];
        return true;
      }
      found := false;
    }

    method PurgeUser(npub: Npub) returns (r: PurgeOutcome)
      requires Valid()
      modifies this
      ensures Valid()
      ensures (View(), r) == Purge(old(View()), npub)
    {
      if n :| n in users && IsActive(users, npub, n) {
        var inFlight := InFlight(swaps, n);
        if inFlight != {} {
          return InFlightSwaps(|inFlight|);
        }
        swaps := map id | id in swaps && swaps[id].nym != Some(n) :: swaps[id];
        reservations := map k | k in reservations && k.0 != n :: reservations[k];
        users := users[n := users[n].(active := false, descriptor := "")];
        return Purged(n);
      }
      r := NotFound;
    }

    method Reserve(nym: Nym, outpoint: string) returns (r: Option<int>)
      requires Valid()
      modifies this
      ensures Valid()
      ensures View() == ReserveInsert(old(View()), ReserveRead(old(View()), nym, outpoint), None)
      ensures r == if (nym, outpoint) in reservations then Some(reservations[(nym, outpoint)].addrIndex) else None
    {
      if (nym, outpoint) in reservations {
        return Some(reservations[(nym, outpoint)].addrIndex);
      }
      if nym !in users || !users[nym].active {
        return None;
      }
      var row := users[nym];
      reservations := reservations[(nym, outpoint) :=
          Reservation(row.nextAddrIdx, false, row.descriptor, row.descriptor, None)];
      r := Some(row.nextAddrIdx);
    }
  }

  // --- Runs: transactions of any number of workers ---

  type WorkerId = nat

  /** A descriptor write between its delete and its commit: the row to write, and the reservations its
      delete found. What it has written and deleted nobody else sees yet. */
  datatype Write = Write(nym: Nym, descriptor: string, verification: Npub, id: WriteId, doomed: set<(Nym, string)>)

  /** The descriptor writes under way and, as bookkeeping, how many have begun and what those that
      committed wrote. */
  datatype Writes = Writes(pending: map<WorkerId, Write>, begun: nat, committed: map<WriteId, string>)

  /** A purge holds its user row locked between its check and its deletes, a descriptor write between its
      delete and its commit; what a reservation has read is held by nothing. */
  datatype State = State(
    t: Tables,
    purging: map<WorkerId, Nym>,
    writes: Writes,
    readers: map<WorkerId, Read>)

  datatype Step =
    | DoRegister(npub: Npub, nym: Nym, descriptor: string, verification: Npub)
    | DoUpdate(npub: Npub, descriptor: string)
    | BeginReactivate(w: WorkerId, npub: Npub, nym: Nym, descriptor: string, verification: Npub)
    | BeginUpdate(w: WorkerId, npub: Npub, descriptor: string)
    | CommitWrite(w: WorkerId)
    | DoDeactivate(npub: Npub)
    | BeginPurge(w: WorkerId, npub: Npub)
    | FinishPurge(w: WorkerId)
    | BeginReserve(w: WorkerId, nym: Nym, outpoint: string)
    | FinishReserve(w: WorkerId)
    | ReserveAtOnce(nym: Nym, outpoint: string)
    | RecordSwap(id: SwapId, payee: Option<Nym>)
    | SetSwapStatus(id: SwapId, status: Swaps.SwapStatus)
    | MoveCursor(nym: Nym, idx: int)
    | MarkFulfilled(nym: Nym, outpoint: string)
    | Prune(keys: set<(Nym, string)>)
    | Crash(w: WorkerId)

  ghost predicate Purging(purging: map<WorkerId, Nym>, nym: Nym) {
    exists w :: w in purging && purging[w] == nym
  }

  ghost predicate Writing(writes: Writes, nym: Nym) {
    exists w :: w in writes.pending && writes.pending[w].nym == nym
  }

  ghost predicate Locked(st: State, nym: Nym) {
    Purging(st.purging, nym) || Writing(st.writes, nym)
  }

  ghost predicate ActiveLocked(st: State, npub: Npub) {
    ActiveOf(st.t.users, npub).Some? && Locked(st, ActiveOf(st.t.users, npub).value)
  }

  /** A reactivation holds the key's advisory lock. */
  ghost predicate Registering(users: map<Nym, User>, writes: Writes, npub: Npub) {
    exists w :: w in writes.pending && writes.pending[w].nym in users
      && users[writes.pending[w].nym].npub == npub && !users[writes.pending[w].nym].active
  }

  ghost predicate Doomed(writes: Writes, key: (Nym, string)) {
    exists w :: w in writes.pending && key in writes.pending[w].doomed
  }

  /** The descriptor write of the nym between its delete and its commit, if there is one. */
  ghost function Beside(writes: Writes, nym: Nym): Option<WriteId> {
    if w :| w in writes.pending && writes.pending[w].nym == nym then Some(writes.pending[w].id) else None
  }

  function KeysOf(rows: map<(Nym, string), Reservation>, nym: Nym): set<(Nym, string)> {
    set k | k in rows && k.0 == nym
  }

  function Opened(writes: Writes, w: WorkerId, nym: Nym, d: string, v: Npub, doomed: set<(Nym, string)>): Writes {
    writes.(pending := writes.pending[w := Write(nym, d, v, writes.begun, doomed)], begun := writes.begun + 1)
  }

  function BeginWrite(st: State, w: WorkerId, nym: Nym, d: string, v: Npub): State {
    st.(writes := Opened(st.writes, w, nym, d, v, KeysOf(st.t.reservations, nym)))
  }

  function Written(user: User, write: Write): User {
    user.(descriptor := write.descriptor, verification := write.verification, active := true)
  }

  function Closed(writes: Writes, w: WorkerId): Writes
    requires w in writes.pending
  {
    var write := writes.pending[w];
    writes.(pending := writes.pending - {w}, committed := writes.committed[write.id := write.descriptor])
  }

  function LeftBy(rows: map<(Nym, string), Reservation>, doomed: set<(Nym, string)>)
    : map<(Nym, string), Reservation>
  {
    map k | k in rows && k !in doomed :: rows[k]
  }

  function Commit(st: State, w: WorkerId): State
    requires w in st.writes.pending && st.writes.pending[w].nym in st.t.users
  {
    var write := st.writes.pending[w];
    st.(t := st.t.(users := st.t.users[write.nym := Written(st.t.users[write.nym], write)],
                   reservations := LeftBy(st.t.reservations, write.doomed)),
        writes := Closed(st.writes, w))
  }

  /** A step that would wait for a lock, or that fails on a constraint, leaves the state as it is. */
  ghost function Apply(st: State, cap: int, step: Step): State {
    match step
    case DoRegister(npub, nym, d, v) =>
      if Registering(st.t.users, st.writes, npub) then st else st.(t := Register(st.t, npub, nym, d, v, cap).0)
    case DoUpdate(npub, d) => if ActiveLocked(st, npub) then st else st.(t := UpdateDescriptor(st.t, npub, d))
    case BeginReactivate(w, npub, nym, d, v) =>
      if w in st.writes.pending || ActiveOf(st.t.users, npub).Some? || !IsLatestInactive(st.t.users, npub, nym)
         || Registering(st.t.users, st.writes, npub) then st
      else BeginWrite(st, w, nym, d, v)
    case BeginUpdate(w, npub, d) =>
      var active := ActiveOf(st.t.users, npub);
      if w in st.writes.pending || active.None? || Locked(st, active.value) then st
      else BeginWrite(st, w, active.value, d, st.t.users[active.value].verification)
    case CommitWrite(w) =>
      if w in st.writes.pending && st.writes.pending[w].nym in st.t.users then Commit(st, w) else st
    case DoDeactivate(npub) => if ActiveLocked(st, npub) then st else st.(t := Deactivate(st.t, npub))
    case BeginPurge(w, npub) =>
      var active := ActiveOf(st.t.users, npub);
      if w in st.purging || active.None? || Locked(st, active.value) || InFlight(st.t.swaps, active.value) != {} then st
      else st.(purging := st.purging[w := active.value])
    case FinishPurge(w) =>
      if w in st.purging && st.purging[w] in st.t.users
      then st.(t := PurgeRows(st.t, st.purging[w]), purging := st.purging - {w})
      else st
    case BeginReserve(w, nym, o) => st.(readers := st.readers[w := ReserveRead(st.t, nym, o)])
    case FinishReserve(w) =>
      // The insert waits for a purge, whose lock its foreign key needs, and for a delete of its key.
      if w !in st.readers then st
      else
        var read := st.readers[w];
        if read.Fresh? && (Purging(st.purging, read.nym) || Doomed(st.writes, (read.nym, read.outpoint))) then st
        else
          var beside := if read.Fresh? then Beside(st.writes, read.nym) else None;
          st.(t := ReserveInsert(st.t, read, beside), readers := st.readers - {w})
    case ReserveAtOnce(nym, o) =>
      if Purging(st.purging, nym) then st
      else st.(t := ReserveInsert(st.t, ReserveRead(st.t, nym, o), Beside(st.writes, nym)))
    case RecordSwap(id, nym) =>
      if id in st.t.swaps || (nym.Some? && (nym.value !in st.t.users || Purging(st.purging, nym.value))) then st
      else st.(t := st.t.(swaps := st.t.swaps[id := SwapRef(nym, Swaps.Pending)]))
    case SetSwapStatus(id, status) =>
      if id !in st.t.swaps || Swaps.IsTerminal(Swaps.Rev(st.t.swaps[id].status)) then st
      else st.(t := st.t.(swaps := st.t.swaps[id := st.t.swaps[id].(status := status)]))
    case MoveCursor(nym, idx) =>
      if nym !in st.t.users || Locked(st, nym) then st
      else st.(t := st.t.(users := st.t.users[nym := st.t.users[nym].(nextAddrIdx := idx)]))
    case MarkFulfilled(nym, o) =>
      if (nym, o) !in st.t.reservations || Doomed(st.writes, (nym, o)) then st
      else
        var row := st.t.reservations[(nym, o)].(fulfilled := true);
        st.(t := st.t.(reservations := st.t.reservations[(nym, o) := row]))
    case Prune(keys) =>
      var rows := st.t.reservations;
      var kept := map k | k in rows && (k !in keys || rows[k].fulfilled || Doomed(st.writes, k)) :: rows[k];
      st.(t := st.t.(reservations := kept))
    case Crash(w) =>
      st.(purging := st.purging - {w}, writes := st.writes.(pending := st.writes.pending - {w}),
          readers := st.readers - {w})
  }

  const Empty := State(Tables(map[], map[], map[]), map[], Writes(map[], 0, map[]), map[])

  ghost function Run(steps: seq<Step>, cap: int): State {
    if steps == [] then Empty else Apply(Run(steps[..|steps|-1], cap), cap, steps[|steps|-1])
  }
}

/** The address allocators of a donation page: one cursor for the page, one for its POS terminals.
    Each call holds an advisory lock, probes up to 100 indices against the assigned addresses, which
    other transactions change between two probes, and writes the cursor back. */
module AddressCursor {
  import opened Base
  import opened Chain

  const MAX_ATTEMPTS: nat := 100
  const I32_MAX: int := 0x7FFF_FFFF

  /** `i32` addition in a release build. */
  function WrapI32(n: int): int {
    if -0x8000_0000 <= n <= I32_MAX then n
    else if I32_MAX < n <= I32_MAX + 0x1_0000_0000 then n - 0x1_0000_0000
    else (n + 0x8000_0000) % 0x1_0000_0000 - 0x8000_0000
  }

  /** One cursor of one page; the page row holds two. */
  datatype CursorId = CursorId(nym: string, pos: bool)

  datatype Cursor = Cursor(archived: bool, descriptor: Option<string>, nextIdx: int)

  datatype Outcome =
    | NoPage
    | Issued(address: Address, index: nat)
    | IndexOverflow
    | Exhausted

  // --- One uninterrupted call ---

  /** The least unassigned index among `tries` from `idx` on. */
  function Scan(descriptor: string, idx: int, taken: set<Address>, tries: nat): (r: (int, Outcome))
    decreases tries
  {
    if tries == 0 then (idx, Exhausted)
    else if idx < 0 then (idx, IndexOverflow)
    else if Derived(descriptor, idx) in taken then Scan(descriptor, WrapI32(idx + 1), taken, tries - 1)
    else (WrapI32(idx + 1), Issued(Derived(descriptor, idx), idx))
  }

  lemma {:induction false} ScanFindsLeast(descriptor: string, idx: int, taken: set<Address>, tries: nat)
    requires 0 <= idx && 0 < tries && idx + tries <= I32_MAX + 1
    ensures var (next, r) := Scan(descriptor, idx, taken, tries);
      match r
      case Issued(a, i) => idx <= i < idx + tries && a == Derived(descriptor, i) && a !in taken
          && next == WrapI32(i + 1)
                           && forall k: nat :: idx <= k < i ==> Derived(descriptor, k) in taken
      case Exhausted =>
        && next == WrapI32(idx + tries)
        && forall k: nat :: idx <= k < idx + tries ==> Derived(descriptor, k) in taken
      case _ => false
    decreases tries
  {
    if Derived(descriptor, idx) in taken {
      if tries > 1 {
        ScanFindsLeast(descriptor, idx + 1, taken, tries - 1);
      }
    }
  }

  class DonationPage {
    var archived: bool
    var descriptor: Option<string>
    var nextAddrIdx: int
    var posDescriptor: Option<string>
    var posNextAddrIdx: int

    constructor ()
      ensures !archived && descriptor.None? && posDescriptor.None? && nextAddrIdx == posNextAddrIdx == 0
    {
      archived, descriptor, nextAddrIdx, posDescriptor, posNextAddrIdx := false, None, 0, None, 0;
    }

    /** The probe loop both allocators share: where it stops, and with what. */
    static method ProbeLoop(descriptor: string, start: int, taken: set<Address>) returns (next: int, r: Outcome)
      ensures (next, r) == Scan(descriptor, start, taken, MAX_ATTEMPTS)
    {
      next := start;
      for i := 0 to MAX_ATTEMPTS
        invariant Scan(descriptor, next, taken, MAX_ATTEMPTS - i) == Scan(descriptor, start, taken, MAX_ATTEMPTS)
      {
        if next < 0 {
          return next, IndexOverflow;
        }
        var address := Derived(descriptor, next);
        if address !in taken {
          return WrapI32(next + 1), Issued(address, next);
        }
        next := WrapI32(next + 1);
      }
      r := Exhausted;
    }

    method AllocateForPage(taken: set<Address>) returns (r: Outcome)
      modifies this
      ensures archived == old(archived) && descriptor == old(descriptor)
      ensures posDescriptor == old(posDescriptor) && posNextAddrIdx == old(posNextAddrIdx)
      ensures archived || descriptor.None? ==> r == NoPage && nextAddrIdx == old(nextAddrIdx)
      ensures !archived && descriptor.Some? ==>
        var (next, o) := Scan(descriptor.value, old(nextAddrIdx), taken, MAX_ATTEMPTS);
        r == o && nextAddrIdx == if o.IndexOverflow? then old(nextAddrIdx) else next
    {
      if archived || descriptor.None? {
        return NoPage;
      }
      var next, outcome := ProbeLoop(descriptor.value, nextAddrIdx, taken);
      if !outcome.IndexOverflow? {
        nextAddrIdx := next;
      }
      r := outcome;
    }

    method AllocateForPos(taken: set<Address>) returns (r: Outcome)
      modifies this
      ensures archived == old(archived) && descriptor == old(descriptor)
      ensures posDescriptor == old(posDescriptor) && nextAddrIdx == old(nextAddrIdx)
      ensures archived || posDescriptor.None? ==> r == NoPage && posNextAddrIdx == old(posNextAddrIdx)
      ensures !archived && posDescriptor.Some? ==>
        var (next, o) := Scan(posDescriptor.value, old(posNextAddrIdx), taken, MAX_ATTEMPTS);
        r == o && posNextAddrIdx == if o.IndexOverflow? then old(posNextAddrIdx) else next
    {
      if archived || posDescriptor.None? {
        return NoPage;
      }
      var next, outcome := ProbeLoop(posDescriptor.value, posNextAddrIdx, taken);
      if !outcome.IndexOverflow? {
        posNextAddrIdx := next;
      }
      r := outcome;
    }
  }

  // --- Calls interleaved with each other and with everything else ---

  type WorkerId = nat

  /** Indices `start`, `start + 1`, ... were probed at the steps `times` and found assigned; `Found`
      has probed one more, unassigned. */
  datatype Phase =
    | Idle
    | Scanning(c: CursorId, descriptor: string, start: int, times: seq<nat>)
    | Found(c: CursorId, descriptor: string, start: int, times: seq<nat>)

  /** An address handed out, with the step of each probe that led to it. */
  datatype Issue = Issue(c: CursorId, descriptor: string, start: int, times: seq<nat>) {
    function Index(): int { start + |times| - 1 }
  }

  datatype State = State(
    cursors: map<CursorId, Cursor>,
    locks: map<CursorId, WorkerId>,
    workers: map<WorkerId, Phase>,
    taken: set<Address>,
    issues: seq<Issue>,
    clock: nat)

  datatype Step =
    | Begin(w: WorkerId, c: CursorId)
    | ProbeNext(w: WorkerId)
    | CommitCall(w: WorkerId)
    | Crash(w: WorkerId)
    | Assign(a: Address)
    | Unassign(a: Address)
    | Upsert(c: CursorId, descriptor: Option<string>)
    | Archive(c: CursorId)

  function PhaseOf(st: State, w: WorkerId): Phase {
    if w in st.workers then st.workers[w] else Idle
  }

  function Release(st: State, w: WorkerId, c: CursorId): State {
    st.(locks := st.locks - {c}, workers := st.workers[w := Idle])
  }

  function MoveCursor(st: State, c: CursorId, idx: int): State
    requires c in st.cursors
  {
    st.(cursors := st.cursors[c := st.cursors[c].(nextIdx := idx)])
  }

  /** Wait for the lock, then read the page row. */
  function DoBegin(st: State, w: WorkerId, c: CursorId): State {
    if PhaseOf(st, w) != Idle || c in st.locks then st
    else if c !in st.cursors || st.cursors[c].archived || st.cursors[c].descriptor.None? then st
    else st.(locks := st.locks[c := w],
             workers := st.workers[w := Scanning(c, st.cursors[c].descriptor.value, st.cursors[c].nextIdx, [])])
  }

  function DoProbe(st: State, w: WorkerId): State {
    match PhaseOf(st, w)
    case Scanning(c, descriptor, start, times) =>
      var idx := WrapI32(start + |times|);
      if |times| >= MAX_ATTEMPTS then st
      else if idx < 0 then Release(st, w, c)
      else if Derived(descriptor, idx) in st.taken
      then st.(workers := st.workers[w := Scanning(c, descriptor, start, times + [st.clock])])
      else st.(workers := st.workers[w := Found(c, descriptor, start, times + [st.clock])])
    case _ => st
  }

  function DoCommit(st: State, w: WorkerId): State {
    match PhaseOf(st, w)
    case Found(c, descriptor, start, times) =>
      if c in st.cursors then
        var moved := Release(MoveCursor(st, c, WrapI32(start + |times|)), w, c);
        moved.(issues := st.issues + [Issue(c, descriptor, start, times)])
      else st
    case Scanning(c, descriptor, start, times) =>
      if |times| == MAX_ATTEMPTS && c in st.cursors
      then Release(MoveCursor(st, c, WrapI32(start + MAX_ATTEMPTS)), w, c)
      else st
    case Idle => st
  }

  function DoCrash(st: State, w: WorkerId): State {
    match PhaseOf(st, w)
    case Idle => st
    case Scanning(c, _, _, _) => Release(st, w, c)
    case Found(c, _, _, _) => Release(st, w, c)
  }

  /** The step without the tick of the clock. */
  function Effect(st: State, step: Step): State {
    match step
    case Begin(w, c) => DoBegin(st, w, c)
    case ProbeNext(w) => DoProbe(st, w)
    case CommitCall(w) => DoCommit(st, w)
    case Crash(w) => DoCrash(st, w)
    case Assign(a) => st.(taken := st.taken + {a})
    case Unassign(a) => st.(taken := st.taken - {a})
    case Upsert(c, d) =>
      var page := if c in st.cursors then st.cursors[c] else Cursor(false, None, 0);
      st.(cursors := st.cursors[c := page.(archived := false, descriptor := if d.Some? then d else page.descriptor)])
    case Archive(c) => if c in st.cursors then st.(cursors := st.cursors[c := st.cursors[c].(archived := true)]) else st
  }

  function Apply(st: State, step: Step): State {
    Effect(st, step).(clock := st.clock + 1)
  }

  const EmptyState := State(map[], map[], map[], {}, [], 0)

  function Run(steps: seq<Step>): State {
    if steps == [] then EmptyState else Apply(Run(steps[..|steps|-1]), steps[|steps|-1])
  }

  // --- What every interleaving keeps ---

  predicate I32(n: int) {
    -0x8000_0000 <= n <= I32_MAX
  }

  ghost predicate WorkerOk(st: State, w: WorkerId)
    requires w in st.workers
  {
    match st.workers[w]
    case Idle => true
    case Scanning(c, _, start, times) => InCall(st, w, c, start) && |times| <= MAX_ATTEMPTS && NoWrap(start, times)
    case Found(c, _, start, times) => InCall(st, w, c, start) && times != [] && NoWrap(start, times)
  }

  /** Inside a call the worker holds the lock and the cursor is where the call found it. */
  ghost predicate InCall(st: State, w: WorkerId, c: CursorId, start: int) {
    c in st.locks && st.locks[c] == w && c in st.cursors && st.cursors[c].nextIdx == start
  }

  ghost predicate NoWrap(start: int, times: seq<nat>) {
    times != [] ==> 0 <= start && start + |times| - 1 <= I32_MAX
  }

  /** The cursor is past everything issued; a cursor that wrapped round issues nothing more. */
  ghost predicate CursorOk(st: State, c: CursorId)
    requires c in st.cursors
  {
    I32(st.cursors[c].nextIdx)
    && forall k :: 0 <= k < |st.issues| && st.issues[k].c == c
        ==> st.issues[k].Index() < st.cursors[c].nextIdx || st.cursors[c].nextIdx < 0
  }

  ghost predicate Increasing(issues: seq<Issue>) {
    forall j, k :: 0 <= j < k < |issues| && issues[j].c == issues[k].c ==> issues[j].Index() < issues[k].start
  }

  ghost predicate Inv(st: State) {
    && (forall w :: w in st.workers ==> WorkerOk(st, w))
    && (forall c :: c in st.cursors ==> CursorOk(st, c))
    && (forall x :: x in st.issues ==> x.c in st.cursors && x.times != [] && NoWrap(x.start, x.times))
    && Increasing(st.issues)
  }

  /** The one `i32` that differs from `n` by a multiple of 2^32. */
  lemma WrapInRange(n: int)
    ensures I32(WrapI32(n)) && (n - WrapI32(n)) % 0x1_0000_0000 == 0
    ensures (I32(n) ==> WrapI32(n) == n) && (I32_MAX < n <= 2 * I32_MAX ==> WrapI32(n) < 0)
  {
  }

  lemma ReleaseKeeps(st: State, w: WorkerId, c: CursorId)
    requires Inv(st) && w in st.workers && !st.workers[w].Idle? && st.workers[w].c == c
    ensures Inv(Release(st, w, c))
  {
    var st' := Release(st, w, c);
    forall v | v in st'.workers ensures WorkerOk(st', v) {
      assert v in st.workers && WorkerOk(st, v) && WorkerOk(st, w);
    }
    forall x | x in st'.cursors ensures CursorOk(st', x) {
      assert CursorOk(st, x);
    }
  }

  /** The write-back: the cursor moves forward, or wraps, under the lock. */
  lemma WriteBackKeeps(st: State, w: WorkerId, c: CursorId, idx: int)
    requires Inv(st) && w in st.workers && !st.workers[w].Idle? && st.workers[w].c == c && c in st.cursors
    requires I32(idx) && st.cursors[c].nextIdx >= 0 && (idx >= st.cursors[c].nextIdx || idx < 0)
    ensures Inv(Release(MoveCursor(st, c, idx), w, c))
  {
    var st' := Release(MoveCursor(st, c, idx), w, c);
    assert WorkerOk(st, w);
    forall v | v in st'.workers ensures WorkerOk(st', v) {
      assert v in st.workers && WorkerOk(st, v);
    }
    forall x | x in st'.cursors ensures CursorOk(st', x) {
      assert CursorOk(st, x);
    }
  }

  lemma NewIssueKeeps(st: State, x: Issue)
    requires Inv(st) && x.c in st.cursors && x.times != [] && NoWrap(x.start, x.times)
    requires x.Index() < st.cursors[x.c].nextIdx || st.cursors[x.c].nextIdx < 0
    requires forall j :: 0 <= j < |st.issues| && st.issues[j].c == x.c ==> st.issues[j].Index() < x.start
    ensures Inv(st.(issues := st.issues + [x]))
  {
    var st' := st.(issues := st.issues + [x]);
    forall v | v in st'.workers ensures WorkerOk(st', v) {
      assert WorkerOk(st, v);
    }
    forall c | c in st'.cursors ensures CursorOk(st', c) {
      assert CursorOk(st, c);
    }
  }

  /** What a finished probe knows about its cursor and the value to write back. */
  lemma FoundFacts(st: State, w: WorkerId)
    requires Inv(st) && PhaseOf(st, w).Found?
    ensures var p := PhaseOf(st, w); var next := WrapI32(p.start + |p.times|);
      && p.c in st.cursors && st.cursors[p.c].nextIdx == p.start >= 0 && p.times != [] && NoWrap(p.start, p.times)
      && I32(next) && (next == p.start + |p.times| || next < 0)
    ensures var p := PhaseOf(st, w);
      forall j :: 0 <= j < |st.issues| && st.issues[j].c == p.c ==> st.issues[j].Index() < p.start
  {
    var p := PhaseOf(st, w);
    assert WorkerOk(st, w) && CursorOk(st, p.c);
    WrapInRange(p.start + |p.times|);
  }

  lemma IssueCommitKeeps(st: State, w: WorkerId)
    requires Inv(st) && PhaseOf(st, w).Found?
    ensures Inv(DoCommit(st, w))
  {
    var p := PhaseOf(st, w);
    FoundFacts(st, w);
    var next := WrapI32(p.start + |p.times|);
    WriteBackKeeps(st, w, p.c, next);
    var moved := Release(MoveCursor(st, p.c, next), w, p.c);
    var issue := Issue(p.c, p.descriptor, p.start, p.times);
    assert DoCommit(st, w) == moved.(issues := moved.issues + [issue]);
    NewIssueKeeps(moved, issue);
  }

  lemma ExhaustedCommitKeeps(st: State, w: WorkerId)
    requires Inv(st) && PhaseOf(st, w).Scanning?
    ensures Inv(DoCommit(st, w))
  {
    var p := PhaseOf(st, w);
    if |p.times| == MAX_ATTEMPTS {
      assert WorkerOk(st, w) && CursorOk(st, p.c);
      WrapInRange(p.start + MAX_ATTEMPTS);
      WriteBackKeeps(st, w, p.c, WrapI32(p.start + MAX_ATTEMPTS));
    }
  }

  lemma CommitKeeps(st: State, w: WorkerId)
    requires Inv(st)
    ensures Inv(DoCommit(st, w))
  {
    match PhaseOf(st, w)
    case Found(_, _, _, _) => IssueCommitKeeps(st, w);
    case Scanning(_, _, _, _) => ExhaustedCommitKeeps(st, w);
    case Idle =>
  }

  lemma BeginKeeps(st: State, w: WorkerId, c: CursorId)
    requires Inv(st)
    ensures Inv(DoBegin(st, w, c))
  {
    var st' := DoBegin(st, w, c);
    if st' != st {
      forall v | v in st'.workers ensures WorkerOk(st', v) {
        assert v in st.workers ==> WorkerOk(st, v);
      }
      forall x | x in st'.cursors ensures CursorOk(st', x) {
        assert CursorOk(st, x);
      }
    }
  }

  lemma ProbeKeeps(st: State, w: WorkerId)
    requires Inv(st)
    ensures Inv(DoProbe(st, w))
  {
    match PhaseOf(st, w)
    case Scanning(c, descriptor, start, times) =>
      assert WorkerOk(st, w);
      assert CursorOk(st, c);
      WrapInRange(start + |times|);
      var st' := DoProbe(st, w);
      if st' == Release(st, w, c) {
        ReleaseKeeps(st, w, c);
      } else {
        forall v | v in st'.workers ensures WorkerOk(st', v) {
          assert WorkerOk(st, v);
        }
        forall x | x in st'.cursors ensures CursorOk(st', x) {
          assert CursorOk(st, x);
        }
      }
    case _ =>
  }

  lemma PageWriteKeeps(st: State, c: CursorId, page: Cursor)
    requires Inv(st) && page.nextIdx == if c in st.cursors then st.cursors[c].nextIdx else 0
    ensures Inv(st.(cursors := st.cursors[c := page]))
  {
    var st' := st.(cursors := st.cursors[c := page]);
    forall v | v in st'.workers ensures WorkerOk(st', v) {
      assert WorkerOk(st, v);
    }
    forall x | x in st'.cursors ensures CursorOk(st', x) {
      assert x in st.cursors ==> CursorOk(st, x);
    }
  }

  /** Address assignments and the clock are not part of the invariant. */
  lemma OtherColumnsKeep(st: State, taken: set<Address>, clock: nat)
    requires Inv(st)
    ensures Inv(st.(taken := taken, clock := clock))
  {
    var st' := st.(taken := taken, clock := clock);
    forall v | v in st'.workers ensures WorkerOk(st', v) {
      assert WorkerOk(st, v);
    }
    forall x | x in st'.cursors ensures CursorOk(st', x) {
      assert CursorOk(st, x);
    }
  }

  lemma EffectKeeps(st: State, step: Step)
    requires Inv(st)
    ensures Inv(Effect(st, step))
  {
    match step
    case Begin(w, c) => BeginKeeps(st, w, c);
    case ProbeNext(w) => ProbeKeeps(st, w);
    case CommitCall(w) => CommitKeeps(st, w);
    case Crash(w) =>
      if w in st.workers && !st.workers[w].Idle? {
        ReleaseKeeps(st, w, st.workers[w].c);
      }
    case Assign(a) => OtherColumnsKeep(st, st.taken + {a}, st.clock);
    case Unassign(a) => OtherColumnsKeep(st, st.taken - {a}, st.clock);
    case Upsert(c, d) =>
      var page := if c in st.cursors then st.cursors[c] else Cursor(false, None, 0);
      PageWriteKeeps(st, c, page.(archived := false, descriptor := if d.Some? then d else page.descriptor));
    case Archive(c) =>
      if c in st.cursors {
        PageWriteKeeps(st, c, st.cursors[c].(archived := true));
      }
  }

  lemma StepKeeps(st: State, step: Step)
    requires Inv(st)
    ensures Inv(Apply(st, step)) && Apply(st, step).clock == st.clock + 1
  {
    EffectKeeps(st, step);
    var next := Effect(st, step);
    OtherColumnsKeep(next, next.taken, st.clock + 1);
  }

  lemma {:induction false} InvariantOfRuns(steps: seq<Step>)
    ensures Inv(Run(steps)) && Run(steps).clock == |steps|
  {
    if steps != [] {
      InvariantOfRuns(steps[..|steps|-1]);
      StepKeeps(Run(steps[..|steps|-1]), steps[|steps|-1]);
    }
  }

  // --- What was probed when ---

  /** The assigned addresses each step of a run saw. */
  ghost function Log(steps: seq<Step>): (r: seq<set<Address>>)
    ensures |r| == |steps|
  {
    if steps == [] then [] else Log(steps[..|steps|-1]) + [Run(steps[..|steps|-1]).taken]
  }

  lemma {:induction false} LogAt(steps: seq<Step>, t: nat)
    requires t < |steps|
    ensures Log(steps)[t] == Run(steps[..t]).taken
  {
    if t < |steps| - 1 {
      LogAt(steps[..|steps|-1], t);
      assert steps[..|steps|-1][..t] == steps[..t];
    }
  }

  /** The address of index `start + k` was assigned at step `times[k]`, for every `k` below `n`. */
  ghost predicate ProbedTaken(log: seq<set<Address>>, descriptor: string, start: int, times: seq<nat>, n: nat)
    requires n <= |times|
  {
    forall k :: 0 <= k < n ==> times[k] < |log| && start + k >= 0 && Derived(descriptor, start + k) in log[times[k]]
  }

  /** The address of the last index probed was unassigned then. */
  ghost predicate ProbedFree(log: seq<set<Address>>, descriptor: string, start: int, times: seq<nat>) {
    times != []
    && var k := |times| - 1; times[k] < |log| && start + k >= 0 && Derived(descriptor, start + k) !in log[times[k]]
  }

  ghost predicate HistoryOk(log: seq<set<Address>>, p: Phase) {
    match p
    case Idle => true
    case Scanning(_, d, start, times) => ProbedTaken(log, d, start, times, |times|)
    case Found(_, d, start, times) =>
      times != [] && ProbedTaken(log, d, start, times, |times| - 1) && ProbedFree(log, d, start, times)
  }

  lemma HistoryExtends(log: seq<set<Address>>, now: set<Address>, p: Phase)
    requires HistoryOk(log, p)
    ensures HistoryOk(log + [now], p)
  {
  }

  lemma NoWrapHere(start: int, times: seq<nat>)
    requires I32(start) && NoWrap(start, times) && |times| < MAX_ATTEMPTS && WrapI32(start + |times|) >= 0
    ensures WrapI32(start + |times|) == start + |times| >= 0
  {
  }

  lemma ProbeHistory(st: State, w: WorkerId, log: seq<set<Address>>)
    requires Inv(st) && st.clock == |log| && HistoryOk(log, PhaseOf(st, w))
    ensures HistoryOk(log + [st.taken], PhaseOf(DoProbe(st, w), w))
  {
    HistoryExtends(log, st.taken, PhaseOf(st, w));
    match PhaseOf(st, w)
    case Scanning(c, descriptor, start, times) =>
      if |times| < MAX_ATTEMPTS && WrapI32(start + |times|) >= 0 {
        assert WorkerOk(st, w) && CursorOk(st, c);
        NoWrapHere(start, times);
      }
    case _ =>
  }

  /** Any other step leaves the call of `w` where it was or ends it. */
  lemma OtherStep(st: State, step: Step, w: WorkerId, log: seq<set<Address>>)
    requires step != ProbeNext(w) && HistoryOk(log, PhaseOf(st, w))
    ensures HistoryOk(log, PhaseOf(Effect(st, step), w))
  {
  }

  lemma {:induction false} HistoriesOfRuns(steps: seq<Step>, w: WorkerId)
    ensures HistoryOk(Log(steps), PhaseOf(Run(steps), w))
  {
    if steps != [] {
      var init, last := steps[..|steps|-1], steps[|steps|-1];
      var st := Run(init);
      HistoriesOfRuns(init, w);
      InvariantOfRuns(init);
      if last == ProbeNext(w) {
        ProbeHistory(st, w, Log(init));
      } else {
        OtherStep(st, last, w, Log(init));
        HistoryExtends(Log(init), st.taken, PhaseOf(Effect(st, last), w));
      }
    }
  }

  ghost function AsFound(x: Issue): Phase {
    Found(x.c, x.descriptor, x.start, x.times)
  }

  lemma IssuesStep(st: State, step: Step)
    ensures var issues' := Apply(st, step).issues;
      || issues' == st.issues
      || (step.CommitCall? && PhaseOf(st, step.w).Found?
          && var p := PhaseOf(st, step.w); issues' == st.issues + [Issue(p.c, p.descriptor, p.start, p.times)])
  {
  }

  lemma {:induction false} IssueHistories(steps: seq<Step>, k: nat)
    requires k < |Run(steps).issues|
    ensures HistoryOk(Log(steps), AsFound(Run(steps).issues[k]))
  {
    var init, last := steps[..|steps|-1], steps[|steps|-1];
    var st := Run(init);
    IssuesStep(st, last);
    if k < |st.issues| {
      IssueHistories(init, k);
      HistoryExtends(Log(init), st.taken, AsFound(st.issues[k]));
    } else {
      HistoriesOfRuns(init, last.w);
      HistoryExtends(Log(init), st.taken, PhaseOf(st, last.w));
    }
  }

  /** Main result: over every interleaving of calls, crashes, page edits and other transactions that
      assign or free addresses, the indices a cursor issues strictly increase, so no address is issued
      twice by a cursor; and the address of each issued index was unassigned when it was probed, every
      index skipped before it was assigned when it was probed. */
  lemma FreshIssue(steps: seq<Step>, k: nat)
    requires k < |Run(steps).issues|
    ensures var x := Run(steps).issues[k];
      && 0 <= x.start <= x.Index() <= I32_MAX
      && ProbedFree(Log(steps), x.descriptor, x.start, x.times)
      && ProbedTaken(Log(steps), x.descriptor, x.start, x.times, |x.times| - 1)
    ensures forall j :: 0 <= j < k && Run(steps).issues[j].c == Run(steps).issues[k].c ==>
      Run(steps).issues[j].Index() < Run(steps).issues[k].start
  {
    InvariantOfRuns(steps);
    IssueHistories(steps, k);
  }

  /** The commit of a call whose probes are used up: nothing issued, the cursor 100 further on. */
  ghost predicate MovedHundred(st: State, c: CursorId, st': State) {
    c in st.cursors && c in st'.cursors && st'.issues == st.issues
    && st'.cursors[c].nextIdx == WrapI32(st.cursors[c].nextIdx + 100)
  }

  lemma ExhaustedCommit(st: State, w: WorkerId)
    requires Inv(st) && PhaseOf(st, w).Scanning? && |PhaseOf(st, w).times| == MAX_ATTEMPTS
    ensures var p := PhaseOf(st, w);
      MovedHundred(st, p.c, Apply(st, CommitCall(w))) && st.cursors[p.c].nextIdx == p.start
  {
    assert WorkerOk(st, w);
  }

  /** A call that fails after its 100 probes moves the cursor by exactly 100, issues nothing, and every
      one of the 100 addresses was assigned when it was probed. */
  lemma ExhaustedMovesHundred(steps: seq<Step>, w: WorkerId)
    requires var p := PhaseOf(Run(steps), w); p.Scanning? && |p.times| == MAX_ATTEMPTS
    ensures var p := PhaseOf(Run(steps), w); var st := Run(steps);
      && MovedHundred(st, p.c, Apply(st, CommitCall(w)))
      && ProbedTaken(Log(steps), p.descriptor, st.cursors[p.c].nextIdx, p.times, 100)
  {
    InvariantOfRuns(steps);
    HistoriesOfRuns(steps, w);
    ExhaustedCommit(Run(steps), w);
  }

  // --- A call that nothing interrupts ---

  /** `n` probes of the worker in a row. */
  ghost function Probes(st: State, w: WorkerId, n: nat): State
    decreases n
  {
    if n == 0 then st else Probes(Apply(st, ProbeNext(w)), w, n - 1)
  }

  /** Once the call has its outcome, or no attempt left, a probe does nothing. */
  lemma {:induction false} ProbesDone(st: State, w: WorkerId, n: nat)
    requires PhaseOf(st, w).Scanning? ==> |PhaseOf(st, w).times| == MAX_ATTEMPTS
    ensures Probes(st, w, n) == st.(clock := st.clock + n)
    decreases n
  {
    if n > 0 {
      ProbesDone(Apply(st, ProbeNext(w)), w, n - 1);
    }
  }

  /** What a call leaves: the worker idle and the lock free, the outcome `o` issued or not, the cursor at `next`
      unless it overflowed, nothing else moved. */
  ghost predicate CallEnds(st: State, w: WorkerId, c: CursorId, next: int, o: Outcome, st': State) {
    && c in st.cursors && c in st'.cursors
    && w in st'.workers && st'.workers[w] == Idle && st'.locks == st.locks - {c}
    && st'.taken == st.taken
    && (forall x :: x in st'.cursors && x != c ==> x in st.cursors && st'.cursors[x] == st.cursors[x])
    && st'.cursors[c] == st.cursors[c].(nextIdx := if o.IndexOverflow? then st.cursors[c].nextIdx else next)
    && match o
       case Issued(a, i) =>
         |st'.issues| == |st.issues| + 1 && st'.issues[..|st.issues|] == st.issues
         && var x := st'.issues[|st.issues|]; x.c == c && x.Index() == i && a == Derived(x.descriptor, i)
       case _ => st'.issues == st.issues
  }

  lemma ProbeOutcome(st: State, w: WorkerId)
    requires PhaseOf(st, w).Scanning? && |PhaseOf(st, w).times| < MAX_ATTEMPTS
    ensures var st' := Apply(st, ProbeNext(w));
      st'.cursors == st.cursors && st'.issues == st.issues && st'.taken == st.taken
    ensures var p, st' := PhaseOf(st, w), Apply(st, ProbeNext(w)); var idx := WrapI32(p.start + |p.times|);
      && st'.locks == (if idx < 0 then st.locks - {p.c} else st.locks)
      && w in st'.workers && PhaseOf(st', w) ==
           if idx < 0 then Idle
           else if Derived(p.descriptor, idx) in st.taken
                then Scanning(p.c, p.descriptor, p.start, p.times + [st.clock])
           else Found(p.c, p.descriptor, p.start, p.times + [st.clock])
  {
  }

  lemma IssueEnds(st: State, w: WorkerId)
    requires Inv(st) && PhaseOf(st, w).Found?
    ensures var p := PhaseOf(st, w); var idx := p.start + |p.times| - 1;
      idx >= 0
      && CallEnds(st, w, p.c, WrapI32(idx + 1), Issued(Derived(p.descriptor, idx), idx), Apply(st, CommitCall(w)))
  {
    FoundFacts(st, w);
  }

  lemma CallEndsFrame(a: State, b: State, w: WorkerId, c: CursorId, next: int, o: Outcome, end: State)
    requires CallEnds(b, w, c, next, o, end) && a.cursors == b.cursors && a.issues == b.issues && a.taken == b.taken
    requires a.locks - {c} == b.locks - {c}
    ensures CallEnds(a, w, c, next, o, end)
  {
  }

  /** The attempts a call has left. */
  function Left(p: Phase): int {
    if p.Scanning? then MAX_ATTEMPTS - |p.times| else 0
  }

  /** Probing on and committing does what `Scan` says of the attempts left. */
  ghost predicate CallAgrees(st: State, w: WorkerId, n: nat)
    requires PhaseOf(st, w).Scanning? && |PhaseOf(st, w).times| <= MAX_ATTEMPTS
  {
    var p := PhaseOf(st, w);
    var (next, o) := Scan(p.descriptor, WrapI32(p.start + |p.times|), st.taken, MAX_ATTEMPTS - |p.times|);
    CallEnds(st, w, p.c, next, o, Apply(Probes(st, w, n), CommitCall(w)))
  }

  lemma AgreesOverflow(st: State, w: WorkerId, n: nat)
    requires Inv(st) && PhaseOf(st, w).Scanning? && |PhaseOf(st, w).times| < MAX_ATTEMPTS && n > 0
    requires var p := PhaseOf(st, w); WrapI32(p.start + |p.times|) < 0
    ensures CallAgrees(st, w, n)
  {
    assert WorkerOk(st, w);
    ProbeOutcome(st, w);
    ProbesDone(Apply(st, ProbeNext(w)), w, n - 1);
  }

  lemma ScanSkips(descriptor: string, idx: int, taken: set<Address>, tries: nat)
    requires tries > 0 && idx >= 0 && Derived(descriptor, idx) in taken
    ensures Scan(descriptor, idx, taken, tries) == Scan(descriptor, WrapI32(idx + 1), taken, tries - 1)
  {
  }

  lemma AgreesTaken(st: State, w: WorkerId, n: nat)
    requires Inv(st) && PhaseOf(st, w).Scanning? && |PhaseOf(st, w).times| < MAX_ATTEMPTS && n > 0
    requires var p := PhaseOf(st, w); var idx := WrapI32(p.start + |p.times|);
      idx >= 0 && Derived(p.descriptor, idx) in st.taken && WrapI32(idx + 1) == WrapI32(p.start + |p.times| + 1)
    requires PhaseOf(Apply(st, ProbeNext(w)), w).Scanning? && CallAgrees(Apply(st, ProbeNext(w)), w, n - 1)
    ensures CallAgrees(st, w, n)
  {
    var p, st1 := PhaseOf(st, w), Apply(st, ProbeNext(w));
    var idx := WrapI32(p.start + |p.times|);
    ProbeOutcome(st, w);
    var (next, o) := Scan(p.descriptor, WrapI32(idx + 1), st.taken, MAX_ATTEMPTS - |p.times| - 1);
    ScanSkips(p.descriptor, idx, st.taken, MAX_ATTEMPTS - |p.times|);
    CallEndsFrame(st, st1, w, p.c, next, o, Apply(Probes(st1, w, n - 1), CommitCall(w)));
  }

  lemma AgreesFree(st: State, w: WorkerId, n: nat)
    requires Inv(st) && PhaseOf(st, w).Scanning? && |PhaseOf(st, w).times| < MAX_ATTEMPTS && n > 0
    requires var p := PhaseOf(st, w); var idx := WrapI32(p.start + |p.times|);
      idx == p.start + |p.times| >= 0 && Derived(p.descriptor, idx) !in st.taken
    ensures CallAgrees(st, w, n)
  {
    var p, st1 := PhaseOf(st, w), Apply(st, ProbeNext(w));
    var idx := p.start + |p.times|;
    ProbeOutcome(st, w);
    StepKeeps(st, ProbeNext(w));
    ProbesDone(st1, w, n - 1);
    var probed := Probes(st1, w, n - 1);
    ClockIrrelevant(st1, probed.clock);
    IssueEnds(probed, w);
    CallEndsFrame(st, probed, w, p.c, WrapI32(idx + 1), Issued(Derived(p.descriptor, idx), idx),
                  Apply(probed, CommitCall(w)));
  }

  lemma ClockIrrelevant(st: State, clock: nat)
    requires Inv(st)
    ensures Inv(st.(clock := clock))
  {
    var st' := st.(clock := clock);
    forall w | w in st'.workers ensures WorkerOk(st', w) {
      assert WorkerOk(st, w);
    }
    forall c | c in st'.cursors ensures CursorOk(st', c) {
      assert CursorOk(st, c);
    }
  }

  /** Where the next probe looks, and what the invariant says of it. */
  lemma NextProbe(st: State, w: WorkerId)
    requires Inv(st) && PhaseOf(st, w).Scanning? && |PhaseOf(st, w).times| < MAX_ATTEMPTS
    ensures var p := PhaseOf(st, w); var idx := WrapI32(p.start + |p.times|);
      (idx == p.start + |p.times| || idx < 0) && WrapI32(idx + 1) == WrapI32(p.start + |p.times| + 1)
  {
    var p := PhaseOf(st, w);
    assert WorkerOk(st, w) && CursorOk(st, p.c);
    NoWrapOrOverflow(p.start, p.times);
  }

  lemma TakenProbe(st: State, w: WorkerId)
    requires Inv(st) && PhaseOf(st, w).Scanning? && |PhaseOf(st, w).times| < MAX_ATTEMPTS
    requires var p := PhaseOf(st, w); var idx := WrapI32(p.start + |p.times|);
      idx >= 0 && Derived(p.descriptor, idx) in st.taken
    ensures var st' := Apply(st, ProbeNext(w));
      Inv(st') && PhaseOf(st', w).Scanning? && |PhaseOf(st', w).times| == |PhaseOf(st, w).times| + 1
  {
    ProbeOutcome(st, w);
    StepKeeps(st, ProbeNext(w));
  }

  lemma AgreesDone(st: State, w: WorkerId, n: nat)
    requires Inv(st) && PhaseOf(st, w).Scanning? && |PhaseOf(st, w).times| == MAX_ATTEMPTS
    ensures CallAgrees(st, w, n)
  {
    assert WorkerOk(st, w);
    ProbesDone(st, w, n);
  }

  /** The steps of an uninterrupted call, however often it goes on probing, add up to the loop of the class. */
  lemma {:induction false} UninterruptedCall(st: State, w: WorkerId, n: nat)
    requires Inv(st) && PhaseOf(st, w).Scanning? && 0 <= Left(PhaseOf(st, w)) <= n
    ensures CallAgrees(st, w, n)
    decreases Left(PhaseOf(st, w))
  {
    if Left(PhaseOf(st, w)) == 0 {
      AgreesDone(st, w, n);
    } else {
      var p := PhaseOf(st, w);
      var idx := WrapI32(p.start + |p.times|);
      NextProbe(st, w);
      if idx < 0 {
        AgreesOverflow(st, w, n);
      } else if Derived(p.descriptor, idx) in st.taken {
        TakenProbe(st, w);
        UninterruptedCall(Apply(st, ProbeNext(w)), w, n - 1);
        AgreesTaken(st, w, n);
      } else {
        AgreesFree(st, w, n);
      }
    }
  }

  lemma NoWrapOrOverflow(start: int, times: seq<nat>)
    requires I32(start) && NoWrap(start, times) && |times| < MAX_ATTEMPTS
    ensures var idx := WrapI32(start + |times|);
      (idx == start + |times| || idx < 0) && WrapI32(idx + 1) == WrapI32(start + |times| + 1)
  {
  }

  /** Main result: in any state a run reaches, a worker that is idle calls for a cursor nobody holds: on an archived
      page, or one without the descriptor, nothing happens; otherwise the call ends as one run of the loop over the
      addresses assigned does, with the lock free and nothing else changed. */
  lemma WholeCall(st: State, w: WorkerId, c: CursorId, n: nat)
    requires Inv(st) && (w in st.workers ==> st.workers[w] == Idle) && c in st.cursors && c !in st.locks
    requires n >= MAX_ATTEMPTS
    ensures var page := st.cursors[c]; var end := Apply(Probes(Apply(st, Begin(w, c)), w, n), CommitCall(w));
      if page.archived || page.descriptor.None? then end == st.(clock := end.clock)
      else
        var (next, o) := Scan(page.descriptor.value, page.nextIdx, st.taken, MAX_ATTEMPTS);
        CallEnds(st, w, c, next, o, end)
  {
    var page := st.cursors[c];
    if page.archived || page.descriptor.None? {
      ProbesDone(Apply(st, Begin(w, c)), w, n);
    } else {
      OpenCall(st, w, c, n);
    }
  }

  /** The call begins, with all its attempts. */
  lemma Begins(st: State, w: WorkerId, c: CursorId)
    requires Inv(st) && (w in st.workers ==> st.workers[w] == Idle) && c in st.cursors && c !in st.locks
    requires !st.cursors[c].archived && st.cursors[c].descriptor.Some?
    ensures var begun, page := Apply(st, Begin(w, c)), st.cursors[c];
      && PhaseOf(begun, w) == Scanning(c, page.descriptor.value, page.nextIdx, []) && begun.cursors == st.cursors
      && begun.issues == st.issues && begun.taken == st.taken && begun.locks == st.locks[c := w]
  {
  }

  lemma OpenCall(st: State, w: WorkerId, c: CursorId, n: nat)
    requires Inv(st) && (w in st.workers ==> st.workers[w] == Idle) && c in st.cursors && c !in st.locks
    requires !st.cursors[c].archived && st.cursors[c].descriptor.Some? && n >= MAX_ATTEMPTS
    ensures var page := st.cursors[c];
      var (next, o) := Scan(page.descriptor.value, page.nextIdx, st.taken, MAX_ATTEMPTS);
      CallEnds(st, w, c, next, o, Apply(Probes(Apply(st, Begin(w, c)), w, n), CommitCall(w)))
  {
    var begun, page := Apply(st, Begin(w, c)), st.cursors[c];
    StepKeeps(st, Begin(w, c));
    Begins(st, w, c);
    assert CursorOk(st, c);
    WrapInRange(page.nextIdx);
    UninterruptedCall(begun, w, n);
    var (next, o) := Scan(page.descriptor.value, page.nextIdx, st.taken, MAX_ATTEMPTS);
    CallEndsFrame(st, begun, w, c, next, o, Apply(Probes(begun, w, n), CommitCall(w)));
  }

  // --- Everything else that happens ---

  /** A crash frees the lock the worker holds and moves no cursor. */
  lemma CrashFrees(st: State, w: WorkerId)
    requires Inv(st)
    ensures var st' := Apply(st, Crash(w));
      && st'.cursors == st.cursors && st'.issues == st.issues && st'.taken == st.taken
      && (w in st'.workers ==> st'.workers[w] == Idle)
      && forall c :: c in st'.locks
           <==> c in st.locks && !(w in st.workers && !st.workers[w].Idle? && st.workers[w].c == c)
  {
  }

  /** Addresses are assigned and freed by others; a page edit opens the page, gives a new one a cursor at zero, and
      keeps the cursor of an old one; an archived page keeps everything but the flag. */
  lemma PageEdits(st: State, c: CursorId, descriptor: Option<string>, a: Address)
    ensures Apply(st, Assign(a)) == st.(taken := st.taken + {a}, clock := st.clock + 1)
    ensures Apply(st, Unassign(a)) == st.(taken := st.taken - {a}, clock := st.clock + 1)
    ensures var st' := Apply(st, Upsert(c, descriptor));
      && st' == st.(cursors := st'.cursors, clock := st.clock + 1) && c in st'.cursors
      && (forall x :: x != c ==>
            && (x in st'.cursors <==> x in st.cursors)
            && (x in st.cursors ==> st'.cursors[x] == st.cursors[x]))
      && !st'.cursors[c].archived && (descriptor.Some? ==> st'.cursors[c].descriptor == descriptor)
      && (descriptor.None? ==> st'.cursors[c].descriptor == if c in st.cursors then st.cursors[c].descriptor else None)
      && st'.cursors[c].nextIdx == if c in st.cursors then st.cursors[c].nextIdx else 0
    ensures var st' := Apply(st, Archive(c));
      && st' == st.(cursors := st'.cursors, clock := st.clock + 1) && st'.cursors.Keys == st.cursors.Keys
      && forall x :: x in st.cursors ==>
           st'.cursors[x] == if x == c then st.cursors[x].(archived := true) else st.cursors[x]
  {
  }
}

/** The in-memory sliding-window limiter: a pruned deque of instants per key, against a limiter that
    remembers every request it ever allowed. Instants are ticks since the clock's origin. */
module SlidingWindow {
  import opened Base

  datatype Outcome = Allowed | Limited(count: nat)

  type Deques = map<string, seq<nat>>

  /** `checked_sub`, falling back to the instant itself when the clock is younger than `span`. */
  function Cutoff(now: nat, span: nat): nat {
    if span <= now then now - span else now
  }

  /** `kept` is what is left of `d` from the end. */
  ghost predicate Suffix(kept: seq<nat>, d: seq<nat>) {
    |kept| <= |d| && forall j :: 0 <= j < |kept| ==> kept[j] == d[|d| - |kept| + j]
  }

  function Prune(d: seq<nat>, cutoff: nat): (kept: seq<nat>)
    ensures Suffix(kept, d)
    ensures forall j :: 0 <= j < |d| - |kept| ==> d[j] < cutoff
    ensures kept != [] ==> kept[0] >= cutoff
  {
    if d != [] && d[0] < cutoff then
      var rest := d[1..];
      var kept := Prune(rest, cutoff);
      assert forall j :: 1 <= j < |d| ==> d[j] == rest[j - 1];
      kept
    else d
  }

  function DequeOf(m: Deques, key: string): seq<nat> {
    if key in m then m[key] else []
  }

  datatype Bucket = Bucket(limit: nat, window: nat)

  datatype Op =
    | CheckOp(key: string, now: nat)
    | PeekOp(key: string, now: nat)
    | RecordOp(key: string, now: nat)
    | SweepOp(maxAge: nat, now: nat)

  datatype Answer = Decided(outcome: Outcome) | Counted(n: nat)

  /** Prune, then decide and record if allowed, or count, or record and count. */
  function Answered(d: seq<nat>, op: Op, bucket: Bucket): (seq<nat>, Answer)
    requires !op.SweepOp?
  {
    var p := Prune(d, Cutoff(op.now, bucket.window));
    match op
    case CheckOp(_, now) =>
      if |p| >= bucket.limit then (p, Decided(Limited(|p|))) else (p + [now], Decided(Allowed))
    case PeekOp(_, now) => (p, Counted(|p|))
    case RecordOp(_, now) => (p + [now], Counted(|p| + 1))
  }

  predicate Recent(d: seq<nat>, cutoff: nat) {
    d != [] && d[|d|-1] >= cutoff
  }

  function SweepIdle(m: Deques, maxAge: nat, now: nat): Deques {
    map k | k in m && Recent(m[k], Cutoff(now, maxAge)) :: m[k]
  }

  class InMemorySliding {
    var entries: Deques

    constructor ()
      ensures entries == map[]
    {
      entries := map[];
    }

    method PruneOld(key: string, cutoff: nat) returns (d: seq<nat>)
      modifies this
      ensures d == Prune(DequeOf(old(entries), key), cutoff)
      ensures entries == old(entries)[key := d]
    {
      d := DequeOf(entries, key);
      while d != [] && d[0] < cutoff
        invariant Prune(d, cutoff) == Prune(DequeOf(entries, key), cutoff)
      {
        d := d[1..];
      }
      entries := entries[key := d];
    }

    method CheckAndRecord(key: string, limit: nat, window: nat, now: nat) returns (outcome: Outcome)
      modifies this
      ensures var (d, answer) := Answered(DequeOf(old(entries), key), CheckOp(key, now), Bucket(limit, window));
        entries == old(entries)[key := d] && answer == Decided(outcome)
    {
      var d := PruneOld(key, Cutoff(now, window));
      if |d| >= limit {
        return Limited(|d|);
      }
      entries := entries[key := d + [now]];
      assert entries == old(entries)[key := d + [now]];
      return Allowed;
    }

    method PeekCount(key: string, window: nat, now: nat) returns (count: nat)
      modifies this
      ensures var (d, answer) := Answered(DequeOf(old(entries), key), PeekOp(key, now), Bucket(0, window));
        entries == old(entries)[key := d] && answer == Counted(count)
    {
      var d := PruneOld(key, Cutoff(now, window));
      count := |d|;
    }

    method Record(key: string, window: nat, now: nat) returns (count: nat)
      modifies this
      ensures var (d, answer) := Answered(DequeOf(old(entries), key), RecordOp(key, now), Bucket(0, window));
        entries == old(entries)[key := d] && answer == Counted(count)
    {
      var d := PruneOld(key, Cutoff(now, window));
      entries := entries[key := d + [now]];
      assert entries == old(entries)[key := d + [now]];
      count := |d| + 1;
    }

    method Sweep(maxAge: nat, now: nat) returns (removed: nat)
      modifies this
      ensures entries == SweepIdle(old(entries), maxAge, now)
      ensures removed == |old(entries)| - |entries|
    {
      var before := |entries|;
      ghost var was := entries;
      entries := map k | k in entries && Recent(entries[k], Cutoff(now, maxAge)) :: entries[k];
      assert entries.Keys <= was.Keys;
      SubsetSmaller(entries.Keys, was.Keys);
      removed := before - |entries|;
    }
  }

  // --- The limiter with full history ---

  function CountSince(h: seq<nat>, from: int): nat {
    if h == [] then 0 else CountSince(h[..|h|-1], from) + if h[|h|-1] >= from then 1 else 0
  }

  function CountIn(h: seq<nat>, from: int, to: int): nat {
    if h == [] then 0 else CountIn(h[..|h|-1], from, to) + if from <= h[|h|-1] <= to then 1 else 0
  }

  /** The same, on every request ever recorded. */
  function AnsweredInFull(h: seq<nat>, op: Op, bucket: Bucket): (seq<nat>, Answer)
    requires !op.SweepOp?
  {
    var n := CountSince(h, op.now - bucket.window);
    match op
    case CheckOp(_, now) =>
      if n >= bucket.limit then (h, Decided(Limited(n))) else (h + [now], Decided(Allowed))
    case PeekOp(_, now) => (h, Counted(n))
    case RecordOp(_, now) => (h + [now], Counted(n + 1))
  }

  /** Both limiters after a run, and what each answered. */
  datatype Both = Both(deques: Deques, history: Deques, fast: seq<Answer>, full: seq<Answer>)

  function StepBoth(b: Both, op: Op, cfg: string -> Bucket): Both {
    match op
    case SweepOp(maxAge, now) => b.(deques := SweepIdle(b.deques, maxAge, now))
    case _ =>
      var (d, fast) := Answered(DequeOf(b.deques, op.key), op, cfg(op.key));
      var (h, full) := AnsweredInFull(DequeOf(b.history, op.key), op, cfg(op.key));
      Both(b.deques[op.key := d], b.history[op.key := h], b.fast + [fast], b.full + [full])
  }

  function RunBoth(ops: seq<Op>, cfg: string -> Bucket): Both {
    if ops == [] then Both(map[], map[], [], []) else StepBoth(RunBoth(ops[..|ops|-1], cfg), ops[|ops|-1], cfg)
  }

  /** The clock never goes back. */
  ghost predicate Ordered(ops: seq<Op>) {
    forall i, j :: 0 <= i < j < |ops| ==> ops[i].now <= ops[j].now
  }

  ghost predicate Drops(d: seq<nat>, window: nat, maxAge: nat, now: nat) {
    d != [] && now - window <= d[|d|-1] < Cutoff(now, maxAge)
  }

  /** The guards of the branches that forget. A check, peek or record on a clock younger than its window
      prunes whatever is older than the instant. A sweep drops a key whose last request is before its cutoff
      though still inside the window: on a clock younger than `maxAge`, whose cutoff is the instant itself, that is any
      request but one made at that very instant. */
  ghost predicate Forgets(b: Both, op: Op, cfg: string -> Bucket) {
    match op
    case SweepOp(maxAge, now) => exists key :: Drops(DequeOf(b.deques, key), cfg(key).window, maxAge, now)
    case _ => op.now < cfg(op.key).window && exists t :: t in DequeOf(b.deques, op.key) && t < op.now
  }

  /** After a run that forgot nothing: every deque is its history less what no window reaches any more. */
  ghost predicate Remembers(b: Both, t: nat, cfg: string -> Bucket) {
    forall key :: Linked(DequeOf(b.deques, key), DequeOf(b.history, key), cfg(key).window, t)
  }

  ghost function TimeOf(ops: seq<Op>): nat {
    if ops == [] then 0 else ops[|ops|-1].now
  }

  ghost predicate Sorted(h: seq<nat>) {
    forall i, j :: 0 <= i < j < |h| ==> h[i] <= h[j]
  }

  ghost predicate AllUpTo(h: seq<nat>, t: nat) {
    forall i :: 0 <= i < |h| ==> h[i] <= t
  }

  /** The deque is the history less a prefix that no window can reach any more. */
  ghost predicate Linked(d: seq<nat>, h: seq<nat>, window: nat, t: nat) {
    && Suffix(d, h) && Sorted(h) && AllUpTo(h, t)
    && forall j :: 0 <= j < |h| - |d| ==> h[j] + window < t
  }

  lemma {:induction false} CountSinceSorted(h: seq<nat>, from: int, k: nat)
    requires k <= |h| && Sorted(h)
    requires forall j :: 0 <= j < k ==> h[j] < from
    requires k < |h| ==> h[k] >= from
    ensures CountSince(h, from) == |h| - k
  {
    if h != [] {
      if k == |h| {
        CountSinceSorted(h[..|h|-1], from, k - 1);
      } else {
        CountSinceSorted(h[..|h|-1], from, k);
      }
    }
  }

  lemma PruneLinked(d: seq<nat>, h: seq<nat>, window: nat, t: nat, now: nat)
    requires Linked(d, h, window, t) && t <= now && window <= now
    ensures Linked(Prune(d, now - window), h, window, now)
    ensures var p := Prune(d, now - window); p != [] ==> p[0] >= now - window
  {
    var p := Prune(d, now - window);
    forall j | 0 <= j < |h| - |p| ensures h[j] + window < now {
      if j >= |h| - |d| {
        assert h[j] == d[j - (|h| - |d|)];
      }
    }
  }

  lemma PruneCounts(d: seq<nat>, h: seq<nat>, window: nat, t: nat, now: nat)
    requires Linked(d, h, window, t) && t <= now && window <= now
    ensures |Prune(d, Cutoff(now, window))| == CountSince(h, now - window)
  {
    PruneLinked(d, h, window, t, now);
    var p := Prune(d, now - window);
    if p != [] {
      assert h[|h| - |p|] == p[0];
    }
    CountSinceSorted(h, now - window, |h| - |p|);
  }

  lemma FirstDropped(d: seq<nat>, h: seq<nat>, window: nat, t: nat)
    requires Linked(d, h, window, t) && |d| < |h|
    ensures h[0] + window < t
  {
  }

  /** On a clock younger than the window nothing has left the window, so the deque is the history. */
  lemma YoungLinked(d: seq<nat>, h: seq<nat>, window: nat, t: nat, now: nat)
    requires Linked(d, h, window, t) && t <= now < window
    ensures d == h && CountSince(h, now - window) == |h|
  {
    if |d| < |h| {
      FirstDropped(d, h, window, t);
      assert false;
    }
    CountSinceSorted(h, now - window, 0);
  }

  /** The gap every allowed request keeps to the one `limit` places before it. */
  ghost predicate Spaced(h: seq<nat>, limit: nat, window: nat) {
    (limit == 0 ==> h == []) && forall j :: limit <= j < |h| ==> h[j - limit] + window < h[j]
  }

  lemma AppendSpaced(h: seq<nat>, limit: nat, window: nat, now: nat)
    requires Sorted(h) && AllUpTo(h, now) && Spaced(h, limit, window) && CountSince(h, now - window) < limit
    ensures Spaced(h + [now], limit, window)
  {
    if |h| >= limit {
      var j := |h| - limit;
      if h[j] >= now - window {
        CountAtLeast(h, now - window, j);
      }
    }
  }

  lemma {:induction false} CountAtLeast(h: seq<nat>, from: int, j: nat)
    requires j <= |h| && Sorted(h) && (j < |h| ==> h[j] >= from)
    ensures CountSince(h, from) >= |h| - j
  {
    if j < |h| {
      var init := h[..|h|-1];
      assert j < |init| ==> init[j] == h[j];
      CountAtLeast(init, from, j);
    }
  }

  lemma AppendLinked(p: seq<nat>, h: seq<nat>, window: nat, now: nat)
    requires Linked(p, h, window, now)
    ensures Linked(p + [now], h + [now], window, now)
  {
  }

  /** What a check that forgets nothing prunes to and counts. */
  lemma CheckPrunes(d: seq<nat>, h: seq<nat>, window: nat, t: nat, now: nat)
    requires Linked(d, h, window, t) && t <= now && (window <= now || forall x :: x in d ==> x >= now)
    ensures var p := Prune(d, Cutoff(now, window)); Linked(p, h, window, now) && |p| == CountSince(h, now - window)
  {
    if window <= now {
      PruneLinked(d, h, window, t, now);
      PruneCounts(d, h, window, t, now);
    } else {
      YoungLinked(d, h, window, t, now);
      assert d != [] ==> d[0] in d;
    }
  }

  /** The three operations that prune, on a key they forget nothing of. */
  lemma PruningKeeps(d: seq<nat>, h: seq<nat>, op: Op, bucket: Bucket, t: nat)
    requires !op.SweepOp? && t <= op.now && Linked(d, h, bucket.window, t)
    requires bucket.window <= op.now || forall x :: x in d ==> x >= op.now
    ensures var (d', fast) := Answered(d, op, bucket); var (h', full) := AnsweredInFull(h, op, bucket);
      Linked(d', h', bucket.window, op.now) && fast == full
  {
    CheckPrunes(d, h, bucket.window, t, op.now);
    LinkedAnswers(d, h, op, bucket);
  }

  lemma LinkedAnswers(d: seq<nat>, h: seq<nat>, op: Op, bucket: Bucket)
    requires !op.SweepOp?
    requires var p := Prune(d, Cutoff(op.now, bucket.window));
      Linked(p, h, bucket.window, op.now) && |p| == CountSince(h, op.now - bucket.window)
    ensures var (d', fast) := Answered(d, op, bucket); var (h', full) := AnsweredInFull(h, op, bucket);
      Linked(d', h', bucket.window, op.now) && fast == full
  {
    AppendLinked(Prune(d, Cutoff(op.now, bucket.window)), h, bucket.window, op.now);
  }

  /** A sweep keeps a key linked exactly when it does not drop a request still inside the window. */
  lemma SweptLinkedIff(m: Deques, key: string, h: seq<nat>, window: nat, t: nat, maxAge: nat, now: nat)
    requires Linked(DequeOf(m, key), h, window, t) && t <= now
    ensures var d := DequeOf(m, key);
      Linked(DequeOf(SweepIdle(m, maxAge, now), key), h, window, now)
      <==> !Drops(d, window, maxAge, now)
  {
    var d := DequeOf(m, key);
    if d != [] {
      assert d[|d|-1] == h[|h|-1];
    }
  }

  lemma LinkedLater(d: seq<nat>, h: seq<nat>, window: nat, t: nat, now: nat)
    requires Linked(d, h, window, t) && t <= now
    ensures Linked(d, h, window, now)
  {
  }

  lemma StepBothOk(b: Both, op: Op, cfg: string -> Bucket, t: nat, key: string)
    requires Remembers(b, t, cfg) && t <= op.now && !Forgets(b, op, cfg)
    ensures var b' := StepBoth(b, op, cfg);
      Linked(DequeOf(b'.deques, key), DequeOf(b'.history, key), cfg(key).window, op.now)
  {
    LinkedLater(DequeOf(b.deques, key), DequeOf(b.history, key), cfg(key).window, t, op.now);
    match op
    case SweepOp(maxAge, now) =>
      SweptLinkedIff(b.deques, key, DequeOf(b.history, key), cfg(key).window, t, maxAge, now);
    case _ =>
      if op.key == key {
        PruningKeeps(DequeOf(b.deques, key), DequeOf(b.history, key), op, cfg(key), t);
      }
  }

  /** Nothing is forgotten along the run. */
  ghost predicate NothingForgotten(ops: seq<Op>, cfg: string -> Bucket) {
    forall n :: 0 <= n < |ops| ==> !Forgets(RunBoth(ops[..n], cfg), ops[n], cfg)
  }

  lemma NothingForgottenInit(ops: seq<Op>, cfg: string -> Bucket)
    requires ops != [] && NothingForgotten(ops, cfg)
    ensures NothingForgotten(ops[..|ops|-1], cfg) && !Forgets(RunBoth(ops[..|ops|-1], cfg), ops[|ops|-1], cfg)
  {
    var init := ops[..|ops|-1];
    forall n | 0 <= n < |init| ensures !Forgets(RunBoth(init[..n], cfg), init[n], cfg) {
      assert init[..n] == ops[..n];
    }
  }

  lemma {:induction false} RunBothOk(ops: seq<Op>, cfg: string -> Bucket)
    requires Ordered(ops) && NothingForgotten(ops, cfg)
    ensures Remembers(RunBoth(ops, cfg), TimeOf(ops), cfg)
  {
    if ops != [] {
      var init, last := ops[..|ops|-1], ops[|ops|-1];
      NothingForgottenInit(ops, cfg);
      RunBothOk(init, cfg);
      forall key {
        StepBothOk(RunBoth(init, cfg), last, cfg, TimeOf(init), key);
      }
    }
  }

  lemma {:induction false} SameAnswers(ops: seq<Op>, cfg: string -> Bucket)
    requires Ordered(ops) && NothingForgotten(ops, cfg)
    ensures RunBoth(ops, cfg).fast == RunBoth(ops, cfg).full
  {
    if ops != [] {
      var init, last := ops[..|ops|-1], ops[|ops|-1];
      NothingForgottenInit(ops, cfg);
      SameAnswers(init, cfg);
      if !last.SweepOp? {
        RunBothOk(init, cfg);
        var b := RunBoth(init, cfg);
        PruningKeeps(DequeOf(b.deques, last.key), DequeOf(b.history, last.key), last, cfg(last.key), TimeOf(init));
      }
    }
  }

  // --- Forgetting, and what comes of it ---

  /** A deque whose first request was pruned on a young clock is no longer its history's end, whether the
      two limiters record the new request or not. */
  lemma ForgottenUnlinked(h: seq<nat>, d': seq<nat>, h': seq<nat>, window: nat, now: nat)
    requires now < window && h != [] && h[0] < now && h <= h' && (d' != [] ==> d'[0] >= now)
    ensures !Linked(d', h', window, now)
  {
    if Linked(d', h', window, now) {
      YoungLinked(d', h', window, now, now);
    }
  }

  lemma PruningForgets(d: seq<nat>, h: seq<nat>, op: Op, bucket: Bucket, t: nat)
    requires !op.SweepOp? && t <= op.now < bucket.window && Linked(d, h, bucket.window, t)
    requires exists x :: x in d && x < op.now
    ensures !Linked(Answered(d, op, bucket).0, AnsweredInFull(h, op, bucket).0, bucket.window, op.now)
  {
    YoungLinked(d, h, bucket.window, t, op.now);
    ForgottenUnlinked(h, Answered(d, op, bucket).0, AnsweredInFull(h, op, bucket).0, bucket.window, op.now);
  }

  lemma ForgettingShows(b: Both, op: Op, cfg: string -> Bucket, t: nat)
    requires Remembers(b, t, cfg) && t <= op.now && Forgets(b, op, cfg)
    ensures !Remembers(StepBoth(b, op, cfg), op.now, cfg)
  {
    match op
    case SweepOp(maxAge, now) =>
      var key :| Drops(DequeOf(b.deques, key), cfg(key).window, maxAge, now);
      SweptLinkedIff(b.deques, key, DequeOf(b.history, key), cfg(key).window, t, maxAge, now);
    case _ => PruningForgets(DequeOf(b.deques, op.key), DequeOf(b.history, op.key), op, cfg(op.key), t);
  }

  ghost predicate RemembersAfter(ops: seq<Op>, n: nat, cfg: string -> Bucket)
    requires n <= |ops|
  {
    Remembers(RunBoth(ops[..n], cfg), TimeOf(ops[..n]), cfg)
  }

  lemma RunBothStep(ops: seq<Op>, n: nat, cfg: string -> Bucket)
    requires n < |ops|
    ensures RunBoth(ops[..n + 1], cfg) == StepBoth(RunBoth(ops[..n], cfg), ops[n], cfg)
        && TimeOf(ops[..n + 1]) == ops[n].now
  {
    assert ops[..n + 1][..n] == ops[..n];
  }

  lemma RememberedThenNotForgotten(ops: seq<Op>, n: nat, cfg: string -> Bucket)
    requires n < |ops| && Ordered(ops) && RemembersAfter(ops, n, cfg) && RemembersAfter(ops, n + 1, cfg)
    ensures !Forgets(RunBoth(ops[..n], cfg), ops[n], cfg)
  {
    RunBothStep(ops, n, cfg);
    if Forgets(RunBoth(ops[..n], cfg), ops[n], cfg) {
      ForgettingShows(RunBoth(ops[..n], cfg), ops[n], cfg, TimeOf(ops[..n]));
    }
  }

  lemma NothingForgottenPrefix(ops: seq<Op>, n: nat, cfg: string -> Bucket)
    requires n <= |ops| && NothingForgotten(ops, cfg)
    ensures NothingForgotten(ops[..n], cfg)
  {
    forall k | 0 <= k < n ensures !Forgets(RunBoth(ops[..n][..k], cfg), ops[..n][k], cfg) {
      assert ops[..n][..k] == ops[..k];
    }
  }

  lemma RemembersPrefix(ops: seq<Op>, n: nat, cfg: string -> Bucket)
    requires n <= |ops| && Ordered(ops) && NothingForgotten(ops, cfg)
    ensures RemembersAfter(ops, n, cfg)
  {
    NothingForgottenPrefix(ops, n, cfg);
    RunBothOk(ops[..n], cfg);
  }

  /** Main result, for every run on a clock that never goes back, however young: the deques hold every
      request still inside its window, all along, exactly when no operation meets its guard. */
  lemma RemembersIff(ops: seq<Op>, cfg: string -> Bucket)
    requires Ordered(ops)
    ensures (forall n :: 0 <= n <= |ops| ==> RemembersAfter(ops, n, cfg)) <==> NothingForgotten(ops, cfg)
  {
    if forall n :: 0 <= n <= |ops| ==> RemembersAfter(ops, n, cfg) {
      forall n | 0 <= n < |ops| ensures !Forgets(RunBoth(ops[..n], cfg), ops[n], cfg) {
        RememberedThenNotForgotten(ops, n, cfg);
      }
    }
    if NothingForgotten(ops, cfg) {
      forall n | 0 <= n <= |ops| ensures RemembersAfter(ops, n, cfg) {
        RemembersPrefix(ops, n, cfg);
      }
    }
  }

  /** A sweep on its own: it keeps every request of a key still inside the window exactly when the clock is
      as old as `maxAge`, or the key's last request was made at this instant, or none is inside the window. */
  lemma SweepForgetsIff(m: Deques, key: string, window: nat, maxAge: nat, now: nat)
    requires var d := DequeOf(m, key); Sorted(d) && AllUpTo(d, now)
    requires window <= maxAge
    ensures var d := DequeOf(m, key);
      CountSince(DequeOf(SweepIdle(m, maxAge, now), key), now - window) == CountSince(d, now - window)
      <==> maxAge <= now || (d != [] && d[|d|-1] == now) || CountSince(d, now - window) == 0
  {
    var d := DequeOf(m, key);
    if d != [] && maxAge <= now && d[|d|-1] < now - maxAge {
      CountSinceSorted(d, now - window, |d|);
    }
  }

  /** A run that decides wrongly: at 5000 s on a clock older than the window, a sweep of 7200 s drops a
      request made ten seconds before, and the next one is allowed above the limit. */
  lemma SweepForgetsRun(cfg: string -> Bucket, key: string)
    requires cfg(key) == Bucket(1, 3600)
    ensures var b := RunBoth([CheckOp(key, 4990)] + [SweepOp(7200, 5000)] + [CheckOp(key, 5001)], cfg);
      b.fast == [Decided(Allowed)] + [Decided(Allowed)] && b.full == [Decided(Allowed)] + [Decided(Limited(1))]
  {
    var b1 := Both(map[key := [4990]], map[key := [4990]], [Decided(Allowed)], [Decided(Allowed)]);
    FirstCheckRun(cfg, key, 4990);
    RunSnoc([CheckOp(key, 4990)], SweepOp(7200, 5000), cfg);
    SweptAway(b1, cfg, key);
    RunSnoc([CheckOp(key, 4990)] + [SweepOp(7200, 5000)], CheckOp(key, 5001), cfg);
    CheckedAgain(b1.(deques := map[]), cfg, key);
  }

  lemma FirstCheckRun(cfg: string -> Bucket, key: string, now: nat)
    requires cfg(key).limit > 0
    ensures RunBoth([CheckOp(key, now)], cfg)
      == Both(map[key := [now]], map[key := [now]], [Decided(Allowed)], [Decided(Allowed)])
  {
    assert [] + [CheckOp(key, now)] == [CheckOp(key, now)];
    RunSnoc([], CheckOp(key, now), cfg);
    FirstCheck(cfg(key), key, now);
    var none: Deques, unanswered: seq<Answer> := map[], [];
    assert none[key := [now]] == map[key := [now]] && unanswered + [Decided(Allowed)] == [Decided(Allowed)];
  }

  lemma SweptAway(b: Both, cfg: string -> Bucket, key: string)
    requires b.deques == map[key := [4990]]
    ensures StepBoth(b, SweepOp(7200, 5000), cfg) == b.(deques := map[])
  {
  }

  lemma CheckedAgain(b: Both, cfg: string -> Bucket, key: string)
    requires b.deques == map[] && b.history == map[key := [4990]] && cfg(key) == Bucket(1, 3600)
    ensures var b' := StepBoth(b, CheckOp(key, 5001), cfg);
      b'.fast == b.fast + [Decided(Allowed)] && b'.full == b.full + [Decided(Limited(1))]
  {
    FirstCheck(cfg(key), key, 5001);
    CountOne(4990, 1401);
  }

  lemma CountOne(x: nat, from: int)
    ensures CountSince([x], from) == if x >= from then 1 else 0
  {
    var h: seq<nat> := [x];
    assert h[..|h|-1] == [];
    assert CountSince(h[..|h|-1], from) == 0;
  }

  lemma FirstCheck(bucket: Bucket, key: string, now: nat)
    requires bucket.limit > 0
    ensures Answered([], CheckOp(key, now), bucket) == ([now], Decided(Allowed))
    ensures AnsweredInFull([], CheckOp(key, now), bucket) == ([now], Decided(Allowed))
  {
    var none: seq<nat> := [];
    assert none + [now] == [now];
  }

  lemma {:induction false} SpacedInterval(h: seq<nat>, limit: nat, window: nat, from: int)
    requires Sorted(h) && Spaced(h, limit, window)
    ensures CountIn(h, from, from + window) <= limit
  {
    if h != [] {
      var init, last := h[..|h|-1], h[|h|-1];
      if last > from + window {
        SpacedInterval(init, limit, window, from);
      } else {
        forall j | 0 <= j < |h| - limit ensures h[j] < from {
          assert h[j] <= h[|h| - 1 - limit] < last - window;
        }
        CountInBound(h, from, from + window, if |h| <= limit then 0 else |h| - limit);
      }
    }
  }

  /** Only positions from `k` on can be inside the interval. */
  lemma {:induction false} CountInBound(h: seq<nat>, from: int, to: int, k: nat)
    requires k <= |h| && forall j :: 0 <= j < k ==> h[j] < from
    ensures CountIn(h, from, to) <= |h| - k
  {
    if h != [] {
      CountInBound(h[..|h|-1], from, to, if k == |h| then k - 1 else k);
    }
  }

  /** The closed interval one window long from `from` on holds at most `limit` allowed requests. */
  ghost predicate WithinLimit(history: Deques, key: string, bucket: Bucket, from: int) {
    CountIn(DequeOf(history, key), from, from + bucket.window) <= bucket.limit
  }

  predicate NeverRecorded(ops: seq<Op>, key: string) {
    forall op :: op in ops && op.RecordOp? ==> op.key != key
  }

  lemma CheckKeepsSpaced(h: seq<nat>, op: Op, bucket: Bucket)
    requires op.CheckOp? || op.PeekOp?
    requires SpacedUpTo(h, bucket, op.now)
    ensures SpacedUpTo(AnsweredInFull(h, op, bucket).0, bucket, op.now)
  {
    if op.CheckOp? && CountSince(h, op.now - bucket.window) < bucket.limit {
      AppendSpacedUpTo(h, bucket, op.now);
    }
  }

  lemma AppendSpacedUpTo(h: seq<nat>, bucket: Bucket, now: nat)
    requires SpacedUpTo(h, bucket, now) && CountSince(h, now - bucket.window) < bucket.limit
    ensures SpacedUpTo(h + [now], bucket, now)
  {
    AppendSpaced(h, bucket.limit, bucket.window, now);
  }

  ghost predicate SpacedUpTo(h: seq<nat>, bucket: Bucket, t: nat) {
    Sorted(h) && AllUpTo(h, t) && Spaced(h, bucket.limit, bucket.window)
  }

  /** A history that only checks add to is spaced, whatever the deques forget. */
  lemma {:induction false} HistorySpaced(ops: seq<Op>, cfg: string -> Bucket, key: string)
    requires Ordered(ops) && NeverRecorded(ops, key)
    ensures SpacedUpTo(DequeOf(RunBoth(ops, cfg).history, key), cfg(key), TimeOf(ops))
  {
    if ops != [] {
      var init, last := ops[..|ops|-1], ops[|ops|-1];
      HistorySpaced(init, cfg, key);
      var h := DequeOf(RunBoth(init, cfg).history, key);
      assert AllUpTo(h, last.now);
      if !last.SweepOp? && last.key == key {
        assert last in ops;
        CheckKeepsSpaced(h, last, cfg(key));
      }
    }
  }

  /** Main result: in any run over any keys, with idle sweeps anywhere, in which nothing is forgotten, the
      pruned deques answer every check, peek and record exactly as the full history would; and for every
      key that is only checked no closed interval one window long holds more than `limit` allowed requests. */
  lemma SlidingWindowRefinesHistory(ops: seq<Op>, cfg: string -> Bucket, key: string, from: int)
    requires Ordered(ops) && NothingForgotten(ops, cfg)
    ensures RunBoth(ops, cfg).fast == RunBoth(ops, cfg).full
    ensures NeverRecorded(ops, key) ==> WithinLimit(RunBoth(ops, cfg).history, key, cfg(key), from)
  {
    SameAnswers(ops, cfg);
    if NeverRecorded(ops, key) {
      HistoryWithinLimit(ops, cfg, key, from);
    }
  }

  lemma HistoryWithinLimit(ops: seq<Op>, cfg: string -> Bucket, key: string, from: int)
    requires Ordered(ops) && NeverRecorded(ops, key)
    ensures WithinLimit(RunBoth(ops, cfg).history, key, cfg(key), from)
  {
    HistorySpaced(ops, cfg, key);
    SpacedWithinLimit(RunBoth(ops, cfg).history, key, cfg(key), TimeOf(ops), from);
  }

  lemma SpacedWithinLimit(history: Deques, key: string, bucket: Bucket, t: nat, from: int)
    requires SpacedUpTo(DequeOf(history, key), bucket, t)
    ensures WithinLimit(history, key, bucket, from)
  {
    SpacedInterval(DequeOf(history, key), bucket.limit, bucket.window, from);
  }

  // --- What is forgotten comes to light ---

  /** The requests a pruned deque counts, and those there were. */
  ghost function FastCount(d: seq<nat>, window: nat, now: nat): nat {
    |Prune(d, Cutoff(now, window))|
  }

  ghost function FullCount(h: seq<nat>, window: nat, now: nat): nat {
    CountSince(h, now - window)
  }

  lemma PruneAgain(d: seq<nat>, cutoff: nat, now: nat)
    requires cutoff <= now
    ensures var p := Prune(d, cutoff); Prune(p, cutoff) == p && Prune(p + [now], cutoff) == p + [now]
  {
  }

  /** A check that both allow counts one more for both. */
  lemma BothAllow(d: seq<nat>, h: seq<nat>, key: string, bucket: Bucket, now: nat)
    requires FastCount(d, bucket.window, now) < bucket.limit && FullCount(h, bucket.window, now) < bucket.limit
    ensures var (d', fast) := Answered(d, CheckOp(key, now), bucket);
      fast == Decided(Allowed) && FastCount(d', bucket.window, now) == FastCount(d, bucket.window, now) + 1
    ensures var (h', full) := AnsweredInFull(h, CheckOp(key, now), bucket);
      full == Decided(Allowed) && FullCount(h', bucket.window, now) == FullCount(h, bucket.window, now) + 1
  {
    PruneAgain(d, Cutoff(now, bucket.window), now);
    assert (h + [now])[..|h|] == h;
  }

  /** Once the limit is reached, one of them denies, with a count of its own. */
  lemma Disagree(d: seq<nat>, h: seq<nat>, key: string, bucket: Bucket, now: nat)
    requires FastCount(d, bucket.window, now) < FullCount(h, bucket.window, now)
    requires FullCount(h, bucket.window, now) >= bucket.limit
    ensures var fast, full := Answered(d, CheckOp(key, now), bucket).1, AnsweredInFull(h, CheckOp(key, now), bucket).1;
      && fast != full
      && (FullCount(h, bucket.window, now) == bucket.limit
          ==> fast == Decided(Allowed) && full == Decided(Limited(bucket.limit)))
  {
  }

  /** The full history denies what the deques allow, having counted no more than the limit. */
  ghost predicate Overrun(b: Both, limit: nat) {
    exists i :: 0 <= i < |b.fast| && i < |b.full|
      && b.fast[i] == Decided(Allowed) && b.full[i] == Decided(Limited(limit))
  }

  lemma OverrunStays(b: Both, op: Op, cfg: string -> Bucket, limit: nat)
    requires Overrun(b, limit)
    ensures Overrun(StepBoth(b, op, cfg), limit)
  {
    var i :| 0 <= i < |b.fast| && i < |b.full| && b.fast[i] == Decided(Allowed) && b.full[i] == Decided(Limited(limit));
    var b' := StepBoth(b, op, cfg);
    assert b'.fast[i] == b.fast[i] && b'.full[i] == b.full[i];
  }

  /** `told` goes on from `ops` with checks of one key at one instant. */
  ghost predicate GoesOn(ops: seq<Op>, told: seq<Op>, key: string, now: nat) {
    ops <= told && forall i :: |ops| <= i < |told| ==> told[i] == CheckOp(key, now)
  }

  lemma RunSnoc(ops: seq<Op>, op: Op, cfg: string -> Bucket)
    ensures RunBoth(ops + [op], cfg) == StepBoth(RunBoth(ops, cfg), op, cfg)
  {
    assert (ops + [op])[..|ops|] == ops;
  }

  ghost predicate CountsLess(b: Both, key: string, bucket: Bucket, now: nat) {
    && |b.fast| == |b.full|
    && FastCount(DequeOf(b.deques, key), bucket.window, now) < FullCount(DequeOf(b.history, key), bucket.window, now)
  }

  /** They answered differently; and if no more was ever counted than the limit, the deques allowed what
      the full history denies. */
  ghost predicate Told(b: Both, limit: nat, counted: nat) {
    b.fast != b.full && (counted <= limit ==> Overrun(b, limit))
  }

  lemma DisagreeNow(b: Both, key: string, now: nat, cfg: string -> Bucket)
    requires CountsLess(b, key, cfg(key), now)
    requires FullCount(DequeOf(b.history, key), cfg(key).window, now) >= cfg(key).limit
    ensures Told(StepBoth(b, CheckOp(key, now), cfg), cfg(key).limit,
                 FullCount(DequeOf(b.history, key), cfg(key).window, now))
  {
    Disagree(DequeOf(b.deques, key), DequeOf(b.history, key), key, cfg(key), now);
    var b', i := StepBoth(b, CheckOp(key, now), cfg), |b.fast|;
    assert b'.fast[i] != b'.full[i];
  }

  lemma CountsStillLess(b: Both, key: string, now: nat, cfg: string -> Bucket)
    requires CountsLess(b, key, cfg(key), now)
    requires FullCount(DequeOf(b.history, key), cfg(key).window, now) < cfg(key).limit
    ensures var b' := StepBoth(b, CheckOp(key, now), cfg);
      && CountsLess(b', key, cfg(key), now)
      && FullCount(DequeOf(b'.history, key), cfg(key).window, now)
          == FullCount(DequeOf(b.history, key), cfg(key).window, now) + 1
  {
    BothAllow(DequeOf(b.deques, key), DequeOf(b.history, key), key, cfg(key), now);
  }

  /** The run so far leaves the deques with fewer requests than the `counted` there were. */
  ghost predicate RunCountsLess(ops: seq<Op>, cfg: string -> Bucket, key: string, now: nat, counted: nat) {
    var b := RunBoth(ops, cfg);
    CountsLess(b, key, cfg(key), now) && FullCount(DequeOf(b.history, key), cfg(key).window, now) == counted
  }

  lemma LastCheck(ops: seq<Op>, cfg: string -> Bucket, key: string, now: nat, counted: nat)
    requires RunCountsLess(ops, cfg, key, now, counted) && counted >= cfg(key).limit
    ensures Told(RunBoth(ops + [CheckOp(key, now)], cfg), cfg(key).limit, counted)
  {
    RunSnoc(ops, CheckOp(key, now), cfg);
    DisagreeNow(RunBoth(ops, cfg), key, now, cfg);
  }

  lemma NextCheck(ops: seq<Op>, cfg: string -> Bucket, key: string, now: nat, counted: nat)
    requires RunCountsLess(ops, cfg, key, now, counted) && counted < cfg(key).limit
    ensures RunCountsLess(ops + [CheckOp(key, now)], cfg, key, now, counted + 1)
  {
    RunSnoc(ops, CheckOp(key, now), cfg);
    CountsStillLess(RunBoth(ops, cfg), key, now, cfg);
  }

  /** A check of a key of which the deques count less, and whatever further checks it takes, end in different
      answers. */
  lemma {:induction false} CheckTells(ops: seq<Op>, cfg: string -> Bucket, key: string, now: nat, counted: nat)
    returns (told: seq<Op>)
    requires RunCountsLess(ops, cfg, key, now, counted)
    ensures GoesOn(ops + [CheckOp(key, now)], told, key, now) && Told(RunBoth(told, cfg), cfg(key).limit, counted)
    decreases cfg(key).limit - counted, 0
  {
    if counted < cfg(key).limit {
      NextCheck(ops, cfg, key, now, counted);
      told := ChecksTell(ops + [CheckOp(key, now)], cfg, key, now, counted + 1);
    } else {
      LastCheck(ops, cfg, key, now, counted);
      told := ops + [CheckOp(key, now)];
    }
  }

  lemma {:induction false} ChecksTell(ops: seq<Op>, cfg: string -> Bucket, key: string, now: nat, counted: nat)
    returns (told: seq<Op>)
    requires RunCountsLess(ops, cfg, key, now, counted)
    ensures GoesOn(ops, told, key, now) && Told(RunBoth(told, cfg), cfg(key).limit, counted)
    decreases cfg(key).limit - counted, 1
  {
    told := CheckTells(ops, cfg, key, now, counted);
    GoesOnFrom(ops, told, key, now);
  }

  lemma GoesOnFrom(ops: seq<Op>, told: seq<Op>, key: string, now: nat)
    requires GoesOn(ops + [CheckOp(key, now)], told, key, now)
    ensures GoesOn(ops, told, key, now)
  {
  }

  /** What the guards say of a key in numbers: fewer in the deque than there were. */
  lemma YoungCountsLess(d: seq<nat>, h: seq<nat>, window: nat, t: nat, now: nat)
    requires Linked(d, h, window, t) && t <= now < window && exists x :: x in d && x < now
    ensures FastCount(d, window, now) < FullCount(h, window, now)
  {
    YoungLinked(d, h, window, t, now);
    OldestFirst(d, now);
    PruneShorter(d, now);
  }

  lemma OldestFirst(d: seq<nat>, now: nat)
    requires Sorted(d) && exists x :: x in d && x < now
    ensures d != [] && d[0] < now
  {
    var i :| 0 <= i < |d| && d[i] < now;
    assert i > 0 ==> d[0] <= d[i];
  }

  lemma CountLast(h: seq<nat>, from: int)
    requires h != [] && h[|h|-1] >= from
    ensures CountSince(h, from) > 0
  {
  }

  lemma PeekedCounts(d: seq<nat>, h: seq<nat>, key: string, bucket: Bucket, now: nat)
    ensures FastCount(Answered(d, PeekOp(key, now), bucket).0, bucket.window, now) == FastCount(d, bucket.window, now)
    ensures FullCount(AnsweredInFull(h, PeekOp(key, now), bucket).0, bucket.window, now)
      == FullCount(h, bucket.window, now)
  {
    PruneAgain(d, Cutoff(now, bucket.window), now);
  }

  lemma RecordedCounts(d: seq<nat>, h: seq<nat>, key: string, bucket: Bucket, now: nat)
    ensures FastCount(Answered(d, RecordOp(key, now), bucket).0, bucket.window, now)
      == FastCount(d, bucket.window, now) + 1
    ensures FullCount(AnsweredInFull(h, RecordOp(key, now), bucket).0, bucket.window, now)
      == FullCount(h, bucket.window, now) + 1
  {
    PruneAgain(d, Cutoff(now, bucket.window), now);
    assert (h + [now])[..|h|] == h;
  }

  lemma PeekedCountsLess(ops: seq<Op>, cfg: string -> Bucket, key: string, now: nat, counted: nat)
    requires RunCountsLess(ops, cfg, key, now, counted)
    ensures RunCountsLess(ops + [PeekOp(key, now)], cfg, key, now, counted)
  {
    RunSnoc(ops, PeekOp(key, now), cfg);
    var b := RunBoth(ops, cfg);
    PeekedCounts(DequeOf(b.deques, key), DequeOf(b.history, key), key, cfg(key), now);
  }

  lemma RecordedCountsLess(ops: seq<Op>, cfg: string -> Bucket, key: string, now: nat, counted: nat)
    requires RunCountsLess(ops, cfg, key, now, counted)
    ensures RunCountsLess(ops + [RecordOp(key, now)], cfg, key, now, counted + 1)
  {
    RunSnoc(ops, RecordOp(key, now), cfg);
    var b := RunBoth(ops, cfg);
    RecordedCounts(DequeOf(b.deques, key), DequeOf(b.history, key), key, cfg(key), now);
  }

  lemma SweptCountsLess(ops: seq<Op>, cfg: string -> Bucket, key: string, maxAge: nat, now: nat, t: nat)
    requires var b := RunBoth(ops, cfg); var d := DequeOf(b.deques, key);
      && |b.fast| == |b.full| && Linked(d, DequeOf(b.history, key), cfg(key).window, t)
      && Drops(d, cfg(key).window, maxAge, now)
    ensures RunCountsLess(ops + [SweepOp(maxAge, now)], cfg, key, now,
                          FullCount(DequeOf(RunBoth(ops, cfg).history, key), cfg(key).window, now))
  {
    RunSnoc(ops, SweepOp(maxAge, now), cfg);
    var d, h := DequeOf(RunBoth(ops, cfg).deques, key), DequeOf(RunBoth(ops, cfg).history, key);
    assert d[|d|-1] == h[|h|-1];
    CountLast(h, now - cfg(key).window);
  }

  lemma PruningTells(ops: seq<Op>, op: Op, cfg: string -> Bucket, counted: nat) returns (told: seq<Op>)
    requires !op.SweepOp? && RunCountsLess(ops, cfg, op.key, op.now, counted)
    ensures GoesOn(ops + [op], told, op.key, op.now)
    ensures Told(RunBoth(told, cfg), cfg(op.key).limit, counted + if op.RecordOp? then 1 else 0)
  {
    match op
    case CheckOp(key, now) => told := CheckTells(ops, cfg, key, now, counted);
    case PeekOp(key, now) =>
      PeekedCountsLess(ops, cfg, key, now, counted);
      told := ChecksTell(ops + [op], cfg, key, now, counted);
    case RecordOp(key, now) =>
      RecordedCountsLess(ops, cfg, key, now, counted);
      told := ChecksTell(ops + [op], cfg, key, now, counted + 1);
  }

  lemma {:induction false} CountSinceUpTo(h: seq<nat>, from: int, to: nat)
    requires AllUpTo(h, to)
    ensures CountSince(h, from) == CountIn(h, from, to)
  {
    if h != [] {
      CountSinceUpTo(h[..|h|-1], from, to);
    }
  }

  /** A key that is only checked has never more than `limit` requests inside its window. */
  lemma CheckedCount(ops: seq<Op>, cfg: string -> Bucket, key: string, now: nat)
    requires Ordered(ops) && NeverRecorded(ops, key) && TimeOf(ops) <= now
    ensures FullCount(DequeOf(RunBoth(ops, cfg).history, key), cfg(key).window, now) <= cfg(key).limit
  {
    HistorySpaced(ops, cfg, key);
    SpacedCount(DequeOf(RunBoth(ops, cfg).history, key), cfg(key), TimeOf(ops), now);
  }

  lemma SpacedCount(h: seq<nat>, bucket: Bucket, t: nat, now: nat)
    requires SpacedUpTo(h, bucket, t) && t <= now
    ensures FullCount(h, bucket.window, now) <= bucket.limit
  {
    SpacedInterval(h, bucket.limit, bucket.window, now - bucket.window);
    CountSinceUpTo(h, now - bucket.window, now);
  }

  lemma SweepTells(ops: seq<Op>, maxAge: nat, now: nat, cfg: string -> Bucket)
    returns (told: seq<Op>, key: string, counted: nat)
    requires Ordered(ops) && TimeOf(ops) <= now && NothingForgotten(ops, cfg)
    requires Forgets(RunBoth(ops, cfg), SweepOp(maxAge, now), cfg)
    ensures counted == FullCount(DequeOf(RunBoth(ops, cfg).history, key), cfg(key).window, now)
    ensures GoesOn(ops + [SweepOp(maxAge, now)], told, key, now)
    ensures Told(RunBoth(told, cfg), cfg(key).limit, counted)
  {
    RunBothOk(ops, cfg);
    SameAnswers(ops, cfg);
    var b := RunBoth(ops, cfg);
    key :| Drops(DequeOf(b.deques, key), cfg(key).window, maxAge, now);
    counted := FullCount(DequeOf(b.history, key), cfg(key).window, now);
    SweptCountsLess(ops, cfg, key, maxAge, now, TimeOf(ops));
    told := ChecksTell(ops + [SweepOp(maxAge, now)], cfg, key, now, counted);
  }

  lemma YoungTells(ops: seq<Op>, op: Op, cfg: string -> Bucket) returns (told: seq<Op>, counted: nat)
    requires !op.SweepOp? && Ordered(ops) && TimeOf(ops) <= op.now && NothingForgotten(ops, cfg)
    requires Forgets(RunBoth(ops, cfg), op, cfg)
    ensures counted == FullCount(DequeOf(RunBoth(ops, cfg).history, op.key), cfg(op.key).window, op.now)
    ensures GoesOn(ops + [op], told, op.key, op.now)
    ensures Told(RunBoth(told, cfg), cfg(op.key).limit, counted + if op.RecordOp? then 1 else 0)
  {
    RunBothOk(ops, cfg);
    SameAnswers(ops, cfg);
    var b := RunBoth(ops, cfg);
    counted := FullCount(DequeOf(b.history, op.key), cfg(op.key).window, op.now);
    YoungCountsLess(DequeOf(b.deques, op.key), DequeOf(b.history, op.key), cfg(op.key).window, TimeOf(ops), op.now);
    told := PruningTells(ops, op, cfg, counted);
  }

  lemma FirstForgettingTells(ops: seq<Op>, op: Op, cfg: string -> Bucket) returns (told: seq<Op>, key: string)
    requires Ordered(ops) && TimeOf(ops) <= op.now && NothingForgotten(ops, cfg)
    requires Forgets(RunBoth(ops, cfg), op, cfg)
    ensures GoesOn(ops + [op], told, key, op.now) && RunBoth(told, cfg).fast != RunBoth(told, cfg).full
    ensures NeverRecorded(ops + [op], key) ==> Overrun(RunBoth(told, cfg), cfg(key).limit)
  {
    var counted;
    if op.SweepOp? {
      told, key, counted := SweepTells(ops, op.maxAge, op.now, cfg);
    } else {
      key := op.key;
      told, counted := YoungTells(ops, op, cfg);
    }
    if NeverRecorded(ops + [op], key) {
      assert op in ops + [op] && forall x :: x in ops ==> x in ops + [op];
      CheckedCount(ops, cfg, key, op.now);
    }
  }

  lemma {:induction false} FirstForgetting(ops: seq<Op>, cfg: string -> Bucket) returns (n: nat)
    requires !NothingForgotten(ops, cfg)
    ensures n < |ops| && NothingForgotten(ops[..n], cfg) && Forgets(RunBoth(ops[..n], cfg), ops[n], cfg)
  {
    var k :| 0 <= k < |ops| && Forgets(RunBoth(ops[..k], cfg), ops[k], cfg);
    if NothingForgotten(ops[..k], cfg) {
      n := k;
    } else {
      n := FirstForgetting(ops[..k], cfg);
      assert ops[..k][..n] == ops[..n];
    }
  }

  /** Main result, the converse: a run that forgets has a prefix that, gone on with checks of one key at the
      instant it ends, answers otherwise than the full history; and if that key is only checked, the deques
      allow a request that the full history denies. */
  lemma ForgettingTells(ops: seq<Op>, cfg: string -> Bucket) returns (n: nat, told: seq<Op>, key: string)
    requires Ordered(ops) && !NothingForgotten(ops, cfg)
    ensures n < |ops| && GoesOn(ops[..n] + [ops[n]], told, key, ops[n].now)
    ensures RunBoth(told, cfg).fast != RunBoth(told, cfg).full
    ensures NeverRecorded(ops[..n] + [ops[n]], key) ==> Overrun(RunBoth(told, cfg), cfg(key).limit)
  {
    n := FirstForgetting(ops, cfg);
    OrderedPrefix(ops, n);
    told, key := FirstForgettingTells(ops[..n], ops[n], cfg);
  }

  lemma OrderedPrefix(ops: seq<Op>, n: nat)
    requires Ordered(ops) && n < |ops|
    ensures Ordered(ops[..n]) && TimeOf(ops[..n]) <= ops[n].now
  {
  }

  /** A service whose clock is older than every window and every `maxAge` it uses, each at least a window,
      forgets nothing. */
  lemma OldClockForgetsNothing(ops: seq<Op>, cfg: string -> Bucket)
    requires forall i :: 0 <= i < |ops| ==> match ops[i]
      case SweepOp(maxAge, now) => maxAge <= now && forall key :: cfg(key).window <= maxAge
      case _ => cfg(ops[i].key).window <= ops[i].now
    ensures NothingForgotten(ops, cfg)
  {
  }

  /** Exactly when a check counts its window right: the clock is older than the window, or nothing
      was recorded before the present instant. While the clock is younger, `checked_sub` falls back
      to `now` and older requests are forgotten although they are inside the window. */
  lemma YoungClockIff(d: seq<nat>, window: nat, now: nat)
    requires Sorted(d) && AllUpTo(d, now)
    ensures |Prune(d, Cutoff(now, window))| == CountSince(d, now - window)
      <==> window <= now || forall j :: 0 <= j < |d| ==> d[j] == now
  {
    if window <= now {
      PruneCounts(d, d, window, now, now);
    } else {
      YoungCounts(d, window, now);
    }
  }

  lemma YoungCounts(d: seq<nat>, window: nat, now: nat)
    requires Sorted(d) && AllUpTo(d, now) && now < window
    ensures CountSince(d, now - window) == |d|
    ensures |Prune(d, now)| == |d| <==> forall j :: 0 <= j < |d| ==> d[j] == now
  {
    CountSinceSorted(d, now - window, 0);
    if d != [] {
      if d[0] < now {
        PruneShorter(d, now);
      } else {
        assert Prune(d, now) == d;
        AllNow(d, now);
      }
    }
  }

  lemma AllNow(d: seq<nat>, now: nat)
    requires Sorted(d) && AllUpTo(d, now) && d != [] && d[0] >= now
    ensures forall j :: 0 <= j < |d| ==> d[j] == now
  {
  }

  lemma PruneShorter(d: seq<nat>, cutoff: nat)
    requires d != [] && d[0] < cutoff
    ensures |Prune(d, cutoff)| < |d|
  {
  }
}

/** The chain watcher's gap scan: one poll of a nym probes a window of indices above a cursor read
    earlier, and a payment seen at an index moves the cursor just past it. */
module GapScan {
  import opened Base

  const I32_MAX: int := 0x7FFF_FFFF
  const U32_MAX: int := 0xFFFF_FFFF

  /** A `u32` reinterpreted as `i32`. */
  function AsI32(n: nat): int
    requires n <= U32_MAX
  {
    if n <= I32_MAX then n else n - 0x1_0000_0000
  }

  /** What one probe meets: an empty rate-limit bucket, a backend error, or the history of the script. */
  datatype Probe = Throttled | BackendError | History(used: bool)

  /** Where the loop over `offset..=lookahead` sees a payment. Non-hardened derivation stops at 2^31. */
  function Observed(base: nat, lookahead: nat, probes: seq<Probe>, offset: nat): (r: Option<nat>)
    requires base <= I32_MAX && lookahead <= U32_MAX && |probes| == lookahead + 1 && offset <= lookahead + 1
    ensures r.Some? ==>
      base + offset <= r.value <= I32_MAX && r.value - base <= lookahead && probes[r.value - base] == History(true)
    decreases lookahead + 1 - offset
  {
    if offset > lookahead || base + offset > I32_MAX then None
    else match probes[offset]
      case Throttled => None
      case BackendError => None
      case History(used) => if used then Some(base + offset) else Observed(base, lookahead, probes, offset + 1)
  }

  /** A pass that is not cut short sees a payment if there is one in its window. */
  lemma {:induction false} CompletePassSees(base: nat, lookahead: nat, probes: seq<Probe>, offset: nat, k: nat)
    requires base <= I32_MAX && lookahead <= U32_MAX && |probes| == lookahead + 1
    requires offset <= k <= lookahead && base + k <= I32_MAX && probes[k] == History(true)
    requires forall j :: offset <= j <= k ==> probes[j].History?
    ensures Observed(base, lookahead, probes, offset).Some?
        && Observed(base, lookahead, probes, offset).value <= base + k
    decreases k - offset
  {
    if !probes[offset].used {
      CompletePassSees(base, lookahead, probes, offset + 1, k);
    }
  }

  /** The guarded write: never backwards, except that the last index wraps the cursor to `i32::MIN`. */
  function Advance(cursor: int, active: bool, idx: nat): int
    requires idx <= I32_MAX
  {
    if active && cursor <= AsI32(idx) then AsI32(idx + 1) else cursor
  }

  datatype CachedAddress = CachedAddress(addrIndex: int, fulfilled: bool)

  function Fulfil(rows: map<string, CachedAddress>, idx: nat): map<string, CachedAddress> {
    map o | o in rows :: if rows[o].addrIndex == idx then rows[o].(fulfilled := true) else rows[o]
  }

  /** What a poll that lists the cursor `listedIdx` sees: a parked nym is not looked at. */
  function Seen(listedIdx: int, lookahead: nat, probes: seq<Probe>): Option<nat>
    requires listedIdx <= I32_MAX && lookahead <= U32_MAX && |probes| == lookahead + 1
  {
    if listedIdx < 0 then None else Observed(listedIdx, lookahead, probes, 0)
  }

  class NymRow {
    var active: bool
    var nextAddrIdx: int
    var reservations: map<string, CachedAddress>

    constructor (cursor: int)
      ensures active && nextAddrIdx == cursor && reservations == map[]
    {
      active, nextAddrIdx, reservations := true, cursor, map[];
    }

    /** One nym of one poll; `listedIdx` is the cursor as listed before the poll began. */
    method Poll(listedIdx: int, lookahead: nat, probes: seq<Probe>)
      requires listedIdx <= I32_MAX && lookahead <= U32_MAX && |probes| == lookahead + 1
      modifies this
      ensures active == old(active)
      ensures nextAddrIdx == PolledCursor(old(nextAddrIdx), active, listedIdx, lookahead, probes)
      ensures reservations == match Seen(listedIdx, lookahead, probes)
        case None => old(reservations)
        case Some(idx) => Fulfil(old(reservations), idx)
    {
      if listedIdx < 0 {
        return;
      }
      for offset := 0 to lookahead + 1
        invariant unchanged(this)
        invariant Observed(listedIdx, lookahead, probes, offset) == Observed(listedIdx, lookahead, probes, 0)
      {
        var idx := listedIdx + offset;
        if idx > I32_MAX {
          break;
        }
        match probes[offset]
        case Throttled =>
          break;
        case BackendError =>
          break;
        case History(used) =>
          if used {
            if active && nextAddrIdx <= AsI32(idx) {
              nextAddrIdx := AsI32(idx + 1);
            }
            reservations := map o | o in reservations ::
              if reservations[o].addrIndex == idx then reservations[o].(fulfilled := true) else reservations[o];
            break;
          }
      }
    }
  }

  function PolledCursor(cursor: int, active: bool, listedIdx: int, lookahead: nat, probes: seq<Probe>): int
    requires listedIdx <= I32_MAX && lookahead <= U32_MAX && |probes| == lookahead + 1
  {
    match Seen(listedIdx, lookahead, probes)
    case None => cursor
    case Some(idx) => Advance(cursor, active, idx)
  }

  // --- Repeated polls against a fixed set of used indices ---

  /** One poll of the nym: the row's flag when the cursor is written, the cursor that was listed, and
      what the probes met. */
  datatype Poll = Poll(active: bool, listedIdx: int, probes: seq<Probe>)

  ghost predicate WindowFree(used: set<nat>, c: int, lookahead: nat) {
    forall u :: u in used ==> !(c <= u <= c + lookahead)
  }

  /** `c` is the least index from `start` on with an unused window. */
  ghost predicate IsFixpoint(used: set<nat>, start: int, lookahead: nat, c: int) {
    start <= c && WindowFree(used, c, lookahead) && forall b :: start <= b < c ==> !WindowFree(used, b, lookahead)
  }

  /** The backend tells the truth wherever it answers. */
  ghost predicate Truthful(used: set<nat>, lookahead: nat, p: Poll) {
    |p.probes| == lookahead + 1
    && forall k :: 0 <= k <= lookahead && p.probes[k].History? ==> (p.probes[k].used <==> p.listedIdx + k in used)
  }

  /** The cursor was listed no earlier than the run began, and cursors only grow. */
  ghost predicate PollOk(used: set<nat>, start: int, lookahead: nat, cursor: int, p: Poll) {
    start <= p.listedIdx <= cursor && Truthful(used, lookahead, p)
  }

  /** Nothing stale about the listing, nothing cut short. */
  ghost predicate Complete(cursor: int, p: Poll) {
    p.active && p.listedIdx == cursor && forall k :: 0 <= k < |p.probes| ==> p.probes[k].History?
  }

  ghost predicate Bounds(used: set<nat>, start: int, lookahead: nat) {
    0 <= start <= I32_MAX && lookahead <= U32_MAX && forall u :: u in used ==> u < I32_MAX
  }

  ghost function Cursor(start: int, lookahead: nat, polls: seq<Poll>): int {
    if polls == [] then start
    else
      var before, p := Cursor(start, lookahead, polls[..|polls|-1]), polls[|polls|-1];
      if p.listedIdx <= I32_MAX && lookahead <= U32_MAX && |p.probes| == lookahead + 1
      then PolledCursor(before, p.active, p.listedIdx, lookahead, p.probes)
      else before
  }

  ghost predicate RunOk(used: set<nat>, start: int, lookahead: nat, polls: seq<Poll>) {
    polls == [] ||
    (RunOk(used, start, lookahead, polls[..|polls|-1])
     && PollOk(used, start, lookahead, Cursor(start, lookahead, polls[..|polls|-1]), polls[|polls|-1]))
  }

  ghost function CompletePolls(start: int, lookahead: nat, polls: seq<Poll>): nat {
    if polls == [] then 0
    else
      var init := polls[..|polls|-1];
      CompletePolls(start, lookahead, init)
        + if Complete(Cursor(start, lookahead, init), polls[|polls|-1]) then 1 else 0
  }

  /** The used indices a complete scan still has to pass. */
  ghost function Pending(used: set<nat>, cursor: int, c: int): set<nat> {
    set u | u in used && cursor <= u < c
  }

  ghost function From(used: set<nat>, start: int): set<nat> {
    set u | u in used && start <= u
  }

  /** The fixpoint exists: moving past used indices one by one reaches it. */
  ghost function Fixpoint(used: set<nat>, start: int, lookahead: nat): (c: int)
    ensures IsFixpoint(used, start, lookahead, c)
    ensures c == start || (c - 1 >= 0 && c - 1 in used)
    decreases From(used, start)
  {
    if WindowFree(used, start, lookahead) then start
    else
      var u :| u in used && start <= u <= start + lookahead;
      assert u in From(used, start) && u !in From(used, u + 1) && From(used, u + 1) <= From(used, start);
      Fixpoint(used, u + 1, lookahead)
  }

  /** So there is exactly one. */
  lemma FixpointUnique(used: set<nat>, start: int, lookahead: nat, c: int)
    requires IsFixpoint(used, start, lookahead, c)
    ensures c == Fixpoint(used, start, lookahead)
  {
  }

  /** A poll, partial or stale as it may be, moves the cursor only forward and never past the fixpoint. */
  lemma PollStep(used: set<nat>, start: int, lookahead: nat, cursor: int, c: int, p: Poll)
    requires Bounds(used, start, lookahead) && IsFixpoint(used, start, lookahead, c) && c <= I32_MAX
    requires start <= cursor <= c && PollOk(used, start, lookahead, cursor, p)
    ensures var next := PolledCursor(cursor, p.active, p.listedIdx, lookahead, p.probes);
      && cursor <= next <= c
      && (next == cursor || (next - 1 in used && cursor <= next - 1 < c))
      && (Complete(cursor, p) && cursor < c ==> next > cursor)
  {
    if Complete(cursor, p) && cursor < c {
      assert !WindowFree(used, cursor, lookahead);
      var u :| u in used && cursor <= u <= cursor + lookahead;
      CompletePassSees(cursor, lookahead, p.probes, 0, u - cursor);
    }
    var seen := Observed(p.listedIdx, lookahead, p.probes, 0);
    if seen.Some? {
      var u := seen.value;
      assert p.probes[u - p.listedIdx] == History(true) && u in used && u <= c + lookahead;
    }
  }

  lemma PendingShrinks(used: set<nat>, cursor: int, next: int, c: int)
    requires cursor <= next <= c
    ensures Pending(used, next, c) <= Pending(used, cursor, c)
    ensures |Pending(used, next, c)| <= |Pending(used, cursor, c)|
    ensures next > cursor && next - 1 >= 0 && next - 1 in used ==> |Pending(used, next, c)| < |Pending(used, cursor, c)|
  {
    var small, large := Pending(used, next, c), Pending(used, cursor, c);
    SubsetSmaller(small, large);
    if next > cursor && next - 1 >= 0 && next - 1 in used {
      assert next - 1 in large && next - 1 !in small;
      SubsetSmaller(small, large - {next - 1});
    }
  }

  lemma {:induction false} RunStays(used: set<nat>, start: int, lookahead: nat, polls: seq<Poll>)
    requires Bounds(used, start, lookahead) && RunOk(used, start, lookahead, polls)
    ensures var c := Fixpoint(used, start, lookahead); var now := Cursor(start, lookahead, polls);
      && start <= now <= c
      && (now < c ==> CompletePolls(start, lookahead, polls) + |Pending(used, now, c)| <= |Pending(used, start, c)|)
  {
    var c := Fixpoint(used, start, lookahead);
    if polls != [] {
      var init, p := polls[..|polls|-1], polls[|polls|-1];
      RunStays(used, start, lookahead, init);
      var before := Cursor(start, lookahead, init);
      PollStep(used, start, lookahead, before, c, p);
      PendingShrinks(used, before, Cursor(start, lookahead, polls), c);
    }
  }

  /** Main result: whatever polls are stale, throttled or cut short by errors, the cursor never moves
      back and never overshoots the least index with an unused window; and once as many complete polls
      have run as there were used indices below that one, the cursor is there. */
  lemma GapScanConverges(used: set<nat>, start: int, lookahead: nat, polls: seq<Poll>, p: Poll, c: int)
    requires Bounds(used, start, lookahead) && RunOk(used, start, lookahead, polls + [p])
    requires IsFixpoint(used, start, lookahead, c)
    ensures var now := Cursor(start, lookahead, polls + [p]);
      && start <= Cursor(start, lookahead, polls) <= now <= c
      && (CompletePolls(start, lookahead, polls + [p]) >= |Pending(used, start, c)| ==> now == c)
  {
    FixpointUnique(used, start, lookahead, c);
    assert (polls + [p])[..|polls|] == polls;
    RunStays(used, start, lookahead, polls);
    RunStays(used, start, lookahead, polls + [p]);
    PollStep(used, start, lookahead, Cursor(start, lookahead, polls), c, p);
    var now := Cursor(start, lookahead, polls + [p]);
    if now < c {
      assert c - 1 in Pending(used, now, c);
    }
  }

  /** Every poll of the run is complete, so it counts. */
  lemma {:induction false} AllComplete(start: int, lookahead: nat, polls: seq<Poll>)
    requires forall n :: 0 <= n < |polls| ==> Complete(Cursor(start, lookahead, polls[..n]), polls[n])
    ensures CompletePolls(start, lookahead, polls) == |polls|
  {
    if polls != [] {
      var init := polls[..|polls|-1];
      assert forall n :: 0 <= n < |init| ==> init[..n] == polls[..n];
      AllComplete(start, lookahead, init);
    }
  }

  /** The write moves the cursor forward except at the last index, which wraps it below zero. From there
      a poll that lists the cursor as it is skips the nym; one that listed it before the wrap advances it
      again, past whatever payment it sees. */
  lemma AdvanceForwardIff(cursor: int, active: bool, idx: nat, listedIdx: int, lookahead: nat, probes: seq<Probe>)
    requires 0 <= cursor && idx <= I32_MAX && lookahead <= U32_MAX && |probes| == lookahead + 1 && listedIdx <= I32_MAX
    ensures var next := Advance(cursor, active, idx);
      && (next >= cursor <==> !(active && cursor <= idx == I32_MAX))
      && (next < cursor ==> next < 0)
      && (next < cursor ==> (PolledCursor(next, active, listedIdx, lookahead, probes) == next
                             <==> listedIdx < 0 || Observed(listedIdx, lookahead, probes, 0) in {None, Some(I32_MAX)}))
  {
  }

  // --- Reservations ---

  /** The cached addresses after a run of polls. */
  function Cached(rows: map<string, CachedAddress>, lookahead: nat, polls: seq<Poll>): map<string, CachedAddress>
    requires lookahead <= U32_MAX && forall p :: p in polls ==> p.listedIdx <= I32_MAX && |p.probes| == lookahead + 1
  {
    if polls == [] then rows
    else
      var before, last := Cached(rows, lookahead, polls[..|polls|-1]), polls[|polls|-1];
      assert last in polls;
      match Seen(last.listedIdx, lookahead, last.probes)
      case None => before
      case Some(idx) => Fulfil(before, idx)
  }

  /** Main result: polls add and drop no cached address and give none another index, and they mark one fulfilled
      exactly when a poll saw a payment at its index. */
  lemma {:induction false} FulfilledIff(rows: map<string, CachedAddress>, lookahead: nat, polls: seq<Poll>, o: string)
    requires lookahead <= U32_MAX && forall p :: p in polls ==> p.listedIdx <= I32_MAX && |p.probes| == lookahead + 1
    ensures var after := Cached(rows, lookahead, polls);
      && after.Keys == rows.Keys
      && (o in rows ==>
            && after[o].addrIndex == rows[o].addrIndex
            && (after[o].fulfilled <==>
                  || rows[o].fulfilled
                  || exists p :: p in polls && Seen(p.listedIdx, lookahead, p.probes) == Some(rows[o].addrIndex)))
  {
    if polls != [] {
      var init, last := polls[..|polls|-1], polls[|polls|-1];
      FulfilledIff(rows, lookahead, init, o);
      assert forall p :: p in polls <==> p in init || p == last;
    }
  }

  /** What a poll sees is the first payment of its window, if nothing cuts it short before and the index exists. */
  lemma SeenIff(listedIdx: int, lookahead: nat, probes: seq<Probe>, idx: nat)
    requires listedIdx <= I32_MAX && lookahead <= U32_MAX && |probes| == lookahead + 1
    ensures Seen(listedIdx, lookahead, probes) == Some(idx) <==>
      && 0 <= listedIdx <= idx <= listedIdx + lookahead && idx <= I32_MAX
      && probes[idx - listedIdx] == History(true)
      && forall k :: 0 <= k < idx - listedIdx ==> probes[k] == History(false)
  {
    if listedIdx >= 0 {
      ObservedIff(listedIdx, lookahead, probes, 0, idx);
    }
  }

  lemma {:induction false} ObservedIff(base: nat, lookahead: nat, probes: seq<Probe>, offset: nat, idx: nat)
    requires base <= I32_MAX && lookahead <= U32_MAX && |probes| == lookahead + 1 && offset <= lookahead + 1
    ensures Observed(base, lookahead, probes, offset) == Some(idx) <==>
      && base + offset <= idx <= base + lookahead && idx <= I32_MAX && probes[idx - base] == History(true)
      && forall k :: offset <= k < idx - base ==> probes[k] == History(false)
    decreases lookahead + 1 - offset
  {
    if offset <= lookahead && base + offset <= I32_MAX && probes[offset] == History(false) {
      ObservedIff(base, lookahead, probes, offset + 1, idx);
    }
  }
}

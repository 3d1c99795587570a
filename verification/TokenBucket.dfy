/** The refill-per-second token bucket that guards the Electrum backend. */
module TokenBucket {
  import opened Base

  const TICKS_PER_SEC: nat := 1_000_000_000
  const U32_MAX: nat := 0xFFFF_FFFF

  datatype State = State(capacity: nat, tokens: nat, lastRefill: nat, refillPerSec: nat)

  /** One call: the clock as `elapsed` reads it, and as `Instant::now` reads it after a refill. */
  datatype Call = Call(at: nat, after: nat)

  function Init(ratePerSec: nat, now: nat): State {
    var rate := Max(ratePerSec, 1);
    State(rate, rate, now, rate)
  }

  /** Whole seconds elapsed, as a `u32`. */
  function WholeSeconds(elapsed: nat): nat {
    (elapsed / TICKS_PER_SEC) % (U32_MAX + 1)
  }

  function Refill(s: State, c: Call): State {
    var elapsed := if c.at >= s.lastRefill then c.at - s.lastRefill else 0;
    if elapsed >= TICKS_PER_SEC then
      var add := Min(WholeSeconds(elapsed) * s.refillPerSec, U32_MAX);
      s.(tokens := Min(Min(s.tokens + add, U32_MAX), s.capacity), lastRefill := c.after)
    else s
  }

  function TryConsume(s: State, c: Call): (State, bool) {
    var r := Refill(s, c);
    if r.tokens > 0 then (r.(tokens := r.tokens - 1), true) else (r, false)
  }

  class Bucket {
    const capacity: nat
    var tokens: nat
    var lastRefill: nat
    const refillPerSec: nat

    ghost function View(): State
      reads this
    {
      State(capacity, tokens, lastRefill, refillPerSec)
    }

    constructor (ratePerSec: nat, now: nat)
      ensures View() == Init(ratePerSec, now)
    {
      capacity, tokens, lastRefill, refillPerSec := Max(ratePerSec, 1), Max(ratePerSec, 1), now, Max(ratePerSec, 1);
    }

    method Take(c: Call) returns (ok: bool)
      modifies this
      ensures (View(), ok) == TryConsume(old(View()), c)
    {
      TopUp(c);
      ok := tokens > 0;
      if ok {
        tokens := tokens - 1;
      }
    }

    method TopUp(c: Call)
      modifies this
      ensures View() == Refill(old(View()), c)
    {
      var elapsed := if c.at >= lastRefill then c.at - lastRefill else 0;
      if elapsed >= TICKS_PER_SEC {
        var add := Min(WholeSeconds(elapsed) * refillPerSec, U32_MAX);
        tokens := Min(Min(tokens + add, U32_MAX), capacity);
        lastRefill := c.after;
      }
    }
  }

  // --- Throughput ---

  function Successes(s: State, calls: seq<Call>): nat
    decreases |calls|
  {
    if calls == [] then 0
    else
      var (s', ok) := TryConsume(s, calls[0]);
      (if ok then 1 else 0) + Successes(s', calls[1..])
  }

  function After(s: State, calls: seq<Call>): State
    decreases |calls|
  {
    if calls == [] then s else After(TryConsume(s, calls[0]).0, calls[1..])
  }

  /** Clock readings of successive calls never go back, and start no earlier than `from`. */
  ghost predicate Ticking(calls: seq<Call>, from: nat)
    decreases |calls|
  {
    calls != [] ==> from <= calls[0].at <= calls[0].after && Ticking(calls[1..], calls[0].after)
  }

  ghost predicate Within(calls: seq<Call>, to: nat) {
    forall c :: c in calls ==> c.at <= to
  }

  ghost predicate Ok(s: State) {
    s.tokens <= s.capacity == s.refillPerSec && s.capacity >= 1
  }

  lemma {:induction false} TokensStayBounded(s: State, calls: seq<Call>)
    requires Ok(s)
    ensures Ok(After(s, calls)) && After(s, calls).capacity == s.capacity
    decreases |calls|
  {
    if calls != [] {
      TokensStayBounded(TryConsume(s, calls[0]).0, calls[1..]);
    }
  }

  function SecondsBetween(a: nat, b: nat): nat {
    if b <= a then 0 else (b - a) / TICKS_PER_SEC
  }

  lemma SecondsSplit(a: nat, m: nat, b: nat)
    requires a + TICKS_PER_SEC <= m <= b
    ensures SecondsBetween(m, b) + 1 <= SecondsBetween(a, b)
  {
    assert (m - a) / TICKS_PER_SEC >= 1;
    assert b - a == (b - m) + (m - a);
    assert (b - a) / TICKS_PER_SEC >= (b - m + TICKS_PER_SEC) / TICKS_PER_SEC;
    assert (b - m + TICKS_PER_SEC) / TICKS_PER_SEC == (b - m) / TICKS_PER_SEC + 1;
  }

  /** From a state on, the calls up to `to` spend at most the tokens there and one bucketful for each
      whole second that fits after the last refill. */
  lemma {:induction false} SpendBound(s: State, calls: seq<Call>, from: nat, to: nat)
    requires Ok(s) && s.lastRefill <= from && Ticking(calls, from) && Within(calls, to)
    ensures Successes(s, calls) <= s.tokens + s.capacity * SecondsBetween(s.lastRefill, to)
    decreases |calls|
  {
    if calls != [] {
      var c, rest := calls[0], calls[1..];
      var r := Refill(s, c);
      var s' := TryConsume(s, c).0;
      assert c in calls && c.at <= to;
      SpendBound(s', rest, c.after, to);
      if r.lastRefill != s.lastRefill || c.at - s.lastRefill >= TICKS_PER_SEC {
        if c.after <= to {
          SecondsSplit(s.lastRefill, c.after, to);
          MulStep(s.capacity, SecondsBetween(c.after, to), SecondsBetween(s.lastRefill, to));
        } else {
          SecondsSplit(s.lastRefill, c.at, c.at);
          SecondsMonotone(s.lastRefill, c.at, to);
          MulStep(s.capacity, 0, SecondsBetween(s.lastRefill, to));
        }
      }
    }
  }

  lemma SecondsMonotone(a: nat, b: nat, c: nat)
    requires b <= c
    ensures SecondsBetween(a, b) <= SecondsBetween(a, c)
  {
    if a < b {
      assert b - a <= c - a;
    }
  }

  lemma MulStep(k: nat, x: nat, y: nat)
    requires x + 1 <= y
    ensures k + k * x <= k * y
  {
    assert k * (x + 1) <= k * y;
  }

  /** Main result: whatever the calls before it, a closed interval of `T` whole seconds admits at most
      `(T + 1) * rate` successful calls. Discarding the fraction of a second at each refill, the
      `u32` truncation of the elapsed seconds and the two clock reads never break the bound. */
  lemma Throughput(ratePerSec: nat, start: nat, before: seq<Call>, calls: seq<Call>, from: nat, T: nat)
    requires Ticking(before + calls, start)
    requires calls != [] ==> from <= calls[0].at
    requires Within(calls, from + T * TICKS_PER_SEC)
    ensures Successes(After(Init(ratePerSec, start), before), calls) <= (T + 1) * Max(ratePerSec, 1)
  {
    var s := After(Init(ratePerSec, start), before);
    TokensStayBounded(Init(ratePerSec, start), before);
    var last := TickingSplit(Init(ratePerSec, start), before, calls, start);
    IntervalBound(s, calls, last, from, T);
    assert (T + 1) * s.capacity == s.capacity * T + s.capacity;
  }

  lemma FewSeconds(l: nat, from: nat, T: nat)
    requires from < l + TICKS_PER_SEC
    ensures SecondsBetween(l, from + T * TICKS_PER_SEC) <= T
  {
    var to := from + T * TICKS_PER_SEC;
    if l < to {
      assert to - l < (T + 1) * TICKS_PER_SEC;
    }
  }

  /** The first call of the interval either refills, or finds a refill less than a second old. */
  lemma IntervalBound(s: State, calls: seq<Call>, last: nat, from: nat, T: nat)
    requires Ok(s) && s.lastRefill <= last && Ticking(calls, last)
    requires calls != [] ==> from <= calls[0].at
    requires Within(calls, from + T * TICKS_PER_SEC)
    ensures Successes(s, calls) <= s.capacity * T + s.capacity
  {
    if calls != [] {
      var c, to := calls[0], from + T * TICKS_PER_SEC;
      var r := Refill(s, c);
      assert Ok(r);
      SpendBound(TryConsume(s, c).0, calls[1..], c.after, to);
      FewSeconds(r.lastRefill, from, T);
      MulMonotone(s.capacity, SecondsBetween(r.lastRefill, to), T);
    }
  }

  lemma MulMonotone(k: nat, x: nat, y: nat)
    requires x <= y
    ensures k * x <= k * y
  {
  }

  lemma {:induction false} TickingSplit(s: State, before: seq<Call>, calls: seq<Call>, start: nat) returns (last: nat)
    requires Ticking(before + calls, start) && s.lastRefill <= start
    ensures Ticking(calls, last) && After(s, before).lastRefill <= last
    decreases |before|
  {
    if before == [] {
      assert before + calls == calls;
      last := start;
    } else {
      assert (before + calls)[1..] == before[1..] + calls;
      last := TickingSplit(TryConsume(s, before[0]).0, before[1..], calls, before[0].after);
    }
  }

  // --- The bucket gives what it holds ---

  /** A refill never takes tokens away, so a held token is granted and at most one is gone. */
  lemma HeldTokenGranted(s: State, c: Call)
    requires Ok(s) && s.capacity <= U32_MAX && s.tokens > 0
    ensures var (s', ok) := TryConsume(s, c); ok && Ok(s') && s'.capacity == s.capacity && s'.tokens >= s.tokens - 1
  {
    RefillAdds(s, c);
  }

  lemma RefillAdds(s: State, c: Call)
    requires Ok(s) && s.capacity <= U32_MAX
    ensures var r := Refill(s, c); Ok(r) && r.capacity == s.capacity && r.tokens >= s.tokens
  {
    var elapsed := if c.at >= s.lastRefill then c.at - s.lastRefill else 0;
    assert 0 <= WholeSeconds(elapsed) * s.refillPerSec;
  }

  lemma {:induction false} HeldTokensGranted(s: State, calls: seq<Call>)
    requires Ok(s) && s.capacity <= U32_MAX && |calls| <= s.tokens
    ensures Successes(s, calls) == |calls|
    decreases |calls|
  {
    if calls != [] {
      HeldTokenGranted(s, calls[0]);
      HeldTokensGranted(TryConsume(s, calls[0]).0, calls[1..]);
    }
  }

  lemma WholeRefill(s: State, c: Call)
    requires Ok(s) && s.capacity <= U32_MAX && c.at >= s.lastRefill + TICKS_PER_SEC
        && WholeSeconds(c.at - s.lastRefill) >= 1
    ensures Refill(s, c).tokens == s.capacity
  {
    MulMonotone(s.refillPerSec, 1, WholeSeconds(c.at - s.lastRefill));
  }

  /** The bound's partner: after a second without a refill a burst of a whole bucketful succeeds, however
      the calls are spaced. The `u32` cast is why the elapsed seconds must not be a multiple of 2^32. */
  lemma IdleSecondGrants(s: State, calls: seq<Call>)
    requires Ok(s) && s.capacity <= U32_MAX && calls != [] && |calls| <= s.capacity
    requires calls[0].at >= s.lastRefill + TICKS_PER_SEC && WholeSeconds(calls[0].at - s.lastRefill) >= 1
    ensures Successes(s, calls) == |calls|
  {
    WholeRefill(s, calls[0]);
    RefillAdds(s, calls[0]);
    HeldTokensGranted(TryConsume(s, calls[0]).0, calls[1..]);
  }

  /** A new bucket is full: the first calls up to the rate succeed whenever they come, and the next one fails
      if all come within the second. A rate of zero acts as one. */
  lemma FreshGrants(ratePerSec: nat, start: nat, calls: seq<Call>, c: Call)
    requires ratePerSec <= U32_MAX && |calls| == Max(ratePerSec, 1)
    ensures Successes(Init(ratePerSec, start), calls) == |calls|
    ensures Ticking(calls + [c], start) && c.at < start + TICKS_PER_SEC ==>
      Successes(Init(ratePerSec, start), calls + [c]) == |calls|
  {
    HeldTokensGranted(Init(ratePerSec, start), calls);
    if Ticking(calls + [c], start) && c.at < start + TICKS_PER_SEC {
      Drained(Init(ratePerSec, start), calls, c, start);
    }
  }

  /** Within a second of the last refill nothing comes in. */
  lemma {:induction false} Drained(s: State, calls: seq<Call>, c: Call, from: nat)
    requires s.lastRefill <= from && Ticking(calls + [c], from) && c.at < s.lastRefill + TICKS_PER_SEC
    requires |calls| == s.tokens
    ensures Successes(s, calls + [c]) == |calls|
    decreases |calls|
  {
    var all := calls + [c];
    if calls == [] {
      assert all == [c] && all[1..] == [];
    } else {
      assert all[1..] == calls[1..] + [c] && all[0] == calls[0];
      LastIsLatest(calls, c, from);
      Drained(s.(tokens := s.tokens - 1), calls[1..], c, calls[0].after);
    }
  }

  lemma {:induction false} LastIsLatest(calls: seq<Call>, c: Call, from: nat)
    requires calls != [] && Ticking(calls + [c], from)
    ensures calls[0].at <= c.at
    decreases |calls|
  {
    var all := calls + [c];
    assert all[1..] == calls[1..] + [c];
    if |calls| > 1 {
      LastIsLatest(calls[1..], c, calls[0].after);
    } else {
      assert all[1] == c;
    }
  }

  /** One refill: nothing within the second; otherwise a bucketful for each whole second, counted modulo 2^32, up
      to the capacity, and the fraction of a second is lost. */
  lemma RefillIff(s: State, c: Call)
    requires Ok(s) && s.capacity <= U32_MAX
    ensures var secs := if c.at < s.lastRefill then 0 else (c.at - s.lastRefill) / 1_000_000_000;
      if secs == 0 then Refill(s, c) == s
      else Refill(s, c) == s.(lastRefill := c.after,
                              tokens := Min(s.capacity, s.tokens + s.capacity * (secs % 4_294_967_296)))
  {
    var secs := if c.at < s.lastRefill then 0 else (c.at - s.lastRefill) / 1_000_000_000;
    if secs > 0 && secs % 4_294_967_296 > 0 {
      MulMonotone(s.capacity, 1, secs % 4_294_967_296);
    }
  }

  /** So a bucket left alone for exactly 2^32 seconds gets nothing. */
  lemma WrappedIdle(s: State, c: Call)
    requires Ok(s) && s.capacity <= U32_MAX && c.at == s.lastRefill + 4_294_967_296 * 1_000_000_000
    ensures Refill(s, c) == s.(lastRefill := c.after)
  {
    RefillIff(s, c);
  }

  lemma {:induction false} SuccessesSplit(s: State, before: seq<Call>, calls: seq<Call>)
    ensures Successes(s, before + calls) == Successes(s, before) + Successes(After(s, before), calls)
    decreases |before|
  {
    if before == [] {
      assert before + calls == calls;
    } else {
      assert (before + calls)[1..] == before[1..] + calls;
      SuccessesSplit(TryConsume(s, before[0]).0, before[1..], calls);
    }
  }
}

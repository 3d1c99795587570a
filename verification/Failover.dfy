/** The Electrum client's reconnect-and-retry loop over its ring of servers. */
module Failover {
  import opened Base

  /** What one operation gives on one connection. Server-side (`Protocol`) errors leave the connection
      healthy; every other error is a transport error. */
  datatype Reply = Value(value: string) | ProtocolError(error: string) | TransportError(error: string)

  /** What a server does while one call runs. */
  datatype Server = Refuses(error: string) | Serves(reply: Reply)

  /** A live connection: whose it is, and what the operation gives on it, which for a connection made
      before the call need not be what a new one would give. */
  datatype Conn = Conn(url: nat, reply: Reply)

  datatype Link = Link(client: Option<Conn>, urlIdx: nat)

  /** The reply, the link left behind, and the servers asked, in order. */
  datatype Outcome = Outcome(reply: Reply, link: Link, asked: seq<nat>)

  predicate LinkOk(n: nat, link: Link) {
    link.urlIdx < n && (link.client.Some? ==> link.client.value.url == link.urlIdx)
  }

  function Next(n: nat, idx: nat): (r: nat)
    requires idx < n
    ensures r < n
  {
    if idx + 1 == n then 0 else idx + 1
  }

  lemma NextIsModular(n: nat, idx: nat)
    requires idx < n
    ensures Next(n, idx) == (idx + 1) % n
  {
  }

  /** The server `j` places on from `idx`. */
  function Ring(n: nat, idx: nat, j: nat): (r: nat)
    requires idx < n
    ensures r < n
    decreases j
  {
    if j == 0 then idx else Ring(n, Next(n, idx), j - 1)
  }

  lemma {:induction false} RingClosed(n: nat, idx: nat, j: nat)
    requires idx < n && j <= n
    ensures Ring(n, idx, j) == if idx + j < n then idx + j else idx + j - n
    decreases j
  {
    if j > 0 {
      RingClosed(n, Next(n, idx), j - 1);
    }
  }

  /** How far on from `idx` server `u` is. */
  function Distance(n: nat, idx: nat, u: nat): (j: nat)
    requires idx < n && u < n
    ensures j < n && (j == 0 <==> u == idx)
  {
    if u >= idx then u - idx else u + n - idx
  }

  lemma DistanceReaches(n: nat, idx: nat, u: nat)
    requires idx < n && u < n
    ensures Ring(n, idx, Distance(n, idx, u)) == u
  {
    RingClosed(n, idx, Distance(n, idx, u));
  }

  function Attempts(n: nat): nat {
    Max(n, 2)
  }

  /** The run from `link` with `tries` operations and `budget` connection attempts left. */
  function Walk(servers: seq<Server>, link: Link, tries: nat, budget: nat, last: Option<string>): (o: Outcome)
    requires LinkOk(|servers|, link)
    ensures LinkOk(|servers|, o.link)
    ensures o.reply.TransportError? <==> o.link.client.None? || tries == 0
    decreases tries, budget, if link.client.None? then 1 else 0
  {
    if tries == 0 then Outcome(TransportError(last.GetOr("electrum retries exhausted")), link, [])
    else match link.client
      case None =>
        if budget == 0 then Outcome(TransportError(last.GetOr("no electrum urls reachable")), link, [])
        else (match servers[link.urlIdx]
          case Refuses(e) => Walk(servers, Link(None, Next(|servers|, link.urlIdx)), tries, budget - 1, Some(e))
          case Serves(reply) => Walk(servers, Link(Some(Conn(link.urlIdx, reply)), link.urlIdx), tries, budget, last))
      case Some(conn) =>
        if conn.reply.TransportError? then
          var o := Walk(servers, Link(None, Next(|servers|, link.urlIdx)), tries - 1, |servers|,
              Some(conn.reply.error));
          o.(asked := [link.urlIdx] + o.asked)
        else Outcome(conn.reply, link, [link.urlIdx])
  }

  class ElectrumClient {
    const urls: nat
    var client: Option<Conn>
    var urlIdx: nat

    ghost predicate Valid() reads this {
      LinkOk(urls, Link(client, urlIdx))
    }

    /** The first server that accepts, or none: the client still comes up. */
    constructor (servers: seq<Server>)
      requires servers != []
      ensures Valid() && urls == |servers|
      ensures client.Some? ==> servers[urlIdx] == Serves(client.value.reply)
      ensures forall j :: 0 <= j < (if client.Some? then urlIdx else |servers|) ==> servers[j].Refuses?
      ensures client.None? ==> urlIdx == 0
    {
      urls := |servers|;
      var chosen, at := None, 0;
      for i := 0 to |servers|
        invariant chosen.None? && at == 0
        invariant forall j :: 0 <= j < i ==> servers[j].Refuses?
      {
        if servers[i].Serves? {
          chosen, at := Some(Conn(i, servers[i].reply)), i;
          break;
        }
      }
      client, urlIdx := chosen, at;
    }

    method RunOp(servers: seq<Server>) returns (r: Reply, ghost asked: seq<nat>)
      requires Valid() && |servers| == urls
      modifies this
      ensures Valid()
      ensures Outcome(r, Link(client, urlIdx), asked)
           == Walk(servers, old(Link(client, urlIdx)), Attempts(urls), urls, None)
    {
      var maxAttempts := Attempts(urls);
      var last: Option<string> := None;
      asked := [];
      ghost var whole := Walk(servers, Link(client, urlIdx), maxAttempts, urls, None);
      for attempt := 0 to maxAttempts
        invariant Valid()
        invariant whole == After(asked, Walk(servers, Link(client, urlIdx), maxAttempts - attempt, urls, last))
      {
        if client.None? {
          for step := 0 to urls
            invariant Valid() && client.None?
            invariant whole == After(asked, Walk(servers, Link(None, urlIdx), maxAttempts - attempt, urls - step, last))
          {
            match servers[urlIdx]
            case Serves(reply) =>
              client := Some(Conn(urlIdx, reply));
              break;
            case Refuses(e) =>
              last := Some(e);
              NextIsModular(urls, urlIdx);
              urlIdx := (urlIdx + 1) % urls;
          }
          if client.None? {
            return TransportError(last.GetOr("no electrum urls reachable")), asked;
          }
        }
        match client.value.reply
        case TransportError(e) =>
          AfterAsking(asked, urlIdx,
              Walk(servers, Link(None, Next(urls, urlIdx)), maxAttempts - attempt - 1, urls, Some(e)));
          asked := asked + [urlIdx];
          client := None;
          NextIsModular(urls, urlIdx);
          urlIdx := (urlIdx + 1) % urls;
          last := Some(e);
        case _ =>
          asked := asked + [urlIdx];
          return client.value.reply, asked;
      }
      r := TransportError(last.GetOr("electrum retries exhausted"));
    }
  }

  ghost function After(asked: seq<nat>, o: Outcome): Outcome {
    o.(asked := asked + o.asked)
  }

  lemma AfterAsking(asked: seq<nat>, url: nat, o: Outcome)
    ensures After(asked, o.(asked := [url] + o.asked)) == After(asked + [url], o)
  {
    assert asked + ([url] + o.asked) == asked + [url] + o.asked;
  }

  predicate Good(s: Server) {
    s.Serves? && !s.reply.TransportError?
  }

  /** None of the `d` servers from `idx` on is good. */
  predicate NoneGood(servers: seq<Server>, idx: nat, d: nat)
    requires idx < |servers|
    decreases d
  {
    d == 0 || (!Good(servers[idx]) && NoneGood(servers, Next(|servers|, idx), d - 1))
  }

  lemma {:induction false} NoneGoodAt(servers: seq<Server>, idx: nat, d: nat, j: nat)
    requires idx < |servers| && NoneGood(servers, idx, d) && j < d
    ensures !Good(servers[Ring(|servers|, idx, j)])
    decreases d
  {
    if j > 0 {
      NoneGoodAt(servers, Next(|servers|, idx), d - 1, j - 1);
    }
  }

  lemma {:induction false} AllBad(servers: seq<Server>, idx: nat, d: nat)
    requires idx < |servers| && forall u :: 0 <= u < |servers| ==> !Good(servers[u])
    ensures NoneGood(servers, idx, d)
    decreases d
  {
    if d > 0 {
      AllBad(servers, Next(|servers|, idx), d - 1);
    }
  }

  /** Those of the `d` servers from `idx` on that accept a connection, in ring order. */
  ghost function Ups(servers: seq<Server>, idx: nat, d: nat): (r: seq<nat>)
    requires idx < |servers|
    ensures |r| <= d
    decreases d
  {
    if d == 0 then []
    else (if servers[idx].Serves? then [idx] else []) + Ups(servers, Next(|servers|, idx), d - 1)
  }

  /** Fewer than `d` accept exactly when one of them, found here, refuses. */
  lemma {:induction false} SomeRefuses(servers: seq<Server>, idx: nat, d: nat) returns (j: nat)
    requires idx < |servers| && |Ups(servers, idx, d)| < d
    ensures j < d && servers[Ring(|servers|, idx, j)].Refuses?
    decreases d
  {
    if servers[idx].Refuses? {
      j := 0;
    } else {
      var k := SomeRefuses(servers, Next(|servers|, idx), d - 1);
      j := k + 1;
    }
  }

  lemma {:induction false} RefusalCounts(servers: seq<Server>, idx: nat, d: nat, j: nat)
    requires idx < |servers| && j < d && servers[Ring(|servers|, idx, j)].Refuses?
    ensures |Ups(servers, idx, d)| < d
    decreases d
  {
    if j > 0 {
      RefusalCounts(servers, Next(|servers|, idx), d - 1, j - 1);
    }
  }

  /** Disconnected at `idx`, the first good server of the ring, `d` places on, is reached exactly when
      fewer than `tries` others accept a connection before it. */
  lemma {:induction false} ReachedIff(servers: seq<Server>, idx: nat, tries: nat, budget: nat,
                                      last: Option<string>, d: nat)
    requires idx < |servers| && d < |servers| && d < budget
    requires Good(servers[Ring(|servers|, idx, d)]) && NoneGood(servers, idx, d)
    ensures var o := Walk(servers, Link(None, idx), tries, budget, last); var t := Ring(|servers|, idx, d);
      if |Ups(servers, idx, d)| < tries
      then o == Outcome(servers[t].reply, Link(Some(Conn(t, servers[t].reply)), t), Ups(servers, idx, d) + [t])
      else o.reply.TransportError? && |o.asked| == tries
    decreases d
  {
    if d > 0 && tries > 0 {
      match servers[idx]
      case Refuses(e) => ReachedIff(servers, Next(|servers|, idx), tries, budget - 1, Some(e), d - 1);
      case Serves(reply) => ReachedIff(servers, Next(|servers|, idx), tries - 1, |servers|, Some(reply.error), d - 1);
    }
  }

  /** A server `j` places on that accepts is asked, when none up to it is good. */
  lemma {:induction false} Asked(servers: seq<Server>, idx: nat, tries: nat, budget: nat, last: Option<string>, j: nat)
    requires idx < |servers| && j < |servers| && j < budget && j < tries && NoneGood(servers, idx, j + 1)
    requires servers[Ring(|servers|, idx, j)].Serves?
    ensures Ring(|servers|, idx, j) in Walk(servers, Link(None, idx), tries, budget, last).asked
    decreases j
  {
    var next := Next(|servers|, idx);
    match servers[idx]
    case Refuses(e) =>
      Asked(servers, next, tries, budget - 1, Some(e), j - 1);
    case Serves(reply) =>
      var o := Walk(servers, Link(Some(Conn(idx, reply)), idx), tries, budget, last);
      if j > 0 {
        Asked(servers, next, tries - 1, |servers|, Some(reply.error), j - 1);
        assert o.asked[1..] == Walk(servers, Link(None, next), tries - 1, |servers|, Some(reply.error)).asked;
      } else {
        assert o.asked[0] == idx;
      }
  }

  /** Without a good server the call fails, disconnected. */
  lemma {:induction false} NoGoodFails(servers: seq<Server>, link: Link, tries: nat, budget: nat, last: Option<string>)
    requires LinkOk(|servers|, link) && forall u :: 0 <= u < |servers| ==> !Good(servers[u])
    requires link.client.Some? ==> link.client.value.reply.TransportError? && tries > 0
    ensures var o := Walk(servers, link, tries, budget, last); o.reply.TransportError? && o.link.client.None?
    decreases tries, budget, if link.client.None? then 1 else 0
  {
    if tries > 0 {
      var n, next := |servers|, Next(|servers|, link.urlIdx);
      match link.client
      case None =>
        if budget > 0 {
          assert !Good(servers[link.urlIdx]);
          match servers[link.urlIdx]
          case Refuses(e) => NoGoodFails(servers, Link(None, next), tries, budget - 1, Some(e));
          case Serves(reply) =>
            NoGoodFails(servers, Link(Some(Conn(link.urlIdx, reply)), link.urlIdx), tries, budget, last);
        }
      case Some(conn) =>
        NoGoodFails(servers, Link(None, next), tries - 1, n, Some(conn.reply.error));
    }
  }

  /** `d` places on from `idx` is the first good server. */
  ghost predicate FirstGood(servers: seq<Server>, idx: nat, d: nat)
    requires idx < |servers|
  {
    && d < |servers| && Good(servers[Ring(|servers|, idx, d)])
    && forall j: nat :: j < d ==> !Good(servers[Ring(|servers|, idx, j)])
  }

  lemma {:induction false} FindFirstGood(servers: seq<Server>, idx: nat, bound: nat) returns (d: nat)
    requires idx < |servers| && Good(servers[Ring(|servers|, idx, bound)])
    ensures d <= bound && Good(servers[Ring(|servers|, idx, d)]) && NoneGood(servers, idx, d)
    decreases bound
  {
    if Good(servers[idx]) {
      d := 0;
    } else {
      var k := FindFirstGood(servers, Next(|servers|, idx), bound - 1);
      d := k + 1;
    }
  }

  /** Main result: a call that starts disconnected ends with the reply of the first good server in ring
      order from `urlIdx`, connected there, every server that accepts before it asked once and in order;
      it fails only when no server is good, and then every server that accepts a connection was asked. */
  lemma FailoverRing(servers: seq<Server>, idx: nat)
    requires idx < |servers|
    ensures var n := |servers|; var o := Walk(servers, Link(None, idx), Attempts(n), n, None);
      && (o.reply.TransportError? <==> forall u :: 0 <= u < n ==> !Good(servers[u]))
      && (o.reply.TransportError? ==>
            o.link.client.None? && forall u :: 0 <= u < n && servers[u].Serves? ==> u in o.asked)
      && (!o.reply.TransportError? ==> exists d :: FirstGood(servers, idx, d) && o == AnsweredAt(servers, idx, d))
  {
    var n := |servers|;
    var o := Walk(servers, Link(None, idx), Attempts(n), n, None);
    if u :| 0 <= u < n && Good(servers[u]) {
      DistanceReaches(n, idx, u);
      var d := FindFirstGood(servers, idx, Distance(n, idx, u));
      forall j: nat | j < d ensures !Good(servers[Ring(n, idx, j)]) {
        NoneGoodAt(servers, idx, d, j);
      }
      ReachedIff(servers, idx, Attempts(n), n, None, d);
      assert FirstGood(servers, idx, d) && o == AnsweredAt(servers, idx, d);
    } else {
      NoGoodFails(servers, Link(None, idx), Attempts(n), n, None);
      forall u | 0 <= u < n && servers[u].Serves? ensures u in o.asked {
        DistanceReaches(n, idx, u);
        AllBad(servers, idx, Distance(n, idx, u) + 1);
        Asked(servers, idx, Attempts(n), n, None, Distance(n, idx, u));
      }
    }
  }

  ghost function AnsweredAt(servers: seq<Server>, idx: nat, d: nat): Outcome
    requires idx < |servers| && FirstGood(servers, idx, d)
  {
    var t := Ring(|servers|, idx, d);
    Outcome(servers[t].reply, Link(Some(Conn(t, servers[t].reply)), t), Ups(servers, idx, d) + [t])
  }

  /** Some other server refuses exactly when fewer than all the others accept. */
  lemma OthersAccept(servers: seq<Server>, idx: nat)
    requires idx < |servers|
    ensures var n := |servers|;
      |Ups(servers, Next(n, idx), n - 1)| < n - 1 <==> exists u :: 0 <= u < n && u != idx && servers[u].Refuses?
  {
    var n, next := |servers|, Next(|servers|, idx);
    if |Ups(servers, next, n - 1)| < n - 1 {
      var j := SomeRefuses(servers, next, n - 1);
      RingClosed(n, next, j);
      assert servers[Ring(n, next, j)].Refuses?;
    }
    if u :| 0 <= u < n && u != idx && servers[u].Refuses? {
      DistanceReaches(n, next, u);
      RefusalCounts(servers, next, n - 1, Distance(n, next, u));
    }
  }

  /** Some server but `idx` is good exactly when the first good one from the next on comes before `idx`. */
  lemma FirstGoodIsAnother(servers: seq<Server>, idx: nat, d: nat)
    requires idx < |servers| && d < |servers|
    requires var next := Next(|servers|, idx);
      Good(servers[Ring(|servers|, next, d)]) && NoneGood(servers, next, d)
    ensures Ring(|servers|, Next(|servers|, idx), d) == idx <==> d == |servers| - 1
    ensures d < |servers| - 1 <==> exists u :: 0 <= u < |servers| && u != idx && Good(servers[u])
  {
    var n, next := |servers|, Next(|servers|, idx);
    RingClosed(n, next, d);
    if d == n - 1 {
      forall u | 0 <= u < n && u != idx ensures !Good(servers[u]) {
        DistanceReaches(n, next, u);
        NoneGoodAt(servers, next, d, Distance(n, next, u));
      }
    } else {
      assert Good(servers[Ring(n, next, d)]);
    }
  }

  /** Main result: a connection that has gone stale uses up one of the attempts, so the call succeeds exactly
      when another server is good, or its own is and the ring has no other server or one that refuses; and
      what it then answers is the reply of the first good server from the next on. */
  lemma StaleConnection(servers: seq<Server>, idx: nat, e: string)
    requires idx < |servers|
    ensures var n := |servers|;
      var o := Walk(servers, Link(Some(Conn(idx, TransportError(e))), idx), Attempts(n), n, None);
      && (!o.reply.TransportError? <==>
            || (exists u :: 0 <= u < n && u != idx && Good(servers[u]))
            || (Good(servers[idx]) && (n == 1 || exists u :: 0 <= u < n && u != idx && servers[u].Refuses?)))
      && (!o.reply.TransportError? ==> exists d ::
            FirstGood(servers, Next(n, idx), d) && o.reply == servers[Ring(n, Next(n, idx), d)].reply)
  {
    var n, next := |servers|, Next(|servers|, idx);
    if u :| 0 <= u < n && Good(servers[u]) {
      DistanceReaches(n, next, u);
      var d := FindFirstGood(servers, next, Distance(n, next, u));
      FirstGoodIsAnother(servers, idx, d);
      EnoughAttempts(servers, idx, d);
      StaleReaches(servers, idx, e, d);
    } else {
      StaleWalk(servers, idx, e);
      NoGoodFails(servers, Link(None, next), Attempts(n) - 1, n, Some(e));
    }
  }

  lemma EnoughAttempts(servers: seq<Server>, idx: nat, d: nat)
    requires idx < |servers| && d < |servers|
    ensures var n := |servers|;
      |Ups(servers, Next(n, idx), d)| < Attempts(n) - 1
      <==> d < n - 1 || n == 1 || exists u :: 0 <= u < n && u != idx && servers[u].Refuses?
  {
    OthersAccept(servers, idx);
  }

  lemma StaleReaches(servers: seq<Server>, idx: nat, e: string, d: nat)
    requires idx < |servers| && d < |servers|
    requires var next := Next(|servers|, idx);
      Good(servers[Ring(|servers|, next, d)]) && NoneGood(servers, next, d)
    ensures var n, next := |servers|, Next(|servers|, idx);
      var reply := Walk(servers, Link(Some(Conn(idx, TransportError(e))), idx), Attempts(n), n, None).reply;
      && FirstGood(servers, next, d)
      && (!reply.TransportError? <==> |Ups(servers, next, d)| < Attempts(n) - 1)
      && (!reply.TransportError? ==> reply == servers[Ring(n, next, d)].reply)
  {
    var n, next := |servers|, Next(|servers|, idx);
    StaleWalk(servers, idx, e);
    ReachedIff(servers, next, Attempts(n) - 1, n, Some(e), d);
    forall j: nat | j < d ensures !Good(servers[Ring(n, next, j)]) {
      NoneGoodAt(servers, next, d, j);
    }
  }

  lemma StaleWalk(servers: seq<Server>, idx: nat, e: string)
    requires idx < |servers|
    ensures var n := |servers|;
      Walk(servers, Link(Some(Conn(idx, TransportError(e))), idx), Attempts(n), n, None).reply
      == Walk(servers, Link(None, Next(n, idx)), Attempts(n) - 1, n, Some(e)).reply
  {
  }
}

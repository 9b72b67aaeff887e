/** Rings of one, two and three members, and requests to them, as reached by whole runs. */
module SmallRings {
  import opened Identifiers
  import opened Nodes
  import opened Calls
  import opened Membership
  import opened MembershipLocks
  import opened RingSafety
  import opened KeySafety
  import opened Traces
  import opened Churn

  // ---- requests ------------------------------------------------------------------------

  /** An active node that knows its predecessor and finds the hash in its range, clear of its
      surrogate, serves it. */
  predicate Open(net: Network, x: Id, h: Id) {
    && x in net && net[x].phase == Active && net[x].pred.Some? && Between(net[x].pred.value, h, x, true)
    && (net[x].surrogate.Some? ==> !Between(x, h, net[x].surrogate.value, true))
  }

  lemma RequestArrives(strict: bool, s: State, mid: State, c: nat, x: Id, h: Id)
    requires Reaches(strict, s, mid) && c !in mid.calls && Open(mid.net, x, h)
    ensures Reaches(strict, s, WithCall(mid, c, Found(x, h))) && Serving(WithCall(mid, c, Found(x, h)), c, x, h)
  {
    ReachNext(strict, s, mid, BeginRequest(c, x, h));
    var s1 := WithCall(mid, c, Looking(x, h, x));
    assert s1 == DoBegin(mid, c, Looking(x, h, x));
    ReadNext(strict, s, s1, c, Found(x, h));
    assert WithCall(s1, c, Found(x, h)) == WithCall(mid, c, Found(x, h));
  }

  /** Two nodes open for the same hash both get to serve it at once. */
  lemma BothServe(s: State, mid: State, c: nat, d: nat, x: Id, y: Id, h: Id) returns (events: seq<Event>, s': State)
    requires Reaches(false, s, mid) && c !in mid.calls && d !in mid.calls && c != d && Open(mid.net, x, h)
    requires Open(mid.net, y, h)
    ensures Runs(s, events, s') && Serving(s', c, x, h) && Serving(s', d, y, h)
  {
    RequestArrives(false, s, mid, c, x, h);
    var s1 := WithCall(mid, c, Found(x, h));
    RequestArrives(false, s, s1, d, y, h);
    s' := WithCall(s1, d, Found(y, h));
    events := ReachedByRun(false, s, s');
  }

  lemma Lenient(s: State, s': State)
    requires Reaches(true, s, s')
    ensures Reaches(false, s, s')
  {
    var states: seq<State>, events: seq<Event> :| TraceFrom(true, s, states, events, s');
    forall i | 0 <= i < |events| ensures Taken(false, states, events, i) { assert Taken(true, states, events, i); }
    assert TraceFrom(false, s, states, events, s');
  }

  /** A client stores `v` under `k` at an open node. */
  lemma ClientWrites(s: State, mid: State, c: nat, x: Id, k: Key, v: Entry) returns (s': State)
    requires Reaches(true, s, mid) && c !in mid.calls && Open(mid.net, x, mid.hash(k))
    ensures Reaches(true, s, s') && x in mid.net
    ensures s' == mid.(net := mid.net[x := mid.net[x].(store := mid.net[x].store[k := v])], data := mid.data[k := v])
  {
    RequestArrives(true, s, mid, c, x, mid.hash(k));
    var s1 := WithCall(mid, c, Found(x, mid.hash(k)));
    ReachNext(true, s, s1, Write(c, k, Some(v)));
    s' := DoWrite(s1, c, k, Some(v));
    assert s'.calls == mid.calls;
  }

  // ---- one, two and three members --------------------------------------------------------

  /** The ring is `p` alone, no operation is under way, and everybody else has not started. */
  ghost predicate Lone(s: State, p: Id) {
    && p in s.net && s.ring == {p} && s.ops == map[]
    && s.net[p].phase == Active && s.net[p].pred == Some(p) && Heads(s.net, p, p) && s.net[p].surrogate == None
    && forall m :: m in s.net && m != p ==> s.net[m].phase == Inactive && Untouched(s.net, m)
  }

  lemma CreatedIsLone(s: State, p: Id)
    requires Created(s, p)
    ensures Reaches(true, s, s) && Lone(s, p) && s.calls == map[]
  {
    CreatedIsSafe(s, p);
    ReachesItself(true, s);
  }

  /** The ring is `p` and `x`, no operation is under way, and everybody else has not started. */
  ghost predicate Pair(s: State, p: Id, x: Id) {
    && p in s.net && x in s.net && p != x && s.ring == {p, x} && s.ops == map[]
    && s.net[p].phase == Active && s.net[x].phase == Active
    && s.net[p].pred == Some(x) && s.net[x].pred == Some(p) && s.net[x].surrogate == None
    && Heads(s.net, p, x) && Heads(s.net, x, p)
    && forall m :: m in s.net && m != p && m != x ==> s.net[m].phase == Inactive && Untouched(s.net, m)
  }

  lemma SecondMember(s: State, mid: State, p: Id, x: Id) returns (s': State)
    requires Reaches(true, s, mid) && Lone(mid, p) && 1 !in mid.calls && x in mid.net && x != p
    ensures Reaches(true, s, s') && Pair(s', p, x)
    ensures s'.net.Keys == mid.net.Keys && s'.calls == mid.calls && s'.data == mid.data && s'.hash == mid.hash
  {
    BetweenIsDistance(p, x, p);
    JoinRuns(true, s, mid, 0, 1, x, p, p);
    s' := AfterJoin(mid, 0, x, p, p);
    JoinedPointers(mid, 0, x, p, p);
  }

  /** The ring is `p`, `j` and `x` in this order, and no operation is under way. */
  ghost predicate Trio(s: State, p: Id, j: Id, x: Id) {
    && p in s.net && j in s.net && x in s.net && p != j && j != x && p != x && s.ring == {p, j, x} && s.ops == map[]
    && s.net[p].phase == Active && s.net[j].phase == Active && s.net[x].phase == Active
    && s.net[p].pred == Some(x) && s.net[j].pred == Some(p) && s.net[x].pred == Some(j) && s.net[j].surrogate == None
    && Heads(s.net, p, j) && Heads(s.net, j, x) && Heads(s.net, x, p)
    && forall m :: m in s.net && m !in s.ring ==> s.net[m].phase == Inactive && Untouched(s.net, m)
  }

  /** A third member joins while a call of `p` waits. */
  lemma ThirdMember(s: State, mid: State, p: Id, j: Id, x: Id) returns (s': State)
    requires Reaches(true, s, mid) && Pair(mid, p, x) && 1 !in mid.calls && j in mid.net && Between(p, j, x, false)
    ensures Reaches(true, s, s') && Trio(s', p, j, x) && s'.calls == mid.calls && s'.net.Keys == mid.net.Keys
  {
    BetweenIsDistance(p, j, x);
    JoinRuns(true, s, mid, 0, 1, j, x, p);
    s' := AfterJoin(mid, 0, j, x, p);
    JoinedPointers(mid, 0, j, x, p);
  }
}

/** Finger maintenance and the ring walk, both built on lookups. */
module FingerTables {
  import opened Identifiers
  import opened RingOrder
  import opened Nodes
  import opened Routing

  /** A network that does not change while a lookup runs. */
  function Still(net: Network): nat -> Network {
    (_: nat) => net
  }

  /** One finger repaired: a failed lookup leaves the entry as it was. */
  function FixK(net: Network, n: Id, k: nat): Network
    requires n in net && 1 <= k <= FINGERS
  {
    match FindSuccessor(Still(net), 0, n, FingerTarget(n, k)).outcome
    case Ok(f) => net[n := net[n].(fingers := net[n].fingers[k := Some(f)])]
    case Err(_) => net
  }

  /** The network after fingers 1..k of `n` have been repaired in turn. */
  function FixUpTo(net: Network, n: Id, k: nat): (net': Network)
    requires n in net && k <= FINGERS
    ensures net'.Keys == net.Keys
  {
    if k == 0 then net else FixK(FixUpTo(net, n, k - 1), n, k)
  }

  /** A whole pass over the finger table of `n`. */
  function FixFingers(net: Network, n: Id): (net': Network)
    requires n in net
    ensures net'.Keys == net.Keys
  {
    FixUpTo(net, n, |net[n].fingers| - 1)
  }

  class FingerTask {
    var net: Network

    constructor (net: Network)
      ensures this.net == net
    {
      this.net := net;
    }

    /** The periodic pass: every finger is looked up through the table being repaired. */
    method FixFinger(n: Id) returns (fixed: seq<nat>)
      requires n in net
      modifies this
      ensures net == FixFingers(old(net), n)
      ensures forall k :: 1 <= k <= FINGERS ==> (k in fixed <==> net[n].fingers[k] != old(net)[n].fingers[k])
    {
      fixed := [];
      var k := 1;
      while k <= FINGERS
        invariant 1 <= k <= FINGERS + 1
        invariant n in net && n in old(net)
        invariant net == FixUpTo(old(net), n, k - 1)
        invariant Noted(old(net)[n].fingers, net[n].fingers, fixed, k)
      {
        var found := FindSuccessor(Still(net), 0, n, FingerTarget(n, k)).outcome;
        var entry := net[n].fingers[k];
        NoteOne(old(net)[n].fingers, net[n].fingers, fixed, k, if found.Ok? then Some(found.value) else entry);
        if found.Ok? {
          if entry.None? || entry.value != found.value { fixed := fixed + [k]; }
          net := net[n := net[n].(fingers := net[n].fingers[k := Some(found.value)])];
        }
        k := k + 1;
      }
    }
  }

  /** `fixed` lists the fingers below `k` that changed, and no other has. */
  ghost predicate Noted(was: Fingers, now: Fingers, fixed: seq<nat>, k: nat) {
    && (forall j :: j in fixed ==> 1 <= j < k)
    && (forall j :: 1 <= j <= FINGERS ==> (if j < k then j in fixed <==> now[j] != was[j] else now[j] == was[j]))
  }

  lemma NoteOne(was: Fingers, now: Fingers, fixed: seq<nat>, k: nat, entry: Option<Id>)
    requires 1 <= k <= FINGERS && Noted(was, now, fixed, k)
    ensures Noted(was, now[k := entry], if now[k] != entry then fixed + [k] else fixed, k + 1)
  {
    assert now[k := now[k]] == now;
  }

  /** A pass changes nothing but the fingers of `n`. */
  lemma {:induction false} FixUpToFrame(net: Network, n: Id, k: nat)
    requires n in net && k <= FINGERS
    ensures var net' := FixUpTo(net, n, k);
            && net' == net[n := net[n].(fingers := net'[n].fingers)]
            && forall j :: k < j <= FINGERS ==> net'[n].fingers[j] == net[n].fingers[j]
  {
    if k > 0 { FixUpToFrame(net, n, k - 1); }
  }

  /** One repaired finger is exact, whatever members the tables held, and the ring stays routable. */
  lemma FixKExact(net: Network, ring: set<Id>, n: Id, k: nat)
    requires Routable(net, ring) && n in ring && n in net && 1 <= k <= FINGERS
    ensures ring != {}
    ensures FixK(net, n, k) == net[n := net[n].(fingers := net[n].fingers[k := Some(Owner(ring, FingerTarget(n, k)))])]
    ensures Routable(FixK(net, n, k), ring)
  {
    LookupFindsOwner(Still(net), ring, 0, n, FingerTarget(n, k));
    var after := FixK(net, n, k);
    forall m | m in ring ensures RoutableNode(after, ring, m) {
      assert RoutableNode(net, ring, m);
    }
  }

  lemma {:induction false} FixUpToExact(net: Network, ring: set<Id>, n: Id, k: nat)
    requires Routable(net, ring) && n in ring && n in net && k <= FINGERS
    ensures var net' := FixUpTo(net, n, k);
            && Routable(net', ring)
            && forall j :: 1 <= j <= k ==>
                 net'[n].fingers[j].Some? && IsOwner(ring, FingerTarget(n, j), net'[n].fingers[j].value)
  {
    if k > 0 {
      FixUpToExact(net, ring, n, k - 1);
      FixKExact(FixUpTo(net, n, k - 1), ring, n, k);
    }
  }

  ghost predicate ExactAt(net: Network, ring: set<Id>, n: Id) {
    && n in net
    && forall k :: 1 <= k <= FINGERS ==>
         net[n].fingers[k].Some? && IsOwner(ring, FingerTarget(n, k), net[n].fingers[k].value)
  }

  /** One pass makes every finger of `n` the owner of its target and disturbs nobody else. */
  lemma PassMakesFingersExact(net: Network, ring: set<Id>, n: Id)
    requires Routable(net, ring) && n in ring && n in net
    ensures var net' := FixFingers(net, n);
            && Routable(net', ring)
            && ExactAt(net', ring, n)
            && forall m :: m in net && m != n ==> net'[m] == net[m]
  {
    FixUpToExact(net, ring, n, |net[n].fingers| - 1);
    FixUpToFrame(net, n, |net[n].fingers| - 1);
  }

  /** The network after the nodes in `order` have each run a pass. */
  function Passes(net: Network, order: seq<Id>): (net': Network)
    requires forall n :: n in order ==> n in net
    ensures net'.Keys == net.Keys
  {
    if order == [] then net
    else FixFingers(Passes(net, order[..|order| - 1]), order[|order| - 1])
  }

  lemma {:induction false} PassesExact(net: Network, ring: set<Id>, order: seq<Id>)
    requires Routable(net, ring)
    requires forall n :: n in order ==> n in net && n in ring
    ensures var net' := Passes(net, order);
            Routable(net', ring) && forall n :: n in order ==> ExactAt(net', ring, n)
  {
    if order != [] {
      var rest, last := order[..|order| - 1], order[|order| - 1];
      PassesExact(net, ring, rest);
      PassMakesFingersExact(Passes(net, rest), ring, last);
      forall n | n in order ensures ExactAt(Passes(net, order), ring, n) {
        if n != last { assert n in rest; }
      }
    }
  }

  /** Once every member has run a pass, in any order, no lookup is forwarded more than 48 times
      and each one finds the owner. */
  lemma SettledLookups(net: Network, ring: set<Id>, order: seq<Id>, n: Id, key: Id)
    requires Routable(net, ring)
    requires forall m :: m in ring <==> m in order
    requires forall m :: m in order ==> m in net
    requires n in ring
    ensures var found := FindSuccessor(Still(Passes(net, order)), 0, n, key);
            && found.hop <= 48
            && ring != {} && found.outcome == Ok(Owner(ring, key))
  {
    PassesExact(net, ring, order);
    var net' := Passes(net, order);
    forall m, k | m in ring && m in net' && 1 <= k <= FINGERS
      ensures net'[m].fingers[k].Some? && IsOwner(ring, FingerTarget(m, k), net'[m].fingers[k].value)
    {
      assert ExactAt(net', ring, m);
    }
    AtMost48Forwards(Still(net'), ring, n, key);
    LookupFindsOwner(Still(net'), ring, 0, n, key);
  }

  // ---- the ring walk ------------------------------------------------------

  /** The lookup made by step `i` of a walk from `n` that last reached `prev`. */
  function NextStop(rounds: nat -> nat -> Network, n: Id, i: nat, prev: Id): Result<Id> {
    FindSuccessor(rounds(i), 0, n, ModuloSum(prev, 1)).outcome
  }

  function StopBefore(n: Id, nodes: seq<Id>, i: nat): Id
    requires i <= |nodes|
  {
    if i == 0 then n else nodes[i - 1]
  }

  /** The owner of the point after a member is that member's successor. */
  lemma OwnerOfNextPoint(ring: set<Id>, x: Id)
    requires ring != {}
    ensures Owner(ring, ModuloSum(x, 1)) == Successor(ring, x)
  {
  }

  lemma {:induction false} BoundedCardinality(s: set<int>, n: nat)
    requires forall x :: x in s ==> 0 <= x < n
    ensures |s| <= n
  {
    if n == 0 {
      assert forall x: int :: x !in s;
    } else {
      BoundedCardinality(s - {n - 1}, n - 1);
      if n - 1 in s { assert |s| == |s - {n - 1}| + 1; } else { assert s == s - {n - 1}; }
    }
  }

  /** What a walk has listed so far on a settled ring: every member up to the last stop, in order. */
  ghost predicate Clockwise(ring: set<Id>, n: Id, nodes: seq<Id>) {
    && (forall i :: 0 <= i < |nodes| ==> nodes[i] in ring)
    && (forall i, j :: 0 <= i < j < |nodes| ==> Dist(n, nodes[i]) < Dist(n, nodes[j]))
    && forall m :: m in ring && |nodes| > 0 && Dist(n, m) <= Dist(n, nodes[|nodes| - 1]) ==> m in nodes
  }

  lemma ClockwiseExtends(ring: set<Id>, n: Id, nodes: seq<Id>)
    requires n in ring && Clockwise(ring, n, nodes)
    requires forall i :: 0 <= i < |nodes| ==> nodes[i] != n
    ensures var next := Successor(ring, StopBefore(n, nodes, |nodes|));
            next !in nodes && Clockwise(ring, n, nodes + [next])
  {
    var last := StopBefore(n, nodes, |nodes|);
    var next := Successor(ring, last);
    if nodes != [] {
      assert last == nodes[|nodes| - 1] && Dist(last, next) <= Dist(last, n);
      DistSplits(n, last, next);
    }
    var more := nodes + [next];
    forall m | m in ring && Dist(n, m) <= Dist(n, next) ensures m in more {
      if nodes != [] && m !in nodes { assert Dist(last, next) <= Dist(last, m); }
    }
  }

  ghost predicate Settled(rounds: nat -> nat -> Network, ring: set<Id>, n: Id) {
    n in ring && forall i: nat, j: nat :: Routable(rounds(i)(j), ring)
  }

  /** On a settled ring the next stop is the successor of the last one. */
  lemma SettledStop(rounds: nat -> nat -> Network, ring: set<Id>, n: Id, nodes: seq<Id>)
    requires Settled(rounds, ring, n) && Clockwise(ring, n, nodes)
    requires forall i :: 0 <= i < |nodes| ==> nodes[i] != n
    ensures var found := NextStop(rounds, n, |nodes|, StopBefore(n, nodes, |nodes|));
            && found.Ok? && found.value !in nodes && Clockwise(ring, n, nodes + [found.value])
            && (found.value == n ==> forall m :: m in ring <==> m in nodes + [n])
  {
    var next := StopBefore(n, nodes, |nodes|);
    LookupFindsOwner(rounds(|nodes|), ring, 0, n, ModuloSum(next, 1));
    OwnerOfNextPoint(ring, next);
    ClockwiseExtends(ring, n, nodes);
    var more := nodes + [Successor(ring, next)];
    if Successor(ring, next) == n {
      forall m | m in ring ensures m in more {
        assert Dist(n, m) <= Dist(n, more[|more| - 1]);
      }
    }
  }

  /** Distinct stops, each the answer to the lookup made from the one before. */
  ghost predicate Trail(rounds: nat -> nat -> Network, n: Id, nodes: seq<Id>) {
    nodes == [] ||
    var rest, last := nodes[..|nodes| - 1], nodes[|nodes| - 1];
    Trail(rounds, n, rest) && last !in rest && NextStop(rounds, n, |rest|, StopBefore(n, rest, |rest|)) == Ok(last)
  }

  lemma {:induction false} TrailDistinct(rounds: nat -> nat -> Network, n: Id, nodes: seq<Id>)
    requires Trail(rounds, n, nodes)
    ensures forall i, j :: 0 <= i < j < |nodes| ==> nodes[i] != nodes[j]
  {
    if nodes != [] {
      var rest := nodes[..|nodes| - 1];
      TrailDistinct(rounds, n, rest);
      assert forall i :: 0 <= i < |rest| ==> nodes[i] == rest[i];
    }
  }

  lemma IdsAreFinite(s: set<Id>)
    ensures |s| <= SPACE
  {
    BoundedCardinality(s, SPACE);
  }

  /** The walk behind ListKeys. Lookups may answer anything, and differently each time; the walk
      still ends and never lists a node twice. On a settled ring it lists every member exactly
      once, clockwise, the caller last. */
  method Walk(n: Id, rounds: nat -> nat -> Network, ghost ring: set<Id>) returns (r: Result<seq<Id>>)
    ensures r.Ok? ==>
              && |r.value| > 0 && r.value[|r.value| - 1] == n && Trail(rounds, n, r.value)
              && forall i, j :: 0 <= i < j < |r.value| ==> r.value[i] != r.value[j]
    ensures Settled(rounds, ring, n) ==>
              r.Ok? && Clockwise(ring, n, r.value) && forall m :: m in ring <==> m in r.value
  {
    var nodes: seq<Id> := [];
    var seen: set<Id> := {};
    var next := n;
    while true
      invariant next == StopBefore(n, nodes, |nodes|)
      invariant forall i :: 0 <= i < |nodes| ==> nodes[i] != n
      invariant forall m :: m in seen <==> m in nodes
      invariant Trail(rounds, n, nodes)
      invariant Settled(rounds, ring, n) ==> Clockwise(ring, n, nodes)
      decreases SPACE - |seen|
    {
      IdsAreFinite(seen);
      var found := NextStop(rounds, n, |nodes|, next);
      if Settled(rounds, ring, n) { SettledStop(rounds, ring, n, nodes); }
      if found.Err? { return Err(found.error); }
      assert (nodes + [found.value])[..|nodes|] == nodes;
      if found.value == n {
        TrailDistinct(rounds, n, nodes + [n]);
        return Ok(nodes + [n]);
      }
      if found.value in seen { return Err(Unstable); }
      next := found.value;
      nodes := nodes + [next];
      seen := seen + {next};
      IdsAreFinite(seen);
    }
  }
}

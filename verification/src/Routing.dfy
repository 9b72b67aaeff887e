/** Lookups: one routing decision per node, repeated across the ring. */
module Routing {
  import opened Identifiers
  import opened RingOrder
  import opened Nodes

  datatype Hop = Answer(id: Id) | Forward(id: Id) | Fail(error: Error)

  /** Highest finger index up to `k` whose entry lies strictly between `n` and `key`, or 0. */
  function ClosestFinger(n: Id, fingers: Fingers, key: Id, k: nat): (i: nat)
    requires k <= FINGERS
    ensures i <= k
    ensures i > 0 ==> fingers[i].Some? && Between(n, fingers[i].value, key, false)
    ensures forall j :: i < j <= k ==> fingers[j].Some? ==> !Between(n, fingers[j].value, key, false)
  {
    if k == 0 then 0
    else if fingers[k].Some? && Between(n, fingers[k].value, key, false) then k
    else ClosestFinger(n, fingers, key, k - 1)
  }

  /** The descending finger scan; falls back to the node itself. */
  method ClosestPrecedingNode(n: Id, fingers: Fingers, key: Id) returns (closest: Id)
    ensures var i := ClosestFinger(n, fingers, key, |fingers| - 1);
            closest == if i == 0 then n else fingers[i].value
    ensures closest != n ==> Between(n, closest, key, false) && Some(closest) in fingers
    ensures closest == n ==> forall j :: 1 <= j <= FINGERS && fingers[j].Some? ==>
      !Between(n, fingers[j].value, key, false)
  {
    closest := n;
    var k := FINGERS;
    while k >= 1
      invariant 0 <= k <= FINGERS
      invariant closest == n
      invariant ClosestFinger(n, fingers, key, |fingers| - 1) == ClosestFinger(n, fingers, key, k)
    {
      if fingers[k].Some? && Between(n, fingers[k].value, key, false) {
        closest := fingers[k].value;
        BetweenIsDistance(n, closest, key);
        return;
      }
      k := k - 1;
    }
  }

  /** What one node decides about `key`. A forward always gets strictly closer to the key. */
  function Route(n: Id, node: Node, key: Id): (hop: Hop)
    ensures hop.Forward? ==> hop.id != n && Dist(hop.id, key) < Dist(n, key)
  {
    var refused := CheckState(node.phase, false);
    if refused.Some? then Fail(refused.value)
    else if node.pred.Some? && Between(node.pred.value, key, n, true) then Answer(n)
    else if node.succs == [] then Fail(NoSuccessor)
    else
      var succ := node.succs[0];
      if Between(n, key, succ, true) then Answer(succ)
      else
        var i := ClosestFinger(n, node.fingers, key, |node.fingers| - 1);
        var closest := if i == 0 then succ else node.fingers[i].value;
        BetweenIsDistance(n, key, succ);
        BetweenIsDistance(n, closest, key);
        DistSplits(n, closest, key);
        Forward(closest)
  }

  /** A finished lookup: its outcome and the number of the hop that produced it. */
  datatype Lookup = Lookup(outcome: Result<Id>, hop: nat)

  /** The lookup started at `n` as hop number `h`. Hop `i` sees the network `nets(i)`, so the
      network may change arbitrarily between hops; the recursion still ends. */
  function FindSuccessor(nets: nat -> Network, h: nat, n: Id, key: Id): (r: Lookup)
    ensures r.hop >= h
    decreases Dist(n, key)
  {
    if n !in nets(h) then Lookup(Err(Unreachable), h)
    else
      match Route(n, nets(h)[n], key)
      case Answer(id) => Lookup(Ok(id), h)
      case Fail(error) => Lookup(Err(error), h)
      case Forward(closest) => FindSuccessor(nets, h + 1, closest, key)
  }

  /** Pointers of a settled ring: right successors, predecessors right or unknown, fingers any member. */
  ghost predicate Routable(net: Network, ring: set<Id>) {
    && ring != {}
    && forall n {:trigger RoutableNode(net, ring, n)} :: n in ring ==> RoutableNode(net, ring, n)
  }

  ghost predicate RoutableNode(net: Network, ring: set<Id>, n: Id) {
    && n in net
    && Answers(net[n].phase)
    && net[n].succs != []
    && IsSuccessor(ring, n, net[n].succs[0])
    && (net[n].pred.Some? ==> IsPredecessor(ring, net[n].pred.value, n))
    && forall k :: 1 <= k <= FINGERS && net[n].fingers[k].Some? ==> net[n].fingers[k].value in ring
  }

  /** One routing decision on such a ring either names the owner or stays on the ring. */
  lemma RouteSound(net: Network, ring: set<Id>, n: Id, key: Id)
    requires Routable(net, ring) && n in ring && n in net
    ensures match Route(n, net[n], key)
            case Answer(id) => IsOwner(ring, key, id)
            case Forward(id) => id in ring
            case Fail(_) => false
  {
    assert RoutableNode(net, ring, n);
    var node := net[n];
    if node.pred.Some? && Between(node.pred.value, key, n, true) {
      OwnerIffInRange(ring, node.pred.value, n, key);
    } else if Between(n, key, node.succs[0], true) {
      ClearArcOwned(ring, n, node.succs[0], key);
    }
  }

  /** From any member, whatever members the fingers hold, the lookup returns the unique owner,
      even if the network changes between hops among such rings. */
  lemma {:induction false} LookupFindsOwner(nets: nat -> Network, ring: set<Id>, h: nat, n: Id, key: Id)
    requires forall i: nat :: Routable(nets(i), ring)
    requires n in ring
    ensures ring != {} && FindSuccessor(nets, h, n, key).outcome == Ok(Owner(ring, key))
    decreases Dist(n, key)
  {
    assert Routable(nets(h), ring) && RoutableNode(nets(h), ring, n);
    RouteSound(nets(h), ring, n, key);
    match Route(n, nets(h)[n], key)
    case Answer(id) => OwnerUnique(ring, key, id, Owner(ring, key));
    case Forward(closest) => LookupFindsOwner(nets, ring, h + 1, closest, key);
  }

  function Pow2(k: nat): (p: nat)
    ensures p >= 1
  {
    if k == 0 then 1 else 2 * Pow2(k - 1)
  }

  lemma {:induction false} Pow2Monotone(i: nat, k: nat)
    requires i <= k
    ensures Pow2(i) <= Pow2(k)
    decreases k - i
  {
    if i < k { Pow2Monotone(i + 1, k); }
  }

  lemma Pow2Space()
    ensures Pow2(FINGERS) == SPACE
    ensures forall k: nat :: k < FINGERS ==> 1 <= Pow2(k) < SPACE
  {
    assert Pow2(12) == 4096;
    assert Pow2(24) == 4096 * 4096 by { assert Pow2(18) == 64 * 4096; }
    assert Pow2(36) == 4096 * 4096 * 4096 by { assert Pow2(30) == 64 * Pow2(24); }
    assert Pow2(48) == SPACE by { assert Pow2(42) == 64 * Pow2(36); }
    forall k: nat | k < FINGERS ensures 1 <= Pow2(k) < SPACE { Pow2Monotone(k + 1, FINGERS); }
  }

  /** Where finger `k` of `n` should point. */
  function FingerTarget(n: Id, k: nat): Id
    requires 1 <= k <= FINGERS
  {
    ModuloSum(n, Pow2(k - 1))
  }

  ghost predicate FingersExact(net: Network, ring: set<Id>) {
    forall n, k :: n in ring && n in net && 1 <= k <= FINGERS ==>
      net[n].fingers[k].Some? && IsOwner(ring, FingerTarget(n, k), net[n].fingers[k].value)
  }

  /** The owner of a point `2^(k-1)` ahead is at least that far, and no farther than any
      member beyond the point. */
  lemma FingerReach(ring: set<Id>, n: Id, k: nat, f: Id)
    requires 1 <= k <= FINGERS
    requires n in ring && IsOwner(ring, FingerTarget(n, k), f)
    ensures Dist(n, f) >= Pow2(k - 1)
    ensures forall m :: m in ring && Dist(n, m) >= Pow2(k - 1) ==> Dist(n, f) <= Dist(n, m)
  {
    Pow2Space();
    ModuloSumMoves(n, Pow2(k - 1));
    var t := FingerTarget(n, k);
    assert Gap(t, f) <= Gap(t, n);
    forall m | m in ring && Dist(n, m) >= Pow2(k - 1) ensures Dist(n, f) <= Dist(n, m) {
      assert Gap(t, f) <= Gap(t, m);
    }
  }

  /** The member just before the key answers at once. */
  lemma PredecessorAnswers(net: Network, ring: set<Id>, n: Id, key: Id)
    requires Routable(net, ring) && n in ring && n in net && IsPredecessor(ring, n, key)
    ensures Route(n, net[n], key).Answer?
  {
    assert RoutableNode(net, ring, n);
    var succ := net[n].succs[0];
    BetweenIsDistance(n, key, succ);
    assert Dist(n, key) <= Dist(succ, key);
    if Dist(n, succ) < Dist(n, key) { DistSplits(n, succ, key); }
  }

  /** A point before the key is met no later than the nearest such point `p`. */
  lemma OnTheWay(n: Id, next: Id, p: Id, key: Id)
    requires n != p && Dist(p, key) <= Dist(n, key)
    requires Dist(p, key) <= Dist(next, key) && Dist(n, next) < Dist(n, key)
    ensures Dist(n, next) <= Dist(n, p) < Dist(n, key)
    ensures Gap(next, p) == Dist(n, p) - Dist(n, next)
  {
  }

  /** A forward moves to some member strictly before the key; with exact fingers it covers
      at least `2^(b-1)` whenever the key's predecessor is that far away. */
  lemma ForwardReach(net: Network, ring: set<Id>, n: Id, key: Id, p: Id, b: nat)
    requires Routable(net, ring) && FingersExact(net, ring) && n in ring && n in net
    requires p in ring && Dist(n, p) < Dist(n, key)
    requires 1 <= b <= FINGERS && Dist(n, p) >= Pow2(b - 1)
    requires Route(n, net[n], key).Forward?
    ensures Dist(n, Route(n, net[n], key).id) >= Pow2(b - 1)
  {
    var fingers := net[n].fingers;
    var f := fingers[b].value;
    FingerReach(ring, n, b, f);
    BetweenIsDistance(n, f, key);
    var i := ClosestFinger(n, fingers, key, |fingers| - 1);
    assert i >= b;
    FingerReach(ring, n, i, fingers[i].value);
    Pow2Monotone(b - 1, i - 1);
  }

  /** A forward stops strictly before the key. */
  lemma ForwardStopsShort(n: Id, node: Node, key: Id)
    requires Route(n, node, key).Forward?
    ensures Dist(n, Route(n, node, key).id) < Dist(n, key)
  {
  }

  /** A forward at least halves the power-of-two bound on the gap to the key's predecessor. */
  lemma ForwardHalves(net: Network, ring: set<Id>, n: Id, key: Id, p: Id, b: nat)
    requires Routable(net, ring) && FingersExact(net, ring) && n in ring && n in net
    requires IsPredecessor(ring, p, key)
    requires 1 <= b <= FINGERS && Gap(n, p) < Pow2(b)
    requires Route(n, net[n], key).Forward?
    ensures Gap(Route(n, net[n], key).id, p) < Pow2(b - 1)
  {
    if n == p { PredecessorAnswers(net, ring, n, key); }
    var next := Route(n, net[n], key).id;
    RouteSound(net, ring, n, key);
    ForwardStopsShort(n, net[n], key);
    OnTheWay(n, next, p, key);
    if Dist(n, p) >= Pow2(b - 1) { ForwardReach(net, ring, n, key, p, b); }
  }

  /** With exact fingers a lookup is forwarded at most `b` times when the gap is below `2^b`. */
  lemma {:induction false} HopsBounded(nets: nat -> Network, ring: set<Id>, h: nat, n: Id, key: Id, b: nat)
    requires forall i: nat :: Routable(nets(i), ring) && FingersExact(nets(i), ring)
    requires n in ring && ring != {} && b <= FINGERS
    requires Gap(n, Predecessor(ring, key)) < Pow2(b)
    ensures FindSuccessor(nets, h, n, key).hop <= h + b
    decreases Dist(n, key)
  {
    var p := Predecessor(ring, key);
    assert Routable(nets(h), ring) && RoutableNode(nets(h), ring, n);
    RouteSound(nets(h), ring, n, key);
    if b == 0 { PredecessorAnswers(nets(h), ring, n, key); }
    match Route(n, nets(h)[n], key)
    case Answer(id) =>
    case Forward(closest) =>
      ForwardHalves(nets(h), ring, n, key, p, b);
      HopsBounded(nets, ring, h + 1, closest, key, b - 1);
  }

  /** With exact fingers every lookup is forwarded at most 48 times. */
  lemma AtMost48Forwards(nets: nat -> Network, ring: set<Id>, n: Id, key: Id)
    requires forall i: nat :: Routable(nets(i), ring) && FingersExact(nets(i), ring)
    requires n in ring
    ensures FindSuccessor(nets, 0, n, key).hop <= 48
  {
    Pow2Space();
    assert Routable(nets(0), ring);
    HopsBounded(nets, ring, 0, n, key, FINGERS);
  }
}

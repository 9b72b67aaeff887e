/** Where the gate in front of a store sends the requests it does not serve. */
module Gateway {
  import opened Identifiers
  import opened RingOrder
  import opened Nodes
  import opened Routing
  import opened FingerTables
  import opened Membership
  import opened MembershipLocks
  import opened RingSafety
  import opened RingHandOff
  import opened Requests
  import opened KeySafety
  import opened Traces
  import opened Churn
  import opened SmallRings

  // ---- in the middle of churn -----------------------------------------------------------------

  /** A request is passed on to another node with no member between that node and this one. It is rightly
      passed on exactly when some member lies between the hash and that node, that node included; so it
      always is when the surrogate is a member. */
  lemma ForwardedIsAhead(s: State, x: Id, h: Id, to: Id)
    requires Safe(s) && x in s.net && Gate(s.net[x], x, h) == Surrogate(to)
    ensures x in s.ring && s.net[x].phase == Active && to != x && Clear(s.ring, to, x) && Between(x, h, to, true)
    ensures !IsOwner(s.ring, h, x) <==> exists m :: m in s.ring && Gap(h, m) <= Gap(h, to)
    ensures to in s.ring ==> !IsOwner(s.ring, h, x)
  {
    BusyIsMember(s, x);
    assert Member(s, x);
    BetweenIsDistance(x, h, to);
    forall m | m in s.ring && m != x ensures Gap(h, m) <= Gap(h, to) <==> Gap(h, m) < Gap(h, x) {
      ClearGaps(s.ring, to, x, h, m);
    }
  }

  lemma ClearGaps(ring: set<Id>, to: Id, x: Id, h: Id, m: Id)
    requires x in ring && m in ring && m != x && to != x && Clear(ring, to, x) && Between(x, h, to, true)
    ensures Gap(h, m) <= Gap(h, to) <==> Gap(h, m) < Gap(h, x)
    ensures Gap(h, to) < Gap(h, x)
  {
    BetweenIsDistance(x, h, to);
    assert Dist(to, x) <= Dist(to, m);
  }

  /** From every fresh ring: `j` joins the only member `x` and leaves again. Until `x` next repairs its
      pointers it owns every hash and still passes those up to `j` on to `j`, which has left. */
  lemma ForwardedToNobody(s: State, x: Id, j: Id, h: Id) returns (s': State)
    requires Created(s, x) && j in s.net && j != x && Between(x, h, j, true)
    ensures Reaches(true, s, s') && Inv(s') && s'.ops == map[] && s'.ring == {x} && s'.net.Keys == s.net.Keys
    ensures Gate(s'.net[x], x, h) == Surrogate(j) && s'.net[j].phase == Left && IsOwner(s'.ring, h, x)
  {
    CreatedIsLone(s, x);
    BetweenIsDistance(x, j, x);
    JoinRuns(true, s, s, 0, 0, j, x, x);
    var mid := AfterJoin(s, 0, j, x, x);
    JoinedPointers(s, 0, j, x, x);
    LeaveDeparts(true, s, mid, 0, 0, j, x, x);
    s' := AfterLeave(mid, 0, j, x, x);
    DepartedPointers(mid, 0, j, x, x);
    ReachedIsSound(s, s');
  }

  // ---- after a join ---------------------------------------------------------------------------

  /** The arc a join hands over is what the successor passes on to the joiner, which owns it. */
  lemma HandedOverIsForwarded(s: State, s': State, j: Id, x: Id, p: Id, h: Id)
    requires p in s.ring && x in s.ring && j !in s.ring && IsSuccessor(s.ring, p, x) && Between(p, j, x, false)
    requires Joined(s, s', j, x, p) && s.net[x].phase == Active && Between(p, h, j, true)
    ensures IsOwner(s.ring, h, x) && IsOwner(s'.ring, h, j) && Gate(s'.net[x], x, h) == Surrogate(j)
  {
    OwnerAfterJoin(s.ring, p, j, x, h, j);
    BetweenIsDistance(p, j, x);
    BetweenIsDistance(p, h, j);
    BetweenIsDistance(x, h, j);
  }

  /** From rest, a node that has not started can join, and the ring is at rest again. The hashes it now owns
      are exactly those from its predecessor up to it; its successor owned them all and passes every request
      for them on to it. */
  lemma JoinRedirects(s: State, j: Id) returns (s': State, p: Id, x: Id)
    requires AtRest(s) && j in s.net && Unstarted(s.net[j])
    ensures Reaches(true, s, s') && AtRest(s') && s'.ring == s.ring + {j} && s'.data == s.data && s'.hash == s.hash
    ensures p in s.ring && x in s.ring && IsSuccessor(s.ring, p, x) && Between(p, j, x, false)
    ensures x in s'.net && s'.net[x].phase == Active
    ensures forall h :: IsOwner(s'.ring, h, j) <==> Between(p, h, j, true)
    ensures forall h :: Between(p, h, j, true) ==>
      IsOwner(s.ring, h, x) && IsOwner(s'.ring, h, j) && Gate(s'.net[x], x, h) == Surrogate(j)
  {
    x, p := JoinerHasPlace(s, j);
    ReachesItself(true, s);
    JoinRuns(true, s, s, 0, 0, j, x, p);
    s' := AfterJoin(s, 0, j, x, p);
    JoinedPointers(s, 0, j, x, p);
    ReachedIsSound(s, s');
    RestAfterJoin(s, s', j, x, p);
    forall h ensures IsOwner(s'.ring, h, j) <==> Between(p, h, j, true) { OwnerAfterJoin(s.ring, p, j, x, h, j); }
    forall h | Between(p, h, j, true)
      ensures IsOwner(s.ring, h, x) && IsOwner(s'.ring, h, j) && Gate(s'.net[x], x, h) == Surrogate(j)
    {
      HandedOverIsForwarded(s, s', j, x, p, h);
    }
  }

  // ---- at rest --------------------------------------------------------------------------------

  /** At rest the gate alone, whatever the lookup said, lets exactly the owner's requests through. */
  lemma GateIsOpenIff(s: State, x: Id, h: Id)
    requires AtRest(s) && x in s.ring
    ensures x in s.net && (Gate(s.net[x], x, h) == Local <==> IsOwner(s.ring, h, x))
  {
    RestNeighbours(s, x);
    if Gate(s.net[x], x, h) == Local { LocalImpliesOwner(s, x, h); }
    if IsOwner(s.ring, h, x) { OwnerGateIsOpen(s, x, h); }
  }

  /** At rest every member serves what it owns and sends everything else to its owner. */
  lemma MembersDecide(s: State, x: Id, h: Id)
    requires AtRest(s) && FingersInRing(s) && x in s.ring
    ensures x in s.net && s.ring != {}
    ensures Middleware(s.net, x, h) == if IsOwner(s.ring, h, x) then Local else Remote(Owner(s.ring, h))
    ensures forall to :: Middleware(s.net, x, h) == Remote(to) <==> to != x && IsOwner(s.ring, h, to)
  {
    RestIsRoutable(s);
    RestNeighbours(s, x);
    LookupFindsOwner(Still(s.net), s.ring, 0, x, h);
    if IsOwner(s.ring, h, x) {
      OwnerUnique(s.ring, h, x, Owner(s.ring, h));
      OwnerGateIsOpen(s, x, h);
    }
    forall to ensures Middleware(s.net, x, h) == Remote(to) <==> to != x && IsOwner(s.ring, h, to) {
      if IsOwner(s.ring, h, to) { OwnerUnique(s.ring, h, to, Owner(s.ring, h)); }
    }
  }

  /** In any network a node that has left asks the caller to retry, one that has not started fails, and one
      that is leaving or joining never touches its store. */
  lemma OutsidersTurnAway(net: Network, x: Id, h: Id)
    requires x in net
    ensures net[x].phase == Left ==> Middleware(net, x, h) == Stale
    ensures net[x].phase == Inactive ==> Middleware(net, x, h) == Fails(NotStarted)
    ensures net[x].phase != Active ==> Middleware(net, x, h) != Local && Gate(net[x], x, h) == Stale
  {
  }
}

/** Finger passes in a ring at rest: whoever has left, 48 rounds later every request finds its owner. */
module FingersAtRest {
  import opened Identifiers
  import opened RingOrder
  import opened Nodes
  import opened Routing
  import opened FingerTables
  import opened FingerRepair
  import opened Membership
  import opened RingSafety
  import opened KeySafety
  import opened Traces
  import opened Churn
  import opened Gateway

  /** `net'` differs from `net` in fingers only. */
  ghost predicate OnlyFingers(net: Network, net': Network) {
    net'.Keys == net.Keys && forall m :: m in net ==> net'[m] == net[m].(fingers := net'[m].fingers)
  }

  // ---- passes as runs -----------------------------------------------------------------------------

  /** Each repaired finger is one step. */
  lemma FixKRuns(strict: bool, s: State, mid: State, n: Id, k: nat)
    requires Reaches(strict, s, mid) && n in mid.net && 1 <= k <= FINGERS
    ensures Reaches(strict, s, mid.(net := FixK(mid.net, n, k))) && OnlyFingers(mid.net, FixK(mid.net, n, k))
  {
    var found := FindSuccessor(Still(mid.net), 0, n, FingerTarget(n, k)).outcome;
    if found.Ok? {
      var fingers := mid.net[n].fingers[k := Some(found.value)];
      ReachNext(strict, s, mid, SetFingers(n, fingers));
      assert Step(mid, SetFingers(n, fingers)) == mid.(net := FixK(mid.net, n, k));
    }
  }

  lemma {:induction false} PassRuns(strict: bool, s: State, mid: State, n: Id, k: nat)
    requires Reaches(strict, s, mid) && n in mid.net && k <= FINGERS
    ensures Reaches(strict, s, mid.(net := FixUpTo(mid.net, n, k))) && OnlyFingers(mid.net, FixUpTo(mid.net, n, k))
  {
    if k > 0 {
      PassRuns(strict, s, mid, n, k - 1);
      FixKRuns(strict, s, mid.(net := FixUpTo(mid.net, n, k - 1)), n, k);
    }
  }

  lemma {:induction false} PassesRun(strict: bool, s: State, mid: State, order: seq<Id>)
    requires Reaches(strict, s, mid) && forall n :: n in order ==> n in mid.net
    ensures Reaches(strict, s, mid.(net := Passes(mid.net, order))) && OnlyFingers(mid.net, Passes(mid.net, order))
  {
    if order != [] {
      var rest, last := order[..|order| - 1], order[|order| - 1];
      PassesRun(strict, s, mid, rest);
      PassRuns(strict, s, mid.(net := Passes(mid.net, rest)), last, FINGERS);
    }
  }

  lemma {:induction false} RoundsRun(strict: bool, s: State, mid: State, rounds: seq<seq<Id>>)
    requires Reaches(strict, s, mid) && forall order, n :: order in rounds && n in order ==> n in mid.net
    ensures Reaches(strict, s, mid.(net := Rounds(mid.net, rounds))) && OnlyFingers(mid.net, Rounds(mid.net, rounds))
  {
    if rounds != [] {
      var r := |rounds| - 1;
      assert rounds[r] in rounds;
      RoundsRun(strict, s, mid, rounds[..r]);
      PassesRun(strict, s, mid.(net := Rounds(mid.net, rounds[..r])), rounds[r]);
    }
  }

  // ---- at rest ------------------------------------------------------------------------------------

  /** At rest nobody outside the ring answers. */
  lemma RestIsSilent(s: State, n: Id)
    requires AtRest(s) && n in s.net
    ensures Silent(s.net, s.ring, n)
  {
    if n !in s.ring { assert Outsider(s, n) && !Membership.Held(s, n); }
  }

  lemma RestIsLinked(s: State, n: Id)
    requires AtRest(s) && n in s.ring
    ensures WellLinkedNode(s.net, s.ring, n)
  {
    RestNeighbours(s, n);
  }

  lemma RestIsWellLinked(s: State)
    requires AtRest(s) && s.ring != {}
    ensures WellLinked(s.net, s.ring)
  {
    forall n | n in s.ring ensures WellLinkedNode(s.net, s.ring, n) { RestIsLinked(s, n); }
    forall n | n in s.net ensures Silent(s.net, s.ring, n) { RestIsSilent(s, n); }
  }

  lemma FingersKeepRest(s: State, s': State)
    requires AtRest(s) && Inv(s') && s' == s.(net := s'.net) && OnlyFingers(s.net, s'.net)
    ensures AtRest(s')
  {
    forall x | x in s'.ring ensures RestAt(s', x) { assert RestAt(s, x); }
  }

  /** From rest, with fingers that may name nodes that have left, 48 rounds of finger passes lead to rest with
      every finger on the ring; from then on every member serves what it owns and sends everything else
      straight to its owner. */
  lemma FingersSettle(s: State, rounds: seq<seq<Id>>, x: Id, h: Id) returns (s': State)
    requires AtRest(s) && s.ring != {} && AllSane(s.net, s.ring) && Covers(rounds, s.ring) && |rounds| >= FINGERS
    requires s.ring <= s.net.Keys && x in s.ring
    ensures Reaches(true, s, s') && s' == s.(net := Rounds(s.net, rounds)) && AtRest(s') && FingersInRing(s')
    ensures x in s'.net && s'.ring != {}
    ensures Middleware(s'.net, x, h) == if IsOwner(s'.ring, h, x) then Local else Remote(Owner(s'.ring, h))
  {
    ReachesItself(true, s);
    RoundsRun(true, s, s, rounds);
    s' := s.(net := Rounds(s.net, rounds));
    ReachedIsSound(s, s');
    FingersKeepRest(s, s');
    RestIsWellLinked(s);
    FingersRecover(s.net, s.ring, rounds);
    ExactIsRoutable(s'.net, s.ring, |rounds|);
    RoutableFingers(s');
    MembersDecide(s', x, h);
  }

  lemma RoutableFingers(s: State)
    requires Routable(s.net, s.ring)
    ensures FingersInRing(s)
  {
    forall n, k | n in s.ring && n in s.net && 1 <= k <= FINGERS && s.net[n].fingers[k].Some?
      ensures s.net[n].fingers[k].value in s.ring
    {
      assert RoutableNode(s.net, s.ring, n);
    }
  }
}

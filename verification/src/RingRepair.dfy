/** Pointer repair with nothing in between: whatever membership operations are under way, what a
    call computes from the present pointers fits. */
module RingRepair {
  import opened Identifiers
  import opened RingOrder
  import opened Nodes
  import opened SuccessorLists
  import opened Stabilization
  import opened Membership
  import opened RingSafety

  lemma MembersAnswer(s: State, x: Id)
    requires Safe(s) && x in s.ring
    ensures Responds(s.net, x)
  {
    assert Member(s, x);
  }

  /** A node outside the ring that is Leaving belongs to an exiting operation. */
  lemma LeavingOutsider(s: State, q: Id) returns (o: nat)
    requires Safe(s) && q in s.net && q !in s.ring && s.net[q].phase == Leaving
    ensures o in s.ops && Exiting(s.ops[o]) && s.ops[o].n == q && ExitingOk(s, q, s.ops[o].p, s.ops[o].s)
    ensures s.ops[o].s in s.net && s.net[s.ops[o].s].phase == Transferring
  {
    assert Held(s, q);
    o :| o in s.ops && Claim(s.ops[o], q).Some?;
    assert OpOk(s, o) && Distinct(s.ops[o]);
    assert Claim(s.ops[o], s.ops[o].s) == Some(Transferring);
  }

  /** Nobody responsive hides between a point and the live member after it, unless the point's
      member already lists that node first. */
  lemma NothingNearer(s: State, a: Id, x: Id, z: Id)
    requires Safe(s) && a in s.ring && IsSuccessor(s.ring, a, z) && Gap(a, x) < Dist(a, z)
    requires z in s.net && s.net[z].pred.Some?
    requires var q := s.net[z].pred.value; Between(x, q, z, false) && Responds(s.net, q)
    ensures Heads(s.net, a, s.net[z].pred.value)
  {
    var q := s.net[z].pred.value;
    assert Member(s, z);
    BetweenIsDistance(x, q, z);
    if x != a { DistSplits(a, x, z); }
    assert Dist(a, q) < Dist(a, z);
    assert q !in s.ring;
    var o := LeavingOutsider(s, q);
    SameGap(s.ring, a, z, s.ops[o].p, s.ops[o].s, q);
  }

  lemma EnteringIsNearer(ring: set<Id>, p: Id, j: Id, x: Id)
    requires x in ring && j in ring && p in ring && j != x
    requires IsSuccessor(ring, p, j) && IsSuccessor(ring, j, x)
    ensures Between(p, j, x, false)
  {
  }

  /** What `x` may write into its own list: its successor first, except that a node still leaving
      stays first with the successor behind it. */
  ghost predicate GoodList(s: State, x: Id, list: seq<Id>) {
    && list != []
    && (IsSuccessor(s.ring, x, list[0]) || exists o :: o in s.ops && Exiting(s.ops[o]) && s.ops[o].p == x)
    && forall o :: o in s.ops && Exiting(s.ops[o]) && s.ops[o].p == x ==>
         |list| >= 2 && list[0] == s.ops[o].n && list[1] == s.ops[o].s
  }

  /** Node `x` is a member that has a good list with `t` first. */
  ghost predicate Prompt(s: State, x: Id, t: Id) {
    x in s.ring && Heads(s.net, x, t) && GoodList(s, x, s.net[x].succs)
  }

  lemma ExitingIsUnique(s: State, x: Id, o: nat, o': nat)
    requires Safe(s) && o in s.ops && o' in s.ops && Exiting(s.ops[o]) && Exiting(s.ops[o'])
    requires s.ops[o].p == x && s.ops[o'].p == x
    ensures s.ops[o].n == s.ops[o'].n && s.ops[o].s == s.ops[o'].s
  {
    assert OpOk(s, o) && OpOk(s, o');
    SuccessorUnique(s.ring, x, s.ops[o].s, s.ops[o'].s);
  }

  /** While a leaver is exiting, its predecessor's list starts with the leaver. */
  lemma RefreshWhileExiting(s: State, x: Id, o: nat)
    requires Safe(s) && x in s.ring && x in s.net
    requires o in s.ops && Exiting(s.ops[o]) && s.ops[o].p == x
    ensures var r := Refreshed(s.net, x, s.net[x].succs); r.Some? && GoodList(s, x, r.value)
  {
    var n, z := s.ops[o].n, s.ops[o].s;
    assert OpOk(s, o) && Claim(s.ops[o], n) == Some(Leaving) && Distinct(s.ops[o]);
    BetweenIsDistance(x, x, n);
    var list := MakeSuccList(n, s.net[n].succs);
    MakeSuccListDistinct(n, s.net[n].succs);
    forall o' | o' in s.ops && Exiting(s.ops[o']) && s.ops[o'].p == x
      ensures |list| >= 2 && list[0] == s.ops[o'].n && list[1] == s.ops[o'].s
    {
      ExitingIsUnique(s, x, o, o');
    }
  }

  lemma RefreshedFrom(s: State, x: Id, z: Id, list: seq<Id>)
    requires Safe(s) && x in s.ring && IsSuccessor(s.ring, x, z) && list != [] && list[0] == z
    requires forall q :: Heads(s.net, x, q) && Between(x, q, z, false) ==> !Responds(s.net, q)
    ensures z in s.net && Refreshed(s.net, x, list) == Some(MakeSuccList(z, s.net[z].succs))
  {
    MembersAnswer(s, z);
    if s.net[z].pred.Some? && Between(x, s.net[z].pred.value, z, false) && Responds(s.net, s.net[z].pred.value) {
      NothingNearer(s, x, x, z);
    }
  }

  lemma RefreshWindow(s: State, x: Id, o: nat)
    requires Safe(s) && x in s.ring && x in s.net && s.net[x].succs != []
    requires o in s.ops && Entering(s.ops[o]) && s.ops[o].p == x && s.ops[o].s == s.net[x].succs[0]
    ensures var r := Refreshed(s.net, x, s.net[x].succs); r.Some? && r.value != [] && IsSuccessor(s.ring, x, r.value[0])
  {
    var op := s.ops[o];
    assert OpOk(s, o) && Distinct(s.ops[o]);
    MembersAnswer(s, op.s);
    MembersAnswer(s, op.j);
    EnteringIsNearer(s.ring, x, op.j, op.s);
  }

  /** Whatever the pointers look like, a member's stabilize call settles on a good list. */
  lemma RefreshIsGood(s: State, x: Id)
    requires Safe(s) && x in s.ring && x in s.net
    ensures var r := Refreshed(s.net, x, s.net[x].succs);
            if s.net[x].succs == [] then r.None? else r.Some? && GoodList(s, x, r.value)
  {
    var succs := s.net[x].succs;
    assert Member(s, x);
    if o :| o in s.ops && Exiting(s.ops[o]) && s.ops[o].p == x {
      RefreshWhileExiting(s, x, o);
      assert OpOk(s, o);
    } else if succs != [] {
      if IsSuccessor(s.ring, x, succs[0]) {
        BetweenIsDistance(x, succs[0], succs[0]);
        RefreshedFrom(s, x, succs[0], succs);
      } else if o :| o in s.ops && Entering(s.ops[o]) && s.ops[o].p == x && s.ops[o].s == succs[0] {
        RefreshWindow(s, x, o);
      } else {
        assert GoneArc(s, x, succs);
        RefreshedFrom(s, x, succs[1], succs[1..]);
      }
    }
  }

  // ---- a call that is not overtaken --------------------------------------------------

  lemma GoodListSuitsMembers(s: State, x: Id, list: seq<Id>, m: Id)
    requires Safe(s) && x in s.ring && x in s.net && GoodList(s, x, list) && s.net[x].succs != []
    requires m in s.ring && Names(s, m, x)
    ensures list[0] == m
  {
    assert Member(s, m);
    assert Clear(s.ring, x, m) && s.net[x].succs[0] == m;
    if o :| o in s.ops && Exiting(s.ops[o]) && s.ops[o].p == x {
      assert OpOk(s, o);
    } else {
      SuccessorUnique(s.ring, x, m, list[0]);
    }
  }

  /** While a leaver stays first, every operation finds the head it already had. */
  lemma SameHeadSuitsOp(s: State, c: nat, x: Id, list: seq<Id>, o: nat)
    requires Safe(s) && x in s.ring && x in s.net && GoodList(s, x, list) && s.net[x].succs != []
    requires o in s.ops && list[0] == s.net[x].succs[0] && list[0] !in s.ring
    ensures OpAllowsList(s, o, c, x, list)
  {
    assert OpOk(s, o);
  }

  lemma NewHeadSuitsOp(s: State, c: nat, x: Id, list: seq<Id>, o: nat)
    requires x in s.ring && x in s.net && s.net[x].succs != [] && list != []
    requires o in s.ops && OpOk(s, o) && IsSuccessor(s.ring, x, list[0])
    requires Exiting(s.ops[o]) ==> s.ops[o].p != x && s.ops[o].n != x
    ensures OpAllowsList(s, o, c, x, list)
  {
    forall y | IsSuccessor(s.ring, x, y) ensures y == list[0] { SuccessorUnique(s.ring, x, y, list[0]); }
  }

  /** A good list can always be installed. */
  lemma GoodListFits(s: State, c: nat, x: Id, list: seq<Id>)
    requires Safe(s) && x in s.ring && x in s.net && GoodList(s, x, list) && s.net[x].succs != []
    ensures Installable(s, c, x, list)
  {
    forall m | m in s.ring && Names(s, m, x) ensures list[0] == m { GoodListSuitsMembers(s, x, list, m); }
    if o' :| o' in s.ops && Exiting(s.ops[o']) && s.ops[o'].p == x {
      assert OpOk(s, o');
      forall o | o in s.ops ensures OpAllowsList(s, o, c, x, list) { SameHeadSuitsOp(s, c, x, list, o); }
    } else {
      forall o | o in s.ops ensures OpAllowsList(s, o, c, x, list) {
        assert OpOk(s, o);
        NewHeadSuitsOp(s, c, x, list, o);
      }
    }
  }

  /** A leaver that stabilizes while exiting keeps its successor in front. */
  lemma LeaverRefreshes(s: State, x: Id)
    requires Safe(s) && x in s.net && x !in s.ring && s.net[x].phase == Leaving
    ensures s.net[x].succs != []
    ensures var r := Refreshed(s.net, x, s.net[x].succs); r.Some? && r.value != [] && r.value[0] == s.net[x].succs[0]
  {
    var o := LeavingOutsider(s, x);
    var p, z := s.ops[o].p, s.ops[o].s;
    MembersAnswer(s, z);
    if s.net[z].pred.Some? && Between(x, s.net[z].pred.value, z, false) && Responds(s.net, s.net[z].pred.value) {
      BetweenIsDistance(x, s.net[z].pred.value, z);
      NothingNearer(s, p, x, z);
    }
  }

  lemma OutsiderListFits(s: State, c: nat, x: Id, list: seq<Id>)
    requires Safe(s) && x in s.net && x !in s.ring && s.net[x].phase in {Leaving, Left} && list != []
    requires s.net[x].phase == Leaving ==> Heads(s.net, x, list[0])
    ensures Installable(s, c, x, list)
  {
    forall o | o in s.ops ensures OpAllowsList(s, o, c, x, list) {
      assert OpOk(s, o);
      if Exiting(s.ops[o]) { assert Claim(s.ops[o], s.ops[o].n) == Some(Leaving); }
    }
  }

  /** The list a call would compute from the present pointers can be installed, at any node and
      at any moment. */
  lemma RefreshFits(s: State, c: nat, x: Id, list: seq<Id>)
    requires Safe(s) && x in s.net && Refreshed(s.net, x, s.net[x].succs) == Some(list)
    ensures Installable(s, c, x, list)
  {
    if x in s.ring {
      RefreshIsGood(s, x);
      GoodListFits(s, c, x, list);
    } else {
      assert Outsider(s, x);
      RefreshedNonempty(s.net, x, s.net[x].succs);
      if s.net[x].phase == Leaving { LeaverRefreshes(s, x); }
      OutsiderListFits(s, c, x, list);
    }
  }

  lemma {:induction false} RefreshedNonempty(net: Network, x: Id, list: seq<Id>)
    ensures var r := Refreshed(net, x, list); r.Some? ==> list != [] && r.value != []
  {
    if list != [] {
      RefreshedNonempty(net, x, list[1..]);
      if Responds(net, list[0]) {
        MakeSuccListDistinct(list[0], net[list[0]].succs);
        if net[list[0]].pred.Some? && Responds(net, net[list[0]].pred.value) {
          MakeSuccListDistinct(net[list[0]].pred.value, net[net[list[0]].pred.value].succs);
        }
      }
    }
  }

  lemma NotifiedSuccessor(s: State, t: Id, x: Id)
    requires Safe(s) && x in s.ring && t in s.ring && Heads(s.net, x, t) && GoodList(s, x, s.net[x].succs)
    ensures IsSuccessor(s.ring, x, t)
  {
    if o :| o in s.ops && Exiting(s.ops[o]) && s.ops[o].p == x { assert OpOk(s, o); }
  }

  /** A node that is listed first, but is no member, is on its way out. */
  lemma NotifiedLeaver(s: State, t: Id, x: Id)
    requires Safe(s) && x in s.ring && t in s.net && t !in s.ring && Heads(s.net, x, t)
    requires GoodList(s, x, s.net[x].succs)
    ensures s.net[t].phase == Leaving
    ensures forall o :: o in s.ops && Claim(s.ops[o], t).Some? ==> Exiting(s.ops[o]) && s.ops[o].p == x
  {
    var o' :| o' in s.ops && Exiting(s.ops[o']) && s.ops[o'].p == x;
    assert OpOk(s, o') && Distinct(s.ops[o']) && Claim(s.ops[o'], t) == Some(Leaving);
  }

  lemma MemberSuitsOp(s: State, t: Id, x: Id, o: nat)
    requires x in s.ring && IsSuccessor(s.ring, x, t) && t in s.ring
    requires o in s.ops && OpOk(s, o)
    ensures OpAllowsPred(s, o, t, x)
  {
    forall y | y in s.ring && IsSuccessor(s.ring, y, t) ensures y == x { SamePredecessor(s.ring, x, y, t); }
  }

  /** A node that is its own successor is alone. */
  lemma LoneIsClearable(s: State, t: Id)
    requires Safe(s) && t in s.ring && IsSuccessor(s.ring, t, t)
    ensures Clearable(s, t)
  {
    forall m | m in s.ring ensures m == t { assert Dist(t, t) <= Dist(t, m); }
    forall o | o in s.ops && Entering(s.ops[o]) ensures s.ops[o].s != t { assert OpOk(s, o) && Distinct(s.ops[o]); }
    forall h ensures IsOwner(s.ring, h, t) { AloneOwnsAll(s.ring, t, h); }
  }

  /** A Notify from a node with a good list may write both pointers of the node it lists first. */
  lemma NotifyFits(s: State, t: Id, x: Id)
    requires Safe(s) && x in s.ring && t in s.net && Heads(s.net, x, t) && GoodList(s, x, s.net[x].succs)
    ensures Markable(s, t, x) && Adoptable(s, t, x)
  {
    if t in s.ring {
      NotifiedSuccessor(s, t, x);
      if x == t { LoneIsClearable(s, t); }
      forall o | o in s.ops ensures OpAllowsPred(s, o, t, x) {
        assert OpOk(s, o);
        MemberSuitsOp(s, t, x, o);
      }
    } else {
      NotifiedLeaver(s, t, x);
      forall o | o in s.ops ensures OpAllowsPred(s, o, t, x) {
        assert OpOk(s, o) && Distinct(s.ops[o]);
        assert Claim(s.ops[o], t).Some? ==> Exiting(s.ops[o]) && s.ops[o].p == x;
      }
    }
  }
}

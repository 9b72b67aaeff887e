/** Whole joins and leaves: each runs to completion beside whatever else is under way; one after
    another they leave the ring repaired and every key at its owner. */
module Churn {
  import opened Identifiers
  import opened RingOrder
  import opened Nodes
  import opened SuccessorLists
  import opened Stabilization
  import opened Routing
  import opened FingerTables
  import opened Calls
  import opened Membership
  import opened MembershipLocks
  import opened RingSafety
  import opened Requests
  import opened KeySafety
  import opened Traces

  /** Nothing under way and every member's pointers name its live neighbours. */
  ghost predicate AtRest(s: State) {
    && Inv(s) && s.ops == map[] && s.calls == map[]
    && forall x {:trigger RestAt(s, x)} :: x in s.ring ==> RestAt(s, x)
  }

  ghost predicate RestAt(s: State, x: Id) {
    && x in s.net && s.net[x].phase == Active
    && s.net[x].succs != [] && IsSuccessor(s.ring, x, s.net[x].succs[0])
    && s.net[x].pred.Some? && s.net[x].pred.value in s.ring
    && (s.net[x].surrogate.Some? ==> s.net[x].surrogate == s.net[x].pred)
  }

  lemma CreatedIsAtRest(s: State, root: Id)
    requires Created(s, root)
    ensures AtRest(s)
  {
    CreatedIsSafe(s, root);
    forall x | x in s.ring ensures RestAt(s, x) {}
  }

  /** Pointers at rest are mutual. */
  lemma RestNeighbours(s: State, x: Id)
    requires AtRest(s) && x in s.ring
    ensures RestAt(s, x)
    ensures var p := s.net[x].pred.value; IsSuccessor(s.ring, p, x) && IsPredecessor(s.ring, p, x) && Heads(s.net, p, x)
    ensures var y := s.net[x].succs[0]; y in s.net && s.net[y].pred == Some(x)
  {
    assert RestAt(s, x) && Member(s, x);
    var p, y := s.net[x].pred.value, s.net[x].succs[0];
    NeighboursAgree(s.ring, p, x);
    assert RestAt(s, p) && RestAt(s, y) && Member(s, y);
    SuccessorUnique(s.ring, p, x, s.net[p].succs[0]);
    SamePredecessor(s.ring, x, s.net[y].pred.value, y);
  }

  ghost predicate FingersInRing(s: State) {
    forall n, k :: n in s.ring && n in s.net && 1 <= k <= FINGERS && s.net[n].fingers[k].Some? ==>
      s.net[n].fingers[k].value in s.ring
  }

  lemma RestIsRoutable(s: State)
    requires AtRest(s) && FingersInRing(s)
    ensures Routable(s.net, s.ring)
  {
    forall n | n in s.ring ensures RoutableNode(s.net, s.ring, n) { RestNeighbours(s, n); }
  }

  lemma OwnerGateIsOpen(s: State, x: Id, h: Id)
    requires AtRest(s) && x in s.net && IsOwner(s.ring, h, x)
    ensures Gate(s.net[x], x, h) == Local
  {
    RestNeighbours(s, x);
    assert Member(s, x);
    var p := s.net[x].pred.value;
    OwnerIffInRange(s.ring, p, x, h);
    BetweenIsDistance(p, h, x);
    BetweenIsDistance(x, h, p);
  }

  /** At rest the owner, and only the owner, serves each key, whatever members the fingers hold. */
  lemma ServesIffOwner(s: State, x: Id, h: Id)
    requires AtRest(s) && FingersInRing(s) && x in s.net
    ensures Serves(s.net, x, h) <==> IsOwner(s.ring, h, x)
  {
    if Serves(s.net, x, h) {
      ActiveIsMember(s, x);
      RestNeighbours(s, x);
      LocalImpliesOwner(s, x, h);
    }
    if IsOwner(s.ring, h, x) {
      RestIsRoutable(s);
      LookupFindsOwner(Still(s.net), s.ring, 0, x, h);
      OwnerUnique(s.ring, h, x, Owner(s.ring, h));
      OwnerGateIsOpen(s, x, h);
    }
  }

  // ---- a join, start to finish ----------------------------------------------------------

  lemma JoinerFallsBetween(ring: set<Id>, p: Id, j: Id, x: Id)
    requires p in ring && j !in ring && IsSuccessor(ring, p, x) && IsSuccessor(ring, j, x)
    ensures Between(p, j, x, false)
  {
    BetweenIsDistance(p, j, x);
    assert Dist(j, x) <= Dist(j, p);
  }

  /** Operation `o` is locked in: `j` is Joining, `x` Transferring. */
  function AfterLock(s: State, o: nat, j: Id, x: Id): State
    requires j in s.net && x in s.net && j != x
  {
    s.(net := s.net[j := s.net[j].(phase := Joining)][x := s.net[x].(phase := Transferring)],
       ops := s.ops[o := Asking(j, x)])
  }

  /** The range of `j` has been handed over. */
  function AfterHandOff(s: State, o: nat, j: Id, x: Id, p: Id): State
    requires j in s.net && x in s.net && j != x
  {
    var moved := InRange(s.hash, s.net[x].store, p, j);
    var kept := OutOfRange(s.hash, s.net[x].store, p, j);
    s.(net := s.net[j := s.net[j].(phase := Joining, store := s.net[j].store + moved)]
                   [x := s.net[x].(phase := Transferring, pred := Some(j), surrogate := Some(j), store := kept)],
       ops := s.ops[o := Admitted(j, x, p, MakeSuccList(x, s.net[x].succs))],
       ring := s.ring + {j})
  }

  /** The joiner and its predecessor `p` know each other and the locks are free. */
  function AfterLinks(s: State, o: nat, j: Id, x: Id, p: Id, list: seq<Id>): State
    requires j in s.net && x in s.net && p in s.net
  {
    var a := s.net[j := s.net[j].(succs := list, pred := Some(p))];
    var b := a[p := a[p].(succs := MakeSuccList(j, list))];
    var d := b[j := b[j].(phase := Active)];
    s.(net := d[x := d[x].(phase := Active)], ops := s.ops - {o})
  }

  /** A whole join of `j` between `p` and `x`. */
  function AfterJoin(s: State, o: nat, j: Id, x: Id, p: Id): State
    requires j in s.net && x in s.net && p in s.net && j != x
  {
    AfterLinks(AfterHandOff(s, o, j, x, p), o, j, x, p, MakeSuccList(x, s.net[x].succs))
  }

  lemma JoinLocks(strict: bool, s: State, mid: State, o: nat, j: Id, x: Id)
    requires Reaches(strict, s, mid) && o !in mid.ops && j in mid.net && mid.net[j].phase == Inactive
    requires x in mid.net && x != j && mid.net[x].phase == Active
    ensures Reaches(strict, s, AfterLock(mid, o, j, x))
  {
    ReachNext(strict, s, mid, BeginJoin(o, j));
    var s1 := DoBeginJoin(mid, o, j);
    ReachNext(strict, s, s1, LockForJoin(o, x));
    assert DoLockForJoin(s1, o, x) == AfterLock(mid, o, j, x);
  }

  lemma JoinCopies(strict: bool, s: State, mid: State, o: nat)
    requires Reaches(strict, s, mid) && o in mid.ops && mid.ops[o].Asking? && mid.ops[o].s in mid.net
    requires mid.ops[o].j in mid.net
    requires InPlace(mid, mid.ops[o]) && (strict ==> mid.net[mid.ops[o].s].pred.value in mid.ring)
    ensures Reaches(strict, s, DoCopyUp(DoAcceptJoin(mid, o), o))
  {
    ReachNext(strict, s, mid, AcceptJoin(o));
    ReachNext(strict, s, DoAcceptJoin(mid, o), CopyUp(o));
  }

  lemma JoinIsAdmitted(strict: bool, s: State, mid: State, o: nat)
    requires Reaches(strict, s, mid) && o in mid.ops && mid.ops[o].Copied? && mid.ops[o].s in mid.net
    ensures Reaches(strict, s, DoAdmit(mid, o))
  {
    ReachNext(strict, s, mid, Admit(o));
  }

  lemma HandOffAddsUp(s: State, o: nat, j: Id, x: Id, p: Id)
    requires j in s.net && x in s.net && j != x && s.net[x].pred == Some(p)
    ensures DoAdmit(DoCopyUp(DoAcceptJoin(AfterLock(s, o, j, x), o), o), o) == AfterHandOff(s, o, j, x, p)
  {
    var a := DoAcceptJoin(AfterLock(s, o, j, x), o);
    assert a.ops == s.ops[o := Locked(j, x, p)];
    var b := DoCopyUp(a, o);
    assert b.ops == s.ops[o := Copied(j, x, p)];
    assert DoAdmit(b, o).ops == AfterHandOff(s, o, j, x, p).ops;
    assert DoAdmit(b, o).net == AfterHandOff(s, o, j, x, p).net;
  }

  /** The first half: lock the successor, copy the keys, hand the range over. */
  lemma JoinHandsOff(strict: bool, s: State, mid: State, o: nat, j: Id, x: Id, p: Id)
    requires Reaches(strict, s, mid) && o !in mid.ops && j in mid.net && mid.net[j].phase == Inactive
    requires x in mid.net && x != j && mid.net[x].phase == Active && mid.net[x].pred == Some(p)
    requires Between(p, j, x, false)
    requires strict ==> p in mid.ring
    ensures Reaches(strict, s, AfterHandOff(mid, o, j, x, p))
  {
    JoinLocks(strict, s, mid, o, j, x);
    var s1 := AfterLock(mid, o, j, x);
    JoinCopies(strict, s, s1, o);
    JoinIsAdmitted(strict, s, DoCopyUp(DoAcceptJoin(s1, o), o), o);
    HandOffAddsUp(mid, o, j, x, p);
  }

  /** The predecessor's stabilize finds the joiner and has nothing to tell it. */
  lemma AdviceFindsJoiner(net: Network, p: Id, j: Id, x: Id)
    requires p in net && j in net && x in net && p != j && j != x
    requires Pings(net, p) && Responds(net, j) && Responds(net, x)
    requires net[p].succs != [] && net[p].succs[0] == x && net[x].pred == Some(j) && net[j].pred == Some(p)
    requires Between(p, j, x, false)
    ensures Stabilized(net, p) == net[p := net[p].(succs := MakeSuccList(j, net[j].succs))]
  {
  }

  lemma JoinLinks(strict: bool, s: State, mid: State, o: nat)
    requires Reaches(strict, s, mid) && o in mid.ops && mid.ops[o].Admitted? && mid.ops[o].j in mid.net
    ensures Reaches(strict, s, DoTakePred(DoTakeList(mid, o), o))
  {
    ReachNext(strict, s, mid, TakeList(o));
    ReachNext(strict, s, DoTakeList(mid, o), TakePred(o));
  }

  function AfterJoinAdvice(s: State, o: nat): State
    requires o in s.ops && s.ops[o].Linked? && s.ops[o].p in s.net
  {
    var op := s.ops[o];
    s.(net := Stabilized(s.net, op.p), ops := s.ops[o := Advised(op.j, op.s, op.p)])
  }

  lemma JoinAdviceBegins(strict: bool, s: State, mid: State, o: nat, c: nat)
    requires Reaches(strict, s, mid) && o in mid.ops && mid.ops[o].Linked? && mid.ops[o].p in mid.net && c !in mid.calls
    ensures var s1 := DoAdviseJoin(mid, o, c);
            Reaches(strict, s, Ended(s1, c).(net := Stabilized(mid.net, mid.ops[o].p)))
  {
    ReachNext(strict, s, mid, AdviseJoin(o, c));
    WholeCall(strict, s, DoAdviseJoin(mid, o, c), c, mid.ops[o].p);
  }

  /** An advisory runs its whole call. */
  lemma JoinAdvises(strict: bool, s: State, mid: State, o: nat, c: nat)
    requires Reaches(strict, s, mid) && o in mid.ops && mid.ops[o].Linked? && mid.ops[o].p in mid.net && c !in mid.calls
    ensures Reaches(strict, s, AfterJoinAdvice(mid, o))
  {
    JoinAdviceBegins(strict, s, mid, o, c);
    var s1 := Ended(DoAdviseJoin(mid, o, c), c).(net := Stabilized(mid.net, mid.ops[o].p));
    ReachNext(strict, s, s1, EndJoinAdvice(o));
    assert DoEndJoinAdvice(s1, o).ops == AfterJoinAdvice(mid, o).ops;
    assert s1.calls == mid.calls;
  }

  lemma JoinFinishes(strict: bool, s: State, mid: State, o: nat)
    requires Reaches(strict, s, mid) && o in mid.ops && mid.ops[o].Advised? && mid.ops[o].j in mid.net
    requires mid.ops[o].s in mid.net
    ensures var s1 := DoActivate(mid, o);
            Reaches(strict, s, s1.(net := Release(s1.net, mid.ops[o].s), ops := s1.ops - {o}))
  {
    ReachNext(strict, s, mid, Activate(o));
    ReachNext(strict, s, DoActivate(mid, o), ReleaseJoin(o));
  }

  lemma LinksAddUp(s: State, o: nat, j: Id, x: Id, p: Id, list: seq<Id>)
    requires o in s.ops && s.ops[o] == Admitted(j, x, p, list)
    requires j in s.net && x in s.net && p in s.net && j != x && p != j && s.net[x].phase == Transferring
    requires var net := s.net[j := s.net[j].(succs := list, pred := Some(p))];
             Stabilized(net, p) == net[p := net[p].(succs := MakeSuccList(j, list))]
    ensures var s2 := AfterJoinAdvice(DoTakePred(DoTakeList(s, o), o), o);
            var s3 := DoActivate(s2, o);
            s3.(net := Release(s3.net, x), ops := s3.ops - {o}) == AfterLinks(s, o, j, x, p, list)
  {
    var s1 := DoTakePred(DoTakeList(s, o), o);
    assert s1.net == s.net[j := s.net[j].(succs := list, pred := Some(p))];
    var s3 := DoActivate(AfterJoinAdvice(s1, o), o);
    assert s3.ops - {o} == s.ops - {o};
  }

  /** The second half: the joiner links itself in, its predecessor learns of it, locks are released. */
  lemma JoinLinksIn(strict: bool, s: State, mid: State, o: nat, c: nat, j: Id, x: Id, p: Id, list: seq<Id>)
    requires Reaches(strict, s, mid) && o in mid.ops && mid.ops[o] == Admitted(j, x, p, list) && c !in mid.calls
    requires j in mid.net && x in mid.net && p in mid.net && j != x && p != j
    requires mid.net[j].phase == Joining && mid.net[x].phase == Transferring && mid.net[x].pred == Some(j)
    requires Pings(mid.net, p) && Heads(mid.net, p, x) && Between(p, j, x, false)
    ensures Reaches(strict, s, AfterLinks(mid, o, j, x, p, list))
  {
    JoinLinks(strict, s, mid, o);
    var s1 := DoTakePred(DoTakeList(mid, o), o);
    assert s1.net == mid.net[j := mid.net[j].(succs := list, pred := Some(p))];
    AdviceFindsJoiner(s1.net, p, j, x);
    JoinAdvises(strict, s, s1, o, c);
    JoinFinishes(strict, s, AfterJoinAdvice(s1, o), o);
    LinksAddUp(mid, o, j, x, p, list);
  }

  /** A join between two active neighbours, beside whatever else is under way. */
  lemma JoinRuns(strict: bool, s: State, mid: State, o: nat, c: nat, j: Id, x: Id, p: Id)
    requires Reaches(strict, s, mid) && o !in mid.ops && c !in mid.calls && j in mid.net && mid.net[j].phase == Inactive
    requires x in mid.net && x != j && mid.net[x].phase == Active && mid.net[x].pred == Some(p)
    requires Between(p, j, x, false)
    requires p in mid.net && p != j && mid.net[p].phase == Active && Heads(mid.net, p, x)
    requires strict ==> p in mid.ring
    ensures Reaches(strict, s, AfterJoin(mid, o, j, x, p))
  {
    JoinHandsOff(strict, s, mid, o, j, x, p);
    JoinLinksIn(strict, s, AfterHandOff(mid, o, j, x, p), o, c, j, x, p, MakeSuccList(x, mid.net[x].succs));
  }

  /** The pointers a join leaves behind. */
  ghost predicate Joined(s: State, s': State, j: Id, x: Id, p: Id) {
    && s'.net.Keys == s.net.Keys && j in s.net && x in s.net && p in s.net
    && s'.ring == s.ring + {j} && s'.calls == s.calls && s'.data == s.data && s'.hash == s.hash
    && s'.net[j].phase == Active && s'.net[j].succs == MakeSuccList(x, s.net[x].succs) && Heads(s'.net, j, x)
    && s'.net[j].pred == Some(p) && s'.net[j].surrogate == s.net[j].surrogate
    && s'.net[x].pred == Some(j) && s'.net[x].surrogate == Some(j)
    && Heads(s'.net, p, j) && s'.net[p].succs == MakeSuccList(j, MakeSuccList(x, s.net[x].succs))
    && (forall m :: m in s.net && m != j && m != p ==> s'.net[m].succs == s.net[m].succs)
    && (forall m :: m in s.net && m != j && m != x ==>
          s'.net[m].pred == s.net[m].pred && s'.net[m].surrogate == s.net[m].surrogate)
    && (forall m :: m in s.net && m != j ==> s'.net[m].phase == s.net[m].phase)
  }

  lemma JoinedPointers(s: State, o: nat, j: Id, x: Id, p: Id)
    requires o !in s.ops && j in s.net && x in s.net && p in s.net && j != x && p != j
    requires s.net[x].phase == Active
    ensures Joined(s, AfterJoin(s, o, j, x, p), j, x, p) && AfterJoin(s, o, j, x, p).ops == s.ops
  {
    MakeSuccListDistinct(x, s.net[x].succs);
    MakeSuccListDistinct(j, MakeSuccList(x, s.net[x].succs));
    assert AfterJoin(s, o, j, x, p).ops == s.ops;
  }

  lemma RestAfterJoin(s: State, s': State, j: Id, x: Id, p: Id)
    requires AtRest(s) && p in s.ring && x in s.ring && j !in s.ring && s.ring <= s.net.Keys
    requires IsSuccessor(s.ring, p, x) && Between(p, j, x, false)
    requires Joined(s, s', j, x, p) && s.net[j].surrogate == None
    ensures forall m {:trigger RestAt(s', m)} :: m in s'.ring ==> RestAt(s', m)
  {
    JoinSplitsArc(s.ring, p, j, x);
    forall m | m in s'.ring ensures RestAt(s', m) {
      if m != j { assert RestAt(s, m); }
    }
  }

  /** Where a node that has not started belongs. */
  lemma JoinerHasPlace(s: State, j: Id) returns (x: Id, p: Id)
    requires AtRest(s) && j in s.net && Unstarted(s.net[j])
    ensures j !in s.ring && p in s.ring && x in s.ring && p != j && s.ring <= s.net.Keys
    ensures IsSuccessor(s.ring, p, x) && IsSuccessor(s.ring, j, x) && Between(p, j, x, false)
    ensures s.net[p].phase == Active && s.net[x].phase == Active && s.net[x].pred == Some(p) && Heads(s.net, p, x)
  {
    assert j in s.ring ==> RestAt(s, j);
    x := Successor(s.ring, j);
    RestNeighbours(s, x);
    p := s.net[x].pred.value;
    assert RestAt(s, p);
    JoinerFallsBetween(s.ring, p, j, x);
    forall m | m in s.ring ensures m in s.net { assert RestAt(s, m); }
  }

  /** From rest, a node that has not started can join; the ring comes to rest with it in place
      and every key at its owner. */
  lemma JoinCompletes(s: State, j: Id) returns (s': State)
    requires AtRest(s) && j in s.net && Unstarted(s.net[j])
    ensures Reaches(true, s, s') && AtRest(s') && s'.ring == s.ring + {j} && s'.data == s.data && s'.hash == s.hash
    ensures s'.net.Keys == s.net.Keys && forall m :: m in s.net && m != j ==> s'.net[m].phase == s.net[m].phase
  {
    var x, p := JoinerHasPlace(s, j);
    ReachesItself(true, s);
    JoinRuns(true, s, s, 0, 0, j, x, p);
    s' := AfterJoin(s, 0, j, x, p);
    JoinedPointers(s, 0, j, x, p);
    ReachedIsSound(s, s');
    RestAfterJoin(s, s', j, x, p);
  }

  // ---- a leave, start to finish -----------------------------------------------------------

  /** Operation `o` holds both locks. */
  function AfterLocks(s: State, o: nat, n: Id, p: Id, x: Id): State
    requires n in s.net && x in s.net && n != x
  {
    s.(net := s.net[n := s.net[n].(phase := Leaving)][x := s.net[x].(phase := Transferring)],
       ops := s.ops[o := HoldsBoth(n, p, x)])
  }

  /** The leaver's keys are copied and its range given up. */
  function AfterGiveUp(s: State, o: nat, n: Id, p: Id, x: Id): State
    requires n in s.net && x in s.net && n != x
  {
    s.(net := s.net[n := s.net[n].(phase := Leaving, surrogate := Some(n), store := map[])]
                   [x := s.net[x].(phase := Transferring, store := s.net[x].store + s.net[n].store)],
       ops := s.ops[o := Handed(n, p, x)],
       ring := s.ring - {n})
  }

  /** The predecessor has been told, the leaver has gone and the lock is free. */
  function AfterGoing(s: State, o: nat, n: Id, p: Id, x: Id): State
    requires n in s.net && x in s.net && p in s.net
  {
    var a := s.net[p := s.net[p].(succs := MakeSuccList(n, s.net[n].succs))];
    var b := a[n := a[n].(phase := Left)];
    s.(net := b[x := b[x].(phase := Active)], ops := s.ops - {o})
  }

  /** A whole leave of `n` from between `p` and `x`. */
  function AfterLeave(s: State, o: nat, n: Id, p: Id, x: Id): State
    requires n in s.net && x in s.net && p in s.net && n != x
  {
    AfterGoing(AfterGiveUp(s, o, n, p, x), o, n, p, x)
  }

  lemma LockSuccessorFirst(strict: bool, s: State, mid: State, o: nat, n: Id, p: Id, x: Id)
    requires Reaches(strict, s, mid) && o in mid.ops && mid.ops[o] == Trying(n, p, x) && n in mid.net && x in mid.net
    requires n > x
    requires mid.net[n].phase == Active && mid.net[x].phase == Active
    ensures Reaches(strict, s, AfterLocks(mid, o, n, p, x))
  {
    ReachNext(strict, s, mid, LockSuccFirst(o));
    var s1 := DoLockSuccFirst(mid, o);
    ReachNext(strict, s, s1, LockSelf(o));
    assert DoLockSelf(s1, o).net == AfterLocks(mid, o, n, p, x).net;
    assert DoLockSelf(s1, o).ops == AfterLocks(mid, o, n, p, x).ops;
  }

  lemma LockSelfFirst(strict: bool, s: State, mid: State, o: nat, n: Id, p: Id, x: Id)
    requires Reaches(strict, s, mid) && o in mid.ops && mid.ops[o] == Trying(n, p, x) && n in mid.net && x in mid.net
    requires n < x
    requires mid.net[n].phase == Active && mid.net[x].phase == Active
    ensures Reaches(strict, s, AfterLocks(mid, o, n, p, x))
  {
    ReachNext(strict, s, mid, LockSelf(o));
    var s1 := DoLockSelf(mid, o);
    ReachNext(strict, s, s1, LockSuccSecond(o));
    assert DoLockSuccSecond(s1, o).ops == AfterLocks(mid, o, n, p, x).ops;
  }

  /** Both locks are taken, the lower identifier's first. */
  lemma LeaveLocks(strict: bool, s: State, mid: State, o: nat, n: Id, p: Id, x: Id)
    requires Reaches(strict, s, mid) && o in mid.ops && mid.ops[o] == Trying(n, p, x) && n in mid.net && x in mid.net
    requires n != x
    requires mid.net[n].phase == Active && mid.net[x].phase == Active
    ensures Reaches(strict, s, AfterLocks(mid, o, n, p, x))
  {
    if n > x {
      LockSuccessorFirst(strict, s, mid, o, n, p, x);
    } else {
      LockSelfFirst(strict, s, mid, o, n, p, x);
    }
  }

  lemma LeaveHandsOver(strict: bool, s: State, mid: State, o: nat)
    requires Reaches(strict, s, mid) && o in mid.ops && mid.ops[o].HoldsBoth? && mid.ops[o].n in mid.net
    requires mid.ops[o].s in mid.net
    requires strict ==> Repaired(mid, CopyDown(o))
    ensures Reaches(strict, s, DoHandOver(DoCopyDown(mid, o), o))
  {
    ReachNext(strict, s, mid, CopyDown(o));
    ReachNext(strict, s, DoCopyDown(mid, o), HandOver(o));
  }

  lemma GiveUpAddsUp(s: State, o: nat, n: Id, p: Id, x: Id)
    requires n in s.net && x in s.net && n != x
    ensures DoHandOver(DoCopyDown(AfterLocks(s, o, n, p, x), o), o) == AfterGiveUp(s, o, n, p, x)
  {
    var a := DoCopyDown(AfterLocks(s, o, n, p, x), o);
    assert a.ops == s.ops[o := Sent(n, p, x)];
    assert DoHandOver(a, o).ops == AfterGiveUp(s, o, n, p, x).ops;
    assert DoHandOver(a, o).net == AfterGiveUp(s, o, n, p, x).net;
  }

  lemma LeaveBegins(strict: bool, s: State, mid: State, o: nat, n: Id, p: Id, x: Id)
    requires Reaches(strict, s, mid) && o !in mid.ops && n in mid.net && x in mid.net && n != x
    requires mid.net[n].phase == Active && mid.net[n].pred == Some(p) && Heads(mid.net, n, x)
    ensures Reaches(strict, s, mid.(ops := mid.ops[o := Trying(n, p, x)]))
  {
    ReachNext(strict, s, mid, BeginLeave(o, n));
  }

  /** The first half of a leave that has begun: both locks, the copy, the range given up. */
  lemma LeaveGivesUp(strict: bool, s: State, mid: State, o: nat, n: Id, p: Id, x: Id)
    requires Reaches(strict, s, mid) && o in mid.ops && mid.ops[o] == Trying(n, p, x) && n in mid.net && x in mid.net
    requires n != x
    requires mid.net[n].phase == Active && mid.net[x].phase == Active
    requires strict ==>
      p in mid.ring && mid.net[n].pred == Some(p) && Heads(mid.net, n, x) && IsSuccessor(mid.ring, n, x)
    ensures Reaches(strict, s, AfterGiveUp(mid, o, n, p, x))
  {
    LeaveLocks(strict, s, mid, o, n, p, x);
    LeaveHandsOver(strict, s, AfterLocks(mid, o, n, p, x), o);
    GiveUpAddsUp(mid, o, n, p, x);
  }

  /** While the leaver still answers, its predecessor keeps it first and learns who comes next. */
  lemma AdviceKeepsLeaver(net: Network, p: Id, n: Id)
    requires p in net && n in net && p != n && Pings(net, p) && Responds(net, n)
    requires Heads(net, p, n) && net[n].pred == Some(p)
    ensures Stabilized(net, p) == net[p := net[p].(succs := MakeSuccList(n, net[n].succs))]
  {
    BetweenIsDistance(p, p, n);
  }

  function AfterLeaveAdvice(s: State, o: nat): State
    requires o in s.ops && s.ops[o].Handed? && s.ops[o].p in s.net
  {
    var op := s.ops[o];
    s.(net := Stabilized(s.net, op.p), ops := s.ops[o := Told(op.n, op.p, op.s)])
  }

  lemma LeaveAdviceBegins(strict: bool, s: State, mid: State, o: nat, c: nat)
    requires Reaches(strict, s, mid) && o in mid.ops && mid.ops[o].Handed? && mid.ops[o].p in mid.net && c !in mid.calls
    ensures var s1 := DoAdviseLeave(mid, o, c);
            Reaches(strict, s, Ended(s1, c).(net := Stabilized(mid.net, mid.ops[o].p)))
  {
    ReachNext(strict, s, mid, AdviseLeave(o, c));
    WholeCall(strict, s, DoAdviseLeave(mid, o, c), c, mid.ops[o].p);
  }

  lemma LeaveAdvises(strict: bool, s: State, mid: State, o: nat, c: nat)
    requires Reaches(strict, s, mid) && o in mid.ops && mid.ops[o].Handed? && mid.ops[o].p in mid.net && c !in mid.calls
    ensures Reaches(strict, s, AfterLeaveAdvice(mid, o))
  {
    LeaveAdviceBegins(strict, s, mid, o, c);
    var s1 := Ended(DoAdviseLeave(mid, o, c), c).(net := Stabilized(mid.net, mid.ops[o].p));
    ReachNext(strict, s, s1, EndLeaveAdvice(o));
    assert DoEndLeaveAdvice(s1, o).ops == AfterLeaveAdvice(mid, o).ops;
    assert s1.calls == mid.calls;
  }

  lemma LeaveFinishes(strict: bool, s: State, mid: State, o: nat)
    requires Reaches(strict, s, mid) && o in mid.ops && mid.ops[o].Told? && mid.ops[o].n in mid.net
    requires mid.ops[o].s in mid.net
    ensures var s1 := DoDepart(mid, o);
            Reaches(strict, s, s1.(net := Release(s1.net, mid.ops[o].s), ops := s1.ops - {o}))
  {
    ReachNext(strict, s, mid, Depart(o));
    ReachNext(strict, s, DoDepart(mid, o), ReleaseLeave(o));
  }

  lemma GoingAddsUp(s: State, o: nat, n: Id, p: Id, x: Id)
    requires o in s.ops && s.ops[o] == Handed(n, p, x)
    requires n in s.net && x in s.net && p in s.net && n != x && p != n && s.net[x].phase == Transferring
    requires Stabilized(s.net, p) == s.net[p := s.net[p].(succs := MakeSuccList(n, s.net[n].succs))]
    ensures var s1 := DoDepart(AfterLeaveAdvice(s, o), o);
            s1.(net := Release(s1.net, x), ops := s1.ops - {o}) == AfterGoing(s, o, n, p, x)
  {
    var s1 := DoDepart(AfterLeaveAdvice(s, o), o);
    assert s1.ops - {o} == s.ops - {o};
  }

  /** The second half: the predecessor is told, the leaver goes, the lock is released. */
  lemma LeaveGoes(strict: bool, s: State, mid: State, o: nat, c: nat, n: Id, p: Id, x: Id)
    requires Reaches(strict, s, mid) && o in mid.ops && mid.ops[o] == Handed(n, p, x) && c !in mid.calls
    requires n in mid.net && x in mid.net && p in mid.net && n != x && p != n
    requires mid.net[x].phase == Transferring && mid.net[n].phase == Leaving && Pings(mid.net, p)
    requires mid.net[n].pred == Some(p) && Heads(mid.net, p, n)
    ensures Reaches(strict, s, AfterGoing(mid, o, n, p, x))
  {
    AdviceKeepsLeaver(mid.net, p, n);
    LeaveAdvises(strict, s, mid, o, c);
    LeaveFinishes(strict, s, AfterLeaveAdvice(mid, o), o);
    GoingAddsUp(mid, o, n, p, x);
  }

  /** Two active neighbours around an active leaver. */
  predicate CanDepart(net: Network, n: Id, p: Id, x: Id) {
    && n in net && x in net && p in net && n != x && p != n
    && net[n].phase == Active && net[x].phase == Active && net[p].phase == Active
    && net[n].pred == Some(p) && Heads(net, n, x) && Heads(net, p, n)
  }

  /** Locks, hand-over, advice and departure, back to back, beside whatever else is under way. */
  lemma LeaveDeparts(strict: bool, s: State, mid: State, o: nat, c: nat, n: Id, p: Id, x: Id)
    requires Reaches(strict, s, mid) && o !in mid.ops && c !in mid.calls && CanDepart(mid.net, n, p, x)
    requires strict ==> p in mid.ring && IsSuccessor(mid.ring, n, x)
    ensures Reaches(strict, s, AfterLeave(mid, o, n, p, x))
  {
    LeaveBegins(strict, s, mid, o, n, p, x);
    var s0 := mid.(ops := mid.ops[o := Trying(n, p, x)]);
    LeaveGivesUp(strict, s, s0, o, n, p, x);
    assert AfterGiveUp(s0, o, n, p, x) == AfterGiveUp(mid, o, n, p, x) by {
      assert s0.ops[o := Handed(n, p, x)] == mid.ops[o := Handed(n, p, x)];
    }
    LeaveGoes(strict, s, AfterGiveUp(mid, o, n, p, x), o, c, n, p, x);
  }

  /** The pointers a leave leaves behind, before anybody repairs them. */
  ghost predicate Departs(s: State, s': State, n: Id, p: Id, x: Id) {
    && s'.net.Keys == s.net.Keys && n in s.net && x in s.net && p in s.net
    && s'.ring == s.ring - {n} && s'.calls == s.calls && s'.data == s.data && s'.hash == s.hash
    && s'.net[n].phase == Left && s'.net[p].succs == MakeSuccList(n, s.net[n].succs)
    && (forall m :: m in s.net && m != p ==> s'.net[m].succs == s.net[m].succs)
    && (forall m :: m in s.net ==> s'.net[m].pred == s.net[m].pred)
    && (forall m :: m in s.net && m != n ==>
          s'.net[m].phase == s.net[m].phase && s'.net[m].surrogate == s.net[m].surrogate)
  }

  lemma GivenUpPointers(s: State, o: nat, n: Id, p: Id, x: Id)
    requires n in s.net && x in s.net && n != x
    ensures var s' := AfterGiveUp(s, o, n, p, x);
            && s'.net.Keys == s.net.Keys
            && (forall m :: m in s.net ==> s'.net[m].pred == s.net[m].pred && s'.net[m].succs == s.net[m].succs)
            && (forall m :: m in s.net && m != n ==> s'.net[m].surrogate == s.net[m].surrogate)
            && (forall m :: m in s.net && m != n && m != x ==> s'.net[m].phase == s.net[m].phase)
  {
  }

  lemma GonePointers(s: State, o: nat, n: Id, p: Id, x: Id)
    requires n in s.net && x in s.net && p in s.net && n != x && p != n
    ensures var s' := AfterGoing(s, o, n, p, x);
            && s'.net.Keys == s.net.Keys && s'.net[n].phase == Left && s'.net[x].phase == Active
            && s'.net[p].succs == MakeSuccList(n, s.net[n].succs)
            && (forall m :: m in s.net && m != p ==> s'.net[m].succs == s.net[m].succs)
            && (forall m :: m in s.net ==> s'.net[m].pred == s.net[m].pred && s'.net[m].surrogate == s.net[m].surrogate)
            && (forall m :: m in s.net && m != n && m != x ==> s'.net[m].phase == s.net[m].phase)
  {
  }

  lemma DepartedPointers(s: State, o: nat, n: Id, p: Id, x: Id)
    requires o !in s.ops && CanDepart(s.net, n, p, x)
    ensures Departs(s, AfterLeave(s, o, n, p, x), n, p, x) && AfterLeave(s, o, n, p, x).ops == s.ops
  {
    GivenUpPointers(s, o, n, p, x);
    GonePointers(AfterGiveUp(s, o, n, p, x), o, n, p, x);
    assert AfterLeave(s, o, n, p, x).ops == s.ops;
  }

  /** The repair that follows: the predecessor skips the leaver and introduces itself. */
  lemma RepairSkipsLeaver(net: Network, p: Id, n: Id, x: Id)
    requires p in net && n in net && x in net && p != n && n != x
    requires Pings(net, p) && Responds(net, x) && net[n].phase == Left
    requires |net[p].succs| >= 2 && net[p].succs[0] == n && net[p].succs[1] == x && net[x].pred == Some(n)
    ensures var net' := Stabilized(net, p);
            && net'.Keys == net.Keys && Heads(net', p, x)
            && net'[x].pred == Some(p) && net'[x].surrogate == (if p == x then None else Some(p))
            && (forall m :: m in net && m != p ==> net'[m].succs == net[m].succs)
            && (forall m :: m in net && m != x ==> net'[m].pred == net[m].pred && net'[m].surrogate == net[m].surrogate)
            && (forall m :: m in net ==> net'[m].phase == net[m].phase)
  {
    var list := net[p].succs[1..];
    assert !Responds(net, n);
    assert Refreshed(net, p, net[p].succs) == Refreshed(net, p, list);
    assert list[0] == x;
  }

  /** One periodic stabilize, not overtaken. */
  lemma StabilizeRuns(strict: bool, s: State, mid: State, c: nat, x: Id)
    requires Reaches(strict, s, mid) && x in mid.net && c !in mid.calls
    ensures Reaches(strict, s, mid.(net := Stabilized(mid.net, x)))
  {
    ReachNext(strict, s, mid, BeginStabilize(c, x));
    var s1 := DoBegin(mid, c, Began(x, mid.net[x].succs));
    WholeCall(strict, s, s1, c, x);
    assert Ended(s1, c).calls == mid.calls;
  }

  /** A leave followed by its repair. */
  lemma LeaveRuns(s: State, n: Id, p: Id, x: Id) returns (s': State)
    requires AtRest(s) && CanDepart(s.net, n, p, x) && s.net[x].pred == Some(n)
    requires p in s.ring && IsSuccessor(s.ring, n, x)
    ensures Reaches(true, s, s') && s'.ops == map[] && s'.calls == map[] && Closed(s, s', n, p, x)
  {
    ReachesItself(true, s);
    LeaveDeparts(true, s, s, 0, 0, n, p, x);
    DepartedPointers(s, 0, n, p, x);
    var s1 := AfterLeave(s, 0, n, p, x);
    MakeSuccListDistinct(n, s.net[n].succs);
    RepairSkipsLeaver(s1.net, p, n, x);
    StabilizeRuns(true, s, s1, 0, p);
    s' := s1.(net := Stabilized(s1.net, p));
  }

  /** The pointers after a leave and the repair that follows. */
  ghost predicate Closed(s: State, s': State, n: Id, p: Id, x: Id) {
    && s'.net.Keys == s.net.Keys && n in s.net && x in s.net && p in s.net
    && s'.ring == s.ring - {n} && s'.data == s.data && s'.hash == s.hash
    && Heads(s'.net, p, x) && s'.net[x].pred == Some(p) && s'.net[x].surrogate == (if p == x then None else Some(p))
    && s'.net[n].phase == Left
    && (forall m :: m in s.net && m != p ==> s'.net[m].succs == s.net[m].succs)
    && (forall m :: m in s.net && m != x ==> s'.net[m].pred == s.net[m].pred)
    && (forall m :: m in s.net && m != x && m != n ==> s'.net[m].surrogate == s.net[m].surrogate)
    && (forall m :: m in s.net && m != n ==> s'.net[m].phase == s.net[m].phase)
  }

  lemma RestAfterLeave(s: State, s': State, n: Id, p: Id, x: Id)
    requires AtRest(s) && n in s.ring && p in s.ring && x in s.ring && n != x && s.ring <= s.net.Keys
    requires IsSuccessor(s.ring, p, n) && IsSuccessor(s.ring, n, x) && Closed(s, s', n, p, x)
    ensures forall m {:trigger RestAt(s', m)} :: m in s'.ring ==> RestAt(s', m)
  {
    LeaveMergesArc(s.ring, p, n, x);
    RestNeighbours(s, n);
    forall m | m in s'.ring ensures RestAt(s', m) {
      RestNeighbours(s, m);
      if m != p && s.net[m].succs[0] == n { SamePredecessor(s.ring, m, p, n); }
      if m != x && s.net[m].pred == Some(n) { SuccessorUnique(s.ring, n, m, x); }
    }
  }

  lemma LeaverHasNeighbours(s: State, n: Id) returns (p: Id, x: Id)
    requires AtRest(s) && n in s.ring && s.ring != {n}
    ensures p in s.ring && x in s.ring && p != n && x != n && s.ring <= s.net.Keys
    ensures IsSuccessor(s.ring, p, n) && IsSuccessor(s.ring, n, x)
    ensures s.net[n].phase == Active && s.net[x].phase == Active && s.net[p].phase == Active
    ensures s.net[n].pred == Some(p) && Heads(s.net, n, x) && Heads(s.net, p, n) && s.net[x].pred == Some(n)
  {
    RestNeighbours(s, n);
    p, x := s.net[n].pred.value, s.net[n].succs[0];
    assert RestAt(s, x) && RestAt(s, p);
    var m :| m in s.ring && m != n;
    assert Dist(n, x) <= Dist(n, m) && Dist(p, n) <= Dist(m, n);
    forall m | m in s.ring ensures m in s.net { assert RestAt(s, m); }
  }

  /** From rest, any member but the last can leave; after its predecessor's next stabilize the
      ring is at rest without it and every key is at its owner. */
  lemma LeaveCompletes(s: State, n: Id) returns (s': State)
    requires AtRest(s) && n in s.ring && s.ring != {n}
    ensures Reaches(true, s, s') && AtRest(s') && s'.ring == s.ring - {n} && s'.data == s.data && s'.hash == s.hash
    ensures s'.net.Keys == s.net.Keys
    ensures n in s.net && s'.net[n].phase == Left
    ensures forall m :: m in s.net && m != n ==> s'.net[m].phase == s.net[m].phase
  {
    var p, x := LeaverHasNeighbours(s, n);
    s' := LeaveRuns(s, n, p, x);
    ReachedIsSound(s, s');
    RestAfterLeave(s, s', n, p, x);
  }

  // ---- any number of them, one after another ----------------------------------------------

  datatype Change = Enter(x: Id) | Exit(x: Id)

  /** Nodes enter once, and the last member never leaves. */
  predicate Sensible(idle: set<Id>, ring: set<Id>, changes: seq<Change>)
    decreases |changes|
  {
    changes == [] ||
    match changes[0]
    case Enter(x) => x in idle && Sensible(idle - {x}, ring + {x}, changes[1..])
    case Exit(x) => x in ring && ring != {x} && Sensible(idle, ring - {x}, changes[1..])
  }

  function RingAfter(ring: set<Id>, changes: seq<Change>): set<Id>
    decreases |changes|
  {
    if changes == [] then ring
    else RingAfter(if changes[0].Enter? then ring + {changes[0].x} else ring - {changes[0].x}, changes[1..])
  }

  lemma IdleIsUnstarted(s: State, x: Id)
    requires AtRest(s) && x in s.net && s.net[x].phase == Inactive
    ensures Unstarted(s.net[x])
  {
    assert x in s.ring ==> RestAt(s, x);
    assert Outsider(s, x);
    forall k ensures k !in s.net[x].store { assert KeyOk(s, x, k); }
  }

  /** Any finite sequence of joins and leaves, each followed by its repair, ends at rest with
      exactly the expected members, no key lost, duplicated or changed, and each key at its owner. */
  lemma {:induction false} ChurnSettles(s: State, idle: set<Id>, changes: seq<Change>) returns (s': State)
    requires AtRest(s) && Sensible(idle, s.ring, changes)
    requires forall x :: x in idle ==> x in s.net && s.net[x].phase == Inactive
    ensures Reaches(true, s, s') && AtRest(s') && s'.ring == RingAfter(s.ring, changes)
    ensures s'.data == s.data && s'.hash == s.hash && s'.ring != {}
    ensures forall x, k :: x in s'.net ==>
              (k in s'.net[x].store <==> k in s.data && IsOwner(s'.ring, s.hash(k), x)) &&
              (k in s'.net[x].store ==> s'.net[x].store[k] == s.data[k])
    decreases |changes|
  {
    if changes == [] {
      s' := s;
      ReachesItself(true, s);
    } else {
      var mid: State;
      if changes[0].Enter? {
        IdleIsUnstarted(s, changes[0].x);
        mid := JoinCompletes(s, changes[0].x);
        s' := ChurnSettles(mid, idle - {changes[0].x}, changes[1..]);
      } else {
        assert RestAt(s, changes[0].x);
        mid := LeaveCompletes(s, changes[0].x);
        s' := ChurnSettles(mid, idle, changes[1..]);
      }
      ReachesOn(true, s, mid, s');
      ReachedIsSound(s, s');
    }
    forall x, k | x in s'.net
      ensures k in s'.net[x].store <==> k in s.data && IsOwner(s'.ring, s.hash(k), x)
      ensures k in s'.net[x].store ==> s'.net[x].store[k] == s.data[k]
    {
      ReachedIsSound(s, s');
      assert KeyOk(s', x, k);
    }
  }
}

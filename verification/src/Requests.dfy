/** Requests whose lookup is remembered while the ring changes: the node a lookup has named owns
    the hash for as long as it has no surrogate. */
module Requests {
  import opened Identifiers
  import opened RingOrder
  import opened Nodes
  import opened Stabilization
  import opened Routing
  import opened Calls
  import opened Membership
  import opened MembershipLocks
  import opened RingSafety
  import opened RingRepair
  import opened RingHandOff

  // ---- ownership around a hand-off --------------------------------------------------

  /** A new member takes exactly the arc before it. */
  lemma OwnerAfterJoin(ring: set<Id>, p: Id, j: Id, x: Id, h: Id, m: Id)
    requires p in ring && x in ring && j !in ring && IsSuccessor(ring, p, x) && Between(p, j, x, false)
    ensures IsOwner(ring + {j}, h, m) <==> if Between(p, h, j, true) then m == j else IsOwner(ring, h, m)
    ensures Between(p, h, j, true) ==> IsOwner(ring, h, x)
  {
  }

  /** A departing member's arc goes to its successor and nothing else changes. */
  lemma OwnerAfterLeave(ring: set<Id>, n: Id, x: Id, h: Id, m: Id)
    requires n in ring && x in ring && n != x && IsSuccessor(ring, n, x) && m != n
    ensures IsOwner(ring - {n}, h, m) <==> if IsOwner(ring, h, n) then m == x else IsOwner(ring, h, m)
  {
  }

  // ---- one hop of a lookup --------------------------------------------------------------

  /** The head of any answering node's list that is a member without a surrogate owns the whole
      arc: only a node somebody has just joined in front of is named too early, and it has one. */
  lemma HeadIsOwner(s: State, w: Id, x: Id, h: Id)
    requires Safe(s) && Responds(s.net, w) && Heads(s.net, w, x)
    requires x in s.ring && x in s.net && s.net[x].surrogate.None? && Between(w, h, x, true)
    ensures IsOwner(s.ring, h, x)
  {
    if w in s.ring {
      assert Member(s, w);
      forall o | o in s.ops && Entering(s.ops[o]) ensures s.ops[o].s != x { assert OpOk(s, o); }
      forall o | o in s.ops && Exiting(s.ops[o]) ensures s.ops[o].n != x { assert OpOk(s, o); }
      ClearArcOwned(s.ring, w, x, h);
    } else {
      assert Outsider(s, w);
      var o := LeavingOutsider(s, w);
    }
  }

  /** A hop, made at whatever time, that names a member without a surrogate names the owner. */
  lemma HopNamesOwner(s: State, w: Id, x: Id, h: Id)
    requires Safe(s) && w in s.net && Route(w, s.net[w], h) == Answer(x)
    requires x in s.ring && x in s.net && s.net[x].surrogate.None?
    ensures IsOwner(s.ring, h, x)
  {
    if s.net[w].pred.Some? && Between(s.net[w].pred.value, h, w, true) {
      assert Member(s, x);
      ClearArcOwned(s.ring, s.net[w].pred.value, w, h);
    } else {
      HeadIsOwner(s, w, x, h);
    }
  }

  /** A node that has pointers is or was a member. */
  lemma RouterIsEnrolled(s: State, x: Id, h: Id)
    requires Safe(s) && x in s.net && !Route(x, s.net[x], h).Fail?
    ensures Enrolled(s, x)
  {
    if x !in s.ring { assert Outsider(s, x); }
  }

  /** Once the gate lets a request through, the node owns the key: its predecessor and surrogate
      bound its range, and without either the remembered lookup answer is still good. */
  lemma LocalImpliesOwner(s: State, x: Id, h: Id)
    requires Safe(s) && x in s.net && Gate(s.net[x], x, h) == Local
    requires s.net[x].surrogate.None? && s.net[x].pred.None? && x in s.ring ==> IsOwner(s.ring, h, x)
    ensures x in s.ring && IsOwner(s.ring, h, x)
  {
    BusyIsMember(s, x);
    assert Member(s, x);
    var node := s.net[x];
    if node.pred.Some? {
      ClearArcOwned(s.ring, node.pred.value, x, h);
    } else if node.surrogate.Some? {
      var g := node.surrogate.value;
      BetweenIsDistance(x, h, g);
      BetweenIsDistance(g, h, x);
      assert g != x;
      ClearArcOwned(s.ring, g, x, h);
    }
  }

  /** A request that reaches a store, however long ago its lookup was made, reaches the owner's. */
  lemma ServerIsOwner(s: State, c: nat, x: Id, h: Id)
    requires Safe(s) && CallsOk(s) && Serving(s, c, x, h)
    ensures x in s.ring && IsOwner(s.ring, h, x)
  {
    assert CallOk(s, c);
    LocalImpliesOwner(s, x, h);
  }

  // ---- calls across transitions -----------------------------------------------------------

  /** A member stays enrolled and never joins again, and one that has left stays away. */
  ghost predicate GoesOn(s: State, s': State, q: Id) {
    q in s.net ==>
      && q in s'.net
      && (Enrolled(s, q) ==> Enrolled(s', q) && (s.net[q].phase != Joining ==> s'.net[q].phase != Joining))
      && (s.net[q].phase == Left ==> s'.net[q].phase == Left)
  }

  /** An owner without a surrogate stays one, unless it gets a surrogate or leaves; and a node that
      loses its surrogate owns what remembered answers say it owns. */
  ghost predicate StillOwns(s: State, s': State, x: Id) {
    x in s'.ring && x in s'.net && s'.net[x].surrogate.None? && Enrolled(s, x) ==>
      || (s'.ring == s.ring && Clearable(s, x))
      || (x in s.ring && s.net[x].surrogate.None? && forall h :: IsOwner(s.ring, h, x) ==> IsOwner(s'.ring, h, x))
  }

  lemma CallGoesOn(s: State, s': State, c: nat)
    requires c in s.calls && c in s'.calls && s'.calls[c] == s.calls[c] && CallOk(s, c)
    requires forall q {:trigger GoesOn(s, s', q)} :: GoesOn(s, s', q)
    requires forall x {:trigger StillOwns(s, s', x)} :: StillOwns(s, s', x)
    ensures CallOk(s', c)
  {
    assert GoesOn(s, s', s.calls[c].x) && StillOwns(s, s', s.calls[c].x);
    if s.calls[c].Pinging? || s.calls[c].Forgetting? { assert GoesOn(s, s', s.calls[c].q); }
  }

  lemma JoinGoesOn(s: State, e: Event, q: Id)
    requires Safe(s) && Can(s, e) && JoinEvent(e)
    ensures GoesOn(s, Step(s, e), q)
  {
    if e.o in s.ops { assert OpOk(s, e.o); }
    if q in s.net {
      JoinPhasesAreOwned(s, e, q);
      if q in s.ring { assert Member(s, q); }
    }
  }

  lemma HandOverGoesOn(s: State, o: nat, q: Id)
    requires Safe(s) && Can(s, HandOver(o))
    ensures GoesOn(s, DoHandOver(s, o), q)
  {
    assert OpOk(s, o) && Claim(s.ops[o], s.ops[o].n) == Some(Leaving);
  }

  lemma LeaveGoesOn(s: State, e: Event, q: Id)
    requires Safe(s) && Can(s, e) && LeaveEvent(e) && !e.HandOver?
    ensures GoesOn(s, Step(s, e), q)
  {
    if e.o in s.ops { assert OpOk(s, e.o); }
    if q in s.net && Step(s, e).net[q].phase != s.net[q].phase {
      LeavePhasesAreOwned(s, e, q);
      if q in s.ring { assert Member(s, q); }
    }
  }

  /** Every transition only ever moves a node forward. */
  lemma StepGoesOn(s: State, e: Event, q: Id)
    requires Safe(s) && Can(s, e)
    ensures GoesOn(s, Step(s, e), q)
  {
    if JoinEvent(e) {
      JoinGoesOn(s, e, q);
    } else if e.HandOver? {
      HandOverGoesOn(s, e.o, q);
    } else if LeaveEvent(e) {
      LeaveGoesOn(s, e, q);
    }
  }

  lemma AdmitStillOwns(s: State, o: nat, x: Id)
    requires Safe(s) && Can(s, Admit(o))
    ensures StillOwns(s, DoAdmit(s, o), x)
  {
    var op := s.ops[o];
    assert OpOk(s, o) && Claim(s.ops[o], op.j) == Some(Joining);
    if x in s.ring && x != op.s {
      forall h | IsOwner(s.ring, h, x) ensures IsOwner(s.ring + {op.j}, h, x) {
        OwnerAfterJoin(s.ring, op.p, op.j, op.s, h, x);
        if Between(op.p, h, op.j, true) { OwnerUnique(s.ring, h, x, op.s); }
      }
    }
  }

  lemma HandOverStillOwns(s: State, o: nat, x: Id)
    requires Safe(s) && Can(s, HandOver(o))
    ensures StillOwns(s, DoHandOver(s, o), x)
  {
    var op := s.ops[o];
    assert OpOk(s, o) && Distinct(s.ops[o]);
    if x in s.ring && x != op.n {
      forall h | IsOwner(s.ring, h, x) ensures IsOwner(s.ring - {op.n}, h, x) {
        OwnerAfterLeave(s.ring, op.n, op.s, h, x);
        if IsOwner(s.ring, h, op.n) { OwnerUnique(s.ring, h, x, op.n); }
      }
    }
  }

  lemma ProceedStillOwns(s: State, c: nat, x: Id)
    requires Safe(s) && c in s.calls && Timely(s, c)
    ensures StillOwns(s, DoProceed(s, c), x)
  {
  }

  lemma SameRingStillOwns(s: State, s': State, x: Id)
    requires RingOk(s) && s'.ring == s.ring && (x in s.net ==> x in s'.net && s'.net[x].surrogate == s.net[x].surrogate)
    ensures StillOwns(s, s', x)
  {
  }

  lemma JoinStillOwns(s: State, e: Event, x: Id)
    requires Safe(s) && Can(s, e) && JoinEvent(e) && !e.Admit?
    ensures StillOwns(s, Step(s, e), x)
  {
    SameRingStillOwns(s, Step(s, e), x);
  }

  lemma LeaveLocksStillOwn(s: State, e: Event, x: Id)
    requires RingOk(s) && Can(s, e)
    requires e.LockSuccFirst? || e.LockSelf? || e.LockSuccSecond? || e.BackOff? || e.FailTransfer? || e.Unwind?
    ensures StillOwns(s, Step(s, e), x)
  {
    SameRingStillOwns(s, Step(s, e), x);
  }

  lemma LeaveStillOwns(s: State, e: Event, x: Id)
    requires RingOk(s) && Can(s, e) && LeaveEvent(e) && !e.HandOver?
    ensures StillOwns(s, Step(s, e), x)
  {
    if e.LockSuccFirst? || e.LockSelf? || e.LockSuccSecond? || e.BackOff? || e.FailTransfer? || e.Unwind? {
      LeaveLocksStillOwn(s, e, x);
    } else {
      SameRingStillOwns(s, Step(s, e), x);
    }
  }

  /** Every transition that meets `Repaired` leaves an owner without a surrogate its whole range. */
  lemma StepStillOwns(s: State, e: Event, x: Id)
    requires Safe(s) && Can(s, e) && Repaired(s, e)
    ensures StillOwns(s, Step(s, e), x)
  {
    if e.Admit? {
      AdmitStillOwns(s, e.o, x);
    } else if e.HandOver? {
      HandOverStillOwns(s, e.o, x);
    } else if e.Proceed? {
      ProceedStillOwns(s, e.c, x);
    } else if JoinEvent(e) {
      JoinStillOwns(s, e, x);
    } else if LeaveEvent(e) {
      LeaveStillOwns(s, e, x);
    } else {
      SameRingStillOwns(s, Step(s, e), x);
    }
  }

  /** What a call newly relies on after one of its own reads. */
  lemma ProceedKeepsCall(s: State, c: nat)
    requires Safe(s) && c in s.calls && CallOk(s, c) && Goes(s.net, s.calls[c]).Some?
    ensures CallOk(DoProceed(s, c), c)
  {
    match s.calls[c]
    case Checking(x) =>
      if x in s.net && s.net[x].pred.Some? {
        if x in s.ring { assert Member(s, x); } else { assert Outsider(s, x); }
        if x !in s.ring && s.net[x].phase == Leaving { var o := LeavingOutsider(s, x); }
      }
    case Pinging(x, q) => if q in s.ring { assert Member(s, q); }
    case Looking(x, h, at) =>
      if at == x { RouterIsEnrolled(s, x, h); }
      if Route(at, s.net[at], h) == Answer(x) && x in s.ring && s.net[x].surrogate.None? { HopNamesOwner(s, at, x, h); }
    case _ =>
  }

  /** Only its own action moves a call on, and a call that starts relies on nothing yet. */
  ghost predicate CallStands(s: State, s': State, c: nat) {
    c in s'.calls ==> if c in s.calls then s'.calls[c] == s.calls[c] else CallOk(s', c)
  }

  lemma JoinStands(s: State, e: Event, c: nat)
    requires Can(s, e) && JoinEvent(e)
    ensures CallStands(s, Step(s, e), c)
  {
  }

  lemma LeaveStands(s: State, e: Event, c: nat)
    requires Can(s, e) && LeaveEvent(e)
    ensures CallStands(s, Step(s, e), c)
  {
  }

  lemma StepStands(s: State, e: Event, c: nat)
    requires Can(s, e) && !(e.Proceed? && e.c == c)
    ensures CallStands(s, Step(s, e), c)
  {
    if JoinEvent(e) {
      JoinStands(s, e, c);
    } else if LeaveEvent(e) {
      LeaveStands(s, e, c);
    }
  }

  lemma StepKeepsCall(s: State, e: Event, c: nat)
    requires Safe(s) && CallsOk(s) && Can(s, e) && Repaired(s, e)
    requires c in s.calls && c in Step(s, e).calls && !(e.Proceed? && e.c == c)
    ensures CallOk(Step(s, e), c)
  {
    var s' := Step(s, e);
    assert CallOk(s, c);
    StepStands(s, e, c);
    forall q ensures GoesOn(s, s', q) { StepGoesOn(s, e, q); }
    forall x ensures StillOwns(s, s', x) { StepStillOwns(s, e, x); }
    CallGoesOn(s, s', c);
  }

  /** Every transition that meets `Repaired` keeps what every call relies on. */
  lemma StepKeepsCalls(s: State, e: Event)
    requires Safe(s) && CallsOk(s) && Can(s, e) && Repaired(s, e)
    ensures CallsOk(Step(s, e))
  {
    var s' := Step(s, e);
    forall c | c in s'.calls ensures CallOk(s', c) {
      if c !in s.calls {
        StepStands(s, e, c);
      } else if e.Proceed? && e.c == c {
        assert CallOk(s, c);
        ProceedKeepsCall(s, c);
      } else {
        StepKeepsCall(s, e, c);
      }
    }
  }
}

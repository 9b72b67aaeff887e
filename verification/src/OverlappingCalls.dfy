/** Any number of stabilize and Notify calls at once: as long as no node's place in the ring changes
    while that node has such a call under way, every write still fits, however late it comes. */
module OverlappingCalls {
  import opened Identifiers
  import opened RingOrder
  import opened Nodes
  import opened Membership
  import opened MembershipLocks
  import opened RingSafety
  import opened Requests
  import opened KeySafety
  import opened FreshCalls

  // ---- steps of joins and leaves ------------------------------------------------------------------

  /** The steps of a join or leave that change what lies behind `x`, or whether `x` is a member. */
  predicate Displaces(s: State, e: Event, x: Id)
    requires Can(s, e)
  {
    match e
    case Admit(o) => x in {s.ops[o].p, s.ops[o].j}
    case EndJoinAdvice(o) => x == s.ops[o].p
    case HandOver(o) => x in {s.ops[o].p, s.ops[o].n}
    case Depart(o) => x == s.ops[o].p
    case _ => false
  }

  lemma AdmitKeepsPlace(s: State, o: nat, x: Id)
    requires Safe(s) && Can(s, Admit(o)) && !Displaces(s, Admit(o), x)
    ensures SamePlace(s, DoAdmit(s, o), x)
  {
    var op := s.ops[o];
    assert OpOk(s, o);
    JoinSplitsArc(s.ring, op.p, op.j, op.s);
  }

  /** The operation means the same for `x` before and after. */
  predicate SameRole(a: Option<Op>, b: Option<Op>, x: Id) {
    var enters := a.Some? && Entering(a.value) && a.value.p == x;
    var enters' := b.Some? && Entering(b.value) && b.value.p == x;
    var exits, exits' := a.Some? && TakesOut(a.value, x), b.Some? && TakesOut(b.value, x);
    && enters == enters' && (enters ==> a.value.j == b.value.j && a.value.s == b.value.s)
    && exits == exits' && (exits ==> a.value.n == b.value.n && a.value.s == b.value.s)
  }

  /** Only operation `o` moves on, and it means the same for `x`. */
  lemma RoleKeepsPlace(s: State, s': State, o: nat, x: Id)
    requires s'.ring == s.ring && (x in s.net ==> x in s'.net) && SameRole(At(s, o), At(s', o), x)
    requires forall o' :: o' != o ==> (o' in s'.ops <==> o' in s.ops) && (o' in s.ops ==> s'.ops[o'] == s.ops[o'])
    requires forall q {:trigger HasLeft(s, q)} :: HasLeft(s, q) ==> HasLeft(s', q)
    ensures SamePlace(s, s', x)
  {
  }

  lemma LinkingKeepsRole(s: State, e: Event, x: Id)
    requires Can(s, e) && (e.TakeList? || e.TakePred? || e.AdviseJoin? || e.EndJoinAdvice?) && !Displaces(s, e, x)
    ensures SameRole(At(s, e.o), At(Step(s, e), e.o), x)
  {
  }

  lemma JoinKeepsRole(s: State, e: Event, x: Id)
    requires Can(s, e) && JoinEvent(e) && !e.Admit? && !Displaces(s, e, x)
    ensures SameRole(At(s, e.o), At(Step(s, e), e.o), x)
  {
    if e.TakeList? || e.TakePred? || e.AdviseJoin? || e.EndJoinAdvice? { LinkingKeepsRole(s, e, x); }
  }

  lemma DepartingKeepsRole(s: State, e: Event, x: Id)
    requires Can(s, e) && (e.AdviseLeave? || e.EndLeaveAdvice? || e.Depart?) && !Displaces(s, e, x)
    ensures SameRole(At(s, e.o), At(Step(s, e), e.o), x)
  {
  }

  lemma LeaveLocksKeepRole(s: State, e: Event, x: Id)
    requires Can(s, e) && (e.BeginLeave? || e.LockSuccFirst? || e.LockSelf? || e.LockSuccSecond? || e.BackOff?)
    ensures SameRole(At(s, e.o), At(Step(s, e), e.o), x)
  {
  }

  lemma LeaveKeepsRole(s: State, e: Event, x: Id)
    requires Can(s, e) && LeaveEvent(e) && !e.HandOver? && !Displaces(s, e, x)
    ensures SameRole(At(s, e.o), At(Step(s, e), e.o), x)
  {
    if e.AdviseLeave? || e.EndLeaveAdvice? || e.Depart? {
      DepartingKeepsRole(s, e, x);
    } else if e.BeginLeave? || e.LockSuccFirst? || e.LockSelf? || e.LockSuccSecond? || e.BackOff? {
      LeaveLocksKeepRole(s, e, x);
    }
  }

  lemma StepKeepsGone(s: State, e: Event)
    requires Safe(s) && Can(s, e)
    ensures forall q {:trigger HasLeft(s, q)} :: HasLeft(s, q) ==> HasLeft(Step(s, e), q)
  {
    forall q | HasLeft(s, q) ensures HasLeft(Step(s, e), q) { StepGoesOn(s, e, q); }
  }

  lemma JoinKeepsPlace(s: State, e: Event, x: Id)
    requires Safe(s) && Can(s, e) && JoinEvent(e) && !e.Admit? && !Displaces(s, e, x)
    ensures SamePlace(s, Step(s, e), x)
  {
    StepKeepsGone(s, e);
    JoinKeepsRole(s, e, x);
    RoleKeepsPlace(s, Step(s, e), e.o, x);
  }

  lemma HandOverKeepsPlace(s: State, o: nat, x: Id)
    requires Safe(s) && Can(s, HandOver(o)) && !Displaces(s, HandOver(o), x)
    ensures SamePlace(s, DoHandOver(s, o), x)
  {
    var op := s.ops[o];
    assert OpOk(s, o) && Distinct(s.ops[o]);
    LeaveMergesArc(s.ring, op.p, op.n, op.s);
    if x in s.ring && IsSuccessor(s.ring, x, op.n) { SamePredecessor(s.ring, x, op.p, op.n); }
  }

  lemma LeaveKeepsPlace(s: State, e: Event, x: Id)
    requires Safe(s) && Can(s, e) && LeaveEvent(e) && !e.HandOver? && !Displaces(s, e, x)
    ensures SamePlace(s, Step(s, e), x)
  {
    StepKeepsGone(s, e);
    LeaveKeepsRole(s, e, x);
    RoleKeepsPlace(s, Step(s, e), e.o, x);
  }

  /** A join touches no list but the empty one of the joiner, and no node that is on its way out. */
  lemma JoinKeepsSelf(s: State, e: Event, x: Id)
    requires Safe(s) && Can(s, e) && JoinEvent(e) && x in s.net
    ensures SameSelf(s, Step(s, e), x) && (s.net[x].succs != [] ==> Step(s, e).net[x].succs == s.net[x].succs)
  {
    JoinPhasesAreOwned(s, e, x);
    if e.o in s.ops { assert OpOk(s, e.o); }
    if x !in s.ring { assert Outsider(s, x); }
  }

  lemma LeaveLocksSpareLeavers(s: State, e: Event, x: Id)
    requires Safe(s) && Can(s, e) && x in s.net && x !in s.ring && s.net[x].phase in {Leaving, Left}
    requires e.LockSuccFirst? || e.LockSelf? || e.LockSuccSecond? || e.BackOff?
    ensures x in Step(s, e).net && Step(s, e).net[x].phase == s.net[x].phase
  {
    LeaveLocksAreOwned(s, e, x);
    assert OpOk(s, e.o);
  }

  lemma UnwindingSparesLeavers(s: State, e: Event, x: Id)
    requires Safe(s) && Can(s, e) && (e.FailTransfer? || e.Unwind? || e.ReleaseLeave?) && x in s.net && x !in s.ring
    ensures x in Step(s, e).net && Step(s, e).net[x].phase == s.net[x].phase
  {
    assert OpOk(s, e.o);
  }

  /** Whoever is out of the ring and Leaving can only fall silent. */
  lemma LeaverStaysOut(s: State, e: Event, x: Id)
    requires Safe(s) && Can(s, e) && LeaveEvent(e) && x in s.net && x !in s.ring && s.net[x].phase in {Leaving, Left}
    ensures x in Step(s, e).net && (Step(s, e).net[x].phase == s.net[x].phase || Step(s, e).net[x].phase == Left)
  {
    if e.LockSuccFirst? || e.LockSelf? || e.LockSuccSecond? || e.BackOff? {
      LeaveLocksSpareLeavers(s, e, x);
    } else if e.FailTransfer? || e.Unwind? || e.ReleaseLeave? {
      UnwindingSparesLeavers(s, e, x);
    }
  }

  lemma LeaveLocksKeepLists(s: State, e: Event)
    requires Can(s, e) && (e.LockSuccFirst? || e.LockSelf? || e.LockSuccSecond? || e.BackOff?)
    ensures Step(s, e).calls == s.calls
    ensures forall x :: x in s.net ==> x in Step(s, e).net && Step(s, e).net[x].succs == s.net[x].succs
  {
  }

  lemma HandingKeepsLists(s: State, e: Event)
    requires Can(s, e) && (e.CopyDown? || e.FailTransfer? || e.HandOver? || e.Depart?)
    ensures Step(s, e).calls == s.calls
    ensures forall x :: x in s.net ==> x in Step(s, e).net && Step(s, e).net[x].succs == s.net[x].succs
  {
  }

  /** A leave touches no list, and no call under way. */
  lemma LeaveKeepsLists(s: State, e: Event)
    requires Can(s, e) && LeaveEvent(e)
    ensures forall c :: c in s.calls ==> c in Step(s, e).calls && Step(s, e).calls[c] == s.calls[c]
    ensures forall x :: x in s.net ==> x in Step(s, e).net && Step(s, e).net[x].succs == s.net[x].succs
  {
    if e.LockSuccFirst? || e.LockSelf? || e.LockSuccSecond? || e.BackOff? {
      LeaveLocksKeepLists(s, e);
    } else if e.CopyDown? || e.FailTransfer? || e.HandOver? || e.Depart? {
      HandingKeepsLists(s, e);
    }
  }

  lemma JoinKeepsCall(s: State, e: Event, c: nat)
    requires Can(s, e) && JoinEvent(e) && c in s.calls
    ensures c in Step(s, e).calls && Step(s, e).calls[c] == s.calls[c]
  {
  }

  lemma LeaveKeepsSelf(s: State, e: Event, x: Id)
    requires Safe(s) && Can(s, e) && LeaveEvent(e) && x in s.net
    ensures SameSelf(s, Step(s, e), x) && Step(s, e).net[x].succs == s.net[x].succs
  {
    LeaveKeepsLists(s, e);
    if x !in s.ring && s.net[x].phase in {Leaving, Left} { LeaverStaysOut(s, e, x); }
    SelfIsSame(s, Step(s, e), x);
  }

  lemma SelfIsSame(s: State, s': State, x: Id)
    requires x in s.net && x in s'.net && s'.net[x].succs == s.net[x].succs
    requires x !in s.ring && s.net[x].phase in {Leaving, Left} ==>
      s'.net[x].phase == s.net[x].phase || s'.net[x].phase == Left
    ensures SameSelf(s, s', x)
  {
  }

  // ---- every run ---------------------------------------------------------------------------------

  /** No repair call is under way at a node whose place this step changes. */
  ghost predicate Undisturbed(s: State, e: Event)
    requires Can(s, e)
  {
    forall c :: c in s.calls && Repairing(s.calls[c]) ==> !Displaces(s, e, s.calls[c].x)
  }

  /** A stabilize call begins fresh, whatever is under way. */
  lemma BeginsFresh(s: State, x: Id)
    requires Safe(s) && x in s.net
    ensures s.net[x].succs == [] || Leading(s, x, s.net[x].succs)
  {
    if x in s.ring {
      assert Member(s, x);
      forall o | o in s.ops && TakesOut(s.ops[o], x) ensures Heads(s.net, x, s.ops[o].n) { assert OpOk(s, o); }
    } else {
      assert Outsider(s, x);
    }
  }

  lemma JoinSpares(s: State, e: Event, x: Id)
    requires Safe(s) && Can(s, e) && JoinEvent(e) && !Displaces(s, e, x)
    ensures Spares(s, Step(s, e), x)
  {
    if e.Admit? { AdmitKeepsPlace(s, e.o, x); } else { JoinKeepsPlace(s, e, x); }
    if x in s.net { JoinKeepsSelf(s, e, x); }
  }

  lemma LeaveSpares(s: State, e: Event, x: Id)
    requires Safe(s) && Can(s, e) && LeaveEvent(e) && !Displaces(s, e, x)
    ensures Spares(s, Step(s, e), x)
  {
    if e.HandOver? { HandOverKeepsPlace(s, e.o, x); } else { LeaveKeepsPlace(s, e, x); }
    if x in s.net { LeaveKeepsSelf(s, e, x); }
  }

  lemma MembershipLeavesFresh(s: State, e: Event, c: nat)
    requires Safe(s) && Can(s, e) && (JoinEvent(e) || LeaveEvent(e)) && Undisturbed(s, e) && RingOk(Step(s, e))
    requires c in s.calls && Fresh(s, c)
    ensures c in Step(s, e).calls && Fresh(Step(s, e), c)
  {
    if JoinEvent(e) { JoinKeepsCall(s, e, c); } else { LeaveKeepsLists(s, e); }
    if Repairing(s.calls[c]) {
      if JoinEvent(e) { JoinSpares(s, e, s.calls[c].x); } else { LeaveSpares(s, e, s.calls[c].x); }
      StaysFresh(s, Step(s, e), c);
    }
  }

  lemma PlainSpares(s: State, e: Event, x: Id)
    requires Can(s, e) && !JoinEvent(e) && !LeaveEvent(e) && !e.Proceed?
    ensures Spares(s, Step(s, e), x)
  {
    PointersKeepPlace(s, Step(s, e), x);
  }

  /** Starting a call, a client write and new fingers leave every pointer alone. */
  lemma PlainLeavesFresh(s: State, e: Event, c: nat)
    requires Safe(s) && Can(s, e) && !JoinEvent(e) && !LeaveEvent(e) && !e.Proceed? && RingOk(Step(s, e))
    requires c in s.calls && Fresh(s, c) && c in Step(s, e).calls
    ensures Fresh(Step(s, e), c)
  {
    PlainSpares(s, e, s.calls[c].x);
    StaysFresh(s, Step(s, e), c);
  }

  lemma CallLeavesFresh(s: State, e: Event, c: nat)
    requires Safe(s) && AllFresh(s) && Can(s, e) && !JoinEvent(e) && !LeaveEvent(e) && Safe(Step(s, e))
    requires c in s.calls && c in Step(s, e).calls
    ensures Fresh(Step(s, e), c)
  {
    assert Fresh(s, c);
    if e.Proceed? {
      assert Fresh(s, e.c);
      if e.c == c { OwnStepStaysFresh(s, c); } else { OtherStepLeavesFresh(s, e.c, c); }
    } else {
      PlainLeavesFresh(s, e, c);
    }
  }

  lemma BegunIsFresh(s: State, e: Event, c: nat)
    requires Safe(s) && Can(s, e) && Safe(Step(s, e)) && c !in s.calls && c in Step(s, e).calls
    ensures Fresh(Step(s, e), c)
  {
    if e.BeginStabilize? {
      BeginsFresh(Step(s, e), e.x);
    } else if e.AdviseJoin? || e.AdviseLeave? {
      BeginsFresh(Step(s, e), s.ops[e.o].p);
    }
  }

  /** Every undisturbed step finds all writes in time and leaves every call fresh. */
  lemma StepKeepsFresh(s: State, e: Event)
    requires Inv(s) && AllFresh(s) && Can(s, e) && NeighboursRepaired(s, e) && Undisturbed(s, e)
    ensures Repaired(s, e) && AllFresh(Step(s, e))
  {
    if e.Proceed? {
      assert Fresh(s, e.c);
      FreshIsTimely(s, e.c);
    }
    StepKeepsSafe(s, e);
    forall c | c in Step(s, e).calls ensures Fresh(Step(s, e), c) {
      if c !in s.calls {
        BegunIsFresh(s, e, c);
      } else if JoinEvent(e) || LeaveEvent(e) {
        assert Fresh(s, c);
        MembershipLeavesFresh(s, e, c);
      } else {
        CallLeavesFresh(s, e, c);
      }
    }
  }

  /** A run whose hand-offs start from repaired neighbours, and in which no node's place changes while
      that node has a stabilize or Notify call under way. Calls overlap in any way. */
  ghost predicate RunsUndisturbed(s: State, events: seq<Event>, s': State)
    decreases |events|
  {
    if events == [] then s' == s
    else
      && Can(s, events[0]) && NeighboursRepaired(s, events[0]) && Undisturbed(s, events[0])
      && RunsUndisturbed(Step(s, events[0]), events[1..], s')
  }

  /** In such a run every delayed write fits when it is made. */
  lemma {:induction false} UndisturbedWritesFit(s: State, events: seq<Event>, s': State)
    requires Inv(s) && AllFresh(s) && RunsUndisturbed(s, events, s')
    ensures RunsRepaired(s, events, s') && Inv(s') && AllFresh(s')
    decreases |events|
  {
    if events != [] {
      StepKeepsFresh(s, events[0]);
      StepKeepsInv(s, events[0]);
      UndisturbedWritesFit(Step(s, events[0]), events[1..], s');
    }
  }

  /** Calls alone, any number of them overlapping at any nodes, with joins and leaves frozen at any
      stage: every write fits. */
  lemma {:induction false} CallsAloneFit(s: State, events: seq<Event>, s': State)
    requires Inv(s) && AllFresh(s) && Runs(s, events, s')
    requires forall e :: e in events ==> !JoinEvent(e) && !LeaveEvent(e)
    ensures RunsRepaired(s, events, s') && Inv(s') && AllFresh(s') && s'.ring == s.ring && s'.ops == s.ops
    decreases |events|
  {
    if events != [] {
      assert events[0] in events;
      assert forall e :: e in events[1..] ==> e in events;
      StepKeepsFresh(s, events[0]);
      StepKeepsInv(s, events[0]);
      CallsAloneFit(Step(s, events[0]), events[1..], s');
    }
  }

  /** In every state of every undisturbed run all requests for a key that have reached a store have
      reached the same one, it holds exactly the value clients last stored, and no other store holds
      the key at all. */
  lemma UndisturbedServesOneMap(s: State, root: Id, events: seq<Event>, s': State, c: nat, x: Id, k: Key)
    requires Created(s, root) && RunsUndisturbed(s, events, s') && Serving(s', c, x, s'.hash(k))
    ensures k in s'.net[x].store <==> k in s'.data
    ensures k in s'.data ==> s'.net[x].store[k] == s'.data[k]
    ensures forall y :: y in s'.net && y != x ==> k !in s'.net[y].store
    ensures forall a, y :: Serving(s', a, y, s'.hash(k)) ==> y == x
  {
    CreatedIsSafe(s, root);
    UndisturbedWritesFit(s, events, s');
    ServesOneMap(s, root, events, s', c, x, k);
  }

  /** Whenever no operation is under way in an undisturbed run, calls or not, every key sits at its
      owner and nowhere else, and the owners are exactly the active nodes. */
  lemma UndisturbedPlacement(s: State, root: Id, events: seq<Event>, s': State)
    requires Created(s, root) && RunsUndisturbed(s, events, s') && s'.ops == map[]
    ensures s'.ring != {} && forall x :: x in s'.ring <==> x in s'.net && s'.net[x].phase == Active
    ensures forall k, x :: x in s'.net ==> (k in s'.net[x].store <==> k in s'.data && x == Owner(s'.ring, s'.hash(k)))
    ensures forall k, x :: x in s'.net && k in s'.net[x].store ==> s'.net[x].store[k] == s'.data[k]
  {
    CreatedIsSafe(s, root);
    UndisturbedWritesFit(s, events, s');
    SettledPlacement(s, root, events, s');
  }
}

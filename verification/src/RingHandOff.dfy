/** Membership transitions keep the ring safe, provided hand-offs start from repaired neighbours. */
module RingHandOff {
  import opened Identifiers
  import opened RingOrder
  import opened Nodes
  import opened Calls
  import opened Membership
  import opened RingSafety
  import opened DelayedWrites

  /** Operations that some member's list depends on. */
  predicate Witness(op: Op) {
    Entering(op) || Exiting(op)
  }

  predicate SamePointers(a: Node, b: Node) {
    a.pred == b.pred && a.succs == b.succs && a.surrogate == b.surrogate
  }

  /** Operation `o` moves on (or starts, or ends) and no pointer changes. */
  ghost predicate OnlyPhases(s: State, s': State, o: nat) {
    && s'.net.Keys == s.net.Keys && s'.ring == s.ring && s'.calls == s.calls
    && (forall x :: x in s.net ==> SamePointers(s'.net[x], s.net[x]))
    && (forall o' :: o' != o ==> (o' in s'.ops <==> o' in s.ops) && (o' in s.ops ==> s'.ops[o'] == s.ops[o']))
    && (o in s.ops ==> !Witness(s.ops[o]))
    && (forall x {:trigger s'.net[x].phase} :: x in s.net && s'.net[x].phase != s.net[x].phase ==>
          if x in s.ring
          then s'.net[x].phase !in {Inactive, Left} && (s.net[x].phase != Joining || Anchored(s, x))
          else {s'.net[x].phase, s.net[x].phase} !! {Active, Transferring, Leaving, Left})
  }

  /** A member predecessor has `x` at the head of its list. */
  ghost predicate Anchored(s: State, x: Id)
    requires x in s.net
  {
    s.net[x].pred.Some? && s.net[x].pred.value in s.ring ==> Heads(s.net, s.net[x].pred.value, x)
  }

  lemma PhasesKeepMember(s: State, s': State, o: nat, x: Id)
    requires RingOk(s) && OnlyPhases(s, s', o) && x in s.ring
    ensures Member(s', x)
  {
    assert Member(s, x);
    var succs := s.net[x].succs;
    if succs == [] {
      var o' :| o' in s.ops && s.ops[o'].Admitted? && s.ops[o'].j == x;
      assert o' in s'.ops && s'.ops[o'] == s.ops[o'];
    } else if o' :| o' in s.ops && Entering(s.ops[o']) && s.ops[o'].p == x && s.ops[o'].s == succs[0] {
      assert o' in s'.ops && s'.ops[o'] == s.ops[o'];
    } else if o' :| o' in s.ops && Exiting(s.ops[o']) && s.ops[o'].p == x && s.ops[o'].n == succs[0] {
      assert o' in s'.ops && s'.ops[o'] == s.ops[o'];
    } else {
      assert GoneArc(s, x, succs) ==> GoneArc(s', x, succs);
    }
    assert ArcOk(s', x);
  }

  /** Phases do not matter to what an operation relies on. */
  lemma SamePointersKeepOp(s: State, s': State, o: nat)
    requires o in s.ops && o in s'.ops && s'.ops[o] == s.ops[o] && OpOk(s, o)
    requires s'.net.Keys == s.net.Keys && s'.ring == s.ring && s'.calls == s.calls
    requires forall x :: x in s.net ==> SamePointers(s'.net[x], s.net[x])
    ensures OpOk(s', o)
  {
  }

  lemma OnlyPhasesKeepsRing(s: State, s': State, o: nat)
    requires RingOk(s) && OnlyPhases(s, s', o)
    requires o in s'.ops ==> OpOk(s', o)
    ensures RingOk(s')
  {
    forall x | x in s'.ring ensures Member(s', x) { PhasesKeepMember(s, s', o, x); }
    forall x | x in s'.net && x !in s'.ring ensures Outsider(s', x) { assert Outsider(s, x); }
    forall o' | o' in s'.ops ensures OpOk(s', o') {
      if o' != o {
        assert OpOk(s, o');
        SamePointersKeepOp(s, s', o');
      }
    }
  }

  // ---- transitions that only move locks -------------------------------------------

  /** A node that is Active or Transferring is a member. */
  lemma BusyIsMember(s: State, x: Id)
    requires RingOk(s) && x in s.net && s.net[x].phase in {Active, Transferring}
    ensures x in s.ring
  {
    assert x !in s.ring ==> Outsider(s, x);
  }

  lemma BeginJoinKeepsRing(s: State, o: nat, j: Id)
    requires Safe(s) && Can(s, BeginJoin(o, j))
    ensures RingOk(DoBeginJoin(s, o, j))
  {
    assert j in s.ring ==> Member(s, j);
    assert Outsider(s, j);
    OnlyPhasesKeepsRing(s, DoBeginJoin(s, o, j), o);
  }

  lemma GivenUpKeepsRing(s: State, o: nat, j: Id)
    requires RingOk(s) && o in s.ops && !Witness(s.ops[o]) && j in s.net && j !in s.ring && Untouched(s.net, j)
    requires s.net[j].phase == Joining
    ensures RingOk(s.(net := SetPhase(s.net, j, Inactive), ops := s.ops - {o}))
  {
    OnlyPhasesKeepsRing(s, s.(net := SetPhase(s.net, j, Inactive), ops := s.ops - {o}), o);
  }

  lemma GiveUpJoinKeepsRing(s: State, o: nat)
    requires Safe(s) && Can(s, GiveUpJoin(o))
    ensures RingOk(Step(s, GiveUpJoin(o)))
  {
    assert OpOk(s, o) && Claim(s.ops[o], s.ops[o].j) == Some(Joining);
    GivenUpKeepsRing(s, o, s.ops[o].j);
  }

  lemma LeaveBeginningsKeepRing(s: State, e: Event)
    requires Safe(s) && Can(s, e) && (e.BeginLeave? || e.GiveUpLeave?)
    ensures RingOk(Step(s, e))
  {
    OnlyPhasesKeepsRing(s, Step(s, e), e.o);
  }

  /** A member that is not joining takes on or gives up a membership phase. */
  lemma MemberPhaseKeepsRing(s: State, s': State, o: nat, x: Id, phase: Phase)
    requires RingOk(s) && o in s.ops && !Witness(s.ops[o])
    requires x in s.ring && x in s.net && s.net[x].phase != Joining && phase !in {Inactive, Left}
    requires s'.net == SetPhase(s.net, x, phase) && s'.ring == s.ring && s'.calls == s.calls
    requires forall o' :: o' != o ==> (o' in s'.ops <==> o' in s.ops) && (o' in s.ops ==> s'.ops[o'] == s.ops[o'])
    requires o in s'.ops ==> OpOk(s', o)
    ensures RingOk(s')
  {
    OnlyPhasesKeepsRing(s, s', o);
  }

  lemma JoinLocksKeepRing(s: State, e: Event)
    requires Safe(s) && Can(s, e) && (e.LockForJoin? || e.RefuseJoin? || e.ReleaseJoin?)
    ensures RingOk(Step(s, e))
  {
    var op := s.ops[e.o];
    assert OpOk(s, e.o) && Distinct(s.ops[e.o]);
    if e.LockForJoin? {
      BusyIsMember(s, e.s);
      MemberPhaseKeepsRing(s, DoLockForJoin(s, e.o, e.s), e.o, e.s, Transferring);
    } else {
      assert Claim(s.ops[e.o], op.s) == Some(Transferring);
      MemberPhaseKeepsRing(s, Step(s, e), e.o, op.s, Active);
    }
  }

  /** An advised joiner is listed first by the only member that can be its predecessor. */
  lemma JoinerIsAnchored(s: State, o: nat)
    requires Safe(s) && o in s.ops && s.ops[o].Advised?
    ensures s.ops[o].j in s.ring && s.ops[o].s in s.ring && s.ops[o].j in s.net && Anchored(s, s.ops[o].j)
  {
    var op := s.ops[o];
    assert OpOk(s, o) && Member(s, op.j);
    if s.net[op.j].pred.Some? && s.net[op.j].pred.value in s.ring {
      SamePredecessor(s.ring, s.net[op.j].pred.value, op.p, op.j);
    }
  }

  lemma ActivateKeepsRing(s: State, o: nat)
    requires Safe(s) && o in s.ops && s.ops[o].Advised? && s.ops[o].j in s.net
    ensures RingOk(DoActivate(s, o))
  {
    JoinerIsAnchored(s, o);
    OnlyPhasesKeepsRing(s, DoActivate(s, o), o);
  }

  lemma LockSuccKeepsRing(s: State, o: nat, s': State)
    requires Safe(s) && o in s.ops && (s.ops[o].Trying? || s.ops[o].HoldsSelf?)
    requires s.ops[o].s in s.net && s.net[s.ops[o].s].phase == Active
    requires || (s.ops[o].Trying? && s.ops[o].n != s.ops[o].s && s' == DoLockSuccFirst(s, o))
             || (s.ops[o].HoldsSelf? && s' == DoLockSuccSecond(s, o))
    ensures RingOk(s')
  {
    assert OpOk(s, o);
    BusyIsMember(s, s.ops[o].s);
    MemberPhaseKeepsRing(s, s', o, s.ops[o].s, Transferring);
  }

  lemma LockSelfKeepsRing(s: State, o: nat)
    requires Safe(s) && o in s.ops && (s.ops[o].HoldsSucc? || s.ops[o].Trying?)
    requires s.ops[o].n in s.net && s.net[s.ops[o].n].phase == Active
    ensures RingOk(DoLockSelf(s, o))
  {
    assert OpOk(s, o);
    BusyIsMember(s, s.ops[o].n);
    MemberPhaseKeepsRing(s, DoLockSelf(s, o), o, s.ops[o].n, Leaving);
  }

  lemma BackOffKeepsRing(s: State, o: nat)
    requires Safe(s) && o in s.ops && (s.ops[o].HoldsSucc? || s.ops[o].HoldsSelf?)
    requires s.ops[o].s in s.net && s.ops[o].n in s.net
    ensures RingOk(DoBackOff(s, o))
  {
    var op := s.ops[o];
    assert OpOk(s, o) && Distinct(s.ops[o]);
    var x := if op.HoldsSelf? then op.n else op.s;
    assert Claim(s.ops[o], x) == Some(if op.HoldsSelf? then Leaving else Transferring);
    MemberPhaseKeepsRing(s, DoBackOff(s, o), o, x, Active);
  }

  lemma FailTransferKeepsRing(s: State, o: nat)
    requires Safe(s) && o in s.ops && s.ops[o].HoldsBoth? && s.ops[o].n in s.net
    ensures RingOk(DoFailTransfer(s, o))
  {
    assert OpOk(s, o) && Claim(s.ops[o], s.ops[o].n) == Some(Leaving);
    MemberPhaseKeepsRing(s, DoFailTransfer(s, o), o, s.ops[o].n, Active);
  }

  lemma LeaveReleaseKeepsRing(s: State, o: nat)
    requires Safe(s) && o in s.ops && (s.ops[o].Unwinding? || s.ops[o].Departed?) && s.ops[o].s in s.net
    ensures RingOk(s.(net := Release(s.net, s.ops[o].s), ops := s.ops - {o}))
  {
    assert OpOk(s, o) && Distinct(s.ops[o]) && Claim(s.ops[o], s.ops[o].s) == Some(Transferring);
    MemberPhaseKeepsRing(s, s.(net := Release(s.net, s.ops[o].s), ops := s.ops - {o}), o, s.ops[o].s, Active);
  }

  // ---- accepting a joiner, copying keys ---------------------------------------------

  /** A live predecessor pointer is matched by the predecessor's list. */
  lemma LivePredecessorHeads(s: State, x: Id)
    requires Safe(s) && x in s.ring && x in s.net && s.net[x].phase in {Active, Transferring, Leaving}
    requires s.net[x].pred.Some? && s.net[x].pred.value in s.ring
    requires forall o :: o in s.ops && Entering(s.ops[o]) ==> s.ops[o].s != x
    ensures IsSuccessor(s.ring, s.net[x].pred.value, x) && Heads(s.net, s.net[x].pred.value, x)
  {
    var p := s.net[x].pred.value;
    assert Member(s, x) && Member(s, p);
    if s.net[p].succs == [] {
      var o :| o in s.ops && s.ops[o].Admitted? && s.ops[o].j == p;
      assert OpOk(s, o);
      SuccessorUnique(s.ring, p, x, s.ops[o].s);
    }
  }

  lemma EnteringHolds(s: State, o: nat)
    requires LockOk(s) && o in s.ops && Entering(s.ops[o])
    ensures Claim(s.ops[o], s.ops[o].s) == Some(Transferring) && s.ops[o].s in s.net
    ensures s.net[s.ops[o].s].phase == Transferring
  {
    assert Distinct(s.ops[o]);
  }

  lemma AcceptJoinKeepsRing(s: State, o: nat)
    requires Safe(s) && Can(s, AcceptJoin(o)) && Repaired(s, AcceptJoin(o))
    ensures RingOk(DoAcceptJoin(s, o))
  {
    var op := s.ops[o];
    assert OpOk(s, o) && Claim(s.ops[o], op.s) == Some(Transferring);
    forall o' | o' in s.ops && Entering(s.ops[o']) ensures s.ops[o'].s != op.s {
      EnteringHolds(s, o');
    }
    LivePredecessorHeads(s, op.s);
    OnlyPhasesKeepsRing(s, DoAcceptJoin(s, o), o);
  }

  lemma CopyUpKeepsRing(s: State, o: nat)
    requires Safe(s) && o in s.ops && s.ops[o].Locked? && s.ops[o].s in s.net && s.ops[o].j in s.net
    ensures RingOk(DoCopyUp(s, o))
  {
    assert OpOk(s, o);
    var s' := DoCopyUp(s, o);
    OnlyPhasesKeepsRing(s, s', o);
  }

  /** A leaver with repaired neighbours is listed first by its live predecessor. */
  lemma LeaverIsPlaced(s: State, o: nat)
    requires Safe(s) && Can(s, CopyDown(o)) && Repaired(s, CopyDown(o))
    ensures SentOk(s, s.ops[o].n, s.ops[o].p, s.ops[o].s)
  {
    var op := s.ops[o];
    assert OpOk(s, o) && Claim(s.ops[o], op.n) == Some(Leaving);
    forall o' | o' in s.ops && Entering(s.ops[o']) ensures s.ops[o'].s != op.n {
      EnteringHolds(s, o');
    }
    LivePredecessorHeads(s, op.n);
  }

  lemma PlacedCopyKeepsRing(s: State, o: nat)
    requires RingOk(s) && o in s.ops && s.ops[o].HoldsBoth? && s.ops[o].n in s.net && s.ops[o].s in s.net
    requires SentOk(s, s.ops[o].n, s.ops[o].p, s.ops[o].s)
    ensures RingOk(DoCopyDown(s, o))
  {
    OnlyPhasesKeepsRing(s, DoCopyDown(s, o), o);
  }

  lemma CopyDownKeepsRing(s: State, o: nat)
    requires Safe(s) && Can(s, CopyDown(o)) && Repaired(s, CopyDown(o))
    ensures RingOk(DoCopyDown(s, o))
  {
    LeaverIsPlaced(s, o);
    PlacedCopyKeepsRing(s, o);
  }

  // ---- the joiner enters ---------------------------------------------------------------

  /** Two operations never lock the same node. */
  lemma NoTwoLocks(s: State, o: nat, o': nat, x: Id)
    requires LockOk(s) && o in s.ops && o' in s.ops && o != o'
    requires Claim(s.ops[o], x).Some?
    ensures Claim(s.ops[o'], x).None?
  {
  }

  lemma AdmitKeepsMember(s: State, o: nat, m: Id)
    requires Safe(s) && o in s.ops && s.ops[o].Copied? && s.ops[o].s in s.net
    requires m in s.ring && m != s.ops[o].s
    ensures Member(DoAdmit(s, o), m)
  {
    var s', op := DoAdmit(s, o), s.ops[o];
    assert OpOk(s, o) && Claim(s.ops[o], op.j) == Some(Joining);
    JoinSplitsArc(s.ring, op.p, op.j, op.s);
    assert Member(s, m);
    assert s'.net[m] == s.net[m];
    if s.net[m].pred.Some? { ClearGrows(s.ring, op.j, op.s, s.net[m].pred.value, m); }
    if s.net[m].surrogate.Some? { ClearGrows(s.ring, op.j, op.s, s.net[m].surrogate.value, m); }
    assert PredOk(s', m) && SurrogateOk(s', m);
    AdmitKeepsArc(s, o, m);
  }

  lemma AdmitKeepsArc(s: State, o: nat, m: Id)
    requires Safe(s) && o in s.ops && s.ops[o].Copied? && s.ops[o].s in s.net
    requires m in s.ring && m in s.net
    ensures m in DoAdmit(s, o).net && ArcOk(DoAdmit(s, o), m)
  {
    var s', op := DoAdmit(s, o), s.ops[o];
    assert OpOk(s, o) && Member(s, m) && Claim(s.ops[o], op.j) == Some(Joining);
    JoinSplitsArc(s.ring, op.p, op.j, op.s);
    var succs := s.net[m].succs;
    assert s'.net[m].succs == succs;
    if m == op.p {
      assert o in s'.ops && Entering(s'.ops[o]) && s'.ops[o].p == m && s'.ops[o].s == succs[0];
    } else if succs == [] {
      var o' :| o' in s.ops && s.ops[o'].Admitted? && s.ops[o'].j == m;
      assert o' in s'.ops && s'.ops[o'] == s.ops[o'];
    } else if IsSuccessor(s.ring, m, succs[0]) {
    } else if o' :| o' in s.ops && Entering(s.ops[o']) && s.ops[o'].p == m && s.ops[o'].s == succs[0] {
      assert o' in s'.ops && s'.ops[o'] == s.ops[o'];
    } else if o' :| o' in s.ops && Exiting(s.ops[o']) && s.ops[o'].p == m && s.ops[o'].n == succs[0] {
      assert o' in s'.ops && s'.ops[o'] == s.ops[o'];
    } else {
      assert GoneArc(s, m, succs);
      assert GoneArc(s', m, s'.net[m].succs);
    }
  }

  lemma AdmitKeepsOp(s: State, o: nat, o': nat)
    requires Safe(s) && o in s.ops && s.ops[o].Copied? && s.ops[o].s in s.net
    requires o' in s.ops && o' != o
    ensures OpOk(DoAdmit(s, o), o')
  {
    var op := s.ops[o];
    assert OpOk(s, o) && OpOk(s, o') && Distinct(s.ops[o]) && Distinct(s.ops[o']);
    assert Claim(s.ops[o], op.j) == Some(Joining) && Claim(s.ops[o], op.s) == Some(Transferring);
    NoTwoLocks(s, o, o', op.j);
    NoTwoLocks(s, o, o', op.s);
    JoinSplitsArc(s.ring, op.p, op.j, op.s);
    AdmitKeepsOtherArcs(s.ring, op.p, op.j, op.s, s.ops[o']);
    GrownRingKeepsOp(s, DoAdmit(s, o), o', op.j, op.s, op.p);
  }

  /** The ring gains `j`; only `x` gets new predecessor pointers and only the arc from `p` changes. */
  ghost predicate Grows(s: State, s': State, j: Id, x: Id, p: Id) {
    && x in s.net && s'.ring == s.ring + {j} && s'.net.Keys == s.net.Keys && s'.calls == s.calls
    && (forall y :: y in s.net ==> s'.net[y].succs == s.net[y].succs)
    && (forall y :: y in s.net && y != x ==> SamePointers(s'.net[y], s.net[y]))
    && forall m, y {:trigger IsSuccessor(s.ring, m, y)} :: m in s.ring && m != p && IsSuccessor(s.ring, m, y) ==>
      IsSuccessor(s'.ring, m, y)
  }

  lemma GrowsEntering(s: State, s': State, j: Id, x: Id, p: Id, j': Id, x': Id, p': Id)
    requires Grows(s, s', j, x, p) && EnteringOk(s, j', x', p')
    requires p' != p && j' != p && x' != x && j' != x
    ensures EnteringOk(s', j', x', p')
  {
  }

  lemma GrowsExiting(s: State, s': State, j: Id, x: Id, p: Id, n': Id, p': Id, x': Id)
    requires Grows(s, s', j, x, p) && ExitingOk(s, n', p', x') && p' != p && n' != j && n' != x
    ensures ExitingOk(s', n', p', x')
  {
  }

  lemma GrowsLocked(s: State, s': State, j: Id, x: Id, p: Id, j': Id, x': Id, p': Id)
    requires Grows(s, s', j, x, p) && LockedOk(s, j', x', p') && p' != p && j' != j && j' != x
    ensures LockedOk(s', j', x', p')
  {
  }

  lemma GrowsSent(s: State, s': State, j: Id, x: Id, p: Id, n': Id, p': Id, x': Id)
    requires Grows(s, s', j, x, p) && SentOk(s, n', p', x') && p' != p && n' != p && n' != x
    ensures SentOk(s', n', p', x')
  {
  }

  lemma GrownRingKeepsOp(s: State, s': State, o: nat, j: Id, x: Id, p: Id)
    requires o in s.ops && o in s'.ops && s'.ops[o] == s.ops[o] && OpOk(s, o) && Distinct(s.ops[o])
    requires Grows(s, s', j, x, p) && x in s.ring && p in s.ring && IsSuccessor(s.ring, p, x)
    requires Claim(s.ops[o], j).None? && Claim(s.ops[o], x).None?
    ensures OpOk(s', o)
  {
    if Exiting(s.ops[o]) || s.ops[o].Sent? {
      GrownRingKeepsLeaver(s, s', o, j, x, p);
    } else {
      GrownRingKeepsJoiner(s, s', o, j, x, p);
    }
  }

  lemma GrownRingKeepsLeaver(s: State, s': State, o: nat, j: Id, x: Id, p: Id)
    requires o in s.ops && o in s'.ops && s'.ops[o] == s.ops[o] && OpOk(s, o) && Distinct(s.ops[o])
    requires Grows(s, s', j, x, p) && x in s.ring && p in s.ring && IsSuccessor(s.ring, p, x)
    requires Claim(s.ops[o], j).None? && Claim(s.ops[o], x).None? && (Exiting(s.ops[o]) || s.ops[o].Sent?)
    ensures OpOk(s', o)
  {
    AdmitKeepsOtherArcs(s.ring, p, j, x, s.ops[o]);
    var op := s.ops[o];
    if op.Sent? {
      GrowsSent(s, s', j, x, p, op.n, op.p, op.s);
    } else {
      GrowsExiting(s, s', j, x, p, op.n, op.p, op.s);
    }
  }

  lemma GrownRingKeepsJoiner(s: State, s': State, o: nat, j: Id, x: Id, p: Id)
    requires o in s.ops && o in s'.ops && s'.ops[o] == s.ops[o] && OpOk(s, o) && Distinct(s.ops[o])
    requires Grows(s, s', j, x, p) && x in s.ring && p in s.ring && IsSuccessor(s.ring, p, x)
    requires Claim(s.ops[o], j).None? && Claim(s.ops[o], x).None? && !Exiting(s.ops[o]) && !s.ops[o].Sent?
    ensures OpOk(s', o)
  {
    AdmitKeepsOtherArcs(s.ring, p, j, x, s.ops[o]);
    var op := s.ops[o];
    if op.Locked? || op.Copied? {
      GrowsLocked(s, s', j, x, p, op.j, op.s, op.p);
    } else if Entering(op) {
      GrowsEntering(s, s', j, x, p, op.j, op.s, op.p);
    } else if op.Advised? {
      assert IsSuccessor(s'.ring, op.p, op.j);
    }
  }

  /** An arc some other operation depends on does not start at the joiner's predecessor. */
  lemma AdmitKeepsOtherArcs(ring: set<Id>, p: Id, j: Id, x: Id, op: Op)
    requires p in ring && IsSuccessor(ring, p, x)
    requires Claim(op, x).None? && Distinct(op)
    ensures (op.Locked? || op.Copied? || Exiting(op)) && IsSuccessor(ring, op.p, op.s) ==> op.p != p
    ensures (Entering(op) || op.Advised?) && IsSuccessor(ring, op.p, op.j) ==> op.p != p
    ensures Entering(op) && IsSuccessor(ring, op.j, op.s) ==> op.j != p
    ensures op.Sent? && IsSuccessor(ring, op.n, op.s) ==> op.n != p
    ensures op.Sent? && IsSuccessor(ring, op.p, op.n) ==> op.p != p
  {
    forall y | IsSuccessor(ring, p, y) ensures y == x { SuccessorUnique(ring, p, x, y); }
  }

  lemma AdmitKeepsRing(s: State, o: nat)
    requires Safe(s) && o in s.ops && s.ops[o].Copied? && s.ops[o].s in s.net
    ensures RingOk(DoAdmit(s, o))
  {
    var s', op := DoAdmit(s, o), s.ops[o];
    assert OpOk(s, o) && Distinct(s.ops[o]);
    assert Claim(s.ops[o], op.j) == Some(Joining) && Claim(s.ops[o], op.s) == Some(Transferring);
    JoinSplitsArc(s.ring, op.p, op.j, op.s);
    forall m | m in s'.ring ensures Member(s', m) {
      if m == op.j {
        assert o in s'.ops && s'.ops[o].Admitted? && s'.ops[o].j == m;
      } else if m == op.s {
        AdmitKeepsArc(s, o, m);
      } else {
        AdmitKeepsMember(s, o, m);
      }
    }
    forall m | m in s'.net && m !in s'.ring ensures Outsider(s', m) { assert Outsider(s, m); }
    forall o' | o' in s'.ops ensures OpOk(s', o') {
      if o' != o { AdmitKeepsOp(s, o, o'); }
    }
  }

  /** Operation `op'` still stands for whatever a list leaned on in `op`. */
  predicate StandsFor(op': Op, op: Op) {
    && (Entering(op) ==> Entering(op') && op'.p == op.p && op'.s == op.s)
    && (Exiting(op) ==> Exiting(op') && op'.p == op.p && op'.n == op.n)
  }

  /** Lists of members survive any change that keeps the list and every operation it leans on. */
  lemma ArcSurvives(s: State, s': State, m: Id)
    requires m in s.net && m in s'.net && ArcOk(s, m) && s'.ring == s.ring && s'.net.Keys == s.net.Keys
    requires s'.net[m].succs == s.net[m].succs
    requires forall y :: y in s.net && s.net[y].phase == Left ==> s'.net[y].phase == Left
    requires forall o :: o in s.ops && Witness(s.ops[o]) && (s.ops[o].p == m || s.net[m].succs == []) ==>
               && o in s'.ops && StandsFor(s'.ops[o], s.ops[o])
               && (s.ops[o].Admitted? && s.ops[o].j == m ==> s'.ops[o] == s.ops[o])
    ensures ArcOk(s', m)
  {
  }

  lemma TakeListKeepsMember(s: State, o: nat, m: Id)
    requires Safe(s) && o in s.ops && s.ops[o].Admitted? && s.ops[o].j in s.net && m in s.ring
    ensures Member(DoTakeList(s, o), m)
  {
    var s', op := DoTakeList(s, o), s.ops[o];
    assert OpOk(s, o) && Member(s, m) && Claim(s.ops[o], op.j) == Some(Joining);
    if m != op.j { ArcSurvives(s, s', m); }
    if s.net[m].pred == Some(op.j) { SuccessorUnique(s.ring, op.j, op.s, m); }
  }

  /** The joiner installs its successor list. */
  lemma TakeListKeepsRing(s: State, o: nat)
    requires Safe(s) && o in s.ops && s.ops[o].Admitted? && s.ops[o].j in s.net
    ensures RingOk(DoTakeList(s, o))
  {
    var s', op := DoTakeList(s, o), s.ops[o];
    assert OpOk(s, o) && Claim(s.ops[o], op.j) == Some(Joining);
    forall m | m in s'.ring ensures Member(s', m) { TakeListKeepsMember(s, o, m); }
    forall m | m in s'.net && m !in s'.ring ensures Outsider(s', m) { assert Outsider(s, m); }
    forall o' | o' in s'.ops ensures OpOk(s', o') {
      if o' != o {
        assert OpOk(s, o');
        NoTwoLocks(s, o, o', op.j);
        JoinerListKeepsOp(s, s', o', op.j);
      }
    }
  }

  lemma JoinerListKeepsOp(s: State, s': State, o: nat, j: Id)
    requires o in s.ops && o in s'.ops && s'.ops[o] == s.ops[o] && OpOk(s, o)
    requires j in s.net && j in s.ring && s.net[j].succs == [] && s'.ring == s.ring && s'.net.Keys == s.net.Keys
    requires s'.calls == s.calls && forall y :: y in s.net && y != j ==> s'.net[y] == s.net[y]
    requires s'.net[j].pred == s.net[j].pred && s'.net[j].surrogate == s.net[j].surrogate
    requires Claim(s.ops[o], j).None?
    ensures OpOk(s', o)
  {
  }

  lemma TakePredKeepsArc(s: State, o: nat, m: Id)
    requires Safe(s) && o in s.ops && s.ops[o].Listed? && s.ops[o].j in s.net && m in s.ring && m in s.net
    ensures ArcOk(DoTakePred(s, o), m)
  {
    assert Member(s, m);
    ArcSurvives(s, DoTakePred(s, o), m);
  }

  lemma TakePredKeepsMember(s: State, o: nat, m: Id)
    requires Safe(s) && o in s.ops && s.ops[o].Listed? && s.ops[o].j in s.net && m in s.ring
    ensures Member(DoTakePred(s, o), m)
  {
    assert OpOk(s, o) && Member(s, m) && Claim(s.ops[o], s.ops[o].j) == Some(Joining);
    TakePredKeepsArc(s, o, m);
  }

  /** The joiner installs its predecessor. */
  lemma TakePredKeepsRing(s: State, o: nat)
    requires Safe(s) && o in s.ops && s.ops[o].Listed? && s.ops[o].j in s.net
    ensures RingOk(DoTakePred(s, o))
  {
    var s', op := DoTakePred(s, o), s.ops[o];
    assert OpOk(s, o) && Distinct(s.ops[o]) && Claim(s.ops[o], op.j) == Some(Joining);
    forall m | m in s'.ring ensures Member(s', m) { TakePredKeepsMember(s, o, m); }
    forall m | m in s'.net && m !in s'.ring ensures Outsider(s', m) { assert Outsider(s, m); }
    forall o' | o' in s'.ops ensures OpOk(s', o') {
      if o' != o {
        assert OpOk(s, o') && Distinct(s.ops[o']);
        NoTwoLocks(s, o, o', op.j);
        JoinerPredKeepsOp(s, s', o', op.j);
      }
    }
  }

  lemma JoinerPredKeepsOp(s: State, s': State, o: nat, j: Id)
    requires o in s.ops && o in s'.ops && s'.ops[o] == s.ops[o] && OpOk(s, o) && Distinct(s.ops[o])
    requires j in s.net && j in s.ring && s'.ring == s.ring && s'.net.Keys == s.net.Keys
    requires s'.calls == s.calls && forall y :: y in s.net && y != j ==> s'.net[y] == s.net[y]
    requires s'.net[j].succs == s.net[j].succs
    requires Claim(s.ops[o], j).None?
    ensures OpOk(s', o)
  {
  }

  /** An operation that leans on nothing else changes stage after a repair step. */
  lemma RestagedKeepsRing(s: State, s': State, o: nat)
    requires RingOk(s) && o in s.ops && o in s'.ops && s' == s.(ops := s'.ops) && s'.ops == s.ops[o := s'.ops[o]]
    requires OpOk(s', o)
    requires forall m :: m in s.ring && m in s.net && Witness(s.ops[o]) && s.ops[o].p == m ==>
               StandsFor(s'.ops[o], s.ops[o]) || (s.net[m].succs != [] && IsSuccessor(s.ring, m, s.net[m].succs[0]))
    requires !s.ops[o].Admitted?
    ensures RingOk(s')
  {
    forall m | m in s'.ring ensures Member(s', m) {
      assert Member(s, m);
      if s.net[m].succs == [] {
        var o' :| o' in s.ops && s.ops[o'].Admitted? && s.ops[o'].j == m;
        assert o' in s'.ops && s'.ops[o'].Admitted? && s'.ops[o'].j == m;
      } else if !IsSuccessor(s.ring, m, s.net[m].succs[0]) {
        ArcSurvives(s, s', m);
      }
    }
    forall m | m in s'.net && m !in s'.ring ensures Outsider(s', m) { assert Outsider(s, m); }
    forall o' | o' in s'.ops ensures OpOk(s', o') {
      if o' != o {
        assert OpOk(s, o');
        SamePointersKeepOp(s, s', o');
      }
    }
  }

  /** The joiner's predecessor is asked to stabilize. */
  lemma AdviseJoinKeepsRing(s: State, o: nat, c: nat)
    requires Safe(s) && Can(s, AdviseJoin(o, c))
    ensures RingOk(DoAdviseJoin(s, o, c))
  {
    var p := s.ops[o].p;
    assert OpOk(s, o);
    BeginKeepsSafe(s, c, Began(p, s.net[p].succs));
    var s1 := DoBegin(s, c, Began(p, s.net[p].succs));
    assert OpOk(s1, o);
    RestagedKeepsRing(s1, DoAdviseJoin(s, o, c), o);
  }

  /** When its call is over the predecessor lists the joiner first. */
  lemma EndJoinAdviceKeepsRing(s: State, o: nat)
    requires Safe(s) && Can(s, EndJoinAdvice(o))
    ensures RingOk(DoEndJoinAdvice(s, o)) && Heads(s.net, s.ops[o].p, s.ops[o].j)
  {
    assert OpOk(s, o);
    RestagedKeepsRing(s, DoEndJoinAdvice(s, o), o);
  }

  // ---- the leaver exits -----------------------------------------------------------------

  /** The leaver's predecessor is asked to stabilize. */
  lemma AdviseLeaveKeepsRing(s: State, o: nat, c: nat)
    requires Safe(s) && Can(s, AdviseLeave(o, c))
    ensures RingOk(DoAdviseLeave(s, o, c))
  {
    var p := s.ops[o].p;
    assert OpOk(s, o);
    BeginKeepsSafe(s, c, Began(p, s.net[p].succs));
    var s1 := DoBegin(s, c, Began(p, s.net[p].succs));
    assert OpOk(s1, o);
    RestagedKeepsRing(s1, DoAdviseLeave(s, o, c), o);
  }

  /** When its call is over the predecessor has the next member behind the leaver. */
  lemma EndLeaveAdviceKeepsRing(s: State, o: nat)
    requires Safe(s) && Can(s, EndLeaveAdvice(o))
    ensures RingOk(DoEndLeaveAdvice(s, o)) && Seconds(s.net, s.ops[o].p, s.ops[o].s)
  {
    assert OpOk(s, o);
    RestagedKeepsRing(s, DoEndLeaveAdvice(s, o), o);
  }

  /** The leaver stops answering; its predecessor has the next member in second place. */
  lemma DepartKeepsMember(s: State, o: nat, m: Id)
    requires Safe(s) && o in s.ops && s.ops[o].Told? && s.ops[o].n in s.net && m in s.ring
    ensures Member(DoDepart(s, o), m)
  {
    var s', op := DoDepart(s, o), s.ops[o];
    assert OpOk(s, o) && Member(s, m);
    if m == op.p {
      assert GoneArc(s', m, s'.net[m].succs);
    } else {
      if s.net[m].succs == [] {
        var o' :| o' in s.ops && s.ops[o'].Admitted? && s.ops[o'].j == m;
        assert o' in s'.ops && s'.ops[o'].Admitted? && s'.ops[o'].j == m;
      } else {
        ArcSurvives(s, s', m);
      }
    }
  }

  lemma DepartKeepsRing(s: State, o: nat)
    requires Safe(s) && o in s.ops && s.ops[o].Told? && s.ops[o].n in s.net
    ensures RingOk(DoDepart(s, o))
  {
    var s', op := DoDepart(s, o), s.ops[o];
    assert OpOk(s, o) && Claim(s.ops[o], op.n) == Some(Leaving);
    forall m | m in s'.ring ensures Member(s', m) { DepartKeepsMember(s, o, m); }
    forall m | m in s'.net && m !in s'.ring ensures Outsider(s', m) { assert Outsider(s, m); }
    forall o' | o' in s'.ops ensures OpOk(s', o') {
      if o' != o {
        assert OpOk(s, o');
        SamePointersKeepOp(s, s', o');
      }
    }
  }

  /** The ring loses `n`; no pointer of any other node changes. */
  ghost predicate Shrinks(s: State, s': State, n: Id) {
    && s'.ring == s.ring - {n} && s'.net.Keys == s.net.Keys && s'.calls == s.calls
    && (forall y :: y in s.net ==> s'.net[y].succs == s.net[y].succs && s'.net[y].pred == s.net[y].pred)
    && (forall y :: y in s.net && y != n ==> s'.net[y].surrogate == s.net[y].surrogate)
    && forall m, y {:trigger IsSuccessor(s.ring, m, y)} :: y != n && IsSuccessor(s.ring, m, y) ==>
      IsSuccessor(s'.ring, m, y)
  }

  /** Nothing another operation leans on starts or ends at the leaver. */
  lemma HandOverLeavesOthers(ring: set<Id>, n: Id, x: Id, op: Op)
    requires IsSuccessor(ring, n, x) && n != x
    requires Claim(op, n).None? && Claim(op, x).None? && Distinct(op)
    ensures (op.Locked? || op.Copied? || Exiting(op)) && IsSuccessor(ring, op.p, op.s) ==> op.p != n && op.s != n
    ensures (Entering(op) || op.Advised?) && IsSuccessor(ring, op.p, op.j) ==> op.p != n && op.j != n && op.s != n
    ensures op.Sent? && IsSuccessor(ring, op.p, op.n) ==> op.p != n && op.n != n && op.s != n
  {
  }

  lemma ShrunkRingKeepsOp(s: State, s': State, o: nat, n: Id, x: Id)
    requires o in s.ops && o in s'.ops && s'.ops[o] == s.ops[o] && OpOk(s, o) && Distinct(s.ops[o])
    requires Shrinks(s, s', n) && n in s.ring && IsSuccessor(s.ring, n, x) && n != x
    requires Claim(s.ops[o], n).None? && Claim(s.ops[o], x).None?
    ensures OpOk(s', o)
  {
    HandOverLeavesOthers(s.ring, n, x, s.ops[o]);
    assert forall q, y :: Heads(s.net, q, y) ==> Heads(s'.net, q, y);
    assert forall y :: Untouched(s.net, y) && y != n ==> Untouched(s'.net, y);
  }

  lemma HandOverKeepsMember(s: State, o: nat, m: Id)
    requires Safe(s) && o in s.ops && s.ops[o].Sent? && s.ops[o].n in s.net
    requires m in s.ring && m != s.ops[o].n
    ensures Member(DoHandOver(s, o), m)
  {
    var s', op := DoHandOver(s, o), s.ops[o];
    assert OpOk(s, o) && Distinct(s.ops[o]) && Claim(s.ops[o], op.n) == Some(Leaving);
    LeaveMergesArc(s.ring, op.p, op.n, op.s);
    assert Member(s, m);
    var succs := s.net[m].succs;
    if succs != [] && succs[0] == op.n {
      if !IsSuccessor(s.ring, m, op.n) { HandOverHeadIsSuccessor(s, o, m); }
      SamePredecessor(s.ring, m, op.p, op.n);
      assert o in s'.ops && Exiting(s'.ops[o]) && s'.ops[o].p == m && s'.ops[o].n == succs[0];
    } else if succs == [] {
      var o' :| o' in s.ops && s.ops[o'].Admitted? && s.ops[o'].j == m;
      assert o' in s'.ops && s'.ops[o'].Admitted? && s'.ops[o'].j == m;
    } else if IsSuccessor(s.ring, m, succs[0]) {
    } else if o' :| o' in s.ops && Entering(s.ops[o']) && s.ops[o'].p == m && s.ops[o'].s == succs[0] {
      assert o' in s'.ops && s'.ops[o'] == s.ops[o'];
    } else if o' :| o' in s.ops && Exiting(s.ops[o']) && s.ops[o'].p == m && s.ops[o'].n == succs[0] {
      assert o' in s'.ops && s'.ops[o'] == s.ops[o'];
    } else {
      assert GoneArc(s, m, succs);
      if succs[1] == op.n {
        SamePredecessor(s.ring, m, op.p, op.n);
      }
      assert GoneArc(s', m, s'.net[m].succs);
    }
  }

  /** A member that lists a live leaver first really precedes it. */
  lemma HandOverHeadIsSuccessor(s: State, o: nat, m: Id)
    requires Safe(s) && o in s.ops && s.ops[o].Sent? && s.ops[o].n in s.net
    requires m in s.ring && Heads(s.net, m, s.ops[o].n)
    ensures IsSuccessor(s.ring, m, s.ops[o].n)
  {
    assert OpOk(s, o) && Member(s, m) && Claim(s.ops[o], s.ops[o].n) == Some(Leaving);
    forall o' | o' in s.ops && Entering(s.ops[o']) ensures s.ops[o'].s != s.ops[o].n { EnteringHolds(s, o'); }
    forall o' | o' in s.ops && Exiting(s.ops[o']) ensures s.ops[o'].n != s.ops[o].n { assert OpOk(s, o'); }
  }

  lemma HandOverKeepsOp(s: State, o: nat, o': nat)
    requires Safe(s) && o in s.ops && s.ops[o].Sent? && s.ops[o].n in s.net && o' in s.ops && o' != o
    ensures OpOk(DoHandOver(s, o), o')
  {
    var op := s.ops[o];
    assert OpOk(s, o) && Distinct(s.ops[o]);
    assert Claim(s.ops[o], op.n) == Some(Leaving) && Claim(s.ops[o], op.s) == Some(Transferring);
    assert OpOk(s, o') && Distinct(s.ops[o']);
    NoTwoLocks(s, o, o', op.n);
    NoTwoLocks(s, o, o', op.s);
    ShrunkRingKeepsOp(s, DoHandOver(s, o), o', op.n, op.s);
  }

  lemma HandOverKeepsRing(s: State, o: nat)
    requires Safe(s) && o in s.ops && s.ops[o].Sent? && s.ops[o].n in s.net
    ensures RingOk(DoHandOver(s, o))
  {
    var s', op := DoHandOver(s, o), s.ops[o];
    assert OpOk(s, o) && Distinct(s.ops[o]) && Claim(s.ops[o], op.n) == Some(Leaving);
    LeaveMergesArc(s.ring, op.p, op.n, op.s);
    forall m | m in s'.ring ensures Member(s', m) { HandOverKeepsMember(s, o, m); }
    forall m | m in s'.net && m !in s'.ring ensures Outsider(s', m) {
      if m != op.n { assert Outsider(s, m); }
    }
    forall o' | o' in s'.ops ensures OpOk(s', o') { if o' != o { HandOverKeepsOp(s, o, o'); } }
  }
}

/** Lock discipline of joins and leaves, over every interleaving and with no assumption on
    pointers: Transferring, Joining and Leaving are each held by exactly one operation. */
module MembershipLocks {
  import opened Identifiers
  import opened Nodes
  import opened SuccessorLists
  import opened Calls
  import opened Membership

  function At(s: State, o: nat): Option<Op> {
    if o in s.ops then Some(s.ops[o]) else None
  }

  lemma SamePhasesKeepLocks(s: State, s': State)
    requires LockOk(s) && s'.ops == s.ops && s'.net.Keys == s.net.Keys
    requires forall x :: x in s.net ==> s'.net[x].phase == s.net[x].phase
    ensures LockOk(s')
  {
    forall x | x in s'.net && s'.net[x].phase in {Joining, Transferring, Leaving} ensures Held(s', x) {
      assert Held(s, x);
    }
  }

  /** An operation that moves on without touching any phase keeps exactly its claims. */
  lemma SameClaimsKeepLocks(s: State, s': State, o: nat, op': Op)
    requires LockOk(s) && o in s.ops && s'.ops == s.ops[o := op'] && s'.net.Keys == s.net.Keys
    requires forall x :: x in s.net ==> s'.net[x].phase == s.net[x].phase
    requires forall x :: Claim(op', x) == Claim(s.ops[o], x)
    requires Distinct(op')
    ensures LockOk(s')
  {
    forall x ensures Shifts(s, s', Some(s.ops[o]), Some(op'), x) { assert Claim(op', x) == Claim(s.ops[o], x); }
    ReclaimKeepsLocks(s, s', o, Some(s.ops[o]), Some(op'));
  }

  /** The operation `o` takes, changes or gives up locks. */
  lemma ReclaimedKeepsLocks(s: State, s': State, o: nat)
    requires LockOk(s) && s'.net.Keys == s.net.Keys
    requires forall o' :: o' != o ==> (o' in s'.ops <==> o' in s.ops) && (o' in s.ops ==> s'.ops[o'] == s.ops[o'])
    requires o in s'.ops ==> Distinct(s'.ops[o])
    requires forall x :: Shifts(s, s', At(s, o), At(s', o), x)
    ensures LockOk(s')
  {
    ReclaimKeepsLocks(s, s', o, At(s, o), At(s', o));
  }

  lemma BeginningsKeepLocks(s: State, e: Event)
    requires LockOk(s) && Can(s, e) && (e.BeginJoin? || e.BeginLeave? || e.GiveUpJoin? || e.GiveUpLeave?)
    ensures LockOk(Step(s, e))
  {
    var s' := Step(s, e);
    if e.o in s.ops { assert Distinct(s.ops[e.o]); }
    if e.GiveUpJoin? { assert Claim(s.ops[e.o], s.ops[e.o].j) == Some(Joining); }
    forall x ensures Shifts(s, s', At(s, e.o), At(s', e.o), x) {}
    ReclaimedKeepsLocks(s, s', e.o);
  }

  lemma JoinRequestKeepsLocks(s: State, e: Event)
    requires LockOk(s) && Can(s, e) && (e.LockForJoin? || e.RefuseJoin?)
    ensures LockOk(Step(s, e))
  {
    var s', op := Step(s, e), s.ops[e.o];
    assert Distinct(s.ops[e.o]) && Claim(s.ops[e.o], op.j) == Some(Joining);
    if !op.Seeking? { assert Claim(s.ops[e.o], op.s) == Some(Transferring); }
    forall x ensures Shifts(s, s', At(s, e.o), At(s', e.o), x) {}
    ReclaimedKeepsLocks(s, s', e.o);
  }

  lemma JoinEndKeepsLocks(s: State, e: Event)
    requires LockOk(s) && Can(s, e) && (e.Activate? || e.ReleaseJoin?)
    ensures LockOk(Step(s, e))
  {
    var s', op := Step(s, e), s.ops[e.o];
    assert Distinct(s.ops[e.o]) && Claim(s.ops[e.o], op.s) == Some(Transferring);
    if !op.Activated? { assert Claim(s.ops[e.o], op.j) == Some(Joining); }
    forall x ensures Shifts(s, s', At(s, e.o), At(s', e.o), x) {}
    ReclaimedKeepsLocks(s, s', e.o);
  }

  lemma SuccessorLockKeepsLocks(s: State, e: Event)
    requires LockOk(s) && Can(s, e) && (e.LockSuccFirst? || e.LockSuccSecond?)
    ensures LockOk(Step(s, e))
  {
    var s', op := Step(s, e), s.ops[e.o];
    assert Distinct(s.ops[e.o]);
    if op.HoldsSelf? { assert Claim(s.ops[e.o], op.n) == Some(Leaving); }
    forall x ensures Shifts(s, s', At(s, e.o), At(s', e.o), x) {}
    ReclaimedKeepsLocks(s, s', e.o);
  }

  lemma SelfLockKeepsLocks(s: State, e: Event)
    requires LockOk(s) && Can(s, e) && (e.LockSelf? || e.BackOff?)
    ensures LockOk(Step(s, e))
  {
    var s', op := Step(s, e), s.ops[e.o];
    assert Distinct(s.ops[e.o]);
    if op.HoldsSelf? { assert Claim(s.ops[e.o], op.n) == Some(Leaving); }
    if op.HoldsSucc? { assert Claim(s.ops[e.o], op.s) == Some(Transferring); }
    forall x ensures Shifts(s, s', At(s, e.o), At(s', e.o), x) {}
    ReclaimedKeepsLocks(s, s', e.o);
  }

  lemma FailedTransferKeepsLocks(s: State, e: Event)
    requires LockOk(s) && Can(s, e) && (e.FailTransfer? || e.Unwind?)
    ensures LockOk(Step(s, e))
  {
    var s', op := Step(s, e), s.ops[e.o];
    assert Distinct(s.ops[e.o]) && Claim(s.ops[e.o], op.s) == Some(Transferring);
    if op.HoldsBoth? { assert Claim(s.ops[e.o], op.n) == Some(Leaving); }
    forall x ensures Shifts(s, s', At(s, e.o), At(s', e.o), x) {}
    ReclaimedKeepsLocks(s, s', e.o);
  }

  lemma DepartureKeepsLocks(s: State, e: Event)
    requires LockOk(s) && Can(s, e) && (e.Depart? || e.ReleaseLeave?)
    ensures LockOk(Step(s, e))
  {
    var s', op := Step(s, e), s.ops[e.o];
    assert Distinct(s.ops[e.o]) && Claim(s.ops[e.o], op.s) == Some(Transferring);
    if op.Told? { assert Claim(s.ops[e.o], op.n) == Some(Leaving); }
    forall x ensures Shifts(s, s', At(s, e.o), At(s', e.o), x) {}
    ReclaimedKeepsLocks(s, s', e.o);
  }

  lemma HandOffKeepsLocks(s: State, e: Event)
    requires LockOk(s) && Can(s, e) && (e.AcceptJoin? || e.CopyUp? || e.Admit?)
    ensures LockOk(Step(s, e))
  {
    var op := s.ops[e.o];
    assert Distinct(s.ops[e.o]);
    SameClaimsKeepLocks(s, Step(s, e), e.o,
      if e.AcceptJoin? then Locked(op.j, op.s, s.net[op.s].pred.value)
      else if e.CopyUp? then Copied(op.j, op.s, op.p)
      else Admitted(op.j, op.s, op.p, MakeSuccList(op.s, s.net[op.s].succs)));
  }

  lemma TakeListKeepsLocks(s: State, o: nat)
    requires LockOk(s) && Can(s, TakeList(o))
    ensures LockOk(DoTakeList(s, o))
  {
    var op := s.ops[o];
    assert Distinct(s.ops[o]);
    SameClaimsKeepLocks(s, DoTakeList(s, o), o, Listed(op.j, op.s, op.p));
  }

  lemma TakePredKeepsLocks(s: State, o: nat)
    requires LockOk(s) && Can(s, TakePred(o))
    ensures LockOk(DoTakePred(s, o))
  {
    var op := s.ops[o];
    assert Distinct(s.ops[o]);
    SameClaimsKeepLocks(s, DoTakePred(s, o), o, Linked(op.j, op.s, op.p));
  }

  lemma CopyDownKeepsLocks(s: State, o: nat)
    requires LockOk(s) && Can(s, CopyDown(o))
    ensures LockOk(DoCopyDown(s, o))
  {
    var op := s.ops[o];
    assert Distinct(s.ops[o]);
    SameClaimsKeepLocks(s, DoCopyDown(s, o), o, Sent(op.n, op.p, op.s));
  }

  lemma HandOverKeepsLocks(s: State, o: nat)
    requires LockOk(s) && Can(s, HandOver(o))
    ensures LockOk(DoHandOver(s, o))
  {
    var op := s.ops[o];
    assert Distinct(s.ops[o]);
    SameClaimsKeepLocks(s, DoHandOver(s, o), o, Handed(op.n, op.p, op.s));
  }

  lemma AdviceKeepsLocks(s: State, calls: map<nat, Call>, o: nat, op': Op)
    requires LockOk(s) && o in s.ops
    requires || (s.ops[o].Linked? && op'.Advising? && op'.j == s.ops[o].j && op'.s == s.ops[o].s)
             || (s.ops[o].Advising? && op'.Advised? && op'.j == s.ops[o].j && op'.s == s.ops[o].s)
             || (s.ops[o].Handed? && op'.Telling? && op'.n == s.ops[o].n && op'.s == s.ops[o].s)
             || (s.ops[o].Telling? && op'.Told? && op'.n == s.ops[o].n && op'.s == s.ops[o].s)
    ensures LockOk(s.(calls := calls, ops := s.ops[o := op']))
  {
    assert Distinct(s.ops[o]);
    SameClaimsKeepLocks(s, s.(calls := calls, ops := s.ops[o := op']), o, op');
  }

  lemma JoinStepKeepsLocks(s: State, e: Event)
    requires LockOk(s) && Can(s, e) && JoinEvent(e)
    ensures LockOk(Step(s, e))
  {
    if e.BeginJoin? || e.GiveUpJoin? {
      BeginningsKeepLocks(s, e);
    } else if e.LockForJoin? || e.RefuseJoin? {
      JoinRequestKeepsLocks(s, e);
    } else if e.Activate? || e.ReleaseJoin? {
      JoinEndKeepsLocks(s, e);
    } else if e.AdviseJoin? || e.EndJoinAdvice? {
      AdviceKeepsLocks(s, Step(s, e).calls, e.o, Step(s, e).ops[e.o]);
    } else if e.TakeList? {
      TakeListKeepsLocks(s, e.o);
    } else if e.TakePred? {
      TakePredKeepsLocks(s, e.o);
    } else {
      HandOffKeepsLocks(s, e);
    }
  }

  lemma LeaveStepKeepsLocks(s: State, e: Event)
    requires LockOk(s) && Can(s, e) && LeaveEvent(e)
    ensures LockOk(Step(s, e))
  {
    if e.BeginLeave? || e.GiveUpLeave? {
      BeginningsKeepLocks(s, e);
    } else if e.LockSuccFirst? || e.LockSuccSecond? {
      SuccessorLockKeepsLocks(s, e);
    } else if e.LockSelf? || e.BackOff? {
      SelfLockKeepsLocks(s, e);
    } else if e.AdviseLeave? || e.EndLeaveAdvice? {
      AdviceKeepsLocks(s, Step(s, e).calls, e.o, Step(s, e).ops[e.o]);
    } else if e.CopyDown? {
      CopyDownKeepsLocks(s, e.o);
    } else if e.HandOver? {
      HandOverKeepsLocks(s, e.o);
    } else if e.FailTransfer? || e.Unwind? {
      FailedTransferKeepsLocks(s, e);
    } else {
      DepartureKeepsLocks(s, e);
    }
  }

  /** Background calls, fingers and client requests change no phase. */
  lemma CallStepKeepsLocks(s: State, e: Event)
    requires LockOk(s) && Can(s, e) && !JoinEvent(e) && !LeaveEvent(e)
    ensures LockOk(Step(s, e))
  {
    SamePhasesKeepLocks(s, Step(s, e));
  }

  /** Every transition keeps the discipline. */
  lemma StepKeepsLocks(s: State, e: Event)
    requires LockOk(s) && Can(s, e)
    ensures LockOk(Step(s, e))
  {
    if JoinEvent(e) {
      JoinStepKeepsLocks(s, e);
    } else if LeaveEvent(e) {
      LeaveStepKeepsLocks(s, e);
    } else {
      CallStepKeepsLocks(s, e);
    }
  }

  lemma {:induction false} RunKeepsLocks(s: State, events: seq<Event>, s': State)
    requires LockOk(s) && Runs(s, events, s')
    ensures LockOk(s')
    decreases |events|
  {
    if events != [] {
      StepKeepsLocks(s, events[0]);
      RunKeepsLocks(Step(s, events[0]), events[1..], s');
    }
  }

  // ---- what the discipline means ------------------------------------------------

  /** A freshly created ring: one active node pointing at itself, everybody else not started. */
  ghost predicate Created(s: State, root: Id) {
    && s.ops == map[] && s.calls == map[] && s.ring == {root} && s.data == map[]
    && root in s.net
    && s.net[root].phase == Active && s.net[root].pred == Some(root) && s.net[root].succs == [root]
    && s.net[root].surrogate == None && s.net[root].store == map[]
    && forall x :: x in s.net && x != root ==> Unstarted(s.net[x])
  }

  predicate Unstarted(node: Node) {
    node.phase == Inactive && node.pred == None && node.succs == [] && node.surrogate == None && node.store == map[]
  }

  /** In every reachable state a node is Transferring exactly when one operation holds its lock,
      and never two. */
  lemma TransferringIffHeldOnce(s: State, root: Id, events: seq<Event>, s': State, x: Id)
    requires Created(s, root) && Runs(s, events, s') && x in s'.net
    ensures s'.net[x].phase == Transferring <==>
              exists o :: o in s'.ops && Claim(s'.ops[o], x) == Some(Transferring)
    ensures forall o, o' ::
      o in s'.ops && o' in s'.ops && Claim(s'.ops[o], x).Some? && Claim(s'.ops[o'], x).Some? ==> o == o'
  {
    RunKeepsLocks(s, events, s');
    if s'.net[x].phase == Transferring {
      assert Held(s', x);
      var o :| o in s'.ops && Claim(s'.ops[o], x).Some?;
      assert Claim(s'.ops[o], x) == Some(Transferring);
    }
  }

  /** Every release finds the lock it is meant to release. */
  lemma ReleaseFindsTransferring(s: State, e: Event)
    requires LockOk(s) && Can(s, e)
    requires e.ReleaseJoin? || e.Unwind? || e.ReleaseLeave? || (e.BackOff? && s.ops[e.o].HoldsSucc?)
    ensures s.net[s.ops[e.o].s].phase == Transferring
    ensures Step(s, e).net[s.ops[e.o].s].phase == Active
  {
    assert Claim(s.ops[e.o], s.ops[e.o].s) == Some(Transferring);
  }

  /** Operation `e.o` may take a node that is not busy, or change a phase it had put there. */
  predicate Owned(s: State, e: Event, x: Id)
    requires JoinEvent(e) || LeaveEvent(e)
  {
    x in s.net &&
    (s.net[x].phase in {Inactive, Active} || (e.o in s.ops && Claim(s.ops[e.o], x) == Some(s.net[x].phase)))
  }

  lemma JoinLocksAreOwned(s: State, e: Event, x: Id)
    requires LockOk(s) && Can(s, e) && x in s.net && (e.LockForJoin? || e.RefuseJoin? || e.Activate? || e.ReleaseJoin?)
    ensures x in Step(s, e).net
    ensures Step(s, e).net[x].phase != s.net[x].phase ==> Owned(s, e, x)
  {
    assert Claim(s.ops[e.o], x).Some? ==> s.net[x].phase == Claim(s.ops[e.o], x).value;
  }

  lemma JoinPhasesAreOwned(s: State, e: Event, x: Id)
    requires LockOk(s) && Can(s, e) && x in s.net && JoinEvent(e)
    ensures x in Step(s, e).net
    ensures Step(s, e).net[x].phase != s.net[x].phase ==> Owned(s, e, x)
  {
    if e.LockForJoin? || e.RefuseJoin? || e.Activate? || e.ReleaseJoin? {
      JoinLocksAreOwned(s, e, x);
    } else if e.o in s.ops {
      assert Claim(s.ops[e.o], x).Some? ==> s.net[x].phase == Claim(s.ops[e.o], x).value;
    }
  }

  lemma LeaveLocksAreOwned(s: State, e: Event, x: Id)
    requires LockOk(s) && Can(s, e) && x in s.net
    requires e.LockSuccFirst? || e.LockSelf? || e.LockSuccSecond? || e.BackOff?
    ensures x in Step(s, e).net
    ensures Step(s, e).net[x].phase != s.net[x].phase ==> Owned(s, e, x)
  {
    assert Claim(s.ops[e.o], x).Some? ==> s.net[x].phase == Claim(s.ops[e.o], x).value;
  }

  lemma LeavePhasesAreOwned(s: State, e: Event, x: Id)
    requires LockOk(s) && Can(s, e) && x in s.net && LeaveEvent(e)
    ensures x in Step(s, e).net
    ensures Step(s, e).net[x].phase != s.net[x].phase ==> Owned(s, e, x)
  {
    if e.LockSuccFirst? || e.LockSelf? || e.LockSuccSecond? || e.BackOff? {
      LeaveLocksAreOwned(s, e, x);
    } else if e.o in s.ops {
      assert Claim(s.ops[e.o], x).Some? ==> s.net[x].phase == Claim(s.ops[e.o], x).value;
    }
  }

  /** A step changes a phase only by acquiring an idle node, or where its own operation
      had put that phase. */
  lemma PhaseChangesAreOwned(s: State, e: Event, x: Id)
    requires LockOk(s) && Can(s, e) && x in s.net
    ensures x in Step(s, e).net
    ensures Step(s, e).net[x].phase != s.net[x].phase ==> (JoinEvent(e) || LeaveEvent(e)) && Owned(s, e, x)
  {
    if JoinEvent(e) {
      JoinPhasesAreOwned(s, e, x);
    } else if LeaveEvent(e) {
      LeavePhasesAreOwned(s, e, x);
    }
  }

  /** A leave attempt that ends without leaving has put back every node it still held. */
  lemma FailedLeaveRestores(s: State, e: Event, x: Id)
    requires LockOk(s) && Can(s, e) && (e.BackOff? || e.Unwind? || e.FailTransfer?)
    requires Claim(s.ops[e.o], x).Some?
    ensures var s' := Step(s, e);
            && x in s'.net
            && (s'.net[x].phase == Active ||
                (e.o in s'.ops && s'.ops[e.o].Unwinding? && Claim(s'.ops[e.o], x) == Some(Transferring)))
  {
    assert Distinct(s.ops[e.o]);
    assert s.net[x].phase == Claim(s.ops[e.o], x).value;
  }

  /** The shortcut of a node that is its own predecessor and successor: no lock, straight to Left. */
  function LoneLeave(s: State, n: Id): State
    requires n in s.net
  {
    s.(net := SetPhase(s.net, n, Left))
  }

  /** The shortcut respects the locks exactly when the node is Active when it fires. */
  lemma LoneLeaveSafeIffActive(s: State, n: Id)
    requires LockOk(s) && n in s.net && s.net[n].phase !in {Inactive, Leaving, Left}
    ensures LockOk(LoneLeave(s, n)) <==> s.net[n].phase == Active
  {
    var s' := LoneLeave(s, n);
    if s.net[n].phase == Active {
      forall o, x | o in s'.ops && Claim(s'.ops[o], x).Some?
        ensures x in s'.net && s'.net[x].phase == Claim(s'.ops[o], x).value
      {
        assert Claim(s.ops[o], x).Some?;
      }
      forall x | x in s'.net && s'.net[x].phase in {Joining, Transferring, Leaving} ensures Held(s', x) {
        assert Held(s, x);
        var o :| o in s.ops && Claim(s.ops[o], x).Some?;
        assert Claim(s'.ops[o], x).Some?;
      }
      forall o | o in s'.ops ensures Distinct(s'.ops[o]) { assert Distinct(s.ops[o]); }
    } else {
      assert Held(s, n);
      var o :| o in s.ops && Claim(s.ops[o], n).Some?;
      assert Claim(s'.ops[o], n).Some?;
    }
  }

  /** It can fire at the wrong moment: a joiner locks the lone node, the node leaves anyway, and
      giving the lock back finds it gone. */
  lemma LoneLeaveCanBreakALock(s: State, root: Id, j: Id)
    requires Created(s, root) && j in s.net && j != root
    ensures var locked := DoLockForJoin(DoBeginJoin(s, 0, j), 0, root);
            && Runs(s, [BeginJoin(0, j), LockForJoin(0, root)], locked)
            && locked.net[root].pred == Some(root) && locked.net[root].succs[0] == root
            && !LockOk(LoneLeave(locked, root))
            && Release(LoneLeave(locked, root).net, root)[root].phase == Left
  {
    var events := [BeginJoin(0, j), LockForJoin(0, root)];
    var s1 := DoBeginJoin(s, 0, j);
    var locked := DoLockForJoin(s1, 0, root);
    assert Runs(locked, [], locked);
    assert events[1..] == [LockForJoin(0, root)] && [LockForJoin(0, root)][1..] == [];
    assert Runs(s1, events[1..], locked);
    assert Runs(s, events, locked);
    RunKeepsLocks(s, events, locked);
    LoneLeaveSafeIffActive(locked, root);
  }
}

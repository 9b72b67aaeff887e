/** Joins and leaves that are refused or fail part way: the program undoes what it did, and the ring is
    exactly as it was. */
module FailedAttempts {
  import opened Identifiers
  import opened Nodes
  import opened Membership
  import opened Traces
  import opened Churn

  /** Setting a phase and setting it back. */
  lemma PhaseBack(net: Network, x: Id, phase: Phase)
    requires x in net
    ensures SetPhase(SetPhase(net, x, phase), x, net[x].phase) == net
  {
  }

  lemma OpGone(s: State, o: nat, op: Op)
    requires o !in s.ops
    ensures s.ops[o := op] - {o} == s.ops
  {
  }

  /** A joiner that finds no successor gives up; nothing remains. */
  lemma JoinWithoutSuccessor(s: State, o: nat, j: Id)
    requires o !in s.ops && j in s.net && s.net[j].phase == Inactive
    ensures Runs(s, [BeginJoin(o, j), GiveUpJoin(o)], s)
  {
    var s1 := DoBeginJoin(s, o, j);
    PhaseBack(s.net, j, Joining);
    OpGone(s, o, Seeking(j));
    assert Step(s1, GiveUpJoin(o)) == s;
    assert Runs(s1, [GiveUpJoin(o)], s);
    assert [BeginJoin(o, j), GiveUpJoin(o)][1..] == [GiveUpJoin(o)];
  }

  /** A successor that was asked too early or for the wrong arc lets go again. */
  lemma RefusalIsUndone(s: State, o: nat, x: Id)
    requires o in s.ops && s.ops[o].Seeking? && x in s.net && x != s.ops[o].j && s.net[x].phase == Active
    ensures var s1 := DoLockForJoin(s, o, x);
            && Can(s, LockForJoin(o, x)) && Step(s, LockForJoin(o, x)) == s1
            && (!InPlace(s1, s1.ops[o]) ==> Can(s1, RefuseJoin(o)) && Step(s1, RefuseJoin(o)) == s)
            && (InPlace(s1, s1.ops[o]) ==>
                  && Can(s1, AcceptJoin(o))
                  && var s2 := DoAcceptJoin(s1, o);
                     Can(s2, RefuseJoin(o)) && Step(s2, RefuseJoin(o)) == s)
  {
    PhaseBack(s.net, x, Transferring);
    var s1 := DoLockForJoin(s, o, x);
    assert s1.ops[o := Seeking(s.ops[o].j)] == s.ops;
    if InPlace(s1, s1.ops[o]) { assert DoAcceptJoin(s1, o).ops[o := Seeking(s.ops[o].j)] == s.ops; }
  }

  /** A leaver that holds itself and is refused by its successor lets go of itself. */
  lemma SelfIsGivenBack(s: State, o: nat)
    requires o in s.ops && s.ops[o].Trying? && s.ops[o].n <= s.ops[o].s
    requires s.ops[o].n in s.net && s.ops[o].s in s.net && s.net[s.ops[o].n].phase == Active
    ensures Can(s, LockSelf(o)) && Can(DoLockSelf(s, o), BackOff(o))
    ensures Step(DoLockSelf(s, o), BackOff(o)) == s.(ops := s.ops - {o})
  {
    PhaseBack(s.net, s.ops[o].n, Leaving);
    assert DoLockSelf(s, o).ops - {o} == s.ops - {o};
  }

  /** One that holds its successor and cannot lock itself lets go of the successor. */
  lemma SuccessorIsGivenBack(s: State, o: nat)
    requires o in s.ops && s.ops[o].Trying? && s.ops[o].n > s.ops[o].s
    requires s.ops[o].n in s.net && s.ops[o].s in s.net && s.net[s.ops[o].s].phase == Active
    ensures Can(s, LockSuccFirst(o)) && Can(DoLockSuccFirst(s, o), BackOff(o))
    ensures Step(DoLockSuccFirst(s, o), BackOff(o)) == s.(ops := s.ops - {o})
  {
    PhaseBack(s.net, s.ops[o].s, Transferring);
    assert DoLockSuccFirst(s, o).ops - {o} == s.ops - {o};
  }

  /** A leaver whose keys could not be copied lets go of itself and then of its successor. */
  lemma TransferIsUndone(s: State, o: nat, n: Id, p: Id, x: Id)
    requires o in s.ops && s.ops[o] == Trying(n, p, x) && n in s.net && x in s.net && n != x
    requires s.net[n].phase == Active && s.net[x].phase == Active
    ensures var s1 := AfterLocks(s, o, n, p, x);
            && Can(s1, FailTransfer(o))
            && var s2 := DoFailTransfer(s1, o);
               Can(s2, Unwind(o)) && Step(s2, Unwind(o)) == s.(ops := s.ops - {o})
  {
    var s2 := DoFailTransfer(AfterLocks(s, o, n, p, x), o);
    assert Release(s2.net, x) == s.net;
    assert s2.ops - {o} == s.ops - {o};
  }

  /** A whole leave that fails after both locks are taken, beside whatever else is under way, leaves no
      trace. */
  lemma FailedLeaveLeavesNoTrace(strict: bool, s: State, mid: State, o: nat, n: Id, p: Id, x: Id)
    requires Reaches(strict, s, mid) && o !in mid.ops && CanDepart(mid.net, n, p, x)
    ensures var s1 := AfterLocks(mid.(ops := mid.ops[o := Trying(n, p, x)]), o, n, p, x);
            && Reaches(strict, s, s1) && Can(s1, FailTransfer(o))
            && var s2 := DoFailTransfer(s1, o);
               Reaches(strict, s, s2) && Can(s2, Unwind(o)) && Step(s2, Unwind(o)) == mid
  {
    LeaveBegins(strict, s, mid, o, n, p, x);
    var s0 := mid.(ops := mid.ops[o := Trying(n, p, x)]);
    LeaveLocks(strict, s, s0, o, n, p, x);
    TransferIsUndone(s0, o, n, p, x);
    ReachNext(strict, s, AfterLocks(s0, o, n, p, x), FailTransfer(o));
    OpGone(mid, o, Trying(n, p, x));
  }

  /** A whole join that is refused, beside whatever else is under way, leaves no trace. */
  lemma RefusedJoinLeavesNoTrace(strict: bool, s: State, mid: State, o: nat, j: Id, x: Id)
    requires Reaches(strict, s, mid) && o !in mid.ops && j in mid.net && mid.net[j].phase == Inactive
    requires x in mid.net && x != j && mid.net[x].phase == Active
    requires mid.net[x].pred.None? || !Between(mid.net[x].pred.value, j, x, false)
    ensures var s1 := AfterLock(mid, o, j, x);
            && Reaches(strict, s, s1) && Can(s1, RefuseJoin(o)) && !Can(s1, AcceptJoin(o))
            && var s2 := Step(s1, RefuseJoin(o));
               Reaches(strict, s, s2) && Can(s2, GiveUpJoin(o)) && Step(s2, GiveUpJoin(o)) == mid
  {
    JoinLocks(strict, s, mid, o, j, x);
    var s0 := DoBeginJoin(mid, o, j);
    assert AfterLock(mid, o, j, x) == DoLockForJoin(s0, o, x);
    RefusalIsUndone(s0, o, x);
    ReachNext(strict, s, AfterLock(mid, o, j, x), RefuseJoin(o));
    JoinWithoutSuccessor(mid, o, j);
    PhaseBack(mid.net, j, Joining);
    OpGone(mid, o, Seeking(j));
  }
}

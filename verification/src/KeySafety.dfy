/** Keys across joins and leaves: the distributed stores behave as one map. */
module KeySafety {
  import opened Identifiers
  import opened RingOrder
  import opened Nodes
  import opened Calls
  import opened Membership
  import opened MembershipLocks
  import opened RingSafety
  import opened DelayedWrites
  import opened RingHandOff
  import opened Requests

  /** A copy of hash `h` is on its way to `x`. */
  predicate Incoming(op: Op, x: Id, h: Id) {
    || (op.Copied? && x == op.j && Between(op.p, h, op.j, true))
    || (op.Sent? && x == op.s && Between(op.p, h, op.n, true))
  }

  /** The nodes that keep keys with hash `h`: the owner, and the target of a copy under way. */
  ghost predicate Keeps(s: State, x: Id, h: Id) {
    || (x in s.ring && IsOwner(s.ring, h, x))
    || exists o :: o in s.ops && Incoming(s.ops[o], x, h)
  }

  /** Stores hold exactly the client data, each key exactly where it should be. */
  ghost predicate KeysOk(s: State) {
    forall x, k {:trigger KeyOk(s, x, k)} :: x in s.net ==> KeyOk(s, x, k)
  }

  ghost predicate KeyOk(s: State, x: Id, k: Key)
    requires x in s.net
  {
    && (k in s.net[x].store <==> k in s.data && Keeps(s, x, s.hash(k)))
    && (k in s.net[x].store ==> s.net[x].store[k] == s.data[k])
  }

  ghost predicate Inv(s: State) {
    Safe(s) && CallsOk(s) && KeysOk(s)
  }

  // ---- transitions that move no key ---------------------------------------------------

  /** Stores, owners and copies under way all stay as they are. */
  lemma SameKeys(s: State, s': State)
    requires KeysOk(s) && s'.hash == s.hash && s'.data == s.data && s'.ring == s.ring && s'.net.Keys == s.net.Keys
    requires forall x :: x in s.net ==> s'.net[x].store == s.net[x].store
    requires forall o, x, h :: o in s.ops && Incoming(s.ops[o], x, h) ==> o in s'.ops && Incoming(s'.ops[o], x, h)
    requires forall o, x, h :: o in s'.ops && Incoming(s'.ops[o], x, h) ==> o in s.ops && Incoming(s.ops[o], x, h)
    ensures KeysOk(s')
  {
    forall x, k | x in s'.net ensures KeyOk(s', x, k) {
      assert KeyOk(s, x, k);
      var h := s.hash(k);
      assert Keeps(s', x, h) <==> Keeps(s, x, h);
    }
  }

  /** An operation that is not copying before or after leaves every key alone. */
  lemma NoCopyKeepsKeys(s: State, s': State, o: nat)
    requires KeysOk(s) && s'.hash == s.hash && s'.data == s.data && s'.ring == s.ring && s'.net.Keys == s.net.Keys
    requires forall x :: x in s.net ==> s'.net[x].store == s.net[x].store
    requires forall o' :: o' != o ==> (o' in s'.ops <==> o' in s.ops) && (o' in s.ops ==> s'.ops[o'] == s.ops[o'])
    requires o in s.ops ==> !s.ops[o].Copied? && !s.ops[o].Sent?
    requires o in s'.ops ==> !s'.ops[o].Copied? && !s'.ops[o].Sent?
    ensures KeysOk(s')
  {
    SameKeys(s, s');
  }

  // ---- hand-offs ------------------------------------------------------------------------

  lemma IncomingIsClaimed(op: Op, x: Id, h: Id)
    requires Incoming(op, x, h) && Distinct(op)
    ensures Claim(op, x).Some?
  {
  }

  /** While one operation holds `x`, no other one is copying keys to it. */
  lemma OnlyHolderSends(s: State, o: nat, x: Id, h: Id)
    requires LockOk(s) && o in s.ops && Claim(s.ops[o], x).Some?
    ensures forall o' :: o' in s.ops && o' != o ==> !Incoming(s.ops[o'], x, h)
  {
    forall o' | o' in s.ops && o' != o ensures !Incoming(s.ops[o'], x, h) {
      assert Distinct(s.ops[o']);
      if Incoming(s.ops[o'], x, h) { IncomingIsClaimed(s.ops[o'], x, h); }
    }
  }

  /** A held node that is not itself receiving keeps exactly what it owns. */
  lemma HeldKeepsOwn(s: State, o: nat, x: Id, h: Id)
    requires LockOk(s) && o in s.ops && Claim(s.ops[o], x).Some? && !Incoming(s.ops[o], x, h)
    ensures Keeps(s, x, h) <==> x in s.ring && IsOwner(s.ring, h, x)
  {
    OnlyHolderSends(s, o, x, h);
  }

  /** Away from the nodes involved, an operation's progress changes nothing about who keeps what. */
  lemma OthersKeep(s: State, s': State, o: nat, y: Id, h: Id)
    requires o in s.ops && o in s'.ops && s'.ops == s.ops[o := s'.ops[o]]
    requires !Incoming(s.ops[o], y, h) && !Incoming(s'.ops[o], y, h)
    requires (y in s'.ring && IsOwner(s'.ring, h, y)) <==> (y in s.ring && IsOwner(s.ring, h, y))
    ensures Keeps(s', y, h) <==> Keeps(s, y, h)
  {
    if o' :| o' in s.ops && Incoming(s.ops[o'], y, h) { assert o' in s'.ops && Incoming(s'.ops[o'], y, h); }
    if o' :| o' in s'.ops && Incoming(s'.ops[o'], y, h) { assert o' in s.ops && Incoming(s.ops[o'], y, h); }
  }

  lemma CopyUpKeepsKey(s: State, o: nat, y: Id, k: Key)
    requires Inv(s) && o in s.ops && s.ops[o].Locked? && s.ops[o].s in s.net && s.ops[o].j in s.net && y in s.net
    ensures KeyOk(DoCopyUp(s, o), y, k)
  {
    var s', op, h := DoCopyUp(s, o), s.ops[o], s.hash(k);
    assert OpOk(s, o) && Distinct(s.ops[o]) && KeyOk(s, y, k) && KeyOk(s, op.s, k) && KeyOk(s, op.j, k);
    assert Claim(s.ops[o], op.j) == Some(Joining) && Claim(s.ops[o], op.s) == Some(Transferring);
    HeldKeepsOwn(s, o, op.s, h);
    HeldKeepsOwn(s, o, op.j, h);
    OwnerAfterJoin(s.ring, op.p, op.j, op.s, h, op.s);
    if y == op.j {
      if Between(op.p, h, op.j, true) { assert o in s'.ops && Incoming(s'.ops[o], y, h); }
      else { OthersKeep(s, s', o, y, h); }
    } else {
      OthersKeep(s, s', o, y, h);
    }
  }

  lemma AdmitKeepsKey(s: State, o: nat, y: Id, k: Key)
    requires Inv(s) && o in s.ops && s.ops[o].Copied? && s.ops[o].s in s.net && y in s.net
    ensures KeyOk(DoAdmit(s, o), y, k)
  {
    var s', op, h := DoAdmit(s, o), s.ops[o], s.hash(k);
    assert OpOk(s, o) && Distinct(s.ops[o]) && KeyOk(s, y, k);
    assert Claim(s.ops[o], op.j) == Some(Joining) && Claim(s.ops[o], op.s) == Some(Transferring);
    OwnerAfterJoin(s.ring, op.p, op.j, op.s, h, y);
    if y == op.j {
      OnlyHolderSends(s, o, y, h);
      assert Keeps(s, y, h) <==> Incoming(s.ops[o], y, h);
      assert Keeps(s', y, h) <==> Between(op.p, h, op.j, true) by {
        forall o' | o' in s'.ops ensures !Incoming(s'.ops[o'], y, h) {}
      }
    } else if y == op.s {
      HeldKeepsOwn(s, o, y, h);
      assert Keeps(s', y, h) <==> y in s'.ring && IsOwner(s'.ring, h, y) by {
        OnlyHolderSends(s, o, y, h);
        forall o' | o' in s'.ops ensures !Incoming(s'.ops[o'], y, h) {}
      }
    } else {
      if IsOwner(s.ring, h, y) && Between(op.p, h, op.j, true) { OwnerUnique(s.ring, h, y, op.s); }
      OthersKeep(s, s', o, y, h);
    }
  }

  lemma CopyDownKeepsKey(s: State, o: nat, y: Id, k: Key)
    requires Inv(s) && Can(s, CopyDown(o)) && Repaired(s, CopyDown(o)) && y in s.net
    ensures KeyOk(DoCopyDown(s, o), y, k)
  {
    var s', op, h := DoCopyDown(s, o), s.ops[o], s.hash(k);
    assert OpOk(s, o) && Distinct(s.ops[o]) && KeyOk(s, y, k) && KeyOk(s, op.s, k) && KeyOk(s, op.n, k);
    assert Claim(s.ops[o], op.n) == Some(Leaving) && Claim(s.ops[o], op.s) == Some(Transferring);
    assert Member(s, op.n);
    NeighboursAgree(s.ring, op.p, op.n);
    OwnerIffInRange(s.ring, op.p, op.n, h);
    HeldKeepsOwn(s, o, op.s, h);
    HeldKeepsOwn(s, o, op.n, h);
    if y == op.s {
      OnlyHolderSends(s, o, y, h);
      if Between(op.p, h, op.n, true) { assert o in s'.ops && Incoming(s'.ops[o], y, h); }
      else { OthersKeep(s, s', o, y, h); }
    } else {
      OthersKeep(s, s', o, y, h);
    }
  }

  lemma HandOverKeepsKey(s: State, o: nat, y: Id, k: Key)
    requires Inv(s) && o in s.ops && s.ops[o].Sent? && s.ops[o].n in s.net && y in s.net
    ensures KeyOk(DoHandOver(s, o), y, k)
  {
    var s', op, h := DoHandOver(s, o), s.ops[o], s.hash(k);
    assert OpOk(s, o) && Distinct(s.ops[o]) && KeyOk(s, y, k);
    assert Claim(s.ops[o], op.n) == Some(Leaving) && Claim(s.ops[o], op.s) == Some(Transferring);
    NeighboursAgree(s.ring, op.p, op.n);
    OwnerIffInRange(s.ring, op.p, op.n, h);
    if y == op.n {
      OnlyHolderSends(s, o, y, h);
      forall o' | o' in s'.ops ensures !Incoming(s'.ops[o'], y, h) {}
    } else {
      OwnerAfterLeave(s.ring, op.n, op.s, h, y);
      if y == op.s {
        OnlyHolderSends(s, o, y, h);
        assert Keeps(s, y, h) <==> IsOwner(s.ring, h, y) || Incoming(s.ops[o], y, h);
        assert Keeps(s', y, h) <==> IsOwner(s'.ring, h, y) by {
          forall o' | o' in s'.ops ensures !Incoming(s'.ops[o'], y, h) {}
        }
      } else {
        if IsOwner(s.ring, h, op.n) && IsOwner(s.ring, h, y) { OwnerUnique(s.ring, h, op.n, y); }
        OthersKeep(s, s', o, y, h);
      }
    }
  }

  // ---- who may serve a key --------------------------------------------------------------

  lemma ActiveIsMember(s: State, x: Id)
    requires Safe(s) && x in s.net && s.net[x].phase == Active
    ensures x in s.ring && Member(s, x)
    ensures forall o :: o in s.ops ==> Claim(s.ops[o], x).None?
    ensures forall o :: o in s.ops && Entering(s.ops[o]) ==> s.ops[o].s != x
    ensures forall o :: o in s.ops && Exiting(s.ops[o]) ==> s.ops[o].n != x
  {
    BusyIsMember(s, x);
    forall o | o in s.ops && Entering(s.ops[o]) ensures s.ops[o].s != x { EnteringHolds(s, o); }
    forall o | o in s.ops && Exiting(s.ops[o]) ensures s.ops[o].n != x { assert OpOk(s, o); }
  }

  /** The owner that serves a key is the only node keeping it: no copy is under way. */
  lemma ServerKeepsAlone(s: State, c: nat, x: Id, h: Id, y: Id)
    requires Safe(s) && CallsOk(s) && Serving(s, c, x, h) && Keeps(s, y, h)
    ensures y == x
  {
    ServerIsOwner(s, c, x, h);
    ActiveIsMember(s, x);
    if y in s.ring && IsOwner(s.ring, h, y) {
      OwnerUnique(s.ring, h, x, y);
    } else {
      var o :| o in s.ops && Incoming(s.ops[o], y, h);
      var op := s.ops[o];
      assert OpOk(s, o) && Distinct(s.ops[o]) && Claim(s.ops[o], op.s) == Some(Transferring);
      if op.Copied? {
        OwnerAfterJoin(s.ring, op.p, op.j, op.s, h, x);
        OwnerUnique(s.ring, h, x, op.s);
      } else {
        assert Claim(s.ops[o], op.n) == Some(Leaving);
        NeighboursAgree(s.ring, op.p, op.n);
        OwnerIffInRange(s.ring, op.p, op.n, h);
        OwnerUnique(s.ring, h, x, op.n);
      }
    }
  }

  lemma WriteKeepsKey(s: State, c: nat, k: Key, v: Option<Entry>, y: Id, k': Key)
    requires Inv(s) && Can(s, Write(c, k, v)) && y in s.net
    ensures KeyOk(DoWrite(s, c, k, v), y, k')
  {
    var s', x := DoWrite(s, c, k, v), s.calls[c].x;
    assert KeyOk(s, y, k');
    assert Keeps(s', y, s.hash(k')) <==> Keeps(s, y, s.hash(k'));
    if k' == k {
      if Keeps(s, y, s.hash(k)) { ServerKeepsAlone(s, c, x, s.hash(k), y); }
      ServerIsOwner(s, c, x, s.hash(k));
    }
  }

  // ---- every transition, every run --------------------------------------------------------

  lemma JoinStepKeepsRing(s: State, e: Event)
    requires Safe(s) && Can(s, e) && Repaired(s, e) && JoinEvent(e)
    ensures RingOk(Step(s, e))
  {
    match e
    case BeginJoin(o, j) => BeginJoinKeepsRing(s, o, j);
    case GiveUpJoin(o) => GiveUpJoinKeepsRing(s, o);
    case LockForJoin(_, _) => JoinLocksKeepRing(s, e);
    case RefuseJoin(_) => JoinLocksKeepRing(s, e);
    case ReleaseJoin(_) => JoinLocksKeepRing(s, e);
    case AcceptJoin(o) => AcceptJoinKeepsRing(s, o);
    case CopyUp(o) => CopyUpKeepsRing(s, o);
    case Admit(o) => AdmitKeepsRing(s, o);
    case TakeList(o) => TakeListKeepsRing(s, o);
    case TakePred(o) => TakePredKeepsRing(s, o);
    case AdviseJoin(o, c) => AdviseJoinKeepsRing(s, o, c);
    case EndJoinAdvice(o) => EndJoinAdviceKeepsRing(s, o);
    case Activate(o) => ActivateKeepsRing(s, o);
  }

  lemma LeaveStepKeepsRing(s: State, e: Event)
    requires Safe(s) && Can(s, e) && Repaired(s, e) && LeaveEvent(e)
    ensures RingOk(Step(s, e))
  {
    if e.CopyDown? {
      CopyDownKeepsRing(s, e.o);
    } else if e.HandOver? {
      HandOverKeepsRing(s, e.o);
    } else if e.AdviseLeave? {
      AdviseLeaveKeepsRing(s, e.o, e.c);
    } else if e.EndLeaveAdvice? {
      EndLeaveAdviceKeepsRing(s, e.o);
    } else if e.Depart? {
      DepartKeepsRing(s, e.o);
    } else {
      LeaveLockStepKeepsRing(s, e);
    }
  }

  lemma LeaveLockStepKeepsRing(s: State, e: Event)
    requires Safe(s) && Can(s, e) && LeaveEvent(e)
    requires !(e.CopyDown? || e.HandOver? || e.AdviseLeave? || e.EndLeaveAdvice? || e.Depart?)
    ensures RingOk(Step(s, e))
  {
    match e
    case BeginLeave(_, _) => LeaveBeginningsKeepRing(s, e);
    case GiveUpLeave(_) => LeaveBeginningsKeepRing(s, e);
    case LockSuccFirst(o) => LockSuccKeepsRing(s, o, DoLockSuccFirst(s, o));
    case LockSelf(o) => LockSelfKeepsRing(s, o);
    case LockSuccSecond(o) => LockSuccKeepsRing(s, o, DoLockSuccSecond(s, o));
    case BackOff(o) => BackOffKeepsRing(s, o);
    case FailTransfer(o) => FailTransferKeepsRing(s, o);
    case Unwind(o) => LeaveReleaseKeepsRing(s, o);
    case ReleaseLeave(o) => LeaveReleaseKeepsRing(s, o);
  }

  lemma PlainStepKeepsRing(s: State, s': State)
    requires RingOk(s) && s' == s.(net := s'.net, data := s'.data) && s'.net.Keys == s.net.Keys
    requires forall x :: x in s.net ==> SamePointers(s'.net[x], s.net[x]) && s'.net[x].phase == s.net[x].phase
    ensures RingOk(s')
  {
    forall m | m in s'.ring ensures Member(s', m) { assert Member(s, m); ArcSurvives(s, s', m); }
    forall m | m in s'.net && m !in s'.ring ensures Outsider(s', m) { assert Outsider(s, m); }
    forall o | o in s'.ops ensures OpOk(s', o) { assert OpOk(s, o); SamePointersKeepOp(s, s', o); }
  }

  /** A request that ends takes nothing away from any operation. */
  lemma RequestEnds(s: State, c: nat)
    requires Safe(s) && c in s.calls && s.calls[c].Found?
    ensures Safe(s.(calls := s.calls - {c}))
  {
    var s' := s.(calls := s.calls - {c});
    forall o | o in s.ops ensures OpOk(s', o) {
      assert OpOk(s, o);
      CallsKeepOp(s, s', o);
    }
    CallsKeepRing(s, s');
  }

  lemma WriteKeepsRing(s: State, c: nat, k: Key, v: Option<Entry>)
    requires Safe(s) && Can(s, Write(c, k, v))
    ensures RingOk(DoWrite(s, c, k, v))
  {
    RequestEnds(s, c);
    PlainStepKeepsRing(s.(calls := s.calls - {c}), DoWrite(s, c, k, v));
  }

  lemma CallStepKeepsRing(s: State, e: Event)
    requires Safe(s) && CallsOk(s) && Can(s, e) && Repaired(s, e) && !JoinEvent(e) && !LeaveEvent(e)
    ensures RingOk(Step(s, e))
  {
    match e
    case BeginStabilize(c, x) => BeginKeepsSafe(s, c, Began(x, s.net[x].succs));
    case BeginCheck(c, x) => BeginKeepsSafe(s, c, Checking(x));
    case BeginRequest(c, x, h) => BeginKeepsSafe(s, c, Looking(x, h, x));
    case Proceed(c) =>
      assert CallOk(s, c);
      ProceedKeepsSafe(s, c);
    case Write(c, k, v) => WriteKeepsRing(s, c, k, v);
    case SetFingers(_, _) => PlainStepKeepsRing(s, Step(s, e));
  }

  /** Every transition keeps locks and pointers safe. */
  lemma StepKeepsSafe(s: State, e: Event)
    requires Safe(s) && CallsOk(s) && Can(s, e) && Repaired(s, e)
    ensures Safe(Step(s, e))
  {
    StepKeepsLocks(s, e);
    if JoinEvent(e) {
      JoinStepKeepsRing(s, e);
    } else if LeaveEvent(e) {
      LeaveStepKeepsRing(s, e);
    } else {
      CallStepKeepsRing(s, e);
    }
  }

  lemma CopyUpKeepsKeys(s: State, o: nat)
    requires Inv(s) && Can(s, CopyUp(o))
    ensures KeysOk(DoCopyUp(s, o))
  {
    forall y, k | y in s.net ensures KeyOk(DoCopyUp(s, o), y, k) { CopyUpKeepsKey(s, o, y, k); }
  }

  lemma AdmitKeepsKeys(s: State, o: nat)
    requires Inv(s) && Can(s, Admit(o))
    ensures KeysOk(DoAdmit(s, o))
  {
    forall y, k | y in s.net ensures KeyOk(DoAdmit(s, o), y, k) { AdmitKeepsKey(s, o, y, k); }
  }

  lemma CopyDownKeepsKeys(s: State, o: nat)
    requires Inv(s) && Can(s, CopyDown(o)) && Repaired(s, CopyDown(o))
    ensures KeysOk(DoCopyDown(s, o))
  {
    forall y, k | y in s.net ensures KeyOk(DoCopyDown(s, o), y, k) { CopyDownKeepsKey(s, o, y, k); }
  }

  lemma HandOverKeepsKeys(s: State, o: nat)
    requires Inv(s) && Can(s, HandOver(o))
    ensures KeysOk(DoHandOver(s, o))
  {
    forall y, k | y in s.net ensures KeyOk(DoHandOver(s, o), y, k) { HandOverKeepsKey(s, o, y, k); }
  }

  /** Stages that move no key. */
  lemma QuietJoinKeepsKeys(s: State, e: Event)
    requires KeysOk(s) && Can(s, e) && JoinEvent(e) && !(e.CopyUp? || e.Admit?)
    ensures KeysOk(Step(s, e))
  {
    if e.BeginJoin? || e.LockForJoin? || e.AcceptJoin? || e.RefuseJoin? || e.GiveUpJoin? {
      JoinLocksKeepKeys(s, e);
    } else {
      NoCopyKeepsKeys(s, Step(s, e), e.o);
    }
  }

  lemma JoinLocksKeepKeys(s: State, e: Event)
    requires KeysOk(s) && Can(s, e)
    requires e.BeginJoin? || e.LockForJoin? || e.AcceptJoin? || e.RefuseJoin? || e.GiveUpJoin?
    ensures KeysOk(Step(s, e))
  {
    NoCopyKeepsKeys(s, Step(s, e), e.o);
  }

  lemma LeaveLocksKeepKeys(s: State, e: Event)
    requires KeysOk(s) && Can(s, e) && (e.LockSuccFirst? || e.LockSelf? || e.LockSuccSecond? || e.BackOff?)
    ensures KeysOk(Step(s, e))
  {
    NoCopyKeepsKeys(s, Step(s, e), e.o);
  }

  lemma QuietLeaveKeepsKeys(s: State, e: Event)
    requires KeysOk(s) && Can(s, e)
    requires e.BeginLeave? || e.GiveUpLeave? || e.FailTransfer? || e.Unwind? || e.Depart? || e.ReleaseLeave?
    ensures KeysOk(Step(s, e))
  {
    NoCopyKeepsKeys(s, Step(s, e), e.o);
  }

  lemma LeaveAdviceKeepsKeys(s: State, e: Event)
    requires KeysOk(s) && Can(s, e) && (e.AdviseLeave? || e.EndLeaveAdvice?)
    ensures KeysOk(Step(s, e))
  {
    NoCopyKeepsKeys(s, Step(s, e), e.o);
  }

  lemma JoinStepKeepsKeys(s: State, e: Event)
    requires Inv(s) && Can(s, e) && JoinEvent(e)
    ensures KeysOk(Step(s, e))
  {
    if e.CopyUp? {
      CopyUpKeepsKeys(s, e.o);
    } else if e.Admit? {
      AdmitKeepsKeys(s, e.o);
    } else {
      QuietJoinKeepsKeys(s, e);
    }
  }

  lemma LeaveStepKeepsKeys(s: State, e: Event)
    requires Inv(s) && Can(s, e) && Repaired(s, e) && LeaveEvent(e)
    ensures KeysOk(Step(s, e))
  {
    if e.CopyDown? {
      CopyDownKeepsKeys(s, e.o);
    } else if e.HandOver? {
      HandOverKeepsKeys(s, e.o);
    } else if e.LockSuccFirst? || e.LockSelf? || e.LockSuccSecond? || e.BackOff? {
      LeaveLocksKeepKeys(s, e);
    } else if e.AdviseLeave? || e.EndLeaveAdvice? {
      LeaveAdviceKeepsKeys(s, e);
    } else {
      QuietLeaveKeepsKeys(s, e);
    }
  }

  /** Every transition keeps each key where it belongs. */
  lemma StepKeepsKeys(s: State, e: Event)
    requires Inv(s) && Can(s, e) && Repaired(s, e)
    ensures KeysOk(Step(s, e))
  {
    var s' := Step(s, e);
    if JoinEvent(e) {
      JoinStepKeepsKeys(s, e);
    } else if LeaveEvent(e) {
      LeaveStepKeepsKeys(s, e);
    } else if e.Write? {
      forall y, k' | y in s'.net ensures KeyOk(s', y, k') { WriteKeepsKey(s, e.c, e.k, e.v, y, k'); }
    } else {
      SameKeys(s, s');
    }
  }

  /** A run whose hand-offs all start from repaired neighbours and whose delayed writes all fit. */
  ghost predicate RunsRepaired(s: State, events: seq<Event>, s': State)
    decreases |events|
  {
    if events == [] then s' == s
    else Can(s, events[0]) && Repaired(s, events[0]) && RunsRepaired(Step(s, events[0]), events[1..], s')
  }

  lemma StepKeepsInv(s: State, e: Event)
    requires Inv(s) && Can(s, e) && Repaired(s, e)
    ensures Inv(Step(s, e))
  {
    StepKeepsSafe(s, e);
    StepKeepsCalls(s, e);
    StepKeepsKeys(s, e);
  }

  lemma {:induction false} RunKeepsInv(s: State, events: seq<Event>, s': State)
    requires Inv(s) && RunsRepaired(s, events, s')
    ensures Inv(s')
    decreases |events|
  {
    if events != [] {
      StepKeepsInv(s, events[0]);
      RunKeepsInv(Step(s, events[0]), events[1..], s');
    }
  }

  lemma CreatedIsSafe(s: State, root: Id)
    requires Created(s, root)
    ensures Inv(s)
  {
  }

  // ---- what clients see ---------------------------------------------------------------------

  /** In every state of such a run, including the middle of joins, leaves and repairs: all
      requests for a key that have reached a store have reached the same one, it holds exactly
      the value clients last stored, and no other store holds the key at all. */
  lemma ServesOneMap(s: State, root: Id, events: seq<Event>, s': State, c: nat, x: Id, k: Key)
    requires Created(s, root) && RunsRepaired(s, events, s') && Serving(s', c, x, s'.hash(k))
    ensures k in s'.net[x].store <==> k in s'.data
    ensures k in s'.data ==> s'.net[x].store[k] == s'.data[k]
    ensures forall y :: y in s'.net && y != x ==> k !in s'.net[y].store
    ensures forall a, y :: Serving(s', a, y, s'.hash(k)) ==> y == x
  {
    CreatedIsSafe(s, root);
    RunKeepsInv(s, events, s');
    var h := s'.hash(k);
    ServerIsOwner(s', c, x, h);
    assert KeyOk(s', x, k);
    forall y | y in s'.net && y != x ensures k !in s'.net[y].store {
      assert KeyOk(s', y, k);
      if Keeps(s', y, h) { ServerKeepsAlone(s', c, x, h, y); }
    }
    forall a, y | Serving(s', a, y, h) ensures y == x {
      ServerIsOwner(s', a, y, h);
      OwnerUnique(s'.ring, h, x, y);
    }
  }

  /** Joins, leaves and repair never change what clients stored. */
  lemma {:induction false} ChurnKeepsData(s: State, events: seq<Event>, s': State)
    requires RunsRepaired(s, events, s') && forall e :: e in events ==> !e.Write?
    ensures s'.data == s.data && s'.hash == s.hash
    decreases |events|
  {
    if events != [] {
      assert events[0] in events;
      assert forall e :: e in events[1..] ==> e in events;
      ChurnKeepsData(Step(s, events[0]), events[1..], s');
    }
  }

  /** Whenever no operation is under way, every key sits at its owner and nowhere else, and the
      owners are exactly the active nodes. */
  lemma SettledPlacement(s: State, root: Id, events: seq<Event>, s': State)
    requires Created(s, root) && RunsRepaired(s, events, s') && s'.ops == map[]
    ensures s'.ring != {} && forall x :: x in s'.ring <==> x in s'.net && s'.net[x].phase == Active
    ensures forall k, x :: x in s'.net ==> (k in s'.net[x].store <==> k in s'.data && x == Owner(s'.ring, s'.hash(k)))
    ensures forall k, x :: x in s'.net && k in s'.net[x].store ==> s'.net[x].store[k] == s'.data[k]
  {
    CreatedIsSafe(s, root);
    RunKeepsInv(s, events, s');
    forall x | x in s'.net ensures x in s'.ring <==> s'.net[x].phase == Active {
      assert Membershiplike(s'.net[x].phase) ==> Held(s', x);
      if x in s'.ring { assert Member(s', x); } else { assert Outsider(s', x); }
    }
    forall k, x | x in s'.net
      ensures k in s'.net[x].store <==> k in s'.data && x == Owner(s'.ring, s'.hash(k))
      ensures k in s'.net[x].store ==> s'.net[x].store[k] == s'.data[k]
    {
      assert KeyOk(s', x, k);
      var h := s'.hash(k);
      if x in s'.ring && IsOwner(s'.ring, h, x) { OwnerUnique(s'.ring, h, x, Owner(s'.ring, h)); }
    }
  }
}

/** Hand-offs that start from neighbours no stabilize has repaired yet: exactly when they still
    leave every key at its owner. */
module StaleHandOff {
  import opened Identifiers
  import opened RingOrder
  import opened Nodes
  import opened Membership
  import opened MembershipLocks
  import opened RingSafety
  import opened Requests
  import opened KeySafety
  import opened Traces
  import opened Churn
  import opened SmallRings

  /** A successor accepts a joiner, copies the range it believes the joiner takes, and admits it. */
  function Accepted(s: State, o: nat): State
    requires Can(s, AcceptJoin(o)) && s.ops[o].j in s.net
  {
    DoAdmit(DoCopyUp(DoAcceptJoin(s, o), o), o)
  }

  /** A leaver copies everything to the successor it chose before locking, then gives up its range. */
  function HandedOver(s: State, o: nat): State
    requires Can(s, CopyDown(o))
  {
    DoHandOver(DoCopyDown(s, o), o)
  }

  /** A pointer past the last live member splits that member's arc in two. */
  lemma StaleArc(ring: set<Id>, p: Id, q: Id, j: Id, x: Id)
    requires x in ring && IsPredecessor(ring, p, x) && Clear(ring, q, x) && Between(q, j, x, false)
    ensures IsSuccessor(ring, p, x) && Between(p, j, x, false)
    ensures q in ring ==> q == p
    ensures forall h: Id :: Between(p, h, j, true) <==> Between(q, h, j, true) || (q != p && Between(p, h, q, true))
    ensures forall h: Id :: q != p ==> !(Between(q, h, j, true) && Between(p, h, q, true))
  {
    NeighboursAgree(ring, p, x);
    if q in ring { SamePredecessor(ring, p, q, x); }
    assert Dist(q, x) <= Dist(q, p) && Dist(q, x) <= Dist(q, x);
    BetweenIsDistance(q, j, x);
    BetweenIsDistance(p, j, x);
    if q != p { StaleOrder(p, q, x); }
  }

  lemma StaleOrder(p: Id, q: Id, x: Id)
    requires Dist(q, x) <= Dist(q, p) && q != p
    ensures Dist(p, q) < Dist(p, x)
  {
  }

  /** Who keeps what at the two nodes a join holds, before and after it is accepted. */
  lemma AcceptedKeepers(s: State, o: nat, y: Id, h: Id)
    requires Safe(s) && Can(s, AcceptJoin(o)) && s.ops[o].j in s.net && y in {s.ops[o].j, s.ops[o].s}
    ensures Keeps(s, y, h) <==> y in s.ring && IsOwner(s.ring, h, y)
    ensures var s' := Accepted(s, o); Keeps(s', y, h) <==> y in s'.ring && IsOwner(s'.ring, h, y)
  {
    assert Distinct(s.ops[o]);
    assert Claim(s.ops[o], y).Some?;
    OnlyHolderSends(s, o, y, h);
    var s' := Accepted(s, o);
    assert forall o' :: o' in s'.ops && o' != o ==> o' in s.ops && s'.ops[o'] == s.ops[o'];
    assert !Incoming(s'.ops[o], y, h);
  }

  /** Away from those two nodes nothing changes. */
  lemma AcceptedElsewhere(s: State, o: nat, p: Id, y: Id, k: Key)
    requires Inv(s) && Can(s, AcceptJoin(o)) && y in s.net && y != s.ops[o].j && y != s.ops[o].s
    requires s.ops[o].j in s.net && s.ops[o].s in s.ring && s.ops[o].j !in s.ring
    requires p in s.ring && IsSuccessor(s.ring, p, s.ops[o].s) && Between(p, s.ops[o].j, s.ops[o].s, false)
    ensures KeyOk(Accepted(s, o), y, k)
  {
    var op, s', h := s.ops[o], Accepted(s, o), s.hash(k);
    assert KeyOk(s, y, k);
    OwnerAfterJoin(s.ring, p, op.j, op.s, h, y);
    if IsOwner(s.ring, h, y) && Between(p, h, op.j, true) { OwnerUnique(s.ring, h, y, op.s); }
    assert s'.ops == s.ops[o := s'.ops[o]];
    OthersKeep(s, s', o, y, h);
  }

  /** One key after an accepted join, whatever other operations are under way. */
  lemma AcceptedKey(s: State, o: nat, p: Id, y: Id, k: Key)
    requires Inv(s) && Can(s, AcceptJoin(o)) && y in s.net
    requires s.ops[o].j in s.net && s.ops[o].s in s.ring && s.ops[o].j !in s.ring
    requires IsPredecessor(s.ring, p, s.ops[o].s)
    ensures var x, q := s.ops[o].s, s.net[s.ops[o].s].pred.value;
            KeyOk(Accepted(s, o), y, k) <==>
              !(y in {s.ops[o].j, x} && k in s.net[x].store && q !in s.ring && Between(p, s.hash(k), q, true))
  {
    var op := s.ops[o];
    var x, q, h := op.s, s.net[op.s].pred.value, s.hash(k);
    assert Member(s, x);
    StaleArc(s.ring, p, q, op.j, x);
    if y == op.j || y == x {
      OwnerAfterJoin(s.ring, p, op.j, x, h, y);
      AcceptedKeepers(s, o, op.j, h);
      AcceptedKeepers(s, o, x, h);
      assert KeyOk(s, x, k) && KeyOk(s, op.j, k);
    } else {
      AcceptedElsewhere(s, o, p, y, k);
    }
  }

  /** A join accepted behind a stale predecessor pointer leaves every key at its owner if and only
      if that pointer is live or the successor holds nothing between the live predecessor and it. */
  lemma StaleJoinPlacesIff(s: State, o: nat, p: Id)
    requires Inv(s) && Can(s, AcceptJoin(o)) && IsPredecessor(s.ring, p, s.ops[o].s)
    ensures s.ops[o].j in s.net
    ensures var x, q := s.ops[o].s, s.net[s.ops[o].s].pred.value;
            KeysOk(Accepted(s, o)) <==>
              q in s.ring || forall k :: k in s.net[x].store ==> !Between(p, s.hash(k), q, true)
  {
    assert OpOk(s, o);
    var s', x, q := Accepted(s, o), s.ops[o].s, s.net[s.ops[o].s].pred.value;
    if q in s.ring || forall k :: k in s.net[x].store ==> !Between(p, s.hash(k), q, true) {
      forall y, k | y in s'.net ensures KeyOk(s', y, k) { AcceptedKey(s, o, p, y, k); }
    } else {
      var k :| k in s.net[x].store && Between(p, s.hash(k), q, true);
      AcceptedKey(s, o, p, x, k);
      assert !KeyOk(s', x, k);
    }
  }

  /** Who owns what once `n` is gone: its keys go to its successor, whoever is asked. */
  lemma HeirIsSuccessor(ring: set<Id>, n: Id, h: Id, y: Id)
    requires n in ring && y != n
    ensures IsOwner(ring - {n}, h, y) <==> if IsOwner(ring, h, n) then IsSuccessor(ring, n, y) else IsOwner(ring, h, y)
  {
    var x := Successor(ring, n);
    if x != n {
      OwnerAfterLeave(ring, n, x, h, y);
      if IsSuccessor(ring, n, y) { SuccessorUnique(ring, n, x, y); }
    } else {
      forall m | m in ring ensures m == n { assert Dist(n, x) <= Dist(n, m); }
    }
  }

  /** Nobody is receiving a copy of a key whose owner is held by another operation. */
  lemma HeldOwnerSendsAlone(s: State, o: nat, n: Id, h: Id, o': nat, y: Id)
    requires Safe(s) && o in s.ops && Claim(s.ops[o], n).Some? && n in s.ring && IsOwner(s.ring, h, n)
    requires o' in s.ops && o' != o
    ensures !Incoming(s.ops[o'], y, h)
  {
    var op := s.ops[o'];
    assert OpOk(s, o') && Distinct(s.ops[o']) && Claim(s.ops[o'], n).None?;
    if op.Copied? && Incoming(op, y, h) {
      OwnerAfterJoin(s.ring, op.p, op.j, op.s, h, op.s);
      OwnerUnique(s.ring, h, n, op.s);
    } else if op.Sent? && Incoming(op, y, h) {
      NeighboursAgree(s.ring, op.p, op.n);
      OwnerIffInRange(s.ring, op.p, op.n, h);
      OwnerUnique(s.ring, h, n, op.n);
    }
  }

  /** Who keeps what at the two nodes a leave holds, before and after it hands over. */
  lemma HandedOverKeepers(s: State, o: nat, y: Id, h: Id)
    requires Safe(s) && Can(s, CopyDown(o)) && y in {s.ops[o].n, s.ops[o].s}
    ensures Keeps(s, y, h) <==> y in s.ring && IsOwner(s.ring, h, y)
    ensures var s' := HandedOver(s, o); Keeps(s', y, h) <==> y in s'.ring && IsOwner(s'.ring, h, y)
  {
    assert Distinct(s.ops[o]);
    assert Claim(s.ops[o], y).Some?;
    OnlyHolderSends(s, o, y, h);
    var s' := HandedOver(s, o);
    assert forall o' :: o' in s'.ops && o' != o ==> o' in s.ops && s'.ops[o'] == s.ops[o'];
    assert !Incoming(s'.ops[o], y, h);
  }

  /** A key the leaver holds is held by nobody else. */
  lemma LeaverHoldsAlone(s: State, o: nat, y: Id, k: Key)
    requires Inv(s) && Can(s, CopyDown(o)) && s.ops[o].n in s.ring && y in s.net && y != s.ops[o].n
    requires k in s.net[s.ops[o].n].store
    ensures k in s.data && IsOwner(s.ring, s.hash(k), s.ops[o].n) && k !in s.net[y].store && !Keeps(s, y, s.hash(k))
  {
    var n, h := s.ops[o].n, s.hash(k);
    HandedOverKeepers(s, o, n, h);
    assert KeyOk(s, n, k) && KeyOk(s, y, k);
    if y in s.ring && IsOwner(s.ring, h, y) { OwnerUnique(s.ring, h, y, n); }
    assert Claim(s.ops[o], n).Some?;
    forall o' | o' in s.ops ensures !Incoming(s.ops[o'], y, h) {
      if o' != o { HeldOwnerSendsAlone(s, o, n, h, o', y); }
    }
  }

  /** One key the leaver holds, after it handed everything over. */
  lemma HandedOverOwn(s: State, o: nat, y: Id, k: Key)
    requires Inv(s) && Can(s, CopyDown(o)) && y in s.net && s.ops[o].n in s.ring && s.ops[o].n != s.ops[o].s
    requires k in s.net[s.ops[o].n].store && y != s.ops[o].n
    ensures KeyOk(HandedOver(s, o), y, k) <==> ((y == s.ops[o].s) <==> IsSuccessor(s.ring, s.ops[o].n, y))
  {
    var n, x, h, s' := s.ops[o].n, s.ops[o].s, s.hash(k), HandedOver(s, o);
    LeaverHoldsAlone(s, o, y, k);
    LeaverHoldsAlone(s, o, x, k);
    HeirIsSuccessor(s.ring, n, h, y);
    assert KeyOk(s, n, k);
    assert Keeps(s', y, h) <==> y in s'.ring && IsOwner(s'.ring, h, y) by {
      assert forall o' :: o' in s'.ops && o' != o ==> o' in s.ops && s'.ops[o'] == s.ops[o'];
    }
  }

  /** Any other key. */
  lemma HandedOverOther(s: State, o: nat, y: Id, k: Key)
    requires Inv(s) && Can(s, CopyDown(o)) && y in s.net && s.ops[o].n in s.ring && s.ops[o].n != s.ops[o].s
    requires k !in s.net[s.ops[o].n].store || y == s.ops[o].n
    ensures KeyOk(HandedOver(s, o), y, k)
  {
    var n, h, s' := s.ops[o].n, s.hash(k), HandedOver(s, o);
    HandedOverKeepers(s, o, n, h);
    assert KeyOk(s, n, k) && KeyOk(s, y, k);
    if y != n && k in s.data {
      HeirIsSuccessor(s.ring, n, h, y);
      assert s'.ops == s.ops[o := s'.ops[o]];
      OthersKeep(s, s', o, y, h);
    }
  }

  /** A leave that locked successor `x` leaves every key at its owner if and only if `x` is the live
      successor, or there was nothing to hand over; whatever other operations are under way. */
  lemma StaleLeavePlacesIff(s: State, o: nat)
    requires Inv(s) && Can(s, CopyDown(o))
    ensures KeysOk(HandedOver(s, o)) <==>
      IsSuccessor(s.ring, s.ops[o].n, s.ops[o].s) || s.net[s.ops[o].n].store == map[]
  {
    assert OpOk(s, o) && Distinct(s.ops[o]);
    var n, x, s' := s.ops[o].n, s.ops[o].s, HandedOver(s, o);
    if IsSuccessor(s.ring, n, x) || s.net[n].store == map[] {
      forall y, k | y in s'.net ensures KeyOk(s', y, k) {
        if y != n && k in s.net[n].store {
          HandedOverOwn(s, o, y, k);
          if IsSuccessor(s.ring, n, y) { SuccessorUnique(s.ring, n, x, y); }
        } else {
          HandedOverOther(s, o, y, k);
        }
      }
    } else {
      var k :| k in s.net[n].store;
      HandedOverOwn(s, o, x, k);
      assert !KeyOk(s', x, k);
    }
  }

  // ---- both failures happen --------------------------------------------------------------------

  /** The first member `x` holds a key, `n` has joined in front of it and holds it now. */
  lemma KeyAtSecond(s: State, x: Id, n: Id, k: Key, v: Entry) returns (s': State)
    requires Created(s, x) && n in s.net && n != x
    ensures Reaches(true, s, s') && Pair(s', x, n) && s'.calls == map[] && s'.data == map[k := v] && s'.hash == s.hash
    ensures s'.net.Keys == s.net.Keys
  {
    CreatedIsLone(s, x);
    BetweenIsDistance(x, s.hash(k), x);
    var s1 := ClientWrites(s, s, 0, x, k, v);
    s' := SecondMember(s, s1, x, n);
  }

  /** `n` has left again, `x` still points back at it, and `j` has locked `x` to join behind it. */
  lemma StaleJoinArrives(s: State, mid: State, x: Id, n: Id, j: Id) returns (s': State)
    requires Reaches(true, s, mid) && Pair(mid, x, n) && mid.calls == map[] && j in mid.net && Between(n, j, x, false)
    ensures Reaches(true, s, s') && s'.data == mid.data && s'.hash == mid.hash && s'.ring == {x}
    ensures s'.ops == map[0 := Asking(j, x)] && x in s'.net && j in s'.net && s'.net[x].pred == Some(n)
  {
    BetweenIsDistance(n, j, x);
    assert IsSuccessor(mid.ring, n, x);
    LeaveDeparts(true, s, mid, 0, 0, n, x, x);
    var s1 := AfterLeave(mid, 0, n, x, x);
    DepartedPointers(mid, 0, n, x, x);
    JoinLocks(true, s, s1, 0, j, x);
    s' := AfterLock(s1, 0, j, x);
  }

  /** From every fresh ring: a client stores a key, `n` joins and takes it, `n` leaves and gives it back,
      and before anybody repairs the pointer to `n`, `j` asks to join. The key is stranded at `x`
      although `j` owns it. */
  lemma StaleJoinMisplaces(s: State, x: Id, n: Id, j: Id, k: Key, v: Entry) returns (events: seq<Event>, mid: State)
    requires Created(s, x) && n in s.net && j in s.net && n != x
    requires Between(n, j, x, false) && Between(x, s.hash(k), n, true)
    ensures RunsRepaired(s, events, mid) && Inv(mid) && Can(mid, AcceptJoin(0)) && mid.ops[0] == Asking(j, x)
    ensures mid.data == map[k := v] && j in mid.net && !Repaired(mid, AcceptJoin(0))
    ensures Reaches(false, s, Accepted(mid, 0)) && !KeysOk(Accepted(mid, 0))
  {
    BetweenIsDistance(n, j, x);
    var s1 := KeyAtSecond(s, x, n, k, v);
    mid := StaleJoinArrives(s, s1, x, n, j);
    events := ReachedByRun(true, s, mid);
    ReachedIsSound(s, mid);
    StrandedKey(mid, x, n, j, k);
    Lenient(s, mid);
    JoinCopies(false, s, mid, 0);
    JoinIsAdmitted(false, s, DoCopyUp(DoAcceptJoin(mid, 0), 0), 0);
  }

  lemma StrandedKey(s: State, x: Id, n: Id, j: Id, k: Key)
    requires Inv(s) && s.ring == {x} && s.ops == map[0 := Asking(j, x)] && x in s.net && j in s.net && j != x && n != x
    requires s.net[x].pred == Some(n) && Between(n, j, x, false) && k in s.data && Between(x, s.hash(k), n, true)
    ensures Can(s, AcceptJoin(0)) && !Repaired(s, AcceptJoin(0)) && !KeysOk(Accepted(s, 0))
  {
    assert Can(s, AcceptJoin(0));
    assert IsPredecessor(s.ring, x, x);
    AcceptedKeepers(s, 0, x, s.hash(k));
    assert KeyOk(s, x, k);
    StaleJoinPlacesIff(s, 0, x);
  }

  /** `n` has chosen `x` as the successor to leave to, then `j` joined between them. */
  lemma JoinOvertakesLeave(s: State, mid: State, x: Id, n: Id, j: Id) returns (s': State)
    requires Reaches(true, s, mid) && Pair(mid, x, n) && mid.calls == map[] && j in mid.net && Between(n, j, x, false)
    ensures Reaches(true, s, s') && s'.data == mid.data && s'.hash == mid.hash && s'.ring == {x, n, j}
    ensures s'.ops == map[0 := Trying(n, x, x)] && x in s'.net && n in s'.net
    ensures s'.net[x].phase == Active && s'.net[n].phase == Active
  {
    BetweenIsDistance(n, j, x);
    LeaveBegins(true, s, mid, 0, n, x, x);
    var s1 := mid.(ops := mid.ops[0 := Trying(n, x, x)]);
    JoinRuns(true, s, s1, 1, 0, j, x, n);
    s' := AfterJoin(s1, 1, j, x, n);
    JoinedPointers(s1, 1, j, x, n);
  }

  /** From every fresh ring: `n` holds a key and begins to leave; before it takes its locks, `j` joins behind
      it. The key goes to `x` although `j` owns it from then on. */
  lemma StaleLeaveMisplaces(s: State, x: Id, n: Id, j: Id, k: Key, v: Entry) returns (events: seq<Event>, mid: State)
    requires Created(s, x) && n in s.net && j in s.net && n != x
    requires Between(n, j, x, false) && Between(x, s.hash(k), n, true)
    ensures RunsRepaired(s, events, mid) && Inv(mid) && Can(mid, CopyDown(0)) && mid.ops[0] == HoldsBoth(n, x, x)
    ensures mid.data == map[k := v] && !Repaired(mid, CopyDown(0))
    ensures Reaches(false, s, HandedOver(mid, 0)) && !KeysOk(HandedOver(mid, 0))
  {
    BetweenIsDistance(n, j, x);
    var s1 := KeyAtSecond(s, x, n, k, v);
    var s2 := JoinOvertakesLeave(s, s1, x, n, j);
    LeaveLocks(true, s, s2, 0, n, x, x);
    mid := AfterLocks(s2, 0, n, x, x);
    events := ReachedByRun(true, s, mid);
    ReachedIsSound(s, mid);
    MissentKey(mid, x, n, j, k);
    Lenient(s, mid);
    LeaveHandsOver(false, s, mid, 0);
  }

  lemma MissentKey(s: State, x: Id, n: Id, j: Id, k: Key)
    requires Inv(s) && s.ring == {x, n, j} && s.ops == map[0 := HoldsBoth(n, x, x)] && x in s.net && n in s.net
    requires n != x
    requires Between(n, j, x, false) && k in s.data && Between(x, s.hash(k), n, true)
    ensures Can(s, CopyDown(0)) && !Repaired(s, CopyDown(0)) && !KeysOk(HandedOver(s, 0))
  {
    BetweenIsDistance(n, j, x);
    assert !IsSuccessor(s.ring, n, x);
    assert Clear(s.ring, x, n);
    ClearArcOwned(s.ring, x, n, s.hash(k));
    HandedOverKeepers(s, 0, n, s.hash(k));
    assert KeyOk(s, n, k);
    StaleLeavePlacesIff(s, 0);
  }
}

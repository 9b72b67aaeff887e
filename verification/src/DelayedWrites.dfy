/** The writes of a background call, however long after its reads they come: exactly when each
    keeps the ring safe. */
module DelayedWrites {
  import opened Identifiers
  import opened RingOrder
  import opened Nodes
  import opened SuccessorLists
  import opened Calls
  import opened Membership
  import opened MembershipLocks
  import opened RingSafety

  /** Pointer writes change neither phases nor operations nor the ring. */
  ghost predicate SameFrame(s: State, s': State) {
    && s'.ring == s.ring && s'.ops == s.ops && s'.net.Keys == s.net.Keys
    && forall y :: y in s.net ==> s'.net[y].phase == s.net[y].phase
  }

  lemma SameArc(s: State, s': State, x: Id, list: seq<Id>)
    requires SameFrame(s, s')
    ensures ArcFits(s', x, list) <==> ArcFits(s, x, list)
  {
    assert GoneArc(s', x, list) <==> GoneArc(s, x, list);
  }

  // ---- the successor list -----------------------------------------------------------

  lemma InstallKeepsMember(s: State, c: nat, x: Id, list: seq<Id>, m: Id)
    requires Safe(s) && c in s.calls && s.calls[c] == Ready(x, list) && Installable(s, c, x, list) && m in s.ring
    ensures Member(DoProceed(s, c), m)
  {
    var s' := DoProceed(s, c);
    assert Member(s, m);
    SameArc(s, s', m, s'.net[m].succs);
    if Names(s, m, x) { assert x in s.ring ==> list[0] == m; }
  }

  lemma InstallKeepsWaiting(s: State, c: nat, x: Id, list: seq<Id>, o: nat)
    requires c in s.calls && s.calls[c] == Ready(x, list) && Installable(s, c, x, list)
    requires o in s.ops && OpOk(s, o) && OpAllowsList(s, o, c, x, list) && Waiting(s.ops[o])
    requires s.net[s.ops[o].j].phase == Joining
    ensures OpOk(DoProceed(s, c), o)
  {
  }

  lemma InstallKeepsEntering(s: State, c: nat, x: Id, list: seq<Id>, o: nat)
    requires c in s.calls && s.calls[c] == Ready(x, list) && Installable(s, c, x, list)
    requires o in s.ops && OpOk(s, o) && OpAllowsList(s, o, c, x, list) && Entering(s.ops[o])
    ensures OpOk(DoProceed(s, c), o)
  {
  }

  lemma InstallKeepsOther(s: State, c: nat, x: Id, list: seq<Id>, o: nat)
    requires c in s.calls && s.calls[c] == Ready(x, list) && Installable(s, c, x, list)
    requires o in s.ops && OpOk(s, o) && OpAllowsList(s, o, c, x, list) && !Waiting(s.ops[o]) && !Entering(s.ops[o])
    ensures OpOk(DoProceed(s, c), o)
  {
  }

  lemma InstallKeepsRing(s: State, c: nat, x: Id, list: seq<Id>)
    requires Safe(s) && c in s.calls && s.calls[c] == Ready(x, list) && Installable(s, c, x, list)
    ensures RingOk(DoProceed(s, c))
  {
    var s' := DoProceed(s, c);
    forall m | m in s'.ring ensures Member(s', m) { InstallKeepsMember(s, c, x, list, m); }
    forall m | m in s'.net && m !in s'.ring ensures Outsider(s', m) { assert Outsider(s, m); }
    forall o | o in s'.ops ensures OpOk(s', o) {
      assert OpOk(s, o) && OpAllowsList(s, o, c, x, list);
      if Waiting(s.ops[o]) {
        assert Claim(s.ops[o], s.ops[o].j) == Some(Joining);
        InstallKeepsWaiting(s, c, x, list, o);
      } else if Entering(s.ops[o]) {
        InstallKeepsEntering(s, c, x, list, o);
      } else {
        InstallKeepsOther(s, c, x, list, o);
      }
    }
  }

  lemma InstalledOpAllows(s: State, c: nat, x: Id, list: seq<Id>, o: nat)
    requires c in s.calls && s.calls[c] == Ready(x, list) && x in s.net && list != []
    requires o in s.ops && OpOk(s, o) && OpOk(DoProceed(s, c), o)
    ensures OpAllowsList(s, o, c, x, list) && !(s.ops[o].Admitted? && s.ops[o].j == x)
  {
  }

  lemma InstalledRingAllows(s: State, c: nat, x: Id, list: seq<Id>)
    requires Safe(s) && c in s.calls && s.calls[c] == Ready(x, list) && x in s.net && list != []
    requires RingOk(DoProceed(s, c))
    ensures Installable(s, c, x, list)
  {
    var s' := DoProceed(s, c);
    forall o | o in s.ops ensures OpAllowsList(s, o, c, x, list) && !(s.ops[o].Admitted? && s.ops[o].j == x) {
      assert OpOk(s, o) && OpOk(s', o);
      InstalledOpAllows(s, c, x, list, o);
    }
    if x in s.ring {
      assert Member(s, x) && Member(s', x);
      SameArc(s, s', x, list);
      forall m | m in s.ring && Names(s, m, x) ensures list[0] == m { assert Member(s', m); }
    } else {
      assert Outsider(s', x);
    }
  }

  /** A list installed at last, however stale, keeps the ring safe exactly when it still fits. */
  lemma InstallSafeIff(s: State, c: nat, x: Id, list: seq<Id>)
    requires Safe(s) && c in s.calls && s.calls[c] == Ready(x, list) && x in s.net && list != []
    ensures Safe(DoProceed(s, c)) <==> Installable(s, c, x, list)
  {
    SamePhasesKeepLocks(s, DoProceed(s, c));
    if Installable(s, c, x, list) { InstallKeepsRing(s, c, x, list); }
    if RingOk(DoProceed(s, c)) { InstalledRingAllows(s, c, x, list); }
  }

  // ---- the surrogate ------------------------------------------------------------------

  /** Call `c` is past its list and writes at most one node's predecessor or surrogate. */
  ghost predicate Repoints(s: State, s': State, c: nat) {
    && SameFrame(s, s') && c in s.calls && (s.calls[c].Decided? || s.calls[c].Marked? || s.calls[c].Forgetting?)
    && (forall a :: a in s.calls && a != c ==> a in s'.calls && s'.calls[a] == s.calls[a])
    && (forall y :: y in s.net ==> s'.net[y].succs == s.net[y].succs)
  }

  /** The pointers operation `o` relies on are still there. */
  predicate StillPointed(net: Network, op: Op) {
    && (Entering(op) ==>
          && op.s in net && net[op.s].pred == Some(op.j) && net[op.s].surrogate.Some?
          && op.j in net && net[op.j].pred in {None, Some(op.p)})
    && (op.Sent? || Exiting(op) ==> op.n in net && net[op.n].pred in {None, Some(op.p)})
    && (Waiting(op) ==> op.j in net && net[op.j].pred == None && net[op.j].surrogate == None)
  }

  lemma OpPoints(s: State, o: nat)
    requires o in s.ops && OpOk(s, o)
    ensures StillPointed(s.net, s.ops[o])
  {
  }

  lemma RepointKeepsJoiner(s: State, s': State, c: nat, o: nat)
    requires Repoints(s, s', c) && o in s.ops && OpOk(s, o) && StillPointed(s'.net, s.ops[o])
    requires Waiting(s.ops[o]) || Entering(s.ops[o])
    ensures OpOk(s', o)
  {
    assert forall q, y :: Heads(s.net, q, y) ==> Heads(s'.net, q, y);
  }

  lemma RepointKeepsOp(s: State, s': State, c: nat, o: nat)
    requires Repoints(s, s', c) && o in s.ops && OpOk(s, o) && StillPointed(s'.net, s.ops[o])
    ensures OpOk(s', o)
  {
    if Waiting(s.ops[o]) || Entering(s.ops[o]) {
      RepointKeepsJoiner(s, s', c, o);
    } else {
      assert forall q, y :: Heads(s.net, q, y) ==> Heads(s'.net, q, y);
      assert forall q, y :: Seconds(s.net, q, y) ==> Seconds(s'.net, q, y);
    }
  }

  lemma RepointKeepsMember(s: State, s': State, c: nat, m: Id)
    requires Repoints(s, s', c) && Member(s, m)
    requires s'.net[m].pred != s.net[m].pred && s'.net[m].pred.Some? ==> PredFits(s, m, s'.net[m].pred.value)
    requires var g := s'.net[m].surrogate; g != s.net[m].surrogate && g.Some? ==>
      g.value != m && Clear(s.ring, g.value, m)
    ensures Member(s', m)
  {
    SameArc(s, s', m, s'.net[m].succs);
  }

  lemma MarkKeepsPointed(net: Network, call: Call, op: Op)
    requires StillPointed(net, op) && call.Decided?
    requires call.x == call.t && Entering(op) ==> op.s != call.t
    requires call.x != call.t && Waiting(op) ==> op.j != call.t
    ensures StillPointed(Writes(net, call), op)
  {
  }

  /** A surrogate that may be marked is not one a joiner under way relies on. */
  lemma MarkMissesOp(s: State, t: Id, x: Id, o: nat)
    requires Safe(s) && t in s.net && Markable(s, t, x) && o in s.ops
    ensures x == t && Entering(s.ops[o]) ==> s.ops[o].s != t
    ensures x != t && Waiting(s.ops[o]) ==> s.ops[o].j != t
  {
    assert OpOk(s, o) && Distinct(s.ops[o]);
    if Waiting(s.ops[o]) { assert Claim(s.ops[o], s.ops[o].j) == Some(Joining); }
  }

  lemma MarkKeepsOp(s: State, c: nat, o: nat)
    requires Safe(s) && c in s.calls && s.calls[c].Decided? && s.calls[c].t in s.net
    requires Markable(s, s.calls[c].t, s.calls[c].x)
    requires o in s.ops
    ensures OpOk(DoProceed(s, c), o)
  {
    MarkMissesOp(s, s.calls[c].t, s.calls[c].x, o);
    assert OpOk(s, o);
    OpPoints(s, o);
    MarkKeepsPointed(s.net, s.calls[c], s.ops[o]);
    RepointKeepsOp(s, DoProceed(s, c), c, o);
  }

  lemma MarkKeepsMember(s: State, c: nat, m: Id)
    requires c in s.calls && s.calls[c].Decided? && s.calls[c].t in s.net && Markable(s, s.calls[c].t, s.calls[c].x)
    requires m in s.ring && RingOk(s)
    ensures Member(DoProceed(s, c), m)
  {
    assert Member(s, m);
    RepointKeepsMember(s, DoProceed(s, c), c, m);
  }

  lemma MarkKeepsRing(s: State, c: nat)
    requires Safe(s) && c in s.calls && s.calls[c].Decided? && s.calls[c].t in s.net
    requires Markable(s, s.calls[c].t, s.calls[c].x)
    ensures RingOk(DoProceed(s, c))
  {
    var s' := DoProceed(s, c);
    forall m | m in s'.ring ensures Member(s', m) { MarkKeepsMember(s, c, m); }
    forall m | m in s'.net && m !in s'.ring ensures Outsider(s', m) { assert Outsider(s, m); }
    forall o | o in s'.ops ensures OpOk(s', o) {
      MarkKeepsOp(s, c, o);
    }
  }

  lemma MarkKeepsCalls(s: State, c: nat)
    requires CallsOk(s) && c in s.calls && s.calls[c].Decided? && s.calls[c].t in s.net
    requires Markable(s, s.calls[c].t, s.calls[c].x)
    ensures CallsOk(DoProceed(s, c))
  {
    forall a | a in DoProceed(s, c).calls ensures CallOk(DoProceed(s, c), a) {
      if a != c { assert CallOk(s, a); }
    }
  }

  lemma ClearedIsClearable(s: State, s': State, c: nat, t: Id)
    requires c in s.calls && !s.calls[c].Found? && t in s.ring && t in s'.net && s'.net[t].surrogate.None?
    requires s'.ring == s.ring && s'.ops == s.ops && c in s'.calls && s'.calls == s.calls[c := s'.calls[c]]
    requires RingOk(s') && CallsOk(s')
    ensures Clearable(s, t)
  {
    forall o | o in s.ops && Entering(s.ops[o]) ensures s.ops[o].s != t { assert OpOk(s', o); }
    forall a | a in s.calls && s.calls[a].Found? && s.calls[a].x == t ensures IsOwner(s.ring, s.calls[a].h, t) {
      assert CallOk(s', a);
    }
  }

  lemma MarkedIsMarkable(s: State, c: nat, x: Id, t: Id)
    requires Safe(s) && c in s.calls && s.calls[c].Decided? && s.calls[c].x == x && s.calls[c].t == t
    requires t in s.net && s.net[t].surrogate == s.calls[c].surrogate
    requires RingOk(DoProceed(s, c)) && CallsOk(DoProceed(s, c))
    ensures Markable(s, t, x)
  {
    var s' := DoProceed(s, c);
    if t !in s.ring {
      assert Outsider(s', t);
    } else if x != t {
      assert Member(s', t);
    } else {
      ClearedIsClearable(s, s', c, t);
    }
  }

  /** For another node's surrogate the ring alone decides. */
  lemma OtherMarkSafeIff(s: State, c: nat, x: Id, t: Id)
    requires Safe(s) && c in s.calls && s.calls[c].Decided? && s.calls[c].x == x && s.calls[c].t == t
    requires t in s.net && x != t && s.net[t].surrogate == s.calls[c].surrogate
    ensures Safe(DoProceed(s, c)) <==> Markable(s, t, x)
  {
    var s' := DoProceed(s, c);
    SamePhasesKeepLocks(s, s');
    if Markable(s, t, x) { MarkKeepsRing(s, c); }
    if RingOk(s') {
      if t in s.ring { assert Member(s', t); } else { assert Outsider(s', t); }
    }
  }

  /** A surrogate written at last keeps the ring safe and remembered answers right exactly when it
      still fits: another node's when no member has come between the two, a node's own Notify, which
      clears it, when nobody is joining in front of the node and every answer that names it is right. */
  lemma MarkSafeIff(s: State, c: nat, x: Id, t: Id)
    requires Safe(s) && CallsOk(s) && c in s.calls && s.calls[c].Decided? && s.calls[c].x == x && s.calls[c].t == t
    requires t in s.net && s.net[t].surrogate == s.calls[c].surrogate
    ensures Safe(DoProceed(s, c)) && CallsOk(DoProceed(s, c)) <==> Markable(s, t, x)
  {
    SamePhasesKeepLocks(s, DoProceed(s, c));
    if Markable(s, t, x) {
      MarkKeepsRing(s, c);
      MarkKeepsCalls(s, c);
    }
    if RingOk(DoProceed(s, c)) && CallsOk(DoProceed(s, c)) { MarkedIsMarkable(s, c, x, t); }
  }

  // ---- the predecessor ----------------------------------------------------------------

  lemma AdoptKeepsPointed(net: Network, call: Call, op: Op)
    requires StillPointed(net, op) && call.Marked?
    requires Entering(op) ==> (op.s == call.t ==> call.x == op.j) && (op.j == call.t ==> call.x == op.p)
    requires op.Sent? || Exiting(op) ==> op.n == call.t ==> call.x == op.p
    requires Waiting(op) ==> op.j != call.t
    ensures StillPointed(Writes(net, call), op)
  {
  }

  lemma AdoptKeepsOp(s: State, c: nat, o: nat)
    requires Safe(s) && c in s.calls && s.calls[c].Marked? && s.calls[c].t in s.net
    requires Adoptable(s, s.calls[c].t, s.calls[c].x)
    requires o in s.ops
    ensures OpOk(DoProceed(s, c), o)
  {
    assert OpOk(s, o) && OpAllowsPred(s, o, s.calls[c].t, s.calls[c].x);
    if Waiting(s.ops[o]) { assert Claim(s.ops[o], s.ops[o].j) == Some(Joining); }
    OpPoints(s, o);
    AdoptKeepsPointed(s.net, s.calls[c], s.ops[o]);
    RepointKeepsOp(s, DoProceed(s, c), c, o);
  }

  lemma AdoptKeepsMember(s: State, c: nat, m: Id)
    requires c in s.calls && s.calls[c].Marked? && s.calls[c].t in s.net && Adoptable(s, s.calls[c].t, s.calls[c].x)
    requires m in s.ring && RingOk(s)
    ensures Member(DoProceed(s, c), m)
  {
    assert Member(s, m);
    RepointKeepsMember(s, DoProceed(s, c), c, m);
  }

  lemma AdoptKeepsRing(s: State, c: nat)
    requires Safe(s) && c in s.calls && s.calls[c].Marked? && s.calls[c].t in s.net
    requires Adoptable(s, s.calls[c].t, s.calls[c].x)
    ensures RingOk(DoProceed(s, c))
  {
    var s' := DoProceed(s, c);
    forall m | m in s'.ring ensures Member(s', m) { AdoptKeepsMember(s, c, m); }
    forall m | m in s'.net && m !in s'.ring ensures Outsider(s', m) { assert Outsider(s, m); }
    forall o | o in s'.ops ensures OpOk(s', o) {
      AdoptKeepsOp(s, c, o);
    }
  }

  lemma AdoptedOpAllows(s: State, c: nat, x: Id, t: Id, o: nat)
    requires c in s.calls && s.calls[c].Marked? && s.calls[c].x == x && s.calls[c].t == t
    requires t in s.net && s.net[t].pred == s.calls[c].pred
    requires o in s.ops && OpOk(DoProceed(s, c), o)
    ensures OpAllowsPred(s, o, t, x)
  {
  }

  /** A predecessor written at last keeps the ring safe exactly when it still fits. */
  lemma AdoptSafeIff(s: State, c: nat, x: Id, t: Id)
    requires Safe(s) && c in s.calls && s.calls[c].Marked? && s.calls[c].x == x && s.calls[c].t == t
    requires t in s.net && s.net[t].pred == s.calls[c].pred
    ensures Safe(DoProceed(s, c)) <==> Adoptable(s, t, x)
  {
    var s' := DoProceed(s, c);
    SamePhasesKeepLocks(s, s');
    if Adoptable(s, t, x) { AdoptKeepsRing(s, c); }
    if RingOk(s') {
      if t in s.ring { assert Member(s', t); } else { assert Outsider(s', t); }
      forall o | o in s.ops ensures OpAllowsPred(s, o, t, x) {
        assert OpOk(s', o);
        AdoptedOpAllows(s, c, x, t, o);
      }
    }
  }

  // ---- everything else ------------------------------------------------------------------

  lemma ForgetKeepsPointed(net: Network, call: Call, op: Op)
    requires StillPointed(net, op) && call.Forgetting?
    requires Entering(op) ==> op.s != call.x || op.j != call.q
    ensures StillPointed(Writes(net, call), op)
  {
  }

  lemma ForgetKeepsOp(s: State, c: nat, o: nat)
    requires Safe(s) && c in s.calls && s.calls[c].Forgetting? && CallOk(s, c)
    requires o in s.ops
    ensures OpOk(DoProceed(s, c), o)
  {
    assert OpOk(s, o) && Distinct(s.ops[o]);
    if Entering(s.ops[o]) {
      assert Claim(s.ops[o], s.ops[o].j) == Some(Joining) && Claim(s.ops[o], s.ops[o].s) == Some(Transferring);
    }
    OpPoints(s, o);
    ForgetKeepsPointed(s.net, s.calls[c], s.ops[o]);
    RepointKeepsOp(s, DoProceed(s, c), c, o);
  }

  lemma ForgetKeepsMember(s: State, c: nat, m: Id)
    requires c in s.calls && s.calls[c].Forgetting?
    requires m in s.ring && RingOk(s)
    ensures Member(DoProceed(s, c), m)
  {
    assert Member(s, m);
    RepointKeepsMember(s, DoProceed(s, c), c, m);
  }

  /** Forgetting a predecessor that was found dead keeps the ring safe, however late. */
  lemma ForgetKeepsRing(s: State, c: nat)
    requires Safe(s) && c in s.calls && s.calls[c].Forgetting? && CallOk(s, c)
    ensures RingOk(DoProceed(s, c))
  {
    var s' := DoProceed(s, c);
    forall m | m in s'.ring ensures Member(s', m) { ForgetKeepsMember(s, c, m); }
    forall m | m in s'.net && m !in s'.ring ensures Outsider(s', m) { assert Outsider(s, m); }
    forall o | o in s'.ops ensures OpOk(s', o) { ForgetKeepsOp(s, c, o); }
  }

  /** The next action of `call` writes nothing. */
  predicate Reads(call: Call) {
    !(call.Ready? || call.Decided? || call.Marked? || call.Forgetting?)
  }

  /** An advisory on its way to the joiner stays on its way. */
  lemma NearingGoes(s: State, o: nat)
    requires Safe(s) && o in s.ops && s.ops[o].Advising? && s.ops[o].c in s.calls
    requires var op := s.ops[o]; var call := s.calls[op.c]; Nearing(call, op.p, op.j, op.s) && Reads(call)
    ensures var op := s.ops[o]; var next := Goes(s.net, s.calls[op.c]);
            next.Some? && Nearing(next.value, op.p, op.j, op.s)
  {
    var op := s.ops[o];
    assert OpOk(s, o) && Distinct(s.ops[o]);
    assert Member(s, op.s) && Member(s, op.j);
    BetweenIsDistance(op.p, op.j, op.s);
    BetweenIsDistance(op.p, op.p, op.j);
    assert Dist(op.p, op.j) <= Dist(op.p, op.s);
    MakeSuccListDistinct(op.j, s.net[op.j].succs);
  }

  lemma ClosingGoes(s: State, o: nat)
    requires Safe(s) && o in s.ops && s.ops[o].Telling? && s.ops[o].c in s.calls
    requires var op := s.ops[o]; var call := s.calls[op.c]; Closing(call, op.p, op.n, op.s) && Reads(call)
    ensures var op := s.ops[o]; var next := Goes(s.net, s.calls[op.c]);
            next.Some? && Closing(next.value, op.p, op.n, op.s)
  {
    var op := s.ops[o];
    assert OpOk(s, o) && Distinct(s.ops[o]) && Claim(s.ops[o], op.n) == Some(Leaving);
    BetweenIsDistance(op.p, op.p, op.n);
    MakeSuccListDistinct(op.n, s.net[op.n].succs);
  }

  lemma ReadKeepsOp(s: State, c: nat, o: nat)
    requires Safe(s) && c in s.calls && Reads(s.calls[c]) && o in s.ops
    ensures OpOk(DoProceed(s, c), o)
  {
    var op := s.ops[o];
    assert OpOk(s, o);
    if op.Advising? && op.c == c && Nearing(s.calls[c], op.p, op.j, op.s) { NearingGoes(s, o); }
    if op.Telling? && op.c == c && Closing(s.calls[c], op.p, op.n, op.s) { ClosingGoes(s, o); }
    CallsKeepOp(s, DoProceed(s, c), o);
  }

  /** An operation depends on calls only through its advisory. */
  lemma CallsKeepOp(s: State, s': State, o: nat)
    requires s' == s.(calls := s'.calls) && o in s.ops && OpOk(s, o)
    requires s.ops[o].Advising? ==> JoinAdviceOk(s', s.ops[o].j, s.ops[o].s, s.ops[o].p, s.ops[o].c)
    requires s.ops[o].Telling? ==> LeaveAdviceOk(s', s.ops[o].n, s.ops[o].p, s.ops[o].s, s.ops[o].c)
    ensures OpOk(s', o)
  {
  }

  lemma CallsKeepRing(s: State, s': State)
    requires Safe(s) && s' == s.(calls := s'.calls)
    requires forall o {:trigger OpOk(s', o)} :: o in s.ops ==> OpOk(s', o)
    ensures Safe(s')
  {
    SamePhasesKeepLocks(s, s');
    forall m | m in s'.ring ensures Member(s', m) {
      assert Member(s, m);
      SameArc(s, s', m, s'.net[m].succs);
    }
    forall m | m in s'.net && m !in s'.ring ensures Outsider(s', m) { assert Outsider(s, m); }
  }

  /** A call may start at any time. */
  lemma BeginKeepsSafe(s: State, c: nat, call: Call)
    requires Safe(s) && c !in s.calls
    ensures Safe(DoBegin(s, c, call))
  {
    var s' := DoBegin(s, c, call);
    forall o | o in s.ops ensures OpOk(s', o) {
      assert OpOk(s, o);
      CallsKeepOp(s, s', o);
    }
    CallsKeepRing(s, s');
  }

  lemma ReadKeepsRing(s: State, c: nat)
    requires Safe(s) && c in s.calls && Reads(s.calls[c])
    ensures RingOk(DoProceed(s, c))
  {
    forall o | o in s.ops ensures OpOk(DoProceed(s, c), o) { ReadKeepsOp(s, c, o); }
    CallsKeepRing(s, DoProceed(s, c));
  }

  /** One action of a background call, if what it writes still fits, keeps the ring safe. */
  lemma ProceedKeepsSafe(s: State, c: nat)
    requires Safe(s) && c in s.calls && CallOk(s, c) && Timely(s, c)
    ensures Safe(DoProceed(s, c))
  {
    SamePhasesKeepLocks(s, DoProceed(s, c));
    match s.calls[c]
    case Ready(x, list) => InstallKeepsRing(s, c, x, list);
    case Decided(x, t, g, _) =>
      if t in s.net && s.net[t].surrogate == g { MarkKeepsRing(s, c); } else { StaleKeepsSafe(s, c); }
    case Marked(x, t, p) => if t in s.net && s.net[t].pred == p { AdoptKeepsRing(s, c); } else { StaleKeepsSafe(s, c); }
    case Forgetting(_, _) => ForgetKeepsRing(s, c);
    case _ => ReadKeepsRing(s, c);
  }

  /** A compare-and-set that finds the pointer changed does nothing. */
  lemma StaleKeepsSafe(s: State, c: nat)
    requires Safe(s) && c in s.calls && (s.calls[c].Decided? || s.calls[c].Marked?)
    requires Writes(s.net, s.calls[c]) == s.net
    ensures Safe(DoProceed(s, c))
  {
    forall o | o in s.ops ensures OpOk(DoProceed(s, c), o) {
      assert OpOk(s, o);
      CallsKeepOp(s, DoProceed(s, c), o);
    }
    CallsKeepRing(s, DoProceed(s, c));
  }
}

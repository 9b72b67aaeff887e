/** What the conditions on delayed writes are for: a stabilize call that is overtaken by a join can
    end with two nodes serving the same keys, and so can a Notify that arrives late, at another
    node or at the caller itself. */
module DelayedRepair {
  import opened Identifiers
  import opened RingOrder
  import opened Nodes
  import opened SuccessorLists
  import opened Stabilization
  import opened Calls
  import opened Membership
  import opened MembershipLocks
  import opened RingSafety
  import opened DelayedWrites
  import opened RingRepair
  import opened KeySafety
  import opened Traces
  import opened Churn
  import opened SmallRings

  /** The list `p` computes while `x` is its only neighbour. */
  function PairList(s: State, x: Id): seq<Id>
    requires x in s.net
  {
    MakeSuccList(x, s.net[x].succs)
  }

  lemma PairRefreshes(s: State, p: Id, x: Id)
    requires Pair(s, p, x)
    ensures Refreshed(s.net, p, s.net[p].succs) == Some(PairList(s, x))
    ensures var list := PairList(s, x); |list| >= 2 && list[0] == x && list[1] == p
  {
    BetweenIsDistance(p, p, x);
    MakeSuccListDistinct(x, s.net[x].succs);
  }

  /** A stabilize call of `p` reads what it needs and is delayed before it writes. */
  lemma CallStalls(s: State, mid: State, p: Id, x: Id)
    requires Reaches(true, s, mid) && Pair(mid, p, x) && mid.calls == map[]
    ensures Reaches(true, s, WithCall(mid, 0, Ready(p, PairList(mid, x))))
  {
    ReachNext(true, s, mid, BeginStabilize(0, p));
    var s1 := DoBegin(mid, 0, Began(p, mid.net[p].succs));
    PairRefreshes(mid, p, x);
    CallReads(true, s, s1, 0, p, mid.net[p].succs, PairList(mid, x));
    assert WithCall(s1, 0, Ready(p, PairList(mid, x))) == WithCall(mid, 0, Ready(p, PairList(mid, x)));
  }

  // ---- a list that is written too late -------------------------------------------------------

  /** Meanwhile `j` has joined between the two: the pointers are right, the delayed list is not. */
  ghost predicate Overtaken(s: State, p: Id, j: Id, x: Id, list: seq<Id>) {
    && Trio(s, p, j, x) && s.calls == map[0 := Ready(p, list)]
    && |list| >= 2 && list[0] == x && list[1] == p
  }

  lemma OvertakenListDoesNotFit(s: State, p: Id, j: Id, x: Id, list: seq<Id>)
    requires Overtaken(s, p, j, x, list) && Between(p, j, x, false)
    ensures !Installable(s, 0, p, list)
  {
    BetweenIsDistance(p, j, x);
    assert !IsSuccessor(s.ring, p, x);
  }

  /** The late list passes over `j`; once `x` has left, `p` takes itself for the only member. */
  ghost predicate Misled(net: Network, p: Id, j: Id, x: Id) {
    && p in net && j in net && x in net && p != x
    && net[p].phase == Active && net[j].phase == Active && net[x].phase == Left
    && net[p].pred == Some(x) && net[j].pred == Some(p) && net[j].surrogate == None
    && |net[p].succs| >= 2 && net[p].succs[0] == x && net[p].succs[1] == p
  }

  lemma LateListMisleads(s: State, mid: State, p: Id, j: Id, x: Id, list: seq<Id>) returns (s': State)
    requires Reaches(false, s, mid) && Overtaken(mid, p, j, x, list)
    ensures Reaches(false, s, s') && Misled(s'.net, p, j, x) && 1 !in s'.calls && 2 !in s'.calls
  {
    CallInstalls(false, s, mid, 0, p, list);
    var s1 := WithCall(mid, 0, Installed(p, x)).(net := mid.net[p := mid.net[p].(succs := list)]);
    LeaveDeparts(false, s, s1, 0, 1, x, j, p);
    s' := AfterLeave(s1, 0, x, j, p);
    DepartedPointers(s1, 0, x, j, p);
  }

  lemma MisledServesAll(net: Network, p: Id, j: Id, x: Id, h: Id)
    requires Misled(net, p, j, x) && p != j && Between(p, h, j, true)
    ensures Open(Stabilized(net, p), p, h) && Open(Stabilized(net, p), j, h)
  {
    var list := net[p].succs[1..];
    assert Refreshed(net, p, net[p].succs) == Refreshed(net, p, list) == Some(MakeSuccList(p, net[p].succs));
    BetweenIsDistance(p, h, p);
  }

  lemma ListIsOvertaken(s: State, p: Id, j: Id, x: Id) returns (mid: State, list: seq<Id>)
    requires Created(s, p) && j in s.net && x in s.net && x != p && Between(p, j, x, false)
    ensures Reaches(true, s, mid) && Overtaken(mid, p, j, x, list)
  {
    CreatedIsLone(s, p);
    var s1 := SecondMember(s, s, p, x);
    CallStalls(s, s1, p, x);
    PairRefreshes(s1, p, x);
    list := PairList(s1, x);
    mid := ThirdMember(s, WithCall(s1, 0, Ready(p, list)), p, j, x);
  }

  lemma OvertakenListBreaksSafety(s: State, mid: State, p: Id, j: Id, x: Id, list: seq<Id>) returns (events: seq<Event>)
    requires Reaches(true, s, mid) && Overtaken(mid, p, j, x, list) && Between(p, j, x, false)
    ensures RunsRepaired(s, events, mid) && Inv(mid) && !Timely(mid, 0) && !Safe(DoProceed(mid, 0))
  {
    events := ReachedByRun(true, s, mid);
    ReachedIsSound(s, mid);
    OvertakenListDoesNotFit(mid, p, j, x, list);
    InstallSafeIff(mid, 0, p, list);
  }

  /** From every fresh ring: a stabilize call of `p` has read the pointers of its neighbour `x` and is
      delayed; `j` joins between them; the call writes its list after all; `x` leaves, copying its
      keys from repaired neighbours; and from then on `p` and `j` both serve every key of `j`. The
      run is sound up to the delayed write, and that write does not fit. */
  lemma LateListMakesTwoServers(s: State, p: Id, j: Id, x: Id, h: Id)
    returns (before: seq<Event>, mid: State, events: seq<Event>, s': State)
    requires Created(s, p) && j in s.net && x in s.net && x != p && Between(p, j, x, false) && Between(p, h, j, true)
    ensures RunsRepaired(s, before, mid) && Inv(mid) && 0 in mid.calls && mid.calls[0].Ready?
    ensures !Timely(mid, 0) && !Safe(DoProceed(mid, 0))
    ensures Runs(s, events, s') && p != j && Serving(s', 1, p, h) && Serving(s', 2, j, h)
  {
    var list;
    mid, list := ListIsOvertaken(s, p, j, x);
    before := OvertakenListBreaksSafety(s, mid, p, j, x, list);
    Lenient(s, mid);
    var s2 := LateListMisleads(s, mid, p, j, x, list);
    StabilizeRuns(false, s, s2, 1, p);
    MisledServesAll(s2.net, p, j, x, h);
    events, s' := BothServe(s, s2.(net := Stabilized(s2.net, p)), 1, 2, p, j, h);
  }

  // ---- a Notify that arrives too late ----------------------------------------------------------

  /** `p` has written its list and is about to notify `t`. */
  lemma NotifyStalls(s: State, mid: State, p: Id, t: Id) returns (s': State)
    requires Reaches(true, s, mid) && Pair(mid, p, t) && mid.calls == map[]
    ensures Reaches(true, s, s') && Pair(s', p, t) && s'.calls == map[0 := Notifying(p, t)]
    ensures s'.net.Keys == mid.net.Keys
  {
    CallStalls(s, mid, p, t);
    var list := PairList(mid, t);
    PairRefreshes(mid, p, t);
    var s1 := WithCall(mid, 0, Ready(p, list));
    ReachedIsSound(s, s1);
    RefreshFits(s1, 0, p, list);
    CallInstalls(true, s, s1, 0, p, list);
    var s2 := WithCall(s1, 0, Installed(p, t)).(net := mid.net[p := mid.net[p].(succs := list)]);
    ReadNext(true, s, s2, 0, Notifying(p, t));
    s' := WithCall(s2, 0, Notifying(p, t));
  }

  /** Meanwhile `x` has joined between the two, and `m` between `x` and `t`. */
  ghost predicate Crowded(s: State, p: Id, x: Id, m: Id, t: Id) {
    && s.ring == {p, x, m, t} && s.ops == map[] && s.calls == map[0 := Notifying(p, t)]
    && p in s.net && x in s.net && m in s.net && t in s.net && p != x && x != m && m != t
    && s.net[x].phase == Active && s.net[m].phase == Active && s.net[t].phase == Active
    && s.net[x].pred == Some(p) && s.net[m].pred == Some(x) && s.net[t].pred == Some(m)
    && s.net[x].surrogate == None && Heads(s.net, x, m) && Heads(s.net, m, t)
  }

  lemma FourthMember(s: State, mid: State, p: Id, x: Id, m: Id, t: Id) returns (s': State)
    requires Reaches(true, s, mid) && Trio(mid, p, x, t) && mid.calls == map[0 := Notifying(p, t)]
    requires m in mid.net && m !in mid.ring && Between(x, m, t, false)
    ensures Reaches(true, s, s') && Crowded(s', p, x, m, t)
  {
    JoinRuns(true, s, mid, 0, 1, m, t, x);
    s' := AfterJoin(mid, 0, m, t, x);
    JoinedPointers(mid, 0, m, t, x);
  }

  /** Once `m` has left, `t` will listen to anybody. */
  ghost predicate Orphaned(s: State, p: Id, x: Id, m: Id, t: Id) {
    && s.ring == {p, x, t} && s.calls == map[0 := Notifying(p, t)]
    && p in s.net && x in s.net && m in s.net && t in s.net
    && s.net[x].phase == Active && s.net[t].phase == Active && s.net[m].phase == Left
    && s.net[x].pred == Some(p) && s.net[x].surrogate == None && s.net[t].pred == Some(m)
  }

  lemma MiddleDeparts(s: State, mid: State, p: Id, x: Id, m: Id, t: Id) returns (s': State)
    requires Reaches(true, s, mid) && Crowded(mid, p, x, m, t) && p != m && p != t
    requires Between(x, m, t, false) && Between(p, x, t, false)
    ensures Reaches(true, s, s') && Orphaned(s', p, x, m, t)
  {
    BetweenIsDistance(x, m, t);
    BetweenIsDistance(p, x, t);
    assert IsSuccessor(mid.ring, m, t);
    LeaveDeparts(true, s, mid, 0, 1, m, x, t);
    s' := AfterLeave(mid, 0, m, x, t);
    DepartedPointers(mid, 0, m, x, t);
  }

  /** A Notify that finds the predecessor `q` of `t` gone decides for `x`. */
  lemma LateNotifyDecides(s: State, mid: State, x: Id, t: Id, q: Id)
    requires Reaches(true, s, mid) && 0 in mid.calls && mid.calls[0] == Notifying(x, t)
    requires Responds(mid.net, t) && mid.net[t].pred == Some(q) && q != x && !Pings(mid.net, q)
    ensures Reaches(true, s, WithCall(mid, 0, Decided(x, t, mid.net[t].surrogate, Some(q))))
  {
    var g := mid.net[t].surrogate;
    ReadNext(true, s, mid, 0, SawSurrogate(x, t, g));
    var s1 := WithCall(mid, 0, SawSurrogate(x, t, g));
    ReadNext(true, s, s1, 0, Probing(x, t, g, q));
    var s2 := WithCall(s1, 0, Probing(x, t, g, q));
    ReadNext(true, s, s2, 0, Decided(x, t, g, Some(q)));
    assert WithCall(s2, 0, Decided(x, t, g, Some(q))) == WithCall(mid, 0, Decided(x, t, g, Some(q)));
  }

  /** But `x` lies in between. */
  lemma LateNotifyDoesNotFit(s: State, p: Id, x: Id, t: Id)
    requires Inv(s) && x in s.ring && t in s.ring && p != t && Between(p, x, t, false) && t in s.net
    requires 0 in s.calls && s.calls[0].Decided? && s.calls[0].x == p && s.calls[0].t == t
    requires s.calls[0].surrogate == s.net[t].surrogate
    ensures !Timely(s, 0) && !Safe(DoProceed(s, 0))
  {
    BetweenIsDistance(p, x, t);
    assert !Markable(s, t, p);
    OtherMarkSafeIff(s, 0, p, t);
  }

  lemma LateNotifyReopens(s: State, p: Id, x: Id, m: Id, t: Id, h: Id)
    requires Orphaned(s, p, x, m, t) && p != m && p != t && x != t && Between(p, x, t, false) && Between(p, h, x, true)
    ensures var net := Notified(s.net, t, p); Open(net, x, h) && Open(net, t, h)
  {
    BetweenIsDistance(p, x, t);
    BetweenIsDistance(p, h, x);
    BetweenIsDistance(p, h, t);
    BetweenIsDistance(t, h, p);
  }

  /** From every fresh ring: `p` has listed `t` first and its Notify is delayed; `x` joins between them, `m`
      joins behind `x` and leaves again; the Notify arrives, finds the predecessor of `t` gone and
      replaces it by `p`; and from then on `x` and `t` both serve every key of `x`. Every list was
      written in time, and the run is sound up to the first write of the Notify. */
  lemma LateNotifyMakesTwoServers(s: State, p: Id, x: Id, m: Id, t: Id, h: Id)
    returns (before: seq<Event>, mid: State, events: seq<Event>, s': State)
    requires Created(s, p) && x in s.net && m in s.net && t in s.net && t != p && m != p
    requires Between(p, x, t, false) && Between(x, m, t, false) && Between(p, h, x, true)
    ensures RunsRepaired(s, before, mid) && Inv(mid) && 0 in mid.calls && mid.calls[0].Decided?
    ensures !Timely(mid, 0) && !Safe(DoProceed(mid, 0))
    ensures Runs(s, events, s') && x != t && Serving(s', 1, x, h) && Serving(s', 2, t, h)
  {
    var s1 := LateNotifyIsDue(s, p, x, m, t);
    LateNotifyDecides(s, s1, p, t, m);
    mid := WithCall(s1, 0, Decided(p, t, s1.net[t].surrogate, Some(m)));
    before := ReachedByRun(true, s, mid);
    ReachedIsSound(s, mid);
    LateNotifyDoesNotFit(mid, p, x, t);
    Lenient(s, mid);
    CallWrites(false, s, mid, 0, p, t);
    LateNotifyReopens(s1, p, x, m, t, h);
    events, s' := BothServe(s, Ended(mid, 0).(net := Notified(mid.net, t, p)), 1, 2, x, t, h);
  }

  lemma LateNotifyIsDue(s: State, p: Id, x: Id, m: Id, t: Id) returns (s': State)
    requires Created(s, p) && x in s.net && m in s.net && t in s.net && t != p && m != p
    requires Between(p, x, t, false) && Between(x, m, t, false)
    ensures Reaches(true, s, s') && Orphaned(s', p, x, m, t) && x != t
  {
    BetweenIsDistance(p, x, t);
    BetweenIsDistance(x, m, t);
    var s3 := NotifyIsOvertaken(s, p, x, t);
    var s4 := FourthMember(s, s3, p, x, m, t);
    s' := MiddleDeparts(s, s4, p, x, m, t);
  }

  lemma NotifyIsOvertaken(s: State, p: Id, x: Id, t: Id) returns (s': State)
    requires Created(s, p) && x in s.net && t in s.net && t != p && Between(p, x, t, false)
    ensures Reaches(true, s, s') && Trio(s', p, x, t) && s'.calls == map[0 := Notifying(p, t)]
    ensures s'.net.Keys == s.net.Keys
  {
    CreatedIsLone(s, p);
    var s1 := SecondMember(s, s, p, t);
    var s2 := NotifyStalls(s, s1, p, t);
    s' := ThirdMember(s, s2, p, x, t);
  }

  // ---- a node's own Notify that arrives too late -------------------------------------------------

  /** Alone, `t` has written its list and is about to notify itself. */
  lemma SelfNotifyStalls(s: State, t: Id) returns (s': State)
    requires Created(s, t)
    ensures Reaches(true, s, s') && Lone(s', t) && s'.calls == map[0 := Notifying(t, t)] && s'.net.Keys == s.net.Keys
  {
    CreatedIsLone(s, t);
    var list := MakeSuccList(t, s.net[t].succs);
    BetweenIsDistance(t, t, t);
    assert Refreshed(s.net, t, s.net[t].succs) == Some(list);
    ReachNext(true, s, s, BeginStabilize(0, t));
    var s0 := DoBegin(s, 0, Began(t, s.net[t].succs));
    CallReads(true, s, s0, 0, t, s.net[t].succs, list);
    var s1 := WithCall(s0, 0, Ready(t, list));
    ReachedIsSound(s, s1);
    RefreshFits(s1, 0, t, list);
    CallInstalls(true, s, s1, 0, t, list);
    var s2 := WithCall(s1, 0, Installed(t, t)).(net := s.net[t := s.net[t].(succs := list)]);
    ReadNext(true, s, s2, 0, Notifying(t, t));
    s' := WithCall(s2, 0, Notifying(t, t));
  }

  /** Meanwhile `j` has joined, then `k` in front of it, and `j` has left again. */
  ghost predicate Deserted(s: State, t: Id, k: Id, j: Id) {
    && s.ring == {t, k} && s.calls == map[0 := Notifying(t, t)]
    && t in s.net && k in s.net && j in s.net && t != k && t != j
    && s.net[t].phase == Active && s.net[k].phase == Active && s.net[j].phase == Left
    && s.net[t].pred == Some(j) && s.net[k].pred == Some(t) && s.net[k].surrogate == None
  }

  lemma SelfNotifyIsOvertaken(s: State, t: Id, k: Id, j: Id) returns (s': State)
    requires Created(s, t) && k in s.net && j in s.net && j != t && Between(t, k, j, false)
    ensures Reaches(true, s, s') && Trio(s', t, k, j) && s'.calls == map[0 := Notifying(t, t)]
  {
    var s1 := SelfNotifyStalls(s, t);
    var s2 := SecondMember(s, s1, t, j);
    s' := ThirdMember(s, s2, t, k, j);
  }

  lemma NeighbourDeserts(s: State, mid: State, t: Id, k: Id, j: Id) returns (s': State)
    requires Reaches(true, s, mid) && Trio(mid, t, k, j) && mid.calls == map[0 := Notifying(t, t)]
    requires Between(t, k, j, false)
    ensures Reaches(true, s, s') && Deserted(s', t, k, j) && s'.ops == map[]
  {
    BetweenIsDistance(t, k, j);
    assert IsSuccessor(mid.ring, j, t);
    LeaveDeparts(true, s, mid, 0, 1, j, k, t);
    s' := AfterLeave(mid, 0, j, k, t);
    DepartedPointers(mid, 0, j, k, t);
  }

  /** The Notify reads that `j` is gone and clears the surrogate, which no answer relies on yet. */
  lemma SelfNotifyClears(s: State, mid: State, t: Id, k: Id, j: Id) returns (s': State)
    requires Reaches(true, s, mid) && Deserted(mid, t, k, j) && mid.ops == map[]
    ensures Reaches(true, s, s') && s'.calls == map[0 := Marked(t, t, Some(j))] && s'.ring == mid.ring
    ensures s'.net == mid.net[t := mid.net[t].(surrogate := None)]
  {
    LateNotifyDecides(s, mid, t, t, j);
    var s1 := WithCall(mid, 0, Decided(t, t, mid.net[t].surrogate, Some(j)));
    assert Clearable(s1, t);
    MarkNext(true, s, s1, 0, t, t);
    s' := WithCall(s1, 0, Marked(t, t, Some(j))).(net := mid.net[t := mid.net[t].(surrogate := None)]);
  }

  /** Taking itself for its predecessor passes over `k`. */
  lemma LateSelfNotifyDoesNotFit(s: State, t: Id, k: Id, j: Id)
    requires Inv(s) && t in s.ring && k in s.ring && k != t && t in s.net && s.net[t].pred == Some(j)
    requires 0 in s.calls && s.calls[0] == Marked(t, t, Some(j))
    ensures !Timely(s, 0) && !Safe(DoProceed(s, 0))
  {
    assert !Clear(s.ring, t, t) by { assert Dist(t, k) < Dist(t, t); }
    AdoptSafeIff(s, 0, t, t);
  }

  /** From every fresh ring: the Notify of the only member `t` to itself is delayed; `j` joins, `k`
      joins in front of `j`, and `j` leaves again; the Notify finds the predecessor gone, clears the
      surrogate and makes `t` its own predecessor; and from then on `t` and `k` both serve every key
      of `k`. The run is sound up to that last write. */
  lemma LateSelfNotifyMakesTwoServers(s: State, t: Id, k: Id, j: Id, h: Id)
    returns (before: seq<Event>, mid: State, events: seq<Event>, s': State)
    requires Created(s, t) && k in s.net && j in s.net && j != t && Between(t, k, j, false) && Between(t, h, k, true)
    ensures RunsRepaired(s, before, mid) && Inv(mid) && 0 in mid.calls && mid.calls[0].Marked?
    ensures !Timely(mid, 0) && !Safe(DoProceed(mid, 0))
    ensures Runs(s, events, s') && t != k && Serving(s', 1, t, h) && Serving(s', 2, k, h)
  {
    var s1 := SelfNotifyIsOvertaken(s, t, k, j);
    var s2 := NeighbourDeserts(s, s1, t, k, j);
    mid := SelfNotifyClears(s, s2, t, k, j);
    before := ReachedByRun(true, s, mid);
    ReachedIsSound(s, mid);
    LateSelfNotifyDoesNotFit(mid, t, k, j);
    Lenient(s, mid);
    CallAdopts(false, s, mid, 0, t, t);
    BetweenIsDistance(t, h, t);
    events, s' := BothServe(s, Ended(mid, 0).(net := mid.net[t := mid.net[t].(pred := Some(t))]), 1, 2, t, k, h);
  }
}

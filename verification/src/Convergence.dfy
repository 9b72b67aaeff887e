/** Stabilization without churn: every interleaving of the nodes' stabilize calls, one
    remote read or locked write at a time. */
module Convergence {
  import opened Identifiers
  import opened Nodes
  import opened SuccessorLists
  import opened Stabilization
  import opened Calls

  /** Every node runs at most one stabilize call at a time, as the periodic task does. */
  datatype State = State(net: Network, tasks: map<Id, Option<Call>>)

  /** A fixed set of live nodes whose pointers name live nodes. */
  ghost predicate Valid(s: State, ring: set<Id>) {
    && s.net.Keys == ring && s.tasks.Keys == ring
    && forall n {:trigger NodeValid(s, ring, n)} :: n in ring ==> NodeValid(s, ring, n)
  }

  ghost predicate NodeValid(s: State, ring: set<Id>, n: Id) {
    && n in s.net && n in s.tasks
    && CheckState(s.net[n].phase, true) == None
    && s.net[n].succs != []
    && (forall x :: x in s.net[n].succs ==> x in ring)
    && (s.net[n].pred.Some? ==> s.net[n].pred.value in ring)
    && (s.tasks[n].Some? ==> CallValid(s.tasks[n].value, ring, n, s.net[n].succs[0]))
  }

  /** What a call under way may still rely on: only its own node writes that node's list. */
  ghost predicate CallValid(call: Call, ring: set<Id>, n: Id, head: Id) {
    && call.x == n
    && match call
       case Began(_, rest) => rest != [] && rest[0] == head
       case SawPred(_, rest, nearer) => rest != [] && rest[0] == head && (nearer.Some? ==> nearer.value in ring)
       case SawList(_, list, closer) => closer in ring && Between(n, closer, head, false)
       case Ready(_, list) =>
         && list != [] && (forall x :: x in list ==> x in ring)
         && (list[0] == head || Between(n, list[0], head, false))
       case Installed(_, t) => t in ring
       case Notifying(_, t) => t in ring
       case SawSurrogate(_, t, _) => t in ring
       case Probing(_, t, _, q) => t in ring && q in ring
       case Decided(_, t, _, p) => t in ring && Improves(p, n, t)
       case Marked(_, t, p) => t in ring && Improves(p, n, t)
       case _ => false
  }

  /** Replacing predecessor `p` of `t` by `n` is an improvement. */
  predicate Improves(p: Option<Id>, n: Id, t: Id) {
    p.None? || Between(p.value, n, t, false)
  }

  /** The next action of the call running at `n`; an idle node starts one. */
  function Next(s: State, n: Id): State
    requires n in s.net && n in s.tasks
  {
    match s.tasks[n]
    case None => s.(tasks := s.tasks[n := Some(Began(n, s.net[n].succs))])
    case Some(call) => State(Writes(s.net, call), s.tasks[n := Goes(s.net, call)])
  }

  function Run(s: State, schedule: seq<Id>): (s': State)
    requires s.net.Keys == s.tasks.Keys && forall n :: n in schedule ==> n in s.net
    ensures s'.net.Keys == s.net.Keys && s'.tasks.Keys == s.tasks.Keys
    decreases |schedule|
  {
    if schedule == [] then s else
      assert forall n :: n in schedule[1..] ==> n in schedule;
      Run(Next(s, schedule[0]), schedule[1..])
  }

  // ---- the potential --------------------------------------------------------

  /** Immediate neighbours, the only pointers the ring's shape depends on. */
  datatype Pointers = Pointers(succ: Option<Id>, pred: Option<Id>)

  function PointersOf(node: Node): Pointers {
    Pointers(if node.succs == [] then None else Some(node.succs[0]), node.pred)
  }

  function AllPointers(net: Network): map<Id, Pointers> {
    map n | n in net :: PointersOf(net[n])
  }

  /** Distance to the successor plus distance from the predecessor, an unknown one being worst. */
  function Weight(n: Id, p: Pointers): (w: int)
    ensures w >= 0
  {
    (if p.succ.Some? then Dist(n, p.succ.value) else 0) +
    (if p.pred.Some? then Dist(p.pred.value, n) else SPACE + 1)
  }

  ghost function Potential(ps: map<Id, Pointers>): (w: int)
    ensures w >= 0
  {
    if ps == map[] then 0
    else
      var n :| n in ps;
      Weight(n, ps[n]) + Potential(ps - {n})
  }

  lemma {:induction false} PotentialPicks(ps: map<Id, Pointers>, n: Id)
    requires n in ps
    ensures Potential(ps) == Weight(n, ps[n]) + Potential(ps - {n})
    decreases |ps|
  {
    var m :| m in ps && Potential(ps) == Weight(m, ps[m]) + Potential(ps - {m});
    if m != n {
      PotentialPicks(ps - {m}, n);
      PotentialPicks(ps - {n}, m);
      assert ps - {m} - {n} == ps - {n} - {m};
    }
  }

  lemma PotentialUpdates(ps: map<Id, Pointers>, n: Id, p: Pointers)
    requires n in ps
    ensures Potential(ps[n := p]) == Potential(ps) - Weight(n, ps[n]) + Weight(n, p)
  {
    PotentialPicks(ps, n);
    PotentialPicks(ps[n := p], n);
    assert ps[n := p] - {n} == ps - {n};
  }

  /** The call running at `n` keeps its promises about what it will write. */
  lemma CallKeepsValid(s: State, ring: set<Id>, n: Id)
    requires Valid(s, ring) && n in ring && s.tasks[n].Some?
    ensures var succs := Writes(s.net, s.tasks[n].value)[n].succs; succs != [] && forall x :: x in succs ==> x in ring
    ensures var next := Goes(s.net, s.tasks[n].value);
            next.Some? ==> CallValid(next.value, ring, n, Writes(s.net, s.tasks[n].value)[n].succs[0])
  {
    assert NodeValid(s, ring, n);
    match s.tasks[n].value
    case Began(_, rest) => assert NodeValid(s, ring, rest[0]);
    case SawPred(_, rest, nearer) =>
      assert NodeValid(s, ring, rest[0]);
      MakeSuccListDistinct(rest[0], s.net[rest[0]].succs);
    case SawList(_, _, closer) =>
      assert NodeValid(s, ring, closer);
      MakeSuccListDistinct(closer, s.net[closer].succs);
    case SawSurrogate(_, t, g) => assert NodeValid(s, ring, t);
    case Probing(_, t, g, q) => assert NodeValid(s, ring, q);
    case _ =>
  }

  lemma StepKeepsTask(s: State, ring: set<Id>, n: Id)
    requires Valid(s, ring) && n in ring
    ensures NodeValid(Next(s, n), ring, n)
  {
    assert NodeValid(s, ring, n);
    if s.tasks[n].Some? { CallKeepsValid(s, ring, n); }
  }

  lemma StepKeepsValid(s: State, ring: set<Id>, n: Id)
    requires Valid(s, ring) && n in ring
    ensures Valid(Next(s, n), ring)
  {
    assert NodeValid(s, ring, n);
    StepKeepsTask(s, ring, n);
    forall m | m in ring ensures NodeValid(Next(s, n), ring, m) {
      assert NodeValid(s, ring, m);
    }
  }

  lemma InstallDescends(s: State, ring: set<Id>, n: Id, list: seq<Id>)
    requires Valid(s, ring) && n in ring && n in s.net && n in s.tasks && s.tasks[n] == Some(Ready(n, list))
    ensures var before, after := AllPointers(s.net), AllPointers(Next(s, n).net);
            after == before || Potential(after) < Potential(before)
  {
    assert NodeValid(s, ring, n);
    var before, after := AllPointers(s.net), AllPointers(Next(s, n).net);
    assert after == before[n := before[n].(succ := Some(list[0]))];
    PotentialUpdates(before, n, after[n]);
    BetweenIsDistance(n, list[0], s.net[n].succs[0]);
  }

  lemma AdoptDescends(s: State, ring: set<Id>, n: Id, t: Id, pred: Option<Id>)
    requires Valid(s, ring) && n in ring && n in s.net && n in s.tasks && s.tasks[n] == Some(Marked(n, t, pred))
    ensures var before, after := AllPointers(s.net), AllPointers(Next(s, n).net);
            after == before || Potential(after) < Potential(before)
  {
    assert NodeValid(s, ring, n) && NodeValid(s, ring, t);
    var before, after := AllPointers(s.net), AllPointers(Next(s, n).net);
    assert after == before[t := after[t]];
    PotentialUpdates(before, t, after[t]);
    if pred.Some? { PredecessorImproves(pred.value, n, t); }
  }

  /** A step either leaves every immediate pointer alone or strictly lowers the potential. */
  lemma StepDescends(s: State, ring: set<Id>, n: Id)
    requires Valid(s, ring) && n in ring
    ensures n in s.net && n in s.tasks
    ensures var before, after := AllPointers(s.net), AllPointers(Next(s, n).net);
            after == before || Potential(after) < Potential(before)
  {
    assert NodeValid(s, ring, n);
    if s.tasks[n].Some? && s.tasks[n].value.Ready? {
      InstallDescends(s, ring, n, s.tasks[n].value.list);
    } else if s.tasks[n].Some? && s.tasks[n].value.Marked? {
      AdoptDescends(s, ring, n, s.tasks[n].value.t, s.tasks[n].value.pred);
    } else {
      assert AllPointers(Next(s, n).net) == AllPointers(s.net);
    }
  }

  lemma PredecessorImproves(p: Id, n: Id, t: Id)
    requires Between(p, n, t, false)
    ensures Dist(n, t) < Dist(p, t)
  {
    BetweenIsDistance(p, n, t);
    DistSplits(p, n, t);
  }

  /** How many actions of a schedule change some immediate pointer. */
  function Changes(s: State, schedule: seq<Id>): nat
    requires s.net.Keys == s.tasks.Keys && forall n :: n in schedule ==> n in s.net
    decreases |schedule|
  {
    if schedule == [] then 0 else
      assert forall n :: n in schedule[1..] ==> n in schedule;
      (if AllPointers(Next(s, schedule[0]).net) == AllPointers(s.net) then 0 else 1)
      + Changes(Next(s, schedule[0]), schedule[1..])
  }

  /** In every schedule the potential pays for each change, so only finitely many happen. */
  lemma {:induction false} ChangesAreBounded(s: State, ring: set<Id>, schedule: seq<Id>)
    requires Valid(s, ring) && forall n :: n in schedule ==> n in ring
    ensures Valid(Run(s, schedule), ring)
    ensures Changes(s, schedule) + Potential(AllPointers(Run(s, schedule).net)) <= Potential(AllPointers(s.net))
    decreases |schedule|
  {
    if schedule != [] {
      StepKeepsValid(s, ring, schedule[0]);
      StepDescends(s, ring, schedule[0]);
      assert forall n :: n in schedule[1..] ==> n in schedule;
      ChangesAreBounded(Next(s, schedule[0]), ring, schedule[1..]);
    }
  }

  // ---- fixed points -----------------------------------------------------------

  ghost predicate AllIdle(s: State) {
    forall n :: n in s.tasks ==> s.tasks[n] == None
  }

  /** No schedule whatsoever moves an immediate pointer any more. */
  ghost predicate Quiet(s: State, ring: set<Id>) {
    && s.net.Keys == s.tasks.Keys == ring
    && forall schedule: seq<Id> :: (forall n :: n in schedule ==> n in ring) ==>
         AllPointers(Run(s, schedule).net) == AllPointers(s.net)
  }

  /** Every node is the predecessor of its own successor. */
  ghost predicate Paired(net: Network) {
    forall n {:trigger PairedAt(net, n)} :: n in net ==> PairedAt(net, n)
  }

  ghost predicate PairedAt(net: Network, n: Id) {
    n in net && net[n].succs != [] && net[n].succs[0] in net && net[net[n].succs[0]].pred == Some(n)
  }

  /** In a paired ring every call under way has seen nothing it would change. */
  ghost predicate Harmless(s: State, n: Id) {
    && n in s.net && n in s.tasks && s.net[n].succs != [] && CheckState(s.net[n].phase, true) == None
    && (s.tasks[n].Some? ==> CallHarmless(s.tasks[n].value, n, s.net[n].succs[0]))
  }

  predicate CallHarmless(call: Call, n: Id, head: Id) {
    && call.x == n
    && match call
       case Began(_, rest) => rest != [] && rest[0] == head
       case SawPred(_, rest, nearer) => rest != [] && rest[0] == head && nearer == Some(n)
       case Ready(_, list) => list != [] && list[0] == head
       case Installed(_, t) => t == head
       case Notifying(_, t) => t == head
       case SawSurrogate(_, t, _) => t == head
       case _ => false
  }

  ghost predicate Settled(s: State) {
    && s.net.Keys == s.tasks.Keys
    && Paired(s.net)
    && forall n {:trigger Harmless(s, n)} :: n in s.net ==> Harmless(s, n)
  }

  /** Refreshing a list without changing its head moves no immediate pointer. */
  lemma SameHead(net: Network, n: Id, list: seq<Id>)
    requires Paired(net) && n in net && list != [] && net[n].succs != [] && list[0] == net[n].succs[0]
    ensures var net' := net[n := net[n].(succs := list)];
            Paired(net') && AllPointers(net') == AllPointers(net)
  {
    var net' := net[n := net[n].(succs := list)];
    forall m | m in net' ensures PairedAt(net', m) { assert PairedAt(net, m); }
  }

  lemma SettledStep(s: State, n: Id)
    requires Settled(s) && n in s.net
    ensures Settled(Next(s, n)) && AllPointers(Next(s, n).net) == AllPointers(s.net)
  {
    assert Harmless(s, n) && PairedAt(s.net, n) && Harmless(s, s.net[n].succs[0]);
    BetweenIsDistance(n, n, s.net[n].succs[0]);
    var s' := Next(s, n);
    if s.tasks[n].Some? && s.tasks[n].value.Ready? {
      SameHead(s.net, n, s.tasks[n].value.list);
    } else {
      assert s'.net == s.net;
    }
    assert Harmless(s', n);
    forall m | m in s'.net ensures Harmless(s', m) { assert Harmless(s, m); }
  }

  lemma {:induction false} SettledRun(s: State, schedule: seq<Id>)
    requires Settled(s) && forall n :: n in schedule ==> n in s.net
    ensures AllPointers(Run(s, schedule).net) == AllPointers(s.net)
    decreases |schedule|
  {
    if schedule != [] {
      SettledStep(s, schedule[0]);
      assert forall n :: n in schedule[1..] ==> n in schedule;
      SettledRun(Next(s, schedule[0]), schedule[1..]);
    }
  }

  lemma {:induction false} RunAppends(s: State, schedule: seq<Id>, n: Id)
    requires s.net.Keys == s.tasks.Keys && n in s.net && forall m :: m in schedule ==> m in s.net
    ensures Run(s, schedule + [n]) == Next(Run(s, schedule), n)
    decreases |schedule|
  {
    if schedule == [] {
      assert schedule + [n] == [n] && [n][1..] == [];
    } else {
      assert (schedule + [n])[1..] == schedule[1..] + [n];
      RunAppends(Next(s, schedule[0]), schedule[1..], n);
    }
  }

  function WithTask(s: State, n: Id, call: Call): State {
    s.(tasks := s.tasks[n := Some(call)])
  }

  ghost predicate Moves(states: seq<State>, n: Id, i: nat)
    requires i + 1 < |states|
  {
    n in states[i].net && n in states[i].tasks && states[i + 1] == Next(states[i], n)
  }

  ghost predicate SoloTrace(s: State, states: seq<State>, n: Id, s': State) {
    && states != [] && states[0] == s && states[|states| - 1] == s'
    && forall i {:trigger Moves(states, n, i)} :: 0 <= i < |states| - 1 ==> Moves(states, n, i)
  }

  /** Actions of `n` alone lead from `s` to `s'`. */
  ghost predicate Alone(s: State, n: Id, s': State) {
    exists states :: SoloTrace(s, states, n, s')
  }

  lemma AloneNext(s: State, n: Id, mid: State)
    requires Alone(s, n, mid) && n in mid.net && n in mid.tasks
    ensures Alone(s, n, Next(mid, n))
  {
    var states :| SoloTrace(s, states, n, mid);
    var longer := states + [Next(mid, n)];
    forall i | 0 <= i < |longer| - 1 ensures Moves(longer, n, i) {
      if i < |states| - 1 { assert Moves(states, n, i); }
    }
    assert SoloTrace(s, longer, n, Next(mid, n));
  }

  lemma {:induction false} SoloTraceRuns(s: State, states: seq<State>, n: Id, s': State) returns (schedule: seq<Id>)
    requires s.net.Keys == s.tasks.Keys && n in s.net && SoloTrace(s, states, n, s')
    ensures (forall m :: m in schedule ==> m == n) && Run(s, schedule) == s'
    decreases |states|
  {
    if |states| == 1 {
      schedule := [];
    } else {
      var front := states[..|states| - 1];
      forall i | 0 <= i < |front| - 1 ensures Moves(front, n, i) { assert Moves(states, n, i); }
      var shorter := SoloTraceRuns(s, front, n, states[|states| - 2]);
      assert Moves(states, n, |states| - 2);
      RunAppends(s, shorter, n);
      schedule := shorter + [n];
    }
  }

  /** An action that only reads. */
  lemma AloneReads(s: State, n: Id, mid: State, call: Call, next: Call)
    requires n in mid.net && Alone(s, n, WithTask(mid, n, call))
    requires Writes(mid.net, call) == mid.net && Goes(mid.net, call) == Some(next)
    ensures Alone(s, n, WithTask(mid, n, next))
  {
    AloneNext(s, n, WithTask(mid, n, call));
    assert Next(WithTask(mid, n, call), n) == WithTask(mid, n, next);
  }

  /** The reads of a call run alone gather exactly the list a whole call settles on. */
  lemma SoloReads(s: State, ring: set<Id>, n: Id) returns (list: seq<Id>)
    requires Valid(s, ring) && AllIdle(s) && n in ring
    ensures n in s.net && Refreshed(s.net, n, s.net[n].succs) == Some(list) && list != [] && list[0] in ring
    ensures Alone(s, n, WithTask(s, n, Ready(n, list)))
  {
    assert NodeValid(s, ring, n);
    var net, rest := s.net, s.net[n].succs;
    assert NodeValid(s, ring, rest[0]);
    var nearer := net[rest[0]].pred;
    if nearer.Some? { assert NodeValid(s, ring, nearer.value); }
    list := Refreshed(net, n, rest).value;
    assert SoloTrace(s, [s], n, s);
    AloneNext(s, n, s);
    assert Next(s, n) == WithTask(s, n, Began(n, rest));
    AloneReads(s, n, s, Began(n, rest), SawPred(n, rest, nearer));
    var next := Goes(net, SawPred(n, rest, nearer)).value;
    AloneReads(s, n, s, SawPred(n, rest, nearer), next);
    if next.SawList? { AloneReads(s, n, s, next, Ready(n, list)); }
  }

  /** The writes of a call run alone: install the list, then notify its head. */
  lemma SoloInstall(s: State, n: Id, list: seq<Id>) returns (s': State)
    requires n in s.net && list != [] && Alone(s, n, WithTask(s, n, Ready(n, list)))
    requires Pings(s.net, n) && Responds(s.net, list[0])
    ensures s'.net == s.net[n := s.net[n].(succs := list)]
    ensures Alone(s, n, WithTask(s', n, SawSurrogate(n, list[0], s'.net[list[0]].surrogate)))
  {
    s' := s.(net := s.net[n := s.net[n].(succs := list)]);
    AloneNext(s, n, WithTask(s, n, Ready(n, list)));
    assert Next(WithTask(s, n, Ready(n, list)), n) == WithTask(s', n, Installed(n, list[0]));
    AloneReads(s, n, s', Installed(n, list[0]), Notifying(n, list[0]));
    AloneReads(s, n, s', Notifying(n, list[0]), SawSurrogate(n, list[0], s'.net[list[0]].surrogate));
  }

  /** The last two actions of a Notify that is accepted. */
  lemma SoloWrites(s: State, mid: State, n: Id, t: Id) returns (s': State)
    requires n in mid.net && Responds(mid.net, t) && Candidate(mid.net, t, n).Some?
    requires Alone(s, n, WithTask(mid, n, Decided(n, t, mid.net[t].surrogate, mid.net[t].pred)))
    ensures Alone(s, n, s') && s'.net == Notified(mid.net, t, n)
  {
    var s0 := WithTask(mid, n, Decided(n, t, mid.net[t].surrogate, mid.net[t].pred));
    AloneNext(s, n, s0);
    var s1 := Next(s0, n);
    assert s1.tasks[n] == Some(Marked(n, t, mid.net[t].pred));
    AloneNext(s, n, s1);
    s' := Next(s1, n);
    assert s'.net == Notified(mid.net, t, n);
  }

  lemma SoloNotify(s: State, mid: State, n: Id, t: Id) returns (s': State)
    requires n in mid.net && Responds(mid.net, t)
    requires Alone(s, n, WithTask(mid, n, SawSurrogate(n, t, mid.net[t].surrogate)))
    ensures Alone(s, n, s') && s'.net == Notified(mid.net, t, n)
  {
    var g, p := mid.net[t].surrogate, mid.net[t].pred;
    if Candidate(mid.net, t, n).None? {
      s' := WithTask(mid, n, SawSurrogate(n, t, g));
    } else {
      if p.None? {
        AloneReads(s, n, mid, SawSurrogate(n, t, g), Decided(n, t, g, p));
      } else {
        AloneReads(s, n, mid, SawSurrogate(n, t, g), Probing(n, t, g, p.value));
        AloneReads(s, n, mid, Probing(n, t, g, p.value), Decided(n, t, g, p));
      }
      s' := SoloWrites(s, mid, n, t);
    }
  }

  /** Run alone from idle, a call does what the whole call is defined to do. */
  lemma SoloCall(s: State, ring: set<Id>, n: Id) returns (schedule: seq<Id>)
    requires Valid(s, ring) && AllIdle(s) && n in ring
    ensures forall m :: m in schedule ==> m == n
    ensures n in s.net && Run(s, schedule).net == Stabilized(s.net, n)
  {
    var list := SoloReads(s, ring, n);
    assert NodeValid(s, ring, n) && NodeValid(s, ring, list[0]);
    var mid := SoloInstall(s, n, list);
    var s' := SoloNotify(s, mid, n, list[0]);
    var states :| SoloTrace(s, states, n, s');
    schedule := SoloTraceRuns(s, states, n, s');
  }

  /** A node whose whole call would change nothing is paired with its successor. */
  lemma UnmovedIsPaired(net: Network, n: Id)
    requires n in net && net[n].succs != [] && net[n].succs[0] in net
    requires forall m :: m in net ==> CheckState(net[m].phase, true) == None
    requires var p := net[net[n].succs[0]].pred; p.Some? ==> p.value in net
    requires AllPointers(Stabilized(net, n)) == AllPointers(net)
    ensures PairedAt(net, n)
  {
    var head := net[n].succs[0];
    var list := Refreshed(net, n, net[n].succs).value;
    var moved := Stabilized(net, n);
    assert PointersOf(moved[n]) == AllPointers(moved)[n];
    assert PointersOf(moved[head]) == AllPointers(moved)[head];
    if net[head].pred.Some? && net[head].pred.value != n {
      var p := net[head].pred.value;
      BetweenIsDistance(n, p, head);
      BetweenIsDistance(p, n, head);
      if n != head && p != head { DistCycles(n, p, head); }
    }
  }

  /** From idle, the ring is at rest exactly when predecessor and successor pointers match up. */
  lemma QuietIffPaired(s: State, ring: set<Id>)
    requires Valid(s, ring) && AllIdle(s)
    ensures Quiet(s, ring) <==> Paired(s.net)
  {
    if Paired(s.net) {
      forall n | n in s.net ensures Harmless(s, n) { assert NodeValid(s, ring, n); }
      forall schedule: seq<Id> | forall n :: n in schedule ==> n in ring
        ensures AllPointers(Run(s, schedule).net) == AllPointers(s.net)
      {
        SettledRun(s, schedule);
      }
    }
    if Quiet(s, ring) {
      forall n | n in s.net ensures PairedAt(s.net, n) {
        assert NodeValid(s, ring, n);
        var schedule := SoloCall(s, ring, n);
        assert AllPointers(Run(s, schedule).net) == AllPointers(s.net);
        var head := s.net[n].succs[0];
        assert NodeValid(s, ring, head);
        forall m | m in s.net ensures CheckState(s.net[m].phase, true) == None { assert NodeValid(s, ring, m); }
        UnmovedIsPaired(s.net, n);
      }
    }
  }
}

/** How low stabilization can push the potential, and when that means the ring is right. */
module TrueRing {
  import opened Identifiers
  import opened RingOrder
  import opened Nodes
  import opened Convergence
  import RingSafety

  /** Both immediate pointers name the true neighbours. */
  ghost predicate ExactPointers(ring: set<Id>, n: Id, p: Pointers) {
    && p.succ.Some? && IsSuccessor(ring, n, p.succ.value)
    && p.pred.Some? && IsPredecessor(ring, p.pred.value, n)
  }

  ghost predicate AllExact(ring: set<Id>, ps: map<Id, Pointers>) {
    ps.Keys == ring && forall n {:trigger ExactPointers(ring, n, ps[n])} :: n in ring ==> ExactPointers(ring, n, ps[n])
  }

  /** The pointers left when `m` is cut out between its neighbours. */
  function CutOut(ps: map<Id, Pointers>, m: Id, p: Id, x: Id): map<Id, Pointers>
    requires m in ps && p in ps && x in ps && p != m && x != m
  {
    var skipped := (ps - {m})[p := Pointers(Some(x), ps[p].pred)];
    skipped[x := Pointers(skipped[x].succ, Some(p))]
  }

  lemma NeighboursPointBack(ring: set<Id>, ps: map<Id, Pointers>, m: Id, p: Id, x: Id)
    requires AllExact(ring, ps) && m in ring && ps[m] == Pointers(Some(x), Some(p))
    ensures p in ring && x in ring && IsSuccessor(ring, p, m) && IsSuccessor(ring, m, x)
    ensures ps[p].succ == Some(m) && ps[x].pred == Some(m)
  {
    assert ExactPointers(ring, m, ps[m]);
    assert ExactPointers(ring, p, ps[p]) && ExactPointers(ring, x, ps[x]);
    NeighboursAgree(ring, p, m);
    NeighboursAgree(ring, m, x);
    SuccessorUnique(ring, p, m, ps[p].succ.value);
    PredecessorUnique(ring, x, m, ps[x].pred.value);
  }

  /** Elsewhere the pointers stay right without `m`. */
  lemma ElsewhereStaysExact(ring: set<Id>, m: Id, p: Id, x: Id, n: Id, here: Pointers)
    requires m in ring && p in ring && x in ring && IsSuccessor(ring, p, m) && IsSuccessor(ring, m, x)
    requires n in ring && n != m && ExactPointers(ring, n, here)
    ensures n != p ==> IsSuccessor(ring - {m}, n, here.succ.value)
    ensures n != x ==> IsPredecessor(ring - {m}, here.pred.value, n)
  {
  }

  lemma CutOutIsExact(ring: set<Id>, ps: map<Id, Pointers>, m: Id, p: Id, x: Id)
    requires AllExact(ring, ps) && m in ring && p in ring && x in ring && p != m && x != m
    requires IsSuccessor(ring, p, m) && IsSuccessor(ring, m, x)
    ensures AllExact(ring - {m}, CutOut(ps, m, p, x)) && Dist(p, x) == Dist(p, m) + Dist(m, x)
  {
    RingSafety.LeaveMergesArc(ring, p, m, x);
    DistSplits(p, m, x);
    NeighboursAgree(ring - {m}, p, x);
    var cut := CutOut(ps, m, p, x);
    assert cut.Keys == ring - {m};
    forall n | n in ring - {m} ensures ExactPointers(ring - {m}, n, cut[n]) {
      assert ExactPointers(ring, n, ps[n]);
      ElsewhereStaysExact(ring, m, p, x, n, ps[n]);
    }
  }

  lemma CutOutKeepsPotential(ps: map<Id, Pointers>, m: Id, p: Id, x: Id)
    requires m in ps && p in ps && x in ps && p != m && x != m
    requires ps[m] == Pointers(Some(x), Some(p)) && ps[p].succ == Some(m) && ps[x].pred == Some(m)
    requires Dist(p, x) == Dist(p, m) + Dist(m, x)
    ensures Potential(CutOut(ps, m, p, x)) == Potential(ps)
  {
    var rest := ps - {m};
    var skipped := rest[p := Pointers(Some(x), ps[p].pred)];
    PotentialPicks(ps, m);
    PotentialUpdates(rest, p, Pointers(Some(x), ps[p].pred));
    PotentialUpdates(skipped, x, Pointers(skipped[x].succ, Some(p)));
  }

  /** Exact pointers go round the circle once in each direction. */
  lemma {:induction false} ExactPotential(ring: set<Id>, ps: map<Id, Pointers>)
    requires ring != {} && AllExact(ring, ps)
    ensures Potential(ps) == 2 * SPACE
    decreases |ring|
  {
    var m :| m in ring;
    assert ExactPointers(ring, m, ps[m]);
    var p, x := ps[m].pred.value, ps[m].succ.value;
    if ring == {m} {
      PotentialPicks(ps, m);
      assert ps - {m} == map[];
    } else {
      var other :| other in ring && other != m;
      assert Dist(m, x) <= Dist(m, other) && Dist(p, m) <= Dist(other, m);
      NeighboursPointBack(ring, ps, m, p, x);
      CutOutIsExact(ring, ps, m, p, x);
      CutOutKeepsPotential(ps, m, p, x);
      assert other in ring - {m};
      ExactPotential(ring - {m}, CutOut(ps, m, p, x));
    }
  }

  lemma {:induction false} PotentialDominates(ps: map<Id, Pointers>, qs: map<Id, Pointers>)
    requires ps.Keys == qs.Keys && forall n :: n in ps ==> Weight(n, ps[n]) >= Weight(n, qs[n])
    ensures Potential(ps) >= Potential(qs)
    ensures Potential(ps) == Potential(qs) ==> forall n :: n in ps ==> Weight(n, ps[n]) == Weight(n, qs[n])
    decreases |ps|
  {
    if ps.Keys != {} {
      var n :| n in ps;
      PotentialPicks(ps, n);
      PotentialPicks(qs, n);
      PotentialDominates(ps - {n}, qs - {n});
      forall m | m in ps && m != n && Potential(ps) == Potential(qs) ensures Weight(m, ps[m]) == Weight(m, qs[m]) {
        assert m in ps - {n};
      }
    } else {
      assert ps == map[] && qs == map[];
    }
  }

  lemma ExactExists(ring: set<Id>) returns (best: map<Id, Pointers>)
    requires ring != {}
    ensures AllExact(ring, best)
  {
    best := map n | n in ring :: Pointers(Some(Successor(ring, n)), Some(Predecessor(ring, n)));
  }

  /** A pointer to a member is never nearer than the true neighbour, and as near only if it is the one. */
  lemma NoNearer(s: State, ring: set<Id>, best: map<Id, Pointers>, n: Id)
    requires Valid(s, ring) && AllExact(ring, best) && n in ring
    ensures n in s.net && Weight(n, PointersOf(s.net[n])) >= Weight(n, best[n])
    ensures Weight(n, PointersOf(s.net[n])) == Weight(n, best[n]) ==> ExactPointers(ring, n, PointersOf(s.net[n]))
  {
    assert NodeValid(s, ring, n) && ExactPointers(ring, n, best[n]);
    var here, right := PointersOf(s.net[n]), best[n];
    assert here.succ.value in s.net[n].succs;
    assert Dist(n, right.succ.value) <= Dist(n, here.succ.value);
    if Dist(n, right.succ.value) == Dist(n, here.succ.value) { DistInjective(n, right.succ.value, here.succ.value); }
    if here.pred.Some? {
      assert Dist(right.pred.value, n) <= Dist(here.pred.value, n);
      if Dist(right.pred.value, n) == Dist(here.pred.value, n) { DistInjective(n, right.pred.value, here.pred.value); }
    }
  }

  lemma PotentialAtLeast(s: State, ring: set<Id>, best: map<Id, Pointers>)
    requires Valid(s, ring) && ring != {} && AllExact(ring, best)
    ensures Potential(AllPointers(s.net)) >= 2 * SPACE
    ensures Potential(AllPointers(s.net)) == 2 * SPACE ==>
              forall n :: n in ring ==> n in s.net && Weight(n, PointersOf(s.net[n])) == Weight(n, best[n])
  {
    var ps := AllPointers(s.net);
    forall n | n in ps ensures Weight(n, ps[n]) >= Weight(n, best[n]) { NoNearer(s, ring, best, n); }
    PotentialDominates(ps, best);
    ExactPotential(ring, best);
  }

  lemma LeastIsExact(s: State, ring: set<Id>, best: map<Id, Pointers>, n: Id)
    requires Valid(s, ring) && AllExact(ring, best) && n in ring && Potential(AllPointers(s.net)) == 2 * SPACE
    ensures n in s.net && ExactPointers(ring, n, PointersOf(s.net[n]))
  {
    PotentialAtLeast(s, ring, best);
    NoNearer(s, ring, best, n);
  }

  lemma LeastIsTrueRing(s: State, ring: set<Id>, best: map<Id, Pointers>)
    requires Valid(s, ring) && AllExact(ring, best) && Potential(AllPointers(s.net)) == 2 * SPACE
    ensures AllExact(ring, AllPointers(s.net))
  {
    var ps := AllPointers(s.net);
    forall n {:trigger ExactPointers(ring, n, ps[n])} | n in ring ensures ExactPointers(ring, n, ps[n]) {
      LeastIsExact(s, ring, best, n);
    }
  }

  /** The potential never falls below two full turns, and reaches that exactly when every node
      points at its true successor and predecessor. */
  lemma LeastPotentialIffTrueRing(s: State, ring: set<Id>)
    requires Valid(s, ring) && ring != {}
    ensures Potential(AllPointers(s.net)) >= 2 * SPACE
    ensures Potential(AllPointers(s.net)) == 2 * SPACE <==> AllExact(ring, AllPointers(s.net))
  {
    var best := ExactExists(ring);
    if Potential(AllPointers(s.net)) == 2 * SPACE {
      LeastIsTrueRing(s, ring, best);
    } else {
      PotentialAtLeast(s, ring, best);
      if AllExact(ring, AllPointers(s.net)) { ExactPotential(ring, AllPointers(s.net)); }
    }
  }

  /** However the calls interleave, the changes they make never exceed what the pointers are off by. */
  lemma ChangesWithinSlack(s: State, ring: set<Id>, schedule: seq<Id>)
    requires Valid(s, ring) && ring != {} && forall n :: n in schedule ==> n in ring
    ensures Changes(s, schedule) <= Potential(AllPointers(s.net)) - 2 * SPACE
    ensures AllExact(ring, AllPointers(s.net)) ==> Changes(s, schedule) == 0
  {
    ChangesAreBounded(s, ring, schedule);
    LeastPotentialIffTrueRing(Run(s, schedule), ring);
    LeastPotentialIffTrueRing(s, ring);
  }

  // ---- what a ring at rest can weigh --------------------------------------------------------------

  ghost predicate PairedHere(ps: map<Id, Pointers>, n: Id)
    requires n in ps
  {
    ps[n].succ.Some? && ps[n].succ.value in ps && ps[ps[n].succ.value].pred == Some(n)
  }

  /** Every node is the predecessor of its own successor. */
  ghost predicate AllPaired(ps: map<Id, Pointers>) {
    forall n {:trigger PairedHere(ps, n)} :: n in ps ==> PairedHere(ps, n)
  }

  /** A node that is its own neighbour can be set aside. */
  lemma AlonePairs(ps: map<Id, Pointers>, m: Id)
    requires AllPaired(ps) && m in ps && ps[m].succ == Some(m)
    ensures AllPaired(ps - {m}) && Potential(ps) == Potential(ps - {m}) + 2 * SPACE
  {
    assert PairedHere(ps, m);
    PotentialPicks(ps, m);
    forall n | n in ps - {m} ensures PairedHere(ps - {m}, n) { assert PairedHere(ps, n); }
  }

  /** The successor `x` of `m` can be cut out; what remains weighs the same or two turns less. */
  lemma CutOutPairs(ps: map<Id, Pointers>, m: Id, x: Id, y: Id)
    requires AllPaired(ps) && m in ps && x in ps && y in ps && m != x && y != x
    requires ps[m].succ == Some(x) && ps[x].succ == Some(y)
    ensures AllPaired(CutOut(ps, x, m, y)) && CutOut(ps, x, m, y).Keys == ps.Keys - {x}
  {
    var cut := CutOut(ps, x, m, y);
    assert PairedHere(ps, m) && PairedHere(ps, x);
    forall n | n in cut ensures PairedHere(cut, n) { assert PairedHere(ps, n); }
  }

  lemma CutOutWeighs(ps: map<Id, Pointers>, m: Id, x: Id, y: Id)
    requires m in ps && x in ps && y in ps && m != x && y != x
    requires ps[m].succ == Some(x) && ps[x] == Pointers(Some(y), Some(m)) && ps[y].pred == Some(x)
    ensures var less := Potential(ps) - Potential(CutOut(ps, x, m, y)); less == 0 || less == 2 * SPACE
  {
    var rest := ps - {x};
    var skipped := rest[m := Pointers(Some(y), ps[m].pred)];
    PotentialPicks(ps, x);
    PotentialUpdates(rest, m, Pointers(Some(y), ps[m].pred));
    PotentialUpdates(skipped, y, Pointers(skipped[y].succ, Some(m)));
    assert Dist(m, x) + Dist(x, y) in {Dist(m, y), Dist(m, y) + SPACE};
  }

  /** What `turns` full turns in each direction weigh. */
  function Whole(turns: nat): (w: int)
    ensures turns == 0 ==> w == 0
    ensures turns == 1 ==> w == 2 * SPACE
    ensures turns >= 2 ==> w >= 4 * SPACE
  {
    if turns == 0 then 0 else Whole(turns - 1) + 2 * SPACE
  }

  /** One node fewer weighs the same or one turn in each direction less. */
  lemma OneFewer(ps: map<Id, Pointers>) returns (rest: map<Id, Pointers>)
    requires AllPaired(ps) && ps != map[]
    ensures AllPaired(rest) && |rest| < |ps|
    ensures Potential(ps) == Potential(rest) || Potential(ps) == Potential(rest) + 2 * SPACE
  {
    var m :| m in ps;
    assert PairedHere(ps, m);
    var x := ps[m].succ.value;
    assert PairedHere(ps, x);
    if x == m {
      AlonePairs(ps, m);
      rest := ps - {m};
    } else {
      var y := ps[x].succ.value;
      CutOutPairs(ps, m, x, y);
      CutOutWeighs(ps, m, x, y);
      rest := CutOut(ps, x, m, y);
    }
    assert |rest.Keys| == |ps.Keys| - 1;
  }

  /** Matching pointers go round the circle a whole number of times, as often in each direction. */
  lemma {:induction false} PairedPotential(ps: map<Id, Pointers>) returns (turns: nat)
    requires AllPaired(ps)
    ensures Potential(ps) == Whole(turns)
    decreases |ps|
  {
    if ps == map[] {
      turns := 0;
    } else {
      var rest := OneFewer(ps);
      var fewer := PairedPotential(rest);
      turns := if Potential(ps) == Potential(rest) then fewer else fewer + 1;
    }
  }

  lemma PairedNetPaired(net: Network)
    requires Paired(net)
    ensures AllPaired(AllPointers(net))
  {
    forall n | n in AllPointers(net) ensures PairedHere(AllPointers(net), n) { assert PairedAt(net, n); }
  }

  /** A ring at rest is the true one if and only if it weighs less than four turns. */
  lemma RestIsRightIff(s: State, ring: set<Id>)
    requires Valid(s, ring) && ring != {} && AllIdle(s) && Quiet(s, ring)
    ensures AllExact(ring, AllPointers(s.net)) <==> Potential(AllPointers(s.net)) < 4 * SPACE
  {
    QuietIffPaired(s, ring);
    PairedNetPaired(s.net);
    var turns := PairedPotential(AllPointers(s.net));
    LeastPotentialIffTrueRing(s, ring);
  }

  /** So every schedule that starts below four turns and comes to rest has found the true ring. */
  lemma LightRingsComeRight(s: State, ring: set<Id>, schedule: seq<Id>)
    requires Valid(s, ring) && ring != {} && Potential(AllPointers(s.net)) < 4 * SPACE
    requires forall n :: n in schedule ==> n in ring
    requires AllIdle(Run(s, schedule)) && Quiet(Run(s, schedule), ring)
    ensures AllExact(ring, AllPointers(Run(s, schedule).net))
  {
    ChangesAreBounded(s, ring, schedule);
    RestIsRightIff(Run(s, schedule), ring);
  }

  // ---- a ring at rest that is not the true one -------------------------------------------------

  function Looping(succ: Id, pred: Id): Node {
    Node(Active, Some(pred), [succ], Some(pred), seq(FINGERS + 1, _ => None), map[])
  }

  /** Four nodes whose pointers match up but go round the circle twice. */
  function LoopyRing(): State {
    State(
      map[0 := Looping(2, 3), 1 := Looping(3, 2), 2 := Looping(1, 0), 3 := Looping(0, 1)],
      map[0 := None, 1 := None, 2 := None, 3 := None])
  }

  lemma LoopyIsValid()
    ensures Valid(LoopyRing(), {0, 1, 2, 3}) && AllIdle(LoopyRing())
  {
  }

  lemma LoopyIsPaired()
    ensures Paired(LoopyRing().net)
  {
  }

  /** Stabilization never repairs it: at rest does not mean right. */
  lemma RestIsNotAlwaysRight()
    ensures Valid(LoopyRing(), {0, 1, 2, 3}) && AllIdle(LoopyRing()) && Quiet(LoopyRing(), {0, 1, 2, 3})
    ensures !IsSuccessor({0, 1, 2, 3}, 0, LoopyRing().net[0].succs[0])
  {
    var s, ring := LoopyRing(), {0, 1, 2, 3};
    LoopyIsValid();
    LoopyIsPaired();
    QuietIffPaired(s, ring);
    assert 1 in ring && Dist(0, 1) < Dist(0, 2);
  }
}

/** Finger tables that still name nodes that have left: rounds of the periodic pass make them exact. */
module FingerRepair {
  import opened Identifiers
  import opened RingOrder
  import opened Nodes
  import opened Routing
  import opened FingerTables

  /** Right successors, predecessors right or unknown, and nobody outside the ring answers. Fingers hold
      anything. */
  ghost predicate WellLinked(net: Network, ring: set<Id>) {
    && ring != {}
    && (forall n {:trigger WellLinkedNode(net, ring, n)} :: n in ring ==> WellLinkedNode(net, ring, n))
    && (forall n {:trigger Silent(net, ring, n)} :: n in net ==> Silent(net, ring, n))
  }

  ghost predicate WellLinkedNode(net: Network, ring: set<Id>, n: Id) {
    && n in net && Answers(net[n].phase)
    && net[n].succs != [] && IsSuccessor(ring, n, net[n].succs[0])
    && (net[n].pred.Some? ==> IsPredecessor(ring, net[n].pred.value, n))
  }

  ghost predicate Silent(net: Network, ring: set<Id>, n: Id)
    requires n in net
  {
    n !in ring ==> CheckState(net[n].phase, false).Some?
  }

  /** Finger `k`, if set, names a node at or beyond its target, dead or alive: whoever was once the owner. */
  predicate SaneFinger(n: Id, fingers: Fingers, k: nat)
    requires 1 <= k <= FINGERS
  {
    fingers[k].Some? ==> Dist(n, fingers[k].value) >= Pow2(k - 1)
  }

  ghost predicate SaneAt(net: Network, n: Id) {
    n in net && forall k {:trigger SaneFinger(n, net[n].fingers, k)} ::
      1 <= k <= FINGERS ==> SaneFinger(n, net[n].fingers, k)
  }

  ghost predicate AllSane(net: Network, ring: set<Id>) {
    forall n {:trigger SaneAt(net, n)} :: n in ring ==> SaneAt(net, n)
  }

  ghost predicate ExactFinger(ring: set<Id>, n: Id, fingers: Fingers, k: nat)
    requires 1 <= k <= FINGERS
  {
    fingers[k].Some? && IsOwner(ring, FingerTarget(n, k), fingers[k].value)
  }

  /** The first `b` fingers of `n` are exact. */
  ghost predicate ExactTo(net: Network, ring: set<Id>, n: Id, b: nat) {
    n in net && forall k {:trigger ExactFinger(ring, n, net[n].fingers, k)} ::
      1 <= k <= b && k <= FINGERS ==> ExactFinger(ring, n, net[n].fingers, k)
  }

  ghost predicate AllExactTo(net: Network, ring: set<Id>, b: nat) {
    forall n {:trigger ExactTo(net, ring, n, b)} :: n in ring ==> ExactTo(net, ring, n, b)
  }

  // ---- lookups over such tables -----------------------------------------------------------------

  lemma AnswerIsOwner(net: Network, ring: set<Id>, n: Id, key: Id)
    requires WellLinked(net, ring) && n in net
    ensures n !in ring ==> Route(n, net[n], key).Fail?
    ensures n in ring ==> !Route(n, net[n], key).Fail?
    ensures Route(n, net[n], key).Answer? ==> IsOwner(ring, key, Route(n, net[n], key).id)
  {
    if n !in ring {
      assert Silent(net, ring, n);
    } else {
      assert WellLinkedNode(net, ring, n);
      var node := net[n];
      if node.pred.Some? && Between(node.pred.value, key, n, true) {
        OwnerIffInRange(ring, node.pred.value, n, key);
      } else if Between(n, key, node.succs[0], true) {
        ClearArcOwned(ring, n, node.succs[0], key);
      }
    }
  }

  /** A lookup that does not fail finds the owner, whatever the fingers hold. */
  lemma {:induction false} LookupIsSound(net: Network, ring: set<Id>, h: nat, n: Id, key: Id)
    requires WellLinked(net, ring)
    ensures var found := FindSuccessor(Still(net), h, n, key).outcome; found.Ok? ==> IsOwner(ring, key, found.value)
    decreases Dist(n, key)
  {
    if n in net {
      AnswerIsOwner(net, ring, n, key);
      match Route(n, net[n], key)
      case Forward(closest) => LookupIsSound(net, ring, h + 1, closest, key);
      case _ =>
    }
  }

  /** A forward from a member whose first `b` fingers are exact, for a key within `2^b`, stays on the ring. */
  lemma NearForward(net: Network, ring: set<Id>, n: Id, key: Id, b: nat)
    requires WellLinked(net, ring) && n in ring && SaneAt(net, n) && ExactTo(net, ring, n, b)
    requires Dist(n, key) <= Pow2(b) && Route(n, net[n], key).Forward?
    ensures Route(n, net[n], key).id in ring
  {
    assert WellLinkedNode(net, ring, n);
    var fingers := net[n].fingers;
    var i := ClosestFinger(n, fingers, key, |fingers| - 1);
    if i > 0 {
      BetweenIsDistance(n, fingers[i].value, key);
      assert SaneFinger(n, fingers, i);
      if i > b { Pow2Monotone(b, i - 1); }
      assert ExactFinger(ring, n, fingers, i);
    }
  }

  /** With the first `b` fingers exact everywhere, a lookup for a key within `2^b` finds the owner. */
  lemma {:induction false} NearLookup(net: Network, ring: set<Id>, h: nat, n: Id, key: Id, b: nat)
    requires WellLinked(net, ring) && AllSane(net, ring) && AllExactTo(net, ring, b) && n in ring
    requires Dist(n, key) <= Pow2(b)
    ensures FindSuccessor(Still(net), h, n, key).outcome.Ok?
    decreases Dist(n, key)
  {
    assert WellLinkedNode(net, ring, n) && SaneAt(net, n) && ExactTo(net, ring, n, b);
    AnswerIsOwner(net, ring, n, key);
    match Route(n, net[n], key)
    case Forward(closest) =>
      NearForward(net, ring, n, key, b);
      NearLookup(net, ring, h + 1, closest, key, b);
    case _ =>
  }

  // ---- one pass -----------------------------------------------------------------------------------

  lemma TargetIsFar(n: Id, k: nat)
    requires 1 <= k <= FINGERS
    ensures Dist(n, FingerTarget(n, k)) == Pow2(k - 1)
  {
    Pow2Space();
    ModuloSumMoves(n, Pow2(k - 1));
  }

  lemma FoundIsExact(net: Network, ring: set<Id>, n: Id, k: nat)
    requires WellLinked(net, ring) && n in ring && n in net && 1 <= k <= FINGERS
    ensures var found := FindSuccessor(Still(net), 0, n, FingerTarget(n, k)).outcome;
            found.Ok? ==>
              var fingers := net[n].fingers[k := Some(found.value)];
              ExactFinger(ring, n, fingers, k) && SaneFinger(n, fingers, k)
  {
    LookupIsSound(net, ring, 0, n, FingerTarget(n, k));
    var found := FindSuccessor(Still(net), 0, n, FingerTarget(n, k)).outcome;
    if found.Ok? { FingerReach(ring, n, k, found.value); }
  }

  /** Changing the fingers of `n` leaves the rest of a well-linked network as it is. */
  lemma FingersKeepLinks(net: Network, ring: set<Id>, n: Id, fingers: Fingers)
    requires WellLinked(net, ring) && n in net
    ensures WellLinked(net[n := net[n].(fingers := fingers)], ring)
  {
    var net' := net[n := net[n].(fingers := fingers)];
    forall m | m in ring ensures WellLinkedNode(net', ring, m) { assert WellLinkedNode(net, ring, m); }
    forall m | m in net' ensures Silent(net', ring, m) { assert Silent(net, ring, m); }
  }

  /** What a repaired finger leaves alone stays sane and exact; what it writes is both. */
  lemma FixKKeeps(net: Network, ring: set<Id>, n: Id, k: nat, b: nat)
    requires WellLinked(net, ring) && SaneAt(net, n) && ExactTo(net, ring, n, b) && n in ring && 1 <= k <= FINGERS
    ensures var net' := FixK(net, n, k);
            WellLinked(net', ring) && SaneAt(net', n) && ExactTo(net', ring, n, b)
    ensures FindSuccessor(Still(net), 0, n, FingerTarget(n, k)).outcome.Ok? ==>
              ExactFinger(ring, n, FixK(net, n, k)[n].fingers, k)
  {
    var found := FindSuccessor(Still(net), 0, n, FingerTarget(n, k)).outcome;
    if found.Ok? {
      var fingers := net[n].fingers[k := Some(found.value)];
      FoundIsExact(net, ring, n, k);
      FingersKeepLinks(net, ring, n, fingers);
      forall j | 1 <= j <= FINGERS ensures SaneFinger(n, fingers, j) { assert SaneFinger(n, net[n].fingers, j); }
      forall j | 1 <= j <= b && j <= FINGERS ensures ExactFinger(ring, n, fingers, j) {
        assert ExactFinger(ring, n, net[n].fingers, j);
      }
    }
  }

  lemma FixKFrame(net: Network, n: Id, k: nat)
    requires n in net && 1 <= k <= FINGERS
    ensures FixK(net, n, k).Keys == net.Keys && forall m :: m in net && m != n ==> FixK(net, n, k)[m] == net[m]
  {
  }

  lemma OthersStay(net: Network, net': Network, ring: set<Id>, n: Id, b: nat)
    requires AllSane(net, ring) && AllExactTo(net, ring, b) && net'.Keys == net.Keys
    requires forall m :: m in net && m != n ==> net'[m] == net[m]
    requires SaneAt(net', n) && ExactTo(net', ring, n, b)
    ensures AllSane(net', ring) && AllExactTo(net', ring, b)
  {
    forall m | m in ring ensures SaneAt(net', m) && ExactTo(net', ring, m, b) {
      assert SaneAt(net, m) && ExactTo(net, ring, m, b);
      if m != n {
        forall k | 1 <= k <= FINGERS ensures SaneFinger(m, net'[m].fingers, k) {
          assert SaneFinger(m, net[m].fingers, k);
        }
        forall k | 1 <= k <= b && k <= FINGERS ensures ExactFinger(ring, m, net'[m].fingers, k) {
          assert ExactFinger(ring, m, net[m].fingers, k);
        }
      }
    }
  }

  /** With the first `b` fingers exact everywhere, repairing fingers in turn makes one more exact. */
  lemma {:induction false} FixUpToRepairs(net: Network, ring: set<Id>, n: Id, k: nat, b: nat)
    requires WellLinked(net, ring) && AllSane(net, ring) && AllExactTo(net, ring, b)
    requires n in ring && n in net && k <= FINGERS
    ensures var net' := FixUpTo(net, n, k);
            && WellLinked(net', ring) && AllSane(net', ring) && AllExactTo(net', ring, b)
            && (k > b ==> ExactTo(net', ring, n, b + 1))
  {
    if k > 0 {
      FixUpToRepairs(net, ring, n, k - 1, b);
      FixOneMore(FixUpTo(net, n, k - 1), ring, n, k, b);
    }
  }

  lemma FixOneMore(net: Network, ring: set<Id>, n: Id, k: nat, b: nat)
    requires WellLinked(net, ring) && AllSane(net, ring) && AllExactTo(net, ring, b) && n in ring && n in net
    requires 1 <= k <= FINGERS && (k - 1 > b ==> ExactTo(net, ring, n, b + 1))
    ensures var net' := FixK(net, n, k);
            && WellLinked(net', ring) && AllSane(net', ring) && AllExactTo(net', ring, b)
            && (k > b ==> ExactTo(net', ring, n, b + 1))
  {
    assert SaneAt(net, n) && ExactTo(net, ring, n, b);
    var net' := FixK(net, n, k);
    FixKKeeps(net, ring, n, k, b);
    FixKFrame(net, n, k);
    OthersStay(net, net', ring, n, b);
    if k == b + 1 {
      TargetIsFar(n, k);
      NearLookup(net, ring, 0, n, FingerTarget(n, k), b);
      forall j | 1 <= j <= b + 1 && j <= FINGERS ensures ExactFinger(ring, n, net'[n].fingers, j) {
        assert j <= b ==> ExactTo(net', ring, n, b);
      }
    } else if k > b + 1 {
      FixKKeeps(net, ring, n, k, b + 1);
    }
  }

  // ---- rounds of passes ---------------------------------------------------------------------------

  /** Passes by the nodes in `order`, one after another, each over tables exact up to `b`. */
  lemma {:induction false} RoundRepairs(net: Network, ring: set<Id>, order: seq<Id>, b: nat)
    requires WellLinked(net, ring) && AllSane(net, ring) && AllExactTo(net, ring, b) && b < FINGERS
    requires forall n :: n in order ==> n in ring && n in net
    ensures var net' := Passes(net, order);
            && WellLinked(net', ring) && AllSane(net', ring) && AllExactTo(net', ring, b)
            && forall n :: n in order ==> ExactTo(net', ring, n, b + 1)
  {
    if order != [] {
      var rest, last := order[..|order| - 1], order[|order| - 1];
      RoundRepairs(net, ring, rest, b);
      var mid := Passes(net, rest);
      FixUpToRepairs(mid, ring, last, FINGERS, b);
      FixUpToFrame(mid, last, FINGERS);
      forall n | n in order ensures ExactTo(Passes(net, order), ring, n, b + 1) {
        if n != last {
          assert n in rest && ExactTo(mid, ring, n, b + 1);
          forall k | 1 <= k <= b + 1 && k <= FINGERS ensures ExactFinger(ring, n, Passes(net, order)[n].fingers, k) {
            assert ExactFinger(ring, n, mid[n].fingers, k);
          }
        }
      }
    }
  }

  /** The network after whole rounds of passes. */
  function Rounds(net: Network, rounds: seq<seq<Id>>): (net': Network)
    requires forall order, n :: order in rounds && n in order ==> n in net
    ensures net'.Keys == net.Keys
  {
    if rounds == [] then net else Passes(Rounds(net, rounds[..|rounds| - 1]), rounds[|rounds| - 1])
  }

  /** In each round every member, and nobody else, runs its pass, in any order and as often as it likes. */
  ghost predicate Covers(rounds: seq<seq<Id>>, ring: set<Id>) {
    forall order, n :: order in rounds ==> (n in order <==> n in ring)
  }

  /** Whatever departed nodes the fingers name, after `r` rounds the first `r` fingers of every member are
      exact. */
  lemma {:induction false} FingersRecover(net: Network, ring: set<Id>, rounds: seq<seq<Id>>)
    requires WellLinked(net, ring) && AllSane(net, ring) && Covers(rounds, ring) && ring <= net.Keys
    ensures var net' := Rounds(net, rounds);
            WellLinked(net', ring) && AllSane(net', ring) && AllExactTo(net', ring, |rounds|)
  {
    if rounds == [] {
      forall n | n in ring ensures ExactTo(net, ring, n, 0) {}
    } else {
      var r := |rounds| - 1;
      FingersRecover(net, ring, rounds[..r]);
      var mid := Rounds(net, rounds[..r]);
      assert rounds[r] in rounds;
      RoundOn(mid, ring, rounds[r], r);
    }
  }

  lemma RoundOn(net: Network, ring: set<Id>, order: seq<Id>, r: nat)
    requires WellLinked(net, ring) && AllSane(net, ring) && AllExactTo(net, ring, r) && ring <= net.Keys
    requires forall n :: n in order <==> n in ring
    ensures var net' := Passes(net, order);
            WellLinked(net', ring) && AllSane(net', ring) && AllExactTo(net', ring, r + 1)
  {
    if r < FINGERS {
      RoundRepairs(net, ring, order, r);
    } else {
      forall n | n in ring ensures ExactTo(net, ring, n, FINGERS - 1) {
        assert ExactTo(net, ring, n, r);
        forall k | 1 <= k <= FINGERS - 1 ensures ExactFinger(ring, n, net[n].fingers, k) {}
      }
      RoundRepairs(net, ring, order, FINGERS - 1);
      var net' := Passes(net, order);
      forall n | n in ring ensures ExactTo(net', ring, n, r + 1) {
        assert ExactTo(net', ring, n, FINGERS);
        forall k | 1 <= k <= FINGERS ensures ExactFinger(ring, n, net'[n].fingers, k) {}
      }
    }
  }

  /** After 48 rounds every lookup from a member finds the owner and is forwarded at most 48 times. */
  lemma LookupsRecover(net: Network, ring: set<Id>, rounds: seq<seq<Id>>, n: Id, key: Id)
    requires WellLinked(net, ring) && AllSane(net, ring) && Covers(rounds, ring) && ring <= net.Keys
    requires |rounds| >= FINGERS && n in ring
    ensures var found := FindSuccessor(Still(Rounds(net, rounds)), 0, n, key);
            found.hop <= 48 && found.outcome == Ok(Owner(ring, key))
  {
    FingersRecover(net, ring, rounds);
    var net' := Rounds(net, rounds);
    ExactIsRoutable(net', ring, |rounds|);
    AtMost48Forwards(Still(net'), ring, n, key);
    LookupFindsOwner(Still(net'), ring, 0, n, key);
  }

  lemma ExactIsRoutable(net: Network, ring: set<Id>, b: nat)
    requires WellLinked(net, ring) && AllExactTo(net, ring, b) && b >= FINGERS
    ensures Routable(net, ring) && FingersExact(net, ring)
  {
    forall n, k | n in ring && n in net && 1 <= k <= FINGERS
      ensures net[n].fingers[k].Some? && IsOwner(ring, FingerTarget(n, k), net[n].fingers[k].value)
    {
      assert ExactTo(net, ring, n, b) && ExactFinger(ring, n, net[n].fingers, k);
    }
    forall n | n in ring ensures RoutableNode(net, ring, n) { ExactNode(net, ring, n, b); }
  }

  lemma ExactNode(net: Network, ring: set<Id>, n: Id, b: nat)
    requires WellLinkedNode(net, ring, n) && ExactTo(net, ring, n, b) && b >= FINGERS
    ensures RoutableNode(net, ring, n)
  {
    forall k | 1 <= k <= FINGERS ensures net[n].fingers[k].Some? && net[n].fingers[k].value in ring {
      assert ExactFinger(ring, n, net[n].fingers, k);
    }
  }

  // ---- what a finger before its target does -------------------------------------------------------

  /** Finger `k` of `n` names `d`, which is not on the ring and lies before the target; no higher finger lies
      there, and neither neighbour settles the lookup. */
  ghost predicate Stuck(net: Network, ring: set<Id>, n: Id, k: nat, d: Id)
    requires 1 <= k <= FINGERS
  {
    && n in net && n in ring && d !in ring && net[n].fingers[k] == Some(d) && Between(n, d, FingerTarget(n, k), false)
    && (forall j :: k < j <= FINGERS && net[n].fingers[j].Some? ==>
          !Between(n, net[n].fingers[j].value, FingerTarget(n, k), false))
    && !Route(n, net[n], FingerTarget(n, k)).Answer?
  }

  lemma {:induction false} HighestFinger(n: Id, fingers: Fingers, key: Id, k: nat, top: nat)
    requires 1 <= k <= top <= FINGERS && fingers[k].Some? && Between(n, fingers[k].value, key, false)
    requires forall j :: k < j <= FINGERS && fingers[j].Some? ==> !Between(n, fingers[j].value, key, false)
    ensures ClosestFinger(n, fingers, key, top) == k
    decreases top
  {
    if top > k { HighestFinger(n, fingers, key, k, top - 1); }
  }

  lemma StuckForwards(net: Network, ring: set<Id>, n: Id, k: nat, d: Id)
    requires WellLinked(net, ring) && 1 <= k <= FINGERS && Stuck(net, ring, n, k, d)
    ensures FixK(net, n, k) == net
  {
    var key := FingerTarget(n, k);
    AnswerIsOwner(net, ring, n, key);
    HighestFinger(n, net[n].fingers, key, k, FINGERS);
    assert Route(n, net[n], key) == Forward(d);
    if d in net { AnswerIsOwner(net, ring, d, key); }
    assert FindSuccessor(Still(net), 1, d, key).outcome.Err?;
  }

  /** A repaired higher finger lies at or beyond its own target, so not before that of `k`. */
  lemma FixKStaysStuck(net: Network, ring: set<Id>, n: Id, k: nat, d: Id, j: nat)
    requires WellLinked(net, ring) && 1 <= k <= FINGERS && 1 <= j <= FINGERS && Stuck(net, ring, n, k, d)
    ensures WellLinked(FixK(net, n, j), ring) && Stuck(FixK(net, n, j), ring, n, k, d)
  {
    if j == k {
      StuckForwards(net, ring, n, k, d);
    } else {
      var found := FindSuccessor(Still(net), 0, n, FingerTarget(n, j)).outcome;
      if found.Ok? {
        FoundIsExact(net, ring, n, j);
        FingersKeepLinks(net, ring, n, net[n].fingers[j := Some(found.value)]);
        TargetIsFar(n, k);
        BetweenIsDistance(n, found.value, FingerTarget(n, k));
        if j > k { Pow2Monotone(k - 1, j - 1); }
        SameAnswer(n, net[n], net[n].(fingers := net[n].fingers[j := Some(found.value)]), FingerTarget(n, k));
      }
    }
  }

  /** Fingers do not decide whether a node answers. */
  lemma SameAnswer(n: Id, node: Node, node': Node, key: Id)
    requires node' == node.(fingers := node'.fingers)
    ensures Route(n, node, key).Answer? <==> Route(n, node', key).Answer?
  {
  }

  lemma {:induction false} PassStaysStuck(net: Network, ring: set<Id>, n: Id, k: nat, d: Id, j: nat)
    requires WellLinked(net, ring) && 1 <= k <= FINGERS && j <= FINGERS && Stuck(net, ring, n, k, d)
    ensures WellLinked(FixUpTo(net, n, j), ring) && Stuck(FixUpTo(net, n, j), ring, n, k, d)
  {
    if j > 0 {
      PassStaysStuck(net, ring, n, k, d, j - 1);
      FixKStaysStuck(FixUpTo(net, n, j - 1), ring, n, k, d, j);
    }
  }

  lemma PassKeepsLinks(net: Network, ring: set<Id>, n: Id, j: nat)
    requires WellLinked(net, ring) && n in net && j <= FINGERS
    ensures WellLinked(FixUpTo(net, n, j), ring)
  {
    FixUpToFrame(net, n, j);
    FingersKeepLinks(net, ring, n, FixUpTo(net, n, j)[n].fingers);
  }

  lemma {:induction false} PassesStayStuck(net: Network, ring: set<Id>, order: seq<Id>, n: Id, k: nat, d: Id)
    requires WellLinked(net, ring) && 1 <= k <= FINGERS && Stuck(net, ring, n, k, d)
    requires forall m :: m in order ==> m in net
    ensures WellLinked(Passes(net, order), ring) && Stuck(Passes(net, order), ring, n, k, d)
  {
    if order != [] {
      var rest, last := order[..|order| - 1], order[|order| - 1];
      PassesStayStuck(net, ring, rest, n, k, d);
      var mid := Passes(net, rest);
      if last == n {
        PassStaysStuck(mid, ring, n, k, d, FINGERS);
      } else {
        PassKeepsLinks(mid, ring, last, FINGERS);
        FixUpToFrame(mid, last, FINGERS);
      }
    }
  }

  /** Fingers at or beyond their targets are needed: one that names a departed node before its target, with no
      higher finger there, is never repaired, however many rounds are run. */
  lemma {:induction false} StuckForever(
    net: Network, ring: set<Id>, rounds: seq<seq<Id>>, n: Id, k: nat, d: Id)
    requires WellLinked(net, ring) && 1 <= k <= FINGERS && Stuck(net, ring, n, k, d)
    requires forall order, m :: order in rounds && m in order ==> m in net
    ensures var net' := Rounds(net, rounds);
            WellLinked(net', ring) && Stuck(net', ring, n, k, d) && net'[n].fingers[k] == Some(d)
  {
    if rounds != [] {
      var r := |rounds| - 1;
      StuckForever(net, ring, rounds[..r], n, k, d);
      assert rounds[r] in rounds;
      PassesStayStuck(Rounds(net, rounds[..r]), ring, rounds[r], n, k, d);
    }
  }
}

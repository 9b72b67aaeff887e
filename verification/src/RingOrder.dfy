/** Neighbours and owners in a finite set of identifiers placed on the circle. */
module RingOrder {
  import opened Identifiers

  /** No member lies strictly inside the clockwise arc from `x` to `y`. */
  ghost predicate Clear(ring: set<Id>, x: Id, y: Id) {
    forall m :: m in ring ==> Dist(x, y) <= Dist(x, m)
  }

  /** `y` is the first member met when walking clockwise from `x`. */
  ghost predicate IsSuccessor(ring: set<Id>, x: Id, y: Id) {
    y in ring && Clear(ring, x, y)
  }

  /** `p` is the last member met before `x`. */
  ghost predicate IsPredecessor(ring: set<Id>, p: Id, x: Id) {
    p in ring && forall m :: m in ring ==> Dist(p, x) <= Dist(m, x)
  }

  /** `n` is the first member at or after `key`. */
  ghost predicate IsOwner(ring: set<Id>, key: Id, n: Id) {
    n in ring && forall m :: m in ring ==> Gap(key, n) <= Gap(key, m)
  }

  ghost function Successor(ring: set<Id>, x: Id): (y: Id)
    requires ring != {}
    ensures IsSuccessor(ring, x, y)
  {
    SuccessorExists(ring, x);
    var y :| IsSuccessor(ring, x, y);
    y
  }

  ghost function Predecessor(ring: set<Id>, x: Id): (p: Id)
    requires ring != {}
    ensures IsPredecessor(ring, p, x)
  {
    PredecessorExists(ring, x);
    var p :| IsPredecessor(ring, p, x);
    p
  }

  ghost function Owner(ring: set<Id>, key: Id): (n: Id)
    requires ring != {}
    ensures IsOwner(ring, key, n)
  {
    OwnerExists(ring, key);
    var n :| IsOwner(ring, key, n);
    n
  }

  lemma {:induction false} SuccessorExists(ring: set<Id>, x: Id)
    requires ring != {}
    ensures exists y :: IsSuccessor(ring, x, y)
  {
    var m :| m in ring;
    var rest := ring - {m};
    if rest == {} {
      assert ring == {m};
      assert IsSuccessor(ring, x, m);
    } else {
      SuccessorExists(rest, x);
      var y :| IsSuccessor(rest, x, y);
      assert IsSuccessor(ring, x, if Dist(x, m) < Dist(x, y) then m else y);
    }
  }

  lemma {:induction false} PredecessorExists(ring: set<Id>, x: Id)
    requires ring != {}
    ensures exists p :: IsPredecessor(ring, p, x)
  {
    var m :| m in ring;
    var rest := ring - {m};
    if rest == {} {
      assert ring == {m};
      assert IsPredecessor(ring, m, x);
    } else {
      PredecessorExists(rest, x);
      var y :| IsPredecessor(rest, y, x);
      assert IsPredecessor(ring, if Dist(m, x) < Dist(y, x) then m else y, x);
    }
  }

  lemma OwnerExists(ring: set<Id>, key: Id)
    requires ring != {}
    ensures exists n :: IsOwner(ring, key, n)
  {
    var before: Id := if key == 0 then SPACE - 1 else key - 1;
    SuccessorExists(ring, before);
    var n :| IsSuccessor(ring, before, n);
    assert forall m: Id :: Dist(before, m) == Gap(key, m) + 1;
    assert IsOwner(ring, key, n);
  }

  lemma SuccessorUnique(ring: set<Id>, x: Id, y: Id, z: Id)
    requires IsSuccessor(ring, x, y) && IsSuccessor(ring, x, z)
    ensures y == z
  {
  }

  lemma PredecessorUnique(ring: set<Id>, x: Id, y: Id, z: Id)
    requires IsPredecessor(ring, y, x) && IsPredecessor(ring, z, x)
    ensures y == z
  {
  }

  lemma OwnerUnique(ring: set<Id>, key: Id, y: Id, z: Id)
    requires IsOwner(ring, key, y) && IsOwner(ring, key, z)
    ensures y == z
  {
  }

  /** Among members, being next and being previous are the same relation. */
  lemma NeighboursAgree(ring: set<Id>, p: Id, n: Id)
    requires p in ring && n in ring
    ensures IsSuccessor(ring, p, n) <==> IsPredecessor(ring, p, n)
  {
  }

  /** A clear arc ending at a member makes that member the owner of the whole arc. */
  lemma ClearArcOwned(ring: set<Id>, x: Id, n: Id, key: Id)
    requires IsSuccessor(ring, x, n)
    requires Between(x, key, n, true)
    ensures IsOwner(ring, key, n)
  {
  }

  /** Ownership is membership in the arc from the predecessor, in both directions. */
  lemma OwnerIffInRange(ring: set<Id>, p: Id, n: Id, key: Id)
    requires n in ring && IsPredecessor(ring, p, n)
    ensures IsOwner(ring, key, n) <==> Between(p, key, n, true)
  {
  }
}

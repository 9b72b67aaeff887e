/** The 48-bit circular identifier space of the ring. */
module Identifiers {

  const FINGERS: nat := 48
  const SPACE: int := 0x1_0000_0000_0000

  /** Node identifiers and key hashes; both are reduced modulo 2^48 by the program. */
  type Id = x: int | 0 <= x < SPACE

  /** The program's interval test, wrap-around included. */
  predicate Between(low: Id, target: Id, high: Id, inclusive: bool) {
    if high > low then
      (low < target && target < high) || (inclusive && target == high)
    else
      low < target || target < high || (inclusive && target == high)
  }

  /** Clockwise distance from `a` to `b`; a full turn when they coincide. */
  function Dist(a: Id, b: Id): (d: int)
    ensures 1 <= d <= SPACE
    ensures a == b <==> d == SPACE
  {
    if b > a then b - a else b - a + SPACE
  }

  /** Clockwise gap from `a` to `b`; zero when they coincide. */
  function Gap(a: Id, b: Id): (d: int)
    ensures 0 <= d < SPACE
    ensures d == if a == b then 0 else Dist(a, b)
  {
    if b >= a then b - a else b - a + SPACE
  }

  function ModuloSum(x: nat, y: nat): Id {
    (x % SPACE + y % SPACE) % SPACE
  }

  /** Both measures are residues modulo 2^48. */
  lemma DistIsResidue(a: Id, b: Id)
    ensures Dist(a, b) == (b - a - 1) % SPACE + 1
    ensures Gap(a, b) == (b - a) % SPACE
  {
  }

  /** The interval test is a comparison of clockwise distances. */
  lemma BetweenIsDistance(low: Id, target: Id, high: Id)
    ensures Between(low, target, high, true) <==> Dist(low, target) <= Dist(low, high)
    ensures Between(low, target, high, false) <==> Dist(low, target) < Dist(low, high)
  {
  }

  /** Distances from one point identify the other end. */
  lemma DistInjective(a: Id, b: Id, c: Id)
    requires Dist(a, b) == Dist(a, c) || Dist(b, a) == Dist(c, a)
    ensures b == c
  {
  }

  /** Passing through `b` on the way from `a` to `c` splits the distance. */
  lemma DistSplits(a: Id, b: Id, c: Id)
    requires Dist(a, b) < Dist(a, c)
    ensures Dist(a, c) == Dist(a, b) + Dist(b, c)
  {
  }

  /** Three distinct points are met in one of two orders. */
  lemma DistCycles(a: Id, b: Id, c: Id)
    requires a != b && b != c && a != c
    ensures Dist(a, b) < Dist(a, c) <==> Dist(b, c) < Dist(b, a)
    ensures Dist(a, b) < Dist(a, c) <==> !(Dist(a, c) < Dist(a, b))
  {
  }

  /** Adding an offset moves exactly that far clockwise. */
  lemma ModuloSumMoves(n: Id, k: nat)
    requires 1 <= k <= SPACE
    ensures Dist(n, ModuloSum(n, k)) == k
  {
  }
}

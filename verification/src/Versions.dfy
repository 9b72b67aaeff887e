/** Document versions and their order-preserving bytes. */
module Versions {
  import opened Nodes

  type Byte = x: int | 0 <= x < 256

  type Bytes = seq<Byte>

  const WORDS: nat := 0x1_0000_0000_0000_0000

  /** Unsigned 64-bit counters. */
  type Word = x: int | 0 <= x < WORDS

  const DIGEST: nat := 32

  type Digest = d: Bytes | |d| == DIGEST witness seq(DIGEST, _ => 0)

  /** Schema first, then revision, then the digest of the value. */
  datatype Version = Version(schema: Word, revision: Word, digest: Digest)

  predicate Positive(v: Version) {
    v.schema != 0 && v.revision != 0
  }

  function Sign(a: int, b: int): int {
    if a < b then -1 else if a > b then 1 else 0
  }

  /** Byte strings in lexicographic order, shorter first, as both databases and Go compare them. */
  function CompareBytes(a: Bytes, b: Bytes): int {
    if a == [] || b == [] then Sign(|a|, |b|)
    else if a[0] != b[0] then Sign(a[0], b[0])
    else CompareBytes(a[1..], b[1..])
  }

  function Compare(v: Version, w: Version): int {
    if v.schema != w.schema then Sign(v.schema, w.schema)
    else if v.revision != w.revision then Sign(v.revision, w.revision)
    else CompareBytes(v.digest, w.digest)
  }

  // ---- fixed-width big-endian numbers ---------------------------------------------

  function Power(n: nat): nat {
    if n == 0 then 1 else 256 * Power(n - 1)
  }

  /** The number `x` in `n` bytes, most significant first. */
  function BigEndian(x: nat, n: nat): (b: Bytes)
    ensures |b| == n
  {
    if n == 0 then [] else BigEndian(x / 256, n - 1) + [x % 256]
  }

  function Number(b: Bytes): nat {
    if b == [] then 0 else 256 * Number(b[..|b| - 1]) + b[|b| - 1]
  }

  lemma {:induction false} NumberOfBigEndian(x: nat, n: nat)
    requires x < Power(n)
    ensures Number(BigEndian(x, n)) == x
  {
    if n > 0 {
      NumberOfBigEndian(x / 256, n - 1);
      assert BigEndian(x, n)[..n - 1] == BigEndian(x / 256, n - 1);
    }
  }

  lemma {:induction false} BigEndianOfNumber(b: Bytes)
    ensures BigEndian(Number(b), |b|) == b && Number(b) < Power(|b|)
  {
    if b != [] {
      var front, last := b[..|b| - 1], b[|b| - 1];
      BigEndianOfNumber(front);
      assert Number(b) / 256 == Number(front) && Number(b) % 256 == last;
      assert b == front + [last];
    }
  }

  lemma {:induction false} CompareSelf(a: Bytes)
    ensures CompareBytes(a, a) == 0
  {
    if a != [] { CompareSelf(a[1..]); }
  }

  /** The first difference of two equally long prefixes decides. */
  lemma {:induction false} ComparePrefix(a: Bytes, b: Bytes, c: Bytes, d: Bytes)
    requires |a| == |b|
    ensures CompareBytes(a + c, b + d) == if a == b then CompareBytes(c, d) else CompareBytes(a, b)
    ensures CompareBytes(a, b) == 0 <==> a == b
  {
    if a == [] {
      assert a + c == c && b + d == d;
    } else {
      ComparePrefix(a[1..], b[1..], c, d);
      assert (a + c)[1..] == a[1..] + c && (b + d)[1..] == b[1..] + d;
      assert a == [a[0]] + a[1..] && b == [b[0]] + b[1..];
    }
  }

  /** Equal widths make the byte order the numeric order. */
  lemma {:induction false} BigEndianPreservesOrder(x: nat, y: nat, n: nat)
    requires x < Power(n) && y < Power(n)
    ensures CompareBytes(BigEndian(x, n), BigEndian(y, n)) == Sign(x, y)
  {
    if n > 0 {
      BigEndianPreservesOrder(x / 256, y / 256, n - 1);
      ComparePrefix(BigEndian(x / 256, n - 1), BigEndian(y / 256, n - 1), [x % 256], [y % 256]);
    }
  }

  lemma EightBytes()
    ensures Power(8) == WORDS
  {
  }

  // ---- the 48 bytes -------------------------------------------------------------------

  function Encode(v: Version): (b: Bytes)
    ensures |b| == 48
  {
    BigEndian(v.schema, 8) + BigEndian(v.revision, 8) + v.digest
  }

  function Decode(b: Bytes): Option<Version> {
    if |b| != 48 then None
    else
      var schema, revision := Number(b[..8]), Number(b[8..16]);
      if schema == 0 || revision == 0 then None
      else
        EightBytes();
        BigEndianOfNumber(b[..8]);
        BigEndianOfNumber(b[8..16]);
        Some(Version(schema, revision, b[16..]))
  }

  /** The stored bytes sort exactly as versions compare. */
  lemma EncodePreservesOrder(v: Version, w: Version)
    ensures CompareBytes(Encode(v), Encode(w)) == Compare(v, w)
  {
    EightBytes();
    var vs, vr := BigEndian(v.schema, 8), BigEndian(v.revision, 8);
    var ws, wr := BigEndian(w.schema, 8), BigEndian(w.revision, 8);
    BigEndianPreservesOrder(v.schema, w.schema, 8);
    BigEndianPreservesOrder(v.revision, w.revision, 8);
    ComparePrefix(vs + vr, ws + wr, v.digest, w.digest);
    ComparePrefix(vs, ws, vr, wr);
    ComparePrefix(vr, wr, v.digest, w.digest);
  }

  /** Exactly the positive versions survive the trip, and nothing else decodes to them. */
  lemma DecodeIsInverse(b: Bytes, v: Version)
    ensures Decode(b) == Some(v) <==> b == Encode(v) && Positive(v)
  {
    EightBytes();
    if b == Encode(v) {
      assert b[..8] == BigEndian(v.schema, 8) && b[8..16] == BigEndian(v.revision, 8) && b[16..] == v.digest;
      NumberOfBigEndian(v.schema, 8);
      NumberOfBigEndian(v.revision, 8);
    }
    if |b| == 48 {
      BigEndianOfNumber(b[..8]);
      BigEndianOfNumber(b[8..16]);
      assert b == b[..8] + b[8..16] + b[16..];
    }
  }

  // ---- what the order means ---------------------------------------------------------

  /** The strings agree up to `i`, where `a` ends or has the smaller byte. */
  ghost predicate SmallerAt(a: Bytes, b: Bytes, i: nat) {
    i <= |a| && i < |b| && a[..i] == b[..i] && (i == |a| || a[i] < b[i])
  }

  lemma SmallerStartsAlike(a: Bytes, b: Bytes, i: nat)
    requires SmallerAt(a, b, i)
    ensures i > 0 ==> a[0] == b[0]
  {
    if i > 0 { assert a[0] == a[..i][0] && b[0] == b[..i][0]; }
  }

  lemma SmallerShifts(a: Bytes, b: Bytes, i: nat)
    requires a != [] && b != [] && a[0] == b[0]
    ensures SmallerAt(a[1..], b[1..], i) <==> SmallerAt(a, b, i + 1)
  {
    if i + 1 <= |a| && i + 1 <= |b| {
      assert a[..i + 1] == [a[0]] + a[1..][..i] && b[..i + 1] == [b[0]] + b[1..][..i];
      assert a[1..][..i] == b[1..][..i] <==> a[..i + 1] == b[..i + 1] by {
        if a[..i + 1] == b[..i + 1] { assert a[1..][..i] == a[..i + 1][1..] && b[1..][..i] == b[..i + 1][1..]; }
      }
    }
  }

  /** One byte string is smaller than another exactly when it is a proper prefix of it or has the smaller byte
      where the two first differ. */
  lemma {:induction false} CompareBytesIsLexicographic(a: Bytes, b: Bytes)
    ensures CompareBytes(a, b) < 0 <==> exists i: nat :: SmallerAt(a, b, i)
  {
    if a == [] || b == [] {
      assert a == [] && b != [] ==> SmallerAt(a, b, 0);
    } else if a[0] != b[0] {
      assert a[0] < b[0] ==> SmallerAt(a, b, 0);
      forall i: nat | SmallerAt(a, b, i) ensures i == 0 { SmallerStartsAlike(a, b, i); }
    } else {
      CompareBytesIsLexicographic(a[1..], b[1..]);
      if i: nat :| SmallerAt(a[1..], b[1..], i) { SmallerShifts(a, b, i); }
      if i: nat :| SmallerAt(a, b, i) { SmallerShifts(a, b, i - 1); }
    }
  }

  /** A version is older exactly when its schema is lower, or its revision at the same schema, or its digest
      at the same schema and revision. */
  lemma CompareIsLexicographic(v: Version, w: Version)
    ensures Compare(v, w) < 0 <==>
      || v.schema < w.schema
      || (v.schema == w.schema && v.revision < w.revision)
      || (v.schema == w.schema && v.revision == w.revision && exists i: nat :: SmallerAt(v.digest, w.digest, i))
  {
    CompareBytesIsLexicographic(v.digest, w.digest);
  }

  // ---- a total order ----------------------------------------------------------------

  lemma {:induction false} CompareBytesIsTotal(a: Bytes, b: Bytes, c: Bytes)
    ensures CompareBytes(a, b) in {-1, 0, 1} && CompareBytes(a, b) == -CompareBytes(b, a)
    ensures CompareBytes(a, b) == 0 <==> a == b
    ensures CompareBytes(a, b) >= 0 && CompareBytes(b, c) >= 0 ==>
              CompareBytes(a, c) >= 0 &&
              (CompareBytes(a, c) == 0 ==> CompareBytes(a, b) == 0 && CompareBytes(b, c) == 0)
  {
    if a == [] || b == [] || c == [] {
      if a != [] && b != [] { CompareBytesIsTotal(a[1..], b[1..], []); }
      assert a != [] && b != [] ==> (a == b <==> a[0] == b[0] && a[1..] == b[1..]);
    } else {
      CompareBytesIsTotal(a[1..], b[1..], c[1..]);
      assert a == b <==> a[0] == b[0] && a[1..] == b[1..];
    }
  }

  lemma CompareIsTotal(u: Version, v: Version, w: Version)
    ensures Compare(u, v) in {-1, 0, 1} && Compare(u, v) == -Compare(v, u)
    ensures Compare(u, v) == 0 <==> u == v
    ensures Compare(u, v) >= 0 && Compare(v, w) >= 0 ==> Compare(u, w) >= 0
    ensures Compare(u, v) >= 0 && Compare(v, w) > 0 ==> Compare(u, w) > 0
    ensures Compare(u, v) > 0 && Compare(v, w) >= 0 ==> Compare(u, w) > 0
  {
    CompareBytesIsTotal(u.digest, v.digest, w.digest);
    CompareBytesIsTotal(v.digest, w.digest, u.digest);
  }
}

/** Normalising a protection policy without changing what it disables. */
module WafPolicy {
  import opened Nodes
  import opened Versions
  import opened Waf

  datatype Exclusion = Exclusion(ruleId: nat, path: Bytes)

  /** A mode outside the four known ones is `None`. */
  datatype Policy = Policy(mode: Option<Mode>, exclusions: seq<Exclusion>)

  const MAX_EXCLUSIONS: nat := 32
  const MAX_POLICY: nat := 48 * 1024

  /** Unicode control characters and the length of a policy's JSON come from elsewhere. */
  datatype Env = Env(hasControl: Bytes -> bool, size: Policy -> nat)

  /** An exact URL path: empty for all paths, or absolute without `?`, `#` or control characters. */
  predicate ValidExclusion(env: Env, e: Exclusion) {
    && 100000 <= e.ruleId <= 999999
    && |e.path| <= 1024 && (e.path == [] || e.path[0] == 0x2F)
    && 0x3F !in e.path && 0x23 !in e.path && !env.hasControl(e.path)
  }

  /** The path of a URL ends where its query or fragment begins. */
  function UrlPath(url: Bytes): Bytes {
    if url == [] || url[0] == 0x3F || url[0] == 0x23 then [] else [url[0]] + UrlPath(url[1..])
  }

  lemma {:induction false} UrlPathIff(url: Bytes)
    ensures UrlPath(url) == url <==> 0x3F !in url && 0x23 !in url
  {
    if url != [] {
      UrlPathIff(url[1..]);
      assert url == [url[0]] + url[1..];
    }
  }

  /** An exclusion is valid exactly when it names a six-digit rule and its path is empty or an absolute URL path
      of at most 1024 bytes without query, fragment or control characters. */
  lemma ValidExclusionIff(env: Env, e: Exclusion)
    ensures ValidExclusion(env, e) <==>
      && |Decimal(e.ruleId)| == 6 && |e.path| <= 1024 && UrlPath(e.path) == e.path && !env.hasControl(e.path)
      && (e.path != [] ==> e.path[0] == 0x2F)
  {
    UrlPathIff(e.path);
    SixDigits(e.ruleId);
  }

  lemma DecimalGrows(n: nat)
    ensures n < 10 ==> |Decimal(n)| == 1
    ensures n >= 10 ==> |Decimal(n)| == |Decimal(n / 10)| + 1
  {
  }

  lemma {:induction false} MoreDigits(n: nat, k: nat)
    requires k > 0
    ensures |Decimal(n)| <= k <==> n < PowerOfTen(k)
    decreases k
  {
    DecimalGrows(n);
    if k > 1 && n >= 10 { MoreDigits(n / 10, k - 1); }
    assert PowerOfTen(k) >= 10;
  }

  function PowerOfTen(k: nat): (p: nat)
    ensures k > 0 ==> p >= 10
  {
    if k == 0 then 1 else if k == 1 then 10 else 10 * PowerOfTen(k - 1)
  }

  lemma SixDigits(n: nat)
    ensures |Decimal(n)| == 6 <==> 100000 <= n <= 999999
  {
    MoreDigits(n, 5);
    MoreDigits(n, 6);
    assert PowerOfTen(5) == 100000 && PowerOfTen(6) == 1000000;
  }

  predicate Before(a: Exclusion, b: Exclusion) {
    a.ruleId < b.ruleId || (a.ruleId == b.ruleId && CompareBytes(a.path, b.path) < 0)
  }

  lemma BeforeIsStrict()
    ensures StrictOrder(Before)
  {
    forall a: Exclusion, b: Exclusion
      ensures (a != b ==> Before(a, b) || Before(b, a)) && (Before(a, b) ==> !Before(b, a))
    {
      CompareBytesIsTotal(a.path, b.path, a.path);
    }
    forall a: Exclusion, b: Exclusion, c: Exclusion | Before(a, b) && Before(b, c) ensures Before(a, c) {
      CompareBytesIsTotal(c.path, b.path, a.path);
      CompareBytesIsTotal(a.path, b.path, c.path);
      CompareBytesIsTotal(b.path, c.path, a.path);
      CompareBytesIsTotal(a.path, c.path, b.path);
    }
  }

  function Normalized(p: Policy): Policy {
    p.(exclusions := SortUnique(Before, p.exclusions))
  }

  ghost predicate Accepted(env: Env, p: Policy) {
    && p.mode.Some? && |p.exclusions| <= MAX_EXCLUSIONS
    && (forall e :: e in p.exclusions ==> ValidExclusion(env, e))
    && env.size(Normalized(p)) <= MAX_POLICY
  }

  method ValidatePolicy(env: Env, p: Policy) returns (r: Option<Policy>)
    ensures r == if Accepted(env, p) then Some(Normalized(p)) else None
  {
    if p.mode.None? || |p.exclusions| > MAX_EXCLUSIONS { return None; }
    for i := 0 to |p.exclusions|
      invariant forall j :: 0 <= j < i ==> ValidExclusion(env, p.exclusions[j])
    {
      var e := p.exclusions[i];
      assert e in p.exclusions;
      if e.ruleId < 100000 || e.ruleId > 999999 { return None; }
      if |e.path| > 1024 || (e.path != [] && e.path[0] != 0x2F) { return None; }
      if 0x3F in e.path || 0x23 in e.path || env.hasControl(e.path) { return None; }
    }
    var q := Normalized(p);
    if env.size(q) > MAX_POLICY { return None; }
    return Some(q);
  }

  predicate Applies(e: Exclusion, path: Bytes) {
    e.path == [] || e.path == path
  }

  function Matching(es: seq<Exclusion>, path: Bytes): seq<nat> {
    if es == [] then []
    else Matching(es[..|es| - 1], path) + if Applies(es[|es| - 1], path) then [es[|es| - 1].ruleId] else []
  }

  function Disabled(p: Policy, path: Bytes): seq<nat> {
    SortUnique(Less, Matching(p.exclusions, path))
  }

  method DisabledRules(p: Policy, path: Bytes) returns (ids: seq<nat>)
    ensures ids == Disabled(p, path)
  {
    ids := [];
    for i := 0 to |p.exclusions|
      invariant ids == Matching(p.exclusions[..i], path)
    {
      assert p.exclusions[..i + 1][..i] == p.exclusions[..i];
      if p.exclusions[i].path == [] || p.exclusions[i].path == path { ids := ids + [p.exclusions[i].ruleId]; }
    }
    assert p.exclusions[..|p.exclusions|] == p.exclusions;
    ids := SortUnique(Less, ids);
  }

  lemma {:induction false} MatchingKeeps(es: seq<Exclusion>, path: Bytes)
    ensures forall id :: id in Matching(es, path) <==>
      exists e :: e in es && e.ruleId == id && (e.path == [] || e.path == path)
  {
    if es != [] {
      MatchingKeeps(es[..|es| - 1], path);
      assert es == es[..|es| - 1] + [es[|es| - 1]];
    }
  }

  /** Exactly the rules named by an exclusion for all paths or for this very path, in order, once each. */
  lemma DisabledIsExact(p: Policy, path: Bytes)
    ensures Ascending(Less, Disabled(p, path))
    ensures forall id :: id in Disabled(p, path) <==>
      exists e :: e in p.exclusions && e.ruleId == id && (e.path == [] || e.path == path)
  {
    MatchingKeeps(p.exclusions, path);
    SortUniqueKeeps(Less, Matching(p.exclusions, path));
  }

  lemma {:induction false} MatchingJoins(a: seq<Exclusion>, b: seq<Exclusion>, path: Bytes)
    ensures Matching(a + b, path) == Matching(a, path) + Matching(b, path)
    decreases |b|
  {
    if b == [] {
      assert a + b == a;
    } else {
      var last := |b| - 1;
      MatchingJoins(a, b[..last], path);
      assert (a + b)[..|a + b| - 1] == a + b[..last];
    }
  }

  /** An exclusion for one path makes no difference on any other. */
  lemma PathExclusionIsLocal(p: Policy, i: nat, path: Bytes)
    requires i < |p.exclusions| && p.exclusions[i].path != [] && p.exclusions[i].path != path
    ensures Disabled(p.(exclusions := p.exclusions[..i] + p.exclusions[i + 1..]), path) == Disabled(p, path)
  {
    var es := p.exclusions;
    MatchingJoins(es[..i], es[i + 1..], path);
    MatchingJoins(es[..i + 1], es[i + 1..], path);
    assert es == es[..i + 1] + es[i + 1..];
    assert Matching(es[..i + 1], path) == Matching(es[..i], path) by { assert es[..i + 1][..i] == es[..i]; }
  }

  /** Normalising disables the same rules on every path, and does nothing the second time. */
  lemma NormalizingChangesNothing(p: Policy, path: Bytes)
    ensures Disabled(Normalized(p), path) == Disabled(p, path)
    ensures Normalized(Normalized(p)) == Normalized(p)
  {
    BeforeIsStrict();
    SortUniqueKeeps(Before, p.exclusions);
    SortUniqueKeeps(Before, Normalized(p).exclusions);
    AscendingUnique(Before, Normalized(p).exclusions, SortUnique(Before, Normalized(p).exclusions));
    DisabledIsExact(p, path);
    DisabledIsExact(Normalized(p), path);
    AscendingUnique(Less, Disabled(p, path), Disabled(Normalized(p), path));
  }
}

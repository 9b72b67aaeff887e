/** The bounded cache of compiled rule sets, and policy normalisation. */
module Waf {
  import opened Nodes

  // ---- sorting and dropping repeats ------------------------------------------------------

  function Insert<T(==)>(before: (T, T) -> bool, x: T, s: seq<T>): seq<T> {
    if s == [] then [x]
    else if x == s[0] then s
    else if before(x, s[0]) then [x] + s
    else [s[0]] + Insert(before, x, s[1..])
  }

  /** Sorted with equal neighbours merged. */
  function SortUnique<T(==)>(before: (T, T) -> bool, s: seq<T>): seq<T> {
    if s == [] then [] else Insert(before, s[0], SortUnique(before, s[1..]))
  }

  ghost predicate Ascending<T>(before: (T, T) -> bool, s: seq<T>) {
    forall i, j :: 0 <= i < j < |s| ==> before(s[i], s[j])
  }

  ghost predicate StrictOrder<T(!new)>(before: (T, T) -> bool) {
    && (forall a, b :: a != b ==> before(a, b) || before(b, a))
    && (forall a, b :: before(a, b) ==> !before(b, a))
    && (forall a, b, c :: before(a, b) && before(b, c) ==> before(a, c))
  }

  lemma {:induction false} InsertKeeps<T(!new)>(before: (T, T) -> bool, x: T, s: seq<T>)
    ensures forall y :: y in Insert(before, x, s) <==> y == x || y in s
    ensures StrictOrder(before) && Ascending(before, s) ==> Ascending(before, Insert(before, x, s))
  {
    if s != [] {
      InsertKeeps(before, x, s[1..]);
      assert s == [s[0]] + s[1..];
      if StrictOrder(before) && Ascending(before, s) && x != s[0] && !before(x, s[0]) {
        var rest := Insert(before, x, s[1..]);
        forall i, j | 0 <= i < j < |[s[0]] + rest| ensures before(([s[0]] + rest)[i], ([s[0]] + rest)[j]) {
          assert rest[j - 1] in rest;
        }
      }
    }
  }

  lemma {:induction false} SortUniqueKeeps<T(!new)>(before: (T, T) -> bool, s: seq<T>)
    ensures forall y :: y in SortUnique(before, s) <==> y in s
    ensures StrictOrder(before) ==> Ascending(before, SortUnique(before, s))
  {
    if s != [] {
      SortUniqueKeeps(before, s[1..]);
      InsertKeeps(before, s[0], SortUnique(before, s[1..]));
      assert s == [s[0]] + s[1..];
    }
  }

  /** An ascending list is determined by its elements. */
  lemma {:induction false} AscendingUnique<T(!new)>(before: (T, T) -> bool, a: seq<T>, b: seq<T>)
    requires StrictOrder(before) && Ascending(before, a) && Ascending(before, b) && forall y :: y in a <==> y in b
    ensures a == b
  {
    assert a != [] ==> a[0] in a;
    assert b != [] ==> b[0] in b;
    if a != [] && b != [] {
      var i :| 0 <= i < |b| && b[i] == a[0];
      var j :| 0 <= j < |a| && a[j] == b[0];
      assert a[0] == b[0];
      forall y ensures y in a[1..] <==> y in b[1..] {
        assert y in a <==> y == a[0] || y in a[1..];
        assert y in b <==> y == b[0] || y in b[1..];
        assert a[0] !in a[1..] && b[0] !in b[1..];
      }
      AscendingUnique(before, a[1..], b[1..]);
      assert a == [a[0]] + a[1..] && b == [b[0]] + b[1..];
    }
  }

  predicate Less(a: nat, b: nat) {
    a < b
  }

  // ---- cache keys -------------------------------------------------------------------------

  datatype Mode = Inherit | Block | Monitor | Off

  function Name(mode: Mode): string {
    match mode
    case Inherit => "INHERIT"
    case Block => "BLOCK"
    case Monitor => "MONITOR"
    case Off => "OFF"
  }

  function Digit(d: nat): char
    requires d < 10
  {
    ('0' as int + d) as char
  }

  function Decimal(n: nat): (s: string)
    ensures s != []
  {
    if n < 10 then [Digit(n)] else Decimal(n / 10) + [Digit(n % 10)]
  }

  function Suffix(ids: seq<nat>): string {
    if ids == [] then "" else ":" + Decimal(ids[0]) + Suffix(ids[1..])
  }

  function CacheKey(mode: Mode, ids: seq<nat>): string {
    Name(mode) + Suffix(ids)
  }

  lemma {:induction false} DecimalIsPlain(n: nat)
    ensures ':' !in Decimal(n)
  {
    if n >= 10 { DecimalIsPlain(n / 10); }
  }

  lemma {:induction false} DecimalInjective(m: nat, n: nat)
    requires Decimal(m) == Decimal(n)
    ensures m == n
  {
    var s := Decimal(m);
    assert m >= 10 ==> s == Decimal(m / 10) + [Digit(m % 10)] && |s| > 1;
    assert n >= 10 ==> s == Decimal(n / 10) + [Digit(n % 10)] && |s| > 1;
    assert Digit(m % 10) == s[|s| - 1] == Digit(n % 10);
    if m >= 10 && n >= 10 {
      assert Decimal(m / 10) == s[..|s| - 1] == Decimal(n / 10);
      DecimalInjective(m / 10, n / 10);
    }
  }

  predicate Tail(s: string) {
    s == [] || s[0] == ':'
  }

  /** Plain text is told apart from what follows by the first colon. */
  lemma {:induction false} ColonSeparates(a: string, s: string, b: string, t: string)
    requires a + s == b + t && ':' !in a && ':' !in b && Tail(s) && Tail(t)
    ensures a == b && s == t
  {
    assert a == [] ==> a + s == s;
    assert b == [] ==> b + t == t;
    assert a != [] ==> (a + s)[0] == a[0];
    assert b != [] ==> (b + t)[0] == b[0];
    if a != [] && b != [] {
      assert (a + s)[1..] == a[1..] + s && (b + t)[1..] == b[1..] + t;
      ColonSeparates(a[1..], s, b[1..], t);
      assert a == [a[0]] + a[1..] && b == [b[0]] + b[1..];
    }
  }

  lemma {:induction false} SuffixInjective(ids: seq<nat>, others: seq<nat>)
    requires Suffix(ids) == Suffix(others)
    ensures ids == others
    decreases |ids|
  {
    if ids != [] && others != [] {
      var a, b := Decimal(ids[0]), Decimal(others[0]);
      DecimalIsPlain(ids[0]);
      DecimalIsPlain(others[0]);
      assert Suffix(ids)[1..] == a + Suffix(ids[1..]) && Suffix(others)[1..] == b + Suffix(others[1..]);
      ColonSeparates(a, Suffix(ids[1..]), b, Suffix(others[1..]));
      DecimalInjective(ids[0], others[0]);
      SuffixInjective(ids[1..], others[1..]);
      assert ids == [ids[0]] + ids[1..] && others == [others[0]] + others[1..];
    }
  }

  /** Different modes or different rule sets never share a cache entry. */
  lemma CacheKeyInjective(mode: Mode, ids: seq<nat>, mode': Mode, others: seq<nat>)
    requires CacheKey(mode, ids) == CacheKey(mode', others)
    ensures mode == mode' && ids == others
  {
    ColonSeparates(Name(mode), Suffix(ids), Name(mode'), Suffix(others));
    SuffixInjective(ids, others);
    assert Name(mode)[0] == Name(mode')[0];
  }

  // ---- the cache ------------------------------------------------------------------------------

  const MAX_VARIANTS: nat := 32
  const CLOCK_END: nat := 0xFFFF_FFFF_FFFF_FFFF

  /** A compiled rule set; what compiling does is not part of this model. */
  type Compiled = int

  datatype Entry = Entry(waf: Compiled, used: nat)

  /** The catalogued ids among those asked for, in order, once each. */
  function Selected(catalog: set<nat>, disabled: seq<nat>): seq<nat> {
    SortUnique(Less, Filter(catalog, disabled))
  }

  function Filter(catalog: set<nat>, ids: seq<nat>): seq<nat> {
    if ids == [] then []
    else Filter(catalog, ids[..|ids| - 1]) + if ids[|ids| - 1] in catalog then [ids[|ids| - 1]] else []
  }

  lemma {:induction false} FilterKeeps(catalog: set<nat>, ids: seq<nat>)
    ensures forall id :: id in Filter(catalog, ids) <==> id in ids && id in catalog
  {
    if ids != [] {
      FilterKeeps(catalog, ids[..|ids| - 1]);
      assert ids == ids[..|ids| - 1] + [ids[|ids| - 1]];
    }
  }

  /** The selection is ascending and holds exactly the catalogued ids. */
  lemma SelectedIsExact(catalog: set<nat>, disabled: seq<nat>)
    ensures Ascending(Less, Selected(catalog, disabled))
    ensures forall id :: id in Selected(catalog, disabled) <==> id in disabled && id in catalog
  {
    FilterKeeps(catalog, disabled);
    SortUniqueKeeps(Less, Filter(catalog, disabled));
  }

  predicate Base(key: string) {
    key == Name(Block) || key == Name(Monitor)
  }

  /** Some mode and rule set produce this key, and the entry is their compilation. */
  ghost predicate Memo(compile: (Mode, seq<nat>) -> Option<Compiled>, key: string, waf: Compiled) {
    exists mode, ids :: key == CacheKey(mode, ids) && compile(mode, ids) == Some(waf)
  }

  /** A cached entry is what compiling its mode and rules directly would give. */
  lemma MemoIsDirect(compile: (Mode, seq<nat>) -> Option<Compiled>, mode: Mode, ids: seq<nat>, waf: Compiled)
    requires Memo(compile, CacheKey(mode, ids), waf)
    ensures compile(mode, ids) == Some(waf)
  {
    var mode', others :| CacheKey(mode, ids) == CacheKey(mode', others) && compile(mode', others) == Some(waf);
    CacheKeyInjective(mode, ids, mode', others);
  }

  type Cache = map<string, Entry>

  /** Only the base entries may share a time of use. */
  predicate UsedApart(cache: Cache) {
    forall key, other :: key in cache && other in cache && key != other && !Base(key) && !Base(other) ==>
      cache[key].used != cache[other].used
  }

  /** `key` is the least recently used entry that is not a base one. */
  ghost predicate IsOldest(cache: Cache, key: string) {
    && key in cache && !Base(key)
    && forall other :: other in cache && !Base(other) && other != key ==> cache[key].used < cache[other].used
  }

  /** What a miss leaves behind: the new entry, at the expense of the oldest one if the cache was full. */
  ghost predicate Admits(before: Cache, after: Cache, key: string, entry: Entry) {
    if |before| < MAX_VARIANTS then after == before[key := entry]
    else exists gone :: IsOldest(before, gone) && after == (before - {gone})[key := entry]
  }

  /** Every entry is the compilation its key stands for, the base ones never go, and the table is bounded. */
  ghost predicate Sound(compile: (Mode, seq<nat>) -> Option<Compiled>, cache: Cache, clock: nat) {
    && |cache| <= MAX_VARIANTS && Name(Block) in cache && Name(Monitor) in cache && UsedApart(cache)
    && forall key :: key in cache ==> cache[key].used <= clock && Memo(compile, key, cache[key].waf)
  }

  lemma StoreKeepsSound(
    compile: (Mode, seq<nat>) -> Option<Compiled>, cache: Cache, clock: nat, key: string, waf: Compiled)
    requires Sound(compile, cache, clock) && Memo(compile, key, waf) && (key in cache || |cache| < MAX_VARIANTS)
    requires forall other :: other in cache ==> cache[other].used < clock
    ensures Sound(compile, cache[key := Entry(waf, clock)], clock)
  {
  }

  lemma EvictKeepsSound(compile: (Mode, seq<nat>) -> Option<Compiled>, cache: Cache, clock: nat, gone: string)
    requires Sound(compile, cache, clock) && gone in cache && !Base(gone)
    ensures Sound(compile, cache - {gone}, clock) && |cache - {gone}| == |cache| - 1
  {
  }

  // ---- least recently used, told from the requests ------------------------------------------

  /** How many requests had been made when `key` was last asked for; zero if never. */
  function LastAsked(requests: seq<string>, key: string): (n: nat)
    ensures n <= |requests| && (n > 0 <==> key in requests)
  {
    if requests == [] then 0
    else if requests[|requests| - 1] == key then |requests|
    else LastAsked(requests[..|requests| - 1], key)
  }

  lemma LastAskedNext(requests: seq<string>, asked: string, key: string)
    ensures LastAsked(requests + [asked], key) ==
      if key == asked then |requests| + 1 else LastAsked(requests, key)
  {
    assert (requests + [asked])[..|requests|] == requests;
  }

  /** Every entry is marked with the time it was last asked for. */
  ghost predicate Marked(cache: Cache, requests: seq<string>) {
    forall key :: key in cache && !Base(key) ==> cache[key].used == LastAsked(requests, key)
  }

  /** What a request does to the cache: a hit is marked, a miss that is not kept changes nothing, and one that is
      kept may cost the oldest entry. */
  ghost predicate Answered(before: Cache, after: Cache, key: string, clock: nat) {
    if key in before then after == before[key := Entry(before[key].waf, clock)]
    else after == before || exists waf :: Admits(before, after, key, Entry(waf, clock))
  }

  /** Over every sequence of requests entries stay marked with the time they were last asked for. */
  lemma RequestsMark(before: Cache, after: Cache, requests: seq<string>, key: string)
    requires Marked(before, requests) && Answered(before, after, key, |requests| + 1)
    ensures Marked(after, requests + [key])
  {
    forall other | other in after && !Base(other)
      ensures after[other].used == LastAsked(requests + [key], other)
    {
      LastAskedNext(requests, key, other);
    }
  }

  /** So the entry that goes is the one whose last request lies furthest back, base entries apart. */
  lemma EvictsLeastRecent(cache: Cache, requests: seq<string>, gone: string, other: string)
    requires Marked(cache, requests) && IsOldest(cache, gone) && other in cache && !Base(other) && other != gone
    ensures LastAsked(requests, gone) < LastAsked(requests, other)
  {
  }

  class Engine {
    const compile: (Mode, seq<nat>) -> Option<Compiled>
    const catalog: set<nat>
    var variants: Cache
    var clock: nat
    var closed: bool

    ghost predicate Valid()
      reads this
    {
      Sound(compile, variants, clock)
    }

    constructor (compile: (Mode, seq<nat>) -> Option<Compiled>, catalog: set<nat>, block: Compiled, monitor: Compiled)
      requires compile(Block, []) == Some(block) && compile(Monitor, []) == Some(monitor)
      ensures Valid() && variants.Keys == {Name(Block), Name(Monitor)} && !closed && clock == 0
    {
      this.compile, this.catalog := compile, catalog;
      variants := map[Name(Block) := Entry(block, 0), Name(Monitor) := Entry(monitor, 0)];
      clock, closed := 0, false;
      assert Name(Block) == CacheKey(Block, []) && Name(Monitor) == CacheKey(Monitor, []);
    }

    method Oldest() returns (oldestKey: string)
      requires Valid() && |variants| >= MAX_VARIANTS && clock < CLOCK_END
      ensures IsOldest(variants, oldestKey)
    {
      oldestKey := "";
      var oldest := CLOCK_END;
      var rest := variants.Keys;
      while rest != {}
        invariant rest <= variants.Keys
        invariant oldest == CLOCK_END ||
          (oldestKey in variants && !Base(oldestKey) && variants[oldestKey].used == oldest)
        invariant forall key :: key in variants && !Base(key) && key !in rest ==>
          oldest <= variants[key].used && oldest < CLOCK_END
      {
        var key :| key in rest;
        if key != Name(Block) && key != Name(Monitor) && variants[key].used < oldest {
          oldestKey, oldest := key, variants[key].used;
        }
        rest := rest - {key};
      }
      ThirdKey(variants.Keys);
    }

    method Select(disabled: seq<nat>) returns (ids: seq<nat>)
      ensures ids == Selected(catalog, disabled)
    {
      ids := [];
      for i := 0 to |disabled|
        invariant ids == Filter(catalog, disabled[..i])
      {
        assert disabled[..i + 1][..i] == disabled[..i];
        if disabled[i] in catalog { ids := ids + [disabled[i]]; }
      }
      assert disabled[..|disabled|] == disabled;
      ids := SortUnique(Less, ids);
    }

    /** Caches a fresh compilation, evicting if the cache is full. */
    method Admit(key: string, waf: Compiled)
      requires Valid() && Memo(compile, key, waf) && key !in variants && clock < CLOCK_END
      requires forall other :: other in variants ==> variants[other].used < clock
      modifies this`variants
      ensures Valid() && Admits(old(variants), variants, key, Entry(waf, clock))
    {
      if |variants| >= MAX_VARIANTS {
        var gone := Oldest();
        EvictKeepsSound(compile, variants, clock, gone);
        variants := variants - {gone};
      }
      StoreKeepsSound(compile, variants, clock, key, waf);
      variants := variants[key := Entry(waf, clock)];
    }

    /** Compiled rules for a mode and the catalogued part of `disabled`, from the cache if possible. */
    method Variant(mode: Mode, disabled: seq<nat>) returns (r: Option<Compiled>)
      requires Valid() && clock + 1 < CLOCK_END
      modifies this`variants, this`clock
      ensures Valid() && clock == old(clock) + 1
      ensures r == compile(mode, Selected(catalog, disabled))
      ensures var key := CacheKey(mode, Selected(catalog, disabled));
              if key in old(variants) then r.Some? && variants == old(variants)[key := Entry(r.value, clock)]
              else if r.None? || closed then variants == old(variants)
              else Admits(old(variants), variants, key, Entry(r.value, clock))
      ensures Answered(old(variants), variants, CacheKey(mode, Selected(catalog, disabled)), clock)
    {
      var ids := Select(disabled);
      var key := CacheKey(mode, ids);
      clock := clock + 1;
      if key in variants {
        MemoIsDirect(compile, mode, ids, variants[key].waf);
        r := Some(variants[key].waf);
        StoreKeepsSound(compile, variants, clock, key, r.value);
        variants := variants[key := variants[key].(used := clock)];
        return;
      }
      r := compile(mode, ids);
      if r.None? || closed { return; }
      assert Memo(compile, key, r.value);
      Admit(key, r.value);
    }

    method Close()
      requires Valid()
      modifies this`closed
      ensures Valid() && closed
    {
      closed := true;
    }
  }

  lemma DropOne(keys: set<string>, key: string)
    ensures |keys - {key}| >= |keys| - 1
  {
  }

  lemma ThirdKey(keys: set<string>)
    requires |keys| > 2
    ensures exists key :: key in keys && !Base(key)
  {
    DropOne(keys, Name(Block));
    DropOne(keys - {Name(Block)}, Name(Monitor));
    var key :| key in keys - {Name(Block)} - {Name(Monitor)};
  }
}

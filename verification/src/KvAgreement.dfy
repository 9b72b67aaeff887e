/** The memory and SQLite providers, driven by the same operations, cannot be told apart. */
module KvAgreement {
  import opened Identifiers
  import opened Nodes
  import opened KeyValue

  datatype Op =
    | On(k: Key, change: Change)
    | Import(items: seq<(Key, Cell)>)
    | RemoveKeys(keys: seq<Key>)
    | Get(k: Key)
    | PrefixList(k: Key)
    | PrefixContains(k: Key, child: Blob)
    | Export(keys: seq<Key>)
    | ListKeys(prefix: Key)
    | RangeKeys(low: Id, high: Id)

  datatype Result =
    | Answered(answer: Answer)
    | Value(value: Option<Blob>)
    | Children(children: set<Blob>)
    | Present(present: bool)
    | Exported(cells: seq<Cell>)
    | Listed(listed: set<(Kind, Key)>)
    | Ranged(keys: set<Key>)

  function After(b: Backend, t: Table, op: Op): Table {
    match op
    case On(k, change) => Next(b, t, k, change)
    case Import(items) => Imported(b, t, items)
    case RemoveKeys(keys) => Without(t, keys)
    case _ => t
  }

  /** `r` is what a provider showing table `t` returns for `op`; the read operations have the
      contracts both providers are proved against. */
  ghost predicate Returns(b: Backend, hash: Key -> Id, t: Table, op: Op, r: Result) {
    match op
    case On(k, change) => r == Answered(Reply(b, t, k, change))
    case Import(_) => r == Answered(Fine)
    case RemoveKeys(_) => r == Answered(Fine)
    case Get(k) => r == Value(Look(t, k).value)
    case PrefixList(k) => r == Children(Look(t, k).children)
    case PrefixContains(k, child) => r == Present(child in Look(t, k).children)
    case Export(keys) => r.Exported? && Exports(t, keys, r.cells)
    case ListKeys(prefix) => r.Listed? && ListsKeys(t, prefix, r.listed)
    case RangeKeys(low, high) => r.Ranged? && ListsRange(hash, t, low, high, r.keys)
  }

  /** The operation stays clear of the documented differences between the providers. */
  predicate CommonOp(t: Table, op: Op) {
    match op
    case On(k, change) => Common(Look(t, k), change)
    case Import(items) => CommonImport(t, items)
    case _ => true
  }

  predicate CommonImport(t: Table, items: seq<(Key, Cell)>) {
    items != [] ==>
      var n := |items| - 1;
      CommonImport(t, items[..n]) && Common(Look(Imported(Memory, t, items[..n]), items[n].0), Receive(items[n].1))
  }

  ghost predicate Runs(b: Backend, hash: Key -> Id, t: Table, ops: seq<Op>, results: seq<Result>)
    decreases |ops|
  {
    |results| == |ops| &&
    (ops != [] ==>
       Returns(b, hash, t, ops[0], results[0]) && Runs(b, hash, After(b, t, ops[0]), ops[1..], results[1..]))
  }

  predicate AllCommon(t: Table, ops: seq<Op>)
    decreases |ops|
  {
    ops != [] ==> CommonOp(t, ops[0]) && AllCommon(After(Memory, t, ops[0]), ops[1..])
  }

  lemma {:induction false} ImportsAgree(t: Table, items: seq<(Key, Cell)>)
    requires CommonImport(t, items)
    ensures Imported(Memory, t, items) == Imported(Sqlite, t, items)
  {
    if items != [] {
      var n := |items| - 1;
      ImportsAgree(t, items[..n]);
      BackendsAgreeIff(Look(Imported(Memory, t, items[..n]), items[n].0), Receive(items[n].1));
    }
  }

  lemma StepsAgree(hash: Key -> Id, t: Table, op: Op, r: Result, r': Result)
    requires CommonOp(t, op) && Returns(Memory, hash, t, op, r) && Returns(Sqlite, hash, t, op, r')
    ensures r == r' && After(Memory, t, op) == After(Sqlite, t, op)
  {
    match op
    case On(k, change) => BackendsAgreeIff(Look(t, k), change);
    case Import(items) => ImportsAgree(t, items);
    case Export(keys) => assert r.cells == r'.cells;
    case ListKeys(prefix) =>
      forall p ensures p in r.listed <==> p in r'.listed { assert p == (p.0, p.1); }
      assert r.listed == r'.listed;
    case RangeKeys(low, high) => assert r.keys == r'.keys;
    case _ =>
  }

  /** The same operations at the same clock readings give the same results, errors, lookups,
      listings, ranges and exports, whatever the starting table. */
  lemma {:induction false} ProvidersAgree(
    hash: Key -> Id, t: Table, ops: seq<Op>, results: seq<Result>, results': seq<Result>)
    requires AllCommon(t, ops) && Runs(Memory, hash, t, ops, results) && Runs(Sqlite, hash, t, ops, results')
    ensures results == results'
    decreases |ops|
  {
    if ops != [] {
      StepsAgree(hash, t, ops[0], results[0], results'[0]);
      ProvidersAgree(hash, After(Memory, t, ops[0]), ops[1..], results[1..], results'[1..]);
      assert results == [results[0]] + results[1..] && results' == [results'[0]] + results'[1..];
    }
  }

  /** Asking for the range from zero to zero lists every live key. */
  lemma ZeroRangeListsAll(hash: Key -> Id, t: Table, keys: set<Key>)
    requires ListsRange(hash, t, 0, 0, keys)
    ensures keys == t.Keys
  {
  }
}

/** What the append-only provider holds after any accepted mutations, told from the mutations alone. */
module LogHistory {
  import opened Nodes
  import opened KeyValue
  import opened WriteAheadLog

  // ---- children -------------------------------------------------------------------------------

  ghost predicate Carries(items: seq<(Key, Cell)>, k: Key, child: Blob) {
    exists i :: 0 <= i < |items| && items[i].0 == k && child in items[i].1.children
  }

  lemma {:induction false} ImportAddsChildren(t: Table, items: seq<(Key, Cell)>, k: Key, child: Blob)
    ensures child in Look(Imported(Memory, t, items), k).children <==>
      child in Look(t, k).children || Carries(items, k, child)
  {
    if items != [] {
      var last := |items| - 1;
      ImportAddsChildren(t, items[..last], k, child);
      assert Carries(items, k, child) <==>
        Carries(items[..last], k, child) || (items[last].0 == k && child in items[last].1.children) by
      {
        if i :| 0 <= i < |items| && items[i].0 == k && child in items[i].1.children {
          assert i < last ==> items[..last][i] == items[i];
        }
        if i :| 0 <= i < last && items[..last][i].0 == k && child in items[..last][i].1.children {
          assert items[i] == items[..last][i];
        }
      }
    }
  }

  /** The mutation says whether `child` is present under `k`. */
  ghost predicate Settles(m: Mutation, k: Key, child: Blob) {
    match m
    case PrefixAppend(x, c) => x == k && c == child
    case PrefixRemove(x, c) => x == k && c == child
    case Import(items) => Carries(items, k, child)
    case RemoveKeys(keys) => k in keys
    case _ => false
  }

  ghost predicate LastSettles(ms: seq<Mutation>, k: Key, child: Blob, i: nat) {
    i < |ms| && Settles(ms[i], k, child) && forall j :: i < j < |ms| ==> !Settles(ms[j], k, child)
  }

  lemma MutationSettles(t: Table, m: Mutation, k: Key, child: Blob)
    ensures child in Look(Mutated(t, m), k).children <==>
      if Settles(m, k, child) then m.PrefixAppend? || m.Import? else child in Look(t, k).children
  {
    match m
    case Import(items) => ImportAddsChildren(t, items, k, child);
    case RemoveKeys(keys) => LookWithout(t, keys, k);
    case _ =>
  }

  /** A child is there if and only if the last mutation that settles it appends or imports it. */
  lemma {:induction false} ChildIsLastSettled(ms: seq<Mutation>, k: Key, child: Blob)
    ensures child in Look(Live(ms), k).children <==>
      exists i: nat :: LastSettles(ms, k, child, i) && (ms[i].PrefixAppend? || ms[i].Import?)
  {
    if ms != [] {
      var last := |ms| - 1;
      var front := ms[..last];
      ChildIsLastSettled(front, k, child);
      MutationSettles(Live(front), ms[last], k, child);
      if Settles(ms[last], k, child) {
        assert LastSettles(ms, k, child, last);
      } else {
        forall i: nat ensures LastSettles(ms, k, child, i) <==> LastSettles(front, k, child, i) {
          assert i < last ==> front[i] == ms[i];
        }
      }
    }
  }

  // ---- values ---------------------------------------------------------------------------------

  /** The value `items` bring for `k`: that of the last one, if there is one. */
  function Brought(items: seq<(Key, Cell)>, k: Key): Option<Option<Blob>> {
    if items == [] then None
    else if items[|items| - 1].0 == k then Some(items[|items| - 1].1.value)
    else Brought(items[..|items| - 1], k)
  }

  lemma {:induction false} ImportBrings(t: Table, items: seq<(Key, Cell)>, k: Key)
    ensures Look(Imported(Memory, t, items), k).value ==
      if Brought(items, k).Some? then Brought(items, k).value else Look(t, k).value
  {
    if items != [] { ImportBrings(t, items[..|items| - 1], k); }
  }

  predicate SettlesValue(m: Mutation, k: Key) {
    match m
    case SimplePut(x, _) => x == k
    case SimpleDelete(x) => x == k
    case Import(items) => Brought(items, k).Some?
    case RemoveKeys(keys) => k in keys
    case _ => false
  }

  ghost predicate LastValue(ms: seq<Mutation>, k: Key, i: nat) {
    i < |ms| && SettlesValue(ms[i], k) && forall j :: i < j < |ms| ==> !SettlesValue(ms[j], k)
  }

  lemma MutationSettlesValue(t: Table, m: Mutation, k: Key)
    ensures Look(Mutated(t, m), k).value ==
      if !SettlesValue(m, k) then Look(t, k).value
      else if m.SimplePut? then m.value
      else if m.Import? then Brought(m.items, k).value
      else None
  {
    match m
    case Import(items) => ImportBrings(t, items, k);
    case RemoveKeys(keys) => LookWithout(t, keys, k);
    case _ =>
  }

  lemma {:induction false} UnsettledIsNone(ms: seq<Mutation>, k: Key)
    requires forall j :: 0 <= j < |ms| ==> !SettlesValue(ms[j], k)
    ensures Look(Live(ms), k).value == None
  {
    if ms != [] {
      UnsettledIsNone(ms[..|ms| - 1], k);
      MutationSettlesValue(Live(ms[..|ms| - 1]), ms[|ms| - 1], k);
    }
  }

  /** The value is the one last put or imported, and none once it is deleted or the key removed. */
  lemma {:induction false} ValueIsLastSettled(ms: seq<Mutation>, k: Key, i: nat)
    requires LastValue(ms, k, i)
    ensures var value := Look(Live(ms), k).value;
            match ms[i]
            case SimplePut(_, v) => value == v
            case Import(items) => Some(value) == Brought(items, k)
            case _ => value == None
    decreases |ms|
  {
    var last := |ms| - 1;
    MutationSettlesValue(Live(ms[..last]), ms[last], k);
    if i < last { ValueIsLastSettled(ms[..last], k, i); }
  }
}

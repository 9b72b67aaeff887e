/** The append-only provider: a log of mutations in front of the in-memory one. */
module WriteAheadLog {
  import opened Identifiers
  import opened Nodes
  import opened KeyValue
  import opened MemoryStore

  datatype Mutation =
    | SimplePut(k: Key, value: Option<Blob>)
    | SimpleDelete(k: Key)
    | PrefixAppend(k: Key, child: Blob)
    | PrefixRemove(k: Key, child: Blob)
    | Import(items: seq<(Key, Cell)>)
    | RemoveKeys(keys: seq<Key>)

  /** What a mutation reads back as: the log's wire format omits an empty value, so it returns as nil. */
  function Logged(m: Mutation): Mutation {
    if m.SimplePut? && m.value == Some([]) then m.(value := None) else m
  }

  function LoggedAll(ms: seq<Mutation>): (r: seq<Mutation>)
    ensures |r| == |ms| && forall i :: 0 <= i < |ms| ==> r[i] == Logged(ms[i])
  {
    seq(|ms|, i requires 0 <= i < |ms| => Logged(ms[i]))
  }

  function Mutated(t: Table, m: Mutation): Table {
    match m
    case SimplePut(k, value) => Next(Memory, t, k, Put(value))
    case SimpleDelete(k) => Next(Memory, t, k, Delete)
    case PrefixAppend(k, child) => Next(Memory, t, k, Append(child))
    case PrefixRemove(k, child) => Next(Memory, t, k, Remove(child))
    case Import(items) => Imported(Memory, t, items)
    case RemoveKeys(keys) => Without(t, keys)
  }

  /** The only mutation a table can reject is a duplicate append. */
  predicate Rejects(t: Table, m: Mutation) {
    m.PrefixAppend? && m.child in Look(t, m.k).children
  }

  function Live(ms: seq<Mutation>): Table {
    if ms == [] then map[] else Mutated(Live(ms[..|ms| - 1]), ms[|ms| - 1])
  }

  lemma LiveAppends(ms: seq<Mutation>, m: Mutation)
    ensures Live(ms + [m]) == Mutated(Live(ms), m)
  {
    assert (ms + [m])[..|ms|] == ms;
  }

  lemma LiveGrows(ms: seq<Mutation>, i: nat)
    requires i < |ms|
    ensures Live(ms[..i + 1]) == Mutated(Live(ms[..i]), ms[i])
  {
    LiveAppends(ms[..i], ms[i]);
    assert ms[..i + 1] == ms[..i] + [ms[i]];
  }

  // ---- what survives a restart: values and children, not leases --------------------------------

  predicate SameDurable(c: Cell, d: Cell) {
    c.value == d.value && c.children == d.children
  }

  ghost predicate Durably(t: Table, u: Table) {
    forall k :: SameDurable(Look(t, k), Look(u, k))
  }

  lemma LookWithout(t: Table, keys: seq<Key>, k: Key)
    ensures Look(Without(t, keys), k) == if k in keys then Blank else Look(t, k)
  {
  }

  lemma {:induction false} ImportDurably(t: Table, u: Table, items: seq<(Key, Cell)>)
    requires Durably(t, u)
    ensures Durably(Imported(Memory, t, items), Imported(Memory, u, items))
  {
    if items != [] { ImportDurably(t, u, items[..|items| - 1]); }
  }

  /** Leases never influence values, children or rejections. */
  lemma MutateDurably(t: Table, u: Table, m: Mutation)
    requires Durably(t, u)
    ensures Durably(Mutated(t, m), Mutated(u, m)) && (Rejects(t, m) <==> Rejects(u, m))
  {
    match m
    case Import(items) => ImportDurably(t, u, items);
    case RemoveKeys(keys) =>
      forall k ensures SameDurable(Look(Mutated(t, m), k), Look(Mutated(u, m), k)) {
        LookWithout(t, keys, k);
        LookWithout(u, keys, k);
      }
    case _ => assert SameDurable(Look(t, m.k), Look(u, m.k));
  }

  /** A rejected append changes nothing. */
  lemma RejectedIsNoChange(t: Table, m: Mutation)
    requires Rejects(t, m)
    ensures Durably(Mutated(t, m), t)
  {
  }

  class DiskKv {
    const mem: MemoryKv
    var log: seq<Mutation>
    var counter: nat
    /** The entry that could not be read when the log was opened, if any. */
    var unreadable: Option<nat>
    ghost var accepted: seq<Mutation>

    /** The log holds the accepted mutations, and memory shows their effect. */
    ghost predicate Valid()
      reads this, mem
    {
      mem.Valid() && counter == |log| + 1 && log == LoggedAll(accepted) && Durably(mem.model, Live(accepted))
    }

    /** Opens a log and replays it; an entry whose read, checksum or decoding fails ends the attempt. */
    constructor (hash: Key -> Id, log: seq<Mutation>, readable: seq<bool>)
      requires LoggedAll(log) == log && |readable| == |log|
      ensures unreadable.None? <==> forall i :: 0 <= i < |log| ==> readable[i]
      ensures unreadable.Some? ==> unreadable.value < |log| && !readable[unreadable.value]
      ensures unreadable.None? ==> Valid() && this.log == log && accepted == log && fresh(mem)
    {
      mem := new MemoryKv(hash);
      this.log, counter, unreadable, accepted := log, 0, None, log;
      new;
      var bad := ReplayLogs(readable);
      unreadable := bad;
    }

    method ReplayLogs(readable: seq<bool>) returns (bad: Option<nat>)
      requires mem.Valid() && mem.model == map[] && LoggedAll(log) == log && accepted == log && |readable| == |log|
      modifies this, mem
      ensures log == old(log) && accepted == old(accepted)
      ensures bad.None? ==> Valid() && forall i :: 0 <= i < |log| ==> readable[i]
      ensures bad.Some? ==> bad.value < |log| && !readable[bad.value] && forall i :: 0 <= i < bad.value ==> readable[i]
    {
      var index := |log|;
      ghost var replayed: Table := map[];
      for i := 0 to index
        invariant log == old(log) && accepted == old(accepted) && index == |log|
        invariant mem.Valid() && mem.model == replayed && replayed == Live(log[..i])
        invariant forall k :: 0 <= k < i ==> readable[k]
      {
        if !readable[i] { return Some(i); }
        LiveGrows(log, i);
        var error := HandleMutation(log[i]);
        replayed := mem.model;
        // A rejected duplicate append may have survived a crash; it leaves the state unchanged.
        assert error.Some? ==> log[i].PrefixAppend? && error.value == PrefixConflict;
      }
      assert log[..index] == log;
      counter := index + 1;
      return None;
    }

    method HandleMutation(m: Mutation) returns (error: Option<KvError>)
      requires mem.Valid()
      modifies mem
      ensures mem.Valid() && mem.model == Mutated(old(mem.model), m)
      ensures error == if Rejects(old(mem.model), m) then Some(PrefixConflict) else None
    {
      error := None;
      match m
      case SimplePut(k, value) => mem.Put(k, value);
      case SimpleDelete(k) => mem.Delete(k);
      case PrefixAppend(k, child) =>
        var a := mem.PrefixAppend(k, child);
        if a.Refused? { error := Some(a.error); }
      case PrefixRemove(k, child) => mem.PrefixRemove(k, child);
      case Import(items) => mem.Import(items);
      case RemoveKeys(keys) => mem.RemoveKeys(keys);
    }

    method AppendLog(m: Mutation)
      requires counter == |log| + 1
      modifies this
      ensures log == old(log) + [Logged(m)] && counter == |log| + 1 && accepted == old(accepted)
    {
      log := log + [Logged(m)];
      counter := counter + 1;
    }

    /** Truncates the last entry away; the log library refuses to truncate below index 1. */
    method RollbackOne()
      requires counter == |log| + 1 && |log| >= 2
      modifies this
      ensures log == old(log[..|log| - 1]) && counter == |log| + 1 && accepted == old(accepted)
    {
      counter := counter - 1;
      log := log[..counter - 1];
    }

    /** One request of the writer loop: append, apply, and roll back what was rejected. */
    method Submit(m: Mutation) returns (error: Option<KvError>)
      requires Valid()
      modifies this, mem
      ensures Valid()
      ensures error == if Rejects(Live(old(accepted)), m) then Some(PrefixConflict) else None
      ensures accepted == if error.None? then old(accepted) + [m] else old(accepted)
    {
      ghost var before := mem.model;
      AppendLog(m);
      error := HandleMutation(m);
      SubmitIsTracked(before, accepted, m);
      if error.Some? {
        RollbackOne();
      } else {
        accepted := accepted + [m];
      }
    }

    /** Leases live in memory only. */
    method Acquire(k: Key, ttl: int, now: int) returns (a: Answer)
      requires Valid()
      modifies mem
      ensures Valid() && a == Reply(Memory, old(mem.model), k, Change.Acquire(ttl, now))
    {
      a := mem.Acquire(k, ttl, now);
    }

    method Renew(k: Key, ttl: int, now: int, previous: Word) returns (a: Answer)
      requires Valid()
      modifies mem
      ensures Valid() && a == Reply(Memory, old(mem.model), k, Change.Renew(ttl, now, previous))
    {
      a := mem.Renew(k, ttl, now, previous);
    }

    method Release(k: Key, token: Word) returns (a: Answer)
      requires Valid()
      modifies mem
      ensures Valid() && a == Reply(Memory, old(mem.model), k, Change.Release(token))
    {
      a := mem.Release(k, token);
    }
  }

  /** A mutation is only ever rejected after another one: a rollback keeps at least one entry. */
  lemma NothingToRejectAtFirst(accepted: seq<Mutation>, m: Mutation)
    requires Rejects(Live(accepted), m)
    ensures accepted != []
  {
  }

  /** What one request does to memory and to the accepted mutations, in both outcomes. */
  lemma SubmitIsTracked(before: Table, accepted: seq<Mutation>, m: Mutation)
    requires Durably(before, Live(accepted))
    ensures Rejects(before, m) <==> Rejects(Live(accepted), m)
    ensures Rejects(before, m) ==> accepted != [] && Durably(Mutated(before, m), Live(accepted))
    ensures Durably(Mutated(before, m), Live(accepted + [m]))
    ensures LoggedAll(accepted + [m]) == LoggedAll(accepted) + [Logged(m)]
  {
    MutateDurably(before, Live(accepted), m);
    LiveAppends(accepted, m);
    if Rejects(before, m) {
      RejectedAppend(before, Live(accepted), m);
      NothingToRejectAtFirst(accepted, m);
    }
  }

  lemma RejectedAppend(before: Table, after: Table, m: Mutation)
    requires Rejects(before, m) && Durably(before, after)
    ensures Durably(Mutated(before, m), after)
  {
    RejectedIsNoChange(before, m);
    forall k ensures SameDurable(Look(Mutated(before, m), k), Look(after, k)) {
      assert SameDurable(Look(Mutated(before, m), k), Look(before, k)) && SameDurable(Look(before, k), Look(after, k));
    }
  }

  // ---- what replaying a log rebuilds -------------------------------------------------------------

  predicate Touches(items: seq<(Key, Cell)>, k: Key) {
    items != [] && (items[|items| - 1].0 == k || Touches(items[..|items| - 1], k))
  }

  function LostAfter(lost: set<Key>, m: Mutation): set<Key> {
    match m
    case SimplePut(k, value) => if value == Some([]) then lost + {k} else lost - {k}
    case SimpleDelete(k) => lost - {k}
    case Import(items) => set k | k in lost && !Touches(items, k)
    case RemoveKeys(keys) => set k | k in lost && k !in keys
    case _ => lost
  }

  /** Keys whose value was last written by a put of an empty value. */
  function Emptied(ms: seq<Mutation>): set<Key> {
    if ms == [] then {} else LostAfter(Emptied(ms[..|ms| - 1]), ms[|ms| - 1])
  }

  /** Replayed is the live cell, without the value if it is lost. */
  predicate Rebuilt(live: Cell, back: Cell, lost: bool) {
    && back.children == live.children && back.value == (if lost then None else live.value)
    && (lost ==> live.value == Some([]))
  }

  lemma {:induction false} ImportRebuilds(t: Table, u: Table, items: seq<(Key, Cell)>, lost: bool, k: Key)
    requires Rebuilt(Look(t, k), Look(u, k), lost)
    ensures Rebuilt(Look(Imported(Memory, t, items), k), Look(Imported(Memory, u, items), k),
                    lost && !Touches(items, k))
  {
    if items != [] { ImportRebuilds(t, u, items[..|items| - 1], lost, k); }
  }

  lemma StepRebuilds(t: Table, u: Table, m: Mutation, lost: set<Key>, k: Key)
    requires Rebuilt(Look(t, k), Look(u, k), k in lost)
    ensures Rebuilt(Look(Mutated(t, m), k), Look(Mutated(u, Logged(m)), k), k in LostAfter(lost, m))
  {
    match m
    case Import(items) => ImportRebuilds(t, u, items, k in lost, k);
    case RemoveKeys(keys) =>
      LookWithout(t, keys, k);
      LookWithout(u, keys, k);
    case _ =>
  }

  /** Exactly what a replay rebuilds, for every sequence of mutations: everything but the empty
      values that a put wrote last. */
  lemma {:induction false} ReplayRebuilds(ms: seq<Mutation>, k: Key)
    ensures Rebuilt(Look(Live(ms), k), Look(Live(LoggedAll(ms)), k), k in Emptied(ms))
  {
    if ms != [] {
      var front, m := ms[..|ms| - 1], ms[|ms| - 1];
      ReplayRebuilds(front, k);
      assert LoggedAll(ms)[..|ms| - 1] == LoggedAll(front);
      StepRebuilds(Live(front), Live(LoggedAll(front)), m, Emptied(front), k);
    }
  }

  /** A restart rebuilds the values and children exactly when no value is an empty put. */
  lemma ReplayIsExactIff(ms: seq<Mutation>)
    ensures Durably(Live(LoggedAll(ms)), Live(ms)) <==> Emptied(ms) == {}
  {
    forall k { ReplayRebuilds(ms, k); }
    if Emptied(ms) != {} {
      var k :| k in Emptied(ms);
      ReplayRebuilds(ms, k);
      assert !SameDurable(Look(Live(LoggedAll(ms)), k), Look(Live(ms), k));
    }
  }

  predicate EmptyPut(m: Mutation) {
    m.SimplePut? && m.value == Some([])
  }

  /** Every prefix of the log is exact if and only if no put ever carried an empty value. */
  lemma EveryPrefixExactIff(ms: seq<Mutation>)
    ensures (forall n :: 0 <= n <= |ms| ==> Durably(Live(LoggedAll(ms)[..n]), Live(ms[..n])))
            <==> forall m :: m in ms ==> !EmptyPut(m)
  {
    forall n | 0 <= n <= |ms| ensures LoggedAll(ms)[..n] == LoggedAll(ms[..n]) {}
    if forall m :: m in ms ==> !EmptyPut(m) {
      forall n | 0 <= n <= |ms| ensures Durably(Live(LoggedAll(ms)[..n]), Live(ms[..n])) {
        NoEmptyPuts(ms[..n]);
        ReplayIsExactIff(ms[..n]);
      }
    } else {
      var i :| 0 <= i < |ms| && EmptyPut(ms[i]);
      assert ms[..i + 1][..i] == ms[..i];
      assert ms[i].k in Emptied(ms[..i + 1]);
      ReplayIsExactIff(ms[..i + 1]);
      assert !Durably(Live(LoggedAll(ms)[..i + 1]), Live(ms[..i + 1]));
    }
  }

  lemma {:induction false} NoEmptyPuts(ms: seq<Mutation>)
    requires forall m :: m in ms ==> !EmptyPut(m)
    ensures Emptied(ms) == {}
  {
    if ms != [] {
      NoEmptyPuts(ms[..|ms| - 1]);
      assert ms[|ms| - 1] in ms;
    }
  }

  /** It does happen: an empty value put and acknowledged is gone after a restart. */
  lemma EmptyValueIsLost(k: Key)
    ensures Look(Live([SimplePut(k, Some([]))]), k).value == Some([])
    ensures Look(Live(LoggedAll([SimplePut(k, Some([]))])), k) == Blank
  {
  }

  // ---- crashes -------------------------------------------------------------------------------------

  /** Whatever prefix of the log survives a crash, before a request, after its append, or after it
      was rejected but before the rollback, replaying it never fails and rebuilds the state after a
      prefix of the accepted mutations as the log records them. */
  lemma CrashRebuildsPrefix(accepted: seq<Mutation>, m: Mutation, n: nat)
    requires n <= |accepted| + 1
    ensures var log := LoggedAll(accepted) + [Logged(m)];
            var done := if Rejects(Live(accepted), m) then accepted else accepted + [m];
            exists j :: 0 <= j <= |done| && n - 1 <= j <= n && Durably(Live(log[..n]), Live(LoggedAll(done[..j])))
  {
    var log := LoggedAll(accepted) + [Logged(m)];
    var done := if Rejects(Live(accepted), m) then accepted else accepted + [m];
    if n <= |accepted| {
      assert log[..n] == LoggedAll(done[..n]);
      assert Durably(Live(log[..n]), Live(LoggedAll(done[..n])));
    } else if Rejects(Live(accepted), m) {
      assert log[..n] == log && log[..|accepted|] == LoggedAll(accepted) && done[..|accepted|] == accepted;
      ReplayRebuilds(accepted, m.k);
      RejectedIsNoChange(Live(LoggedAll(accepted)), m);
      assert Durably(Live(log[..n]), Live(LoggedAll(done[..n - 1])));
    } else {
      assert log[..n] == LoggedAll(done[..n]);
      assert Durably(Live(log[..n]), Live(LoggedAll(done[..n])));
    }
  }
}

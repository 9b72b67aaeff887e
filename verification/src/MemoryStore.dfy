/** The in-memory provider: cells in buckets by hash, with blank cells left behind. */
module MemoryStore {
  import opened Identifiers
  import opened Nodes
  import opened KeyValue

  type Buckets = map<Id, map<Key, Cell>>

  function View(hash: Key -> Id, s: Buckets, k: Key): Cell {
    if hash(k) in s && k in s[hash(k)] then s[hash(k)][k] else Blank
  }

  /** Buckets hold only their own keys, and show exactly the cells of the table. */
  ghost predicate Shows(hash: Key -> Id, s: Buckets, t: Table) {
    && NoBlanks(t)
    && (forall h, k :: h in s && k in s[h] ==> hash(k) == h)
    && (forall k :: View(hash, s, k) == Look(t, k))
  }

  class MemoryKv {
    const hash: Key -> Id
    var s: Buckets
    ghost var model: Table

    ghost predicate Valid()
      reads this
    {
      Shows(hash, s, model)
    }

    constructor (hash: Key -> Id)
      ensures Valid() && this.hash == hash && model == map[]
    {
      this.hash, s, model := hash, map[], map[];
    }

    /** The cell of a key, creating a blank one if there is none. */
    method Fetch(k: Key) returns (c: Cell)
      requires Valid()
      modifies this
      ensures Valid() && model == old(model) && c == Look(model, k) && hash(k) in s && k in s[hash(k)]
    {
      var h := hash(k);
      if h !in s { s := s[h := map[]]; }
      if k !in s[h] { s := s[h := s[h][k := Blank]]; }
      c := s[h][k];
    }

    /** Overwrites a fetched cell. */
    method Write(k: Key, c: Cell)
      requires Valid() && hash(k) in s && k in s[hash(k)]
      modifies this
      ensures Valid() && model == Store(old(model), k, c)
    {
      s := s[hash(k) := s[hash(k)][k := c]];
      model := Store(model, k, c);
    }

    method Put(k: Key, value: Option<Blob>)
      requires Valid()
      modifies this
      ensures Valid() && model == Next(Memory, old(model), k, Change.Put(value))
    {
      var c := Fetch(k);
      Write(k, c.(value := value));
    }

    method Get(k: Key) returns (value: Option<Blob>)
      requires Valid()
      ensures value == Look(model, k).value
    {
      value := View(hash, s, k).value;
    }

    method Delete(k: Key)
      requires Valid()
      modifies this
      ensures Valid() && model == Next(Memory, old(model), k, Change.Delete)
    {
      var c := Fetch(k);
      Write(k, c.(value := None));
    }

    method PrefixAppend(k: Key, child: Blob) returns (a: Answer)
      requires Valid()
      modifies this
      ensures Valid() && model == Next(Memory, old(model), k, Append(child))
      ensures a == Reply(Memory, old(model), k, Append(child))
    {
      var c := Fetch(k);
      if child in c.children {
        SameCells(model, Store(model, k, c));
        return Refused(PrefixConflict);
      }
      Write(k, c.(children := c.children + {child}));
      return Fine;
    }

    method PrefixRemove(k: Key, child: Blob)
      requires Valid()
      modifies this
      ensures Valid() && model == Next(Memory, old(model), k, Remove(child))
    {
      var c := Fetch(k);
      Write(k, c.(children := c.children - {child}));
    }

    method PrefixList(k: Key) returns (children: set<Blob>)
      requires Valid()
      ensures children == Look(model, k).children
    {
      children := View(hash, s, k).children;
    }

    method PrefixContains(k: Key, child: Blob) returns (present: bool)
      requires Valid()
      ensures present <==> child in Look(model, k).children
    {
      present := child in View(hash, s, k).children;
    }

    method Acquire(k: Key, ttl: int, now: int) returns (a: Answer)
      requires Valid()
      modifies this
      ensures Valid() && model == Next(Memory, old(model), k, Change.Acquire(ttl, now))
      ensures a == Reply(Memory, old(model), k, Change.Acquire(ttl, now))
    {
      a := NextToken(ttl, now, 0);
      var c := Fetch(k);
      SameCells(model, Store(model, k, c));
      if a.Refused? { return; }
      if c.lease > now { return Refused(LeaseConflict); }
      Write(k, c.(lease := a.token));
    }

    method Renew(k: Key, ttl: int, now: int, previous: Word) returns (a: Answer)
      requires Valid()
      modifies this
      ensures Valid() && model == Next(Memory, old(model), k, Change.Renew(ttl, now, previous))
      ensures a == Reply(Memory, old(model), k, Change.Renew(ttl, now, previous))
    {
      a := NextToken(ttl, now, previous);
      var c := Fetch(k);
      SameCells(model, Store(model, k, c));
      if a.Refused? { return; }
      if c.lease == 0 { return Refused(LeaseExpired); }
      if now >= c.lease { return Refused(LeaseExpired); }
      if c.lease != previous { return Refused(LeaseExpired); }
      Write(k, c.(lease := a.token));
    }

    method Release(k: Key, token: Word) returns (a: Answer)
      requires Valid()
      modifies this
      ensures Valid() && model == Next(Memory, old(model), k, Change.Release(token))
      ensures a == Reply(Memory, old(model), k, Change.Release(token))
    {
      var c := Fetch(k);
      SameCells(model, Store(model, k, c));
      if c.lease != token { return Refused(LeaseExpired); }
      Write(k, c.(lease := 0));
      return Fine;
    }

    method Import(items: seq<(Key, Cell)>)
      requires Valid()
      modifies this
      ensures Valid() && model == Imported(Memory, old(model), items)
    {
      for i := 0 to |items|
        invariant Valid() && model == Imported(Memory, old(model), items[..i])
      {
        var (k, t) := items[i];
        assert items[..i + 1][..i] == items[..i];
        var c := Fetch(k);
        Write(k, Cell(t.value, c.children + t.children, t.lease));
      }
      assert items[..|items|] == items;
    }

    method Export(keys: seq<Key>) returns (cells: seq<Cell>)
      requires Valid()
      ensures Exports(model, keys, cells)
    {
      cells := [];
      for i := 0 to |keys|
        invariant Exports(model, keys[..i], cells)
      {
        cells := cells + [View(hash, s, keys[i])];
      }
    }

    method RemoveKeys(keys: seq<Key>)
      requires Valid()
      modifies this
      ensures Valid() && model == Without(old(model), keys)
    {
      for i := 0 to |keys|
        invariant Valid() && model == Without(old(model), keys[..i])
      {
        var k := keys[i];
        var h := hash(k);
        ghost var before, shown := s, model;
        if h in s { s := s[h := s[h] - {k}]; }
        model := model - {k};
        forall x ensures View(hash, s, x) == Look(model, x) {
          assert View(hash, before, x) == Look(shown, x);
        }
        assert keys[..i + 1] == keys[..i] + [k];
      }
      assert keys[..|keys|] == keys;
    }

    method ListKeys(prefix: Key) returns (listed: set<(Kind, Key)>)
      requires Valid()
      ensures ListsKeys(model, prefix, listed)
    {
      listed := {};
      var hashes := s.Keys;
      while hashes != {}
        invariant hashes <= s.Keys
        invariant forall kind, k :: (kind, k) in listed <==>
          prefix <= k && Has(Look(model, k), kind) && hash(k) !in hashes
      {
        var h :| h in hashes;
        var bucket := s[h];
        listed := listed
          + (set k | k in bucket && prefix <= k && bucket[k].value.Some? :: (Simple, k))
          + (set k | k in bucket && prefix <= k && bucket[k].children != {} :: (Prefix, k))
          + (set k | k in bucket && prefix <= k && bucket[k].lease != 0 :: (Lease, k));
        assert forall k :: hash(k) == h ==> Look(model, k) == View(hash, s, k);
        hashes := hashes - {h};
      }
    }

    method RangeKeys(low: Id, high: Id) returns (keys: set<Key>)
      requires Valid()
      ensures ListsRange(hash, model, low, high, keys)
    {
      keys := {};
      var hashes := s.Keys;
      forall k | k in model ensures hash(k) in s { assert View(hash, s, k) == Look(model, k); }
      while hashes != {}
        invariant hashes <= s.Keys
        invariant forall k :: k in keys <==> k in model && Between(low, hash(k), high, true) && hash(k) !in hashes
      {
        var h :| h in hashes;
        if Between(low, h, high, true) {
          keys := keys + set k | k in s[h] && s[h][k] != Blank;
        }
        assert forall k :: hash(k) == h ==> Look(model, k) == View(hash, s, k);
        hashes := hashes - {h};
      }
    }
  }
}

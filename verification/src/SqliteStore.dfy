/** The SQLite provider: three tables and an index of the keys that occur in them. */
module SqliteStore {
  import opened Identifiers
  import opened Nodes
  import opened KeyValue

  const SIMPLE: bv8 := 1
  const PREFIX: bv8 := 2
  const LEASE: bv8 := 4
  const BATCH: nat := 200

  datatype Tracker = Tracker(hash: Id, flags: bv8)

  datatype Database = Database(
    simple: map<Key, Blob>,
    prefix: set<(Key, Blob)>,
    lease: map<Key, Token>,
    tracker: map<Key, Tracker>)

  function ChildrenOf(db: Database, k: Key): set<Blob> {
    set row | row in db.prefix && row.0 == k :: row.1
  }

  function View(db: Database, k: Key): Cell {
    Cell(if k in db.simple then Some(db.simple[k]) else None, ChildrenOf(db, k),
         if k in db.lease then db.lease[k] else 0)
  }

  /** Which tables a key is in. */
  function Flags(db: Database, k: Key): bv8 {
    (if k in db.simple then SIMPLE else 0) | (if ChildrenOf(db, k) != {} then PREFIX else 0) |
    (if k in db.lease then LEASE else 0)
  }

  /** A tracker row exists exactly for the keys in some table, with their flags and hash. */
  ghost predicate Indexed(hash: Key -> Id, db: Database, k: Key) {
    if Flags(db, k) == 0 then k !in db.tracker else k in db.tracker && db.tracker[k] == Tracker(hash(k), Flags(db, k))
  }

  ghost predicate Shows(hash: Key -> Id, db: Database, t: Table) {
    && NoBlanks(t)
    && (forall k :: k in db.lease ==> db.lease[k] != 0)
    && (forall k {:trigger Indexed(hash, db, k)} :: Indexed(hash, db, k))
    && (forall k {:trigger View(db, k)} {:trigger Look(t, k)} :: View(db, k) == Look(t, k))
  }

  /** How SQLite compares a 64-bit word bound as a signed integer. */
  function Signed(x: Word): int {
    if x > MAX_TOKEN then x - 0x1_0000_0000_0000_0000 else x
  }

  // ---- the index --------------------------------------------------------------------------

  /** The flags a key ends up with, given what it had and which were asked to go. */
  function NewFlags(db: Database, k: Key, add: bv8, remove: bv8): bv8 {
    if k !in db.tracker then add
    else (db.tracker[k].flags | add) & !(if ChildrenOf(db, k) != {} then remove & !PREFIX else remove)
  }

  /** The trackers of all other keys are as they were. */
  ghost predicate OtherTrackersKept(before: map<Key, Tracker>, after: map<Key, Tracker>, k: Key) {
    forall x :: x != k ==> (x in after <==> x in before) && (x in after ==> after[x] == before[x])
  }

  lemma MaskedOnce(flags: bv8)
    ensures flags & PREFIX == 0 ==> flags & !PREFIX == flags
  {
  }

  /** Brings one tracker row up to date; refuses when it was written with another hash function. */
  method UpdateTracker(hash: Key -> Id, db: Database, k: Key, add: bv8, remove: bv8) returns (db': Database, ok: bool)
    ensures ok <==> (k in db.tracker ==> db.tracker[k].hash == hash(k))
    ensures ok ==> OtherTrackersKept(db.tracker, db'.tracker, k) && db' == db.(tracker := db'.tracker)
    ensures ok ==> if NewFlags(db, k, add, remove) == 0 then k !in db'.tracker
                   else k in db'.tracker && db'.tracker[k] == Tracker(hash(k), NewFlags(db, k, add, remove))
  {
    if k in db.tracker && db.tracker[k].hash != hash(k) { return db, false; }
    if k !in db.tracker {
      if add != 0 { return db.(tracker := db.tracker[k := Tracker(hash(k), add)]), true; }
      return db, true;
    }
    var going := remove;
    MaskedOnce(remove);
    if going & PREFIX != 0 && ChildrenOf(db, k) != {} { going := going & !PREFIX; }
    var flags := (db.tracker[k].flags | add) & !going;
    assert flags == NewFlags(db, k, add, remove);
    if flags == 0 { return db.(tracker := db.tracker - {k}), true; }
    return db.(tracker := db.tracker[k := Tracker(hash(k), flags)]), true;
  }

  /** A transaction touches the rows of one key only. */
  ghost predicate OnlyAt(db: Database, tx: Database, k: Key) {
    && tx.tracker == db.tracker
    && forall x :: x != k ==> View(tx, x) == View(db, x) && (x in tx.lease <==> x in db.lease)
  }

  /** The database after a transaction on `k` whose tracker update computed the right flags. */
  lemma TransactionShows(hash: Key -> Id, db: Database, t: Table, tx: Database, end: Database, k: Key, c: Cell)
    requires Shows(hash, db, t) && OnlyAt(db, tx, k) && View(tx, k) == c
    requires k in tx.lease ==> tx.lease[k] != 0
    requires end == tx.(tracker := end.tracker) && OtherTrackersKept(tx.tracker, end.tracker, k)
    requires Indexed(hash, end, k)
    ensures Shows(hash, end, Store(t, k, c))
  {
    forall x ensures View(end, x) == View(tx, x) { assert ChildrenOf(end, x) == ChildrenOf(tx, x); }
    forall x ensures Indexed(hash, end, x) {
      if x != k {
        assert Indexed(hash, db, x) && View(tx, x) == View(db, x);
        assert Flags(end, x) == Flags(db, x) by { SameViewSameFlags(db, end, x); }
      }
    }
    forall x | x in end.lease ensures end.lease[x] != 0 {
      if x != k { assert View(tx, x) == View(db, x); }
    }
    forall x ensures View(end, x) == Look(Store(t, k, c), x) {
      if x != k { assert View(db, x) == Look(t, x); }
    }
  }

  lemma SameViewSameFlags(db: Database, end: Database, x: Key)
    requires View(end, x) == View(db, x) && (x in end.lease <==> x in db.lease)
    ensures Flags(end, x) == Flags(db, x)
  {
  }

  class SqliteKv {
    const hash: Key -> Id
    var db: Database
    ghost var model: Table

    ghost predicate Valid()
      reads this
    {
      Shows(hash, db, model)
    }

    constructor (hash: Key -> Id)
      ensures Valid() && this.hash == hash && model == map[]
    {
      this.hash, db, model := hash, Database(map[], {}, map[], map[]), map[];
    }

    /** Updates the tracker and commits. */
    method Commit(tx: Database, k: Key, add: bv8, remove: bv8)
      requires Valid() && OnlyAt(db, tx, k) && (k in tx.lease ==> tx.lease[k] != 0)
      requires NewFlags(tx, k, add, remove) == Flags(tx, k)
      modifies this
      ensures Valid() && model == Store(old(model), k, View(tx, k))
    {
      assert Indexed(hash, db, k);
      var end, _ := UpdateTracker(hash, tx, k, add, remove);
      assert ChildrenOf(end, k) == ChildrenOf(tx, k);
      TransactionShows(hash, db, model, tx, end, k, View(tx, k));
      db := end;
      model := Store(model, k, View(tx, k));
    }

    method Put(k: Key, value: Option<Blob>)
      requires Valid()
      modifies this
      ensures Valid() && model == Next(Sqlite, old(model), k, Change.Put(value))
    {
      var tx := db.(simple := db.simple[k := if value.None? then [] else value.value]);
      assert Indexed(hash, db, k) && View(db, k) == Look(model, k);
      assert forall x :: ChildrenOf(tx, x) == ChildrenOf(db, x);
      Commit(tx, k, SIMPLE, 0);
    }

    method Get(k: Key) returns (value: Option<Blob>)
      requires Valid()
      ensures value == Look(model, k).value
    {
      assert View(db, k) == Look(model, k);
      value := if k in db.simple then Some(db.simple[k]) else None;
    }

    method Delete(k: Key)
      requires Valid()
      modifies this
      ensures Valid() && model == Next(Sqlite, old(model), k, Change.Delete)
    {
      var tx := db.(simple := db.simple - {k});
      assert Indexed(hash, db, k) && View(db, k) == Look(model, k);
      assert forall x :: ChildrenOf(tx, x) == ChildrenOf(db, x);
      Commit(tx, k, 0, SIMPLE);
    }

    method PrefixAppend(k: Key, child: Blob) returns (a: Answer)
      requires Valid()
      modifies this
      ensures Valid() && model == Next(Sqlite, old(model), k, Append(child))
      ensures a == Reply(Sqlite, old(model), k, Append(child))
    {
      assert Indexed(hash, db, k) && View(db, k) == Look(model, k);
      if (k, child) in db.prefix {
        assert child in ChildrenOf(db, k);
        SameCells(model, Store(model, k, Look(model, k)));
        return Refused(PrefixConflict);
      }
      var tx := db.(prefix := db.prefix + {(k, child)});
      AppendedRow(db, k, child);
      Commit(tx, k, PREFIX, 0);
      return Fine;
    }

    method PrefixRemove(k: Key, child: Blob)
      requires Valid()
      modifies this
      ensures Valid() && model == Next(Sqlite, old(model), k, Remove(child))
    {
      var tx := db.(prefix := db.prefix - {(k, child)});
      assert Indexed(hash, db, k) && View(db, k) == Look(model, k);
      RemovedRow(db, k, child);
      Commit(tx, k, 0, PREFIX);
    }

    method PrefixList(k: Key) returns (children: set<Blob>)
      requires Valid()
      ensures children == Look(model, k).children
    {
      assert View(db, k) == Look(model, k);
      children := ChildrenOf(db, k);
    }

    method PrefixContains(k: Key, child: Blob) returns (present: bool)
      requires Valid()
      ensures present <==> child in Look(model, k).children
    {
      assert View(db, k) == Look(model, k);
      present := (k, child) in db.prefix;
    }

    method Acquire(k: Key, ttl: int, now: int) returns (a: Answer)
      requires Valid()
      modifies this
      ensures Valid() && model == Next(Sqlite, old(model), k, Change.Acquire(ttl, now))
      ensures a == Reply(Sqlite, old(model), k, Change.Acquire(ttl, now))
    {
      a := NextToken(ttl, now, 0);
      assert Indexed(hash, db, k) && View(db, k) == Look(model, k);
      SameCells(model, Store(model, k, Look(model, k)));
      if a.Refused? { return; }
      if k in db.lease && db.lease[k] > now { return Refused(LeaseConflict); }
      var tx := db.(lease := db.lease[k := a.token]);
      assert forall x :: ChildrenOf(tx, x) == ChildrenOf(db, x);
      Commit(tx, k, LEASE, 0);
    }

    method Renew(k: Key, ttl: int, now: int, previous: Word) returns (a: Answer)
      requires Valid()
      modifies this
      ensures Valid() && model == Next(Sqlite, old(model), k, Change.Renew(ttl, now, previous))
      ensures a == Reply(Sqlite, old(model), k, Change.Renew(ttl, now, previous))
    {
      a := NextToken(ttl, now, previous);
      assert Indexed(hash, db, k) && View(db, k) == Look(model, k);
      SameCells(model, Store(model, k, Look(model, k)));
      if a.Refused? { return; }
      if !(k in db.lease && db.lease[k] == Signed(previous) && db.lease[k] > now) { return Refused(LeaseExpired); }
      var tx := db.(lease := db.lease[k := a.token]);
      assert forall x :: ChildrenOf(tx, x) == ChildrenOf(db, x);
      Commit(tx, k, LEASE, 0);
    }

    method Release(k: Key, token: Word) returns (a: Answer)
      requires Valid()
      modifies this
      ensures Valid() && model == Next(Sqlite, old(model), k, Change.Release(token))
      ensures a == Reply(Sqlite, old(model), k, Change.Release(token))
    {
      assert Indexed(hash, db, k) && View(db, k) == Look(model, k);
      if !(k in db.lease && db.lease[k] == Signed(token)) {
        SameCells(model, Store(model, k, Look(model, k)));
        return Refused(LeaseExpired);
      }
      var tx := db.(lease := db.lease - {k});
      assert forall x :: ChildrenOf(tx, x) == ChildrenOf(db, x);
      Commit(tx, k, 0, LEASE);
      return Fine;
    }

    /** One transfer of an import. */
    method ImportOne(k: Key, t: Cell)
      requires Valid()
      modifies this
      ensures Valid() && model == Next(Sqlite, old(model), k, Receive(t))
    {
      assert Indexed(hash, db, k) && View(db, k) == Look(model, k);
      var tx, add := db, 0;
      var value := ReceivedValue(t, None);
      if value.Some? {
        tx := tx.(simple := tx.simple[k := value.value]);
        add := add | SIMPLE;
      }
      tx := tx.(prefix := tx.prefix + set child | child in t.children :: (k, child));
      if t.children != {} { add := add | PREFIX; }
      if t.lease != 0 {
        tx := tx.(lease := tx.lease[k := t.lease]);
        add := add | LEASE;
      }
      ImportedRows(db, tx, k, t);
      Commit(tx, k, add, 0);
    }

    /** The program wraps the whole import in one transaction; no step of it can fail here. */
    method Import(items: seq<(Key, Cell)>)
      requires Valid()
      modifies this
      ensures Valid() && model == Imported(Sqlite, old(model), items)
    {
      for i := 0 to |items|
        invariant Valid() && model == Imported(Sqlite, old(model), items[..i])
      {
        assert items[..i + 1][..i] == items[..i];
        ImportOne(items[i].0, items[i].1);
      }
      assert items[..|items|] == items;
    }

    method Export(keys: seq<Key>) returns (cells: seq<Cell>)
      requires Valid()
      ensures Exports(model, keys, cells)
    {
      cells := [];
      for i := 0 to |keys|
        invariant Exports(model, keys[..i], cells)
      {
        assert View(db, keys[i]) == Look(model, keys[i]);
        cells := cells + [View(db, keys[i])];
      }
    }

    /** Deletes from every table, a batch of keys at a time. */
    method RemoveKeys(keys: seq<Key>)
      requires Valid()
      modifies this
      ensures Valid() && model == Without(old(model), keys)
    {
      var start := 0;
      while start < |keys|
        invariant 0 <= start <= |keys| && Valid() && model == Without(old(model), keys[..start])
      {
        var end := if start + BATCH < |keys| then start + BATCH else |keys|;
        var batch := keys[start..end];
        ghost var before, shown := db, model;
        db := Dropped(db, batch);
        model := Without(model, batch);
        DroppedShows(hash, before, shown, batch);
        assert keys[..end] == keys[..start] + batch;
        start := end;
      }
      assert keys[..|keys|] == keys;
    }

    method ListKeys(prefix: Key) returns (listed: set<(Kind, Key)>)
      requires Valid()
      ensures ListsKeys(model, prefix, listed)
    {
      listed := {};
      var rest := db.tracker.Keys;
      forall k | k !in db.tracker ensures Look(model, k) == Blank { BlankIffUntracked(hash, db, model, k); }
      while rest != {}
        invariant rest <= db.tracker.Keys
        invariant forall kind, k :: (kind, k) in listed <==> prefix <= k && Has(Look(model, k), kind) && k !in rest
      {
        var k :| k in rest;
        var flags := db.tracker[k].flags;
        BlankIffUntracked(hash, db, model, k);
        if prefix <= k {
          if flags & SIMPLE != 0 { listed := listed + {(Simple, k)}; }
          if flags & PREFIX != 0 { listed := listed + {(Prefix, k)}; }
          if flags & LEASE != 0 { listed := listed + {(Lease, k)}; }
        }
        rest := rest - {k};
      }
    }

    method RangeKeys(low: Id, high: Id) returns (keys: set<Key>)
      requires Valid()
      ensures ListsRange(hash, model, low, high, keys)
    {
      forall k ensures k in db.tracker <==> k in model { BlankIffUntracked(hash, db, model, k); }
      if high > low {
        keys := set k | k in db.tracker && var h := db.tracker[k].hash; (h > low && h < high) || h == high;
      } else {
        keys := set k | k in db.tracker && var h := db.tracker[k].hash; h > low || h < high || h == high;
      }
      forall k | k in db.tracker ensures db.tracker[k].hash == hash(k) { assert Indexed(hash, db, k); }
    }
  }

  // ---- what the row changes mean -----------------------------------------------------------------

  lemma AppendedRow(db: Database, k: Key, child: Blob)
    ensures var tx := db.(prefix := db.prefix + {(k, child)});
            && ChildrenOf(tx, k) == ChildrenOf(db, k) + {child}
            && forall x :: x != k ==> ChildrenOf(tx, x) == ChildrenOf(db, x)
  {
  }

  lemma RemovedRow(db: Database, k: Key, child: Blob)
    ensures var tx := db.(prefix := db.prefix - {(k, child)});
            && ChildrenOf(tx, k) == ChildrenOf(db, k) - {child}
            && forall x :: x != k ==> ChildrenOf(tx, x) == ChildrenOf(db, x)
  {
  }

  lemma ImportedRows(db: Database, tx: Database, k: Key, t: Cell)
    requires tx.prefix == db.prefix + set child | child in t.children :: (k, child)
    ensures ChildrenOf(tx, k) == ChildrenOf(db, k) + t.children
    ensures forall x :: x != k ==> ChildrenOf(tx, x) == ChildrenOf(db, x)
  {
    forall c ensures c in ChildrenOf(tx, k) <==> c in ChildrenOf(db, k) + t.children {
      assert (k, c) in tx.prefix <==> (k, c) in db.prefix || c in t.children;
    }
    forall x | x != k ensures ChildrenOf(tx, x) == ChildrenOf(db, x) {}
  }

  function Dropped(db: Database, batch: seq<Key>): Database {
    Database(
      map k | k in db.simple && k !in batch :: db.simple[k],
      set row | row in db.prefix && row.0 !in batch,
      map k | k in db.lease && k !in batch :: db.lease[k],
      map k | k in db.tracker && k !in batch :: db.tracker[k])
  }

  lemma DroppedShows(hash: Key -> Id, db: Database, t: Table, batch: seq<Key>)
    requires Shows(hash, db, t)
    ensures Shows(hash, Dropped(db, batch), Without(t, batch))
  {
    var end := Dropped(db, batch);
    forall k ensures View(end, k) == Look(Without(t, batch), k) && Indexed(hash, end, k) {
      assert View(db, k) == Look(t, k) && Indexed(hash, db, k);
      assert ChildrenOf(end, k) == if k in batch then {} else ChildrenOf(db, k);
    }
  }

  /** The index lists exactly the live keys, each with the flags of the tables it is in. */
  lemma BlankIffUntracked(hash: Key -> Id, db: Database, t: Table, k: Key)
    requires Shows(hash, db, t)
    ensures k in db.tracker <==> k in t
    ensures k in db.tracker ==>
              && db.tracker[k].hash == hash(k)
              && (db.tracker[k].flags & SIMPLE != 0 <==> Look(t, k).value.Some?)
              && (db.tracker[k].flags & PREFIX != 0 <==> Look(t, k).children != {})
              && (db.tracker[k].flags & LEASE != 0 <==> Look(t, k).lease != 0)
  {
    assert Indexed(hash, db, k) && View(db, k) == Look(t, k);
  }
}

/** What a key holds after any sequence of changes, told from the sequence alone: the last change that
    concerns a value, a child or the lease decides it. */
module CellHistory {
  import opened Nodes
  import opened KeyValue

  // ---- each change keeps to its own field -----------------------------------------------------

  predicate OnValue(change: Change) {
    change.Put? || change.Delete? || change.Receive?
  }

  predicate OnChildren(change: Change) {
    change.Append? || change.Remove? || change.Receive?
  }

  /** A change alters nothing but its own field; only a transfer has more than one. */
  lemma FieldsAreSeparate(b: Backend, c: Cell, change: Change)
    ensures var c' := Changed(b, c, change).0;
            && (!OnValue(change) ==> c'.value == c.value)
            && (!OnChildren(change) ==> c'.children == c.children)
            && (!OnLease(change) && !change.Receive? ==> c'.lease == c.lease)
  {
  }

  // ---- children -------------------------------------------------------------------------------

  /** The change says whether `child` is present. */
  predicate Names(change: Change, child: Blob) {
    match change
    case Append(x) => x == child
    case Remove(x) => x == child
    case Receive(t) => child in t.children
    case _ => false
  }

  /** Change `i` is the last one that names `child`. */
  ghost predicate LastNaming(changes: seq<Change>, child: Blob, i: nat) {
    i < |changes| && Names(changes[i], child) && forall j :: i < j < |changes| ==> !Names(changes[j], child)
  }

  lemma {:induction false} UnnamedChildStays(b: Backend, c: Cell, changes: seq<Change>, child: Blob)
    requires forall j :: 0 <= j < |changes| ==> !Names(changes[j], child)
    ensures child in ChangedBy(b, c, changes).children <==> child in c.children
  {
    if changes != [] { UnnamedChildStays(b, c, changes[..|changes| - 1], child); }
  }

  lemma {:induction false} LastNamingDecides(b: Backend, c: Cell, changes: seq<Change>, child: Blob, i: nat)
    requires LastNaming(changes, child, i)
    ensures child in ChangedBy(b, c, changes).children <==> !changes[i].Remove?
  {
    if i < |changes| - 1 { LastNamingDecides(b, c, changes[..|changes| - 1], child, i); }
  }

  /** Over every sequence of changes a child is present if and only if the last change that names it is an
      append or a transfer that holds it, or none names it and it was there at the start. */
  lemma ChildIsLastNamed(b: Backend, c: Cell, changes: seq<Change>, child: Blob)
    ensures child in ChangedBy(b, c, changes).children <==>
            || (exists i: nat :: LastNaming(changes, child, i) && !changes[i].Remove?)
            || (child in c.children && forall j :: 0 <= j < |changes| ==> !Names(changes[j], child))
  {
    if i: nat :| LastNaming(changes, child, i) {
      LastNamingDecides(b, c, changes, child, i);
      forall i': nat | LastNaming(changes, child, i') ensures i' == i {}
    } else {
      NamedHasLast(changes, child);
      UnnamedChildStays(b, c, changes, child);
    }
  }

  lemma {:induction false} NamedHasLast(changes: seq<Change>, child: Blob)
    requires forall i: nat :: !LastNaming(changes, child, i)
    ensures forall j :: 0 <= j < |changes| ==> !Names(changes[j], child)
  {
    if changes != [] {
      var last := |changes| - 1;
      assert !LastNaming(changes, child, last);
      forall i: nat ensures !LastNaming(changes[..last], child, i) { assert !LastNaming(changes, child, i); }
      NamedHasLast(changes[..last], child);
    }
  }

  /** An append is refused exactly when the child is there. */
  lemma AppendRefusedIff(b: Backend, c: Cell, child: Blob)
    ensures Changed(b, c, Append(child)).1 == (if child in c.children then Refused(PrefixConflict) else Fine)
    ensures Changed(b, c, Remove(child)).1 == Fine
  {
  }

  // ---- values ---------------------------------------------------------------------------------

  /** The change settles the value: every put and deletion, and every transfer except one into SQLite that
      carries children or a lease but no value. */
  predicate SetsValue(b: Backend, change: Change) {
    match change
    case Put(_) => true
    case Delete => true
    case Receive(t) => b.Memory? || t.value.Some? || (t.children == {} && t.lease == 0)
    case _ => false
  }

  ghost predicate LastSetting(b: Backend, changes: seq<Change>, i: nat) {
    i < |changes| && SetsValue(b, changes[i]) && forall j :: i < j < |changes| ==> !SetsValue(b, changes[j])
  }

  lemma {:induction false} UnsetValueStays(b: Backend, c: Cell, changes: seq<Change>)
    requires forall j :: 0 <= j < |changes| ==> !SetsValue(b, changes[j])
    ensures ChangedBy(b, c, changes).value == c.value
  {
    if changes != [] { UnsetValueStays(b, c, changes[..|changes| - 1]); }
  }

  /** Over every sequence of changes the value is what the last change that settles it carries: the value
      put, none after a deletion, and what a transfer brings. SQLite keeps a missing value as an empty one. */
  lemma {:induction false} ValueIsLastSet(b: Backend, c: Cell, changes: seq<Change>, i: nat)
    requires LastSetting(b, changes, i)
    ensures var value := ChangedBy(b, c, changes).value;
            match changes[i]
            case Put(v) => value == if v.None? && b.Sqlite? then Some([]) else v
            case Delete => value == None
            case Receive(t) => value == if t.value.None? && b.Sqlite? then Some([]) else t.value
            case _ => false
  {
    if i < |changes| - 1 { ValueIsLastSet(b, c, changes[..|changes| - 1], i); }
  }

  // ---- leases -------------------------------------------------------------------------------

  /** Whole seconds of `ttl` from `now` can be granted after `previous`. */
  predicate Grantable(ttl: int, now: int, previous: Word) {
    ttl >= SECOND && now >= 0 && now + ttl - ttl % SECOND <= MAX_TOKEN && previous < MAX_TOKEN
  }

  /** A lease is granted exactly when nobody holds it or it has run out, renewed exactly for the token that
      holds it and has not run out, and freed exactly by its own token. The token granted is the end of the
      whole seconds asked for, or one past the token renewed if that is later. */
  lemma GrantedIff(b: Backend, c: Cell, ttl: int, now: int, previous: Word)
    ensures Changed(b, c, Acquire(ttl, now)).1.Granted? <==> Grantable(ttl, now, 0) && c.lease <= now
    ensures Changed(b, c, Renew(ttl, now, previous)).1.Granted? <==>
      Grantable(ttl, now, previous) && c.lease == previous && now < c.lease
    ensures Changed(b, c, Release(previous)).1 == Fine <==> c.lease == previous && (b.Memory? || previous != 0)
    ensures Changed(b, c, Acquire(ttl, now)).1.Granted? ==>
              Changed(b, c, Acquire(ttl, now)).1.token == now + ttl - ttl % SECOND
    ensures Changed(b, c, Renew(ttl, now, previous)).1.Granted? ==>
              var token := Changed(b, c, Renew(ttl, now, previous)).1.token;
              token >= now + ttl - ttl % SECOND && token >= previous + 1 &&
              (token == now + ttl - ttl % SECOND || token == previous + 1)
  {
    assert ttl % SECOND < SECOND;
  }

  /** The refusals: a bad time to live before everything else, then whoever holds the lease. */
  lemma RefusedWith(b: Backend, c: Cell, ttl: int, now: int, previous: Word)
    ensures ttl < SECOND ==>
      && Changed(b, c, Acquire(ttl, now)).1 == Refused(LeaseInvalidTTL)
      && Changed(b, c, Renew(ttl, now, previous)).1 == Refused(LeaseInvalidTTL)
    ensures Grantable(ttl, now, 0) && c.lease > now ==>
      Changed(b, c, Acquire(ttl, now)).1 == Refused(LeaseConflict)
    ensures Grantable(ttl, now, previous) && (c.lease != previous || now >= c.lease) ==>
      Changed(b, c, Renew(ttl, now, previous)).1 == Refused(LeaseExpired)
    ensures Changed(b, c, Release(previous)).1 in {Fine, Refused(LeaseExpired)}
  {
    assert ttl % SECOND < SECOND;
  }

  /** The lease a change leaves behind, if it leaves its own: the token granted, none after it is given back,
      and what a transfer brings. */
  predicate SetsLease(b: Backend, c: Cell, change: Change) {
    match change
    case Acquire(_, _) => Changed(b, c, change).1.Granted?
    case Renew(_, _, _) => Changed(b, c, change).1.Granted?
    case Release(_) => Changed(b, c, change).1 == Fine
    case Receive(t) => b.Memory? || t.lease != 0
    case _ => false
  }

  predicate SetsLeaseAt(b: Backend, c: Cell, changes: seq<Change>, i: nat) {
    i < |changes| && SetsLease(b, ChangedBy(b, c, changes[..i]), changes[i])
  }

  lemma {:induction false} UnsetLeaseStays(b: Backend, c: Cell, changes: seq<Change>, i: nat)
    requires i <= |changes| && forall j :: i <= j < |changes| ==> !SetsLeaseAt(b, c, changes, j)
    ensures ChangedBy(b, c, changes).lease == ChangedBy(b, c, changes[..i]).lease
    decreases |changes|
  {
    if i == |changes| {
      assert changes[..i] == changes;
    } else {
      var last := |changes| - 1;
      forall j | i <= j < last ensures !SetsLeaseAt(b, c, changes[..last], j) {
        assert changes[..last][..j] == changes[..j] && !SetsLeaseAt(b, c, changes, j);
      }
      UnsetLeaseStays(b, c, changes[..last], i);
      assert changes[..last][..i] == changes[..i];
      assert !SetsLeaseAt(b, c, changes, last);
    }
  }

  /** Over every sequence of changes the lease is the token last granted or brought by a transfer, and free
      after it is given back. */
  lemma LeaseIsLastSet(b: Backend, c: Cell, changes: seq<Change>, i: nat)
    requires SetsLeaseAt(b, c, changes, i) && forall j :: i < j < |changes| ==> !SetsLeaseAt(b, c, changes, j)
    ensures var lease := ChangedBy(b, c, changes).lease;
            match changes[i]
            case Release(_) => lease == 0
            case Receive(t) => lease == t.lease
            case _ =>
              var answer := Changed(b, ChangedBy(b, c, changes[..i]), changes[i]).1;
              answer.Granted? && lease == answer.token
  {
    UnsetLeaseStays(b, c, changes, i + 1);
    assert changes[..i + 1][..i] == changes[..i] && changes[..i + 1][i] == changes[i];
  }

  // ---- many keys ------------------------------------------------------------------------------

  function NextAll(b: Backend, t: Table, steps: seq<(Key, Change)>): Table {
    if steps == [] then t
    else
      var last := |steps| - 1;
      Next(b, NextAll(b, t, steps[..last]), steps[last].0, steps[last].1)
  }

  /** The changes made to `k`, in order. */
  function ChangesTo(steps: seq<(Key, Change)>, k: Key): seq<Change> {
    if steps == [] then []
    else
      var last := |steps| - 1;
      ChangesTo(steps[..last], k) + if steps[last].0 == k then [steps[last].1] else []
  }

  lemma ChangedNext(b: Backend, c: Cell, changes: seq<Change>, change: Change)
    ensures ChangedBy(b, c, changes + [change]) == Changed(b, ChangedBy(b, c, changes), change).0
  {
    var all := changes + [change];
    assert all[..|all| - 1] == changes;
  }

  /** Keys do not interfere: each holds what the changes made to it alone leave. */
  lemma {:induction false} KeysAreSeparate(b: Backend, t: Table, steps: seq<(Key, Change)>, k: Key)
    ensures Look(NextAll(b, t, steps), k) == ChangedBy(b, Look(t, k), ChangesTo(steps, k))
  {
    if steps != [] {
      var last := |steps| - 1;
      KeysAreSeparate(b, t, steps[..last], k);
      if steps[last].0 == k {
        ChangedNext(b, Look(t, k), ChangesTo(steps[..last], k), steps[last].1);
      } else {
        assert ChangesTo(steps, k) == ChangesTo(steps[..last], k);
      }
    }
  }
}

/** What a key-value provider promises: a table of cells, each an optional value, a set of children
    and a lease token. */
module KeyValue {
  import opened Identifiers
  import opened Nodes

  type Blob = seq<int>

  const MAX_TOKEN: int := 0x7FFF_FFFF_FFFF_FFFF
  const SECOND: int := 1_000_000_000

  /** Lease tokens are expiry times in nanoseconds; zero means no lease. */
  type Token = x: int | 0 <= x <= MAX_TOKEN

  /** Tokens callers present; any 64-bit word. */
  type Word = x: int | 0 <= x < 0x1_0000_0000_0000_0000

  datatype Cell = Cell(value: Option<Blob>, children: set<Blob>, lease: Token)

  const Blank := Cell(None, {}, 0)

  /** Cells that hold something. */
  type Table = map<Key, Cell>

  predicate NoBlanks(t: Table) {
    forall k :: k in t ==> t[k] != Blank
  }

  function Look(t: Table, k: Key): Cell {
    if k in t then t[k] else Blank
  }

  function Store(t: Table, k: Key, c: Cell): (t': Table)
    ensures Look(t', k) == c && forall x :: x != k ==> Look(t', x) == Look(t, x)
    ensures NoBlanks(t) ==> NoBlanks(t')
  {
    if c == Blank then map x | x in t && x != k :: t[x] else t[k := c]
  }

  /** Tables without blanks are determined by their cells. */
  lemma SameCells(t: Table, u: Table)
    requires NoBlanks(t) && NoBlanks(u) && forall k :: Look(t, k) == Look(u, k)
    ensures t == u
  {
    forall k | k in t || k in u ensures k in t && k in u && t[k] == u[k] { assert Look(t, k) == Look(u, k); }
  }

  // ---- changes to one cell ----------------------------------------------------------------

  datatype KvError = PrefixConflict | LeaseConflict | LeaseExpired | LeaseInvalidTTL

  datatype Answer = Fine | Granted(token: Token) | Refused(error: KvError)

  /** A nil value is `None`; an empty one is `Some([])`. */
  datatype Change =
    | Put(value: Option<Blob>)
    | Delete
    | Append(child: Blob)
    | Remove(child: Blob)
    | Acquire(ttl: int, now: int)
    | Renew(ttl: int, now: int, previous: Word)
    | Release(token: Word)
    | Receive(transfer: Cell)

  datatype Backend = Memory | Sqlite

  /** The expiry of a lease granted now for whole seconds of `ttl`, ahead of the previous token. */
  function NextToken(ttl: int, now: int, previous: Word): Answer {
    if ttl < SECOND then Refused(LeaseInvalidTTL)
    else
      var whole := ttl - ttl % SECOND;
      if now < 0 || whole > MAX_TOKEN - now then Refused(LeaseInvalidTTL)
      else if previous >= MAX_TOKEN then Refused(LeaseExpired)
      else Granted(if now + whole > previous + 1 then now + whole else previous + 1)
  }

  function Changed(b: Backend, c: Cell, change: Change): (Cell, Answer) {
    match change
    case Put(value) => (c.(value := if b.Sqlite? && value.None? then Some([]) else value), Fine)
    case Delete => (c.(value := None), Fine)
    case Append(child) =>
      if child in c.children then (c, Refused(PrefixConflict)) else (c.(children := c.children + {child}), Fine)
    case Remove(child) => (c.(children := c.children - {child}), Fine)
    case Acquire(ttl, now) =>
      var next := NextToken(ttl, now, 0);
      if next.Refused? then (c, next)
      else if c.lease > now then (c, Refused(LeaseConflict))
      else (c.(lease := next.token), next)
    case Renew(ttl, now, previous) =>
      var next := NextToken(ttl, now, previous);
      if next.Refused? then (c, next)
      else if c.lease == 0 || now >= c.lease || c.lease != previous then (c, Refused(LeaseExpired))
      else (c.(lease := next.token), next)
    case Release(token) =>
      if c.lease != token || (b.Sqlite? && c.lease == 0) then (c, Refused(LeaseExpired)) else (c.(lease := 0), Fine)
    case Receive(t) =>
      if b.Memory? then (Cell(t.value, c.children + t.children, t.lease), Fine)
      else (Cell(ReceivedValue(t, c.value), c.children + t.children, if t.lease != 0 then t.lease else c.lease), Fine)
  }

  /** A transfer with nothing in it stands for an empty value. */
  function ReceivedValue(t: Cell, existing: Option<Blob>): Option<Blob> {
    if t.value.Some? then t.value
    else if t.children == {} && t.lease == 0 then Some([])
    else existing
  }

  function Next(b: Backend, t: Table, k: Key, change: Change): Table {
    Store(t, k, Changed(b, Look(t, k), change).0)
  }

  function Reply(b: Backend, t: Table, k: Key, change: Change): Answer {
    Changed(b, Look(t, k), change).1
  }

  // ---- whole-table operations -----------------------------------------------------------------

  function Imported(b: Backend, t: Table, items: seq<(Key, Cell)>): Table {
    if items == [] then t
    else Next(b, Imported(b, t, items[..|items| - 1]), items[|items| - 1].0, Receive(items[|items| - 1].1))
  }

  function Without(t: Table, keys: seq<Key>): (t': Table)
    ensures NoBlanks(t) ==> NoBlanks(t')
  {
    map k | k in t && k !in keys :: t[k]
  }

  datatype Kind = Simple | Prefix | Lease

  predicate Has(c: Cell, kind: Kind) {
    match kind
    case Simple => c.value.Some?
    case Prefix => c.children != {}
    case Lease => c.lease != 0
  }

  ghost predicate ListsKeys(t: Table, prefix: Key, listed: set<(Kind, Key)>) {
    forall kind, k :: (kind, k) in listed <==> prefix <= k && Has(Look(t, k), kind)
  }

  ghost predicate ListsRange(hash: Key -> Id, t: Table, low: Id, high: Id, keys: set<Key>) {
    forall k :: k in keys <==> k in t && Between(low, hash(k), high, true)
  }

  ghost predicate Exports(t: Table, keys: seq<Key>, cells: seq<Cell>) {
    |cells| == |keys| && forall i :: 0 <= i < |keys| ==> cells[i] == Look(t, keys[i])
  }

  // ---- leases -------------------------------------------------------------------------------

  /** An unexpired lease refuses every other acquire, renew and release, and stays as it is. */
  lemma UnexpiredLeaseBlocks(b: Backend, c: Cell, change: Change)
    requires match change
             case Acquire(_, now) => c.lease > now
             case Renew(_, _, previous) => previous != c.lease
             case Release(token) => token != c.lease
             case _ => false
    ensures Changed(b, c, change).0 == c && Changed(b, c, change).1.Refused?
  {
  }

  /** A granted token is positive, outlives the call by at least a second, and grows on renewal. */
  lemma GrantsAdvance(b: Backend, c: Cell, change: Change)
    requires Changed(b, c, change).1.Granted?
    ensures var token := Changed(b, c, change).1.token;
            && token > 0 && Changed(b, c, change).0 == c.(lease := token)
            && (change.Acquire? ==> token >= change.now + SECOND && c.lease <= change.now)
            && (change.Renew? ==> token > c.lease == change.previous && token >= change.now + SECOND)
  {
  }

  /** The holder's token was not given back, renewed or overwritten, and the clock has not passed it. */
  predicate LeavesLease(change: Change, token: Token) {
    match change
    case Acquire(_, now) => now < token
    case Renew(_, _, previous) => previous != token
    case Release(given) => given != token
    case Receive(_) => false
    case _ => true
  }

  function ChangedBy(b: Backend, c: Cell, changes: seq<Change>): Cell {
    if changes == [] then c else Changed(b, ChangedBy(b, c, changes[..|changes| - 1]), changes[|changes| - 1]).0
  }

  predicate OnLease(change: Change) {
    change.Acquire? || change.Renew? || change.Release?
  }

  /** Mutual exclusion: from a grant until the holder gives it up or it expires, whatever else
      happens to the key, the lease stays as it is and every attempt on it is refused without a
      trace. */
  lemma {:induction false} LeaseExcludes(b: Backend, c: Cell, changes: seq<Change>, i: nat)
    requires c.lease != 0 && i <= |changes|
    requires forall change :: change in changes ==> LeavesLease(change, c.lease)
    ensures ChangedBy(b, c, changes[..i]).lease == c.lease
    ensures i < |changes| ==> !Changed(b, ChangedBy(b, c, changes[..i]), changes[i]).1.Granted?
    ensures i < |changes| && OnLease(changes[i]) ==>
              var now := ChangedBy(b, c, changes[..i]);
              Changed(b, now, changes[i]).0 == now && Changed(b, now, changes[i]).1.Refused?
    decreases i
  {
    if i > 0 {
      LeaseExcludes(b, c, changes, i - 1);
      assert changes[..i][..i - 1] == changes[..i - 1] && changes[i - 1] in changes;
    }
    assert i < |changes| ==> changes[i] in changes;
    if i < |changes| && OnLease(changes[i]) { UnexpiredLeaseBlocks(b, ChangedBy(b, c, changes[..i]), changes[i]); }
  }

  // ---- where the two backends part ---------------------------------------------------------------

  /** Not a nil put, not the release of a lease nobody holds with token zero, and not a transfer that
      is empty or lacks a field the cell already has. */
  predicate Common(c: Cell, change: Change) {
    match change
    case Put(value) => value.Some?
    case Release(token) => token != 0 || c.lease != 0
    case Receive(t) =>
      && !(t.value.None? && t.children == {} && t.lease == 0)
      && (t.value.Some? || c.value.None?)
      && (t.lease != 0 || c.lease == 0)
    case _ => true
  }

  /** The backends answer and change a cell alike exactly for the common changes. */
  lemma BackendsAgreeIff(c: Cell, change: Change)
    ensures Changed(Memory, c, change) == Changed(Sqlite, c, change) <==> Common(c, change)
  {
  }
}

/** One server's replica of the configuration documents. */
module Documents {
  import opened Nodes
  import opened Versions
  import opened Tokens

  const MAX_VALUE: nat := 256 * 1024
  const MAX_DOCUMENTS: nat := 4096
  const MAX_SNAPSHOT: nat := 8 * 1024 * 1024

  /** Length of an empty snapshot. */
  const ENVELOPE: nat := 25

  datatype Problem =
    | InvalidRecord | InvalidVersion | TooLarge | Conflict | SchemaRegression | RevisionExhausted | AlreadyExists
    | NothingGiven
    | OutcomeUnknown

  datatype Outcome<+T> = Done(value: T) | Rejected(problem: Problem)

  /** What the program takes from elsewhere: SHA-256, the character rules for names, and the length
      of a record's JSON. */
  datatype Env = Env(sha: Bytes -> Digest, legal: Bytes -> bool, size: Record -> nat)

  /** A row of the documents table, keyed by name. */
  datatype Row = Row(version: Version, value: Bytes)

  type Docs = map<Bytes, Row>

  function Validate(env: Env, r: Record): Option<Problem> {
    if !ValidName(env.legal, r.name) || !Positive(r.version) then Some(InvalidRecord)
    else if |r.value| > MAX_VALUE then Some(TooLarge)
    else if r.version.digest != env.sha(r.value) then Some(InvalidRecord)
    else None
  }

  function RecordOf(docs: Docs, name: Bytes): Record
    requires name in docs
  {
    Record(name, docs[name].version, docs[name].value)
  }

  // ---- bounds on a whole snapshot -----------------------------------------------------

  /** Bytes of a snapshot of these records, separators included. */
  function SnapshotSize(env: Env, records: seq<Record>): nat {
    if records == [] then ENVELOPE
    else
      var last := |records| - 1;
      SnapshotSize(env, records[..last]) + env.size(records[last]) + if last == 0 then 0 else 1
  }

  predicate Acceptable(env: Env, records: seq<Record>) {
    && |records| <= MAX_DOCUMENTS
    && (forall r :: r in records ==> Validate(env, r).None?)
    && SnapshotSize(env, records) <= MAX_SNAPSHOT
  }

  /** Bytes of the records joined by single separators. */
  function JoinedSize(env: Env, records: seq<Record>): nat {
    if records == [] then 0
    else if |records| == 1 then env.size(records[0])
    else env.size(records[0]) + 1 + JoinedSize(env, records[1..])
  }

  lemma {:induction false} SnapshotIsJoined(env: Env, records: seq<Record>)
    ensures SnapshotSize(env, records) == ENVELOPE + JoinedSize(env, records)
  {
    if records != [] {
      var last := |records| - 1;
      SnapshotIsJoined(env, records[..last]);
      JoinedAppends(env, records[..last], records[last]);
      assert records == records[..last] + [records[last]];
    }
  }

  lemma {:induction false} JoinedAppends(env: Env, records: seq<Record>, r: Record)
    ensures JoinedSize(env, records + [r]) ==
      JoinedSize(env, records) + env.size(r) + if records == [] then 0 else 1
  {
    if records == [] {
      assert records + [r] == [r];
    } else {
      JoinedAppends(env, records[1..], r);
      assert (records + [r])[1..] == records[1..] + [r];
    }
  }

  /** Records are acceptable exactly when there are at most 4096 of them, each has a valid name, a positive
      version, a value within bounds and the digest of that value, and joined in the envelope they fit. */
  lemma AcceptableIff(env: Env, records: seq<Record>)
    ensures Acceptable(env, records) <==>
      && |records| <= MAX_DOCUMENTS && ENVELOPE + JoinedSize(env, records) <= MAX_SNAPSHOT
      && forall r :: r in records ==>
           && 0 < |r.name| <= MAX_NAME && env.legal(r.name) && |r.value| <= MAX_VALUE
           && r.version.schema > 0 && r.version.revision > 0 && r.version.digest == env.sha(r.value)
  {
    SnapshotIsJoined(env, records);
  }

  lemma {:induction false} PrefixIsSmaller(env: Env, records: seq<Record>, n: nat)
    requires n <= |records|
    ensures SnapshotSize(env, records[..n]) <= SnapshotSize(env, records)
    decreases |records| - n
  {
    if n < |records| {
      assert records[..n + 1][..n] == records[..n];
      PrefixIsSmaller(env, records, n + 1);
    } else {
      assert records[..n] == records;
    }
  }

  method CheckRecords(env: Env, records: seq<Record>) returns (problem: Option<Problem>)
    ensures problem.None? <==> Acceptable(env, records)
  {
    if |records| > MAX_DOCUMENTS { return Some(TooLarge); }
    var size := ENVELOPE;
    for i := 0 to |records|
      invariant size == SnapshotSize(env, records[..i]) && Acceptable(env, records[..i])
    {
      var p := Validate(env, records[i]);
      assert records[i] in records;
      if p.Some? { return p; }
      assert records[..i + 1][..i] == records[..i];
      size := size + env.size(records[i]);
      if i != 0 { size := size + 1; }
      if size > MAX_SNAPSHOT {
        PrefixIsSmaller(env, records, i + 1);
        return Some(TooLarge);
      }
      assert forall r :: r in records[..i + 1] ==> r in records[..i] || r == records[i];
    }
    assert records[..|records|] == records;
    return None;
  }

  // ---- reading the table in name order ---------------------------------------------------

  predicate IsLeast(names: set<Bytes>, name: Bytes) {
    name in names && forall other :: other in names ==> CompareBytes(name, other) <= 0
  }

  lemma {:induction false} LeastExists(names: set<Bytes>)
    requires names != {}
    ensures exists name :: IsLeast(names, name)
    decreases |names|
  {
    var some :| some in names;
    var rest := names - {some};
    CompareSelf(some);
    if rest == {} {
      assert names == {some};
      assert IsLeast(names, some);
    } else {
      LeastExists(rest);
      var least :| IsLeast(rest, least);
      CompareBytesIsTotal(some, least, some);
      forall other | other in rest ensures CompareBytes(some, least) <= 0 ==> CompareBytes(some, other) <= 0 {
        CompareBytesIsTotal(other, least, some);
        CompareBytesIsTotal(some, other, some);
        CompareBytesIsTotal(least, some, least);
      }
      assert IsLeast(names, if CompareBytes(some, least) <= 0 then some else least);
    }
  }

  lemma LeastUnique(names: set<Bytes>, a: Bytes, b: Bytes)
    requires IsLeast(names, a) && IsLeast(names, b)
    ensures a == b
  {
    CompareBytesIsTotal(a, b, a);
  }

  ghost function Least(names: set<Bytes>): (name: Bytes)
    requires names != {}
    ensures IsLeast(names, name)
  {
    LeastExists(names);
    var name :| IsLeast(names, name);
    name
  }

  /** All documents sorted by name. */
  ghost function Listing(docs: Docs): seq<Record>
    decreases docs.Keys
  {
    if docs.Keys == {} then []
    else
      var name := Least(docs.Keys);
      [RecordOf(docs, name)] + Listing(docs - {name})
  }

  lemma ListingStarts(docs: Docs, name: Bytes)
    requires IsLeast(docs.Keys, name)
    ensures Listing(docs) == [RecordOf(docs, name)] + Listing(docs - {name})
  {
    LeastUnique(docs.Keys, name, Least(docs.Keys));
  }

  /** The listing holds each document once, in strictly ascending order of names. */
  lemma {:induction false} ListingIsSorted(docs: Docs)
    ensures forall r :: r in Listing(docs) <==> r.name in docs && r == RecordOf(docs, r.name)
    ensures forall i, j :: 0 <= i < j < |Listing(docs)| ==>
      CompareBytes(Listing(docs)[i].name, Listing(docs)[j].name) < 0
    decreases docs.Keys
  {
    if docs.Keys != {} {
      var name := Least(docs.Keys);
      var rest := docs - {name};
      ListingIsSorted(rest);
      forall other | other in rest ensures CompareBytes(name, other) < 0 { CompareBytesIsTotal(name, other, name); }
      forall r: Record | r.name in docs && r == RecordOf(docs, r.name) ensures r in Listing(docs) {
        if r.name != name { assert r == RecordOf(rest, r.name); }
      }
      var all := Listing(docs);
      forall i, j | 0 <= i < j < |all| ensures CompareBytes(all[i].name, all[j].name) < 0 {
        assert all[j] == Listing(rest)[j - 1];
        assert Listing(rest)[j - 1] in Listing(rest);
        assert i > 0 ==> all[i] == Listing(rest)[i - 1];
      }
    }
  }

  /** The table holds only valid records and its snapshot is within bounds. */
  ghost predicate Sound(env: Env, docs: Docs) {
    Acceptable(env, Listing(docs))
  }

  lemma SizeExtends(env: Env, records: seq<Record>, r: Record)
    ensures SnapshotSize(env, records + [r]) == SnapshotSize(env, records) + env.size(r) +
      if records == [] then 0 else 1
  {
  }

  lemma AcceptablePrefix(env: Env, front: seq<Record>, all: seq<Record>)
    requires Acceptable(env, all) && front <= all
    ensures Acceptable(env, front)
  {
    assert all[..|front|] == front;
    PrefixIsSmaller(env, all, |front|);
  }

  /** One more record within bounds. */
  lemma AcceptableExtends(env: Env, records: seq<Record>, r: Record)
    requires Acceptable(env, records)
    ensures Acceptable(env, records + [r]) <==>
              |records| < MAX_DOCUMENTS && Validate(env, r).None? && SnapshotSize(env, records + [r]) <= MAX_SNAPSHOT
  {
  }

  /** The row read next, in terms of the whole listing. */
  lemma ReadNext(rest: Docs, name: Bytes, records: seq<Record>, all: seq<Record>)
    requires IsLeast(rest.Keys, name) && records + Listing(rest) == all
    ensures records + [RecordOf(rest, name)] + Listing(rest - {name}) == all
  {
    ListingStarts(rest, name);
    SplitMiddle(records, RecordOf(rest, name), Listing(rest - {name}));
  }

  lemma SplitMiddle(front: seq<Record>, r: Record, back: seq<Record>)
    ensures front + ([r] + back) == front + [r] + back
  {
  }

  /** Checks the next row and counts its bytes. */
  method CheckRow(env: Env, records: seq<Record>, size: nat, record: Record) returns (r: Outcome<nat>)
    requires Acceptable(env, records) && size == SnapshotSize(env, records)
    ensures r.Done? <==> Acceptable(env, records + [record])
    ensures r.Done? ==> r.value == SnapshotSize(env, records + [record])
  {
    SizeExtends(env, records, record);
    AcceptableExtends(env, records, record);
    if |records| == MAX_DOCUMENTS { return Rejected(TooLarge); }
    if !Positive(record.version) { return Rejected(InvalidVersion); }
    var p := Validate(env, record);
    if p.Some? { return Rejected(p.value); }
    var total := size + env.size(record) + if records == [] then 0 else 1;
    if total > MAX_SNAPSHOT { return Rejected(TooLarge); }
    return Done(total);
  }

  /** Reads every row in name order, rejecting a damaged or oversized table. */
  method ReadRecords(env: Env, docs: Docs) returns (r: Outcome<seq<Record>>)
    ensures r.Done? <==> Sound(env, docs)
    ensures r.Done? ==> r.value == Listing(docs)
  {
    ghost var all := Listing(docs);
    var records: seq<Record>, size, rest := [], ENVELOPE, docs;
    while rest.Keys != {}
      invariant records + Listing(rest) == all
      invariant size == SnapshotSize(env, records) && Acceptable(env, records)
      decreases rest.Keys
    {
      LeastExists(rest.Keys);
      var name :| IsLeast(rest.Keys, name);
      ReadNext(rest, name, records, all);
      var row := CheckRow(env, records, size, RecordOf(rest, name));
      if row.Rejected? {
        if Acceptable(env, all) { AcceptablePrefix(env, records + [RecordOf(rest, name)], all); }
        return Rejected(row.problem);
      }
      records, size, rest := records + [RecordOf(rest, name)], row.value, rest - {name};
    }
    assert records == all;
    return Done(records);
  }

  // ---- conditional upserts ------------------------------------------------------------------

  predicate Newer(docs: Docs, r: Record) {
    r.name !in docs || CompareBytes(Encode(r.version), Encode(docs[r.name].version)) > 0
  }

  /** The row changes only for a new name or a version whose bytes are greater. */
  function Upsert(docs: Docs, r: Record): Docs {
    if Newer(docs, r) then docs[r.name := Row(r.version, r.value)] else docs
  }

  function Merged(docs: Docs, records: seq<Record>): Docs {
    if records == [] then docs
    else Upsert(Merged(docs, records[..|records| - 1]), records[|records| - 1])
  }

  method WriteRecords(docs: Docs, records: seq<Record>) returns (docs': Docs, changed: bool)
    ensures docs' == Merged(docs, records)
    ensures changed <==> docs' != docs
  {
    docs', changed := docs, false;
    LeqSelf(docs);
    for i := 0 to |records|
      invariant docs' == Merged(docs, records[..i])
      invariant if changed then Leq(docs, docs') && !Leq(docs', docs) else docs' == docs
    {
      var r := records[i];
      assert records[..i + 1][..i] == records[..i];
      UpsertRises(docs', r);
      ghost var before := docs';
      if Newer(docs', r) {
        docs', changed := docs'[r.name := Row(r.version, r.value)], true;
      }
      assert docs' == Upsert(before, r);
      LeqTransitive(docs, before, docs');
      if Leq(docs', docs) { LeqTransitive(docs', docs, before); }
    }
    assert records[..|records|] == records;
  }

  // ---- the order on replicas ----------------------------------------------------------------

  /** `b` has every document of `a` at the same or a later version. */
  ghost predicate Leq(a: Docs, b: Docs) {
    forall name :: name in a ==> name in b && Compare(b[name].version, a[name].version) >= 0
  }

  lemma LeqTransitive(a: Docs, b: Docs, c: Docs)
    requires Leq(a, b) && Leq(b, c)
    ensures Leq(a, c)
  {
    forall name | name in a ensures name in c && Compare(c[name].version, a[name].version) >= 0 {
      CompareIsTotal(c[name].version, b[name].version, a[name].version);
    }
  }

  lemma LeqSelf(a: Docs)
    ensures Leq(a, a)
  {
    forall name | name in a { CompareIsTotal(a[name].version, a[name].version, a[name].version); }
  }

  /** An upsert either does nothing or raises exactly one document strictly. */
  lemma UpsertRises(docs: Docs, r: Record)
    ensures Leq(docs, Upsert(docs, r))
    ensures r.name in Upsert(docs, r) && Compare(Upsert(docs, r)[r.name].version, r.version) >= 0
    ensures Newer(docs, r) ==> !Leq(Upsert(docs, r), docs)
  {
    LeqSelf(docs);
    CompareIsTotal(r.version, r.version, r.version);
    if r.name in docs {
      EncodePreservesOrder(r.version, docs[r.name].version);
      CompareIsTotal(r.version, docs[r.name].version, r.version);
    }
  }

  /** A name's row came from the old table or from one of the records. */
  predicate Offered(docs: Docs, records: seq<Record>, name: Bytes, row: Row) {
    (name in docs && docs[name] == row) || Record(name, row.version, row.value) in records
  }

  /** The merged table is the least one above the old table and every record. */
  lemma {:induction false} MergedIsLeast(docs: Docs, records: seq<Record>)
    ensures Leq(docs, Merged(docs, records))
    ensures forall r :: r in records ==>
              r.name in Merged(docs, records) && Compare(Merged(docs, records)[r.name].version, r.version) >= 0
    ensures forall name :: name in Merged(docs, records) ==> Offered(docs, records, name, Merged(docs, records)[name])
  {
    if records == [] {
      LeqSelf(docs);
    } else {
      var front, last := records[..|records| - 1], records[|records| - 1];
      MergedIsLeast(docs, front);
      var before, after := Merged(docs, front), Merged(docs, records);
      UpsertRises(before, last);
      LeqTransitive(docs, before, after);
      assert records == front + [last];
      forall r | r in records ensures r.name in after && Compare(after[r.name].version, r.version) >= 0 {
        if r in front { CompareIsTotal(after[r.name].version, before[r.name].version, r.version); }
      }
      forall name | name in after ensures Offered(docs, records, name, after[name]) {
        if name in before && after[name] == before[name] { assert Offered(docs, front, name, before[name]); }
      }
    }
  }

  // ---- merges forget order and repetition -------------------------------------------------------

  /** Equal versions mean equal values: digests do not collide and records carry their own digest. */
  ghost predicate NoCollision(docs: Docs, records: seq<Record>) {
    forall name, a, b ::
      Offered(docs, records, name, a) && Offered(docs, records, name, b) && a.version == b.version ==> a == b
  }

  /** What is offered by the same records in any order wins the same. */
  lemma SameWinner(docs: Docs, records: seq<Record>, others: seq<Record>, name: Bytes)
    requires NoCollision(docs, records) && name in Merged(docs, records)
    requires forall r :: r in records <==> r in others
    ensures name in Merged(docs, others) && Merged(docs, others)[name] == Merged(docs, records)[name]
  {
    var a := Merged(docs, records)[name];
    assert Offered(docs, records, name, a) by { MergedIsLeast(docs, records); }
    HoldsAtLeast(docs, others, name, a);
    var b := Merged(docs, others)[name];
    assert Offered(docs, others, name, b) by { MergedIsLeast(docs, others); }
    assert Offered(docs, records, name, b);
    HoldsAtLeast(docs, records, name, b);
    CompareIsTotal(a.version, b.version, a.version);
  }

  /** Whatever order or repetition the records come in, the result is the same. */
  lemma MergeOrderIrrelevant(docs: Docs, records: seq<Record>, others: seq<Record>)
    requires NoCollision(docs, records)
    requires forall r :: r in records <==> r in others
    ensures Merged(docs, records) == Merged(docs, others)
  {
    assert NoCollision(docs, others) by {
      forall name, a, b | Offered(docs, others, name, a) && Offered(docs, others, name, b) && a.version == b.version
        ensures a == b
      {
        assert Offered(docs, records, name, a) && Offered(docs, records, name, b);
      }
    }
    forall name | name in Merged(docs, records) { SameWinner(docs, records, others, name); }
    forall name | name in Merged(docs, others) { SameWinner(docs, others, records, name); }
  }

  lemma HoldsAtLeast(docs: Docs, records: seq<Record>, name: Bytes, row: Row)
    requires Offered(docs, records, name, row)
    ensures name in Merged(docs, records) && Compare(Merged(docs, records)[name].version, row.version) >= 0
  {
    MergedIsLeast(docs, records);
  }

  lemma MergeIdempotent(docs: Docs, records: seq<Record>)
    ensures Merged(Merged(docs, records), records) == Merged(docs, records)
  {
    MergedIsLeast(docs, records);
    NothingNew(Merged(docs, records), records);
  }

  /** Records no newer than the table change nothing. */
  lemma {:induction false} NothingNew(docs: Docs, records: seq<Record>)
    requires forall r :: r in records ==> r.name in docs && Compare(docs[r.name].version, r.version) >= 0
    ensures Merged(docs, records) == docs
  {
    if records != [] {
      var last := records[|records| - 1];
      NothingNew(docs, records[..|records| - 1]);
      EncodePreservesOrder(last.version, docs[last.name].version);
      CompareIsTotal(last.version, docs[last.name].version, last.version);
    }
  }
}

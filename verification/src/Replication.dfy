/** Replicas that edit on their own, exchange whole snapshots, and skip an exchange the peer has
    already acknowledged. */
module Replication {
  import opened Versions
  import opened Documents
  import opened ConfigStore

  type Rid = nat

  /** `wire` holds every snapshot ever sent; delivery may be late, repeated or never happen. `seen`
      holds every snapshot a replica has merged, for replies that are under way. `lines` holds both
      directions of each live connection, and `receipts` the last snapshot one replica knows another
      to have merged over the connection they still have. */
  datatype Cluster = Cluster(
    replicas: map<Rid, Docs>, wire: map<nat, Docs>, seen: set<(Docs, Rid)>,
    lines: set<(Rid, Rid)>, receipts: map<(Rid, Rid), Docs>)

  datatype Event =
    | Edit(at: Rid, op: Op)
    | Send(from: Rid, m: nat)
    | Receive(m: nat, at: Rid)
    | Reply(from: Rid, at: Rid, snapshot: Docs)
    | Skip(from: Rid, at: Rid)
    | Connect(from: Rid, at: Rid)
    | Close(from: Rid, at: Rid)

  ghost function Step(env: Env, c: Cluster, e: Event): Cluster {
    match e
    case Edit(at, op) =>
      if at in c.replicas then c.(replicas := c.replicas[at := After(env, c.replicas[at], op)]) else c
    case Send(from, m) =>
      if from in c.replicas then c.(wire := c.wire[m := c.replicas[from]]) else c
    case Receive(m, at) =>
      if m in c.wire && at in c.replicas
      then
        var op := Merge(Listing(c.wire[m]));
        c.(replicas := c.replicas[at := After(env, c.replicas[at], op)],
           seen := if Accepts(env, c.replicas[at], op) then c.seen + {(c.wire[m], at)} else c.seen)
      else c
    case Reply(from, at, snapshot) =>
      if (snapshot, at) in c.seen && (from, at) in c.lines then
        c.(receipts := c.receipts[(from, at) := snapshot])
      else c
    case Skip(from, at) => c
    case Connect(from, at) => c.(lines := c.lines + {(from, at), (at, from)})
    case Close(from, at) =>
      c.(lines := c.lines - {(from, at), (at, from)}, receipts := c.receipts - {(from, at), (at, from)})
  }

  /** The peer has acknowledged exactly what the sender holds now, over a connection still there. */
  predicate UpToDate(c: Cluster, from: Rid, at: Rid) {
    && from in c.replicas && at in c.replicas && (from, at) in c.lines
    && (from, at) in c.receipts && c.receipts[(from, at)] == c.replicas[from]
  }

  ghost function Steps(env: Env, c: Cluster, events: seq<Event>): Cluster {
    if events == [] then c else Step(env, Steps(env, c, events[..|events| - 1]), events[|events| - 1])
  }

  /** Every record carries the digest of its own value. */
  ghost predicate Honest(env: Env, docs: Docs) {
    forall name :: name in docs ==> docs[name].version.digest == env.sha(docs[name].value)
  }

  // ---- merging a snapshot --------------------------------------------------------------------

  /** Merging a snapshot rises above both sides and takes every row from one of them. */
  lemma MergeSnapshot(docs: Docs, snapshot: Docs)
    ensures var merged := Merged(docs, Listing(snapshot));
            && Leq(docs, merged) && Leq(snapshot, merged)
            && forall name :: name in merged ==>
                 (name in docs && merged[name] == docs[name]) || (name in snapshot && merged[name] == snapshot[name])
  {
    var merged := Merged(docs, Listing(snapshot));
    MergedIsLeast(docs, Listing(snapshot));
    ListingIsSorted(snapshot);
    forall name | name in snapshot
      ensures name in merged && Compare(merged[name].version, snapshot[name].version) >= 0
    {
      assert RecordOf(snapshot, name) in Listing(snapshot);
    }
    forall name | name in merged
      ensures (name in docs && merged[name] == docs[name]) || (name in snapshot && merged[name] == snapshot[name])
    {
      assert Offered(docs, Listing(snapshot), name, merged[name]);
    }
  }

  lemma AfterIsHonest(env: Env, docs: Docs, op: Op)
    requires Honest(env, docs)
    ensures Honest(env, After(env, docs, op))
  {
    if Accepts(env, docs, op) {
      if op.Put? {
        DraftIsNewer(env, docs, op.name, op.schema, op.value);
      } else {
        MergedIsLeast(docs, op.records);
        var merged := Merged(docs, op.records);
        forall name | name in merged ensures merged[name].version.digest == env.sha(merged[name].value) {
          assert Offered(docs, op.records, name, merged[name]);
        }
      }
    }
  }

  // ---- any run ----------------------------------------------------------------------------------

  ghost predicate Sent(c: Cluster, m: nat)
    requires m in c.wire
  {
    exists r :: r in c.replicas && Leq(c.wire[m], c.replicas[r])
  }

  /** Both ends have a connection, and a replica never falls behind what it has once merged, nor
      behind what others know it to have. */
  ghost predicate Receipted(c: Cluster) {
    && (forall a, b {:trigger (a, b) in c.lines} :: (a, b) in c.lines ==> (b, a) in c.lines)
    && (forall d, r {:trigger (d, r) in c.seen} :: (d, r) in c.seen ==> r in c.replicas && Leq(d, c.replicas[r]))
    && (forall a, r {:trigger (a, r) in c.receipts} :: (a, r) in c.receipts ==>
      r in c.replicas && Leq(c.receipts[(a, r)], c.replicas[r]))
  }

  /** Replicas only rise. */
  ghost predicate Rises(c: Cluster, c': Cluster) {
    c'.replicas.Keys == c.replicas.Keys && forall r :: r in c.replicas ==> Leq(c.replicas[r], c'.replicas[r])
  }

  lemma StepRises(env: Env, c: Cluster, e: Event)
    ensures Rises(c, Step(env, c, e))
  {
    forall r | r in c.replicas ensures Leq(c.replicas[r], Step(env, c, e).replicas[r]) {
      LeqSelf(c.replicas[r]);
      if e.Edit? && e.at == r { AfterRises(env, c.replicas[r], e.op); }
      if e.Receive? && e.at == r && e.m in c.wire { AfterRises(env, c.replicas[r], Merge(Listing(c.wire[e.m]))); }
    }
  }

  lemma RaisedStaysReceipted(c: Cluster, c': Cluster)
    requires Receipted(c) && Rises(c, c') && c'.seen == c.seen && c'.receipts == c.receipts && c'.lines == c.lines
    ensures Receipted(c')
  {
    forall d, r | (d, r) in c.seen ensures Leq(d, c'.replicas[r]) { LeqTransitive(d, c.replicas[r], c'.replicas[r]); }
    forall a, r | (a, r) in c.receipts ensures Leq(c.receipts[(a, r)], c'.replicas[r]) {
      LeqTransitive(c.receipts[(a, r)], c.replicas[r], c'.replicas[r]);
    }
  }

  /** An accepted snapshot is from then on behind the replica. */
  lemma MergedIsSeen(env: Env, c: Cluster, m: nat, at: Rid)
    requires m in c.wire && at in c.replicas && Accepts(env, c.replicas[at], Merge(Listing(c.wire[m])))
    ensures Leq(c.wire[m], Step(env, c, Receive(m, at)).replicas[at])
  {
    MergeSnapshot(c.replicas[at], c.wire[m]);
  }

  lemma StepIsReceipted(env: Env, c: Cluster, e: Event)
    requires Receipted(c)
    ensures Receipted(Step(env, c, e))
  {
    StepRises(env, c, e);
    var c' := Step(env, c, e);
    RaisedStaysReceipted(c, c.(replicas := c'.replicas));
    if e.Receive? && e.m in c.wire && e.at in c.replicas &&
       Accepts(env, c.replicas[e.at], Merge(Listing(c.wire[e.m])))
    {
      MergedIsSeen(env, c, e.m, e.at);
    }
  }

  /** An exchange that would be skipped changes nothing at the peer. */
  lemma SkippedChangesNothing(c: Cluster, from: Rid, at: Rid)
    requires Receipted(c) && UpToDate(c, from, at)
    ensures Merged(c.replicas[at], Listing(c.replicas[from])) == c.replicas[at]
  {
    var docs, snapshot := c.replicas[at], c.replicas[from];
    ListingIsSorted(snapshot);
    assert Leq(snapshot, docs) by { assert (from, at) in c.receipts; }
    NothingNew(docs, Listing(snapshot));
  }

  /** Records are honest, no snapshot in flight is ahead of all replicas, and receipts hold. */
  ghost predicate Lawful(env: Env, c: Cluster) {
    && Receipted(c)
    && (forall r :: r in c.replicas ==> Honest(env, c.replicas[r]))
    && (forall m :: m in c.wire ==> Honest(env, c.wire[m]) && Sent(c, m))
  }

  lemma StepIsLawful(env: Env, c: Cluster, e: Event)
    requires Lawful(env, c)
    ensures Lawful(env, Step(env, c, e)) && Step(env, c, e).replicas.Keys == c.replicas.Keys
  {
    var c' := Step(env, c, e);
    StepRises(env, c, e);
    StepIsReceipted(env, c, e);
    if e.Edit? && e.at in c.replicas { AfterIsHonest(env, c.replicas[e.at], e.op); }
    if e.Receive? && e.m in c.wire && e.at in c.replicas {
      AfterIsHonest(env, c.replicas[e.at], Merge(Listing(c.wire[e.m])));
    }
    forall m | m in c'.wire ensures Honest(env, c'.wire[m]) && Sent(c', m) {
      if e.Send? && m == e.m && e.from in c.replicas {
        LeqSelf(c.replicas[e.from]);
      } else {
        assert Sent(c, m);
        var r :| r in c.replicas && Leq(c.wire[m], c.replicas[r]);
        LeqTransitive(c.wire[m], c.replicas[r], c'.replicas[r]);
      }
    }
  }

  lemma {:induction false} RunIsLawful(env: Env, c: Cluster, events: seq<Event>)
    requires Lawful(env, c)
    ensures Lawful(env, Steps(env, c, events)) && Steps(env, c, events).replicas.Keys == c.replicas.Keys
  {
    if events != [] {
      RunIsLawful(env, c, events[..|events| - 1]);
      StepIsLawful(env, Steps(env, c, events[..|events| - 1]), events[|events| - 1]);
    }
  }

  // ---- who has heard from whom -----------------------------------------------------------------

  /** Whose starting documents have reached a replica, or a snapshot in flight. */
  datatype Ledger = Ledger(know: map<Rid, set<Rid>>, carried: map<nat, set<Rid>>)

  function Note(l: Ledger, e: Event): Ledger {
    match e
    case Edit(_, _) => l
    case Send(from, m) => if from in l.know then l.(carried := l.carried[m := l.know[from]]) else l
    case Receive(m, at) =>
      if m in l.carried && at in l.know then l.(know := l.know[at := l.know[at] + l.carried[m]]) else l
    case Skip(from, at) =>
      if from in l.know && at in l.know then l.(know := l.know[at := l.know[at] + l.know[from]]) else l
    case _ => l
  }

  function Notes(l: Ledger, events: seq<Event>): Ledger {
    if events == [] then l else Note(Notes(l, events[..|events| - 1]), events[|events| - 1])
  }

  /** Nothing in `docs` is newer than what the replicas started with. */
  ghost predicate Below(start: map<Rid, Docs>, docs: Docs) {
    forall name :: name in docs ==> Matched(start, name, docs[name].version)
  }

  ghost predicate Matched(start: map<Rid, Docs>, name: Bytes, v: Version) {
    exists r :: r in start && name in start[r] && Compare(start[r][name].version, v) >= 0
  }

  ghost predicate Above(start: map<Rid, Docs>, sources: set<Rid>, docs: Docs) {
    forall r :: r in sources ==> r in start && Leq(start[r], docs)
  }

  /** Some replica or snapshot holds this row. */
  ghost predicate InUse(c: Cluster, name: Bytes, row: Row) {
    || (exists r :: r in c.replicas && name in c.replicas[r] && c.replicas[r][name] == row)
    || (exists m :: m in c.wire && name in c.wire[m] && c.wire[m][name] == row)
  }

  ghost predicate Drawn(from: Cluster, docs: Docs) {
    forall name :: name in docs ==> InUse(from, name, docs[name])
  }

  /** How far the cluster `c` has come since `from`, in terms of the ledger. */
  ghost predicate Tracks(from: Cluster, c: Cluster, l: Ledger) {
    && c.replicas.Keys == from.replicas.Keys && l.know.Keys == from.replicas.Keys && l.carried.Keys <= c.wire.Keys
    && (forall r :: r in c.replicas ==>
          && Drawn(from, c.replicas[r]) && Below(from.replicas, c.replicas[r])
          && Above(from.replicas, l.know[r], c.replicas[r]))
    && (forall m :: m in c.wire ==> Drawn(from, c.wire[m]) && Below(from.replicas, c.wire[m]))
    && (forall m :: m in l.carried ==> Above(from.replicas, l.carried[m], c.wire[m]))
  }

  /** No edit, every delivered snapshot fits, and only what the peer has acknowledged is skipped. */
  ghost predicate Smooth(env: Env, c: Cluster, e: Event) {
    match e
    case Edit(_, _) => false
    case Send(_, _) => true
    case Receive(m, at) =>
      m in c.wire && at in c.replicas ==> Accepts(env, c.replicas[at], Merge(Listing(c.wire[m])))
    case Skip(from, at) => UpToDate(c, from, at)
    case _ => true
  }

  ghost predicate AllSmooth(env: Env, c: Cluster, events: seq<Event>) {
    forall i :: 0 <= i < |events| ==> Smooth(env, Steps(env, c, events[..i]), events[i])
  }

  lemma AboveRises(start: map<Rid, Docs>, sources: set<Rid>, a: Docs, b: Docs)
    requires Above(start, sources, a) && Leq(a, b)
    ensures Above(start, sources, b)
  {
    forall r | r in sources ensures r in start && Leq(start[r], b) { LeqTransitive(start[r], a, b); }
  }

  /** Merging brings in nothing that was not there at the start, and nothing newer. */
  lemma MergedIsDrawn(from: Cluster, docs: Docs, snapshot: Docs)
    requires Drawn(from, docs) && Below(from.replicas, docs) && Drawn(from, snapshot) && Below(from.replicas, snapshot)
    ensures var merged := Merged(docs, Listing(snapshot)); Drawn(from, merged) && Below(from.replicas, merged)
  {
    var merged := Merged(docs, Listing(snapshot));
    MergeSnapshot(docs, snapshot);
    forall name | name in merged
      ensures Matched(from.replicas, name, merged[name].version) && InUse(from, name, merged[name])
    {
      if name in docs && merged[name] == docs[name] {
        assert Matched(from.replicas, name, docs[name].version);
      } else {
        assert Matched(from.replicas, name, snapshot[name].version);
      }
    }
  }

  /** One replica moves on. */
  lemma ReplicaTracks(from: Cluster, c: Cluster, l: Ledger, c': Cluster, at: Rid, docs: Docs, heard: set<Rid>)
    requires Tracks(from, c, l) && at in c.replicas && c'.replicas == c.replicas[at := docs] && c'.wire == c.wire
    requires Drawn(from, docs) && Below(from.replicas, docs) && Above(from.replicas, heard, docs)
    ensures Tracks(from, c', l.(know := l.know[at := heard]))
  {
  }

  lemma AboveBoth(start: map<Rid, Docs>, a: set<Rid>, b: set<Rid>, docs: Docs)
    requires Above(start, a, docs) && Above(start, b, docs)
    ensures Above(start, a + b, docs)
  {
  }

  lemma ReceiveTracks(env: Env, from: Cluster, c: Cluster, l: Ledger, m: nat, at: Rid)
    requires Tracks(from, c, l) && Smooth(env, c, Receive(m, at)) && m in c.wire && at in c.replicas
    ensures Tracks(from, Step(env, c, Receive(m, at)), Note(l, Receive(m, at)))
  {
    var docs, snapshot := c.replicas[at], c.wire[m];
    var merged := Merged(docs, Listing(snapshot));
    MergeSnapshot(docs, snapshot);
    MergedIsDrawn(from, docs, snapshot);
    AboveRises(from.replicas, l.know[at], docs, merged);
    var c' := Step(env, c, Receive(m, at));
    assert c'.replicas == c.replicas[at := merged] && c'.wire == c.wire;
    if m in l.carried {
      AboveRises(from.replicas, l.carried[m], snapshot, merged);
      AboveBoth(from.replicas, l.know[at], l.carried[m], merged);
      ReplicaTracks(from, c, l, c', at, merged, l.know[at] + l.carried[m]);
    } else {
      ReplicaTracks(from, c, l, c', at, merged, l.know[at]);
      assert l.know[at := l.know[at]] == l.know;
    }
  }

  /** Whom the sender has heard from, the peer of a skipped exchange has heard from too. */
  lemma SkipTracks(env: Env, from: Cluster, c: Cluster, l: Ledger, a: Rid, b: Rid)
    requires Tracks(from, c, l) && Receipted(c) && UpToDate(c, a, b)
    ensures Tracks(from, Step(env, c, Skip(a, b)), Note(l, Skip(a, b)))
  {
    assert Leq(c.replicas[a], c.replicas[b]) by { assert (a, b) in c.receipts; }
    AboveRises(from.replicas, l.know[a], c.replicas[a], c.replicas[b]);
    assert Above(from.replicas, Note(l, Skip(a, b)).know[b], c.replicas[b]);
  }

  lemma StepTracks(env: Env, from: Cluster, c: Cluster, l: Ledger, e: Event)
    requires Tracks(from, c, l) && Receipted(c) && Smooth(env, c, e)
    ensures Tracks(from, Step(env, c, e), Note(l, e))
  {
    if e.Receive? && e.m in c.wire && e.at in c.replicas {
      ReceiveTracks(env, from, c, l, e.m, e.at);
    } else if e.Skip? {
      SkipTracks(env, from, c, l, e.from, e.at);
    }
  }

  lemma {:induction false} RunTracks(env: Env, from: Cluster, c: Cluster, l: Ledger, events: seq<Event>)
    requires Tracks(from, c, l) && Receipted(c) && AllSmooth(env, c, events)
    ensures Tracks(from, Steps(env, c, events), Notes(l, events)) && Receipted(Steps(env, c, events))
  {
    if events != [] {
      var front, e := events[..|events| - 1], events[|events| - 1];
      SmoothPrefix(env, c, events);
      RunTracks(env, from, c, l, front);
      StepTracks(env, from, Steps(env, c, front), Notes(l, front), e);
      StepIsReceipted(env, Steps(env, c, front), e);
    }
  }

  lemma SmoothPrefix(env: Env, c: Cluster, events: seq<Event>)
    requires events != [] && AllSmooth(env, c, events)
    ensures AllSmooth(env, c, events[..|events| - 1])
    ensures Smooth(env, Steps(env, c, events[..|events| - 1]), events[|events| - 1])
  {
    var front := events[..|events| - 1];
    forall i | 0 <= i < |front| ensures Smooth(env, Steps(env, c, front[..i]), front[i]) {
      assert front[..i] == events[..i] && front[i] == events[i];
    }
  }

  // ---- convergence -------------------------------------------------------------------------------

  /** `docs` holds, for every document any replica started with, the greatest version of it. */
  ghost predicate IsMaximum(start: map<Rid, Docs>, docs: Docs) {
    && (forall r, name :: r in start && name in start[r] ==>
          name in docs && Compare(docs[name].version, start[r][name].version) >= 0)
    && (forall name :: name in docs ==> Held(start, name, docs[name]))
  }

  ghost predicate Held(start: map<Rid, Docs>, name: Bytes, row: Row) {
    exists r :: r in start && name in start[r] && start[r][name] == row
  }

  /** No two values of one document that are in use have the same digest. */
  ghost predicate CollisionFree(env: Env, c: Cluster) {
    forall name, a, b :: InUse(c, name, a) && InUse(c, name, b) && env.sha(a.value) == env.sha(b.value) ==>
      a.value == b.value
  }

  /** So a version identifies the whole row. */
  lemma VersionIdentifiesRow(env: Env, c: Cluster, name: Bytes, a: Row, b: Row)
    requires CollisionFree(env, c) && Lawful(env, c) && InUse(c, name, a) && InUse(c, name, b)
    requires Compare(a.version, b.version) >= 0 && Compare(b.version, a.version) >= 0
    ensures a == b
  {
    CompareIsTotal(a.version, b.version, a.version);
  }

  lemma InformedCovers(from: Cluster, c: Cluster, l: Ledger, i: Rid, r: Rid, name: Bytes)
    requires Tracks(from, c, l) && i in from.replicas && l.know[i] == from.replicas.Keys
    requires r in from.replicas && name in from.replicas[r]
    ensures name in c.replicas[i] && Compare(c.replicas[i][name].version, from.replicas[r][name].version) >= 0
  {
    assert Above(from.replicas, l.know[i], c.replicas[i]);
    assert Leq(from.replicas[r], c.replicas[i]);
  }

  /** Some replica started with at least the version that `docs` has. */
  lemma Source(start: map<Rid, Docs>, docs: Docs, name: Bytes) returns (r: Rid)
    requires Below(start, docs) && name in docs
    ensures r in start && name in start[r] && Compare(start[r][name].version, docs[name].version) >= 0
  {
    assert Matched(start, name, docs[name].version);
    r :| r in start && name in start[r] && Compare(start[r][name].version, docs[name].version) >= 0;
  }

  lemma InformedHolds(env: Env, from: Cluster, c: Cluster, l: Ledger, i: Rid, name: Bytes)
    requires CollisionFree(env, from) && Lawful(env, from)
    requires Tracks(from, c, l) && i in from.replicas && l.know[i] == from.replicas.Keys && name in c.replicas[i]
    ensures Held(from.replicas, name, c.replicas[i][name])
  {
    var r := Source(from.replicas, c.replicas[i], name);
    InformedCovers(from, c, l, i, r, name);
    assert InUse(from, name, c.replicas[i][name]) by { assert Drawn(from, c.replicas[i]); }
    VersionIdentifiesRow(env, from, name, from.replicas[r][name], c.replicas[i][name]);
  }

  /** A replica that has heard from everyone holds the maximum. */
  lemma InformedHoldsMaximum(env: Env, from: Cluster, c: Cluster, l: Ledger, i: Rid)
    requires CollisionFree(env, from) && Lawful(env, from)
    requires Tracks(from, c, l) && i in from.replicas && l.know[i] == from.replicas.Keys
    ensures IsMaximum(from.replicas, c.replicas[i])
  {
    forall r, name | r in from.replicas && name in from.replicas[r]
      ensures name in c.replicas[i] && Compare(c.replicas[i][name].version, from.replicas[r][name].version) >= 0
    {
      InformedCovers(from, c, l, i, r, name);
    }
    forall name | name in c.replicas[i] ensures Held(from.replicas, name, c.replicas[i][name]) {
      InformedHolds(env, from, c, l, i, name);
    }
  }

  lemma MaximumCovers(start: map<Rid, Docs>, docs: Docs, name: Bytes, row: Row)
    requires IsMaximum(start, docs) && Held(start, name, row)
    ensures name in docs && Compare(docs[name].version, row.version) >= 0
  {
  }

  lemma MaximumUnique(env: Env, from: Cluster, a: Docs, b: Docs)
    requires CollisionFree(env, from) && Lawful(env, from) && IsMaximum(from.replicas, a) && IsMaximum(from.replicas, b)
    ensures a == b
  {
    forall name | name in a ensures name in b { MaximumCovers(from.replicas, b, name, a[name]); }
    forall name | name in b ensures name in a && a[name] == b[name] {
      MaximumCovers(from.replicas, a, name, b[name]);
      MaximumCovers(from.replicas, b, name, a[name]);
      assert InUse(from, name, a[name]) && InUse(from, name, b[name]);
      VersionIdentifiesRow(env, from, name, a[name], b[name]);
    }
  }

  // ---- rounds of exchanges that connect everyone -----------------------------------------------------

  /** A snapshot taken at `a` during these events is delivered at `b` during them, or is skipped. */
  predicate Passes(events: seq<Event>, a: Rid, b: Rid) {
    Skip(a, b) in events || Delivers(events, a, b)
  }

  predicate Delivers(events: seq<Event>, a: Rid, b: Rid) {
    exists i, k :: 0 <= i < k < |events| && Carries(events, a, b, i, k)
  }

  predicate Carries(events: seq<Event>, a: Rid, b: Rid, i: nat, k: nat)
    requires i < k < |events|
  {
    && events[i].Send? && events[i].from == a
    && events[k] == Receive(events[i].m, b)
    && forall x :: i < x < k ==> !(events[x].Send? && events[x].m == events[i].m)
  }

  /** Nobody forgets. */
  lemma {:induction false} NotesGrow(l: Ledger, events: seq<Event>, r: Rid, i: nat, j: nat)
    requires r in l.know && i <= j <= |events|
    ensures r in Notes(l, events[..i]).know && r in Notes(l, events[..j]).know
    ensures Notes(l, events[..i]).know[r] <= Notes(l, events[..j]).know[r]
    decreases j
  {
    if j > 0 {
      assert events[..j][..j - 1] == events[..j - 1];
      NotesGrow(l, events, r, if i < j then i else i - 1, j - 1);
    }
  }

  /** A snapshot in flight keeps what it carries until its number is reused. */
  lemma {:induction false} CarriedStays(l: Ledger, events: seq<Event>, m: nat, i: nat, k: nat)
    requires i < k <= |events| && m in Notes(l, events[..i + 1]).carried
    requires forall x :: i < x < k ==> !(events[x].Send? && events[x].m == m)
    ensures m in Notes(l, events[..k]).carried
    ensures Notes(l, events[..k]).carried[m] == Notes(l, events[..i + 1]).carried[m]
    decreases k
  {
    if k > i + 1 {
      CarriedStays(l, events, m, i, k - 1);
      assert events[..k][..k - 1] == events[..k - 1];
    }
  }

  lemma SkipPassesKnowledge(l: Ledger, events: seq<Event>, a: Rid, b: Rid, k: nat)
    requires a in l.know && b in l.know && k < |events| && events[k] == Skip(a, b)
    ensures b in Notes(l, events).know && l.know[a] <= Notes(l, events).know[b]
  {
    NotesGrow(l, events, a, 0, k);
    NotesGrow(l, events, b, 0, k);
    assert events[..k + 1][..k] == events[..k];
    NotesGrow(l, events, b, k + 1, |events|);
    assert events[..|events|] == events;
  }

  lemma PassesKnowledge(l: Ledger, events: seq<Event>, a: Rid, b: Rid)
    requires a in l.know && b in l.know && Passes(events, a, b)
    ensures b in Notes(l, events).know && l.know[a] <= Notes(l, events).know[b]
  {
    if k :| 0 <= k < |events| && events[k] == Skip(a, b) {
      SkipPassesKnowledge(l, events, a, b, k);
      return;
    }
    var i, k :| 0 <= i < k < |events| && Carries(events, a, b, i, k);
    NotesGrow(l, events, a, 0, i);
    assert events[..i + 1][..i] == events[..i];
    CarriedStays(l, events, events[i].m, i, k);
    NotesGrow(l, events, b, 0, k);
    assert events[..k + 1][..k] == events[..k];
    NotesGrow(l, events, b, k + 1, |events|);
    assert events[..|events|] == events;
  }

  function NotesOver(l: Ledger, rounds: seq<seq<Event>>): Ledger {
    if rounds == [] then l else Notes(NotesOver(l, rounds[..|rounds| - 1]), rounds[|rounds| - 1])
  }

  ghost function StepsOver(env: Env, c: Cluster, rounds: seq<seq<Event>>): Cluster {
    if rounds == [] then c else Steps(env, StepsOver(env, c, rounds[..|rounds| - 1]), rounds[|rounds| - 1])
  }

  ghost predicate SmoothOver(env: Env, c: Cluster, rounds: seq<seq<Event>>) {
    forall t :: 0 <= t < |rounds| ==> AllSmooth(env, StepsOver(env, c, rounds[..t]), rounds[t])
  }

  /** `path` leads from `i` to `j` along pairs that exchange in every round. */
  predicate Leads(links: set<(Rid, Rid)>, path: seq<Rid>, i: Rid, j: Rid) {
    && path != [] && path[0] == i && path[|path| - 1] == j
    && forall t :: 0 <= t < |path| - 1 ==> (path[t], path[t + 1]) in links
  }

  lemma {:induction false} RoundsKeep(l: Ledger, rounds: seq<seq<Event>>)
    ensures NotesOver(l, rounds).know.Keys == l.know.Keys
    ensures forall r :: r in l.know ==> l.know[r] <= NotesOver(l, rounds).know[r]
  {
    if rounds != [] {
      RoundsKeep(l, rounds[..|rounds| - 1]);
      var mid, last := NotesOver(l, rounds[..|rounds| - 1]), rounds[|rounds| - 1];
      SameReplicas(mid, last);
      forall r | r in l.know ensures l.know[r] <= NotesOver(l, rounds).know[r] {
        NotesGrow(mid, last, r, 0, |last|);
        assert last[..|last|] == last;
      }
    }
  }

  lemma {:induction false} SameReplicas(l: Ledger, events: seq<Event>)
    ensures Notes(l, events).know.Keys == l.know.Keys
  {
    if events != [] { SameReplicas(l, events[..|events| - 1]); }
  }

  /** After as many rounds as the path has steps, its end has heard from its start. */
  lemma {:induction false} PathInforms(
    l: Ledger, rounds: seq<seq<Event>>, links: set<(Rid, Rid)>, path: seq<Rid>, i: Rid, j: Rid)
    requires Leads(links, path, i, j) && |path| - 1 <= |rounds|
    requires forall r :: r in path ==> r in l.know
    requires i in l.know && i in l.know[i]
    requires forall t, a, b :: 0 <= t < |rounds| && (a, b) in links ==> Passes(rounds[t], a, b)
    ensures j in NotesOver(l, rounds).know && i in NotesOver(l, rounds).know[j]
    decreases |rounds|
  {
    if |path| == 1 {
      RoundsKeep(l, rounds);
    } else {
      var before, last := rounds[..|rounds| - 1], rounds[|rounds| - 1];
      var front, prev := path[..|path| - 1], path[|path| - 2];
      PathInforms(l, before, links, front, i, prev);
      RoundsKeep(l, before);
      assert (prev, j) in links && j in path;
      PassesKnowledge(NotesOver(l, before), last, prev, j);
    }
  }

  lemma {:induction false} RoundsTrack(env: Env, from: Cluster, c: Cluster, l: Ledger, rounds: seq<seq<Event>>)
    requires Tracks(from, c, l) && Receipted(c) && SmoothOver(env, c, rounds)
    ensures Tracks(from, StepsOver(env, c, rounds), NotesOver(l, rounds)) && Receipted(StepsOver(env, c, rounds))
  {
    if rounds != [] {
      var front := rounds[..|rounds| - 1];
      assert forall t :: 0 <= t < |front| ==> front[..t] == rounds[..t] && front[t] == rounds[t];
      RoundsTrack(env, from, c, l, front);
      RunTracks(env, from, StepsOver(env, c, front), NotesOver(l, front), rounds[|rounds| - 1]);
    }
  }

  lemma BelowIfLeq(start: map<Rid, Docs>, r: Rid, docs: Docs)
    requires r in start && Leq(docs, start[r])
    ensures Below(start, docs)
  {
  }

  lemma FreshReplica(c: Cluster, r: Rid)
    requires r in c.replicas
    ensures Drawn(c, c.replicas[r]) && Below(c.replicas, c.replicas[r]) && Above(c.replicas, {r}, c.replicas[r])
  {
    LeqSelf(c.replicas[r]);
    BelowIfLeq(c.replicas, r, c.replicas[r]);
  }

  lemma FreshSnapshot(c: Cluster, m: nat)
    requires m in c.wire && Sent(c, m)
    ensures Drawn(c, c.wire[m]) && Below(c.replicas, c.wire[m])
  {
  }

  lemma FreshLedgerTracks(env: Env, c: Cluster)
    requires Lawful(env, c)
    ensures Tracks(c, c, Ledger(map r | r in c.replicas :: {r}, map[]))
  {
    forall r | r in c.replicas { FreshReplica(c, r); }
    forall m | m in c.wire { FreshSnapshot(c, m); }
  }

  /** Every linked pair exchanges in every round. */
  ghost predicate Exchanging(rounds: seq<seq<Event>>, links: set<(Rid, Rid)>) {
    forall t, a, b :: 0 <= t < |rounds| && (a, b) in links ==> Passes(rounds[t], a, b)
  }

  ghost predicate Connected(links: set<(Rid, Rid)>, ids: set<Rid>, steps: nat) {
    forall i, j :: i in ids && j in ids ==> Reachable(links, ids, steps, i, j)
  }

  ghost predicate Reachable(links: set<(Rid, Rid)>, ids: set<Rid>, steps: nat, i: Rid, j: Rid) {
    exists path :: Leads(links, path, i, j) && |path| - 1 <= steps && forall r :: r in path ==> r in ids
  }

  lemma EveryoneIsHeard(l: Ledger, rounds: seq<seq<Event>>, links: set<(Rid, Rid)>, ids: set<Rid>, j: Rid)
    requires l.know.Keys == ids && j in ids && forall r :: r in ids ==> l.know[r] == {r}
    requires NotesOver(l, rounds).know.Keys == ids && NotesOver(l, rounds).know[j] <= ids
    requires Exchanging(rounds, links) && Connected(links, ids, |rounds|)
    ensures NotesOver(l, rounds).know[j] == ids
  {
    forall i | i in ids ensures i in NotesOver(l, rounds).know[j] {
      assert Reachable(links, ids, |rounds|, i, j);
      var path :| Leads(links, path, i, j) && |path| - 1 <= |rounds| && forall r :: r in path ==> r in ids;
      PathInforms(l, rounds, links, path, i, j);
    }
  }

  lemma TrackedSources(from: Cluster, c: Cluster, l: Ledger, r: Rid)
    requires Tracks(from, c, l) && r in from.replicas
    ensures l.know[r] <= from.replicas.Keys
  {
  }

  lemma ConvergesFrom(env: Env, mid: Cluster, rounds: seq<seq<Event>>, links: set<(Rid, Rid)>, i: Rid)
    requires CollisionFree(env, mid) && Lawful(env, mid) && SmoothOver(env, mid, rounds) && i in mid.replicas
    requires Exchanging(rounds, links) && Connected(links, mid.replicas.Keys, |rounds|)
    ensures var end := StepsOver(env, mid, rounds);
            end.replicas.Keys == mid.replicas.Keys && IsMaximum(mid.replicas, end.replicas[i])
  {
    var l := Ledger(map r | r in mid.replicas :: {r}, map[]);
    FreshLedgerTracks(env, mid);
    RoundsTrack(env, mid, mid, l, rounds);
    RoundsKeep(l, rounds);
    TrackedSources(mid, StepsOver(env, mid, rounds), NotesOver(l, rounds), i);
    EveryoneIsHeard(l, rounds, links, mid.replicas.Keys, i);
    InformedHoldsMaximum(env, mid, StepsOver(env, mid, rounds), NotesOver(l, rounds), i);
  }

  function Empty(ids: set<Rid>): Cluster {
    Cluster(map r | r in ids :: map[], map[], {}, {}, map[])
  }

  lemma EarlyRun(env: Env, ids: set<Rid>, early: seq<Event>)
    ensures Lawful(env, Steps(env, Empty(ids), early)) && Steps(env, Empty(ids), early).replicas.Keys == ids
  {
    assert Lawful(env, Empty(ids)) && Empty(ids).replicas.Keys == ids;
    RunIsLawful(env, Empty(ids), early);
  }

  /** After any run from empty replicas, as many rounds as the longest path between two of them, each
      passing something along every link, bring all replicas to the same documents. */
  lemma ConvergesAlong(env: Env, ids: set<Rid>, early: seq<Event>, rounds: seq<seq<Event>>, links: set<(Rid, Rid)>)
    requires CollisionFree(env, Steps(env, Empty(ids), early)) && SmoothOver(env, Steps(env, Empty(ids), early), rounds)
    requires Exchanging(rounds, links) && Connected(links, ids, |rounds|)
    ensures var mid := Steps(env, Empty(ids), early);
            var end := StepsOver(env, mid, rounds);
            && mid.replicas.Keys == ids && (ids != {} ==> end.replicas.Keys == ids)
            && (forall i :: i in ids ==> IsMaximum(mid.replicas, end.replicas[i]))
            && (forall i, j :: i in ids && j in ids ==> end.replicas[i] == end.replicas[j])
  {
    var mid := Steps(env, Empty(ids), early);
    EarlyRun(env, ids, early);
    var end := StepsOver(env, mid, rounds);
    forall i | i in ids ensures end.replicas.Keys == ids && IsMaximum(mid.replicas, end.replicas[i]) {
      ConvergesFrom(env, mid, rounds, links, i);
    }
    forall i, j | i in ids && j in ids ensures end.replicas[i] == end.replicas[j] {
      MaximumUnique(env, mid, end.replicas[i], end.replicas[j]);
    }
  }

  // ---- who lists whom -----------------------------------------------------------------------------

  /** `a` deals with its peer `b`: it skips, or sends its snapshot and gets one back. */
  predicate Syncs(events: seq<Event>, a: Rid, b: Rid) {
    Skip(a, b) in events || (Delivers(events, a, b) && Delivers(events, b, a))
  }

  ghost predicate LinedAt(env: Env, c: Cluster, events: seq<Event>, i: nat, a: Rid, b: Rid)
    requires i <= |events|
  {
    (a, b) in Steps(env, c, events[..i]).lines
  }

  /** Every replica deals with every peer it knows of, and with everyone it is connected to at any
      time during the round. */
  ghost predicate FullRound(env: Env, c: Cluster, events: seq<Event>, known: set<(Rid, Rid)>) {
    && (forall a, b {:trigger (a, b) in known} :: (a, b) in known ==> Syncs(events, a, b))
    && (forall i, a, b {:trigger LinedAt(env, c, events, i, a, b)} ::
          0 <= i <= |events| && LinedAt(env, c, events, i, a, b) ==> Syncs(events, a, b))
  }

  ghost predicate FullRounds(env: Env, c: Cluster, rounds: seq<seq<Event>>, known: set<(Rid, Rid)>) {
    forall t :: 0 <= t < |rounds| ==> FullRound(env, StepsOver(env, c, rounds[..t]), rounds[t], known)
  }

  lemma {:induction false} StepsAreReceipted(env: Env, c: Cluster, events: seq<Event>)
    requires Receipted(c)
    ensures Receipted(Steps(env, c, events))
  {
    if events != [] {
      StepsAreReceipted(env, c, events[..|events| - 1]);
      StepIsReceipted(env, Steps(env, c, events[..|events| - 1]), events[|events| - 1]);
    }
  }

  /** Whoever is skipped to is connected, so it deals with the sender in the same round: something
      passes both ways, skipped or not. */
  lemma FullRoundPassesBack(env: Env, c: Cluster, events: seq<Event>, known: set<(Rid, Rid)>, a: Rid, b: Rid)
    requires Receipted(c) && AllSmooth(env, c, events) && FullRound(env, c, events, known) && (a, b) in known
    ensures Passes(events, a, b) && Passes(events, b, a)
  {
    assert Syncs(events, a, b);
    if i :| 0 <= i < |events| && events[i] == Skip(a, b) {
      assert Smooth(env, Steps(env, c, events[..i]), events[i]);
      StepsAreReceipted(env, c, events[..i]);
      assert LinedAt(env, c, events, i, a, b);
      assert (b, a) in Steps(env, c, events[..i]).lines;
      assert LinedAt(env, c, events, i, b, a);
    }
  }

  /** The graph with its directions forgotten. */
  function BothWays(known: set<(Rid, Rid)>): set<(Rid, Rid)> {
    known + set p | p in known :: (p.1, p.0)
  }

  lemma {:induction false} RoundsAreReceipted(env: Env, c: Cluster, rounds: seq<seq<Event>>)
    requires Receipted(c)
    ensures Receipted(StepsOver(env, c, rounds))
  {
    if rounds != [] {
      RoundsAreReceipted(env, c, rounds[..|rounds| - 1]);
      StepsAreReceipted(env, StepsOver(env, c, rounds[..|rounds| - 1]), rounds[|rounds| - 1]);
    }
  }

  lemma FullRoundsExchange(env: Env, c: Cluster, rounds: seq<seq<Event>>, known: set<(Rid, Rid)>)
    requires Receipted(c) && SmoothOver(env, c, rounds) && FullRounds(env, c, rounds, known)
    ensures Exchanging(rounds, BothWays(known))
  {
    forall t, a, b | 0 <= t < |rounds| && (a, b) in BothWays(known) ensures Passes(rounds[t], a, b) {
      RoundsAreReceipted(env, c, rounds[..t]);
      var c' := StepsOver(env, c, rounds[..t]);
      assert FullRound(env, c', rounds[t], known) && AllSmooth(env, c', rounds[t]);
      if (a, b) in known {
        FullRoundPassesBack(env, c', rounds[t], known, a, b);
      } else {
        FullRoundPassesBack(env, c', rounds[t], known, b, a);
      }
    }
  }

  /** After any run of edits, exchanges, replies and connections from empty replicas, as many rounds as
      the longest path between two of them bring all replicas to the same documents, for each name the
      greatest version any of them held. Peers may be known in one direction only: the graph has to be
      connected with its directions forgotten. */
  lemma ReplicasConverge(env: Env, ids: set<Rid>, early: seq<Event>, rounds: seq<seq<Event>>, known: set<(Rid, Rid)>)
    requires CollisionFree(env, Steps(env, Empty(ids), early)) && SmoothOver(env, Steps(env, Empty(ids), early), rounds)
    requires FullRounds(env, Steps(env, Empty(ids), early), rounds, known) && Connected(BothWays(known), ids, |rounds|)
    ensures var mid := Steps(env, Empty(ids), early);
            var end := StepsOver(env, mid, rounds);
            && mid.replicas.Keys == ids && (ids != {} ==> end.replicas.Keys == ids)
            && (forall i :: i in ids ==> IsMaximum(mid.replicas, end.replicas[i]))
            && (forall i, j :: i in ids && j in ids ==> end.replicas[i] == end.replicas[j])
  {
    EarlyRun(env, ids, early);
    FullRoundsExchange(env, Steps(env, Empty(ids), early), rounds, known);
    ConvergesAlong(env, ids, early, rounds, BothWays(known));
  }
}

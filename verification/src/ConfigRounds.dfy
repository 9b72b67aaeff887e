/** One replica's round with one peer, when nothing else happens: what it brings, what a skipped one
    leaves behind, and that a round of each side makes the two agree. */
module ConfigRounds {
  import opened Versions
  import opened Documents
  import opened ConfigStore
  import opened Replication

  /** What `a` does about its peer `b`: skip if it may, otherwise send its snapshot, have it merged,
      merge the reply and keep the receipt. */
  function RoundOf(c: Cluster, a: Rid, b: Rid): seq<Event>
    requires a in c.replicas
  {
    if UpToDate(c, a, b) then [Skip(a, b)]
    else [Send(a, 0), Receive(0, b), Send(b, 1), Receive(1, a), Reply(a, b, c.replicas[a])]
  }

  ghost function Round(env: Env, c: Cluster, a: Rid, b: Rid): Cluster
    requires a in c.replicas
  {
    Steps(env, c, RoundOf(c, a, b))
  }

  /** Both merges of the round are accepted. */
  ghost predicate Accepted(env: Env, c: Cluster, a: Rid, b: Rid)
    requires a in c.replicas && b in c.replicas
  {
    var there := Merge(Listing(c.replicas[a]));
    Accepts(env, c.replicas[b], there) && Accepts(env, c.replicas[a], Merge(Listing(After(env, c.replicas[b], there))))
  }

  lemma StepsOne(env: Env, c: Cluster, events: seq<Event>, e: Event)
    ensures Steps(env, c, events + [e]) == Step(env, Steps(env, c, events), e)
  {
    assert (events + [e])[..|events|] == events;
  }

  lemma SkippedRound(env: Env, c: Cluster, a: Rid, b: Rid)
    requires a in c.replicas && UpToDate(c, a, b)
    ensures Round(env, c, a, b) == c
  {
    StepsOne(env, c, [], Skip(a, b));
    assert [] + [Skip(a, b)] == [Skip(a, b)];
  }

  /** A snapshot is sent and merged. */
  ghost function Passed(env: Env, c: Cluster, a: Rid, b: Rid, m: nat): Cluster {
    Step(env, Step(env, c, Send(a, m)), Receive(m, b))
  }

  lemma PassedIsMerged(env: Env, c: Cluster, a: Rid, b: Rid, m: nat)
    requires a in c.replicas && b in c.replicas && Accepts(env, c.replicas[b], Merge(Listing(c.replicas[a])))
    ensures var c' := Passed(env, c, a, b, m);
            && c'.replicas == c.replicas[b := Merged(c.replicas[b], Listing(c.replicas[a]))]
            && c'.lines == c.lines && c'.receipts == c.receipts && c'.seen == c.seen + {(c.replicas[a], b)}
  {
  }

  lemma RoundIsExchange(env: Env, c: Cluster, a: Rid, b: Rid)
    requires a in c.replicas && !UpToDate(c, a, b)
    ensures Round(env, c, a, b) == Step(env, Passed(env, Passed(env, c, a, b, 0), b, a, 1), Reply(a, b, c.replicas[a]))
  {
    var e1, e2 := [Send(a, 0)], [Send(a, 0), Receive(0, b)];
    var e3 := [Send(a, 0), Receive(0, b), Send(b, 1)];
    var e4 := [Send(a, 0), Receive(0, b), Send(b, 1), Receive(1, a)];
    assert [] + [Send(a, 0)] == e1 && e1 + [Receive(0, b)] == e2 && e2 + [Send(b, 1)] == e3 &&
      e3 + [Receive(1, a)] == e4;
    assert e4 + [Reply(a, b, c.replicas[a])] == RoundOf(c, a, b);
    StepsOne(env, c, [], Send(a, 0));
    StepsOne(env, c, e1, Receive(0, b));
    StepsOne(env, c, e2, Send(b, 1));
    StepsOne(env, c, e3, Receive(1, a));
    StepsOne(env, c, e4, Reply(a, b, c.replicas[a]));
  }

  /** A full exchange: the peer merges what is sent, the sender merges what comes back. */
  lemma FullExchange(env: Env, c: Cluster, a: Rid, b: Rid)
    requires a in c.replicas && b in c.replicas && a != b && !UpToDate(c, a, b) && Accepted(env, c, a, b)
    ensures var there := Merged(c.replicas[b], Listing(c.replicas[a]));
            var back := Merged(c.replicas[a], Listing(there));
            var c' := Round(env, c, a, b);
            && c'.replicas == c.replicas[b := there][a := back] && c'.lines == c.lines
            && ((a, b) in c.lines ==> c'.receipts == c.receipts[(a, b) := c.replicas[a]])
  {
    RoundIsExchange(env, c, a, b);
    PassedIsMerged(env, c, a, b, 0);
    PassedIsMerged(env, Passed(env, c, a, b, 0), b, a, 1);
  }

  // ---- what a round brings --------------------------------------------------------------------

  /** Merging something above a table gives nothing above that. */
  lemma MergedIsBelow(a: Docs, b: Docs)
    requires Leq(a, b)
    ensures Leq(Merged(a, Listing(b)), b)
  {
    var merged := Merged(a, Listing(b));
    MergeSnapshot(a, b);
    LeqSelf(b);
    forall name | name in merged ensures name in b && Compare(b[name].version, merged[name].version) >= 0 {
      if name in a && merged[name] == a[name] { assert name in b; }
    }
  }

  /** After a full exchange the two are level. */
  lemma ExchangeLevels(env: Env, c: Cluster, a: Rid, b: Rid)
    requires a in c.replicas && b in c.replicas && a != b && !UpToDate(c, a, b) && Accepted(env, c, a, b)
    ensures var c' := Round(env, c, a, b);
            && c'.replicas.Keys == c.replicas.Keys && c'.lines == c.lines
            && Leq(c'.replicas[a], c'.replicas[b]) && Leq(c'.replicas[b], c'.replicas[a])
            && Leq(c.replicas[a], c'.replicas[b]) && Leq(c.replicas[b], c'.replicas[a])
  {
    FullExchange(env, c, a, b);
    var there := Merged(c.replicas[b], Listing(c.replicas[a]));
    MergeSnapshot(c.replicas[b], c.replicas[a]);
    MergeSnapshot(c.replicas[a], there);
    MergedIsBelow(c.replicas[a], there);
    LeqTransitive(c.replicas[b], there, Merged(c.replicas[a], Listing(there)));
  }

  /** A round of `a` leaves it with everything `b` has if and only if it was not skipped, or `a` had
      it all before. */
  lemma RoundCatchesUpIff(env: Env, c: Cluster, a: Rid, b: Rid)
    requires a in c.replicas && b in c.replicas && a != b && (UpToDate(c, a, b) || Accepted(env, c, a, b))
    ensures var c' := Round(env, c, a, b);
            && c'.replicas.Keys == c.replicas.Keys
            && (Leq(c'.replicas[b], c'.replicas[a]) <==> !UpToDate(c, a, b) || Leq(c.replicas[b], c.replicas[a]))
  {
    if UpToDate(c, a, b) { SkippedRound(env, c, a, b); } else { ExchangeLevels(env, c, a, b); }
  }

  /** A round of each side, whichever of them are skipped, leaves the two level. */
  lemma TwoRoundsLevel(env: Env, c: Cluster, a: Rid, b: Rid)
    requires Receipted(c) && a in c.replicas && b in c.replicas && a != b
    requires UpToDate(c, a, b) || Accepted(env, c, a, b)
    requires var c1 := Round(env, c, a, b);
             c1.replicas.Keys == c.replicas.Keys && (UpToDate(c1, b, a) || Accepted(env, c1, b, a))
    ensures var c2 := Round(env, Round(env, c, a, b), b, a);
            && c2.replicas.Keys == c.replicas.Keys
            && Leq(c2.replicas[a], c2.replicas[b]) && Leq(c2.replicas[b], c2.replicas[a])
  {
    var c1 := Round(env, c, a, b);
    if UpToDate(c, a, b) {
      SkippedRound(env, c, a, b);
      assert Leq(c.replicas[a], c.replicas[b]) by { assert (a, b) in c.receipts; }
    } else {
      ExchangeLevels(env, c, a, b);
    }
    if UpToDate(c1, b, a) {
      StepsAreReceipted(env, c, RoundOf(c, a, b));
      assert Leq(c1.replicas[b], c1.replicas[a]) by { assert (b, a) in c1.receipts; }
      SkippedRound(env, c1, b, a);
    } else {
      ExchangeLevels(env, c1, b, a);
    }
  }

  // ---- one side alone -----------------------------------------------------------------------------

  /** Any number of rounds of `a`, and none of `b`. */
  ghost function Rounds(env: Env, c: Cluster, a: Rid, b: Rid, n: nat): Cluster {
    if n == 0 then c
    else
      var c' := Rounds(env, c, a, b, n - 1);
      if a in c'.replicas then Round(env, c', a, b) else c'
  }

  lemma {:induction false} SkippedRounds(env: Env, c: Cluster, a: Rid, b: Rid, n: nat)
    requires UpToDate(c, a, b)
    ensures Rounds(env, c, a, b, n) == c
  {
    if n > 0 {
      SkippedRounds(env, c, a, b, n - 1);
      SkippedRound(env, c, a, b);
    }
  }

  /** Two empty replicas, connected, after a round of `a`. */
  lemma EmptyRound(env: Env, a: Rid, b: Rid) returns (events: seq<Event>, c: Cluster)
    requires a != b && Sound(env, map[])
    ensures c == Steps(env, Empty({a, b}), events)
    ensures c.replicas == map[a := map[], b := map[]] && UpToDate(c, a, b) && (b, a) !in c.receipts
  {
    var c0 := Empty({a, b});
    var c1 := Step(env, c0, Connect(a, b));
    StepsOne(env, c0, [], Connect(a, b));
    assert [] + [Connect(a, b)] == [Connect(a, b)];
    assert Listing(map[]) == [] && Merged(map[], []) == map[];
    assert Accepted(env, c1, a, b);
    FullExchange(env, c1, a, b);
    c := Round(env, c1, a, b);
    events := [Connect(a, b)] + RoundOf(c1, a, b);
    StepsJoin(env, c0, [Connect(a, b)], RoundOf(c1, a, b));
  }

  lemma {:induction false} StepsJoin(env: Env, c: Cluster, first: seq<Event>, next: seq<Event>)
    ensures Steps(env, c, first + next) == Steps(env, Steps(env, c, first), next)
  {
    if next == [] {
      assert first + next == first;
    } else {
      var front, e := next[..|next| - 1], next[|next| - 1];
      StepsJoin(env, c, first, front);
      StepsOne(env, c, first + front, e);
      assert first + next == (first + front) + [e];
    }
  }

  lemma EditGoesAhead(env: Env, c: Cluster, a: Rid, b: Rid, put: Op)
    requires c.replicas == map[a := map[], b := map[]] && a != b && put.Put? && Accepts(env, map[], put)
    ensures var c' := Step(env, c, Edit(b, put));
            && c' == c.(replicas := map[a := map[], b := After(env, map[], put)])
            && !Leq(c'.replicas[b], c'.replicas[a])
  {
    AfterRises(env, map[], put);
    assert put.name in After(env, map[], put);
  }

  /** From two empty replicas: after one round of `a` and one accepted edit at `b`, no number of further
      rounds of `a` alone brings it the edit; the first round of `b` does. */
  lemma OneSideStalls(env: Env, a: Rid, b: Rid, put: Op, n: nat) returns (events: seq<Event>, c: Cluster)
    requires a != b && put.Put? && Accepts(env, map[], put)
    ensures c == Steps(env, Empty({a, b}), events) && c.replicas.Keys == {a, b}
    ensures Rounds(env, c, a, b, n) == c && !Leq(c.replicas[b], c.replicas[a])
    ensures Accepted(env, c, b, a) ==>
      a in Round(env, c, b, a).replicas && Leq(c.replicas[b], Round(env, c, b, a).replicas[a])
  {
    var before, c1 := EmptyRound(env, a, b);
    StepsOne(env, Empty({a, b}), before, Edit(b, put));
    events := before + [Edit(b, put)];
    EditGoesAhead(env, c1, a, b, put);
    c := c1.(replicas := map[a := map[], b := After(env, map[], put)]);
    SkippedRounds(env, c, a, b, n);
    if Accepted(env, c, b, a) { ExchangeLevels(env, c, b, a); }
  }
}

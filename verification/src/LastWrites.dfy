/** What clients read: over whole runs each key holds what the last write that reached a store gave it. */
module LastWrites {
  import opened Identifiers
  import opened RingOrder
  import opened Nodes
  import opened Calls
  import opened Membership
  import opened MembershipLocks
  import opened RingSafety
  import opened KeySafety
  import opened Traces
  import opened Churn
  import opened OverlappingCalls
  import opened WholeCalls

  function Held<T>(m: map<Key, T>, k: Key): Option<T> {
    if k in m then Some(m[k]) else None
  }

  predicate WritesKey(e: Event, k: Key) {
    e.Write? && e.k == k
  }

  /** Event `i` is the last write of `k`. */
  ghost predicate LastWrite(events: seq<Event>, k: Key, i: nat) {
    i < |events| && WritesKey(events[i], k) && forall j :: i < j < |events| ==> !WritesKey(events[j], k)
  }

  lemma JoinBeginningKeepsData(s: State, e: Event)
    requires Can(s, e) && (e.BeginJoin? || e.LockForJoin? || e.AcceptJoin? || e.RefuseJoin? || e.CopyUp? || e.Admit?)
    ensures JoinStep(s, e).data == s.data
  {
  }

  lemma JoinKeepsData(s: State, e: Event)
    requires Can(s, e) && JoinEvent(e)
    ensures JoinStep(s, e).data == s.data
  {
    if e.BeginJoin? || e.LockForJoin? || e.AcceptJoin? || e.RefuseJoin? || e.CopyUp? || e.Admit? {
      JoinBeginningKeepsData(s, e);
    }
  }

  lemma LeaveKeepsData(s: State, e: Event)
    requires Can(s, e) && LeaveEvent(e)
    ensures LeaveStep(s, e).data == s.data
  {
  }

  /** One step writes exactly the key it names. */
  lemma StepWrites(s: State, e: Event, k: Key)
    requires Can(s, e)
    ensures Held(Step(s, e).data, k) == if WritesKey(e, k) then e.v else Held(s.data, k)
  {
    if JoinEvent(e) {
      JoinKeepsData(s, e);
    } else if LeaveEvent(e) {
      LeaveKeepsData(s, e);
    }
  }

  lemma {:induction false} UnwrittenStays(s: State, events: seq<Event>, s': State, k: Key)
    requires Runs(s, events, s') && forall j :: 0 <= j < |events| ==> !WritesKey(events[j], k)
    ensures Held(s'.data, k) == Held(s.data, k)
    decreases |events|
  {
    if events != [] {
      StepWrites(s, events[0], k);
      UnwrittenStays(Step(s, events[0]), events[1..], s', k);
    }
  }

  lemma LastWriteRemains(events: seq<Event>, k: Key, i: nat)
    requires i > 0 && LastWrite(events, k, i)
    ensures LastWrite(events[1..], k, i - 1) && events[1..][i - 1] == events[i]
  {
    forall j | i - 1 < j < |events| - 1 ensures !WritesKey(events[1..][j], k) {
      assert events[1..][j] == events[j + 1];
    }
  }

  /** Over every run, what clients have stored under a key is what the last write of it gave, nothing after
      a deletion. */
  lemma {:induction false} DataIsLastWritten(s: State, events: seq<Event>, s': State, k: Key, i: nat)
    requires Runs(s, events, s') && LastWrite(events, k, i)
    ensures Held(s'.data, k) == events[i].v
    decreases |events|
  {
    StepWrites(s, events[0], k);
    if i == 0 {
      UnwrittenStays(Step(s, events[0]), events[1..], s', k);
    } else {
      LastWriteRemains(events, k, i);
      DataIsLastWritten(Step(s, events[0]), events[1..], s', k, i - 1);
    }
  }

  lemma {:induction false} UndisturbedRuns(s: State, events: seq<Event>, s': State)
    requires RunsUndisturbed(s, events, s')
    ensures Runs(s, events, s')
    decreases |events|
  {
    if events != [] { UndisturbedRuns(Step(s, events[0]), events[1..], s'); }
  }

  lemma ServedIsStored(s: State, root: Id, events: seq<Event>, s': State, c: nat, x: Id, k: Key)
    requires Created(s, root) && RunsUndisturbed(s, events, s') && Serving(s', c, x, s'.hash(k))
    ensures Held(s'.net[x].store, k) == Held(s'.data, k)
  {
    UndisturbedServesOneMap(s, root, events, s', c, x, k);
  }

  /** In every state of every undisturbed run from a fresh ring, a request that has reached a store finds
      there what the last write of its key gave it, and nothing if that was a deletion. */
  lemma ServesLastWrite(s: State, root: Id, events: seq<Event>, s': State, c: nat, x: Id, k: Key, i: nat)
    requires Created(s, root) && RunsUndisturbed(s, events, s') && Serving(s', c, x, s'.hash(k))
    requires LastWrite(events, k, i)
    ensures Held(s'.net[x].store, k) == events[i].v
  {
    UndisturbedRuns(s, events, s');
    ServedIsStored(s, root, events, s', c, x, k);
    DataIsLastWritten(s, events, s', k, i);
  }

  /** A key nobody has written is nowhere. */
  lemma UnwrittenIsAbsent(s: State, root: Id, events: seq<Event>, s': State, c: nat, x: Id, k: Key)
    requires Created(s, root) && RunsUndisturbed(s, events, s') && Serving(s', c, x, s'.hash(k))
    requires forall j :: 0 <= j < |events| ==> !WritesKey(events[j], k)
    ensures Held(s'.net[x].store, k) == None
  {
    UndisturbedRuns(s, events, s');
    ServedIsStored(s, root, events, s', c, x, k);
    UnwrittenStays(s, events, s', k);
  }

  // ---- a write, start to finish ---------------------------------------------------------------

  lemma {:induction false} RunsThen(s: State, events: seq<Event>, mid: State, e: Event)
    requires Runs(s, events, mid) && RunsRepaired(s, events, mid) && Can(mid, e) && Repaired(mid, e)
    ensures Runs(s, events + [e], Step(mid, e)) && RunsRepaired(s, events + [e], Step(mid, e))
    decreases |events|
  {
    if events == [] {
      assert events + [e] == [e];
    } else {
      RunsThen(Step(s, events[0]), events[1..], mid, e);
      assert (events + [e])[1..] == events[1..] + [e];
    }
  }

  /** The store of `x` and what clients have stored, once `v` is written under `k` there. */
  function Wrote(s: State, x: Id, k: Key, v: Option<Entry>): State
    requires x in s.net
  {
    match v
    case Some(entry) =>
      s.(net := s.net[x := s.net[x].(store := s.net[x].store[k := entry])], data := s.data[k := entry])
    case None => s.(net := s.net[x := s.net[x].(store := s.net[x].store - {k})], data := s.data - {k})
  }

  lemma WroteIsAtRest(s: State, x: Id, k: Key, v: Option<Entry>)
    requires AtRest(s) && x in s.net && Inv(Wrote(s, x, k, v))
    ensures AtRest(Wrote(s, x, k, v))
  {
    forall y | y in s.ring ensures RestAt(Wrote(s, x, k, v), y) { assert RestAt(s, y); }
  }

  lemma WriteLands(s: State, c: nat, x: Id, k: Key, v: Option<Entry>)
    requires c !in s.calls && x in s.net && Serving(WithCall(s, c, Found(x, s.hash(k))), c, x, s.hash(k))
    ensures var mid := WithCall(s, c, Found(x, s.hash(k)));
            Can(mid, Write(c, k, v)) && Repaired(mid, Write(c, k, v)) && Step(mid, Write(c, k, v)) == Wrote(s, x, k, v)
  {
    assert Ended(WithCall(s, c, Found(x, s.hash(k))), c) == s;
  }

  /** At rest a client's write or deletion at the owner, run alone, goes through: it changes that key at that
      store and nothing else, and the ring is at rest again. */
  lemma WriteCompletes(s: State, c: nat, x: Id, k: Key, v: Option<Entry>) returns (events: seq<Event>)
    requires AtRest(s) && FingersInRing(s) && x in s.net && IsOwner(s.ring, s.hash(k), x)
    ensures Runs(s, events, Wrote(s, x, k, v)) && RunsRepaired(s, events, Wrote(s, x, k, v))
    ensures AtRest(Wrote(s, x, k, v))
  {
    ServesIffOwner(s, x, s.hash(k));
    var n, mid := WholeRequest(s, c, x, s.hash(k));
    WriteLands(s, c, x, k, v);
    RunsThen(s, [BeginRequest(c, x, s.hash(k))] + Acts(c, n), mid, Write(c, k, v));
    events := [BeginRequest(c, x, s.hash(k))] + Acts(c, n) + [Write(c, k, v)];
    RunKeepsInv(s, events, Wrote(s, x, k, v));
    WroteIsAtRest(s, x, k, v);
  }
}

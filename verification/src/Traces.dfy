/** Runs built up step by step, and the background call that is not overtaken: it does in one go
    what stabilize is meant to do, and each of its writes fits. */
module Traces {
  import opened Identifiers
  import opened Nodes
  import opened Stabilization
  import opened Calls
  import opened Membership
  import opened RingSafety
  import opened DelayedWrites
  import opened RingRepair
  import opened KeySafety

  /** A strict run starts from a sound state, takes hand-offs only from repaired neighbours and
      makes only writes that fit; a lenient one takes any step the program allows. */
  ghost predicate Allowed(strict: bool, s: State, e: Event) {
    Can(s, e) && (strict ==> Repaired(s, e))
  }

  ghost predicate Taken(strict: bool, states: seq<State>, events: seq<Event>, i: nat)
    requires i < |events| && |states| == |events| + 1
  {
    Allowed(strict, states[i], events[i]) && states[i + 1] == Step(states[i], events[i])
  }

  ghost predicate Sound(strict: bool, states: seq<State>, i: nat)
    requires i < |states|
  {
    strict ==> Inv(states[i])
  }

  ghost predicate Trace(strict: bool, states: seq<State>, events: seq<Event>) {
    && |states| == |events| + 1
    && (forall i {:trigger Taken(strict, states, events, i)} :: 0 <= i < |events| ==> Taken(strict, states, events, i))
    && (forall i {:trigger Sound(strict, states, i)} :: 0 <= i < |states| ==> Sound(strict, states, i))
  }

  ghost predicate TraceFrom(strict: bool, s: State, states: seq<State>, events: seq<Event>, s': State) {
    Trace(strict, states, events) && states[0] == s && states[|events|] == s'
  }

  /** Some trace leads from `s` to `s'`. */
  ghost predicate Reaches(strict: bool, s: State, s': State) {
    exists states: seq<State>, events: seq<Event> :: TraceFrom(strict, s, states, events, s')
  }

  lemma ReachesItself(strict: bool, s: State)
    requires strict ==> Inv(s)
    ensures Reaches(strict, s, s)
  {
    assert Sound(strict, [s], 0);
    assert TraceFrom(strict, s, [s], [], s);
  }

  lemma ReachNext(strict: bool, s: State, mid: State, e: Event)
    requires Reaches(strict, s, mid) && Allowed(strict, mid, e)
    ensures Reaches(strict, s, Step(mid, e))
  {
    var states: seq<State>, events: seq<Event> :| TraceFrom(strict, s, states, events, mid);
    var states', events' := states + [Step(mid, e)], events + [e];
    forall i | 0 <= i < |events'| ensures Taken(strict, states', events', i) {
      if i < |events| {
        assert Taken(strict, states, events, i);
        assert states'[i] == states[i] && states'[i + 1] == states[i + 1] && events'[i] == events[i];
      }
    }
    assert Sound(strict, states, |events|);
    if strict { StepKeepsInv(mid, e); }
    forall i | 0 <= i < |states'| ensures Sound(strict, states', i) {
      if i < |states| { assert Sound(strict, states, i) && states'[i] == states[i]; }
    }
    assert TraceFrom(strict, s, states', events', Step(mid, e));
  }

  lemma ReachesOn(strict: bool, s: State, mid: State, s': State)
    requires Reaches(strict, s, mid) && Reaches(strict, mid, s')
    ensures Reaches(strict, s, s')
  {
    var states: seq<State>, events: seq<Event> :| TraceFrom(strict, s, states, events, mid);
    var states2: seq<State>, events2: seq<Event> :| TraceFrom(strict, mid, states2, events2, s');
    var all, done := states + states2[1..], events + events2;
    forall i | 0 <= i < |done| ensures Taken(strict, all, done, i) {
      if i < |events| {
        assert Taken(strict, states, events, i);
      } else {
        assert Taken(strict, states2, events2, i - |events|);
        assert i > |events| ==> all[i] == states2[1..][i - |events| - 1];
        assert all[i + 1] == states2[1..][i - |events|];
      }
    }
    forall i | 0 <= i < |all| ensures Sound(strict, all, i) {
      if i < |states| {
        assert Sound(strict, states, i) && all[i] == states[i];
      } else {
        assert Sound(strict, states2, i - |events|) && all[i] == states2[1..][i - |states|];
      }
    }
    assert TraceFrom(strict, s, all, done, s');
  }

  lemma {:induction false} TraceRuns(strict: bool, states: seq<State>, events: seq<Event>)
    requires Trace(strict, states, events)
    ensures Runs(states[0], events, states[|events|])
    ensures strict ==> RunsRepaired(states[0], events, states[|events|])
    decreases |events|
  {
    if events != [] {
      assert Taken(strict, states, events, 0);
      forall i | 0 <= i < |events[1..]| ensures Taken(strict, states[1..], events[1..], i) {
        assert Taken(strict, states, events, i + 1);
      }
      forall i | 0 <= i < |states[1..]| ensures Sound(strict, states[1..], i) { assert Sound(strict, states, i + 1); }
      TraceRuns(strict, states[1..], events[1..]);
    }
  }

  lemma ReachedByRun(strict: bool, s: State, s': State) returns (events: seq<Event>)
    requires Reaches(strict, s, s')
    ensures Runs(s, events, s') && (strict ==> RunsRepaired(s, events, s'))
  {
    var states: seq<State>, es: seq<Event> :| TraceFrom(strict, s, states, es, s');
    TraceRuns(strict, states, es);
    events := es;
  }

  lemma ReachedIsSound(s: State, s': State)
    requires Reaches(true, s, s')
    ensures Inv(s')
  {
    var states: seq<State>, events: seq<Event> :| TraceFrom(true, s, states, events, s');
    assert Sound(true, states, |events|);
  }

  // ---- a call that is not overtaken --------------------------------------------------

  function WithCall(s: State, c: nat, call: Call): State {
    s.(calls := s.calls[c := call])
  }

  function Ended(s: State, c: nat): State {
    s.(calls := s.calls - {c})
  }

  /** An action of a call that only reads. */
  lemma ReadNext(strict: bool, s: State, mid: State, c: nat, next: Call)
    requires Reaches(strict, s, mid) && c in mid.calls && Reads(mid.calls[c])
    requires Goes(mid.net, mid.calls[c]) == Some(next)
    ensures Reaches(strict, s, WithCall(mid, c, next))
  {
    ReachNext(strict, s, mid, Proceed(c));
    assert DoProceed(mid, c) == WithCall(mid, c, next);
  }

  lemma ReadLast(strict: bool, s: State, mid: State, c: nat)
    requires Reaches(strict, s, mid) && c in mid.calls && Reads(mid.calls[c]) && Goes(mid.net, mid.calls[c]) == None
    ensures Reaches(strict, s, Ended(mid, c))
  {
    ReachNext(strict, s, mid, Proceed(c));
    assert DoProceed(mid, c) == Ended(mid, c);
  }

  /** The reads of a call, with nothing in between, gather the list a whole call settles on. */
  lemma {:induction false} CallReads(strict: bool, s: State, mid: State, c: nat, x: Id, rest: seq<Id>, list: seq<Id>)
    requires Reaches(strict, s, mid) && c in mid.calls && mid.calls[c] == Began(x, rest)
    requires Refreshed(mid.net, x, rest) == Some(list)
    ensures Reaches(strict, s, WithCall(mid, c, Ready(x, list)))
    decreases |rest|
  {
    if Responds(mid.net, rest[0]) {
      CallReadsHead(strict, s, mid, c, x, rest, list);
    } else {
      var s1 := WithCall(mid, c, Began(x, rest[1..]));
      ReadNext(strict, s, mid, c, Began(x, rest[1..]));
      CallReads(strict, s, s1, c, x, rest[1..], list);
      assert WithCall(s1, c, Ready(x, list)) == WithCall(mid, c, Ready(x, list));
    }
  }

  lemma CallReadsHead(strict: bool, s: State, mid: State, c: nat, x: Id, rest: seq<Id>, list: seq<Id>)
    requires Reaches(strict, s, mid) && c in mid.calls && mid.calls[c] == Began(x, rest)
    requires rest != [] && Responds(mid.net, rest[0]) && Refreshed(mid.net, x, rest) == Some(list)
    ensures Reaches(strict, s, WithCall(mid, c, Ready(x, list)))
  {
    var nearer := mid.net[rest[0]].pred;
    var s1 := WithCall(mid, c, SawPred(x, rest, nearer));
    ReadNext(strict, s, mid, c, SawPred(x, rest, nearer));
    var next := Goes(mid.net, s1.calls[c]).value;
    ReadNext(strict, s, s1, c, next);
    var s2 := WithCall(s1, c, next);
    if next.SawList? {
      ReadNext(strict, s, s2, c, Ready(x, list));
      assert WithCall(s2, c, Ready(x, list)) == WithCall(mid, c, Ready(x, list));
    } else {
      assert s2 == WithCall(mid, c, Ready(x, list));
    }
  }

  /** With no entry left that responds, the call gives up. */
  lemma {:induction false} CallGivesUp(strict: bool, s: State, mid: State, c: nat, x: Id, rest: seq<Id>)
    requires Reaches(strict, s, mid) && c in mid.calls && mid.calls[c] == Began(x, rest)
    requires Refreshed(mid.net, x, rest) == None
    ensures Reaches(strict, s, Ended(mid, c))
    decreases |rest|
  {
    if rest == [] {
      ReadLast(strict, s, mid, c);
    } else {
      var s1 := WithCall(mid, c, Began(x, rest[1..]));
      ReadNext(strict, s, mid, c, Began(x, rest[1..]));
      CallGivesUp(strict, s, s1, c, x, rest[1..]);
      assert Ended(s1, c) == Ended(mid, c);
    }
  }

  lemma PromptLasts(s: State, s': State, x: Id, t: Id)
    requires Prompt(s, x, t) && s'.ring == s.ring && s'.ops == s.ops && x in s'.net && s'.net[x].succs == s.net[x].succs
    ensures Prompt(s', x, t)
  {
  }

  lemma MarkNext(strict: bool, s: State, mid: State, c: nat, x: Id, t: Id)
    requires Reaches(strict, s, mid) && c in mid.calls && t in mid.net && (strict ==> Markable(mid, t, x))
    requires mid.calls[c].Decided? && mid.calls[c].x == x && mid.calls[c].t == t
    requires mid.calls[c].surrogate == mid.net[t].surrogate
    ensures var net := mid.net[t := mid.net[t].(surrogate := if x == t then None else Some(x))];
            Reaches(strict, s, WithCall(mid, c, Marked(x, t, mid.calls[c].pred)).(net := net))
  {
    ReachNext(strict, s, mid, Proceed(c));
  }

  lemma CallMarks(strict: bool, s: State, mid: State, c: nat, x: Id, t: Id)
    requires Reaches(strict, s, mid) && c in mid.calls && t in mid.net
    requires mid.calls[c].Decided? && mid.calls[c].x == x && mid.calls[c].t == t
    requires mid.calls[c].surrogate == mid.net[t].surrogate
    requires strict ==> Prompt(mid, x, t)
    ensures var net := mid.net[t := mid.net[t].(surrogate := if x == t then None else Some(x))];
            Reaches(strict, s, WithCall(mid, c, Marked(x, t, mid.calls[c].pred)).(net := net))
  {
    if strict {
      ReachedIsSound(s, mid);
      NotifyFits(mid, t, x);
    }
    MarkNext(strict, s, mid, c, x, t);
  }

  lemma CallAdopts(strict: bool, s: State, mid: State, c: nat, x: Id, t: Id)
    requires Reaches(strict, s, mid) && c in mid.calls && t in mid.net
    requires mid.calls[c] == Marked(x, t, mid.net[t].pred)
    requires strict ==> Prompt(mid, x, t)
    ensures Reaches(strict, s, Ended(mid, c).(net := mid.net[t := mid.net[t].(pred := Some(x))]))
  {
    if strict {
      ReachedIsSound(s, mid);
      NotifyFits(mid, t, x);
    }
    ReachNext(strict, s, mid, Proceed(c));
  }

  /** Both writes of a Notify that is accepted. */
  lemma CallWrites(strict: bool, s: State, mid: State, c: nat, x: Id, t: Id)
    requires Reaches(strict, s, mid) && c in mid.calls && Responds(mid.net, t) && Candidate(mid.net, t, x).Some?
    requires mid.calls[c] == Decided(x, t, mid.net[t].surrogate, mid.net[t].pred)
    requires strict ==> Prompt(mid, x, t)
    ensures Reaches(strict, s, Ended(mid, c).(net := Notified(mid.net, t, x)))
  {
    CallMarks(strict, s, mid, c, x, t);
    var net := mid.net[t := mid.net[t].(surrogate := if x == t then None else Some(x))];
    var s1 := WithCall(mid, c, Marked(x, t, mid.net[t].pred)).(net := net);
    if strict { PromptLasts(mid, s1, x, t); }
    CallAdopts(strict, s, s1, c, x, t);
    assert Ended(s1, c).(net := net[t := net[t].(pred := Some(x))]) == Ended(mid, c).(net := Notified(mid.net, t, x));
  }

  lemma CallProbes(strict: bool, s: State, mid: State, s2: State, c: nat, x: Id, t: Id)
    requires c in mid.calls && Responds(mid.net, t) && mid.net[t].pred.Some? && mid.net[t].pred.value != x
    requires s2 == WithCall(mid, c, Probing(x, t, mid.net[t].surrogate, mid.net[t].pred.value))
    requires Reaches(strict, s, s2)
    requires strict ==> Prompt(mid, x, t)
    ensures Reaches(strict, s, Ended(mid, c).(net := Notified(mid.net, t, x)))
  {
    if Candidate(mid.net, t, x).Some? {
      var s3 := WithCall(s2, c, Decided(x, t, mid.net[t].surrogate, mid.net[t].pred));
      ReadNext(strict, s, s2, c, Decided(x, t, mid.net[t].surrogate, mid.net[t].pred));
      if strict { PromptLasts(mid, s3, x, t); }
      CallWrites(strict, s, s3, c, x, t);
      assert Ended(s3, c) == Ended(mid, c);
    } else {
      ReadLast(strict, s, s2, c);
      assert Ended(s2, c) == Ended(mid, c).(net := Notified(mid.net, t, x));
    }
  }

  /** The Notify at the end of a call. */
  lemma CallNotifies(strict: bool, s: State, mid: State, c: nat, x: Id, t: Id)
    requires Reaches(strict, s, mid) && c in mid.calls && mid.calls[c] == Notifying(x, t)
    requires strict ==> Prompt(mid, x, t)
    ensures Reaches(strict, s, Ended(mid, c).(net := Notified(mid.net, t, x)))
  {
    if !Responds(mid.net, t) {
      ReadLast(strict, s, mid, c);
    } else {
      ReadNext(strict, s, mid, c, SawSurrogate(x, t, mid.net[t].surrogate));
      CallCompares(strict, s, mid, WithCall(mid, c, SawSurrogate(x, t, mid.net[t].surrogate)), c, x, t);
    }
  }

  lemma CallCompares(strict: bool, s: State, mid: State, s1: State, c: nat, x: Id, t: Id)
    requires c in mid.calls && Responds(mid.net, t)
    requires s1 == WithCall(mid, c, SawSurrogate(x, t, mid.net[t].surrogate)) && Reaches(strict, s, s1)
    requires strict ==> Prompt(mid, x, t)
    ensures Reaches(strict, s, Ended(mid, c).(net := Notified(mid.net, t, x)))
  {
    var node := mid.net[t];
    if node.pred == Some(x) {
      ReadLast(strict, s, s1, c);
      assert Ended(s1, c) == Ended(mid, c).(net := Notified(mid.net, t, x));
    } else if node.pred.None? {
      var s2 := WithCall(s1, c, Decided(x, t, node.surrogate, None));
      ReadNext(strict, s, s1, c, Decided(x, t, node.surrogate, None));
      if strict { PromptLasts(mid, s2, x, t); }
      CallWrites(strict, s, s2, c, x, t);
      assert Ended(s2, c) == Ended(mid, c);
    } else {
      ReadNext(strict, s, s1, c, Probing(x, t, node.surrogate, node.pred.value));
      var s2 := WithCall(mid, c, Probing(x, t, node.surrogate, node.pred.value));
      assert WithCall(s1, c, s2.calls[c]) == s2;
      CallProbes(strict, s, mid, s2, c, x, t);
    }
  }

  /** The list is written, and the node goes on to Notify if it still takes part. */
  lemma CallInstalls(strict: bool, s: State, mid: State, c: nat, x: Id, list: seq<Id>)
    requires Reaches(strict, s, mid) && c in mid.calls && mid.calls[c] == Ready(x, list) && x in mid.net && list != []
    requires strict ==> Installable(mid, c, x, list)
    ensures Reaches(strict, s,
      WithCall(mid, c, Installed(x, list[0])).(net := mid.net[x := mid.net[x].(succs := list)]))
  {
    ReachNext(strict, s, mid, Proceed(c));
  }

  /** A node that takes part and has a list is a member. */
  lemma ListedIsMember(s: State, x: Id)
    requires Safe(s) && Pings(s.net, x) && s.net[x].succs != []
    ensures x in s.ring
  {
    assert x in s.ring || Outsider(s, x);
  }

  lemma CallFinishes(strict: bool, s: State, mid: State, c: nat, x: Id, list: seq<Id>)
    requires Reaches(strict, s, mid) && c in mid.calls && list != [] && mid.calls[c] == Installed(x, list[0])
    requires x in mid.net
    requires mid.net[x].succs == list
    requires strict && x in mid.ring ==> GoodList(mid, x, list)
    ensures var net := if Pings(mid.net, x) then Notified(mid.net, list[0], x) else mid.net;
            Reaches(strict, s, Ended(mid, c).(net := net))
  {
    if Pings(mid.net, x) {
      if strict {
        ReachedIsSound(s, mid);
        ListedIsMember(mid, x);
      }
      ReadNext(strict, s, mid, c, Notifying(x, list[0]));
      var s1 := WithCall(mid, c, Notifying(x, list[0]));
      if strict { PromptLasts(mid, s1, x, list[0]); }
      CallNotifies(strict, s, s1, c, x, list[0]);
      assert Ended(s1, c) == Ended(mid, c);
    } else {
      ReadLast(strict, s, mid, c);
      assert Ended(mid, c).(net := mid.net) == Ended(mid, c);
    }
  }

  /** Run without interruption, from any state and at any node, a call does what the whole of
      stabilize is defined to do; from a safe state each of its writes fits. */
  lemma WholeCall(strict: bool, s: State, mid: State, c: nat, x: Id)
    requires Reaches(strict, s, mid) && x in mid.net && c in mid.calls && mid.calls[c] == Began(x, mid.net[x].succs)
    ensures Reaches(strict, s, Ended(mid, c).(net := Stabilized(mid.net, x)))
  {
    var r := Refreshed(mid.net, x, mid.net[x].succs);
    if r.None? {
      CallGivesUp(strict, s, mid, c, x, mid.net[x].succs);
      assert Ended(mid, c).(net := Stabilized(mid.net, x)) == Ended(mid, c);
    } else {
      var list := r.value;
      RefreshedNonempty(mid.net, x, mid.net[x].succs);
      CallReads(strict, s, mid, c, x, mid.net[x].succs, list);
      var s1 := WithCall(mid, c, Ready(x, list));
      if strict {
        ReachedIsSound(s, s1);
        RefreshFits(s1, c, x, list);
        if x in s1.ring { RefreshIsGood(s1, x); }
      }
      CallInstalls(strict, s, s1, c, x, list);
      var s2 := WithCall(s1, c, Installed(x, list[0])).(net := mid.net[x := mid.net[x].(succs := list)]);
      if strict && x in s1.ring { GoodListLasts(s1, s2, x, list); }
      CallFinishes(strict, s, s2, c, x, list);
      assert Ended(s2, c).(net := Stabilized(mid.net, x)) == Ended(mid, c).(net := Stabilized(mid.net, x));
    }
  }

  lemma GoodListLasts(s: State, s': State, x: Id, list: seq<Id>)
    requires GoodList(s, x, list) && s'.ring == s.ring && s'.ops == s.ops
    ensures GoodList(s', x, list)
  {
  }
}

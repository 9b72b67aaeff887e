/** Predecessor checks and requests that run without a break, action by action. */
module WholeCalls {
  import opened Identifiers
  import opened Nodes
  import opened Stabilization
  import opened Routing
  import opened FingerTables
  import opened Calls
  import opened Membership
  import opened RingSafety
  import opened DelayedWrites
  import opened KeySafety
  import opened Traces

  /** `n` actions of call `c`, one after another. */
  function Acts(c: nat, n: nat): (events: seq<Event>)
    ensures |events| == n
  {
    if n == 0 then [] else [Proceed(c)] + Acts(c, n - 1)
  }

  /** Run alone for `n` actions, call `c` leads to `s'`, and each of its writes fits. */
  ghost predicate Leads(s: State, c: nat, n: nat, s': State) {
    Runs(s, Acts(c, n), s') && RunsRepaired(s, Acts(c, n), s')
  }

  lemma LeadsOn(s: State, c: nat, n: nat, s': State)
    requires c in s.calls && Timely(s, c) && Leads(DoProceed(s, c), c, n, s')
    ensures Leads(s, c, n + 1, s')
  {
    assert Acts(c, n + 1)[1..] == Acts(c, n) && Step(s, Proceed(c)) == DoProceed(s, c);
  }

  lemma LeadsNowhere(s: State, c: nat)
    ensures Leads(s, c, 0, s)
  {
  }

  lemma ReadLeadsOn(s: State, c: nat, next: Call, n: nat, s': State)
    requires c in s.calls && Reads(s.calls[c]) && Goes(s.net, s.calls[c]) == Some(next)
    requires Leads(WithCall(s, c, next), c, n, s')
    ensures Leads(s, c, n + 1, s')
  {
    assert DoProceed(s, c) == WithCall(s, c, next);
    LeadsOn(s, c, n, s');
  }

  lemma ReadEnds(s: State, c: nat)
    requires c in s.calls && Reads(s.calls[c]) && Goes(s.net, s.calls[c]) == None
    ensures Leads(s, c, 1, Ended(s, c))
  {
    assert DoProceed(s, c) == Ended(s, c);
    LeadsNowhere(Ended(s, c), c);
    LeadsOn(s, c, 0, Ended(s, c));
  }

  /** How a check or a request starts. */
  predicate Begins(s: State, e: Event, c: nat, call: Call) {
    c !in s.calls && call.x in s.net &&
    ((e == BeginCheck(c, call.x) && call == Checking(call.x)) ||
     (call.Looking? && call.at == call.x && e == BeginRequest(c, call.x, call.h)))
  }

  lemma BeginLeadsOn(s: State, e: Event, c: nat, call: Call, n: nat, s': State)
    requires Begins(s, e, c, call) && Leads(WithCall(s, c, call), c, n, s')
    ensures Runs(s, [e] + Acts(c, n), s') && RunsRepaired(s, [e] + Acts(c, n), s')
  {
    assert Step(s, e) == WithCall(s, c, call);
    assert ([e] + Acts(c, n))[1..] == Acts(c, n);
  }

  // ---- the predecessor check ------------------------------------------------------------------

  /** The predecessor of `x` is another node that does not ping. */
  predicate HasDeadPred(net: Network, x: Id)
    requires x in net
  {
    net[x].pred.Some? && net[x].pred.value != x && !Pings(net, net[x].pred.value)
  }

  function WithPred(s: State, x: Id, pred: Option<Id>): State
    requires x in s.net
  {
    s.(net := s.net[x := s.net[x].(pred := pred)])
  }

  lemma CheckForgets(s: State, c: nat, x: Id, q: Id)
    requires c in s.calls && s.calls[c] == Forgetting(x, q) && x in s.net && s.net[x].pred == Some(q)
    ensures Leads(s, c, 1, WithPred(Ended(s, c), x, None))
  {
    assert DoProceed(s, c) == WithPred(Ended(s, c), x, None);
    LeadsNowhere(DoProceed(s, c), c);
    LeadsOn(s, c, 0, DoProceed(s, c));
  }

  lemma CheckPings(s: State, c: nat, x: Id, q: Id)
    requires c in s.calls && s.calls[c] == Pinging(x, q) && x in s.net && s.net[x].pred == Some(q) && !Pings(s.net, q)
    ensures Leads(s, c, 2, WithPred(Ended(s, c), x, None))
  {
    var s1 := WithCall(s, c, Forgetting(x, q));
    CheckForgets(s1, c, x, q);
    assert Ended(s1, c) == Ended(s, c);
    ReadLeadsOn(s, c, Forgetting(x, q), 1, WithPred(Ended(s, c), x, None));
  }

  lemma CheckLooks(s: State, c: nat, x: Id) returns (n: nat)
    requires c in s.calls && s.calls[c] == Checking(x) && x in s.net
    ensures Leads(s, c, n, if HasDeadPred(s.net, x) then WithPred(Ended(s, c), x, None) else Ended(s, c))
  {
    var pred := s.net[x].pred;
    if pred.None? || pred.value == x {
      n := 1;
      ReadEnds(s, c);
    } else {
      var next := Pinging(x, pred.value);
      var s1 := WithCall(s, c, next);
      assert Ended(s1, c) == Ended(s, c);
      if HasDeadPred(s.net, x) {
        n := 3;
        CheckPings(s1, c, x, pred.value);
        ReadLeadsOn(s, c, next, 2, WithPred(Ended(s, c), x, None));
      } else {
        n := 2;
        ReadEnds(s1, c);
        ReadLeadsOn(s, c, next, 1, Ended(s, c));
      }
    }
  }

  /** A whole predecessor check, from any state and at any node: it is over after its own actions, the
      predecessor is forgotten exactly if it is another node that does not ping, and nothing else changes. */
  lemma WholeCheck(s: State, c: nat, x: Id) returns (n: nat, s': State)
    requires x in s.net && c !in s.calls
    ensures Runs(s, [BeginCheck(c, x)] + Acts(c, n), s') && RunsRepaired(s, [BeginCheck(c, x)] + Acts(c, n), s')
    ensures x in s'.net && s' == WithPred(s, x, s'.net[x].pred)
    ensures s'.net[x].pred == None <==> s.net[x].pred == None || HasDeadPred(s.net, x)
    ensures s'.net[x].pred.Some? ==> s'.net[x].pred == s.net[x].pred
  {
    var s1 := WithCall(s, c, Checking(x));
    assert Ended(s1, c) == s;
    n := CheckLooks(s1, c, x);
    s' := if HasDeadPred(s.net, x) then WithPred(s, x, None) else s;
    assert s.net[x := s.net[x].(pred := s.net[x].pred)] == s.net;
    BeginLeadsOn(s, BeginCheck(c, x), c, Checking(x), n, s');
  }

  // ---- requests -------------------------------------------------------------------------------

  /** The lookup of `x` for `h` at hop `i`, with nothing else running, names `x`. */
  predicate Named(net: Network, i: nat, at: Id, x: Id, h: Id) {
    FindSuccessor(Still(net), i, at, h).outcome == Ok(x)
  }

  /** Where the request gets to. */
  function Arrived(s: State, c: nat, x: Id, h: Id, i: nat, at: Id): State {
    if Named(s.net, i, at, x, h) then WithCall(s, c, Found(x, h)) else Ended(s, c)
  }

  lemma LookupStops(s: State, c: nat, x: Id, h: Id, at: Id, i: nat)
    requires c in s.calls && s.calls[c] == Looking(x, h, at)
    requires !(at in s.net && Route(at, s.net[at], h).Forward?)
    ensures Leads(s, c, 1, Arrived(s, c, x, h, i, at))
  {
    if Named(s.net, i, at, x, h) {
      LeadsNowhere(WithCall(s, c, Found(x, h)), c);
      ReadLeadsOn(s, c, Found(x, h), 0, WithCall(s, c, Found(x, h)));
    } else {
      ReadEnds(s, c);
    }
  }

  lemma ForwardArrives(s: State, c: nat, x: Id, h: Id, at: Id, i: nat)
    requires at in s.net && Route(at, s.net[at], h).Forward?
    ensures var next := Route(at, s.net[at], h).id;
            Arrived(WithCall(s, c, Looking(x, h, next)), c, x, h, i + 1, next) == Arrived(s, c, x, h, i, at)
  {
    var s1 := WithCall(s, c, Looking(x, h, Route(at, s.net[at], h).id));
    assert Ended(s1, c) == Ended(s, c) && WithCall(s1, c, Found(x, h)) == WithCall(s, c, Found(x, h));
  }

  lemma {:induction false} LookupActs(s: State, c: nat, x: Id, h: Id, at: Id, i: nat) returns (n: nat)
    requires c in s.calls && s.calls[c] == Looking(x, h, at)
    ensures Leads(s, c, n, Arrived(s, c, x, h, i, at))
    decreases Dist(at, h)
  {
    if at in s.net && Route(at, s.net[at], h).Forward? {
      var next := Route(at, s.net[at], h).id;
      var s1 := WithCall(s, c, Looking(x, h, next));
      var m := LookupActs(s1, c, x, h, next, i + 1);
      ForwardArrives(s, c, x, h, at, i);
      n := m + 1;
      ReadLeadsOn(s, c, Looking(x, h, next), m, Arrived(s, c, x, h, i, at));
    } else {
      n := 1;
      LookupStops(s, c, x, h, at, i);
    }
  }

  lemma RequestArrives(s: State, c: nat, x: Id, h: Id)
    requires x in s.net && c !in s.calls
    ensures var s' := Arrived(WithCall(s, c, Looking(x, h, x)), c, x, h, 0, x);
            && s' == (if Named(s.net, 0, x, x, h) then WithCall(s, c, Found(x, h)) else s)
            && (Serving(s', c, x, h) <==> Serves(s.net, x, h))
  {
    var s1 := WithCall(s, c, Looking(x, h, x));
    assert Ended(s1, c) == s && WithCall(s1, c, Found(x, h)) == WithCall(s, c, Found(x, h));
  }

  /** A whole request of `x`, from any state: its lookup, hop by hop, ends, and it stands in front of the
      local store exactly if a lookup made in one go names `x`; nothing else changes. */
  lemma WholeRequest(s: State, c: nat, x: Id, h: Id) returns (n: nat, s': State)
    requires x in s.net && c !in s.calls
    ensures Runs(s, [BeginRequest(c, x, h)] + Acts(c, n), s')
    ensures RunsRepaired(s, [BeginRequest(c, x, h)] + Acts(c, n), s')
    ensures s' == if Named(s.net, 0, x, x, h) then WithCall(s, c, Found(x, h)) else s
    ensures Serving(s', c, x, h) <==> Serves(s.net, x, h)
  {
    var s1 := WithCall(s, c, Looking(x, h, x));
    n := LookupActs(s1, c, x, h, x, 0);
    s' := Arrived(s1, c, x, h, 0, x);
    BeginLeadsOn(s, BeginRequest(c, x, h), c, Looking(x, h, x), n, s');
    RequestArrives(s, c, x, h);
  }
}

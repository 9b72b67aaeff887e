/** What stabilize and Notify calls under way carry, and that their steps, however they overlap, leave
    each other nothing stale. */
module FreshCalls {
  import opened Identifiers
  import opened RingOrder
  import opened Nodes
  import opened SuccessorLists
  import opened Stabilization
  import opened Calls
  import opened Membership
  import opened RingSafety
  import opened RingRepair

  // ---- what a call under way carries ---------------------------------------------------

  /** A stabilize call, or the Notify at its end. */
  predicate Repairing(call: Call) {
    || call.Began? || call.SawPred? || call.SawList? || call.Ready? || call.Installed?
    || call.Notifying? || call.SawSurrogate? || call.Probing? || call.Decided? || call.Marked?
  }

  predicate HasLeft(s: State, q: Id) {
    q in s.net && s.net[q].phase == Left
  }

  /** Operation `op` brings `j` in between `x` and `head`. */
  predicate Brings(op: Op, x: Id, head: Id, j: Id) {
    Entering(op) && op.p == x && op.s == head && op.j == j
  }

  ghost predicate BroughtIn(s: State, x: Id, head: Id, j: Id) {
    exists o :: o in s.ops && Brings(s.ops[o], x, head, j)
  }

  /** Operation `op` takes the node behind `x` out. */
  predicate TakesOut(op: Op, x: Id) {
    Exiting(op) && op.p == x
  }

  /** The entries a call of `x` still has to try lead to its successor. */
  ghost predicate Leading(s: State, x: Id, rest: seq<Id>) {
    && rest != [] && x in s.net && s.net[x].succs != []
    && (if x in s.ring then
          && ArcFits(s, x, rest)
          && forall o :: o in s.ops && TakesOut(s.ops[o], x) ==> rest[0] == s.ops[o].n
        else s.net[x].phase == Left || (s.net[x].phase == Leaving && rest[0] == s.net[x].succs[0]))
  }

  /** The list a call of `x` has settled on is right. */
  ghost predicate Settling(s: State, x: Id, list: seq<Id>) {
    && list != [] && x in s.net && s.net[x].succs != []
    && (if x in s.ring then GoodList(s, x, list)
        else s.net[x].phase == Left || (s.net[x].phase == Leaving && list[0] == s.net[x].succs[0]))
  }

  /** What was read as the predecessor of `head` is gone, not nearer, or a joiner under way; and a
      joiner under way was read. */
  ghost predicate NearerFits(s: State, x: Id, head: Id, nearer: Option<Id>) {
    x in s.net && s.net[x].phase != Left ==>
      && (nearer.Some? && Between(x, nearer.value, head, false) ==>
            HasLeft(s, nearer.value) || (x in s.ring && BroughtIn(s, x, head, nearer.value)))
      && (x in s.ring ==> forall j: Id :: BroughtIn(s, x, head, j) ==> nearer == Some(j))
  }

  /** A repair call acts on nothing that has gone stale. */
  ghost predicate Fresh(s: State, c: nat)
    requires c in s.calls
  {
    match s.calls[c]
    case Began(x, rest) => rest == [] || Leading(s, x, rest)
    case SawPred(x, rest, nearer) => Leading(s, x, rest) && NearerFits(s, x, rest[0], nearer)
    case SawList(x, list, closer) =>
      || (x in s.ring && x in s.net && s.net[x].succs != [] && exists head: Id :: BroughtIn(s, x, head, closer))
      || (Settling(s, x, list) && (s.net[x].phase != Left ==> HasLeft(s, closer)))
    case Ready(x, list) => Settling(s, x, list)
    case Installed(x, t) => if x in s.ring then Prompt(s, x, t) else x in s.net && s.net[x].phase in {Leaving, Left}
    case Notifying(x, t) => Prompt(s, x, t)
    case SawSurrogate(x, t, _) => Prompt(s, x, t)
    case Probing(x, t, _, _) => Prompt(s, x, t)
    case Decided(x, t, _, _) => Prompt(s, x, t)
    case Marked(x, t, _) => Prompt(s, x, t)
    case _ => true
  }

  ghost predicate AllFresh(s: State) {
    forall c {:trigger Fresh(s, c)} :: c in s.calls ==> Fresh(s, c)
  }

  /** What a fresh call is about to write fits. */
  lemma FreshIsTimely(s: State, c: nat)
    requires Safe(s) && c in s.calls && Fresh(s, c)
    ensures Timely(s, c)
  {
    match s.calls[c]
    case Ready(x, list) =>
      if x in s.ring { GoodListFits(s, c, x, list); } else { OutsiderListFits(s, c, x, list); }
    case Decided(x, t, _, _) => if t in s.net { NotifyFits(s, t, x); }
    case Marked(x, t, _) => if t in s.net { NotifyFits(s, t, x); }
    case _ =>
  }

  // ---- a call's own steps ---------------------------------------------------------------

  /** The predecessor pointer of a member's successor that falls in between names one that is gone,
      unless somebody is on the way out there. */
  lemma NearerIsGone(s: State, a: Id, x: Id, z: Id)
    requires Safe(s) && a in s.ring && IsSuccessor(s.ring, a, z) && Gap(a, x) < Dist(a, z)
    requires z in s.net && s.net[z].pred.Some? && Between(x, s.net[z].pred.value, z, false)
    requires forall o :: o in s.ops && TakesOut(s.ops[o], a) ==> s.ops[o].n == x
    ensures HasLeft(s, s.net[z].pred.value)
  {
    var q := s.net[z].pred.value;
    assert Member(s, z);
    BetweenIsDistance(x, q, z);
    if x != a { DistSplits(a, x, z); }
    assert Dist(a, q) < Dist(a, z) && q !in s.ring;
    if s.net[q].phase == Leaving {
      var o := LeavingOutsider(s, q);
      SameGap(s.ring, a, z, s.ops[o].p, s.ops[o].s, q);
    }
  }

  /** Nobody is on the way out right behind a member somebody joins behind. */
  lemma BringingBlocksExit(s: State, x: Id, o: nat, o': nat)
    requires Safe(s) && o in s.ops && Entering(s.ops[o]) && s.ops[o].p == x && o' in s.ops
    ensures !TakesOut(s.ops[o'], x)
  {
    assert OpOk(s, o) && Claim(s.ops[o], s.ops[o].j) == Some(Joining);
    assert OpOk(s, o') && Distinct(s.ops[o']);
    if TakesOut(s.ops[o'], x) {
      assert Claim(s.ops[o'], s.ops[o'].s) == Some(Transferring);
      SuccessorUnique(s.ring, x, s.ops[o].j, s.ops[o'].s);
    }
  }

  /** Whoever is being brought in is a member, right behind `x`, and `head` points back at it. */
  lemma BroughtInIsNext(s: State, x: Id, head: Id, j: Id)
    requires Safe(s) && BroughtIn(s, x, head, j)
    ensures x in s.ring && j in s.ring && head in s.ring && head in s.net && j != head
    ensures IsSuccessor(s.ring, x, j) && s.net[head].pred == Some(j) && Between(x, j, head, false)
    ensures forall o :: o in s.ops ==> !TakesOut(s.ops[o], x)
  {
    var o :| o in s.ops && Brings(s.ops[o], x, head, j);
    assert OpOk(s, o) && Distinct(s.ops[o]);
    EnteringIsNearer(s.ring, x, j, head);
    forall o' | o' in s.ops ensures !TakesOut(s.ops[o'], x) { BringingBlocksExit(s, x, o, o'); }
  }

  lemma MemberReadsNearer(s: State, x: Id, rest: seq<Id>)
    requires Safe(s) && x in s.ring && Leading(s, x, rest) && Responds(s.net, rest[0])
    ensures NearerFits(s, x, rest[0], s.net[rest[0]].pred)
  {
    var head := rest[0];
    forall j: Id | BroughtIn(s, x, head, j) ensures s.net[head].pred == Some(j) { BroughtInIsNext(s, x, head, j); }
    var nearer := s.net[head].pred;
    if nearer.Some? && Between(x, nearer.value, head, false) && !BroughtIn(s, x, head, nearer.value) {
      LeadingHead(s, x, rest);
      if o :| o in s.ops && TakesOut(s.ops[o], x) {
        assert OpOk(s, o);
        BetweenIsDistance(x, x, head);
      } else {
        NearerIsGone(s, x, x, head);
      }
    }
  }

  /** A leading entry that answers is the successor, the old successor of one entering, or one on
      the way out. */
  lemma LeadingHead(s: State, x: Id, rest: seq<Id>)
    requires Safe(s) && x in s.ring && Leading(s, x, rest) && Responds(s.net, rest[0])
    ensures || IsSuccessor(s.ring, x, rest[0])
            || (exists j: Id :: BroughtIn(s, x, rest[0], j))
            || (exists o :: o in s.ops && TakesOut(s.ops[o], x))
  {
    if o :| o in s.ops && Entering(s.ops[o]) && s.ops[o].p == x && s.ops[o].s == rest[0] {
      assert Brings(s.ops[o], x, rest[0], s.ops[o].j);
      assert BroughtIn(s, x, rest[0], s.ops[o].j);
    } else if o :| o in s.ops && Exiting(s.ops[o]) && s.ops[o].p == x && s.ops[o].n == rest[0] {
      assert TakesOut(s.ops[o], x);
    }
  }

  lemma LeaverReadsNearer(s: State, x: Id, head: Id)
    requires Safe(s) && x in s.net && x !in s.ring && s.net[x].phase == Leaving && Heads(s.net, x, head)
    ensures head in s.net && NearerFits(s, x, head, s.net[head].pred)
  {
    var o := LeavingOutsider(s, x);
    var p := s.ops[o].p;
    forall o' | o' in s.ops && TakesOut(s.ops[o'], p) ensures s.ops[o'].n == x { ExitingIsUnique(s, p, o, o'); }
    if s.net[head].pred.Some? && Between(x, s.net[head].pred.value, head, false) { NearerIsGone(s, p, x, head); }
  }

  /** An entry that does not answer is skipped, and the next one leads on. */
  lemma SkipLeads(s: State, x: Id, rest: seq<Id>)
    requires Safe(s) && Leading(s, x, rest) && !Responds(s.net, rest[0])
    ensures rest[1..] == [] || Leading(s, x, rest[1..])
  {
    if x in s.ring {
      forall m | m in s.ring ensures Responds(s.net, m) { MembersAnswer(s, m); }
      forall o | o in s.ops && Entering(s.ops[o]) ensures s.ops[o].s in s.ring { assert OpOk(s, o); }
      forall o | o in s.ops && Exiting(s.ops[o]) ensures Responds(s.net, s.ops[o].n) {
        assert OpOk(s, o) && Claim(s.ops[o], s.ops[o].n) == Some(Leaving);
      }
      assert GoneArc(s, x, rest);
    } else if s.net[x].phase == Leaving {
      var o := LeavingOutsider(s, x);
      MembersAnswer(s, s.ops[o].s);
    }
  }

  /** The list of a successor is a good one, and so is that of one on the way out. */
  lemma HeadSettles(s: State, x: Id, rest: seq<Id>)
    requires Safe(s) && Leading(s, x, rest) && Responds(s.net, rest[0])
    requires x in s.ring ==> forall j: Id :: !BroughtIn(s, x, rest[0], j)
    ensures Settling(s, x, MakeSuccList(rest[0], s.net[rest[0]].succs))
  {
    if x in s.ring {
      LeadingHead(s, x, rest);
      var list := MakeSuccList(rest[0], s.net[rest[0]].succs);
      forall o | o in s.ops && Exiting(s.ops[o]) && s.ops[o].p == x
        ensures |list| >= 2 && list[0] == s.ops[o].n && list[1] == s.ops[o].s
      {
        assert TakesOut(s.ops[o], x) && OpOk(s, o) && Distinct(s.ops[o]);
        MakeSuccListDistinct(rest[0], s.net[rest[0]].succs);
      }
      if o :| o in s.ops && TakesOut(s.ops[o], x) { assert Exiting(s.ops[o]) && s.ops[o].p == x; }
    }
  }

  lemma JoinerSettles(s: State, x: Id, head: Id, j: Id)
    requires Safe(s) && x in s.net && s.net[x].succs != [] && BroughtIn(s, x, head, j)
    ensures Responds(s.net, j) && Settling(s, x, MakeSuccList(j, s.net[j].succs))
  {
    BroughtInIsNext(s, x, head, j);
    MembersAnswer(s, j);
    forall o | o in s.ops ensures !(Exiting(s.ops[o]) && s.ops[o].p == x) { assert !TakesOut(s.ops[o], x); }
  }

  // ---- what a fresh call depends on -------------------------------------------------------

  /** Operations around `x` are the same in both states. */
  ghost predicate SameOps(s: State, s': State, x: Id) {
    && (forall o, y, j :: o in s.ops && Brings(s.ops[o], x, y, j) ==> o in s'.ops && Brings(s'.ops[o], x, y, j))
    && (forall o, y, j :: o in s'.ops && Brings(s'.ops[o], x, y, j) ==> o in s.ops && Brings(s.ops[o], x, y, j))
    && (forall o :: o in s.ops && TakesOut(s.ops[o], x) ==>
          o in s'.ops && TakesOut(s'.ops[o], x) && s'.ops[o].n == s.ops[o].n && s'.ops[o].s == s.ops[o].s)
    && (forall o :: o in s'.ops && TakesOut(s'.ops[o], x) ==>
          o in s.ops && TakesOut(s.ops[o], x) && s.ops[o].n == s'.ops[o].n && s.ops[o].s == s'.ops[o].s)
  }

  /** The place of `x` in the ring, the operations around it and who has left are the same. */
  ghost predicate SamePlace(s: State, s': State, x: Id) {
    && SameOps(s, s', x)
    && (x in s.ring <==> x in s'.ring)
    && (x in s.ring ==>
          forall y {:trigger IsSuccessor(s.ring, x, y)} :: IsSuccessor(s.ring, x, y) ==> IsSuccessor(s'.ring, x, y))
    && (forall q {:trigger HasLeft(s, q)} :: HasLeft(s, q) ==> HasLeft(s', q))
    && (x in s.net ==> x in s'.net)
  }

  lemma GoneIsOut(s: State, q: Id)
    requires RingOk(s) && HasLeft(s, q)
    ensures q !in s.ring
  {
    assert q in s.ring ==> Member(s, q);
  }

  lemma ArcLasts(s: State, s': State, x: Id, list: seq<Id>)
    requires SamePlace(s, s', x) && RingOk(s') && x in s.ring && list != [] && ArcFits(s, x, list)
    ensures ArcFits(s', x, list)
  {
    if IsSuccessor(s.ring, x, list[0]) {
    } else if o :| o in s.ops && Entering(s.ops[o]) && s.ops[o].p == x && s.ops[o].s == list[0] {
      assert Brings(s.ops[o], x, list[0], s.ops[o].j);
      assert Brings(s'.ops[o], x, list[0], s.ops[o].j);
    } else if o :| o in s.ops && Exiting(s.ops[o]) && s.ops[o].p == x && s.ops[o].n == list[0] {
      assert TakesOut(s.ops[o], x);
      assert TakesOut(s'.ops[o], x);
    } else {
      assert GoneArc(s, x, list) && HasLeft(s, list[0]);
      GoneIsOut(s', list[0]);
    }
  }

  lemma GoodLasts(s: State, s': State, x: Id, list: seq<Id>)
    requires SamePlace(s, s', x) && x in s.ring && GoodList(s, x, list)
    ensures GoodList(s', x, list)
  {
    forall o | o in s'.ops && Exiting(s'.ops[o]) && s'.ops[o].p == x
      ensures |list| >= 2 && list[0] == s'.ops[o].n && list[1] == s'.ops[o].s
    {
      assert TakesOut(s'.ops[o], x);
      assert TakesOut(s.ops[o], x);
    }
    if o :| o in s.ops && Exiting(s.ops[o]) && s.ops[o].p == x {
      assert TakesOut(s.ops[o], x);
      assert TakesOut(s'.ops[o], x);
    }
  }

  lemma BroughtInLasts(s: State, s': State, x: Id, head: Id, j: Id)
    requires SamePlace(s, s', x)
    ensures BroughtIn(s, x, head, j) <==> BroughtIn(s', x, head, j)
  {
    if BroughtIn(s, x, head, j) {
      var o :| o in s.ops && Brings(s.ops[o], x, head, j);
      assert Brings(s'.ops[o], x, head, j);
    }
    if BroughtIn(s', x, head, j) {
      var o :| o in s'.ops && Brings(s'.ops[o], x, head, j);
      assert Brings(s.ops[o], x, head, j);
    }
  }

  /** The node itself is still there, still out if it was out, and keeps the head of its list. */
  predicate SameSelf(s: State, s': State, x: Id) {
    x in s.net && x in s'.net && (s.net[x].succs != [] ==> s'.net[x].succs != []) &&
    (x !in s.ring && s.net[x].phase in {Leaving, Left} ==>
       || s'.net[x].phase == Left
       || (s.net[x].phase == Leaving == s'.net[x].phase
           && (s.net[x].succs != [] && s'.net[x].succs != [] ==> s'.net[x].succs[0] == s.net[x].succs[0])))
  }

  lemma LeadingLasts(s: State, s': State, x: Id, rest: seq<Id>)
    requires SamePlace(s, s', x) && SameSelf(s, s', x) && RingOk(s') && Leading(s, x, rest)
    ensures Leading(s', x, rest)
  {
    if x in s.ring { ArcLasts(s, s', x, rest); }
  }

  lemma SettlingLasts(s: State, s': State, x: Id, list: seq<Id>)
    requires SamePlace(s, s', x) && SameSelf(s, s', x) && Settling(s, x, list)
    ensures Settling(s', x, list)
  {
    if x in s.ring { GoodLasts(s, s', x, list); }
  }

  lemma NearerLasts(s: State, s': State, x: Id, head: Id, nearer: Option<Id>)
    requires SamePlace(s, s', x) && SameSelf(s, s', x) && NearerFits(s, x, head, nearer)
    requires x in s.ring || s.net[x].phase in {Leaving, Left}
    requires x in s.ring ==> s.net[x].phase != Left
    ensures NearerFits(s', x, head, nearer)
  {
    forall j: Id ensures BroughtIn(s, x, head, j) <==> BroughtIn(s', x, head, j) { BroughtInLasts(s, s', x, head, j); }
  }

  /** A call that has read something stays fresh for as long as its node keeps its place. */
  lemma ReadingLasts(s: State, s': State, c: nat)
    requires c in s.calls && c in s'.calls && s'.calls[c] == s.calls[c] && Fresh(s, c) && RingOk(s) && RingOk(s')
    requires s.calls[c].Began? || s.calls[c].SawPred? || s.calls[c].SawList? || s.calls[c].Ready?
    requires SamePlace(s, s', s.calls[c].x) && (s.calls[c].x in s.net ==> SameSelf(s, s', s.calls[c].x))
    ensures Fresh(s', c)
  {
    var x := s.calls[c].x;
    if x in s.ring { assert Member(s, x); }
    match s.calls[c]
    case Began(_, rest) => if rest != [] { LeadingLasts(s, s', x, rest); }
    case SawPred(_, rest, nearer) =>
      LeadingLasts(s, s', x, rest);
      NearerLasts(s, s', x, rest[0], nearer);
    case SawList(_, list, closer) => SawListLasts(s, s', x, list, closer);
    case Ready(_, list) => SettlingLasts(s, s', x, list);
  }

  lemma SawListLasts(s: State, s': State, x: Id, list: seq<Id>, closer: Id)
    requires SamePlace(s, s', x) && (x in s.net ==> SameSelf(s, s', x))
    requires || (x in s.ring && x in s.net && s.net[x].succs != [] && exists head: Id :: BroughtIn(s, x, head, closer))
             || (Settling(s, x, list) && (s.net[x].phase != Left ==> HasLeft(s, closer)))
    requires x in s.ring && x in s.net ==> s.net[x].phase != Left
    ensures || (x in s'.ring && x in s'.net && s'.net[x].succs != [] &&
                exists head: Id :: BroughtIn(s', x, head, closer))
            || (Settling(s', x, list) && (s'.net[x].phase != Left ==> HasLeft(s', closer)))
  {
    if x in s.ring && x in s.net && s.net[x].succs != [] && exists head: Id :: BroughtIn(s, x, head, closer) {
      var head: Id :| BroughtIn(s, x, head, closer);
      BroughtInLasts(s, s', x, head, closer);
    } else {
      SettlingLasts(s, s', x, list);
    }
  }

  predicate Announcing(call: Call) {
    call.Installed? || call.Notifying? || call.SawSurrogate? || call.Probing? || call.Decided? || call.Marked?
  }

  /** A call that has written its list stays fresh for as long as the list keeps its head. */
  lemma AnnouncingLasts(s: State, s': State, c: nat)
    requires c in s.calls && c in s'.calls && s'.calls[c] == s.calls[c] && Fresh(s, c) && Announcing(s.calls[c])
    requires SamePlace(s, s', s.calls[c].x) && (s.calls[c].x in s.net ==> SameSelf(s, s', s.calls[c].x))
    requires s.calls[c].x in s.ring ==> Prompt(s', s.calls[c].x, s.calls[c].t)
    ensures Fresh(s', c)
  {
  }

  /** The node keeps its place and its list. */
  ghost predicate Spares(s: State, s': State, x: Id) {
    && SamePlace(s, s', x)
    && (x in s.net ==> SameSelf(s, s', x) && (s.net[x].succs != [] ==> s'.net[x].succs == s.net[x].succs))
  }

  lemma StaysFresh(s: State, s': State, c: nat)
    requires c in s.calls && c in s'.calls && s'.calls[c] == s.calls[c] && Fresh(s, c) && RingOk(s) && RingOk(s')
    requires Spares(s, s', s.calls[c].x)
    ensures Fresh(s', c)
  {
    var x := s.calls[c].x;
    if Announcing(s.calls[c]) {
      if x in s.ring { GoodLasts(s, s', x, s.net[x].succs); }
      AnnouncingLasts(s, s', c);
    } else if Repairing(s.calls[c]) {
      ReadingLasts(s, s', c);
    }
  }

  // ---- steps of calls --------------------------------------------------------------------------

  /** Neither operations nor the ring nor any phase change. */
  ghost predicate OnlyPointers(s: State, s': State) {
    && s'.ring == s.ring && s'.ops == s.ops && s'.net.Keys == s.net.Keys
    && forall y {:trigger s'.net[y]} :: y in s.net ==> s'.net[y].phase == s.net[y].phase
  }

  lemma PointersKeepPlace(s: State, s': State, x: Id)
    requires OnlyPointers(s, s')
    ensures SamePlace(s, s', x)
    ensures x in s.net && s'.net[x].succs == s.net[x].succs ==> SameSelf(s, s', x)
  {
  }

  lemma BeganStaysFresh(s: State, c: nat, x: Id, rest: seq<Id>)
    requires Safe(s) && c in s.calls && Safe(DoProceed(s, c)) && s.calls[c] == Began(x, rest) && Fresh(s, c)
    requires rest != []
    ensures Fresh(DoProceed(s, c), c)
  {
    var s' := DoProceed(s, c);
    PointersKeepPlace(s, s', x);
    if x in s.ring { assert Member(s, x); }
    if !Responds(s.net, rest[0]) {
      SkipLeads(s, x, rest);
      if rest[1..] != [] { LeadingLasts(s, s', x, rest[1..]); }
    } else {
      LeadingLasts(s, s', x, rest);
      if x in s.ring {
        MemberReadsNearer(s, x, rest);
      } else if s.net[x].phase == Leaving {
        LeaverReadsNearer(s, x, rest[0]);
      }
      NearerLasts(s, s', x, rest[0], s.net[rest[0]].pred);
    }
  }

  lemma SawPredStaysFresh(s: State, c: nat, x: Id, rest: seq<Id>, nearer: Option<Id>)
    requires Safe(s) && c in s.calls && Safe(DoProceed(s, c)) && s.calls[c] == SawPred(x, rest, nearer) && Fresh(s, c)
    ensures Fresh(DoProceed(s, c), c)
  {
    var s' := DoProceed(s, c);
    PointersKeepPlace(s, s', x);
    if x in s.ring { assert Member(s, x); }
    if !Responds(s.net, rest[0]) {
      SkipLeads(s, x, rest);
      if rest[1..] != [] { LeadingLasts(s, s', x, rest[1..]); }
    } else {
      var list := MakeSuccList(rest[0], s.net[rest[0]].succs);
      SawPredSettles(s, x, rest, nearer, list);
      if nearer.Some? && Between(x, nearer.value, rest[0], false) {
        SawListLasts(s, s', x, list, nearer.value);
      } else {
        SettlingLasts(s, s', x, list);
      }
    }
  }

  /** What a call knows once it has read predecessor and list of an entry that answers. */
  lemma SawPredSettles(s: State, x: Id, rest: seq<Id>, nearer: Option<Id>, list: seq<Id>)
    requires Safe(s) && Leading(s, x, rest) && NearerFits(s, x, rest[0], nearer) && Responds(s.net, rest[0])
    requires list == MakeSuccList(rest[0], s.net[rest[0]].succs)
    ensures nearer.Some? && Between(x, nearer.value, rest[0], false) ==>
              || (x in s.ring && exists head: Id :: BroughtIn(s, x, head, nearer.value))
              || (Settling(s, x, list) && (s.net[x].phase != Left ==> HasLeft(s, nearer.value)))
    ensures !(nearer.Some? && Between(x, nearer.value, rest[0], false)) ==> Settling(s, x, list)
  {
    if x in s.ring && exists j: Id :: BroughtIn(s, x, rest[0], j) {
      assert Member(s, x);
      var j: Id :| BroughtIn(s, x, rest[0], j);
      BroughtInIsNext(s, x, rest[0], j);
      assert nearer == Some(j);
    } else {
      HeadSettles(s, x, rest);
    }
  }

  lemma SawListStaysFresh(s: State, c: nat, x: Id, list: seq<Id>, closer: Id)
    requires Safe(s) && c in s.calls && Safe(DoProceed(s, c)) && s.calls[c] == SawList(x, list, closer) && Fresh(s, c)
    ensures Fresh(DoProceed(s, c), c)
  {
    var s' := DoProceed(s, c);
    PointersKeepPlace(s, s', x);
    if x in s.ring { assert Member(s, x); }
    if x in s.ring && x in s.net && s.net[x].succs != [] && exists head: Id :: BroughtIn(s, x, head, closer) {
      var head: Id :| BroughtIn(s, x, head, closer);
      JoinerSettles(s, x, head, closer);
      SettlingLasts(s, s', x, MakeSuccList(closer, s.net[closer].succs));
    } else {
      var next := Goes(s.net, s.calls[c]).value.list;
      assert Settling(s, x, next);
      SettlingLasts(s, s', x, next);
    }
  }

  lemma ReadyStaysFresh(s: State, c: nat, x: Id, list: seq<Id>)
    requires Safe(s) && c in s.calls && s.calls[c] == Ready(x, list) && Fresh(s, c)
    ensures Fresh(DoProceed(s, c), c)
  {
    PointersKeepPlace(s, DoProceed(s, c), x);
    if x in s.ring { GoodLasts(s, DoProceed(s, c), x, list); }
  }

  lemma AnnouncingStaysFresh(s: State, c: nat)
    requires Safe(s) && c in s.calls && Announcing(s.calls[c]) && Fresh(s, c) && Goes(s.net, s.calls[c]).Some?
    ensures Fresh(DoProceed(s, c), c)
  {
    var x := s.calls[c].x;
    PointersKeepPlace(s, DoProceed(s, c), x);
    if x in s.ring { GoodLasts(s, DoProceed(s, c), x, s.net[x].succs); }
  }

  /** Each action of a fresh call leaves it fresh. */
  lemma OwnStepStaysFresh(s: State, c: nat)
    requires Safe(s) && c in s.calls && Safe(DoProceed(s, c)) && Fresh(s, c) && Goes(s.net, s.calls[c]).Some?
    ensures Fresh(DoProceed(s, c), c)
  {
    if Announcing(s.calls[c]) {
      AnnouncingStaysFresh(s, c);
    } else {
      match s.calls[c]
      case Began(x, rest) => BeganStaysFresh(s, c, x, rest);
      case SawPred(x, rest, nearer) => SawPredStaysFresh(s, c, x, rest, nearer);
      case SawList(x, list, closer) => SawListStaysFresh(s, c, x, list, closer);
      case Ready(x, list) => ReadyStaysFresh(s, c, x, list);
      case _ =>
    }
  }

  /** All good lists of a node start with the same node. */
  lemma SameGoodHead(s: State, x: Id, a: seq<Id>, b: seq<Id>)
    requires GoodList(s, x, a) && GoodList(s, x, b)
    ensures a[0] == b[0]
  {
    if o :| o in s.ops && Exiting(s.ops[o]) && s.ops[o].p == x {
      assert a[0] == s.ops[o].n == b[0];
    } else {
      SuccessorUnique(s.ring, x, a[0], b[0]);
    }
  }

  /** Another call of the same node replaces the list. */
  lemma InstallLeavesFresh(s: State, a: nat, c: nat)
    requires Safe(s) && a in s.calls && Safe(DoProceed(s, a)) && c in s.calls && a != c && Fresh(s, a) && Fresh(s, c)
    requires s.calls[a].Ready? && s.calls[a].x == s.calls[c].x
    ensures Fresh(DoProceed(s, a), c)
  {
    var s', x, list := DoProceed(s, a), s.calls[a].x, s.calls[a].list;
    PointersKeepPlace(s, s', x);
    assert SameSelf(s, s', x);
    if Announcing(s.calls[c]) {
      if x in s.ring {
        SameGoodHead(s, x, list, s.net[x].succs);
        GoodLasts(s, s', x, list);
      }
      AnnouncingLasts(s, s', c);
    } else if Repairing(s.calls[c]) {
      ReadingLasts(s, s', c);
    }
  }

  /** An action of one fresh call leaves every other one fresh. */
  lemma OtherStepLeavesFresh(s: State, a: nat, c: nat)
    requires Safe(s) && a in s.calls && Safe(DoProceed(s, a)) && c in s.calls && a != c && Fresh(s, a) && Fresh(s, c)
    ensures Fresh(DoProceed(s, a), c)
  {
    if s.calls[a].Ready? && s.calls[a].x == s.calls[c].x {
      InstallLeavesFresh(s, a, c);
    } else {
      PointersKeepPlace(s, DoProceed(s, a), s.calls[c].x);
      StaysFresh(s, DoProceed(s, a), c);
    }
  }
}

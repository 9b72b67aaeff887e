/** Two endpoints that may dial each other at once agree on one cached connection. */
module Negotiation {
  import opened Nodes

  /** Exactly one endpoint, the arbiter, serialises its side of the negotiations. */
  datatype Side = Arbiter | Peer

  type Conn = nat

  datatype Direction = Incoming | Outgoing

  datatype CacheState = Fresh | Cached

  datatype Message = Message(state: CacheState, direction: Direction)

  datatype Outcome = Published | Reused(conn: Conn, closesSpare: bool) | Failed(changed: bool)

  /** One side of one negotiation; `snap` is what its cache held when it reported. */
  datatype Stage = Waiting | Holding | Sent(snap: Option<Conn>) | Done(snap: Option<Conn>, outcome: Outcome)

  datatype Duo = Duo(
    dialer: Conn -> Side,
    arbiterCache: Option<Conn>,
    peerCache: Option<Conn>,
    arbiter: map<Conn, Stage>,
    peer: map<Conn, Stage>,
    lock: Option<Conn>)

  datatype Move =
    | Dial(c: Conn)
    | Acquire(c: Conn)
    | Report(side: Side, c: Conn)
    | Conclude(side: Side, c: Conn)
    | Release(c: Conn)

  function Cache(d: Duo, side: Side): Option<Conn> {
    if side.Arbiter? then d.arbiterCache else d.peerCache
  }

  function Stages(d: Duo, side: Side): map<Conn, Stage> {
    if side.Arbiter? then d.arbiter else d.peer
  }

  function Opposite(side: Side): Side {
    if side.Arbiter? then Peer else Arbiter
  }

  function DirectionOf(d: Duo, side: Side, c: Conn): Direction {
    if d.dialer(c) == side then Outgoing else Incoming
  }

  /** The cache status a side sends: its cached connection, or the fresh one. */
  function StatusOf(d: Duo, side: Side, c: Conn, snap: Option<Conn>): Message {
    match snap
    case None => Message(Fresh, DirectionOf(d, side, c))
    case Some(cached) => Message(Cached, DirectionOf(d, side, cached))
  }

  predicate HasSent(stage: Stage) {
    stage.Sent? || stage.Done?
  }

  /** What a side concludes from its snapshot, its cache now, and the peer's message. */
  function Concluded(d: Duo, side: Side, c: Conn, snap: Option<Conn>, heard: Message): Outcome {
    var mine := StatusOf(d, side, c, snap);
    if Cache(d, side) != snap then Failed(true)
    else if heard.state != mine.state || heard.direction == mine.direction then Failed(false)
    else if snap.Some? then Reused(snap.value, DirectionOf(d, side, snap.value) == Outgoing)
    else Published
  }

  predicate Enabled(d: Duo, e: Move) {
    match e
    case Dial(c) => c !in d.arbiter && c !in d.peer
    case Acquire(c) => c in d.arbiter && d.arbiter[c].Waiting? && d.lock.None?
    case Report(side, c) => c in Stages(d, side) && Stages(d, side)[c] == if side.Arbiter? then Holding else Waiting
    case Conclude(side, c) =>
      && c in Stages(d, side) && Stages(d, side)[c].Sent?
      && c in Stages(d, Opposite(side)) && HasSent(Stages(d, Opposite(side))[c])
    case Release(c) => c in d.arbiter && d.arbiter[c].Done? && d.lock == Some(c)
  }

  function WithStage(d: Duo, side: Side, c: Conn, stage: Stage): Duo {
    if side.Arbiter? then d.(arbiter := d.arbiter[c := stage]) else d.(peer := d.peer[c := stage])
  }

  function WithCache(d: Duo, side: Side, c: Conn): Duo {
    if side.Arbiter? then d.(arbiterCache := Some(c)) else d.(peerCache := Some(c))
  }

  function After(d: Duo, e: Move): Duo
    requires Enabled(d, e)
  {
    match e
    case Dial(c) => d.(arbiter := d.arbiter[c := Waiting], peer := d.peer[c := Waiting])
    case Acquire(c) => d.(arbiter := d.arbiter[c := Holding], lock := Some(c))
    case Report(side, c) => WithStage(d, side, c, Sent(Cache(d, side)))
    case Conclude(side, c) =>
      var snap := Stages(d, side)[c].snap;
      var heard := StatusOf(d, Opposite(side), c, Stages(d, Opposite(side))[c].snap);
      var outcome := Concluded(d, side, c, snap, heard);
      var d' := WithStage(d, side, c, Done(snap, outcome));
      if outcome.Published? then WithCache(d', side, c) else d'
    case Release(c) => d.(lock := None)
  }

  /** What the two snapshots of one negotiation decide, for both sides alike. */
  predicate Decides(d: Duo, side: Side, mine: Option<Conn>, theirs: Option<Conn>, outcome: Outcome) {
    if mine.None? && theirs.None? then outcome == Published
    else if mine.Some? && theirs.Some? then
      mine == theirs && outcome == Reused(mine.value, d.dialer(mine.value) == side)
    else outcome.Failed?
  }

  // ---- the invariant --------------------------------------------------------------------

  ghost predicate ArbiterOk(d: Duo, c: Conn) {
    && c in d.arbiter && c in d.peer
    && match d.arbiter[c]
       case Waiting => d.lock != Some(c)
       case Holding => d.lock == Some(c)
       case Sent(snap) => d.lock == Some(c) && snap == d.arbiterCache
       case Done(snap, outcome) =>
         && HasSent(d.peer[c]) && Decides(d, Arbiter, snap, d.peer[c].snap, outcome)
         && (snap.Some? ==> d.arbiterCache == snap)
         && (outcome.Published? ==> d.arbiterCache == Some(c))
  }

  ghost predicate PeerOk(d: Duo, c: Conn) {
    && c in d.arbiter && c in d.peer
    && match d.peer[c]
       case Waiting => true
       case Holding => false
       case Sent(snap) => snap.Some? ==> d.peerCache == snap
       case Done(snap, outcome) =>
         && HasSent(d.arbiter[c]) && Decides(d, Peer, snap, d.arbiter[c].snap, outcome)
         && (snap.Some? ==> d.peerCache == snap)
         && (outcome.Published? ==> d.peerCache == Some(c))
  }

  ghost predicate Good(d: Duo) {
    && d.arbiter.Keys == d.peer.Keys
    && (forall c {:trigger ArbiterOk(d, c)} :: c in d.arbiter ==> ArbiterOk(d, c))
    && (forall c {:trigger PeerOk(d, c)} :: c in d.peer ==> PeerOk(d, c))
    && (d.lock.Some? ==> d.lock.value in d.arbiter)
    && (d.arbiterCache.Some? ==>
          d.arbiterCache.value in d.arbiter && d.arbiter[d.arbiterCache.value] == Done(None, Published))
    && (d.peerCache.Some? ==>
          d.peerCache.value in d.peer && d.peer[d.peerCache.value] == Done(None, Published))
  }

  /** The caches never name different connections; and if the peer has one, the arbiter has it too
      or is about to. */
  lemma CachesAgree(d: Duo)
    requires Good(d) && d.peerCache.Some?
    ensures d.arbiterCache == d.peerCache
         || (d.arbiterCache.None? && d.lock == d.peerCache && d.arbiter[d.peerCache.value] == Sent(None))
  {
    var c := d.peerCache.value;
    assert PeerOk(d, c) && ArbiterOk(d, c);
  }

  /** The arbiter's conclusion is the one the snapshots decide. */
  lemma ArbiterConcludes(d: Duo, c: Conn)
    requires Good(d) && Enabled(d, Conclude(Arbiter, c))
    ensures var d' := After(d, Conclude(Arbiter, c));
            Decides(d, Arbiter, d.arbiter[c].snap, d.peer[c].snap, d'.arbiter[c].outcome)
  {
    assert ArbiterOk(d, c) && PeerOk(d, c);
    if d.peerCache.Some? { CachesAgree(d); }
  }

  /** So is the peer's: a connection it published meanwhile is one the arbiter knew of. */
  lemma PeerConcludes(d: Duo, c: Conn)
    requires Good(d) && Enabled(d, Conclude(Peer, c))
    ensures var d' := After(d, Conclude(Peer, c));
            Decides(d, Peer, d.peer[c].snap, d.arbiter[c].snap, d'.peer[c].outcome)
  {
    assert ArbiterOk(d, c) && PeerOk(d, c);
    if d.peerCache.Some? { CachesAgree(d); }
  }

  lemma ArbiterConclusionIsGood(d: Duo, c: Conn)
    requires Good(d) && Enabled(d, Conclude(Arbiter, c))
    ensures Good(After(d, Conclude(Arbiter, c)))
  {
    ArbiterConcludes(d, c);
    var d' := After(d, Conclude(Arbiter, c));
    assert ArbiterOk(d, c);
    forall x | x in d'.arbiter ensures ArbiterOk(d', x) { assert ArbiterOk(d, x); }
    forall x | x in d'.peer ensures PeerOk(d', x) { assert PeerOk(d, x); }
  }

  lemma PeerConclusionKeepsArbiter(d: Duo, c: Conn, x: Conn)
    requires Good(d) && Enabled(d, Conclude(Peer, c)) && x in d.arbiter
    ensures ArbiterOk(After(d, Conclude(Peer, c)), x)
  {
    assert ArbiterOk(d, x);
  }

  lemma PeerConclusionKeepsPeer(d: Duo, c: Conn, x: Conn)
    requires Good(d) && Enabled(d, Conclude(Peer, c)) && x in d.peer
    ensures PeerOk(After(d, Conclude(Peer, c)), x)
  {
    PeerConcludes(d, c);
    assert PeerOk(d, x) && PeerOk(d, c);
  }

  lemma PeerConclusionIsGood(d: Duo, c: Conn)
    requires Good(d) && Enabled(d, Conclude(Peer, c))
    ensures Good(After(d, Conclude(Peer, c)))
  {
    var d' := After(d, Conclude(Peer, c));
    forall x | x in d'.arbiter ensures ArbiterOk(d', x) { PeerConclusionKeepsArbiter(d, c, x); }
    forall x | x in d'.peer ensures PeerOk(d', x) { PeerConclusionKeepsPeer(d, c, x); }
  }

  lemma ReportIsGood(d: Duo, side: Side, c: Conn)
    requires Good(d) && Enabled(d, Report(side, c))
    ensures Good(After(d, Report(side, c)))
  {
    var d' := After(d, Report(side, c));
    forall x | x in d'.arbiter ensures ArbiterOk(d', x) { assert ArbiterOk(d, x); }
    forall x | x in d'.peer ensures PeerOk(d', x) { assert PeerOk(d, x); }
  }

  lemma LockIsGood(d: Duo, e: Move)
    requires Good(d) && Enabled(d, e) && (e.Acquire? || e.Release?)
    ensures Good(After(d, e))
  {
    var d' := After(d, e);
    forall x | x in d'.arbiter ensures ArbiterOk(d', x) { assert ArbiterOk(d, x); }
    forall x | x in d'.peer ensures PeerOk(d', x) { assert PeerOk(d, x); }
  }

  lemma DialIsGood(d: Duo, c: Conn)
    requires Good(d) && Enabled(d, Dial(c))
    ensures Good(After(d, Dial(c)))
  {
    var d' := After(d, Dial(c));
    forall x | x in d'.arbiter ensures ArbiterOk(d', x) { assert x in d.arbiter ==> ArbiterOk(d, x); }
    forall x | x in d'.peer ensures PeerOk(d', x) { assert x in d.peer ==> PeerOk(d, x); }
  }

  lemma StepKeepsGood(d: Duo, e: Move)
    requires Good(d) && Enabled(d, e)
    ensures Good(After(d, e)) && After(d, e).dialer == d.dialer
  {
    match e
    case Dial(c) => DialIsGood(d, c);
    case Report(side, c) => ReportIsGood(d, side, c);
    case Conclude(side, c) => if side.Arbiter? { ArbiterConclusionIsGood(d, c); } else { PeerConclusionIsGood(d, c); }
    case _ => LockIsGood(d, e);
  }

  // ---- what every interleaving guarantees -----------------------------------------------------

  ghost predicate Interleaves(d: Duo, moves: seq<Move>, d': Duo)
    decreases |moves|
  {
    if moves == [] then d == d'
    else Enabled(d, moves[0]) && Interleaves(After(d, moves[0]), moves[1..], d')
  }

  function Start(dialer: Conn -> Side): Duo {
    Duo(dialer, None, None, map[], map[], None)
  }

  lemma {:induction false} RunKeepsGood(d: Duo, moves: seq<Move>, d': Duo)
    requires Good(d) && Interleaves(d, moves, d')
    ensures Good(d') && d'.dialer == d.dialer
    decreases |moves|
  {
    if moves != [] {
      StepKeepsGood(d, moves[0]);
      RunKeepsGood(After(d, moves[0]), moves[1..], d');
    }
  }

  /** Whenever both sides of a negotiation have finished they agree: both published it, or both
      reuse the same connection and exactly one closes the spare, or both failed. */
  lemma OutcomesMatch(dialer: Conn -> Side, moves: seq<Move>, d: Duo, c: Conn)
    requires Interleaves(Start(dialer), moves, d)
    requires c in d.arbiter && c in d.peer && d.arbiter[c].Done? && d.peer[c].Done?
    ensures var a, p := d.arbiter[c].outcome, d.peer[c].outcome;
            && (a.Published? <==> p.Published?)
            && (a.Failed? <==> p.Failed?)
            && (a.Reused? ==> a.conn == p.conn && a.closesSpare != p.closesSpare)
            && (a.Published? ==> d.arbiterCache == Some(c) && d.peerCache == Some(c))
            && (a.Reused? ==> d.arbiterCache == Some(a.conn) && d.peerCache == Some(a.conn))
  {
    RunKeepsGood(Start(dialer), moves, d);
    assert ArbiterOk(d, c) && PeerOk(d, c);
  }

  predicate Won(stages: map<Conn, Stage>, c: Conn) {
    c in stages && stages[c].Done? && stages[c].outcome.Published?
  }

  /** The caches never disagree, and they are equal once no negotiation is under way. */
  lemma OneWinner(dialer: Conn -> Side, moves: seq<Move>, d: Duo)
    requires Interleaves(Start(dialer), moves, d)
    ensures d.arbiterCache.Some? && d.peerCache.Some? ==> d.arbiterCache == d.peerCache
    ensures (forall c :: c in d.arbiter ==> d.arbiter[c].Done? && c in d.peer && d.peer[c].Done?) ==>
      d.arbiterCache == d.peerCache
    ensures forall c, x :: Won(d.arbiter, c) && Won(d.arbiter, x) ==> c == x
  {
    RunKeepsGood(Start(dialer), moves, d);
    if d.peerCache.Some? { CachesAgree(d); }
    if d.arbiterCache.Some? { assert ArbiterOk(d, d.arbiterCache.value) && PeerOk(d, d.arbiterCache.value); }
    forall c: Conn | Won(d.arbiter, c) ensures d.arbiterCache == Some(c) { assert ArbiterOk(d, c); }
  }

  /** No interleaving gets stuck: while a negotiation is unfinished or the lock is held, some side can move. */
  lemma NeverStuck(dialer: Conn -> Side, moves: seq<Move>, d: Duo, c: Conn)
    requires Interleaves(Start(dialer), moves, d) && c in d.arbiter && c in d.peer
    requires !d.arbiter[c].Done? || !d.peer[c].Done? || d.lock.Some?
    ensures exists e: Move :: !e.Dial? && Enabled(d, e)
  {
    RunKeepsGood(Start(dialer), moves, d);
    assert ArbiterOk(d, c) && PeerOk(d, c);
    if d.lock.Some? {
      HolderMoves(d);
    } else if d.arbiter[c].Waiting? {
      assert Enabled(d, Acquire(c));
    } else {
      assert Enabled(d, Conclude(Peer, c));
    }
  }

  lemma HolderMoves(d: Duo)
    requires Good(d) && d.lock.Some?
    ensures exists e: Move :: !e.Dial? && Enabled(d, e)
  {
    var c := d.lock.value;
    assert ArbiterOk(d, c) && PeerOk(d, c);
    match d.arbiter[c]
    case Holding => assert Enabled(d, Report(Arbiter, c));
    case Done(_, _) => assert Enabled(d, Release(c));
    case Sent(_) => assert Enabled(d, if d.peer[c].Waiting? then Report(Peer, c) else Conclude(Arbiter, c));
  }

  // ---- how long it takes ------------------------------------------------------------------------

  /** Moves one side of a negotiation still has to make; a waiting arbiter also has to take the lock
      and give it back. */
  function ToDo(side: Side, stage: Stage): nat {
    match stage
    case Waiting => if side.Arbiter? then 4 else 2
    case Holding => 2
    case Sent(_) => 1
    case Done(_, _) => 0
  }

  ghost function Pending(side: Side, stages: map<Conn, Stage>): nat {
    if stages == map[] then 0
    else
      var c :| c in stages;
      ToDo(side, stages[c]) + Pending(side, stages - {c})
  }

  lemma {:induction false} PendingPicks(side: Side, stages: map<Conn, Stage>, c: Conn)
    requires c in stages
    ensures Pending(side, stages) == ToDo(side, stages[c]) + Pending(side, stages - {c})
    decreases |stages|
  {
    var x :| x in stages && Pending(side, stages) == ToDo(side, stages[x]) + Pending(side, stages - {x});
    if x != c {
      PendingPicks(side, stages - {x}, c);
      PendingPicks(side, stages - {c}, x);
      assert stages - {x} - {c} == stages - {c} - {x};
    }
  }

  lemma PendingUpdates(side: Side, stages: map<Conn, Stage>, c: Conn, stage: Stage)
    ensures Pending(side, stages[c := stage]) ==
            Pending(side, stages) + ToDo(side, stage) - (if c in stages then ToDo(side, stages[c]) else 0)
  {
    PendingPicks(side, stages[c := stage], c);
    if c in stages {
      PendingPicks(side, stages, c);
      assert stages[c := stage] - {c} == stages - {c};
    } else {
      assert stages[c := stage] - {c} == stages;
    }
  }

  ghost function Remaining(d: Duo): nat {
    Pending(Arbiter, d.arbiter) + Pending(Peer, d.peer) + if d.lock.Some? then 1 else 0
  }

  lemma SideCounts(d: Duo, side: Side, e: Move)
    requires Good(d) && Enabled(d, e) && (e == Report(side, e.c) || e == Conclude(side, e.c))
    ensures Remaining(After(d, e)) == Remaining(d) - 1
  {
    var d', c := After(d, e), e.c;
    assert ArbiterOk(d, c) && PeerOk(d, c);
    if side.Arbiter? {
      assert d'.arbiter == d.arbiter[c := d'.arbiter[c]] && d'.peer == d.peer;
      PendingUpdates(Arbiter, d.arbiter, c, d'.arbiter[c]);
    } else {
      assert d'.peer == d.peer[c := d'.peer[c]] && d'.arbiter == d.arbiter;
      PendingUpdates(Peer, d.peer, c, d'.peer[c]);
    }
  }

  /** Every move but a new dial is one less to make; a dial adds six. */
  lemma MoveCounts(d: Duo, e: Move)
    requires Good(d) && Enabled(d, e)
    ensures Remaining(After(d, e)) == if e.Dial? then Remaining(d) + 6 else Remaining(d) - 1
  {
    match e
    case Dial(c) =>
      PendingUpdates(Arbiter, d.arbiter, c, Waiting);
      PendingUpdates(Peer, d.peer, c, Waiting);
    case Acquire(c) => PendingUpdates(Arbiter, d.arbiter, c, Holding);
    case Report(side, _) => SideCounts(d, side, e);
    case Conclude(side, _) => SideCounts(d, side, e);
    case Release(_) =>
  }

  function Dials(moves: seq<Move>): nat
    decreases |moves|
  {
    if moves == [] then 0 else (if moves[0].Dial? then 1 else 0) + Dials(moves[1..])
  }

  lemma {:induction false} RunCounts(d: Duo, moves: seq<Move>, d': Duo)
    requires Good(d) && Interleaves(d, moves, d')
    ensures Remaining(d') + |moves| == Remaining(d) + 7 * Dials(moves)
    decreases |moves|
  {
    if moves != [] {
      MoveCounts(d, moves[0]);
      StepKeepsGood(d, moves[0]);
      RunCounts(After(d, moves[0]), moves[1..], d');
    }
  }

  predicate Settled(d: Duo) {
    && d.lock.None?
    && (forall c :: c in d.arbiter ==> d.arbiter[c].Done?) && (forall c :: c in d.peer ==> d.peer[c].Done?)
  }

  lemma {:induction false} NothingPending(side: Side, stages: map<Conn, Stage>)
    ensures Pending(side, stages) == 0 <==> forall c :: c in stages ==> stages[c].Done?
    decreases |stages|
  {
    if stages != map[] {
      var c :| c in stages && Pending(side, stages) == ToDo(side, stages[c]) + Pending(side, stages - {c});
      NothingPending(side, stages - {c});
      assert forall x :: x in stages <==> x == c || x in stages - {c};
      assert ToDo(side, stages[c]) == 0 <==> stages[c].Done?;
    }
  }

  /** Every negotiation finishes: after any interleaving of `n` dials at most six moves for each have been
      made, exactly six once everything is settled; and as long as it is not, some side can move. */
  lemma EveryNegotiationFinishes(dialer: Conn -> Side, moves: seq<Move>, d: Duo)
    requires Interleaves(Start(dialer), moves, d)
    ensures |moves| <= 7 * Dials(moves)
    ensures |moves| == 7 * Dials(moves) <==> Settled(d)
    ensures !Settled(d) ==> exists e: Move :: !e.Dial? && Enabled(d, e)
  {
    RunKeepsGood(Start(dialer), moves, d);
    RunCounts(Start(dialer), moves, d);
    NothingPending(Arbiter, d.arbiter);
    NothingPending(Peer, d.peer);
    if !Settled(d) {
      var c :| c in d.arbiter && c in d.peer && (!d.arbiter[c].Done? || !d.peer[c].Done? || d.lock.Some?);
      NeverStuck(dialer, moves, d, c);
    }
  }
}

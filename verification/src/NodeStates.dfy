/** The atomic word that holds a node's phase, and its history. */
module NodeStates {
  import opened Nodes

  /** Four bits of phase leave sixty bits of index in the 64-bit word. */
  const INDICES: nat := 0x1000_0000_0000_0000

  function Code(phase: Phase): (c: nat)
    ensures c < 16 && Decode(c) == phase
  {
    match phase
    case Inactive => 0
    case Joining => 1
    case Active => 2
    case Transferring => 3
    case Leaving => 4
    case Left => 5
  }

  function Decode(code: nat): Phase {
    match code
    case 0 => Inactive
    case 1 => Joining
    case 2 => Active
    case 3 => Transferring
    case 4 => Leaving
    case _ => Left
  }

  /** `(index << 4) | state` in 64-bit arithmetic. */
  function Pack(index: nat, phase: Phase): nat {
    (index % INDICES) * 16 + Code(phase)
  }

  /** Shifting and masking recover both halves. */
  lemma Unpack(index: nat, phase: Phase)
    requires index < INDICES
    ensures Pack(index, phase) / 16 == index && Decode(Pack(index, phase) % 16) == phase
  {
  }

  lemma PackInjective(i: nat, p: Phase, j: nat, q: Phase)
    requires i < INDICES && j < INDICES
    ensures Pack(i, p) == Pack(j, q) <==> i == j && p == q
  {
  }

  // ---- one caller at a time -----------------------------------------------------------

  class NodeState {
    var word: nat
    var history: map<nat, Phase>
    ghost var log: seq<Phase>

    ghost predicate Valid()
      reads this
    {
      && 1 <= |log| <= INDICES
      && word == Pack(|log| - 1, log[|log| - 1])
      && (forall i :: i in history <==> 0 <= i < |log|)
      && (forall i :: 0 <= i < |log| ==> history[i] == log[i])
    }

    constructor (initial: Phase)
      ensures Valid() && log == [initial]
    {
      word := Pack(0, initial);
      history := map[0 := initial];
      log := [initial];
    }

    method Transition(expected: Phase, next: Phase) returns (seen: Phase, ok: bool)
      requires Valid() && |log| < INDICES
      modifies this
      ensures Valid()
      ensures ok <==> old(log[|log| - 1]) == expected
      ensures log == if ok then old(log) + [next] else old(log)
      ensures seen == log[|log| - 1]
    {
      var curr := word;
      Unpack(|log| - 1, log[|log| - 1]);
      PackInjective(|log| - 1, log[|log| - 1], |log| - 1, expected);
      var index := curr / 16;
      if word == Pack(index, expected) {
        word := Pack(index + 1, next);
        history := history[index + 1 := next];
        log := log + [next];
        return next, true;
      }
      return Decode(curr % 16), false;
    }

    method Set(phase: Phase)
      requires Valid() && |log| < INDICES
      modifies this
      ensures Valid() && log == old(log) + [phase]
    {
      var done := false;
      while !done
        invariant Valid() && log == if done then old(log) + [phase] else old(log)
        decreases !done
      {
        var current := Get();
        var _, ok := Transition(current, phase);
        done := ok;
      }
    }

    method Get() returns (phase: Phase)
      requires Valid()
      ensures phase == log[|log| - 1]
    {
      Unpack(|log| - 1, log[|log| - 1]);
      phase := Decode(word % 16);
    }

    method History() returns (h: seq<Phase>)
      requires Valid()
      ensures h == log
    {
      h := [];
      while |h| in history
        invariant |h| <= |log| && h == log[..|h|]
        decreases |log| - |h|
      {
        h := h + [history[|h|]];
      }
    }
  }

  // ---- any number of callers ------------------------------------------------------------

  /** Where one call of Transition stands. */
  datatype Call =
    | Ready(expected: Phase, next: Phase)
    | Loaded(expected: Phase, next: Phase, seen: nat)
    | Swapped(index: nat, next: Phase)
    | Failed(current: Phase)
    | Succeeded

  /** `log` lists every value the word has carried, oldest first. */
  datatype Shared = Shared(word: nat, history: map<nat, Phase>, calls: map<nat, Call>, log: seq<Phase>)

  datatype Move = Begin(t: nat, expected: Phase, next: Phase) | Load(t: nat) | Swap(t: nat) | Record(t: nat)

  predicate Enabled(m: Shared, e: Move) {
    match e
    case Begin(t, _, _) => t !in m.calls
    case Load(t) => t in m.calls && m.calls[t].Ready?
    case Swap(t) => t in m.calls && m.calls[t].Loaded?
    case Record(t) => t in m.calls && m.calls[t].Swapped?
  }

  function After(m: Shared, e: Move): Shared
    requires Enabled(m, e)
  {
    match e
    case Begin(t, expected, next) => m.(calls := m.calls[t := Ready(expected, next)])
    case Load(t) => m.(calls := m.calls[t := Loaded(m.calls[t].expected, m.calls[t].next, m.word)])
    case Swap(t) =>
      var call := m.calls[t];
      var index := call.seen / 16;
      if m.word == Pack(index, call.expected) then
        m.(word := Pack(index + 1, call.next), calls := m.calls[t := Swapped(index + 1, call.next)],
           log := m.log + [call.next])
      else
        m.(calls := m.calls[t := Failed(Decode(call.seen % 16))])
    case Record(t) =>
      m.(history := m.history[m.calls[t].index := m.calls[t].next], calls := m.calls[t := Succeeded])
  }

  /** Version `i` of the word has been published but not yet recorded. */
  ghost predicate Unrecorded(m: Shared, i: nat) {
    exists t :: t in m.calls && m.calls[t].Swapped? && m.calls[t].index == i
  }

  /** The word once had this value. */
  ghost predicate WasWord(log: seq<Phase>, word: nat) {
    exists i :: 0 <= i < |log| && word == Pack(i, log[i])
  }

  ghost predicate CallOk(m: Shared, t: nat)
    requires t in m.calls
  {
    match m.calls[t]
    case Loaded(_, _, seen) => WasWord(m.log, seen)
    case Swapped(i, next) => 0 < i < |m.log| && m.log[i] == next && i !in m.history
    case _ => true
  }

  /** Two calls are about to record the same version. */
  predicate Clash(calls: map<nat, Call>, t: nat, u: nat) {
    t != u && t in calls && u in calls && calls[t].Swapped? && calls[u].Swapped? && calls[t].index == calls[u].index
  }

  ghost predicate Good(m: Shared) {
    && |m.log| >= 1 && m.word == Pack(|m.log| - 1, m.log[|m.log| - 1])
    && (forall i :: i in m.history ==> i < |m.log| && m.history[i] == m.log[i])
    && (forall i :: 0 <= i < |m.log| && i !in m.history ==> Unrecorded(m, i))
    && (forall t :: t in m.calls ==> CallOk(m, t))
    && (forall t, u :: !Clash(m.calls, t, u))
  }

  predicate Unchanged(m: Shared, t: nat)
    requires |m.log| >= 1 && t in m.calls && m.calls[t].Loaded?
  {
    m.calls[t].seen == m.word && m.log[|m.log| - 1] == m.calls[t].expected
  }

  /** The effect of a swap that goes through, in terms of the log. */
  function Published(m: Shared, t: nat): Shared
    requires t in m.calls && m.calls[t].Loaded?
  {
    var next := m.calls[t].next;
    Shared(Pack(|m.log|, next), m.history, m.calls[t := Swapped(|m.log|, next)], m.log + [next])
  }

  /** A word once published matches the last one, under the expected phase, exactly when it is the last one
      and that is the phase. */
  lemma MatchesIff(log: seq<Phase>, seen: nat, expected: Phase)
    requires 1 <= |log| <= INDICES && WasWord(log, seen)
    ensures Pack(|log| - 1, log[|log| - 1]) == Pack(seen / 16, expected) <==>
      seen == Pack(|log| - 1, log[|log| - 1]) && log[|log| - 1] == expected
    ensures seen == Pack(|log| - 1, log[|log| - 1]) ==> seen / 16 == |log| - 1
  {
    var i :| 0 <= i < |log| && seen == Pack(i, log[i]);
    Unpack(i, log[i]);
    PackInjective(|log| - 1, log[|log| - 1], i, expected);
    PackInjective(|log| - 1, log[|log| - 1], i, log[i]);
  }

  /** The swap goes through exactly when the word has not changed at all since it was loaded and
      holds the expected phase; a phase that came back in between does not fool it. */
  lemma SwapSucceedsIff(m: Shared, t: nat)
    requires Good(m) && Enabled(m, Swap(t)) && |m.log| <= INDICES
    ensures Unchanged(m, t) ==> After(m, Swap(t)) == Published(m, t)
    ensures !Unchanged(m, t) ==> After(m, Swap(t)) == m.(calls := m.calls[t := Failed(Decode(m.calls[t].seen % 16))])
  {
    assert CallOk(m, t);
    MatchesIff(m.log, m.calls[t].seen, m.calls[t].expected);
  }

  /** Calls other than `t` keep their standing when `t`, with nothing to record, moves on. */
  lemma OthersStay(m: Shared, m': Shared, t: nat, call: Call)
    requires Good(m) && m'.calls == m.calls[t := call] && m.log <= m'.log && m'.history == m.history
    requires t in m.calls ==> !m.calls[t].Swapped?
    ensures forall u :: u in m.calls && u != t ==> CallOk(m', u)
    ensures forall i :: 0 <= i < |m.log| && i !in m.history ==> Unrecorded(m', i)
  {
  }

  /** A call that moves on clashes with no other, unless it takes an index already taken. */
  lemma NoNewClash(m: Shared, calls: map<nat, Call>, t: nat, call: Call)
    requires Good(m) && calls == m.calls[t := call] && (call.Swapped? ==> call.index >= |m.log|)
    ensures forall u, v :: !Clash(calls, u, v)
  {
    forall u | u in m.calls && m.calls[u].Swapped? ensures m.calls[u].index < |m.log| { assert CallOk(m, u); }
    forall u, v ensures !Clash(calls, u, v) { assert !Clash(m.calls, u, v); }
  }

  lemma PublishedIsGood(m: Shared, t: nat)
    requires Good(m) && t in m.calls && m.calls[t].Loaded?
    ensures Good(Published(m, t))
  {
    var m' := Published(m, t);
    OthersStay(m, m', t, m'.calls[t]);
    NoNewClash(m, m'.calls, t, m'.calls[t]);
    forall i | 0 <= i < |m'.log| && i !in m'.history ensures Unrecorded(m', i) {
      if i == |m.log| { assert m'.calls[t].Swapped? && m'.calls[t].index == i; }
    }
  }

  lemma FailedIsGood(m: Shared, t: nat, current: Phase)
    requires Good(m) && t in m.calls && m.calls[t].Loaded?
    ensures Good(m.(calls := m.calls[t := Failed(current)]))
  {
    var m' := m.(calls := m.calls[t := Failed(current)]);
    OthersStay(m, m', t, Failed(current));
    NoNewClash(m, m'.calls, t, Failed(current));
  }

  lemma SwapKeepsGood(m: Shared, t: nat)
    requires Good(m) && Enabled(m, Swap(t)) && |m.log| <= INDICES
    ensures Good(After(m, Swap(t)))
  {
    SwapSucceedsIff(m, t);
    if Unchanged(m, t) { PublishedIsGood(m, t); } else { FailedIsGood(m, t, Decode(m.calls[t].seen % 16)); }
  }

  lemma RecordKeepsGood(m: Shared, t: nat)
    requires Good(m) && Enabled(m, Record(t))
    ensures Good(After(m, Record(t)))
  {
    var m' := After(m, Record(t));
    assert CallOk(m, t);
    NoNewClash(m, m'.calls, t, Succeeded);
    forall u | u in m'.calls ensures CallOk(m', u) { assert u != t ==> CallOk(m, u) && !Clash(m.calls, t, u); }
    forall i | 0 <= i < |m'.log| && i !in m'.history ensures Unrecorded(m', i) {
      assert Unrecorded(m, i);
      var u :| u in m.calls && m.calls[u].Swapped? && m.calls[u].index == i;
      assert m'.calls[u] == m.calls[u];
    }
  }

  /** The other moves change no word, history or swapped call. */
  lemma QuietKeepsGood(m: Shared, e: Move)
    requires Good(m) && Enabled(m, e) && (e.Begin? || e.Load?)
    ensures Good(After(m, e))
  {
    var m' := After(m, e);
    OthersStay(m, m', e.t, m'.calls[e.t]);
    NoNewClash(m, m'.calls, e.t, m'.calls[e.t]);
    assert m.word == Pack(|m.log| - 1, m.log[|m.log| - 1]);
    assert CallOk(m', e.t);
  }

  lemma StepKeepsGood(m: Shared, e: Move)
    requires Good(m) && Enabled(m, e) && |m.log| <= INDICES
    ensures Good(After(m, e))
  {
    match e
    case Swap(t) => SwapKeepsGood(m, t);
    case Record(t) => RecordKeepsGood(m, t);
    case _ => QuietKeepsGood(m, e);
  }

  ghost predicate Interleaves(m: Shared, moves: seq<Move>, m': Shared)
    decreases |moves|
  {
    if moves == [] then m == m'
    else Enabled(m, moves[0]) && Interleaves(After(m, moves[0]), moves[1..], m')
  }

  lemma {:induction false} RunKeepsGood(m: Shared, moves: seq<Move>, m': Shared)
    requires Good(m) && Interleaves(m, moves, m') && |m'.log| <= INDICES
    ensures Good(m')
    decreases |moves|
  {
    if moves != [] {
      LogOnlyGrows(After(m, moves[0]), moves[1..], m');
      StepKeepsGood(m, moves[0]);
      RunKeepsGood(After(m, moves[0]), moves[1..], m');
    }
  }

  lemma {:induction false} LogOnlyGrows(m: Shared, moves: seq<Move>, m': Shared)
    requires Interleaves(m, moves, m')
    ensures m.log <= m'.log
    decreases |moves|
  {
    if moves != [] { LogOnlyGrows(After(m, moves[0]), moves[1..], m'); }
  }

  /** Over every interleaving of fewer than 2^60 transitions: once no caller sits between its swap
      and its record, the history is the full sequence of phases the node went through. */
  lemma HistoryIsComplete(initial: Phase, moves: seq<Move>, m: Shared)
    requires Interleaves(Shared(Pack(0, initial), map[0 := initial], map[], [initial]), moves, m) && |m.log| <= INDICES
    requires forall t :: t in m.calls ==> !m.calls[t].Swapped?
    ensures forall i :: i in m.history <==> 0 <= i < |m.log|
    ensures forall i :: 0 <= i < |m.log| ==> m.history[i] == m.log[i]
    ensures m.log != [] && m.log[0] == initial && Decode(m.word % 16) == m.log[|m.log| - 1]
  {
    var start := Shared(Pack(0, initial), map[0 := initial], map[], [initial]);
    RunKeepsGood(start, moves, m);
    LogOnlyGrows(start, moves, m);
    Unpack(|m.log| - 1, m.log[|m.log| - 1]);
    forall i | 0 <= i < |m.log| ensures i in m.history { assert i !in m.history ==> Unrecorded(m, i); }
  }

  // ---- retries ----------------------------------------------------------------------------------

  /** A call that has loaded the word since has loaded this one. */
  predicate LoadedSince(m: Shared, t: nat, word: nat) {
    t in m.calls && m.calls[t].Loaded? ==> m.calls[t].seen == word
  }

  lemma QuietMove(m: Shared, e: Move, t: nat)
    requires Enabled(m, e) && |After(m, e).log| == |m.log| && LoadedSince(m, t, m.word)
    ensures After(m, e).log == m.log && After(m, e).word == m.word && LoadedSince(After(m, e), t, m.word)
  {
  }

  lemma {:induction false} QuietWordStays(m: Shared, moves: seq<Move>, m': Shared, t: nat)
    requires Interleaves(m, moves, m') && |m'.log| == |m.log| && LoadedSince(m, t, m.word)
    ensures m'.log == m.log && m'.word == m.word && LoadedSince(m', t, m.word)
    decreases |moves|
  {
    if moves != [] {
      LogOnlyGrows(m, moves[..1], After(m, moves[0]));
      LogOnlyGrows(After(m, moves[0]), moves[1..], m');
      QuietMove(m, moves[0], t);
      QuietWordStays(After(m, moves[0]), moves[1..], m', t);
    }
  }

  /** One attempt of Set reads the phase, then tries to leave it: unless another transition went through
      since that read, the attempt does. So every retry is paid for by another caller's success. */
  lemma SetRetriesOnlyIfOvertaken(m: Shared, moves: seq<Move>, m': Shared, t: nat)
    requires Good(m) && Interleaves(m, moves, m') && |m'.log| <= INDICES && t !in m.calls
    requires t in m'.calls && m'.calls[t].Loaded? && m'.calls[t].expected == m.log[|m.log| - 1]
    requires After(m', Swap(t)).calls[t].Failed?
    ensures |m'.log| > |m.log|
  {
    LogOnlyGrows(m, moves, m');
    RunKeepsGood(m, moves, m');
    SwapSucceedsIff(m', t);
    if |m'.log| == |m.log| { QuietWordStays(m, moves, m', t); }
  }
}

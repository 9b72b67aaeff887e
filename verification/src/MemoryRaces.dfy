/** Callers of the memory provider that race on one key: each loads what it needs, decides, and
    swaps the new value or token in if what it loaded is still there; an import stores field by field. */
module MemoryRaces {
  import opened Nodes
  import opened KeyValue

  /** The pointer every deletion installs. */
  const EMPTY: nat := 0

  /** A cell, the pointer its value is behind, and the pointers given out so far. */
  datatype Shared = Shared(cell: Cell, pointer: nat, given: nat)

  /** What a caller loaded. */
  datatype Seen = Seen(lease: Token, pointer: nat)

  datatype Race = Race(shared: Shared, callers: map<nat, Seen>)

  /** One store of an import. */
  datatype Part = NewValue(value: Option<Blob>) | NewLease(lease: Token) | NewChild(child: Blob)

  datatype Event = Load(i: nat) | Swap(i: nat, change: Change) | Store(part: Part)

  /** Three ways for an attempt to end: it goes through, it is refused on what it loaded, or the
      swap finds something else and the provider reports a conflict. */
  datatype Ending = Through(answer: Answer) | Turned(answer: Answer) | Lost

  function Tried(s: Shared, seen: Seen, change: Change): (Shared, Ending) {
    match change
    case Put(_) => TriedValue(s, seen, change, s.given + 1)
    case Delete => TriedValue(s, seen, change, EMPTY)
    case Acquire(_, _) => TriedLease(s, seen, change)
    case Renew(_, _, _) => TriedLease(s, seen, change)
    case _ =>
      var (cell, answer) := Changed(Memory, s.cell, change);
      (s.(cell := cell), if answer.Refused? then Turned(answer) else Through(answer))
  }

  function TriedValue(s: Shared, seen: Seen, change: Change, pointer: nat): (Shared, Ending) {
    if s.pointer != seen.pointer then (s, Lost)
    else (Shared(Changed(Memory, s.cell, change).0, pointer, s.given + 1), Through(Fine))
  }

  function TriedLease(s: Shared, seen: Seen, change: Change): (Shared, Ending) {
    var decided := Changed(Memory, Cell(None, {}, seen.lease), change);
    if decided.1.Refused? then (s, Turned(decided.1))
    else if s.cell.lease != seen.lease then (s, Lost)
    else (s.(cell := s.cell.(lease := decided.0.lease)), Through(decided.1))
  }

  /** An import's store goes in whatever is there. */
  function Stored(c: Cell, part: Part): Cell {
    match part
    case NewValue(value) => c.(value := value)
    case NewLease(lease) => c.(lease := lease)
    case NewChild(child) => c.(children := c.children + {child})
  }

  function StoredShared(s: Shared, part: Part): Shared {
    var cell := Stored(s.cell, part);
    if part.NewValue? then Shared(cell, s.given + 1, s.given + 1) else s.(cell := cell)
  }

  function Step(r: Race, e: Event): Race {
    match e
    case Load(i) => r.(callers := r.callers[i := Seen(r.shared.cell.lease, r.shared.pointer)])
    case Swap(i, change) =>
      if i in r.callers then Race(Tried(r.shared, r.callers[i], change).0, r.callers - {i}) else r
    case Store(part) => r.(shared := StoredShared(r.shared, part))
  }

  function Steps(r: Race, events: seq<Event>): Race {
    if events == [] then r else Step(Steps(r, events[..|events| - 1]), events[|events| - 1])
  }

  /** How the attempt that ends with event `e` ends. */
  function EndOf(r: Race, e: Event): Option<Ending> {
    if e.Swap? && e.i in r.callers then Some(Tried(r.shared, r.callers[e.i], e.change).1) else None
  }

  /** What took effect: changes that went through, and stores of imports. */
  datatype Effect = Made(change: Change) | Imported(part: Part)

  function EffectOf(r: Race, e: Event): seq<Effect> {
    var end := EndOf(r, e);
    if e.Store? then [Imported(e.part)]
    else if end.Some? && end.value.Through? then [Made(e.change)]
    else []
  }

  /** In the order of the swaps and stores. */
  function Effects(r: Race, events: seq<Event>): seq<Effect> {
    if events == [] then []
    else
      var front, e := events[..|events| - 1], events[|events| - 1];
      Effects(r, front) + EffectOf(Steps(r, front), e)
  }

  function Affected(c: Cell, effect: Effect): Cell {
    match effect
    case Made(change) => Changed(Memory, c, change).0
    case Imported(part) => Stored(c, part)
  }

  function AffectedBy(c: Cell, effects: seq<Effect>): Cell {
    if effects == [] then c else Affected(AffectedBy(c, effects[..|effects| - 1]), effects[|effects| - 1])
  }

  /** An attempt that goes through does at its swap exactly what the operation is specified to do;
      one that is refused was right to be, at its swap or when it loaded; only those that go
      through change anything; and only a caller that was overtaken loses. One that was not overtaken
      gets the specified answer. */
  lemma AttemptIsAtomic(s: Shared, seen: Seen, change: Change)
    ensures var (s', end) := Tried(s, seen, change);
            && (end.Through? ==> (s'.cell, end.answer) == Changed(Memory, s.cell, change))
            && (!end.Through? ==> s' == s)
            && (end.Turned? ==>
                  || end.answer == Changed(Memory, s.cell, change).1
                  || end.answer == Changed(Memory, s.cell.(lease := seen.lease), change).1)
            && (end.Turned? ==> end.answer.Refused?)
            && (end.Lost? ==> seen != Seen(s.cell.lease, s.pointer))
            && (seen == Seen(s.cell.lease, s.pointer) ==>
                  var answer := Changed(Memory, s.cell, change).1;
                  end == if answer.Refused? then Turned(answer) else Through(answer))
  {
  }

  lemma AffectedGrows(c: Cell, effects: seq<Effect>, effect: Effect)
    ensures AffectedBy(c, effects + [effect]) == Affected(AffectedBy(c, effects), effect)
  {
    var all := effects + [effect];
    assert all[..|all| - 1] == effects;
  }

  lemma StepIsEffect(r: Race, e: Event)
    ensures var effects := EffectOf(r, e);
            |effects| <= 1 &&
            Step(r, e).shared.cell == if effects == [] then r.shared.cell else Affected(r.shared.cell, effects[0])
  {
    if e.Swap? && e.i in r.callers { AttemptIsAtomic(r.shared, r.callers[e.i], e.change); }
  }

  /** Every interleaving leaves the cell that the changes that went through and the stores of imports,
      made one after another, leave. */
  lemma {:induction false} RacesRefine(r: Race, events: seq<Event>)
    ensures Steps(r, events).shared.cell == AffectedBy(r.shared.cell, Effects(r, events))
  {
    if events != [] {
      var front, e := events[..|events| - 1], events[|events| - 1];
      RacesRefine(r, front);
      var mid, before := Steps(r, front), Effects(r, front);
      StepIsEffect(mid, e);
      var last := EffectOf(mid, e);
      if last == [] {
        assert before + last == before;
      } else {
        assert last == [last[0]];
        AffectedGrows(r.shared.cell, before, last[0]);
      }
    }
  }

  /** The stores an import makes for one transfer, its children in some order. */
  function Transfer(t: Cell, children: seq<Blob>): seq<Effect> {
    [Imported(NewValue(t.value)), Imported(NewLease(t.lease))] +
      seq(|children|, i requires 0 <= i < |children| => Imported(NewChild(children[i])))
  }

  lemma {:induction false} ChildrenAreAdded(c: Cell, t: Cell, children: seq<Blob>)
    ensures AffectedBy(c, Transfer(t, children)) == Cell(t.value, c.children + (set x | x in children), t.lease)
    decreases |children|
  {
    if children == [] {
      var first := [Imported(NewValue(t.value))];
      assert [] + first == first && Transfer(t, children) == first + [Imported(NewLease(t.lease))];
      AffectedGrows(c, [], Imported(NewValue(t.value)));
      AffectedGrows(c, first, Imported(NewLease(t.lease)));
      assert c.children + (set x | x in children) == c.children;
    } else {
      var front, last := children[..|children| - 1], children[|children| - 1];
      ChildrenAreAdded(c, t, front);
      assert Transfer(t, children) == Transfer(t, front) + [Imported(NewChild(last))];
      AffectedGrows(c, Transfer(t, front), Imported(NewChild(last)));
      assert children == front + [last];
      assert (set x | x in children) == (set x | x in front) + {last};
    }
  }

  /** Made without a break, they are the transfer the provider is specified to receive. */
  lemma ImportIsReceive(c: Cell, t: Cell, children: seq<Blob>)
    requires (set x | x in children) == t.children
    ensures AffectedBy(c, Transfer(t, children)) == Changed(Memory, c, Receive(t)).0
  {
    ChildrenAreAdded(c, t, children);
  }

  /** Mutual exclusion over every interleaving: while a lease is neither given up, nor expired, nor
      imported over, it stays as it is and no racing attempt is granted it. */
  lemma {:induction false} RacesExclude(r: Race, events: seq<Event>, i: nat)
    requires r.shared.cell.lease != 0 && i <= |events|
    requires forall e :: e in events && e.Swap? ==> LeavesLease(e.change, r.shared.cell.lease)
    requires forall e :: e in events && e.Store? ==> !e.part.NewLease?
    ensures Steps(r, events[..i]).shared.cell.lease == r.shared.cell.lease
    ensures i < |events| ==>
              var end := EndOf(Steps(r, events[..i]), events[i]);
              end.Some? && end.value.Through? ==> !end.value.answer.Granted?
    decreases i
  {
    if i > 0 {
      RacesExclude(r, events, i - 1);
      assert events[..i][..i - 1] == events[..i - 1] && events[i - 1] in events;
    }
    assert i < |events| ==> events[i] in events;
  }

  /** Deletions share one pointer, so a put that was overtaken by a put and a deletion still goes
      through; it then comes last. */
  lemma OvertakenPutGoesThrough(s: Shared, v: Blob, w: Blob)
    requires s.pointer == EMPTY
    ensures var seen := Seen(s.cell.lease, s.pointer);
            var s1 := Tried(s, seen, Put(Some(w))).0;
            var s2 := Tried(s1, Seen(s1.cell.lease, s1.pointer), Delete).0;
            && s1.pointer != seen.pointer
            && Tried(s2, seen, Put(Some(v))).1 == Through(Fine) && Tried(s2, seen, Put(Some(v))).0.cell.value == Some(v)
  {
  }
}

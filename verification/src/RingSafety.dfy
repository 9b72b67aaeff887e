/** Pointers around joins and leaves: which stale pointers can exist, and that they never
    reach past a live member. */
module RingSafety {
  import opened Identifiers
  import opened RingOrder
  import opened Nodes
  import opened Calls
  import opened Membership

  /** The first entry of `q`'s successor list is `x`. */
  predicate Heads(net: Network, q: Id, x: Id) {
    q in net && net[q].succs != [] && net[q].succs[0] == x
  }

  /** The second entry of `q`'s successor list is `x`. */
  predicate Seconds(net: Network, q: Id, x: Id) {
    q in net && |net[q].succs| >= 2 && net[q].succs[1] == x
  }

  predicate Untouched(net: Network, j: Id) {
    j in net && net[j].succs == [] && net[j].pred == None && net[j].surrogate == None
  }

  /** A member, or one that has been a member. */
  predicate Enrolled(s: State, q: Id) {
    q in s.net && (q in s.ring || s.net[q].phase in {Leaving, Left})
  }

  /** `q` may be the predecessor pointer of member `x`: it may have left, but no member lies
      beyond it; and if it is a member it has `x` at the head of its list. */
  ghost predicate PredFits(s: State, x: Id, q: Id)
    requires x in s.net
  {
    && Clear(s.ring, q, x) && Enrolled(s, q)
    && (q in s.ring && s.net[x].phase != Joining ==> s.net[q].succs == [] || s.net[q].succs[0] == x)
  }

  ghost predicate PredOk(s: State, x: Id)
    requires x in s.net
  {
    s.net[x].pred.Some? ==> PredFits(s, x, s.net[x].pred.value)
  }

  ghost predicate SurrogateOk(s: State, x: Id)
    requires x in s.net
  {
    s.net[x].surrogate.Some? ==> s.net[x].surrogate.value != x && Clear(s.ring, s.net[x].surrogate.value, x)
  }

  /** The joiner has not been given its range. */
  predicate Waiting(op: Op) {
    op.Seeking? || op.Asking? || op.Locked? || op.Copied?
  }

  /** The joiner has been given its range but its predecessor may not know it yet. */
  predicate Entering(op: Op) {
    op.Admitted? || op.Listed? || op.Linked? || op.Advising?
  }

  /** The leaver has given up its range but still answers pointer queries. */
  predicate Exiting(op: Op) {
    op.Handed? || op.Telling? || op.Told?
  }

  /** `succs` may be the list of member `x`: its head is the successor, or the old successor of
      one entering, or one that is on its way out or gone, with the true successor next in line. */
  ghost predicate ArcFits(s: State, x: Id, succs: seq<Id>) {
    if succs == [] then
      exists o :: o in s.ops && s.ops[o].Admitted? && s.ops[o].j == x
    else
      || IsSuccessor(s.ring, x, succs[0])
      || (exists o :: o in s.ops && Entering(s.ops[o]) && s.ops[o].p == x && s.ops[o].s == succs[0])
      || (exists o :: o in s.ops && Exiting(s.ops[o]) && s.ops[o].p == x && s.ops[o].n == succs[0])
      || GoneArc(s, x, succs)
  }

  ghost predicate GoneArc(s: State, x: Id, succs: seq<Id>) {
    && |succs| >= 2 && succs[0] !in s.ring && succs[0] in s.net && s.net[succs[0]].phase == Left
    && IsSuccessor(s.ring, x, succs[1]) && Dist(x, succs[0]) < Dist(x, succs[1])
  }

  ghost predicate ArcOk(s: State, x: Id)
    requires x in s.net
  {
    ArcFits(s, x, s.net[x].succs)
  }

  ghost predicate Member(s: State, x: Id) {
    x in s.net && s.net[x].phase !in {Inactive, Left} && PredOk(s, x) && SurrogateOk(s, x) && ArcOk(s, x)
  }

  ghost predicate Outsider(s: State, x: Id) {
    && x in s.net && s.net[x].phase !in {Active, Transferring}
    && (s.net[x].phase in {Inactive, Joining} ==> Untouched(s.net, x))
  }

  ghost predicate EnteringOk(s: State, j: Id, x: Id, p: Id) {
    && j in s.ring && x in s.ring && p in s.ring && j in s.net && x in s.net
    && IsSuccessor(s.ring, p, j) && IsSuccessor(s.ring, j, x)
    && s.net[x].pred == Some(j) && s.net[x].surrogate.Some?
    && s.net[j].pred in {None, Some(p)}
    && (Heads(s.net, p, x) || Heads(s.net, p, j))
  }

  ghost predicate ExitingOk(s: State, n: Id, p: Id, x: Id) {
    && n in s.net && n !in s.ring && p in s.ring && x in s.ring
    && IsSuccessor(s.ring, p, x) && Dist(p, n) < Dist(p, x)
    && Heads(s.net, n, x) && Heads(s.net, p, n)
    && s.net[n].pred in {None, Some(p)}
  }

  /** A stabilize call of `p` that will put the joiner `j`, in front of `x`, at the head. */
  predicate Nearing(call: Call, p: Id, j: Id, x: Id) {
    match call
    case Began(y, rest) => y == p && rest != [] && rest[0] in {x, j}
    case SawPred(y, rest, nearer) =>
      && y == p && rest != []
      && (if rest[0] == x then nearer == Some(j) else rest[0] == j && nearer in {None, Some(p)})
    case SawList(y, _, closer) => y == p && closer == j
    case Ready(y, list) => y == p && list != [] && list[0] == j
    case _ => false
  }

  /** A stabilize call of `p` that will list `x` behind the leaver `n`. */
  predicate Closing(call: Call, p: Id, n: Id, x: Id) {
    match call
    case Began(y, rest) => y == p && rest != [] && rest[0] == n
    case SawPred(y, rest, nearer) => y == p && rest != [] && rest[0] == n && nearer in {None, Some(p)}
    case Ready(y, list) => y == p && |list| >= 2 && list[0] == n && list[1] == x
    case _ => false
  }

  /** What an operation relies on at each stage. */
  ghost predicate OpOk(s: State, o: nat)
    requires o in s.ops
  {
    match s.ops[o]
    case Seeking(j) => j !in s.ring && Untouched(s.net, j)
    case Asking(j, x) => j !in s.ring && Untouched(s.net, j) && x in s.ring
    case Locked(j, x, p) => LockedOk(s, j, x, p)
    case Copied(j, x, p) => LockedOk(s, j, x, p)
    case Admitted(j, x, p, list) => EnteringOk(s, j, x, p) && list != [] && list[0] == x && s.net[j].succs == []
    case Listed(j, x, p) => EnteringOk(s, j, x, p) && Heads(s.net, j, x)
    case Linked(j, x, p) => EnteringOk(s, j, x, p) && Heads(s.net, j, x)
    case Advising(j, x, p, c) => EnteringOk(s, j, x, p) && Heads(s.net, j, x) && JoinAdviceOk(s, j, x, p, c)
    case Advised(j, x, p) =>
      && j in s.ring && x in s.ring && p in s.ring
      && IsSuccessor(s.ring, p, j) && Heads(s.net, p, j)
    case Activated(j, x) => x in s.ring
    case Trying(_, _, _) => true
    case HoldsSucc(n, p, x) => x in s.ring
    case HoldsSelf(n, p, x) => n in s.ring
    case HoldsBoth(n, p, x) => n in s.ring && x in s.ring
    case Sent(n, p, x) => SentOk(s, n, p, x)
    case Handed(n, p, x) => ExitingOk(s, n, p, x)
    case Telling(n, p, x, c) => ExitingOk(s, n, p, x) && LeaveAdviceOk(s, n, p, x, c)
    case Told(n, p, x) => ExitingOk(s, n, p, x) && Seconds(s.net, p, x)
    case Departed(n, x) => x in s.ring
    case Unwinding(n, x) => x in s.ring
  }

  ghost predicate LockedOk(s: State, j: Id, x: Id, p: Id) {
    && j !in s.ring && Untouched(s.net, j) && x in s.ring && p in s.ring
    && IsSuccessor(s.ring, p, x) && Between(p, j, x, false) && Heads(s.net, p, x)
  }

  ghost predicate SentOk(s: State, n: Id, p: Id, x: Id) {
    && n in s.ring && x in s.ring && p in s.ring && n in s.net
    && IsSuccessor(s.ring, n, x) && IsSuccessor(s.ring, p, n)
    && Heads(s.net, n, x) && Heads(s.net, p, n)
    && s.net[n].pred in {None, Some(p)}
  }

  /** The advisory has done its work, or its call is on the way there. */
  predicate JoinAdviceOk(s: State, j: Id, x: Id, p: Id, c: nat) {
    Heads(s.net, p, j) || (c in s.calls && Nearing(s.calls[c], p, j, x))
  }

  predicate LeaveAdviceOk(s: State, n: Id, p: Id, x: Id, c: nat) {
    Seconds(s.net, p, x) || (c in s.calls && Closing(s.calls[c], p, n, x))
  }

  ghost predicate RingOk(s: State) {
    && s.ring != {} && s.ring <= s.net.Keys
    && (forall x {:trigger Member(s, x)} :: x in s.ring ==> Member(s, x))
    && (forall x {:trigger Outsider(s, x)} :: x in s.net && x !in s.ring ==> Outsider(s, x))
    && (forall o {:trigger OpOk(s, o)} :: o in s.ops ==> OpOk(s, o))
  }

  /** Locks are held and pointers are where joins, leaves and lookups rely on them. */
  ghost predicate Safe(s: State) {
    LockOk(s) && RingOk(s)
  }

  /** What a call relies on that no later step can take away. A predecessor found dead had been a
      member; a lookup that has moved on was started by a member; and the node a lookup has named
      owns the hash for as long as it has no surrogate. */
  ghost predicate CallOk(s: State, c: nat)
    requires c in s.calls
  {
    match s.calls[c]
    case Pinging(x, q) => x in s.net && (s.net[x].phase == Left || Enrolled(s, q))
    case Forgetting(x, q) => x in s.net && (s.net[x].phase == Left || (Enrolled(s, q) && s.net[q].phase != Joining))
    case Looking(x, _, at) => x in s.net && (at == x || Enrolled(s, x))
    case Found(x, h) => Enrolled(s, x) && (x in s.ring && s.net[x].surrogate.None? ==> IsOwner(s.ring, h, x))
    case _ => true
  }

  ghost predicate CallsOk(s: State) {
    forall c {:trigger CallOk(s, c)} :: c in s.calls ==> CallOk(s, c)
  }

  // ---- delayed writes -------------------------------------------------------------

  /** Operation `o` can live with call `c` replacing the list of `x` by `list`. */
  predicate OpAllowsList(s: State, o: nat, c: nat, x: Id, list: seq<Id>)
    requires o in s.ops && list != []
  {
    match s.ops[o]
    case Locked(_, y, p) => p == x ==> list[0] == y
    case Copied(_, y, p) => p == x ==> list[0] == y
    case Admitted(j, y, p, _) => p == x ==> list[0] in {y, j}
    case Listed(j, y, p) => (p == x ==> list[0] in {y, j}) && (j == x ==> list[0] == y)
    case Linked(j, y, p) => (p == x ==> list[0] in {y, j}) && (j == x ==> list[0] == y)
    case Advising(j, y, p, a) =>
      && (p == x ==> list[0] == j || (list[0] == y && a != c && a in s.calls && Nearing(s.calls[a], p, j, y)))
      && (j == x ==> list[0] == y)
    case Advised(j, _, p) => p == x ==> list[0] == j
    case Sent(n, p, y) => (p == x ==> list[0] == n) && (n == x ==> list[0] == y)
    case Handed(n, p, y) => (p == x ==> list[0] == n) && (n == x ==> list[0] == y)
    case Telling(n, p, y, a) =>
      && (p == x ==>
            list[0] == n && ((|list| >= 2 && list[1] == y) || (a != c && a in s.calls && Closing(s.calls[a], p, n, y))))
      && (n == x ==> list[0] == y)
    case Told(n, p, y) => (p == x ==> list[0] == n && |list| >= 2 && list[1] == y) && (n == x ==> list[0] == y)
    case _ => true
  }

  /** Member `m` takes `x` for its live predecessor. */
  predicate Names(s: State, m: Id, x: Id) {
    m in s.net && s.net[m].pred == Some(x) && s.net[m].phase != Joining
  }

  /** Installing `list` at `x`, however long ago it was read, leaves every node and operation with
      the pointers it relies on. */
  ghost predicate Installable(s: State, c: nat, x: Id, list: seq<Id>) {
    && x in s.net && list != []
    && (if x in s.ring then
          && s.net[x].succs != [] && ArcFits(s, x, list)
          && (forall m {:trigger Names(s, m, x)} :: m in s.ring && Names(s, m, x) ==> list[0] == m)
        else s.net[x].phase in {Leaving, Left})
    && (forall o {:trigger OpAllowsList(s, o, c, x, list)} :: o in s.ops ==> OpAllowsList(s, o, c, x, list))
  }

  /** Nobody is joining in front of `t`, and every remembered answer that names it is right. */
  ghost predicate Clearable(s: State, t: Id) {
    && (forall o :: o in s.ops && Entering(s.ops[o]) ==> s.ops[o].s != t)
    && (forall a :: a in s.calls && s.calls[a].Found? && s.calls[a].x == t ==> IsOwner(s.ring, s.calls[a].h, t))
  }

  /** No member lies between the new surrogate `x` and `t`; a node that clears its own surrogate can
      do without it. */
  ghost predicate Markable(s: State, t: Id, x: Id)
    requires t in s.net
  {
    if t !in s.ring then x == t || s.net[t].phase in {Leaving, Left}
    else if x == t then Clearable(s, t)
    else Clear(s.ring, x, t)
  }

  /** Operation `o` can live with `x` becoming the predecessor of `t`. */
  predicate OpAllowsPred(s: State, o: nat, t: Id, x: Id)
    requires o in s.ops
  {
    var op := s.ops[o];
    && (Entering(op) ==> (op.s == t ==> x == op.j) && (op.j == t ==> x == op.p))
    && (op.Sent? || Exiting(op) ==> op.n == t ==> x == op.p)
  }

  ghost predicate Adoptable(s: State, t: Id, x: Id)
    requires t in s.net
  {
    && (if t in s.ring then PredFits(s, t, x) else s.net[t].phase in {Leaving, Left})
    && (forall o {:trigger OpAllowsPred(s, o, t, x)} :: o in s.ops ==> OpAllowsPred(s, o, t, x))
  }

  /** What call `c` is about to write still fits. */
  ghost predicate Timely(s: State, c: nat)
    requires c in s.calls
  {
    match s.calls[c]
    case Ready(x, list) => Installable(s, c, x, list)
    case Decided(x, t, g, _) => t in s.net && s.net[t].surrogate == g ==> Markable(s, t, x)
    case Marked(x, t, p) => t in s.net && s.net[t].pred == p ==> Adoptable(s, t, x)
    case _ => true
  }

  /** Key hand-offs start from repaired neighbours: a joiner is accepted by a node whose predecessor
      pointer names a live member, and a leaver copies its keys while its own pointers name its live
      neighbours. */
  ghost predicate NeighboursRepaired(s: State, e: Event)
    requires Can(s, e)
  {
    match e
    case AcceptJoin(o) => s.net[s.ops[o].s].pred.value in s.ring
    case CopyDown(o) =>
      var op := s.ops[o];
      op.p in s.ring && s.net[op.n].pred == Some(op.p) && Heads(s.net, op.n, op.s) && IsSuccessor(s.ring, op.n, op.s)
    case _ => true
  }

  /** The assumption on runs: hand-offs start from repaired neighbours, and what a call writes long
      after reading still fits. */
  ghost predicate Repaired(s: State, e: Event)
    requires Can(s, e)
  {
    NeighboursRepaired(s, e) && (e.Proceed? ==> Timely(s, e.c))
  }

  // ---- facts about arcs ---------------------------------------------------------

  lemma AloneOwnsAll(ring: set<Id>, x: Id, h: Id)
    requires x in ring && Clear(ring, x, x)
    ensures IsOwner(ring, h, x)
  {
    forall m | m in ring ensures m == x { assert Dist(x, x) <= Dist(x, m); }
  }

  /** Only one member can see `z` next. */
  lemma SamePredecessor(ring: set<Id>, a: Id, b: Id, z: Id)
    requires a in ring && b in ring && z in ring && Clear(ring, a, z) && Clear(ring, b, z)
    ensures a == b
  {
    NeighboursAgree(ring, a, z);
    NeighboursAgree(ring, b, z);
    PredecessorUnique(ring, z, a, b);
  }

  /** Only one member precedes a point that is not a member. */
  lemma SameGap(ring: set<Id>, a: Id, z: Id, b: Id, y: Id, q: Id)
    requires a in ring && b in ring && IsSuccessor(ring, a, z) && IsSuccessor(ring, b, y)
    requires Dist(a, q) < Dist(a, z) && Dist(b, q) < Dist(b, y)
    ensures a == b
  {
    assert Dist(a, z) <= Dist(a, b) && Dist(b, y) <= Dist(b, a);
  }

  /** An arc that does not end at the new member's successor stays clear. */
  lemma ClearGrows(ring: set<Id>, j: Id, x: Id, q: Id, m: Id)
    requires Clear(ring, q, m) && m in ring && m != x && IsSuccessor(ring, j, x)
    ensures Clear(ring + {j}, q, m)
  {
    assert Dist(j, x) <= Dist(j, m);
    assert Dist(q, m) <= Dist(q, x);
    if Dist(q, j) < Dist(q, m) { DistSplits(q, j, m); }
  }

  lemma JoinSplitsArc(ring: set<Id>, p: Id, j: Id, x: Id)
    requires p in ring && IsSuccessor(ring, p, x) && Between(p, j, x, false)
    ensures IsSuccessor(ring, j, x)
    ensures IsSuccessor(ring + {j}, p, j) && IsSuccessor(ring + {j}, j, x)
    ensures forall m, y :: m in ring && m != p && IsSuccessor(ring, m, y) ==> IsSuccessor(ring + {j}, m, y)
  {
    BetweenIsDistance(p, j, x);
    DistSplits(p, j, x);
    forall m | m in ring ensures Dist(j, x) <= Dist(j, m) { assert Dist(p, x) <= Dist(p, m); }
    forall m, y | m in ring && m != p && IsSuccessor(ring, m, y) ensures IsSuccessor(ring + {j}, m, y) {
      if y == x {
        SamePredecessor(ring, m, p, x);
      } else {
        ClearGrows(ring, j, x, m, y);
      }
    }
  }

  lemma LeaveMergesArc(ring: set<Id>, p: Id, n: Id, x: Id)
    requires p in ring && n in ring && x in ring && n != x
    requires IsSuccessor(ring, p, n) && IsSuccessor(ring, n, x)
    ensures p in ring - {n} && IsSuccessor(ring - {n}, p, x) && Dist(p, n) < Dist(p, x)
    ensures forall m, y :: Clear(ring, m, y) ==> Clear(ring - {n}, m, y)
  {
    assert Dist(p, n) <= Dist(p, x);
    assert Dist(n, x) <= Dist(n, p);
    forall m | m in ring - {n} ensures Dist(p, x) <= Dist(p, m) {
      assert Dist(p, n) <= Dist(p, m) && Dist(n, x) <= Dist(n, m);
    }
  }
}

/** Joins and leaves as a transition system: one transition per remote read or lock-protected
    section, any number of operations interleaved with any number of background calls. */
module Membership {
  import opened Identifiers
  import opened Nodes
  import opened SuccessorLists
  import opened Routing
  import opened FingerTables
  import opened Calls

  /** An operation under way. Joiner `j` enters before `s`, whose predecessor was `p`;
      leaver `n` hands its keys to `s` and advises `p`, which runs stabilize as call `c`. */
  datatype Op =
    | Seeking(j: Id)
    | Asking(j: Id, s: Id)
    | Locked(j: Id, s: Id, p: Id)
    | Copied(j: Id, s: Id, p: Id)
    | Admitted(j: Id, s: Id, p: Id, list: seq<Id>)
    | Listed(j: Id, s: Id, p: Id)
    | Linked(j: Id, s: Id, p: Id)
    | Advising(j: Id, s: Id, p: Id, c: nat)
    | Advised(j: Id, s: Id, p: Id)
    | Activated(j: Id, s: Id)
    | Trying(n: Id, p: Id, s: Id)
    | HoldsSucc(n: Id, p: Id, s: Id)
    | HoldsSelf(n: Id, p: Id, s: Id)
    | HoldsBoth(n: Id, p: Id, s: Id)
    | Sent(n: Id, p: Id, s: Id)
    | Handed(n: Id, p: Id, s: Id)
    | Telling(n: Id, p: Id, s: Id, c: nat)
    | Told(n: Id, p: Id, s: Id)
    | Departed(n: Id, s: Id)
    | Unwinding(n: Id, s: Id)

  /** `net`, `ops` and `calls` are the program's state. `ring` records who owns key ranges and
      `data` what clients have stored; no transition reads either of them. */
  datatype State = State(
    hash: Key -> Id, net: Network, ops: map<nat, Op>, calls: map<nat, Call>, ring: set<Id>, data: map<Key, Entry>)

  datatype Event =
    | BeginJoin(o: nat, j: Id)
    | LockForJoin(o: nat, s: Id)
    | AcceptJoin(o: nat)
    | RefuseJoin(o: nat)
    | CopyUp(o: nat)
    | Admit(o: nat)
    | TakeList(o: nat)
    | TakePred(o: nat)
    | AdviseJoin(o: nat, c: nat)
    | EndJoinAdvice(o: nat)
    | Activate(o: nat)
    | ReleaseJoin(o: nat)
    | GiveUpJoin(o: nat)
    | BeginLeave(o: nat, n: Id)
    | LockSuccFirst(o: nat)
    | LockSelf(o: nat)
    | LockSuccSecond(o: nat)
    | BackOff(o: nat)
    | CopyDown(o: nat)
    | FailTransfer(o: nat)
    | Unwind(o: nat)
    | HandOver(o: nat)
    | AdviseLeave(o: nat, c: nat)
    | EndLeaveAdvice(o: nat)
    | Depart(o: nat)
    | ReleaseLeave(o: nat)
    | GiveUpLeave(o: nat)
    | BeginStabilize(c: nat, x: Id)
    | BeginCheck(c: nat, x: Id)
    | BeginRequest(c: nat, x: Id, h: Id)
    | Proceed(c: nat)
    | Write(c: nat, k: Key, v: Option<Entry>)
    | SetFingers(x: Id, fingers: Fingers)

  function SetPhase(net: Network, x: Id, phase: Phase): Network
    requires x in net
  {
    net[x := net[x].(phase := phase)]
  }

  /** Releasing a membership lock; nothing happens unless the node is Transferring. */
  function Release(net: Network, x: Id): Network
    requires x in net
  {
    if net[x].phase == Transferring then SetPhase(net, x, Active) else net
  }

  /** The part of a store whose hashes lie in the arc from `low` to `high`. */
  function InRange(hash: Key -> Id, store: map<Key, Entry>, low: Id, high: Id): map<Key, Entry> {
    map k | k in store && Between(low, hash(k), high, true) :: store[k]
  }

  function OutOfRange(hash: Key -> Id, store: map<Key, Entry>, low: Id, high: Id): map<Key, Entry> {
    map k | k in store && !Between(low, hash(k), high, true) :: store[k]
  }

  /** What a node does with a client request. */
  datatype Decision = Local | Surrogate(to: Id) | Remote(to: Id) | Stale | Fails(error: Error)

  /** The part of the gate that runs under the surrogate lock, once the lookup has named `x`. */
  function Gate(node: Node, x: Id, h: Id): Decision {
    if node.phase != Active then Stale
    else if node.surrogate.Some? && Between(x, h, node.surrogate.value, true) then Surrogate(node.surrogate.value)
    else if node.pred.Some? && !Between(node.pred.value, h, x, true) then Stale
    else Local
  }

  /** The whole gate in front of the local store of `x`, with nothing else running. */
  function Middleware(net: Network, x: Id, h: Id): Decision
    requires x in net
  {
    match FindSuccessor(Still(net), 0, x, h).outcome
    case Err(error) => if error == Gone then Stale else Fails(error)
    case Ok(succ) => if succ != x then Remote(succ) else Gate(net[x], x, h)
  }

  /** A request for hash `h`, made with nothing else running, reaches the local store of `x`. */
  predicate Serves(net: Network, x: Id, h: Id) {
    x in net && Middleware(net, x, h) == Local
  }

  /** Request `c` has reached the local store of `x`: its lookup, made some time ago and hop by
      hop, named `x`, and the gate lets it through now. */
  predicate Serving(s: State, c: nat, x: Id, h: Id) {
    c in s.calls && s.calls[c] == Found(x, h) && x in s.net && Gate(s.net[x], x, h) == Local
  }

  predicate JoinEvent(e: Event) {
    || e.BeginJoin? || e.LockForJoin? || e.AcceptJoin? || e.RefuseJoin? || e.CopyUp? || e.Admit?
    || e.TakeList? || e.TakePred? || e.AdviseJoin? || e.EndJoinAdvice? || e.Activate? || e.ReleaseJoin? || e.GiveUpJoin?
  }

  predicate LeaveEvent(e: Event) {
    || e.BeginLeave? || e.LockSuccFirst? || e.LockSelf? || e.LockSuccSecond? || e.BackOff? || e.CopyDown?
    || e.FailTransfer? || e.Unwind? || e.HandOver? || e.AdviseLeave? || e.EndLeaveAdvice? || e.Depart?
    || e.ReleaseLeave? || e.GiveUpLeave?
  }

  // ---- when a transition is possible ----------------------------------------

  /** The successor knows its predecessor and the joiner falls between the two. */
  predicate InPlace(s: State, op: Op)
    requires op.Asking? && op.s in s.net
  {
    s.net[op.s].pred.Some? && Between(s.net[op.s].pred.value, op.j, op.s, false)
  }

  /** The program's own guards. */
  predicate Can(s: State, e: Event) {
    match e
    case BeginJoin(o, j) => o !in s.ops && j in s.net && s.net[j].phase == Inactive
    case LockForJoin(o, x) =>
      && o in s.ops && s.ops[o].Seeking? && x in s.net && x != s.ops[o].j && s.net[x].phase == Active
    case AcceptJoin(o) => o in s.ops && s.ops[o].Asking? && s.ops[o].s in s.net && InPlace(s, s.ops[o])
    case RefuseJoin(o) =>
      && o in s.ops && (s.ops[o].Locked? || s.ops[o].Asking?) && s.ops[o].s in s.net
      && (s.ops[o].Asking? ==> !InPlace(s, s.ops[o]))
    case CopyUp(o) => o in s.ops && s.ops[o].Locked? && s.ops[o].s in s.net && s.ops[o].j in s.net
    case Admit(o) => o in s.ops && s.ops[o].Copied? && s.ops[o].s in s.net
    case TakeList(o) => o in s.ops && s.ops[o].Admitted? && s.ops[o].j in s.net
    case TakePred(o) => o in s.ops && s.ops[o].Listed? && s.ops[o].j in s.net
    case AdviseJoin(o, c) => o in s.ops && s.ops[o].Linked? && s.ops[o].p in s.net && c !in s.calls
    case EndJoinAdvice(o) => o in s.ops && s.ops[o].Advising? && s.ops[o].c !in s.calls
    case Activate(o) => o in s.ops && s.ops[o].Advised? && s.ops[o].j in s.net
    case ReleaseJoin(o) => o in s.ops && s.ops[o].Activated? && s.ops[o].s in s.net
    case GiveUpJoin(o) => o in s.ops && s.ops[o].Seeking? && s.ops[o].j in s.net
    case BeginLeave(o, n) =>
      && o !in s.ops && n in s.net && s.net[n].phase !in {Inactive, Leaving, Left}
      && s.net[n].pred.Some? && s.net[n].succs != [] && s.net[n].succs[0] in s.net
      && !(s.net[n].pred.value == n && s.net[n].succs[0] == n)
    case LockSuccFirst(o) =>
      && o in s.ops && s.ops[o].Trying? && s.ops[o].n > s.ops[o].s
      && s.ops[o].s in s.net && s.net[s.ops[o].s].phase == Active
    case LockSelf(o) =>
      && o in s.ops && (s.ops[o].HoldsSucc? || (s.ops[o].Trying? && s.ops[o].n <= s.ops[o].s))
      && s.ops[o].n in s.net && s.net[s.ops[o].n].phase == Active
    case LockSuccSecond(o) =>
      && o in s.ops && s.ops[o].HoldsSelf? && s.ops[o].s in s.net && s.net[s.ops[o].s].phase == Active
    case BackOff(o) =>
      && o in s.ops && (s.ops[o].HoldsSucc? || s.ops[o].HoldsSelf?)
      && s.ops[o].s in s.net && s.ops[o].n in s.net
    case CopyDown(o) => o in s.ops && s.ops[o].HoldsBoth? && s.ops[o].n in s.net && s.ops[o].s in s.net
    case FailTransfer(o) => o in s.ops && s.ops[o].HoldsBoth? && s.ops[o].n in s.net
    case Unwind(o) => o in s.ops && s.ops[o].Unwinding? && s.ops[o].s in s.net
    case HandOver(o) => o in s.ops && s.ops[o].Sent? && s.ops[o].n in s.net
    case AdviseLeave(o, c) => o in s.ops && s.ops[o].Handed? && s.ops[o].p in s.net && c !in s.calls
    case EndLeaveAdvice(o) => o in s.ops && s.ops[o].Telling? && s.ops[o].c !in s.calls
    case Depart(o) => o in s.ops && s.ops[o].Told? && s.ops[o].n in s.net
    case ReleaseLeave(o) => o in s.ops && s.ops[o].Departed? && s.ops[o].s in s.net
    case GiveUpLeave(o) => o in s.ops && s.ops[o].Trying?
    case BeginStabilize(c, x) => c !in s.calls && x in s.net
    case BeginCheck(c, x) => c !in s.calls && x in s.net
    case BeginRequest(c, x, _) => c !in s.calls && x in s.net
    case Proceed(c) => c in s.calls
    case Write(c, k, _) => c in s.calls && Serving(s, c, s.calls[c].x, s.hash(k))
    case SetFingers(x, _) => x in s.net
  }

  // ---- what it does -----------------------------------------------------------

  function Step(s: State, e: Event): State
    requires Can(s, e)
  {
    if JoinEvent(e) then JoinStep(s, e) else if LeaveEvent(e) then LeaveStep(s, e) else CallStep(s, e)
  }

  function JoinStep(s: State, e: Event): State
    requires Can(s, e) && JoinEvent(e)
  {
    match e
    case BeginJoin(o, j) => DoBeginJoin(s, o, j)
    case LockForJoin(o, x) => DoLockForJoin(s, o, x)
    case AcceptJoin(o) => DoAcceptJoin(s, o)
    case RefuseJoin(o) => DoRefuseJoin(s, o)
    case CopyUp(o) => DoCopyUp(s, o)
    case Admit(o) => DoAdmit(s, o)
    case TakeList(o) => DoTakeList(s, o)
    case TakePred(o) => DoTakePred(s, o)
    case AdviseJoin(o, c) => DoAdviseJoin(s, o, c)
    case EndJoinAdvice(o) => DoEndJoinAdvice(s, o)
    case Activate(o) => DoActivate(s, o)
    case ReleaseJoin(o) => s.(net := Release(s.net, s.ops[o].s), ops := s.ops - {o})
    case GiveUpJoin(o) => s.(net := SetPhase(s.net, s.ops[o].j, Inactive), ops := s.ops - {o})
  }

  function LeaveStep(s: State, e: Event): State
    requires Can(s, e) && LeaveEvent(e)
  {
    match e
    case BeginLeave(o, n) => s.(ops := s.ops[o := Trying(n, s.net[n].pred.value, s.net[n].succs[0])])
    case LockSuccFirst(o) => DoLockSuccFirst(s, o)
    case LockSelf(o) => DoLockSelf(s, o)
    case LockSuccSecond(o) => DoLockSuccSecond(s, o)
    case BackOff(o) => DoBackOff(s, o)
    case CopyDown(o) => DoCopyDown(s, o)
    case FailTransfer(o) => DoFailTransfer(s, o)
    case Unwind(o) => s.(net := Release(s.net, s.ops[o].s), ops := s.ops - {o})
    case HandOver(o) => DoHandOver(s, o)
    case AdviseLeave(o, c) => DoAdviseLeave(s, o, c)
    case EndLeaveAdvice(o) => DoEndLeaveAdvice(s, o)
    case Depart(o) => DoDepart(s, o)
    case ReleaseLeave(o) => s.(net := Release(s.net, s.ops[o].s), ops := s.ops - {o})
    case GiveUpLeave(o) => s.(ops := s.ops - {o})
  }

  function CallStep(s: State, e: Event): State
    requires Can(s, e) && !JoinEvent(e) && !LeaveEvent(e)
  {
    match e
    case BeginStabilize(c, x) => DoBegin(s, c, Began(x, s.net[x].succs))
    case BeginCheck(c, x) => DoBegin(s, c, Checking(x))
    case BeginRequest(c, x, h) => DoBegin(s, c, Looking(x, h, x))
    case Proceed(c) => DoProceed(s, c)
    case Write(c, k, v) => DoWrite(s, c, k, v)
    case SetFingers(x, fingers) => s.(net := s.net[x := s.net[x].(fingers := fingers)])
  }

  function DoBeginJoin(s: State, o: nat, j: Id): State
    requires j in s.net
  {
    s.(net := SetPhase(s.net, j, Joining), ops := s.ops[o := Seeking(j)])
  }

  function DoLockForJoin(s: State, o: nat, x: Id): State
    requires o in s.ops && s.ops[o].Seeking? && x in s.net
  {
    s.(net := SetPhase(s.net, x, Transferring), ops := s.ops[o := Asking(s.ops[o].j, x)])
  }

  function DoAcceptJoin(s: State, o: nat): State
    requires o in s.ops && s.ops[o].Asking? && s.ops[o].s in s.net && s.net[s.ops[o].s].pred.Some?
  {
    s.(ops := s.ops[o := Locked(s.ops[o].j, s.ops[o].s, s.net[s.ops[o].s].pred.value)])
  }

  function DoRefuseJoin(s: State, o: nat): State
    requires o in s.ops && (s.ops[o].Locked? || s.ops[o].Asking?) && s.ops[o].s in s.net
  {
    s.(net := SetPhase(s.net, s.ops[o].s, Active), ops := s.ops[o := Seeking(s.ops[o].j)])
  }

  /** The joiner imports the keys it is about to own; the successor still has them. */
  function DoCopyUp(s: State, o: nat): State
    requires o in s.ops && s.ops[o].Locked? && s.ops[o].s in s.net && s.ops[o].j in s.net
  {
    var op := s.ops[o];
    var moved := InRange(s.hash, s.net[op.s].store, op.p, op.j);
    s.(net := s.net[op.j := s.net[op.j].(store := s.net[op.j].store + moved)],
       ops := s.ops[o := Copied(op.j, op.s, op.p)])
  }

  /** The successor drops those keys and makes the joiner its predecessor and surrogate. */
  function DoAdmit(s: State, o: nat): State
    requires o in s.ops && s.ops[o].Copied? && s.ops[o].s in s.net
  {
    var op := s.ops[o];
    var node := s.net[op.s];
    s.(net := s.net[op.s := node.(
          pred := Some(op.j), surrogate := Some(op.j), store := OutOfRange(s.hash, node.store, op.p, op.j))],
       ops := s.ops[o := Admitted(op.j, op.s, op.p, MakeSuccList(op.s, node.succs))],
       ring := s.ring + {op.j})
  }

  function DoTakeList(s: State, o: nat): State
    requires o in s.ops && s.ops[o].Admitted? && s.ops[o].j in s.net
  {
    var op := s.ops[o];
    s.(net := s.net[op.j := s.net[op.j].(succs := op.list)], ops := s.ops[o := Listed(op.j, op.s, op.p)])
  }

  function DoTakePred(s: State, o: nat): State
    requires o in s.ops && s.ops[o].Listed? && s.ops[o].j in s.net
  {
    var op := s.ops[o];
    s.(net := s.net[op.j := s.net[op.j].(pred := Some(op.p))], ops := s.ops[o := Linked(op.j, op.s, op.p)])
  }

  /** The old predecessor is asked to stabilize. */
  function DoAdviseJoin(s: State, o: nat, c: nat): State
    requires o in s.ops && s.ops[o].Linked? && s.ops[o].p in s.net
  {
    var op := s.ops[o];
    s.(calls := s.calls[c := Began(op.p, s.net[op.p].succs)], ops := s.ops[o := Advising(op.j, op.s, op.p, c)])
  }

  function DoEndJoinAdvice(s: State, o: nat): State
    requires o in s.ops && s.ops[o].Advising?
  {
    s.(ops := s.ops[o := Advised(s.ops[o].j, s.ops[o].s, s.ops[o].p)])
  }

  function DoActivate(s: State, o: nat): State
    requires o in s.ops && s.ops[o].Advised? && s.ops[o].j in s.net
  {
    s.(net := SetPhase(s.net, s.ops[o].j, Active), ops := s.ops[o := Activated(s.ops[o].j, s.ops[o].s)])
  }

  function DoLockSuccFirst(s: State, o: nat): State
    requires o in s.ops && s.ops[o].Trying? && s.ops[o].s in s.net
  {
    var op := s.ops[o];
    s.(net := SetPhase(s.net, op.s, Transferring), ops := s.ops[o := HoldsSucc(op.n, op.p, op.s)])
  }

  function DoLockSelf(s: State, o: nat): State
    requires o in s.ops && (s.ops[o].HoldsSucc? || s.ops[o].Trying?) && s.ops[o].n in s.net
  {
    var op := s.ops[o];
    s.(net := SetPhase(s.net, op.n, Leaving),
       ops := s.ops[o := if op.HoldsSucc? then HoldsBoth(op.n, op.p, op.s) else HoldsSelf(op.n, op.p, op.s)])
  }

  function DoLockSuccSecond(s: State, o: nat): State
    requires o in s.ops && s.ops[o].HoldsSelf? && s.ops[o].s in s.net
  {
    var op := s.ops[o];
    s.(net := SetPhase(s.net, op.s, Transferring), ops := s.ops[o := HoldsBoth(op.n, op.p, op.s)])
  }

  /** The other lock was refused: the one held is given back and the attempt ends. */
  function DoBackOff(s: State, o: nat): State
    requires o in s.ops && (s.ops[o].HoldsSucc? || s.ops[o].HoldsSelf?)
    requires s.ops[o].s in s.net && s.ops[o].n in s.net
  {
    var op := s.ops[o];
    s.(net := if op.HoldsSucc? then Release(s.net, op.s) else SetPhase(s.net, op.n, Active), ops := s.ops - {o})
  }

  function DoCopyDown(s: State, o: nat): State
    requires o in s.ops && s.ops[o].HoldsBoth? && s.ops[o].n in s.net && s.ops[o].s in s.net
  {
    var op := s.ops[o];
    s.(net := s.net[op.s := s.net[op.s].(store := s.net[op.s].store + s.net[op.n].store)],
       ops := s.ops[o := Sent(op.n, op.p, op.s)])
  }

  function DoFailTransfer(s: State, o: nat): State
    requires o in s.ops && s.ops[o].HoldsBoth? && s.ops[o].n in s.net
  {
    var op := s.ops[o];
    s.(net := SetPhase(s.net, op.n, Active), ops := s.ops[o := Unwinding(op.n, op.s)])
  }

  function DoHandOver(s: State, o: nat): State
    requires o in s.ops && s.ops[o].Sent? && s.ops[o].n in s.net
  {
    var op := s.ops[o];
    s.(net := s.net[op.n := s.net[op.n].(surrogate := Some(op.n), store := map[])],
       ops := s.ops[o := Handed(op.n, op.p, op.s)],
       ring := s.ring - {op.n})
  }

  function DoAdviseLeave(s: State, o: nat, c: nat): State
    requires o in s.ops && s.ops[o].Handed? && s.ops[o].p in s.net
  {
    var op := s.ops[o];
    s.(calls := s.calls[c := Began(op.p, s.net[op.p].succs)], ops := s.ops[o := Telling(op.n, op.p, op.s, c)])
  }

  function DoEndLeaveAdvice(s: State, o: nat): State
    requires o in s.ops && s.ops[o].Telling?
  {
    s.(ops := s.ops[o := Told(s.ops[o].n, s.ops[o].p, s.ops[o].s)])
  }

  function DoDepart(s: State, o: nat): State
    requires o in s.ops && s.ops[o].Told? && s.ops[o].n in s.net
  {
    s.(net := SetPhase(s.net, s.ops[o].n, Left), ops := s.ops[o := Departed(s.ops[o].n, s.ops[o].s)])
  }

  function DoBegin(s: State, c: nat, call: Call): State {
    s.(calls := s.calls[c := call])
  }

  /** The next action of a background call. */
  function DoProceed(s: State, c: nat): State
    requires c in s.calls
  {
    var next := Goes(s.net, s.calls[c]);
    s.(net := Writes(s.net, s.calls[c]), calls := if next.Some? then s.calls[c := next.value] else s.calls - {c})
  }

  /** A client write (or delete) that has reached the local store. */
  function DoWrite(s: State, c: nat, k: Key, v: Option<Entry>): State
    requires c in s.calls && s.calls[c].x in s.net
  {
    var x, calls := s.calls[c].x, s.calls - {c};
    var node := s.net[x];
    match v
    case Some(entry) =>
      s.(net := s.net[x := node.(store := node.store[k := entry])], calls := calls, data := s.data[k := entry])
    case None => s.(net := s.net[x := node.(store := node.store - {k})], calls := calls, data := s.data - {k})
  }

  /** Every finite run the guards allow. */
  ghost predicate Runs(s: State, events: seq<Event>, s': State)
    decreases |events|
  {
    if events == [] then s' == s
    else Can(s, events[0]) && Runs(Step(s, events[0]), events[1..], s')
  }

  // ---- membership locks -------------------------------------------------------

  /** The phase operation `op` has put node `x` into and must take it out of again. */
  function Claim(op: Op, x: Id): Option<Phase> {
    if (op.Seeking? || op.Asking? || op.Locked? || op.Copied? || op.Admitted? || op.Listed? || op.Linked?
        || op.Advising? || op.Advised?)
      && x == op.j
    then Some(Joining)
    else if (op.HoldsSelf? || op.HoldsBoth? || op.Sent? || op.Handed? || op.Telling? || op.Told?) && x == op.n
    then Some(Leaving)
    else if !(op.Seeking? || op.Trying? || op.HoldsSelf?) && x == op.s
    then Some(Transferring)
    else None
  }

  /** A membership phase is held by exactly one operation, and operations hold what they claim. */
  ghost predicate LockOk(s: State) {
    && (forall o, x {:trigger Claim(s.ops[o], x)} :: o in s.ops && Claim(s.ops[o], x).Some? ==>
          x in s.net && s.net[x].phase == Claim(s.ops[o], x).value)
    && (forall o, o', x {:trigger Claim(s.ops[o], x), Claim(s.ops[o'], x)} ::
          o in s.ops && o' in s.ops && Claim(s.ops[o], x).Some? && Claim(s.ops[o'], x).Some? ==> o == o')
    && (forall x {:trigger Held(s, x)} :: x in s.net && s.net[x].phase in {Joining, Transferring, Leaving} ==>
      Held(s, x))
    && (forall o {:trigger Distinct(s.ops[o])} :: o in s.ops ==> Distinct(s.ops[o]))
  }

  ghost predicate Held(s: State, x: Id) {
    exists o :: o in s.ops && Claim(s.ops[o], x).Some?
  }

  /** The two nodes an operation locks are different. */
  predicate Distinct(op: Op) {
    match op
    case Seeking(_) => true
    case Asking(j, x) => j != x
    case Locked(j, x, _) => j != x
    case Copied(j, x, _) => j != x
    case Admitted(j, x, _, _) => j != x
    case Listed(j, x, _) => j != x
    case Linked(j, x, _) => j != x
    case Advising(j, x, _, _) => j != x
    case Advised(j, x, _) => j != x
    case Activated(j, x) => j != x
    case Trying(_, _, _) => true
    case HoldsSucc(n, _, x) => n != x
    case HoldsSelf(_, _, _) => true
    case HoldsBoth(n, _, x) => n != x
    case Sent(n, _, x) => n != x
    case Handed(n, _, x) => n != x
    case Telling(n, _, x, _) => n != x
    case Told(n, _, x) => n != x
    case Departed(n, x) => n != x
    case Unwinding(n, x) => n != x
  }

  function ClaimOf(op: Option<Op>, x: Id): Option<Phase> {
    if op.Some? then Claim(op.value, x) else None
  }

  predicate Membershiplike(phase: Phase) {
    phase in {Joining, Transferring, Leaving}
  }

  /** Operation `o` goes from `before` to `after` (absent at either end) and phases change only to
      match: what it takes was free, what it gives up becomes free. */
  ghost predicate Reclaims(s: State, s': State, o: nat, before: Option<Op>, after: Option<Op>) {
    && s'.net.Keys == s.net.Keys
    && (before.Some? <==> o in s.ops) && (before.Some? ==> s.ops[o] == before.value)
    && (after.Some? <==> o in s'.ops) && (after.Some? ==> s'.ops[o] == after.value && Distinct(after.value))
    && (forall o' :: o' != o ==> (o' in s'.ops <==> o' in s.ops) && (o' in s.ops ==> s'.ops[o'] == s.ops[o']))
    && forall x {:trigger Shifts(s, s', before, after, x)} :: Shifts(s, s', before, after, x)
  }

  predicate Shifts(s: State, s': State, before: Option<Op>, after: Option<Op>, x: Id) {
    && (ClaimOf(after, x).Some? ==> x in s'.net && s'.net[x].phase == ClaimOf(after, x).value)
    && (x in s.net && x in s'.net ==>
          var busy, busy' := Membershiplike(s.net[x].phase), Membershiplike(s'.net[x].phase);
          if ClaimOf(before, x).Some?
          then ClaimOf(after, x).None? ==> !busy'
          else if ClaimOf(after, x).Some? then !busy
          else s'.net[x].phase == s.net[x].phase || !(busy || busy'))
  }

  /** An operation other than `o` keeps everything it claimed. */
  lemma OthersKeepClaims(s: State, s': State, o: nat, before: Option<Op>, after: Option<Op>, o': nat, x: Id)
    requires LockOk(s) && Reclaims(s, s', o, before, after)
    requires o' in s'.ops && o' != o && Claim(s'.ops[o'], x).Some?
    ensures x in s'.net && s'.net[x].phase == Claim(s'.ops[o'], x).value && ClaimOf(after, x).None?
  {
    assert Claim(s.ops[o'], x).Some? && x in s.net;
    assert Membershiplike(s.net[x].phase);
    assert Shifts(s, s', before, after, x);
    if before.Some? { assert Claim(s.ops[o], x).None?; }
  }

  lemma StillHeld(s: State, s': State, o: nat, before: Option<Op>, after: Option<Op>, x: Id)
    requires LockOk(s) && Reclaims(s, s', o, before, after)
    requires x in s'.net && Membershiplike(s'.net[x].phase)
    ensures Held(s', x)
  {
    assert Shifts(s, s', before, after, x);
    if ClaimOf(after, x).Some? {
      assert Claim(s'.ops[o], x).Some?;
    } else {
      assert x in s.net && Held(s, x);
      var o' :| o' in s.ops && Claim(s.ops[o'], x).Some?;
      assert Claim(s'.ops[o'], x).Some?;
    }
  }

  lemma StillClaimed(s: State, s': State, o: nat, before: Option<Op>, after: Option<Op>, o': nat, x: Id)
    requires LockOk(s) && Reclaims(s, s', o, before, after)
    requires o' in s'.ops && Claim(s'.ops[o'], x).Some?
    ensures x in s'.net && s'.net[x].phase == Claim(s'.ops[o'], x).value
  {
    if o' == o { assert Shifts(s, s', before, after, x); } else { OthersKeepClaims(s, s', o, before, after, o', x); }
  }

  lemma ClaimsStayApart(s: State, s': State, o: nat, before: Option<Op>, after: Option<Op>, o': nat, o'': nat, x: Id)
    requires LockOk(s) && Reclaims(s, s', o, before, after)
    requires o' in s'.ops && o'' in s'.ops && Claim(s'.ops[o'], x).Some? && Claim(s'.ops[o''], x).Some?
    ensures o' == o''
  {
    if o' != o && o'' != o {
      assert Claim(s.ops[o'], x).Some? && Claim(s.ops[o''], x).Some?;
    } else if o' != o {
      OthersKeepClaims(s, s', o, before, after, o', x);
    } else if o'' != o {
      OthersKeepClaims(s, s', o, before, after, o'', x);
    }
  }

  lemma ReclaimKeepsLocks(s: State, s': State, o: nat, before: Option<Op>, after: Option<Op>)
    requires LockOk(s) && Reclaims(s, s', o, before, after)
    ensures LockOk(s')
  {
    forall o', x | o' in s'.ops && Claim(s'.ops[o'], x).Some?
      ensures x in s'.net && s'.net[x].phase == Claim(s'.ops[o'], x).value
    {
      StillClaimed(s, s', o, before, after, o', x);
    }
    forall o', o'', x | o' in s'.ops && o'' in s'.ops && Claim(s'.ops[o'], x).Some? && Claim(s'.ops[o''], x).Some?
      ensures o' == o''
    {
      ClaimsStayApart(s, s', o, before, after, o', o'', x);
    }
    forall x | x in s'.net && s'.net[x].phase in {Joining, Transferring, Leaving} ensures Held(s', x) {
      StillHeld(s, s', o, before, after, x);
    }
    forall o' | o' in s'.ops ensures Distinct(s'.ops[o']) { if o' != o { assert Distinct(s.ops[o']); } }
  }
}

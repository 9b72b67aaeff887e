/** Node records and the outcomes shared by the ring protocols. */
module Nodes {
  import opened Identifiers

  datatype Option<+T> = None | Some(value: T)

  /** Life cycle of a node. */
  datatype Phase = Inactive | Joining | Active | Transferring | Leaving | Left

  datatype Error = NotStarted | Gone | NoSuccessor | Unreachable | Unstable

  datatype Result<+T> = Ok(value: T) | Err(error: Error)

  type Key = seq<int>

  /** Everything stored under one key; opaque to the ring. */
  type Entry = seq<int>

  /** Slot 0 of the finger table is unused, as in the program. */
  type Fingers = f: seq<Option<Id>> | |f| == FINGERS + 1 witness seq(FINGERS + 1, _ => None)

  datatype Node = Node(
    phase: Phase,
    pred: Option<Id>,
    succs: seq<Id>,
    surrogate: Option<Id>,
    fingers: Fingers,
    store: map<Key, Entry>)

  type Network = map<Id, Node>

  /** Whether a node refuses requests; a leaving node still answers when `leavingIsError` is false. */
  function CheckState(phase: Phase, leavingIsError: bool): Option<Error> {
    match phase
    case Inactive => Some(NotStarted)
    case Leaving => if leavingIsError then Some(Gone) else None
    case Left => Some(Gone)
    case _ => None
  }

  predicate Answers(phase: Phase) {
    CheckState(phase, false) == None
  }
}

/** The background calls of a node, one remote read or locked write at a time: stabilize with
    its Notify, the predecessor check, and the lookup in front of a client request. */
module Calls {
  import opened Identifiers
  import opened Nodes
  import opened SuccessorLists
  import opened Stabilization
  import opened Routing

  /** How far a call of `x` has got, and what it remembers from the reads it has made. */
  datatype Call =
    | Began(x: Id, rest: seq<Id>)
    | SawPred(x: Id, rest: seq<Id>, nearer: Option<Id>)
    | SawList(x: Id, list: seq<Id>, closer: Id)
    | Ready(x: Id, list: seq<Id>)
    | Installed(x: Id, t: Id)
    | Notifying(x: Id, t: Id)
    | SawSurrogate(x: Id, t: Id, surrogate: Option<Id>)
    | Probing(x: Id, t: Id, surrogate: Option<Id>, q: Id)
    | Decided(x: Id, t: Id, surrogate: Option<Id>, pred: Option<Id>)
    | Marked(x: Id, t: Id, pred: Option<Id>)
    | Checking(x: Id)
    | Pinging(x: Id, q: Id)
    | Forgetting(x: Id, q: Id)
    | Looking(x: Id, h: Id, at: Id)
    | Found(x: Id, h: Id)

  /** What the next action writes. The list is replaced whatever it has become meanwhile; the
      surrogate, the predecessor and a dead predecessor only if they are still what was read. */
  function Writes(net: Network, call: Call): (net': Network)
    ensures net'.Keys == net.Keys
    ensures forall y {:trigger net'[y]} :: y in net ==>
      net'[y].phase == net[y].phase && net'[y].store == net[y].store && net'[y].fingers == net[y].fingers
  {
    match call
    case Ready(x, list) => if x in net then net[x := net[x].(succs := list)] else net
    case Decided(x, t, g, _) =>
      if t in net && net[t].surrogate == g then
        net[t := net[t].(surrogate := if x == t then None else Some(x))]
      else net
    case Marked(x, t, p) => if t in net && net[t].pred == p then net[t := net[t].(pred := Some(x))] else net
    case Forgetting(x, q) => if x in net && net[x].pred == Some(q) then net[x := net[x].(pred := None)] else net
    case _ => net
  }

  /** What the call knows afterwards; None when it is over. */
  function Goes(net: Network, call: Call): (next: Option<Call>)
    ensures next.Some? ==> next.value.x == call.x
  {
    match call
    case Began(x, rest) =>
      if rest == [] then None
      else if Responds(net, rest[0]) then Some(SawPred(x, rest, net[rest[0]].pred))
      else Some(Began(x, rest[1..]))
    case SawPred(x, rest, nearer) =>
      if rest == [] then None
      else if !Responds(net, rest[0]) then Some(Began(x, rest[1..]))
      else
        var list := MakeSuccList(rest[0], net[rest[0]].succs);
        if nearer.Some? && Between(x, nearer.value, rest[0], false) then Some(SawList(x, list, nearer.value))
        else Some(Ready(x, list))
    case SawList(x, list, closer) =>
      Some(Ready(x, if Responds(net, closer) then MakeSuccList(closer, net[closer].succs) else list))
    case Ready(x, list) => if list == [] then None else Some(Installed(x, list[0]))
    case Installed(x, t) => if Pings(net, x) then Some(Notifying(x, t)) else None
    case Notifying(x, t) => if Responds(net, t) then Some(SawSurrogate(x, t, net[t].surrogate)) else None
    case SawSurrogate(x, t, g) =>
      if t !in net || net[t].pred == Some(x) then None
      else if net[t].pred.None? then Some(Decided(x, t, g, None))
      else Some(Probing(x, t, g, net[t].pred.value))
    case Probing(x, t, g, q) =>
      if !Pings(net, q) || Between(q, x, t, false) then Some(Decided(x, t, g, Some(q))) else None
    case Decided(x, t, g, p) => Some(Marked(x, t, p))
    case Marked(_, _, _) => None
    case Checking(x) =>
      if x in net && net[x].pred.Some? && net[x].pred.value != x then Some(Pinging(x, net[x].pred.value)) else None
    case Pinging(x, q) => if Pings(net, q) then None else Some(Forgetting(x, q))
    case Forgetting(_, _) => None
    case Looking(x, h, at) =>
      if at !in net then None
      else
        (match Route(at, net[at], h)
         case Answer(id) => if id == x then Some(Found(x, h)) else None
         case Forward(closest) => Some(Looking(x, h, closest))
         case Fail(_) => None)
    case Found(_, _) => None
  }
}

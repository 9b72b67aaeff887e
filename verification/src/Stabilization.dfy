/** Pointer repair: stabilize, Notify and the predecessor check, one call at a time. */
module Stabilization {
  import opened Identifiers
  import opened Nodes
  import opened SuccessorLists

  /** A node that replies to pointer queries; a leaving node still does. */
  predicate Responds(net: Network, n: Id) {
    n in net && Answers(net[n].phase)
  }

  /** The liveness probe; a leaving node counts as gone. */
  predicate Pings(net: Network, n: Id) {
    n in net && CheckState(net[n].phase, true) == None
  }

  /** The predecessor a Notify from `caller` would install at `target`. */
  function Candidate(net: Network, target: Id, caller: Id): Option<Id>
    requires target in net
  {
    match net[target].pred
    case None => Some(caller)
    case Some(p) =>
      if p == caller then None
      else if !Pings(net, p) || Between(p, caller, target, false) then Some(caller)
      else None
  }

  /** Notify: the new predecessor also becomes the surrogate, unless it is the node itself. */
  function Notified(net: Network, target: Id, caller: Id): Network {
    if !Responds(net, target) || Candidate(net, target, caller).None? then net
    else
      net[target := net[target].(
          pred := Some(caller),
          surrogate := if caller == target then None else Some(caller))]
  }

  /** The list stabilize settles on: the first responsive entry, or its predecessor if nearer. */
  function Refreshed(net: Network, n: Id, list: seq<Id>): Option<seq<Id>> {
    if list == [] then None
    else
      var head := list[0];
      if !Responds(net, head) then Refreshed(net, n, list[1..])
      else if net[head].pred.Some? && Between(n, net[head].pred.value, head, false) &&
        Responds(net, net[head].pred.value)
        then Some(MakeSuccList(net[head].pred.value, net[net[head].pred.value].succs))
      else Some(MakeSuccList(head, net[head].succs))
  }

  /** A whole stabilize call of `n`, with nothing else running. */
  function Stabilized(net: Network, n: Id): Network
    requires n in net
  {
    match Refreshed(net, n, net[n].succs)
    case None => net
    case Some(list) =>
      var net' := net[n := net[n].(succs := list)];
      if list != [] && Pings(net', n) then Notified(net', list[0], n) else net'
  }

  class StabilizeTask {
    var net: Network

    constructor (net: Network)
      ensures this.net == net
    {
      this.net := net;
    }

    /** The periodic task: dead entries are skipped one by one until some entry responds. */
    method Stabilize(n: Id) returns (r: Option<Error>)
      requires n in net
      modifies this
      ensures net == Stabilized(old(net), n)
      ensures r == Some(NoSuccessor) <==> forall x :: x in old(net)[n].succs ==> !Responds(old(net), x)
    {
      var succList := net[n].succs;
      var modified := false;
      while |succList| > 0
        invariant !modified
        invariant net == old(net)
        invariant Refreshed(net, n, net[n].succs) == Refreshed(net, n, succList)
        invariant forall x :: x in succList ==> x in net[n].succs
        invariant forall x :: x in net[n].succs ==> x in succList || !Responds(net, x)
        decreases |succList|
      {
        var head := succList[0];
        if Responds(net, head) {
          var newSucc := net[head].pred;
          succList := MakeSuccListByID(head, net[head].succs, EXTENDED);
          modified := true;
          if newSucc.Some? && Between(n, newSucc.value, head, false) && Responds(net, newSucc.value) {
            succList := MakeSuccListByID(newSucc.value, net[newSucc.value].succs, EXTENDED);
          }
          assert Refreshed(net, n, net[n].succs) == Some(succList);
          break;
        }
        succList := succList[1..];
      }
      if !modified { return Some(NoSuccessor); }
      net := net[n := net[n].(succs := succList)];
      if Pings(net, n) {
        var succ := succList[0];
        if !Responds(net, succ) { return Some(Gone); }
        net := Notified(net, succ, n);
      }
      return None;
    }
  }
}

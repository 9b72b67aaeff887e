/** Successor lists: bounded, without repetition. */
module SuccessorLists {
  import opened Identifiers

  const EXTENDED: nat := 4

  /** The first `room` entries of `xs` that are neither in `seen` nor repeated. */
  function Fresh(seen: set<Id>, xs: seq<Id>, room: nat): (r: seq<Id>)
    ensures |r| <= room
    decreases |xs|
  {
    if xs == [] || room == 0 then []
    else if xs[0] in seen then Fresh(seen, xs[1..], room)
    else [xs[0]] + Fresh(seen + {xs[0]}, xs[1..], room - 1)
  }

  function MakeSuccList(immediate: Id, successors: seq<Id>): (r: seq<Id>)
    ensures 1 <= |r| <= EXTENDED && r[0] == immediate
  {
    [immediate] + Fresh({immediate}, successors, EXTENDED - 1)
  }

  method MakeSuccListByID(immediate: Id, successors: seq<Id>, maxLen: nat) returns (succList: seq<Id>)
    ensures succList == [immediate] + Fresh({immediate}, successors, if maxLen == 0 then 0 else maxLen - 1)
  {
    succList := [immediate];
    var seen := {immediate};
    var i := 0;
    while i < |successors|
      invariant 0 <= i <= |successors|
      invariant |succList| >= 1
      invariant |succList| <= maxLen || |succList| == 1
      invariant succList + Fresh(seen, successors[i..], if |succList| <= maxLen then maxLen - |succList| else 0)
             == [immediate] + Fresh({immediate}, successors, if maxLen == 0 then 0 else maxLen - 1)
    {
      if |succList| >= maxLen { break; }
      var succ := successors[i];
      assert successors[i..][1..] == successors[i + 1..];
      if succ !in seen {
        seen := seen + {succ};
        succList := succList + [succ];
      }
      i := i + 1;
    }
  }

  /** Entries are distinct, new, taken from the input; and none is dropped while room remains. */
  lemma {:induction false} FreshIsDistinct(seen: set<Id>, xs: seq<Id>, room: nat)
    ensures var r := Fresh(seen, xs, room);
            && (forall i, j :: 0 <= i < j < |r| ==> r[i] != r[j])
            && (forall x :: x in r ==> x in xs && x !in seen)
            && (|r| < room ==> forall x :: x in xs && x !in seen ==> x in r)
    decreases |xs|
  {
    if xs != [] && room > 0 {
      if xs[0] in seen {
        FreshIsDistinct(seen, xs[1..], room);
      } else {
        FreshIsDistinct(seen + {xs[0]}, xs[1..], room - 1);
      }
    }
  }

  /** Where `x` first stands in `xs`, or its length. */
  function FirstAt(xs: seq<Id>, x: Id): (i: nat)
    ensures i <= |xs| && (i < |xs| <==> x in xs)
  {
    if xs == [] || xs[0] == x then 0 else 1 + FirstAt(xs[1..], x)
  }

  /** Entries come in the order of the input, and nothing is passed over for a later one. */
  lemma {:induction false} FreshIsInOrder(seen: set<Id>, xs: seq<Id>, room: nat)
    ensures var r := Fresh(seen, xs, room);
            && (forall i, j :: 0 <= i < j < |r| ==> FirstAt(xs, r[i]) < FirstAt(xs, r[j]))
            && (forall x, y :: x in r && y in xs && y !in seen && FirstAt(xs, y) < FirstAt(xs, x) ==> y in r)
    decreases |xs|
  {
    FreshIsDistinct(seen, xs, room);
    if xs != [] && room > 0 {
      if xs[0] in seen {
        FreshIsInOrder(seen, xs[1..], room);
      } else {
        FreshIsInOrder(seen + {xs[0]}, xs[1..], room - 1);
        FreshIsDistinct(seen + {xs[0]}, xs[1..], room - 1);
      }
    }
  }

  /** A list never repeats a node, and the first other entry keeps second place. */
  lemma MakeSuccListDistinct(immediate: Id, successors: seq<Id>)
    ensures var r := MakeSuccList(immediate, successors);
            && (forall i, j :: 0 <= i < j < |r| ==> r[i] != r[j])
            && (forall x :: x in r ==> x == immediate || x in successors)
            && (|r| < EXTENDED ==> forall x :: x in successors ==> x in r)
    ensures successors != [] && successors[0] != immediate ==>
              |MakeSuccList(immediate, successors)| >= 2 && MakeSuccList(immediate, successors)[1] == successors[0]
  {
    FreshIsDistinct({immediate}, successors, EXTENDED - 1);
  }
}

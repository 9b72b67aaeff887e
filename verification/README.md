# Specter, verified

A Dafny model of Specter, a distributed key-value store on a Chord ring with replicated
configuration, and proofs about it. Check everything with `dafny verify dfyconfig.toml`.

The ring is a map from identifier to node record (phase, predecessor, successor list, surrogate,
fingers, store). Protocols that run on several nodes at once are state machines whose transitions
are the program's lock-protected sections, remote reads and compare-and-swaps; results about them
hold for every interleaving, or for every one that meets a stated condition. Objects one caller works
on at a time are classes whose methods are proved against functions on their contents, and those
functions carry the theorems.

| area | modules |
|---|---|
| identifiers, neighbours, owners | `Identifiers`, `RingOrder`, `Nodes` |
| lookup, fingers, the ring walk | `Routing`, `FingerTables`, `FingerRepair`, `FingersAtRest` |
| stabilization, one read or write at a time | `SuccessorLists`, `Stabilization`, `Calls`, `Convergence`, `TrueRing` |
| joins, leaves and their locks | `Membership`, `MembershipLocks`, `NodeStates` |
| pointers, requests and keys under churn | `RingSafety`, `DelayedWrites`, `RingRepair`, `RingHandOff`, `Requests`, `KeySafety`, `FreshCalls`, `OverlappingCalls`, `LastWrites`, `Gateway` |
| whole runs, good and bad | `Traces`, `WholeCalls`, `Churn`, `FailedAttempts`, `SmallRings`, `StaleHandOff`, `DelayedRepair` |
| connection reuse | `Negotiation` |
| configuration documents | `Versions`, `Base64Url`, `Tokens`, `Documents`, `ConfigStore`, `Replication`, `ConfigRounds` |
| key-value providers | `KeyValue`, `MemoryStore`, `MemoryRaces`, `SqliteStore`, `KvAgreement`, `CellHistory`, `WriteAheadLog`, `LogHistory` |
| web protection | `Waf`, `WafPolicy` |

The main results:

- **One map under churn.** Joins, leaves, stabilize and Notify calls, predecessor checks, lookups
  and client writes interleave one remote read or locked section at a time, each call acting on what
  it read earlier. Take any run from a fresh ring in which hand-offs start from repaired neighbours
  and no node's place in the ring changes while that node has a stabilize or Notify call under way;
  calls overlap each other, and the joins and leaves of other nodes, in any way. In every state of
  it all requests for a key that have reached a store have reached the same one, however long ago
  their lookups were made; it holds the value clients last stored, and no other store holds the key
  (`OverlappingCalls.UndisturbedServesOneMap`); that value is what the last write of the key in the
  run gave it, nothing after a deletion (`LastWrites.ServesLastWrite`). Any number of overlapping
  calls, with joins and leaves stopped at any stage, never do harm
  (`OverlappingCalls.CallsAloneFit`). Any finite sequence of joins and leaves completes and ends
  with each key at its owner, none lost, copied or changed (`Churn.ChurnSettles`), and one that is
  refused or fails part way leaves no trace (`FailedAttempts`).
- **What the condition is for.** The same holds of every run whose delayed pointer writes fit when they
  are made (`KeySafety.ServesOneMap`), and each such write keeps the ring safe if and only if it fits
  (`DelayedWrites.InstallSafeIff`, `MarkSafeIff`, `AdoptSafeIff`). The program does not check this
  when it writes: from every fresh ring, a stabilize call overtaken by a join, a Notify overtaken by
  two, or a node's Notify to itself overtaken by two joins and a leave, leads to two nodes serving the
  same keys (`DelayedRepair`). Nor does it check that neighbours are live: from every fresh ring there
  are runs in which a join or a leave then misplaces a key, and `StaleHandOff` says exactly when that
  happens.
- **Where requests go.** At rest every member serves exactly what it owns and sends everything else to
  its owner (`Gateway.MembersDecide`); after a join the successor passes the whole arc it handed over
  on to the joiner (`Gateway.JoinRedirects`). In the middle of churn a request is passed on past no
  member, and rightly so exactly when a member lies between the hash and that node, it included; that can fail, for
  after a leave a node passes keys it owns on to the leaver until its next repair
  (`Gateway.ForwardedIsAhead`, `Gateway.ForwardedToNobody`).
- **Membership locks.** Over every interleaving, with no assumption on pointers, a node is
  Transferring exactly when one join or leave holds it. The lone-node shortcut of a leave breaks
  this exactly when the node is not Active (`MembershipLocks`).
- **Lookup.** Every lookup ends, in any network that changes in any way between hops; on a ring with
  right successors it finds the owner whatever members the fingers hold; with exact fingers it is
  forwarded at most 48 times (`Routing`). Fingers that name nodes that have left come right: after `r`
  rounds of passes the first `r` fingers of every member are exact, provided entries lie at or beyond
  their targets, as a pass writes them (`FingerRepair.FingersRecover`); one that lies before its target
  can stay wrong for ever (`FingerRepair.StuckForever`).
- **Stabilization.** Each change of an immediate pointer lowers the sum of distances; the ring is at
  rest exactly when predecessors and successors match up; it is the true ring exactly when the sum
  is two full turns. A ring at rest that is not the true ring exists (`TrueRing.RestIsNotAlwaysRight`);
  a ring at rest is the true one exactly when the sum is below four turns (`TrueRing.RestIsRightIff`).
- **Connection reuse.** In every interleaving both endpoints reach the same outcome for each
  connection, cache the same one and close the spare exactly once, and every negotiation finishes
  within seven moves (`Negotiation`).
- **Configuration.** Version bytes sort as versions compare; a token is accepted exactly when it is
  the token of a positive version of that document; no token lets two edits through; replicas that
  keep exchanging with the peers they know and are connected to, skipping what a peer has
  acknowledged, all end with the greatest version of each document if that graph is connected, whichever
  way its links point (`Replication.ReplicasConverge`). It takes a round of each side: rounds of one
  side alone are skipped after its acknowledgement and never bring it the other's edits
  (`ConfigRounds.TwoRoundsLevel`, `ConfigRounds.OneSideStalls`). The server lists every connected
  peer (internal/server/shared_config.go:21-39), so both sides run rounds.
- **Providers.** The memory and SQLite stores refine one table and give the same results for the
  same calls, exactly outside three differences; after any sequence of changes a value, a child and
  a lease are what the last change that concerns them says (`CellHistory`); the SQLite key index is
  exact; a lease excludes everyone else, also when callers of the memory store race
  (`MemoryRaces.RacesExclude`). The append-only store replays any surviving log prefix, and loses
  exactly the empty values a put wrote last (`WriteAheadLog.ReplayIsExactIff`,
  `WriteAheadLog.EmptyValueIsLost`).
- **Web protection.** The variant cache agrees with direct compilation, never exceeds 32 entries and
  evicts only the least recently used one; policy normalisation disables the same rules.

Where code and documentation disagree the model follows the code. `stabilize` cites the paper "How to
Make Chord Correct" (chord/local_tasks.go:42); from arbitrary matching pointers it does not restore
the ring, as `TrueRing.RestIsNotAlwaysRight` shows, and its late writes can break it, as
`DelayedRepair` shows. Rejoining and leaving are meant to wait for repaired pointers
(chord/local_membership.go:144-157), but neither checks that the pointer it relies on is live, as
`StaleHandOff` shows. The append-only provider implements the same interface as the others
(kv/aof/kv.go:166) but does not keep an empty value across a restart.

## Model

| member | source | states |
|---|---|---|
| `Identifiers.BetweenIsDistance` | spec/chord/chord.go:28-35 | the interval test, wrap-around included, is a comparison of clockwise distances, for both the inclusive and the exclusive form |
| `Identifiers.DistIsResidue` | spec/chord/chord.go:10-12 | those distances are residues modulo 2^48 |
| `Identifiers.ModuloSumMoves` | spec/chord/chord.go:19-22 | adding an offset modulo 2^48 moves exactly that far clockwise, a full turn included |
| `RingOrder.OwnerIffInRange` | chord/local_kv.go:81-84 | the range test against the true predecessor holds exactly for the keys a node owns |
| `Routing.ClosestPrecedingNode` | chord/local_chord.go:155-185 | the descending scan returns the highest finger strictly between the node and the key, and the node itself only when no finger is |
| `Routing.Route` | chord/local_chord.go:129-153 | a forward, the fallback to the successor included, goes to another node strictly closer to the key, whatever the node's pointers hold |
| `Routing.RouteSound` | chord/local_chord.go:129-153 | on a ring with right successors one decision names the owner or forwards to a member |
| `Routing.LookupFindsOwner` | chord/local_chord.go:129-185 | from any member a lookup returns the unique owner, with predecessors right or unknown and any members or nothing in the fingers, even if these change between hops |
| `Routing.ForwardHalves` | chord/local_chord.go:145-185 | with exact fingers a forward halves the power-of-two bound on the gap to the key's predecessor |
| `Routing.HopsBounded` | chord/local_chord.go:145-185 | a lookup whose gap is below 2^b is forwarded at most b times |
| `Routing.AtMost48Forwards` | chord/local_chord.go:145-185 | with exact fingers every lookup is forwarded at most 48 times |
| `FingerTables.FingerTask.FixFinger` | chord/local_tasks.go:128-143 | the pass leaves the network the specification function gives and reports exactly the fingers that changed |
| `FingerTables.FixKExact` | chord/local_tasks.go:108-126 | one repaired finger is the owner of its target, whatever members the tables held, and the ring stays routable |
| `FingerTables.PassMakesFingersExact` | chord/local_tasks.go:128-143 | one pass makes every finger exact, keeps the ring routable and touches no other node |
| `FingerTables.SettledLookups` | chord/local_tasks.go:108-143 | once every member has run a pass, in any order, every lookup finds the owner within 48 forwards |
| `FingerRepair.LookupIsSound` | chord/local_chord.go:129-185 | on a ring with right successors and silent outsiders a lookup that does not fail finds the owner, whatever the fingers hold |
| `FingerRepair.NearLookup` | chord/local_chord.go:129-185 | with the first b fingers exact everywhere a lookup for a key within 2^b of a member does not fail, although other fingers name departed nodes |
| `FingerRepair.FingersRecover` | chord/local_tasks.go:108-143 | whatever departed nodes the fingers name at or beyond their targets, after r rounds of passes in any order the first r fingers of every member are exact |
| `FingerRepair.LookupsRecover` | chord/local_tasks.go:108-143 | after 48 rounds every lookup finds the owner within 48 forwards |
| `FingerRepair.StuckForever` | chord/local_tasks.go:108-143 | a finger that names a departed node before its target, with no higher finger there and no neighbour that settles the lookup, is never repaired by any number of rounds |
| `FingersAtRest.FingersSettle` | chord/local_tasks.go:108-143 | from rest, 48 rounds of single finger repairs reach rest with every finger on the ring, and then every member decides rightly about every hash |
| `FingerTables.Walk` | chord/local_kv.go:207-233 | the walk always ends; a walk that succeeds lists distinct nodes, each the answer to the previous lookup, the caller last; on a settled ring it lists every member once in clockwise order |
| `SuccessorLists.MakeSuccListByID` | spec/chord/chord.go:38-54 | the loop builds the immediate successor followed by the first entries not seen before, up to the limit |
| `SuccessorLists.MakeSuccListDistinct` | spec/chord/chord.go:38-54 | the list never repeats a node and keeps the first other entry second |
| `SuccessorLists.FreshIsInOrder` | spec/chord/chord.go:38-54 | entries come in the order of the input, and none is passed over for a later one |
| `Stabilization.StabilizeTask.Stabilize` | chord/local_tasks.go:43-97 | the loop over dead heads, the optional closer head, the list update and the notification, with nothing in between, give the specified network; it reports no successor exactly when nobody in the list answers |
| `Calls.Writes` | chord/local_tasks.go:79-84 | one action of a stabilize call, a Notify, a predecessor check or a lookup never touches a phase, a store or a finger of any node |
| `Convergence.StepKeepsValid` | chord/local_tasks.go:43-97 | without churn every single action of any call keeps pointers inside the ring |
| `Convergence.StepDescends` | chord/local_chord.go:43-117 | an action that changes an immediate pointer strictly lowers the sum of distances, any other leaves all immediate pointers alone |
| `Convergence.ChangesAreBounded` | chord/local_tasks.go:43-97 | in every schedule the changes made are paid for by the fall of the sum, so they are finitely many |
| `Convergence.SoloCall` | chord/local_tasks.go:43-97 | a call run alone, action by action, does what the whole call is defined to do |
| `Convergence.QuietIffPaired` | chord/local_tasks.go:43-97 | from idle, no schedule moves a pointer any more if and only if every node is the predecessor of its successor |
| `TrueRing.LeastPotentialIffTrueRing` | chord/local_tasks.go:43-97 | the sum of distances is at least two full turns, and equal to that exactly when every successor and predecessor is the true one |
| `TrueRing.ChangesWithinSlack` | chord/local_tasks.go:43-97 | every schedule makes at most as many changes as the sum exceeds two full turns, and none on a true ring |
| `TrueRing.RestIsNotAlwaysRight` | chord/local_tasks.go:43-97 | four nodes whose pointers match up while going round twice stay so under every schedule |
| `TrueRing.PairedPotential` | chord/local_tasks.go:43-97 | matching pointers go round the circle a whole number of times, as often in each direction |
| `TrueRing.RestIsRightIff` | chord/local_tasks.go:43-97 | a ring at rest is the true ring if and only if the sum of distances is below four turns |
| `TrueRing.LightRingsComeRight` | chord/local_tasks.go:43-97 | every schedule that starts below four turns and comes to rest has found the true ring |
| `NodeStates.NodeState.constructor` | chord/node_state.go:17-27 | a new node state has the initial phase as its whole history |
| `NodeStates.NodeState.Transition` | chord/node_state.go:29-40 | with one caller it succeeds exactly when the current phase is the expected one, extends the history by the new phase, and returns the current phase either way |
| `NodeStates.NodeState.Set` | chord/node_state.go:42-49 | with one caller the retry loop ends and extends the history by the phase |
| `NodeStates.NodeState.Get` | chord/node_state.go:51-53 | the low four bits are the last phase of the history |
| `NodeStates.NodeState.History` | chord/node_state.go:55-62 | the recorded entries in index order are the full sequence of phases |
| `NodeStates.Unpack` | chord/node_state.go:29-40 | shifting and masking recover index and phase |
| `NodeStates.SwapSucceedsIff` | chord/node_state.go:29-40 | with any number of callers a swap goes through exactly when the word has not changed at all since it was loaded and holds the expected phase |
| `NodeStates.RunKeepsGood` | chord/node_state.go:29-40 | every interleaving of loads, swaps and records keeps each published version either recorded or about to be recorded by exactly one caller |
| `NodeStates.HistoryIsComplete` | chord/node_state.go:29-62 | in every interleaving of fewer than 2^60 transitions, whenever no caller sits between its swap and its record the history is the full sequence of phases |
| `NodeStates.SetRetriesOnlyIfOvertaken` | chord/node_state.go:42-49 | with any number of callers an attempt of the retry loop fails only if another caller's transition went through since the attempt read the phase |
| `MembershipLocks.StepKeepsLocks` | chord/local_membership.go:43-332 | every transition of every join, leave and repair keeps each Joining, Transferring and Leaving node held by exactly one operation |
| `MembershipLocks.RunKeepsLocks` | chord/local_membership.go:43-332 | so does every run from a freshly created ring |
| `MembershipLocks.TransferringIffHeldOnce` | chord/local_membership.go:118-198 | in every reachable state a node is Transferring if and only if exactly one join or leave holds its lock |
| `MembershipLocks.ReleaseFindsTransferring` | chord/local_membership.go:174-214 | every release finds the successor Transferring and makes it Active |
| `MembershipLocks.PhaseChangesAreOwned` | chord/local_membership.go:43-76 | a phase is overwritten only from Inactive or Active, or by the operation that put it there |
| `MembershipLocks.FailedLeaveRestores` | chord/local_membership.go:288-327 | backing off or failing the transfer returns every node the attempt held to Active, or leaves only the successor to the unwinding step |
| `MembershipLocks.LoneLeaveSafeIffActive` | chord/local_membership.go:282-285 | the shortcut of a node that is its own neighbour respects the locks exactly when the node is Active |
| `MembershipLocks.LoneLeaveCanBreakALock` | chord/local_membership.go:282-285 | a run in which a joiner holds the lone node, it leaves anyway, and the release finds it gone |
| `RingRepair.RefreshIsGood` | chord/local_tasks.go:50-75 | from the pointers of any one moment of any joins and leaves a member with a list computes one that starts with its successor, or with a leaver that still answers and whose successor comes next; one without a list finds nothing |
| `RingRepair.RefreshFits` | chord/local_tasks.go:50-84 | a list computed from the present pointers can be installed, at any node and at any moment |
| `RingRepair.GoodListFits` | chord/local_tasks.go:79-84 | so can a list computed long ago whose head is still the successor, or a leaver with its successor next |
| `RingRepair.NotifyFits` | chord/local_chord.go:43-73 | a member whose list is right may become predecessor and surrogate of the node it lists first |
| `DelayedWrites.InstallSafeIff` | chord/local_tasks.go:79-84 | writing a list read at any earlier time keeps locks and pointers safe if and only if it still fits: the node's own arc, the members that name the node, and every operation under way |
| `DelayedWrites.MarkSafeIff` | chord/local_chord.go:58-66 | a surrogate compared and set after any delay keeps locks, pointers and remembered answers right if and only if no member lies between the two nodes, or, for a node's Notify to itself, which clears it, nobody is joining in front of the node and every answer that names it is right |
| `DelayedWrites.OtherMarkSafeIff` | chord/local_chord.go:58-66 | for another node's surrogate locks and pointers alone decide |
| `DelayedWrites.AdoptSafeIff` | chord/local_chord.go:68-72 | a predecessor compared and set after any delay keeps them safe if and only if it still fits |
| `DelayedWrites.ForgetKeepsRing` | chord/local_tasks.go:145-166 | forgetting a predecessor found dead keeps the pointer invariant, however late; `WholeCalls.WholeCheck` says when it is forgotten |
| `DelayedWrites.ProceedKeepsSafe` | chord/local_tasks.go:43-166 | every single action of every call keeps locks and pointers safe if what it writes still fits |
| `RingHandOff.AdmitKeepsRing` | chord/local_membership.go:131-171 | handing a range to a joiner keeps the pointer invariant beside all other operations |
| `RingHandOff.AdviseJoinKeepsRing` | chord/local_membership.go:174-179 | asking the old predecessor to stabilize keeps the pointer invariant |
| `RingHandOff.EndJoinAdviceKeepsRing` | chord/local_membership.go:174-179 | when that call is over, whatever ran in between, the predecessor lists the joiner first |
| `RingHandOff.HandOverKeepsRing` | chord/local_membership.go:312-331 | a leaver giving up its range keeps the pointer invariant beside all other operations |
| `RingHandOff.AdviseLeaveKeepsRing` | chord/local_membership.go:200-205 | asking the leaver's predecessor to stabilize keeps the pointer invariant |
| `RingHandOff.EndLeaveAdviceKeepsRing` | chord/local_membership.go:200-205 | when that call is over, whatever ran in between, the predecessor lists the leaver's successor behind the leaver |
| `RingHandOff.DepartKeepsRing` | chord/local_membership.go:257-270 | the leaver falling silent then keeps the pointer invariant |
| `Requests.OwnerAfterJoin` | chord/local_chord.go:228-275 | a new member becomes the owner of exactly the arc the transfer covers, all of it owned by the successor before |
| `Requests.OwnerAfterLeave` | chord/local_chord.go:279-307 | a departing member's keys go to its successor and no other key changes owner |
| `KeySafety.CopyUpKeepsKey` | chord/local_chord.go:250-268 | while the copy to a joiner is under way each store holds exactly what it owns or is being sent |
| `KeySafety.AdmitKeepsKey` | chord/local_chord.go:270-275 | removing the moved keys and setting the surrogate leaves each key at its new owner only |
| `KeySafety.CopyDownKeepsKey` | chord/local_chord.go:280-299 | the same while a leaver's keys are copied to its successor |
| `KeySafety.HandOverKeepsKey` | chord/local_chord.go:301-307 | removing the leaver's keys leaves each key at its new owner only |
| `Requests.HopNamesOwner` | chord/local_chord.go:129-153 | in the middle of churn a hop that names a member without a surrogate names the owner |
| `Requests.StepStillOwns` | chord/local_kv.go:32-55 | every transition that meets `Repaired` leaves a member without a surrogate everything it owned |
| `Requests.StepKeepsCalls` | chord/local_kv.go:32-55 | so over such transitions an answer remembered by a request stays right for as long as the node it names has no surrogate |
| `Requests.LocalImpliesOwner` | chord/local_kv.go:52-87 | a node whose gate opens owns the key: its predecessor and surrogate bound its range, and without either the remembered answer does |
| `Requests.ServerIsOwner` | chord/local_kv.go:32-87 | a request that reaches a store, however long ago its lookup was made, reaches the owner's |
| `Gateway.ForwardedIsAhead` | chord/local_kv.go:52-88 | in every safe state a request passed on goes to another node with no member in between; the node does not own it if and only if some member comes no later than that node, so always when that node is a member |
| `Gateway.ForwardedToNobody` | chord/local_kv.go:75-78 | from every fresh ring a join and a leave lead to a sound state in which the only member owns a hash and passes it on to the node that has left |
| `Gateway.HandedOverIsForwarded` | chord/local_membership.go:159-171 | every hash in the arc handed to a joiner belonged to the successor, now belongs to the joiner, and is passed on to it by the successor |
| `Gateway.JoinRedirects` | chord/local_membership.go:43-188 | from rest a whole join ends at rest with the joiner owning exactly the arc up to it, all of it passed on to it by the successor |
| `Gateway.GateIsOpenIff` | chord/local_kv.go:52-88 | at rest the gate of a member opens exactly for the hashes it owns |
| `Gateway.MembersDecide` | chord/local_kv.go:18-88 | at rest a member serves a hash if it owns it and otherwise sends it to its owner, and to nobody else |
| `Gateway.OutsidersTurnAway` | chord/local_kv.go:32-62 | in any network a node that has left asks for a retry, one that has not started fails, and none that is not Active touches its store |
| `KeySafety.ServerKeepsAlone` | chord/local_kv.go:52-87 | while a node serves a key no copy of it is under way and no other node keeps it |
| `KeySafety.StepKeepsSafe` | chord/local_membership.go:43-332 | every transition of every join, leave, call and request that meets `Repaired` keeps locks and pointers safe |
| `KeySafety.StepKeepsKeys` | chord/local_chord.go:226-307 | every transition that meets `Repaired` keeps each key exactly where it belongs |
| `KeySafety.RunKeepsInv` | chord/local_membership.go:43-332 | every run of such transitions keeps locks, pointers, remembered answers and keys right |
| `KeySafety.ServesOneMap` | chord/local_kv.go:18-88 | in every state of every such run all requests for a key that have reached a store have reached the same one, it holds exactly what clients last stored, and no other store holds the key |
| `KeySafety.ChurnKeepsData` | chord/local_chord.go:226-307 | joins, leaves and repair never change what clients stored |
| `KeySafety.SettledPlacement` | chord/local_membership.go:43-332 | in every such run, whenever no operation is under way, the Active nodes are the ring and each key is at its owner and nowhere else |
| `FreshCalls.FreshIsTimely` | chord/local_tasks.go:43-97 | what a call that acts on nothing stale is about to write fits |
| `FreshCalls.OwnStepStaysFresh` | chord/local_tasks.go:43-97 | each read and write of such a call leaves it acting on nothing stale |
| `FreshCalls.OtherStepLeavesFresh` | chord/local_chord.go:43-117 | so does each read and write of every other such call |
| `OverlappingCalls.StepKeepsFresh` | chord/local_membership.go:43-332 | a step that displaces no node with a repair call under way finds its writes fitting and leaves no call with stale reads |
| `OverlappingCalls.UndisturbedWritesFit` | chord/local_tasks.go:43-97 | in every run of such steps every delayed write fits when it is made |
| `OverlappingCalls.CallsAloneFit` | chord/local_tasks.go:43-97 | any number of overlapping calls, with joins and leaves stopped at any stage, make only fitting writes |
| `OverlappingCalls.UndisturbedServesOneMap` | chord/local_kv.go:18-88 | in every state of every run from a fresh ring whose hand-offs start from repaired neighbours and in which no node is displaced during its own repair call, requests for a key that have reached a store have reached the same one, it holds exactly what clients last stored, and no other store holds the key |
| `OverlappingCalls.UndisturbedPlacement` | chord/local_membership.go:43-332 | in every such run, whenever no operation is under way, the Active nodes are the ring and each key is at its owner and nowhere else |
| `LastWrites.DataIsLastWritten` | chord/local_kv.go:18-150 | over every run what clients have stored under a key is what the last write of it gave |
| `LastWrites.ServesLastWrite` | chord/local_kv.go:18-150 | in every state of every undisturbed run from a fresh ring a request that has reached a store finds there what the last write of its key gave, nothing after a deletion |
| `LastWrites.UnwrittenIsAbsent` | chord/local_kv.go:18-150 | and nothing if the key was never written |
| `LastWrites.WriteCompletes` | chord/local_kv.go:18-150 | at rest a write or deletion at the owner, run alone, goes through, changes that key at that store only, and ends at rest |
| `Traces.WholeCall` | chord/local_tasks.go:43-97 | a stabilize call that is not overtaken, from any state and at any node, does what the whole of stabilize is defined to do, and from a sound state each of its writes fits |
| `WholeCalls.WholeCheck` | chord/local_tasks.go:145-166 | a predecessor check run without a break, from any state and at any node, ends with the predecessor forgotten exactly if there was none or it is another node that does not ping, and changes nothing else |
| `WholeCalls.WholeRequest` | chord/local_kv.go:32-88 | a request run without a break stands in front of the store exactly if a lookup made in one go names the node, and is served exactly if the whole gate lets it through |
| `Churn.JoinRuns` | chord/local_membership.go:43-188 | a join between two active neighbours runs to its end, in the stated final state, beside whatever else is under way |
| `Churn.LeaveDeparts` | chord/local_membership.go:216-332 | so does a leave |
| `Churn.CreatedIsAtRest` | chord/local_membership.go:17-41 | a freshly created ring is at rest |
| `Churn.ServesIffOwner` | chord/local_kv.go:18-88 | at rest a node serves a key if and only if it owns it, whatever members the fingers hold |
| `Churn.JoinCompletes` | chord/local_membership.go:43-188 | from rest a new node can join and the ring comes to rest with it in place |
| `Churn.LeaveCompletes` | chord/local_membership.go:216-332 | from rest any member but the last can leave, and after its predecessor's next stabilize the ring is at rest without it |
| `Churn.ChurnSettles` | chord/local_membership.go:43-332 | any finite sequence of joins and leaves, each with its repair, ends at rest with the expected members, no key lost, duplicated or changed, each at its owner only |
| `FailedAttempts.RefusalIsUndone` | chord/local_membership.go:118-157 | a successor that refuses a joiner, before or after its check, is as it was |
| `FailedAttempts.RefusedJoinLeavesNoTrace` | chord/local_membership.go:43-157 | a whole join that is refused, beside whatever else is under way, ends in the state it began in |
| `FailedAttempts.SelfIsGivenBack` | chord/local_membership.go:288-327 | a leaver refused by its successor is Active again and nothing else has changed |
| `FailedAttempts.SuccessorIsGivenBack` | chord/local_membership.go:288-327 | so is the successor of a leaver that cannot lock itself |
| `FailedAttempts.FailedLeaveLeavesNoTrace` | chord/local_membership.go:273-327 | a whole leave whose transfer fails ends in the state it began in |
| `StaleHandOff.StaleJoinPlacesIff` | chord/local_membership.go:144-171 | beside any other operations, a join accepted behind a predecessor pointer that may be stale places every key right if and only if the pointer is live or the successor holds nothing between the live predecessor and it |
| `StaleHandOff.StaleLeavePlacesIff` | chord/local_membership.go:273-331 | beside any other operations, a leave towards the successor read before locking places every key right if and only if that is still the live successor or there is nothing to hand over |
| `StaleHandOff.StaleJoinMisplaces` | chord/local_membership.go:144-171 | from every fresh ring, for any nodes in the right order, a run of a write, a join and a leave leads to a sound state in which the next join strands the key at a node that no longer owns it |
| `StaleHandOff.StaleLeaveMisplaces` | chord/local_membership.go:273-331 | from every fresh ring, for any nodes in the right order, a run in which a join overtakes a leave that has begun leads to a sound state in which the leave sends the key to a node that does not own it |
| `DelayedRepair.LateListMakesTwoServers` | chord/local_tasks.go:50-84 | from every fresh ring, for any nodes in the right order, a run, sound up to one delayed write of a list that does not fit, ends with two nodes serving the same hash |
| `DelayedRepair.LateNotifyMakesTwoServers` | chord/local_chord.go:43-73 | from every fresh ring, for any nodes in the right order, a run in which every list is written in time, sound up to one delayed Notify, ends with two nodes serving the same hash |
| `DelayedRepair.LateSelfNotifyMakesTwoServers` | chord/local_chord.go:43-73 | from every fresh ring, for any nodes in the right order, a run, sound up to one delayed write of the node's Notify to itself, ends with two nodes serving the same hash |
| `Negotiation.CachesAgree` | overlay/reuse.go:98-108 | if the peer has cached a connection, the arbiter has cached the same one or holds the lock having reported none |
| `Negotiation.StepKeepsGood` | overlay/reuse.go:98-173 | every step of every negotiation keeps the invariant |
| `Negotiation.PeerConcludes` | overlay/reuse.go:140-173 | what the unserialised side concludes is decided by the two reports alone, even if its cache changed meanwhile |
| `Negotiation.OutcomesMatch` | overlay/reuse.go:52-174 | in every interleaving of any number of negotiations, finished sides agree: both published, or both reuse the same connection and exactly one closes the spare, or both failed |
| `Negotiation.OneWinner` | overlay/reuse.go:98-173 | the caches never name different connections, are equal once all negotiations are done, and only one connection is ever published |
| `Negotiation.NeverStuck` | overlay/reuse.go:26-50 | while a negotiation is unfinished or the lock is held some side can move |
| `Negotiation.EveryNegotiationFinishes` | overlay/reuse.go:26-174 | over every interleaving at most seven moves are made for each connection dialled, exactly seven once all is settled, and until then some side can move |
| `Versions.EncodePreservesOrder` | config/record.go:45-51 | the 48 bytes sort exactly as versions compare |
| `Versions.DecodeIsInverse` | config/record.go:53-63 | bytes decode to a version if and only if they are its encoding and schema and revision are positive |
| `Versions.CompareIsTotal` | config/record.go:160-168 | comparing versions is a total order, equal only for equal versions |
| `Versions.CompareBytesIsLexicographic` | config/record.go:160-168 | bytes compare as smaller exactly for a proper prefix or the smaller byte at the first difference |
| `Versions.CompareIsLexicographic` | config/record.go:160-168 | a version is older exactly by schema, then revision, then digest |
| `Base64Url.DecodeOfEncode` | config/record.go:65-80 | the lenient and the strict decoder both undo the encoding |
| `Base64Url.EncodeShape` | config/record.go:65-80 | encoded text has the unpadded length and no dot |
| `Base64Url.EncodeOfDecode` | config/record.go:70-80 | a strict reading of the expected length has one spelling only, line breaks included |
| `Base64Url.SymbolIsInAlphabet` | config/record.go:65-80 | the 64 symbols are those of the URL-safe alphabet of RFC 4648, in its order |
| `Tokens.ReadVersionIff` | config/record.go:70-80 | text reads as a version if and only if it is the text of that version and the version is positive |
| `Tokens.TokenInjective` | config/record.go:114-122 | a token determines document and version |
| `Tokens.TokenLength` | config/record.go:114-122 | no valid name gives a token longer than 751 bytes |
| `Tokens.CompareVersionIff` | config/record.go:124-146 | for every text: it is accepted with answer c if and only if it is the token of a positive version of this valid name and c is the order of the two versions |
| `Documents.CheckRecords` | config/codec.go:80-102 | the loop accepts exactly the lists within the count and byte bounds whose records are all valid |
| `Documents.AcceptableIff` | config/codec.go:80-102 | those are the lists of at most 4096 records with valid names, positive versions, bounded values and their own digests whose joined length fits |
| `Documents.ReadRecords` | config/sqlite.go:136-166 | the loop returns all documents in name order if and only if all are valid and the snapshot is within bounds |
| `Documents.ListingIsSorted` | config/sqlite.go:136-166 | that listing holds each document once in strictly ascending order of names |
| `Documents.WriteRecords` | config/sqlite.go:187-213 | the conditional upserts give the merged table and report a change exactly when the table changed |
| `Documents.MergedIsLeast` | config/sqlite.go:187-213 | the merged table is above the old one and every record, and each row comes from one of them |
| `Documents.MergeOrderIrrelevant` | config/store.go:136-145 | merging depends only on which records there are, not on order or repetition |
| `Documents.MergeIdempotent` | config/store.go:136-145 | merging the same records again changes nothing |
| `ConfigStore.Store.Commit` | config/store.go:147-187 | a changed table is committed if it is still sound and rolled back otherwise; a commit whose result is lost has either effect and is reported as unknown |
| `ConfigStore.Store.PutDocument` | config/store.go:105-134 | an edit is stored exactly when the table is sound, the token current, the draft valid, the result sound and the commit took effect; otherwise nothing changes; the conflict, the reason or the unknown outcome is reported |
| `ConfigStore.Store.MergeRecords` | config/store.go:136-145 | all records win or lose in one transaction; an oversized union is rejected whole |
| `ConfigStore.Store.Initialize` | config/store.go:49-74 | initial documents are stored exactly when some are given, all are acceptable and the table is empty |
| `ConfigStore.DraftIff` | config/store.go:105-134 | a draft is made exactly for a valid name, a positive schema, a bounded value and, for a stored document, a schema no lower and a revision to spare; it has the next revision, or the first; otherwise the first thing wrong is named |
| `ConfigStore.EditIff` | config/store.go:105-134 | on a sound table an edit goes through exactly with the current token, such a draft and a sound result, and then replaces that document only |
| `ConfigStore.EditsFollowEachOther` | config/store.go:105-134 | the token of the row just stored lets the next edit through, at the same schema or a higher one |
| `ConfigStore.InitNeedsEmpty` | config/store.go:49-74 | once anything is stored no initialisation goes through, whatever happens in between |
| `ConfigStore.InitializedOnce` | config/store.go:49-74 | over every sequence of operations a store is initialised at most once |
| `ConfigStore.DraftIsNewer` | config/store.go:117-131 | an accepted edit is valid and beats the stored version, so the conditional upsert stores it |
| `ConfigStore.RunRises` | config/store.go:107-145 | over every sequence of operations no document goes back to an older version |
| `ConfigStore.TokenUsedOnce` | config/store.go:107-134 | over every sequence of operations no token lets two edits of a document through |
| `Replication.MergeSnapshot` | config/sync.go:325-341 | merging a peer's snapshot rises above both sides and takes every row from one of them |
| `Replication.RunIsLawful` | config/sync.go:268-341 | over every run of edits, connections, sends, deliveries, replies and skips each record carries its own digest, no snapshot in flight is ahead of all replicas, and no replica is behind what its peers know it to have |
| `Replication.SkippedChangesNothing` | config/sync.go:236-238 | if the acknowledged snapshot is the current one, sending it again would change nothing at the peer |
| `Replication.SkipTracks` | config/sync.go:236-238 | whatever the sender has heard, the peer of a skipped exchange has heard too |
| `Replication.FullRoundPassesBack` | config/sync.go:204-238 | a peer that is skipped is connected and so deals with the sender in the same round: something passes both ways along every known link |
| `Replication.PathInforms` | config/sync.go:189-311 | after as many rounds as a path has steps its end holds everything its start began with |
| `Replication.ConvergesAlong` | config/sync.go:189-341 | the same for any rounds that pass something along every link of a graph connected along its directions |
| `Replication.ReplicasConverge` | config/sync.go:189-341 | after any run of edits, exchanges and connections, enough rounds, skipped or not, in which each replica deals with the peers it knows and is connected to, bring all replicas to the same documents, the greatest version of each, if the graph is connected with directions forgotten |
| `ConfigRounds.RoundCatchesUpIff` | config/sync.go:189-311 | a round leaves the caller with everything the peer has if and only if it was not skipped or the caller had it before |
| `ConfigRounds.TwoRoundsLevel` | config/sync.go:189-311 | a round of each side, whichever are skipped, leaves the two level |
| `ConfigRounds.OneSideStalls` | config/sync.go:204-238 | from two empty replicas, a round of one and an edit at the other: no number of rounds of the first alone brings it the edit, and the first round of the other does |
| `KeyValue.GrantsAdvance` | kv/internal/lease/token.go:10-21 | a granted token is positive, at least a second ahead, and larger than the one it renews |
| `KeyValue.LeaseExcludes` | spec/chord/kv.go:43-64 | until the holder gives it up or it expires, over every sequence of changes to the key, the lease stays as it is and every attempt on it is refused without a trace |
| `KeyValue.BackendsAgreeIff` | kv/sqlite3/provider.go:14-28 | the two providers change and answer a cell alike exactly outside a nil put, a zero release of a free lease, and a transfer that is empty or lacks a field the cell has |
| `CellHistory.FieldsAreSeparate` | spec/chord/kv.go:20-62 | a change alters nothing but its own field; only a transfer has more than one |
| `CellHistory.ChildIsLastNamed` | kv/memory/prefix.go:11-49 | over every sequence of changes a child is present if and only if the last change that names it appends or transfers it, or none names it and it was there |
| `CellHistory.AppendRefusedIff` | kv/memory/prefix.go:11-19 | an append is refused exactly when the child is there, a removal never |
| `CellHistory.ValueIsLastSet` | kv/memory/simple.go:11-38 | over every sequence of changes the value is what the last put, deletion or value-carrying transfer says |
| `CellHistory.UnsetValueStays` | kv/memory/simple.go:11-38 | and stays as it was if there is none |
| `CellHistory.GrantedIff` | kv/memory/lease.go:21-75 | a lease is granted exactly when free or expired, renewed exactly by its unexpired token, freed exactly by its token; the token granted is the end of the whole seconds asked for, or one past the token renewed |
| `CellHistory.RefusedWith` | kv/memory/lease.go:21-75 | the error names a bad time to live first, then a conflict or an expiry |
| `CellHistory.LeaseIsLastSet` | kv/memory/lease.go:21-75 | over every sequence of changes the lease is the token last granted or transferred, and free after it is given back |
| `CellHistory.KeysAreSeparate` | kv/memory/kv.go:59-65 | over every sequence of changes to many keys each holds what the changes made to it alone leave |
| `MemoryStore.MemoryKv.Fetch` | kv/memory/kv.go:59-65 | fetching creates a blank cell without changing the table |
| `MemoryStore.MemoryKv.Put` | kv/memory/simple.go:13-20 | the table changes as specified at that key only |
| `MemoryStore.MemoryKv.PrefixAppend` | kv/memory/prefix.go:11-19 | the child is added or the conflict reported |
| `MemoryStore.MemoryKv.Acquire` | kv/memory/lease.go:21-40 | the lease is granted, refused or invalid as specified |
| `MemoryStore.MemoryKv.Renew` | kv/memory/lease.go:42-67 | the lease is renewed or refused as specified |
| `MemoryStore.MemoryKv.Release` | kv/memory/lease.go:69-75 | the lease is freed exactly when the token matches |
| `MemoryStore.MemoryKv.Import` | kv/memory/kv.go:85-96 | the loop applies the transfers in order |
| `MemoryStore.MemoryKv.Export` | kv/memory/kv.go:132-150 | the result lists the cell of each key, blank for a missing one |
| `MemoryStore.MemoryKv.RemoveKeys` | kv/memory/kv.go:171-177 | exactly the given keys are gone |
| `MemoryStore.MemoryKv.ListKeys` | kv/memory/kv.go:98-130 | the result names each key with the prefix once per kind of content it has, and no tombstone |
| `MemoryStore.MemoryKv.RangeKeys` | kv/memory/kv.go:152-169 | the result is exactly the live keys whose hash is in the range |
| `MemoryRaces.AttemptIsAtomic` | kv/memory/lease.go:21-75 | of racing callers, one that goes through does at its swap what the operation is specified to do, one that is refused was right to be at its swap or when it loaded, and only one that was overtaken loses; the others change nothing, and one that was not overtaken gets the specified answer |
| `MemoryRaces.RacesRefine` | kv/memory/simple.go:11-38 | every interleaving of loads, swaps and an import's separate stores, deletions sharing one pointer, leaves the cell that the attempts that went through and the stores, one after another, leave |
| `MemoryRaces.ImportIsReceive` | kv/memory/kv.go:85-96 | an import's stores made without a break are the transfer the provider is specified to receive |
| `MemoryRaces.OvertakenPutGoesThrough` | kv/memory/simple.go:11-38 | a put that loaded the shared tombstone goes through although a put and a deletion overtook it, and comes last |
| `MemoryRaces.RacesExclude` | kv/memory/lease.go:21-75 | over every interleaving a lease neither given up nor expired nor imported over stays as it is and is granted to nobody else |
| `SqliteStore.UpdateTracker` | kv/sqlite3/key_tracker.go:23-74 | the row gets the stated flags, vanishes at zero, keeps the prefix flag while children remain, and is refused exactly under another hash function |
| `SqliteStore.TransactionShows` | kv/sqlite3/key_tracker.go:23-74 | after a transaction a tracker row exists exactly for the keys in some table, with their flags and hash |
| `SqliteStore.BlankIffUntracked` | kv/sqlite3/provider.go:30-74 | the index lists exactly the live keys and its three bits are table membership |
| `SqliteStore.SqliteKv.Put` | kv/sqlite3/simple.go:8-16 | the table changes as specified at that key only and the index stays exact |
| `SqliteStore.SqliteKv.Delete` | kv/sqlite3/simple.go:34-42 | the same for a deletion |
| `SqliteStore.SqliteKv.PrefixAppend` | kv/sqlite3/prefix.go:10-25 | the child is added or the conflict reported, and the index stays exact |
| `SqliteStore.SqliteKv.PrefixRemove` | kv/sqlite3/prefix.go:57-65 | the child is gone and the index forgets the prefix exactly when it was the last |
| `SqliteStore.SqliteKv.Acquire` | kv/sqlite3/lease.go:20-52 | the lease is granted, refused or invalid as specified |
| `SqliteStore.SqliteKv.Renew` | kv/sqlite3/lease.go:54-91 | the lease is renewed or refused as specified |
| `SqliteStore.SqliteKv.Release` | kv/sqlite3/lease.go:93-108 | the lease is freed exactly when a row has the token |
| `SqliteStore.SqliteKv.ImportOne` | kv/sqlite3/provider.go:81-122 | one transfer changes the cell as specified, an empty one counting as an empty value |
| `SqliteStore.SqliteKv.Import` | kv/sqlite3/provider.go:76-125 | the transfers are applied in order |
| `SqliteStore.SqliteKv.Export` | kv/sqlite3/provider.go:127-187 | the result lists the cell of each key |
| `SqliteStore.SqliteKv.RemoveKeys` | kv/sqlite3/provider.go:189-218 | the batches together remove exactly the given keys from every table and the index |
| `SqliteStore.SqliteKv.ListKeys` | kv/sqlite3/provider.go:30-74 | the result names each key with the prefix once per kind of content it has |
| `SqliteStore.SqliteKv.RangeKeys` | kv/sqlite3/provider.go:220-250 | the result is exactly the live keys whose hash is in the range |
| `KvAgreement.ProvidersAgree` | spec/chord/kv.go:64-89 | the same operations at the same clock readings give the same results, errors, lookups, listings, ranges and exports from both providers |
| `KvAgreement.ZeroRangeListsAll` | chord/local_chord.go:280 | the range from zero to zero lists every live key |
| `WriteAheadLog.DiskKv.constructor` | kv/aof/kv.go:69-103 | opening a log succeeds exactly when every entry can be read, and then replays it |
| `WriteAheadLog.DiskKv.ReplayLogs` | kv/aof/log.go:17-63 | replay stops at the first entry that cannot be read, checked or decoded; otherwise it never fails and leaves memory at the effect of the whole log with the counter one past it |
| `WriteAheadLog.DiskKv.HandleMutation` | kv/aof/mutation.go:21-45 | each mutation changes the table as specified and only a duplicate append is an error |
| `WriteAheadLog.DiskKv.AppendLog` | kv/aof/log.go:65-97 | the log grows by one entry and the counter with it |
| `WriteAheadLog.DiskKv.RollbackOne` | kv/aof/log.go:99-111 | the last entry is gone and at least one remains |
| `WriteAheadLog.DiskKv.Submit` | kv/aof/kv.go:126-140 | after each request the log holds exactly the accepted mutations, memory shows their effect, and the error is reported exactly for a duplicate append |
| `LogHistory.ChildIsLastSettled` | kv/aof/mutation.go:21-45 | over every sequence of mutations a child is present if and only if the last one that settles it appends or imports it |
| `LogHistory.ValueIsLastSettled` | kv/aof/mutation.go:21-45 | over every sequence of mutations the value is the one last put or imported, and none once deleted or the key removed |
| `WriteAheadLog.ReplayRebuilds` | kv/aof/log.go:17-48 | for every sequence of mutations the replayed cell is the live one, less the value if a put of an empty value wrote it last |
| `WriteAheadLog.ReplayIsExactIff` | kv/aof/log.go:17-48 | a restart rebuilds values and children if and only if no value is an empty put |
| `WriteAheadLog.EveryPrefixExactIff` | kv/aof/log.go:17-48 | every log prefix rebuilds the state after as many mutations if and only if no put ever carried an empty value |
| `WriteAheadLog.EmptyValueIsLost` | kv/aof/mutation.go:66-72 | an empty value put and acknowledged is gone after a restart |
| `WriteAheadLog.CrashRebuildsPrefix` | kv/aof/kv.go:126-140 | whatever prefix survives a crash before, during or after a request, replaying it rebuilds the state after a prefix of the accepted mutations as logged |
| `Waf.CacheKeyInjective` | waf/engine.go:157-163 | different modes or rule sets never share a cache key |
| `Waf.SelectedIsExact` | waf/engine.go:149-156 | the selected ids are exactly the catalogued ones, ascending, once each |
| `Waf.MemoIsDirect` | waf/engine.go:166-171 | a cached entry is what compiling its mode and rules would give |
| `Waf.Engine.constructor` | waf/engine.go:88-95 | a new engine caches exactly the two base variants |
| `Waf.Engine.Oldest` | waf/engine.go:183-189 | the scan finds the one least recently used entry that is not a base one |
| `Waf.Engine.Admit` | waf/engine.go:182-194 | a full cache loses exactly that entry, and the table never exceeds 32 entries |
| `Waf.Engine.Variant` | waf/engine.go:148-195 | the result is the compilation of the mode and the selected ids, or its failure; hits, misses, closing and eviction leave the stated cache |
| `Waf.RequestsMark` | waf/engine.go:166-195 | over every sequence of requests each entry that is not a base one carries the time it was last asked for |
| `Waf.EvictsLeastRecent` | waf/engine.go:182-191 | so the entry that goes was asked for longest ago |
| `WafPolicy.ValidatePolicy` | waf/settings.go:67-103 | a policy is normalised exactly when its mode, count, ids, paths and size are acceptable |
| `WafPolicy.ValidExclusionIff` | waf/settings.go:67-103 | an exclusion is acceptable exactly with a six-digit rule and an empty path or an absolute URL path, of at most 1024 bytes, that is all path: no query, fragment or control character |
| `WafPolicy.DisabledRules` | waf/settings.go:112-121 | the loop gives the specified ids, which `DisabledIsExact` describes |
| `WafPolicy.DisabledIsExact` | waf/settings.go:112-121 | those are exactly the rules named by an exclusion for all paths or for this very path, ascending, once each |
| `WafPolicy.PathExclusionIsLocal` | waf/settings.go:112-121 | an exclusion for one path makes no difference on any other |
| `WafPolicy.NormalizingChangesNothing` | waf/settings.go:88-97 | normalising disables the same rules on every path and does nothing the second time |

## Left out

- Remote calls always succeed and `Ping` reports liveness: transport failures and crashes of ring nodes, whose data the program does not replicate, are not modelled.
- One routing decision, and one look of the gate, reads a node's own pointers in one step.
- Compare-and-set of the surrogate and the predecessor compares identifiers where the program compares objects, so the model allows more writes.
- OverlappingCalls.UndisturbedServesOneMap: runs whose hand-offs start from stale neighbours, or that displace a node during its own repair call, are excluded, because the property fails for some of them (`StaleHandOff`, `DelayedRepair`).
- KeySafety.ServesOneMap: runs are restricted by `RingSafety.Repaired`, that is, repaired neighbours and writes that fit; `StaleHandOff` and `DelayedWrites` give the exact conditions for a single step without it.
- KeySafety.SettledPlacement: restricted as ServesOneMap.
- KeySafety.StepKeepsSafe: restricted as ServesOneMap.
- KeySafety.StepKeepsKeys: restricted as ServesOneMap.
- KeySafety.RunKeepsInv: restricted as ServesOneMap.
- Requests.StepStillOwns: restricted as KeySafety.ServesOneMap.
- Requests.StepKeepsCalls: restricted as KeySafety.ServesOneMap.
- DelayedWrites.ProceedKeepsSafe: the write has to fit; `InstallSafeIff`, `MarkSafeIff` and `AdoptSafeIff` show that nothing less will do.
- Gateway.MembersDecide: fingers have to name members; `FingersAtRest.FingersSettle` says how they come to.
- FingerRepair.FingersRecover: the ring is at rest between passes, because passes that race with joins and leaves add nothing that the arbitrary finger writes of the runs do not already allow.
- RingRepair.RefreshIsGood: the reads see one state, because lists read across several states are what `DelayedWrites.InstallSafeIff` is about.
- Convergence.ChangesAreBounded: one stabilize call per node at a time, as the periodic task runs them, because without churn there are no advisories.
- The lone-node leave is treated apart from the other transitions, in `MembershipLocks`, because it takes no lock.
- A ring starts as one node that has already notified itself.
- Removing moved keys from the sender always succeeds; the program only logs a failure.
- The successor-list change hash is taken to be collision-free, so a list is written exactly when it changed.
- Retry counts, delays and timers are nondeterministic choices.
- The replication bypass of the ownership gate skips ownership checks by design.
- NodeStates.HistoryIsComplete: assumes fewer than 2^60 transitions, because the index has sixty bits.
- Negotiation has no timeouts, cancellations or cached connections that close; identity exchange and certificates are not part of this model.
- The retry loop that waits for the negotiation lock is a nondeterministic wait.
- SHA-256, JSON lengths and the Unicode rules for names are parameters; convergence assumes that values in use do not collide and that merged snapshots fit.
- The database file format, SQLite itself and HTTP routing are not modelled; failures to open, begin or roll back a transaction are left out.
- Receipts compare snapshots where the program compares their digests; a skip while the last attempt is being retried later only delays a round.
- Nil records, nil transfers and unequal key and value lists are left out.
- Lease tokens of 2^63 and above, which no provider issues, never arrive in a transfer.
- MemoryStore.MemoryKv.Put: states what one caller at a time sees; `MemoryRaces` has the racing callers.
- MemoryStore.MemoryKv.Acquire: as for Put.
- MemoryStore.MemoryKv.Renew: as for Put.
- NodeStates.NodeState.Set: states what one caller sees; the racing callers are in `NodeStates.RunKeepsGood`, `NodeStates.SwapSucceedsIff` and `NodeStates.SetRetriesOnlyIfOvertaken`.
- WriteAheadLog.DiskKv.RollbackOne: a truncation that fails, which the program only logs after moving its counter back, is not modelled, because what the log then holds is up to the log library, whose code is not part of the repository.
- Checksums and the encoding of log entries are reduced to whether an entry can be read and to the one thing they change, an empty value.
- Rule compilation is an uninterpreted function of mode and ids; closing compiled rules has no effect on the model.
- Waf.Engine.Variant: assumes the 64-bit clock does not run out.
- RPC plumbing, QUIC, TLS, gateway, UI, ACME, PKI, statistics and command-line code.

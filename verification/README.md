# Verified models of the peer-to-peer core

A Dafny model of four components, with proofs about every input, every run or every reachable state:

- **BlossomSub**, the publish/subscribe router and its bookkeeping: the re-packing of RPCs (`RpcPacking`), the
  trimming of a mesh (`MeshTrim`), the choice of peers (`PeerSelection`), meshes, fanouts and backoffs as a
  state machine (`Router`, `RouterSafety`, `RouterRuns`, `RouterEffects`, `Opportunistic`) and as the object
  that carries it out (`MeshUpkeep`, `RouterNode`), subscriptions and relays (`Interest`), bitmask slices and
  the message cache (`BitmaskSlices`, `MessageCache`), IHAVE, IWANT and promises (`Gossip`, `Promises`),
  delivery records (`Deliveries`), peer scores (`PeerScore`, `PeerScoreRuns`, `PeerScoreEffects`,
  `PeerScoreEngine`), the two together (`DeliveryScores`) and the validation pipeline (`Validation`).
- **The Kademlia lookup** (`KadLookup` in `Lookup.dfy`) and the accounting of the optimistic provide
  (`OptimisticProvide`), as interleavings of concurrent steps.
- **The multiaddr codec**: varints (`Varint`), components and their binary form (`Multiaddr`), the text
  form (`MultiaddrText`) and concrete argument codecs (`Transcoders`).
- **DNS resolution** on top of encapsulation (`DnsResolve`).

Each component has a specification made of functions or of a relation between states, and lemmas about it.
Where the original updates things in place there is a class or a method with the original's loops whose
postcondition ties it to that specification.

Conventions: `real` stands for float64 and an integer clock, read once per step, for the system clock; the
zero time is before any clock reading. A shuffle is any permutation and map iteration any order. Scores,
connections, randomness and the network are parameters, as are the choices they lead to. Peers of a lookup
are their distances to its target. The size of an RPC is any function. Router parameters are those the
original can work with: Dlo <= D <= Dhi, Dout <= D, positive opportunistic ticks and peers, and intervals that
are not negative.

What turned out not to hold as one might expect, with the exact condition under which it does:

- Re-packing can move an IWANT id in front of others (`RpcPacking.WantOrderIff`), and it drops IDONTWANT
  ids unless a single RPC is passed through (`RpcPacking.DontWantsSurviveIff`, `RpcPacking.DontWantsAreLost`).
- Trimming can drop one of the Dscore best peers when Dscore + Dout exceeds D
  (`MeshTrim.TopSurvivesIff`, `MeshTrim.BestCanBeDropped`).
- The choice of peers for several slices is not their intersection exactly when nobody passes in the first
  slice, and leaving out the leading slices in which nobody passes, somebody passes in all that are left
  (`PeerSelection.OfferedIsIntersectionIff`, `PeerSelection.BarrenSliceIsSkipped`).
- The optimistic provide waits forever when it issued no RPC (`OptimisticProvide.NeverStuckIff`,
  `OptimisticProvide.WaitsForever`).
- A message put into the cache again is lost when its first put leaves the window
  (`MessageCache.CacheIsLog`, `MessageCache.PutAgainIsLostEarly`).
- A component with an empty length-prefixed value is refused by the decoder. It can be made exactly if the
  transcoder of its protocol accepts the empty value (`Multiaddr.EmptyValueAcceptedIff`,
  `Multiaddr.EmptyValueIsMade`). The built-in protocols are not affected, but a protocol that a caller registers
  can be. For dns, dns4, dns6, dnsaddr, sni, ip6zone and unix `Transcoders.NamesLawful` proves it; the codecs of
  the others are not modelled, and refuse the empty value at go-multiaddr/transcoders.go:293-299 and 327-335
  (garlic), 370-374 (p2p), 461-464 (certhash) and 486-489 (http-path).
- Disconnecting and coming back raises a score that is positive in spite of what the peer did
  (`PeerScore.ReconnectingPaysIff`, `PeerScore.ReconnectingCanPay`).
- Validation accepts a negative cap on first deliveries while their weight is zero. With one, and a weight set
  later, disconnecting can raise a score (`PeerScore.DisconnectingPaysIff`, `PeerScoreRuns.NegativeCapCanPay`).
- Validation does not look at the decay of a delivery counter of weight zero, so that such a counter can exceed
  the deliveries it counts; one with a weight cannot (`DeliveryScores.DeliveryCountersAreBounded`,
  `DeliveryScores.WeighedDecaysAlong`, `DeliveryScores.UnweighedCanGrow`). If it gets a weight later, its peer's next
  first delivery can lower the score (`PeerScoreEffects.FirstDeliveryCostsIff`,
  `PeerScoreEffects.FirstDeliveryCanCost`).

Where code and comments of the original disagree the model follows the code:

- go-libp2p-blossomsub/score.go:731-732 says that a first deliverer cannot get a double count by sending
  twice; it can, by sending again after validation (`Deliveries.FirstDelivererCreditedAgainIff`).
- go-libp2p-blossomsub/score.go:520-523 says that a well-behaved peer does not lose its score by getting
  disconnected; a positive score is dropped, so whatever the peer had earned is lost
  (`PeerScore.ReconnectingLosesIff`, `PeerScore.ReconnectingCanLose`).

## Model

| member | source | states |
|---|---|---|
| `KadLookup.LookupIsSafe` | go-libp2p-kad-dht/query.go:274-526 | On every interleaving from the start, with alpha at least 1: at most alpha peers are waiting, no peer is queried twice, no panic is reached, queued updates plus running queries stay within the channel capacity alpha, and no update is taken after termination |
| `KadLookup.SendersNeverBlock` | go-libp2p-kad-dht/query.go:417-475 | In every reachable state every running query can send its result at once, so the final wait for the goroutines is always released |
| `KadLookup.NeverStuck` | go-libp2p-kad-dht/query.go:274-318 | In every reachable state the loop has returned with no query running, or a step other than a cancellation is possible; a loop at its select always has a queued update or a running query |
| `KadLookup.LookupTerminates` | go-libp2p-kad-dht/query.go:274-318 | Over a finite universe of peers every run has at most 8 times its size plus 4 steps |
| `KadLookup.ReturnsOnlyWhenDone` | go-libp2p-kad-dht/query.go:350-391 | A lookup that is neither cancelled nor stopped returns only when every peer that is not unreachable, and has fewer than beta such peers closer than itself, has answered, or every peer it ever heard of is settled |
| `KadLookup.OutstandingIsWaiting` | go-libp2p-kad-dht/query.go:293-316 | Queued updates and running queries together number exactly the waiting peers: every update after the seed frees a slot |
| `KadLookup.ChoiceFits` | go-libp2p-kad-dht/query.go:363-374 | With a positive budget the peers chosen next are the closest heard ones: listed by strictly increasing distance, as many as the smaller of the budget and the number of heard peers, and every other heard peer is farther than all of them |
| `KadLookup.QueriesClosestFirst` | go-libp2p-kad-dht/query.go:293-318 | In every reachable state the next query goes to the closest peer that was heard of and not queried yet; and a loop back at its select has alpha queries outstanding or nobody left to query |
| `KadLookup.ClosestAllQueriedIff` | go-libp2p-kad-dht/query.go:379-387 | The termination test over the list of the beta closest is the same as a count of closer peers: it holds if and only if each peer that has fewer than beta peers closer than itself, leaving out the unreachable, has answered |
| `KadLookup.AnswersAreHeard` | go-libp2p-kad-dht/query.go:477-526 | On every run, once a peer counts as having answered, everybody its answer named is known, except ourselves |
| `KadLookup.SeedsAreHeard` | go-libp2p-kad-dht/query.go:275-291 | Taking the seed update makes every seed known, except ourselves |
| `KadLookup.UnheardStays` | go-libp2p-kad-dht/query.go:477-490 | On every run nobody is known, and so queried, whom neither the seeds nor an answer named |
| `KadLookup.UpdateSettles` | go-libp2p-kad-dht/query.go:477-526 | An update whose cause is waiting settles exactly that peer, adds its reported peers as heard and never meets an illegal state |
| `KadLookup.ClosestFirstSorted` | go-libp2p-kad-dht/qpeerset/qpeerset.go:98-106 | Peers are listed in strictly increasing distance |
| `KadLookup.ClosestFirstMembers` | go-libp2p-kad-dht/qpeerset/qpeerset.go:127-150 | The list by distance holds exactly the members of the set |
| `KadLookup.RunInv` | go-libp2p-kad-dht/query.go:274-526 | The bookkeeping invariant of the loop holds after every run |
| `KadLookup.RunIsBounded` | go-libp2p-kad-dht/query.go:274-526 | Every step lowers a measure, so steps taken plus the measure left never exceed the measure at the start |
| `KadLookup.Query.SettleAll` | go-libp2p-kad-dht/query.go:491-522 | Moves the listed peers out of waiting and records round-trip times; reports false exactly where the source panics |
| `KadLookup.Query.HearAll` | go-libp2p-kad-dht/query.go:481-490 | Adds every reported peer that is new and not ourselves as heard, and changes nothing else |
| `KadLookup.Query.UpdateState` | go-libp2p-kad-dht/query.go:477-526 | Applies an update to the peer set, and reports false exactly after termination or where the source panics |
| `KadLookup.Query.IsLookupTermination` | go-libp2p-kad-dht/query.go:379-387 | True if and only if every known peer that is not unreachable, and has fewer than beta such peers closer than itself, has answered |
| `KadLookup.Query.IsReadyToTerminate` | go-libp2p-kad-dht/query.go:350-375 | Decides stop, starvation and termination; otherwise returns the closest heard peers, closest first, as many as the budget or all there are, everybody left out being farther |
| `KadLookup.Query.TakeUpdate` | go-libp2p-kad-dht/query.go:293-316 | One iteration of the event loop is the receive step of the state machine |
| `KadLookup.Query.SpawnQuery` | go-libp2p-kad-dht/query.go:321-348 | Spawning is the spawn step: the peer waits, runs and counts as issued |
| `KadLookup.Query.Run` | go-libp2p-kad-dht/query.go:274-318 | Whatever the schedule, the object only goes through runs of the state machine, does not panic and stays within capacity |
| `KadLookup.AwaitFollowUps` | go-libp2p-kad-dht/query.go:114-152 | Exactly one completion is received per follow-up query, and the lookup stays completed if and only if no wait, the last included, saw a cancellation and no query but the last one a stop |
| `RpcPacking.PackingConserves` | go-libp2p-blossomsub/blossomsub.go:1449-1573 | For publishes, subscriptions, grafts, prunes, IWANT ids and (bitmask, id) IHAVE pairs, and for any size function, the output holds the items of the slice followed by those of the elements, in order; for IWANT this needs the last RPC of the slice to carry no ids beyond its first entry |
| `RpcPacking.WantOrderIff` | go-libp2p-blossomsub/blossomsub.go:1520-1543 | That condition is exact: IWANT order is kept for all limits and elements if and only if it holds |
| `RpcPacking.LaterIWantReorders` | go-libp2p-blossomsub/blossomsub.go:1520-1543 | If it does not hold, a limit and a single id are given for which the order changes |
| `RpcPacking.NothingLostOrDuplicated` | go-libp2p-blossomsub/blossomsub.go:1449-1573 | For every slice and each of the six kinds the items of the output are those of the input up to order |
| `RpcPacking.DontWantsSurviveIff` | go-libp2p-blossomsub/blossomsub.go:1449-1573 | IDONTWANT ids of the elements survive if and only if there are none or the single element is passed through unchanged |
| `RpcPacking.DontWantsAreLost` | go-libp2p-blossomsub/blossomsub.go:1449-1573 | Two elements that carry one IDONTWANT id each lose both, whatever the limit |
| `RpcPacking.PackedFits` | go-libp2p-blossomsub/blossomsub.go:1454-1567 | Every output RPC that was not passed through is within the limit or carries at most one indivisible item, for any size function |
| `RpcPacking.PackedIsGreedy` | go-libp2p-blossomsub/blossomsub.go:1454-1567 | Unless the single element is passed through, the output is exactly the greedy cut of the contents of the elements in input order: each block fills one RPC with room for every content of it, and the next begins with the first content for which there is none; no other list of RPCs is such a cut |
| `RpcPacking.PackItems` | go-libp2p-blossomsub/blossomsub.go:1472-1518 | The loop over one kind of item is the fold of single placements |
| `RpcPacking.AppendOrOpen` | go-libp2p-blossomsub/blossomsub.go:1493-1500 | A missing container is added to the last RPC, or to a new one if the limit would be exceeded |
| `RpcPacking.PackIWants` | go-libp2p-blossomsub/blossomsub.go:1520-1543 | The loops over IWANT entries and their ids are the fold of single placements |
| `RpcPacking.PackIHaves` | go-libp2p-blossomsub/blossomsub.go:1545-1568 | The loops over IHAVE entries and their ids are the fold of single placements, reusing the last entry of the same bitmask |
| `RpcPacking.PackControl` | go-libp2p-blossomsub/blossomsub.go:1491-1569 | A control message is packed part by part, and the last RPC always has a control part when one is needed |
| `RpcPacking.PackElement` | go-libp2p-blossomsub/blossomsub.go:1465-1570 | One element is packed content by content |
| `RpcPacking.AppendOrMergeRpc` | go-libp2p-blossomsub/blossomsub.go:1449-1573 | The whole loop equals the packing about which the properties are proved, including its two early returns |
| `MeshTrim.TrimPermutes` | go-libp2p-blossomsub/blossomsub.go:1706-1737 | The list stays a permutation, and exactly D peers are kept |
| `MeshTrim.KeptOutbound` | go-libp2p-blossomsub/blossomsub.go:1694-1737 | The number of outbound survivors is exact, and at least the smaller of Dout and the number of outbound peers |
| `MeshTrim.TopSurvivesIff` | go-libp2p-blossomsub/blossomsub.go:1690-1743 | The first k of the list all survive if and only if the quota was met without rotating, or their non-outbound members and the outbound peers brought in fit into D |
| `MeshTrim.BestSurvive` | go-libp2p-blossomsub/blossomsub.go:1690-1743 | If Dscore + Dout is at most D, all of the Dscore best peers survive |
| `MeshTrim.BestCanBeDropped` | go-libp2p-blossomsub/blossomsub.go:1690-1743 | Otherwise they need not: with D = Dscore = 2 and Dout = 1 the second-best peer goes |
| `MeshTrim.Rotate` | go-libp2p-blossomsub/blossomsub.go:1708-1715 | The in-place loop puts the i-th peer first and shifts those before it |
| `MeshTrim.CountOutbound` | go-libp2p-blossomsub/blossomsub.go:1696-1702 | Counts the outbound peers of the selection |
| `MeshTrim.BubbleUp` | go-libp2p-blossomsub/blossomsub.go:1718-1737 | Each loop gathers outbound peers of its range at the front, latest first, until its quota is met |
| `MeshTrim.Trim` | go-libp2p-blossomsub/blossomsub.go:1694-1738 | The whole rotation in place equals the selection about which the properties are proved |
| `PeerSelection.OfferedExactly` | go-libp2p-blossomsub/blossomsub.go:2165-2198 | What getPeers can return: the passing peers of every slice from the first slice that has any, and nobody if a slice is unknown |
| `PeerSelection.OfferedIsIntersectionIff` | go-libp2p-blossomsub/blossomsub.go:2182-2197 | This is the intersection of all slices if and only if somebody passes in the first slice, nobody in any, or nobody in all of the slices after the leading ones in which nobody passes |
| `PeerSelection.BarrenSliceIsSkipped` | go-libp2p-blossomsub/blossomsub.go:2182-2197 | A peer that is in the second slice only is offered when nobody is in the first |
| `PeerSelection.GetPeers` | go-libp2p-blossomsub/blossomsub.go:2165-2207 | Returns distinct peers: all that are offered, or exactly count of them if count is positive and there are more |
| `RouterSafety.MaintainedIsSound` | go-libp2p-blossomsub/blossomsub.go:1655-1806 | One mesh in a heartbeat, for sane parameters: what was grafted and pruned is exactly what changed, so no peer is both; nobody grafted is direct or backed off; everybody pruned is backed off; and nobody left scores below zero, opportunistic grafts included |
| `RouterSafety.MaintainedSize` | go-libp2p-blossomsub/blossomsub.go:1655-1806 | After it the mesh has at most Dhi + Dout + OpportunisticGraftPeers peers, and at least Dlo unless all that were offered were grafted |
| `RouterSafety.MaintainedOutbound` | go-libp2p-blossomsub/blossomsub.go:1746-1771 | A mesh of at least Dlo peers ends with Dout outbound ones unless all that were offered were grafted |
| `RouterSafety.TrimmedSize` | go-libp2p-blossomsub/blossomsub.go:1682-1744 | A mesh over Dhi is trimmed to exactly D; otherwise it stays at most Dhi |
| `RouterSafety.TrimKeepsBest` | go-libp2p-blossomsub/blossomsub.go:1682-1744 | If Dscore + Dout is at most D the best Dscore peers stay in the mesh and nobody removed scores better than they |
| `RouterSafety.DelayedFacts` | go-libp2p-blossomsub/blossomsub.go:1099-1109 | Adding backoffs never shortens one, and gives every listed peer at least the new expiry |
| `RouterRuns.RouterIsSafe` | go-libp2p-blossomsub/blossomsub.go:936-1069 | Along every run of grafts, prunes, joins, leaves, publications, disconnections and heartbeats: direct peers are in no mesh and no fanout, a bitmask has a mesh or a fanout but not both, every fanout has a last publication; and every further step admits only peers whose backoff has run out and whose score is not negative, and keeps or extends every backoff that has not been over for longer than the slack |
| `RouterRuns.StepInv` | go-libp2p-blossomsub/blossomsub.go:680-701 | Every step keeps that invariant |
| `RouterRuns.StepSafe` | go-libp2p-blossomsub/blossomsub.go:1091-1109 | Every step obeys and keeps the backoffs |
| `RouterRuns.StaysOut` | go-libp2p-blossomsub/blossomsub.go:979-1000 | A peer that is out of a mesh with a backoff until x stays out in every run whose clock readings are before x |
| `RouterRuns.RemovedIsBackedOff` | go-libp2p-blossomsub/blossomsub.go:1341-1361 | Whoever a step other than a disconnection takes out of a mesh gets a backoff of at least that step's interval |
| `RouterRuns.RemovedStaysOut` | go-libp2p-blossomsub/blossomsub.go:1034-1069 | Whoever is pruned, prunes us or is left behind is not in that mesh again before the interval is over, whatever happens in between |
| `RouterRuns.DisconnectedMayReturn` | go-libp2p-blossomsub/blossomsub.go:680-701 | Disconnection is the exception: on a run of a disconnection and a GRAFT the peer is out of the mesh in between and back in it at the end |
| `RouterRuns.RemovedEverywhere` | go-libp2p-blossomsub/blossomsub.go:680-696 | A disconnection takes exactly that peer out of every mesh and every fanout; other peers, the tables' keys, backoffs and publication times stay |
| `RouterRuns.DisconnectedUntilLetIn` | go-libp2p-blossomsub/blossomsub.go:680-701 | On every run after a disconnection the peer is in a mesh only if meanwhile it entered it by its own GRAFT, by our Join or in a heartbeat |
| `RouterRuns.HeartbeatLeaves` | go-libp2p-blossomsub/blossomsub.go:1635-1853 | After a heartbeat in any reachable state: no mesh peer scores below zero, every mesh is bounded, every fanout left was published to within its time to live and its peers reach the publish threshold |
| `RouterRuns.HeartbeatForgets` | go-libp2p-blossomsub/blossomsub.go:1896-1915 | Every 15th heartbeat leaves no backoff that has been over for longer than the slack |
| `RouterRuns.JoinFills` | go-libp2p-blossomsub/blossomsub.go:1283-1339 | A new mesh holds the fit part of the fanout, which is gone, and at least D peers unless all that were offered; everybody in it is neither direct nor backed off nor below zero; and it has at most D unless the fanout had more |
| `RouterRuns.GraftIsSettled` | go-libp2p-blossomsub/blossomsub.go:936-1023 | A GRAFT for a mesh of ours that passes the peer filter ends with the peer in it, refused as direct, or backed off for the whole interval from now; and only an outbound peer takes the mesh past Dhi |
| `RouterEffects.GraftAdmittedIff` | go-libp2p-blossomsub/blossomsub.go:936-1023 | After a GRAFT the peer is in the mesh if and only if it was already, or we have that mesh, the peer passes the filter, is not direct, scores at least zero, has no backoff that is still running, and the mesh is below Dhi or the peer is outbound |
| `RouterEffects.GraftDoes` | go-libp2p-blossomsub/blossomsub.go:936-1023 | A GRAFT changes no other peer and no other mesh; whoever is refused, unless direct, is put off for the prune interval, and no other backoff changes |
| `RouterEffects.PruneDoes` | go-libp2p-blossomsub/blossomsub.go:1034-1056 | A PRUNE takes the peer out of that mesh alone and puts it off for the time that it asked for, or else for ours; without the mesh it does nothing |
| `RouterEffects.LeaveDoes` | go-libp2p-blossomsub/blossomsub.go:1341-1361 | Leaving closes that mesh alone and puts exactly its peers off for the unsubscribe interval |
| `RouterEffects.JoinDoes` | go-libp2p-blossomsub/blossomsub.go:1283-1339 | Of the fanout exactly those enter the new mesh who score at least zero and are not backed off; the fanout and its time go, and other bitmasks are not affected |
| `RouterEffects.ChoosableExactly` | go-libp2p-blossomsub/blossomsub.go:1666-1674 | For a bitmask of one bit the peers to graft from are exactly those subscribed who are not in the mesh, not direct, not backed off and not below zero; those to publish to exactly those subscribed who are not chosen yet, not direct and reach the threshold |
| `RouterEffects.PublishDoes` | go-libp2p-blossomsub/blossomsub.go:1228-1252 | Publishing outside of a mesh notes the time, keeps a fanout that has peers and makes one otherwise; in a mesh or to an unknown slice it changes nothing |
| `RouterEffects.FanoutSurvives` | go-libp2p-blossomsub/blossomsub.go:1819-1827 | On every run a fanout stays, with its time of publication not before x, while clock readings are within the time to live after x and the bitmask is not joined |
| `RouterEffects.HeartbeatFanouts` | go-libp2p-blossomsub/blossomsub.go:1819-1853 | A heartbeat drops a fanout if and only if its time to live is over; one that stays keeps its peers that are still subscribed and reach the threshold, gets only peers that reach it, and does not grow past D |
| `RouterEffects.FilledExactly` | go-libp2p-blossomsub/blossomsub.go:1655-1679 | Peers below zero go first; a mesh that then has fewer than Dlo is filled to exactly D, or takes everybody there is, and one that does not is not filled |
| `RouterEffects.HeartbeatKeeps` | go-libp2p-blossomsub/blossomsub.go:1655-1744 | A heartbeat takes nobody out of a mesh who scores at least zero, unless there are more than Dhi such peers in it |
| `RouterEffects.HeartbeatRemembers` | go-libp2p-blossomsub/blossomsub.go:1896-1915 | A heartbeat forgets or shortens no backoff, but on every 15th those over for longer than the slack |
| `MeshUpkeep.PruneEach` | go-libp2p-blossomsub/blossomsub.go:1639-1645 | Pruning peer by peer removes them, backs them off and notes them for PRUNE |
| `MeshUpkeep.GraftEach` | go-libp2p-blossomsub/blossomsub.go:1647-1653 | Grafting peer by peer adds them and notes them for GRAFT |
| `MeshUpkeep.SortByScore` | go-libp2p-blossomsub/blossomsub.go:1785-1788 | Lists the peers by ascending score, ties in any order |
| `MeshUpkeep.BestThenShuffled` | go-libp2p-blossomsub/blossomsub.go:1682-1694 | Lists the mesh with its best Dscore peers first and the rest in any order |
| `MeshUpkeep.TrimPeers` | go-libp2p-blossomsub/blossomsub.go:1682-1744 | A mesh over Dhi loses exactly what the in-place selection does not keep |
| `MeshUpkeep.FillUp` | go-libp2p-blossomsub/blossomsub.go:1664-1679 | A mesh under Dlo is filled up to D from the peers that may be grafted |
| `MeshUpkeep.FillOutbound` | go-libp2p-blossomsub/blossomsub.go:1746-1771 | A mesh of at least Dlo peers gets the outbound peers it lacks |
| `MeshUpkeep.GraftBetter` | go-libp2p-blossomsub/blossomsub.go:1774-1806 | On its ticks a mesh of more than one peer most of which score below the threshold gets peers, as many as allowed or all that are offered, each of which outscores more than half of the mesh |
| `Opportunistic.MedianIsMedian` | go-libp2p-blossomsub/blossomsub.go:1785-1789 | The score at the middle of the sorted list is a median, whatever the order of ties: of n mesh peers at most n/2 score below it and at most n-1-n/2 above it, and some peer has it |
| `Opportunistic.BetterIsGrafts` | go-libp2p-blossomsub/blossomsub.go:1775-1806 | What the code chooses by the median is what is chosen by counting: only if most of the mesh is below the threshold, and only peers that outscore more than half of it |
| `Opportunistic.GraftsBetter` | go-libp2p-blossomsub/blossomsub.go:1775-1806 | Everybody grafted so outscores at least n/2 + 1 of the n mesh peers and is neither direct, backed off nor in the mesh; somebody is grafted if and only if it is the time, most of the mesh is below the threshold and such a peer is offered; and never more than OpportunisticGraftPeers |
| `MeshUpkeep.Maintain` | go-libp2p-blossomsub/blossomsub.go:1637-1806 | One round over a mesh makes it what some choice allows; the peers noted for GRAFT and PRUNE are exactly the difference |
| `RouterNode.BlossomSubRouter.AddBackoff` | go-libp2p-blossomsub/blossomsub.go:1099-1109 | Moves the expiry forward or leaves it |
| `RouterNode.BlossomSubRouter.HandleGraft` | go-libp2p-blossomsub/blossomsub.go:936-1023 | Refuses or admits a GRAFT in the order of the checks, the peer filter first, and answers with PRUNE if and only if it passes the filter, we are in that mesh and the peer is not afterwards |
| `RouterNode.BlossomSubRouter.HandlePrune` | go-libp2p-blossomsub/blossomsub.go:1034-1056 | Removes the peer and obeys the backoff it asked for, or ours |
| `RouterNode.BlossomSubRouter.Join` | go-libp2p-blossomsub/blossomsub.go:1283-1339 | The new mesh is the fit part of the fanout, which goes, filled up to D |
| `RouterNode.BlossomSubRouter.Leave` | go-libp2p-blossomsub/blossomsub.go:1341-1361 | The mesh goes and everybody in it is backed off for the unsubscribe interval |
| `RouterNode.BlossomSubRouter.Publish` | go-libp2p-blossomsub/blossomsub.go:1205-1252 | Without a mesh, an empty fanout is filled and the time of publication noted; an unknown slice changes nothing |
| `RouterNode.BlossomSubRouter.RemovePeer` | go-libp2p-blossomsub/blossomsub.go:680-701 | Exactly that peer leaves every mesh and fanout; other peers and all other tables stay |
| `RouterNode.BlossomSubRouter.ClearBackoff` | go-libp2p-blossomsub/blossomsub.go:1896-1915 | Every 15th tick the backoffs over for longer than the slack go, and with them empty tables |
| `RouterNode.BlossomSubRouter.ExpireFanout` | go-libp2p-blossomsub/blossomsub.go:1820-1827 | Exactly the fanouts and publication times past the time to live go |
| `RouterNode.BlossomSubRouter.MaintainFanout` | go-libp2p-blossomsub/blossomsub.go:1829-1853 | Each fanout keeps its subscribed peers that reach the publish threshold and is filled up to D |
| `RouterNode.BlossomSubRouter.Heartbeat` | go-libp2p-blossomsub/blossomsub.go:1601-1853 | The heartbeat takes the state to one that the heartbeat relation allows |
| `RouterNode.MaintainMeshes` | go-libp2p-blossomsub/blossomsub.go:1635-1806 | Every mesh is maintained, and the backoffs of other bitmasks stay |
| `RouterNode.UpkeepFanout` | go-libp2p-blossomsub/blossomsub.go:1830-1848 | One fanout is kept up |
| `Interest.InterestAgrees` | go-libp2p-blossomsub/pubsub.go:881-987 | On every run of subscribing, unsubscribing, relaying, cancelling and all other router steps: a bitmask has a mesh if and only if it has a subscription or a relay; announcements about it alternate, beginning with true, and the last says what is wanted; no empty set or zero count is stored; and the keys of both tables are the meshes |
| `Interest.StepAgrees` | go-libp2p-blossomsub/pubsub.go:881-987 | Every step keeps that agreement, bitmask by bitmask |
| `Interest.OtherKeys` | go-libp2p-blossomsub/blossomsub.go:936-1069 | No step other than Join and Leave opens or closes a mesh |
| `Interest.HelloAgrees` | go-libp2p-blossomsub/comm.go:21-44 | The bitmasks a new peer is told of are exactly those joined |
| `Interest.PubSub.HandleAddSubscription` | go-libp2p-blossomsub/pubsub.go:908-929 | Announces and joins on the first interest, and stores the subscription |
| `Interest.PubSub.HandleRemoveSubscription` | go-libp2p-blossomsub/pubsub.go:881-902 | Announces the end and leaves when the last interest is gone; an unknown subscription changes nothing |
| `Interest.PubSub.HandleAddRelay` | go-libp2p-blossomsub/pubsub.go:935-963 | Counts the relay, and announces and joins on the first interest |
| `Interest.PubSub.HandleRemoveRelay` | go-libp2p-blossomsub/pubsub.go:970-987 | Uncounts a relay, and announces the end and leaves when the last interest is gone |
| `Interest.PubSub.GetHelloPacket` | go-libp2p-blossomsub/comm.go:21-44 | Lists each bitmask of interest exactly once; they are the joined ones when the tables agree with the router |
| `OptimisticProvide.AccountingIsSafe` | go-libp2p-kad-dht/lookup_optim.go:238-313 | On every interleaving nothing is sent to or counted from the closed channel and it is closed at most once; if it is closed every completion was received; leases taken and returned differ exactly by those held; and no more completions are received than RPCs issued |
| `OptimisticProvide.SettledAccounts` | go-libp2p-kad-dht/lookup_optim.go:259-313 | At rest exactly rpcCount completions were received and counted, every RPC has a final state and every lease was returned; the channel is closed if and only if more RPCs were issued than waited for |
| `OptimisticProvide.WaitsForThreshold` | go-libp2p-kad-dht/lookup_optim.go:259-280 | On every interleaving the caller hands out leases or has returned if and only if it began to wait, some RPC was issued, and as many completions were counted as the threshold asks for or as RPCs were issued |
| `OptimisticProvide.OutcomeIsReported` | go-libp2p-kad-dht/lookup_optim.go:238-257 | On every interleaving the state of an RPC is success or failure if and only if it returned so |
| `OptimisticProvide.NeverStuckIff` | go-libp2p-kad-dht/lookup_optim.go:259-300 | Once waiting has begun, progress is possible until everything is settled if and only if at least one RPC was issued |
| `OptimisticProvide.HangsWithoutRpcs` | go-libp2p-kad-dht/lookup_optim.go:259-300 | With no RPC issued nothing of ours can ever happen |
| `OptimisticProvide.WaitsForever` | go-libp2p-kad-dht/lookup_optim.go:259-300 | Such a state is reached by beginning to wait before any RPC was issued |
| `OptimisticProvide.OurStepsAreBounded` | go-libp2p-kad-dht/lookup_optim.go:238-313 | After the last RPC was issued our steps are bounded by a measure, however other provides use the job pool |
| `OptimisticProvide.RunInv` | go-libp2p-kad-dht/lookup_optim.go:238-313 | The accounting invariant holds after every run |
| `BitmaskSlices.SlicesExactly` | go-libp2p-blossomsub/pubsub.go:1565-1594 | A bitmask with a bit set has pairwise different slices, which are exactly its set bits, each alone in a bitmask of the same length |
| `BitmaskSlices.SlicesMakeUp` | go-libp2p-blossomsub/pubsub.go:1565-1594 | A bit of any bitmask is set if and only if it is set in some slice |
| `BitmaskSlices.SlicesNonEmpty` | go-libp2p-blossomsub/pubsub.go:1565-1594 | Every bitmask has a slice, also the one without bits |
| `BitmaskSlices.SliceBitmask` | go-libp2p-blossomsub/pubsub.go:1565-1594 | The loop, with its fast path for one-bit bytes, computes those slices |
| `MessageCache.CacheIsLog` | go-libp2p-blossomsub/mcache.go:56-107 | After every sequence of puts, shifts and requests an id is cached if and only if it was put and no put of it has left the window since the last one; it is cached as last put |
| `MessageCache.FreshIsCachedFor` | go-libp2p-blossomsub/mcache.go:56-107 | An id put once is cached if and only if fewer shifts than history slots happened since |
| `MessageCache.PutAgainIsLostEarly` | go-libp2p-blossomsub/mcache.go:97-107 | Put twice, an id is lost when its first put leaves the window |
| `MessageCache.HistoryIsLog` | go-libp2p-blossomsub/mcache.go:97-107 | Slot k holds exactly what was put k shifts ago, in order |
| `MessageCache.GossipIsRecent` | go-libp2p-blossomsub/mcache.go:85-95 | The ids to advertise for a slice are exactly those put under it in the last gossip slots |
| `MessageCache.AdvertisedIsAnswerable` | go-libp2p-blossomsub/mcache.go:16-21 | An advertised id that is put once can still be fetched for history - gossip more shifts |
| `MessageCache.ServedAtMost` | go-libp2p-blossomsub/blossomsub.go:886-934 | On every run in which answers obey the retransmission guard, a peer is sent a message at most GossipRetransmission times before it leaves the window; that the handler obeys it is Gossip.AnswerContinuesRuns |
| `MessageCache.TxIsAsks` | go-libp2p-blossomsub/mcache.go:69-83 | On every run the counter of a peer for a message is exactly how often it asked for it while it was cached, since a put of it last left the window |
| `MessageCache.Window.constructor` | go-libp2p-blossomsub/mcache.go:22-37 | An empty window of the given size |
| `MessageCache.Window.Put` | go-libp2p-blossomsub/mcache.go:56-62 | Stores the message and one entry per slice in the current slot |
| `MessageCache.Window.GetForPeer` | go-libp2p-blossomsub/mcache.go:69-83 | Finds a message and counts the request |
| `MessageCache.Window.GetGossipIDs` | go-libp2p-blossomsub/mcache.go:85-95 | Collects the ids of the last gossip slots with that slice, in order |
| `MessageCache.Window.Shift` | go-libp2p-blossomsub/mcache.go:97-107 | Evicts the oldest slot, messages and counts included, and moves the others in place |
| `Gossip.AskedIsBounded` | go-libp2p-blossomsub/blossomsub.go:814-884 | Between heartbeats no peer is asked for more than MaxIHaveLength ids, and the counter is exactly what it was asked for |
| `Gossip.NewIdsExactly` | go-libp2p-blossomsub/blossomsub.go:835-857 | An id is new if and only if it was not seen and is among the first MaxIHaveLength ids of an IHAVE for a joined bitmask that passes the filter |
| `Gossip.AskedExactly` | go-libp2p-blossomsub/blossomsub.go:814-884 | Between heartbeats a peer is asked for exactly as many ids as its first MaxIHaveMessages trusted advertisements offered new ones, up to MaxIHaveLength |
| `Gossip.Gossiper.DecideIHave` | go-libp2p-blossomsub/blossomsub.go:814-878 | The ids to ask for are distinct, not seen, advertised for a joined bitmask among the first MaxIHaveLength of their IHAVE, and as many as the limits allow |
| `Gossip.Gossiper.HandleIHave` | go-libp2p-blossomsub/blossomsub.go:814-884 | Asks accordingly, and tracks one of the ids as promised exactly when there is one, so a promise is never picked from an empty list |
| `Gossip.Gossiper.HandleIWant` | go-libp2p-blossomsub/blossomsub.go:886-934 | Answers with exactly the cached messages asked for that were not asked for too often before, are not filtered, not the peer's own and not unwanted, counts every request, and continues every run of the cache that led here by one that obeys the retransmission guard |
| `Gossip.AnswerContinuesRuns` | go-libp2p-blossomsub/blossomsub.go:886-934 | Asking for the ids and sending an answer that meets the guard continues every run of the cache within the limit on retransmissions, and serves each id of the answer exactly once more |
| `Promises.PromisesAreSettledOnce` | go-libp2p-blossomsub/gossip_tracer.go:48-144 | On every run a promise is made exactly as often as it is outstanding, was counted as broken, was fulfilled or was voided, together |
| `Promises.DeadlineStands` | go-libp2p-blossomsub/gossip_tracer.go:48-144 | On every run a promise keeps the deadline it was made with, also if it is made again, until the message arrives or the peer is throttled: a check counts it as broken if and only if the deadline has passed |
| `Promises.Tracer.AddPromise` | go-libp2p-blossomsub/gossip_tracer.go:48-76 | Tracks one of the ids unless it is tracked already; both indexes agree and have no empty inner map |
| `Promises.Tracer.GetBrokenPromises` | go-libp2p-blossomsub/gossip_tracer.go:80-116 | Counts for each peer exactly its overdue promises and removes them from both indexes |
| `Promises.Tracer.BreakMessage` | go-libp2p-blossomsub/gossip_tracer.go:92-111 | Does so for one message |
| `Promises.Tracer.FulfillPromise` | go-libp2p-blossomsub/gossip_tracer.go:120-144 | Removes everybody's promise of a message from both indexes |
| `Promises.Tracer.ThrottlePeer` | go-libp2p-blossomsub/gossip_tracer.go:185-204 | Removes all promises of a peer from both indexes |
| `Deliveries.RunInv` | go-libp2p-blossomsub/score.go:704-896 | Along every run with a clock that does not run backwards: the ids on the list are distinct and are the keys of the map, expiries are sorted, and the forwarders are released exactly for records settled as invalid, throttled or ignored, so no released map is written to |
| `Deliveries.CollectsExactly` | go-libp2p-blossomsub/score.go:882-896 | Collection removes a record if and only if it has expired, and leaves the others as they are |
| `Deliveries.SettledStays` | go-libp2p-blossomsub/score.go:713-811 | A record that is kept is settled at most once |
| `Deliveries.DuplicateCreditedOnce` | go-libp2p-blossomsub/score.go:727-846 | In the life of a record every peer gets at most one duplicate credit |
| `Deliveries.FirstDelivererCreditedAgainIff` | go-libp2p-blossomsub/score.go:729-735 | On every run that goes on from a first delivery while the record is kept, the first deliverer gets a duplicate credit besides if and only if it sends the message again after the delivery and had not done so before |
| `Deliveries.FirstDelivererCreditedTwice` | go-libp2p-blossomsub/score.go:813-838 | A run on which the first deliverer gets both credits |
| `Deliveries.RepeatsAfterReject` | go-libp2p-blossomsub/score.go:777-846 | On every run that goes on from a rejection that settled the record, while it is kept, a repeat is penalised if and only if the reason was that the message is invalid, and otherwise has no effect |
| `Deliveries.RepeatsAfterDeliver` | go-libp2p-blossomsub/score.go:713-846 | On every run that goes on from a delivery that settled the record, while it is kept, a repeat gets a duplicate credit or nothing, and is never penalised |
| `Deliveries.ForwardersExactly` | go-libp2p-blossomsub/score.go:813-846 | On every run, while a message is not settled, its forwarders are exactly those who repeated it in the life of the record |
| `Deliveries.SettlingCredits` | go-libp2p-blossomsub/score.go:713-811 | So a delivery credits exactly the deliverer and everybody else who repeated the message, and a rejection penalises exactly the sender and those, if and only if the message is invalid |
| `Deliveries.RecordLivesFor` | go-libp2p-blossomsub/score.go:859-896 | On every run a record is kept until its expiry, whatever happens to the message |
| `Deliveries.CollectedWhenDue` | go-libp2p-blossomsub/score.go:859-896 | A record made at some time is gone with a collection if and only if that is later than this time plus the time to live |
| `Deliveries.DuplicatesAtMostLives` | go-libp2p-blossomsub/score.go:713-846 | On every run all duplicate credits of a peer together number at most the records that were made, however often it repeats messages |
| `Deliveries.MessageDeliveries.GetRecord` | go-libp2p-blossomsub/score.go:859-880 | Finds the record, or makes it and links its entry at the tail |
| `Deliveries.MessageDeliveries.ValidateMessage` | go-libp2p-blossomsub/score.go:704-711 | Makes the record |
| `Deliveries.MessageDeliveries.DeliverMessage` | go-libp2p-blossomsub/score.go:713-738 | Credits the deliverer, settles the record once, and credits everybody else who forwarded the message exactly once |
| `Deliveries.MessageDeliveries.RejectMessage` | go-libp2p-blossomsub/score.go:774-811 | Settles the record once: as invalid if and only if the reason is that the message is invalid, and then the sender is penalised, and each forwarder once more |
| `Deliveries.MessageDeliveries.DuplicateMessage` | go-libp2p-blossomsub/score.go:813-846 | Notes the forwarder, and credits or penalises it by the status of the record |
| `Deliveries.MessageDeliveries.Gc` | go-libp2p-blossomsub/score.go:882-896 | Drops expired entries from the head; the list stays linked and an empty one has no tail |
| `PeerScore.DisconnectingNeverPays` | go-libp2p-blossomsub/score.go:616-651 | With validated parameters and non-negative first-delivery counters, a peer's score after RemovePeer is at most its score before, whether its counters are dropped or retained |
| `PeerScore.DisconnectingPaysIff` | go-libp2p-blossomsub/score.go:616-651 | Without that assumption, RemovePeer raises a score if and only if the score is not positive, what the retired counters score together is negative, and the bitmask scores were not at their cap |
| `PeerScore.ReconnectingPaysIff` | go-libp2p-blossomsub/score.go:600-651 | Disconnecting and coming back from the same addresses raises the score if and only if it was positive although the capped bitmask scores and the behaviour penalty together were negative, or was retained with a negative part to retire below the cap; with non-negative first-delivery counters a retained score never rises |
| `PeerScore.ReconnectingLosesIff` | go-libp2p-blossomsub/score.go:600-651 | It lowers the score if and only if the score was positive and the capped bitmask scores and the behaviour penalty together were positive, or it was retained, the part that is retired is positive and the rest is below the cap |
| `PeerScore.ReconnectingCanLose` | go-libp2p-blossomsub/score.go:616-651 | A peer with a positive score and one with a negative score that lose by it |
| `PeerScore.RetiredScoresExactly` | go-libp2p-blossomsub/score.go:634-647 | For one bitmask the retained counters score exactly the time in the mesh, the first deliveries and the deficit turned into a penalty less |
| `PeerScore.ReconnectingCanPay` | go-libp2p-blossomsub/score.go:627-632 | A peer for which it does |
| `PeerScore.TotalWithout` | go-libp2p-blossomsub/score.go:276-320 | The sum over the bitmasks does not depend on the order |
| `PeerScore.RetiredScoresNoMore` | go-libp2p-blossomsub/score.go:634-647 | For one bitmask the retained counters score no more than before |
| `PeerScore.ConnectedAgrees` | go-libp2p-blossomsub/score.go:1047-1085 | Connecting keeps the index by address in agreement with the peers' addresses |
| `PeerScore.DroppedAgrees` | go-libp2p-blossomsub/score.go:1088-1100 | So does dropping a peer |
| `PeerScoreRuns.EngineIsSafe` | go-libp2p-blossomsub/score.go:901-916 | On every run from an engine without peers: counters exist only for scored bitmasks, so no threshold or cap is looked up that is missing; the index by address agrees; and, if no cap on first deliveries is ever negative, disconnecting never pays |
| `PeerScoreRuns.StepInv` | go-libp2p-blossomsub/score.go:507-702 | Every event of the engine keeps that |
| `PeerScoreRuns.RefreshInv` | go-libp2p-blossomsub/score.go:507-568 | Decay and the lapse of retained counters keep it |
| `PeerScoreRuns.SetParamsInv` | go-libp2p-blossomsub/score.go:201-242 | New parameters that validation accepts keep it, counters being lowered to lowered caps |
| `PeerScoreRuns.FreshInv` | go-libp2p-blossomsub/score.go:182-194 | It holds of an engine without peers |
| `PeerScoreRuns.NegativeCapCanPay` | go-libp2p-blossomsub/score_params.go:307-315 | A run with a negative cap of weight zero after which disconnecting raises a score |
| `PeerScoreEffects.TimeMoves` | go-libp2p-blossomsub/score.go:287-294 | In the mesh k whole quanta of time earn the weight times the smaller of k and the cap, and outside of it time earns nothing |
| `PeerScoreEffects.FirstMoves` | go-libp2p-blossomsub/score.go:296-298 | First deliveries count linearly with their weight |
| `PeerScoreEffects.MeshMoves` | go-libp2p-blossomsub/score.go:300-307 | Deliveries in the mesh count by the square of what they fall short of the threshold, and only while the penalty is active |
| `PeerScoreEffects.FailureMoves` | go-libp2p-blossomsub/score.go:309-312 | Mesh failures count linearly with their weight |
| `PeerScoreEffects.InvalidMoves` | go-libp2p-blossomsub/score.go:314-317 | One more invalid message changes the score of a bitmask by its weight times twice the number of those before plus one |
| `PeerScoreEffects.InvalidDeliveryCosts` | go-libp2p-blossomsub/score.go:920-936 | With validated parameters an invalid message changes the sum over the bitmasks by exactly that times the weight of the bitmask and no other peer's score; it never raises the score of the sender, and lowers it if and only if both weights are not zero and the sum is below the cap afterwards |
| `PeerScoreEffects.InvalidNeverPays` | go-libp2p-blossomsub/score.go:920-936 | On every run of the engine from its start an invalid message does not raise the score of its sender |
| `PeerScoreEffects.FirstDeliveryEarns` | go-libp2p-blossomsub/score.go:938-966 | A first delivery changes the sum by exactly what one more first delivery counts, up to its cap, and in the mesh what one more delivery there counts |
| `PeerScoreEffects.FirstDeliveryCostsIff` | go-libp2p-blossomsub/score.go:938-966 | It lowers the score of its deliverer if and only if that change is negative, which takes a counter above its cap, the bitmask has a weight and the sum is below the cap afterwards |
| `PeerScoreEffects.FirstDeliveryCanCost` | go-libp2p-blossomsub/score_params.go:307-315 | A run with validated parameters after which a first delivery takes a score from 20 to 10: a counter of weight zero decays upwards past its cap, and new parameters that give it a weight do not lower it |
| `PeerScoreEffects.FirstDeliveryNeverCosts` | go-libp2p-blossomsub/score.go:938-966 | It lowers no score, with validated parameters and counters that are not above their caps |
| `PeerScoreEffects.DuplicateDeliveryEarns` | go-libp2p-blossomsub/score.go:970-1000 | A repeated delivery counts as a delivery in the mesh if it comes within the window, and else for nothing |
| `PeerScoreEffects.PruneCosts` | go-libp2p-blossomsub/score.go:678-702 | A prune costs the time in the mesh, and adds the squared shortfall of an active penalty to the failures, exactly |
| `PeerScoreEffects.GraftStartsOver` | go-libp2p-blossomsub/score.go:656-676 | A graft puts the peer in the mesh from now on, and its time there and an active shortfall start over, exactly |
| `PeerScoreEffects.PenaliseCosts` | go-libp2p-blossomsub/score.go:393-408 | A penalty changes the score by the difference of the squared surpluses over the threshold times the weight, and never raises it |
| `PeerScoreEffects.ColocationMoves` | go-libp2p-blossomsub/score.go:346-390 | One more peer at an address adds, for each time it is listed and unless it is whitelisted, the difference of the squared surpluses |
| `PeerScoreEffects.CrowdingCosts` | go-libp2p-blossomsub/score.go:330-344 | So one more peer at an address changes everybody's score by exactly that times the weight, and raises none |
| `PeerScoreEffects.DecayShrinks` | go-libp2p-blossomsub/score.go:534-559 | A counter that decays shrinks unless it is zero, and is zero or at least the cut-off |
| `PeerScoreEffects.RefreshKeepsIff` | go-libp2p-blossomsub/score.go:512-532 | A refresh forgets a peer if and only if it is not connected and its time has run out, and does not touch the counters of others that are not connected |
| `PeerScoreEffects.RetainedFor` | go-libp2p-blossomsub/score.go:512-532 | A score that is not positive is retained for exactly the configured time after a disconnection |
| `DeliveryScores.DeliveryCountersAreBounded` | go-libp2p-blossomsub/score.go:713-1000 | On every run of the delivery records together with the engine they drive: the first-delivery counter of a peer is at most the number of messages it was the first to deliver, and its mesh-delivery counter exceeds that by at most the number of records made; provided that decay lowers the counter |
| `DeliveryScores.WeighedDecaysAlong` | go-libp2p-blossomsub/score_params.go:307-344 | Validated parameters meet that proviso for every counter that has a weight |
| `DeliveryScores.UnweighedCanGrow` | go-libp2p-blossomsub/score_params.go:307-315 | Without a weight they need not: a run on which one delivery counts as two |
| `DeliveryScores.StepBounded` | go-libp2p-blossomsub/score.go:507-702 | No event raises a delivery counter by more than one, and only a credited delivery raises it |
| `DeliveryScores.TraceRaises` | go-libp2p-blossomsub/score.go:713-846 | The credits of one trace raise a counter at most once for a first delivery and once for a duplicate |
| `DeliveryScores.TraceCounts` | go-libp2p-blossomsub/score.go:713-966 | On every run a trace raises the first-delivery counter of a connected peer by one, up to the cap, if and only if the peer delivered the message, and its counter of invalid messages by exactly as often as the trace blames it |
| `PeerScoreEngine.Scorer.ScoreOf` | go-libp2p-blossomsub/score.go:267-344 | The loop in any order computes the score, of which PeerScoreEffects says how every event moves it |
| `PeerScoreEngine.Scorer.IpColocationFactor` | go-libp2p-blossomsub/score.go:346-390 | Sums the squared surplus over the addresses that are not whitelisted |
| `PeerScoreEngine.Scorer.RemovePeer` | go-libp2p-blossomsub/score.go:616-651 | Drops a peer with a positive score, and retires the counters of any other |
| `PeerScoreEngine.Scorer.AddPeer` | go-libp2p-blossomsub/score.go:600-614 | Makes or keeps the counters and tracks the addresses |
| `PeerScoreEngine.Scorer.SetBitmaskScoreParams` | go-libp2p-blossomsub/score.go:201-242 | Sets the parameters and recaps exactly when a cap was lowered |
| `PeerScoreEngine.ScoreBitmask` | go-libp2p-blossomsub/score.go:284-316 | The five parts of one bitmask's score, of which the Moves lemmas of PeerScoreEffects say what each counter contributes |
| `PeerScoreEngine.RetireAll` | go-libp2p-blossomsub/score.go:634-647 | The loop that resets first deliveries and applies the sticky penalty |
| `PeerScoreEngine.SetIPs` | go-libp2p-blossomsub/score.go:1047-1085 | Adds the new addresses and removes the obsolete ones |
| `PeerScoreEngine.RemoveIPs` | go-libp2p-blossomsub/score.go:1088-1100 | Removes all addresses of a peer |
| `Validation.Validate` | go-libp2p-blossomsub/validation.go:300-377 | For every split into inline and asynchronous validators, every order of arrival and every throttling, the outcome is the worst of all verdicts, in the order accept, ignore, throttled, reject |
| `Validation.RunInline` | go-libp2p-blossomsub/validation.go:330-342 | The inline loop, with its early end, gives the worst of its verdicts |
| `Validation.CollectAsync` | go-libp2p-blossomsub/validation.go:441-462 | So does the loop over arriving verdicts |
| `Validation.RunAsync` | go-libp2p-blossomsub/validation.go:417-478 | So do the asynchronous validators together, in whatever order they finish, with the fast path for one |
| `Validation.SplitValidators` | go-libp2p-blossomsub/validation.go:321-328 | Each validator runs inline or asynchronously, in order |
| `Validation.SplitJoins` | go-libp2p-blossomsub/validation.go:322-377 | The worst of the two parts is the worst of all |
| `Validation.JoinAllPermutes` | go-libp2p-blossomsub/validation.go:441-462 | The worst verdict does not depend on the order |
| `Validation.JoinAllExactly` | go-libp2p-blossomsub/validation.go:330-377 | The verdict of all is reject if one rejects, else throttled if one is, else ignore if one ignores, else accept |
| `Validation.PublishedIffAccepted` | go-libp2p-blossomsub/validation.go:300-413 | On every run of the pipeline a message is sent on or published only if every one of its validators was asked and accepts it, and dropped only if one does not or was throttled |
| `Validation.NextIsRight` | go-libp2p-blossomsub/validation.go:343-413 | Every stage of the pipeline goes on exactly as the worst of all verdicts says |
| `Validation.PublishedAtMostOnce` | go-libp2p-blossomsub/pubsub.go:1268-1279 | On every run the publications of a message, by the direct, inline or asynchronous path, number at most the times it was newly marked as seen, hence at most one more than the seen cache forgot it |
| `Varint.CodeRoundTrip` | go-multiaddr/varint.go:11-28 | Exactly the codes in range are encoded, and each is read back whatever bytes follow |
| `Varint.ReadCodeCanonical` | go-multiaddr/varint.go:18-28 | Whatever is accepted is the one minimal encoding of its value |
| `Varint.ReadCodeExtends` | go-multiaddr/varint.go:18-28 | Bytes after a number do not change what is read |
| `Varint.DecodeEncode` | go-multiaddr/varint.go:11-28 | Reading undoes writing at every position within the nine-byte limit |
| `Varint.DecodeCanonical` | go-multiaddr/varint.go:18-28 | What was read encodes to the bytes consumed |
| `Multiaddr.ProtocolTable.AddProtocol` | go-multiaddr/protocol.go:56-80 | Registers a protocol under its name and code unless either is taken or its parts disagree |
| `Multiaddr.ProtocolTable.AddAlias` | go-multiaddr/protocols.go:378-380 | Adds a second name |
| `Multiaddr.ValidShape` | go-multiaddr/component.go:286-342 | A valid component is its protocol's frame around its value and nothing else |
| `Multiaddr.NewComponentRebuilds` | go-multiaddr/component.go:246-281 | Building a component from its protocol and value gives it back |
| `Multiaddr.ReadComponentComplete` | go-multiaddr/codec.go:70-131 | Components are self-delimiting: whatever follows, the component is read back, value start included |
| `Multiaddr.ReadComponentSound` | go-multiaddr/codec.go:70-131 | What the reader returns is a readable component |
| `Multiaddr.BinaryRoundTripIff` | go-multiaddr/codec.go:70-157 | The bytes of an address decode to that address if and only if it is not empty, its components are readable and only the last is a path |
| `Multiaddr.BinaryDecodeSound` | go-multiaddr/codec.go:133-157 | Whatever is accepted, its components concatenate back to it |
| `Multiaddr.EmptyValueUnreadable` | go-multiaddr/codec.go:102-131 | The bytes of a valid component of a registered protocol with an empty length-prefixed value are refused |
| `Multiaddr.EmptyValueAcceptedIff` | go-multiaddr/component.go:246-342 | Such a component can be made if and only if the transcoder of the protocol accepts the empty value |
| `Multiaddr.EmptyValueIsMade` | go-multiaddr/codec.go:116-118 | A registry with one protocol for which it can |
| `Multiaddr.WriteBytes` | go-multiaddr/multiaddr.go:88-100 | Concatenates the component bytes |
| `Multiaddr.ReadMultiaddr` | go-multiaddr/codec.go:133-157 | The loop reads components until the end, refusing anything after a path |
| `MultiaddrText.TextRoundTrip` | go-multiaddr/codec.go:11-68 | The text of every non-empty address of printable components with a path only in last place parses to the bytes of the address |
| `MultiaddrText.NewMultiaddrRoundTrip` | go-multiaddr/multiaddr.go:29-43 | If moreover its length-prefixed values are not empty, it parses to the very same components |
| `MultiaddrText.AcceptedTextRoundTrip` | go-multiaddr/multiaddr.go:29-43 | Over a standard registry of lawful protocols, whatever text is accepted stands for an address that prints to a text that parses to that address |
| `MultiaddrText.ParseComponent` | go-multiaddr/codec.go:29-66 | The words of a component parse to its bytes, a path taking all words that remain |
| `MultiaddrText.ComponentTextIsWords` | go-multiaddr/component.go:209-226 | A component prints as its words, each after a slash |
| `MultiaddrText.TrimSlashes` | go-multiaddr/codec.go:12-13 | Removes all trailing slashes |
| `MultiaddrText.ParseText` | go-multiaddr/codec.go:11-68 | The loop over the words computes the parse |
| `MultiaddrText.WriteComponent` | go-multiaddr/component.go:209-226 | Appends the text of a component |
| `MultiaddrText.WriteText` | go-multiaddr/multiaddr.go:103-110 | Appends the text of all components |
| `Transcoders.NumbersLawful` | go-multiaddr/transcoders.go:62-82 | Ports, CIDR masks and memory addresses meet the contract on every argument of their size |
| `Transcoders.NumberRoundTrip` | go-multiaddr/transcoders.go:143-156 | Decimal text and big-endian bytes of fixed length invert each other |
| `Transcoders.NamesLawful` | go-multiaddr/transcoders.go:397-442 | Domain names, zones and unix paths meet the contract, and accept no empty value |
| `Transcoders.FormatParses` | go-multiaddr/transcoders.go:143-156 | Decimal text parses to the number it was made from |
| `DnsResolve.DecapsulateEncapsulate` | go-multiaddr/multiaddr.go:194-234 | Decapsulating undoes encapsulating for every address and every suffix |
| `DnsResolve.DecapsulateSuffix` | go-multiaddr/multiaddr.go:199-234 | An address that ends with a suffix loses exactly that suffix |
| `DnsResolve.DecapsulateLoop` | go-multiaddr/multiaddr.go:199-234 | The nested loops cut at the last match |
| `DnsResolve.SplitFunc` | go-multiaddr/util.go:86-107 | Splits before the first component that satisfies the callback |
| `DnsResolve.Offset` | go-multiaddr-dns/util.go:42-51 | Drops the given number of components |
| `DnsResolve.GetResolver` | go-multiaddr-dns/resolve.go:84-109 | The resolver of the longest suffix of the domain that has one, or the default |
| `DnsResolve.DnsaddrResultsAreRecords` | go-multiaddr-dns/resolve.go:185-275 | Every dnsaddr result is what came before the DNS component followed by a whole TXT address that ends with what came after it |
| `DnsResolve.AcceptedIsResolved` | go-multiaddr-dns/resolve.go:207-253 | Every record that is accepted is among the matches |
| `DnsResolve.MatchRecords` | go-multiaddr-dns/resolve.go:207-253 | The loop keeps the records that end with the suffix, without it |
| `DnsResolve.WrapAll` | go-multiaddr-dns/resolve.go:262-275 | Puts what came before and after around every match |
| `DnsResolve.CollectIps` | go-multiaddr-dns/resolve.go:159-184 | Turns the records of the right family into addresses |
| `DnsResolve.IpAddrsOfFamily` | go-multiaddr-dns/resolve.go:145-184 | The lookup fails if and only if a record of the wanted family cannot be converted; otherwise it yields the addresses of exactly the records of that family, in order |
| `DnsResolve.IpResultsOfFamily` | go-multiaddr-dns/resolve.go:145-184 | So the results are the first 100 records of that family at most, each between what came before and after, and below the cap none is missing |
| `DnsResolve.Resolve` | go-multiaddr-dns/resolve.go:113-278 | Nothing for an empty address, the address itself if it has no DNS component, and otherwise the resolution of its first one: for dns4 only IPv4, for dns6 only IPv6 and for dns both kinds of addresses, in order, all of them up to the cap of 100 |

## Left out

- KadLookup: dialing, the query function and the routing table are events; that peers have the same distance only if they are the same is built into naming them by it.
- OptimisticProvide: modelled on values, since its steps interleave between goroutines; the estimate of the network size and the stop condition of the lookup are not modelled, and the issuing of RPCs is any sequence.
- RpcPacking: that packing shares sub-messages with its inputs by reference is not captured; an RPC is a value.
- Interest: retries of announcements to peers with full queues, which can change their order on the wire, are not modelled; announcements are the calls to announce.
- Router: flood publishing, the peers a message is sent to, peer exchange, gossip emission and the piggybacking of control messages are not modelled; neither are the penalties added for early GRAFTs. Publishing to several slices is one step per slice, up to the first unknown one.
- RouterNode.MaintainMeshes: the loop over the meshes works on the two tables as values and stores them at the end of the loop; the original updates them in place.
- PeerSelection.GetPeers: the set of peers that pass the filter is a parameter, since the filters are closures over the caller.
- MessageCache.Window: that the slot given back by a shift reuses its memory is not captured; the slots of the array hold sequences.
- Gossip: the expiry of IDONTWANT entries and the score threshold itself are parameters.
- Promises.Tracer.GetBrokenPromises: an inner map that becomes empty is removed at once, not at the end of its loop.
- Deliveries: rejections that are not tracked (signature, blacklist and queue reasons) touch no record and are not events.
- DeliveryScores: whether a repeat comes within the delivery window is a free choice of each event.
- PeerScoreRuns: parameter sets that skip atomic validation are excluded by GoodParams; IP addresses are refreshed only by connecting.
- PeerScore: NaN, infinities and rounding are not modelled.
- PeerScoreEngine.Scorer: decay is stated and proved on values in PeerScoreRuns and has no method.
- Validation: signature checks, and validators that return anything but accept, ignore and reject, are not modelled; goroutines and channels appear as orders of arrival and as steps of the pipeline.
- Transcoders: IP address, http-path, base32, base58, CID, multihash and certificate-hash codecs appear only through the contract MultiaddrText.Lawful.
- Multiaddr: comparison, the JSON form and the helpers Unique, FilterAddrs and ForEach are not modelled.
- DnsResolve: the lookups themselves are parameters.
- Consensus, hypergraph, cryptographic bindings, node configuration and clients are not part of this model.

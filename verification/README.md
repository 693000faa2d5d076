# CAMO: verified models of circuits, the SIM pool and gossip

This project models the three stateful components of CAMO in Dafny and proves what they keep over all
inputs, all random choices and all runs.

* **Circuits** (`Scoring`, `Selection`, `Constructor`, `Neighbours`, `BuildExact`, `CircuitStore`,
  `CircuitRotation`). Random reads are a parameter `draws`, one value per read, so a statement without a
  condition on `draws` holds for every random outcome, failed reads included. Each loop of the source is a
  method proved equal to a specification function (`Ranked`, `Select`, `BuildResult`, `Pass`). `LegalPicks` and
  `AllowedChoice` describe, without any randomness, which selections are permitted; they are proved to be
  exactly the reachable ones.
* **SIM pool** (`SimPool`, `SimRotation`, `SimCycle`, `SimPoolCode`, `Liveness`). The pool is a state machine
  whose events are the sections the source runs under its lock; the class `PoolManager` holds the loops, and
  each method is proved to take a step of the machine. The theorems range over all event sequences, so
  allocations, releases, failures and recoveries interleave freely with the two phases of a rotation.
* **Gossip** (`Calendar`, `GossipRecord`, `GossipStore`, `GossipExact`, `Flood`, `FloodBounds`, `FloodForged`,
  `FloodListing`, `GossipServer`). One store over timed runs, and a network of stores over a fixed, lossless
  peer graph in which a handler's checks, the store and every single send are separate steps, and in which
  anyone may deliver any message at any time. `Composition` joins gossip to circuit construction.

The invariants `Sound`, `Keyed` and `Filed` that some methods require say that a table files its entries under
their own identifiers; the constructors establish them and every operation keeps them (`RunSound`,
`KeyedAlways`, `AlwaysTrustworthy`).

Where the code and the documentation differ, the model follows the code:

* Consecutive hops may share a jurisdiction (section 10.2, step 3b forbids it). `NeighboursCanAgree` is a
  network that passes both gates and a circuit built in it. `NeighboursAgreeExactly` says in closed form, from
  the ranked jurisdictions alone, when it can happen; `SomeSelectionRepeatsIff` decides it for every list, with
  repeated ids, too few nodes or nodes without jurisdiction; `NeighboursDiffer` is a condition to check by
  counting.
* The minimum network of section 10.5 does not suffice. `ExitCanBeMissing` is a network that meets it and fails
  with no exit left, since exit-capable nodes also serve as middle hops. `AlwaysBuildsIff` says exactly which
  networks never fail, `NeverRunsOutIff` which never run out of middle hops.
* Nodes are described as sorted by uptime and then SIM pool size, but a weighted sum is compared:
  `UptimeOutweighed` is an input, `DocumentedOrderIff` the exact condition.
* A rotation replaces between 1 and max(1, active/2 - 1) SIMs; the comment in `camo-simpool/rotation.go` and
  section 7.5 say up to active/2.
* A drain can return a failed SIM to dormant without a recovery: `FailedSimRevived` is a run from every fresh
  pool, `DrainRevivesIff` the exact condition.
* A teardown can remove a peer that another device's circuit uses: `SharedServerLosesPeer` is a run,
  `TeardownKeepsCoverIff` the exact condition.
* `put` overwrites a newer stored record by an older one: `OlderOverwritesNewer` is a run, `HoldsNewestIff` the
  exact condition.
* Forwarding to all peers but the sender reaches every node only if senders are who they seem to be: in
  `PosingAsPeerBreaksCoverage` a copy delivered from a peer's address keeps the record from that peer.
  `StepSpreadsIff` says exactly which steps stop a flood from spreading; with honest senders there are none.

## Model

| member | source | states |
|---|---|---|
| RandomSource.RandomInt | camo-circuit/main.go:211-224 | the result is in [0, n); the errors are exactly a non-positive n and a failed read |
| RandomSource.WordInjective | camo-circuit/main.go:215-219 | four different byte values give different words, so draws are in bijection with the 2^32 words |
| RandomSource.RandomIntCongruent | camo-circuit/main.go:219-223 | the result differs from the word by a multiple of n, which with its range determines it |
| RandomSource.WordBigEndian | camo-circuit/main.go:219 | the four bytes stand in the word from the most significant down |
| RandomSource.NearlyUniform | camo-circuit/main.go:211-224 | over all 2^32 words, any two outcomes of the function itself occur equally often up to one |
| RandomSource.RandomInt32InRangeIff | camo-circuit/main.go:219-223 | with 32-bit integers the range promise fails for exactly one word, and only if n does not divide 2^31 |
| RandomSource.RandomInt32Value | camo-circuit/main.go:219-223 | for the other words a 32-bit platform gives the result for the word or for its complement to 2^32 |
| Scoring.ScoreNodes | camo-circuit/constructor.go:209-220 | the in-place insertion sort without early exit computes the stable descending order |
| Scoring.SinkIntoPlace | camo-circuit/constructor.go:213-217 | one run of the inner loop inserts the element into the sorted prefix and touches nothing behind it |
| Scoring.RankedDescending | camo-circuit/constructor.go:209-224 | scores never rise along the result |
| Scoring.RankedPermutes | camo-circuit/constructor.go:209-220 | the result is a permutation of the input |
| Scoring.RankedStable | camo-circuit/constructor.go:209-220 | nodes of equal score keep their order |
| Scoring.StableOrderUnique | camo-circuit/constructor.go:209-220 | order and stability determine the result uniquely |
| Scoring.RankedByFigures | camo-circuit/constructor.go:209-227 | on the announced figures: who ranks behind does not make up in SIMs what it lacks in uptime, a full unit of which counts as 100 SIMs |
| Scoring.RankedOrderIff | camo-circuit/constructor.go:207-224 | one node comes before another in the ranking if and only if it scores higher, or as high and comes first in the input |
| Scoring.DocumentedOrderIff | camo-circuit/constructor.go:207-224 | the ranking is by uptime and then SIM pool size if and only if no candidate with more uptime is outweighed by another's SIMs |
| Scoring.UptimeOutweighed | camo-circuit/constructor.go:222-224 | two nodes of which the one with less uptime ranks first |
| Selection.SelectMiddleHops | camo-circuit/constructor.go:157-205 | the selection loop computes the selection that its draws determine |
| Selection.EligibleNodes | camo-circuit/constructor.go:166-181 | the eligible nodes are those of the top three outside the last jurisdiction, or all of them if there are none |
| Selection.SelectIsLegal | camo-circuit/constructor.go:164-199 | every successful selection is a legal sequence of picks of the requested length |
| Selection.EveryLegalPickReachable | camo-circuit/constructor.go:164-199 | every legal sequence of picks is produced by some draws |
| Selection.PickDrawn | camo-circuit/constructor.go:166-198 | every pick is the one its draw points at among the eligible nodes, in ranked order |
| Selection.SelectExact | camo-circuit/constructor.go:157-205 | selection succeeds if and only if there are n distinct server ids and n readable draws; otherwise which error |
| Selection.PickAt | camo-circuit/constructor.go:171-198 | the i-th pick is eligible among exactly the candidates that no earlier pick excluded |
| Selection.PicksDistinct | camo-circuit/constructor.go:187-198 | picks are candidates with pairwise distinct ids, even if ids repeat in the input |
| Selection.NearBest | camo-circuit/constructor.go:162-187 | at most two still available candidates score strictly higher than a pick |
| Selection.NeighboursAgreeIff | camo-circuit/constructor.go:171-189 | neighbouring middle hops agree in jurisdiction if and only if the whole top pool at that step had it |
| Selection.NeighboursDiffer | camo-circuit/constructor.go:164-189 | with distinct ids, n+2 candidates and at most three per jurisdiction, neighbouring middle hops differ |
| Constructor.JurisdictionCount | camo-circuit/constructor.go:233-239 | counts the distinct primary jurisdictions |
| Constructor.IsIn | camo-circuit/constructor.go:241-248 | true exactly if a hop has the id |
| Constructor.ExitCandidates | camo-circuit/constructor.go:91-107 | the exits outside the last hop's jurisdiction that are not middle hops, in order |
| Constructor.AssembleHops | camo-circuit/constructor.go:124-142 | the middle hops in order, then the exit, with indexes and exit mark |
| Constructor.Build | camo-circuit/constructor.go:49-153 | the whole construction, every error included, as a function of its inputs and draws |
| Constructor.BuiltFromAllowedChoice | camo-circuit/constructor.go:49-153 | every built circuit is an allowed choice of middle hops and exit, the exit that its draw points at, with the given id, device, token and times |
| Constructor.AllowedChoiceBuilt | camo-circuit/constructor.go:49-153 | every allowed choice is built for some draws |
| Constructor.BuildWellFormed | camo-circuit/constructor.go:49-153 | 3 to 5 hops, distinct ids, never this server, indexes, one exit at the end from an exit-capable node outside the previous jurisdiction, rotation time |
| Constructor.ExitRemains | camo-circuit/constructor.go:91-110 | the middle hops cannot use up all exits outside the last hop's jurisdiction if there are as many as middle hops |
| Constructor.AllNeighboursDiffer | camo-circuit/constructor.go:83-107 | with distinct ids, two candidates more than middle hops and at most three per jurisdiction, no two consecutive hops of the circuit share a jurisdiction, the exit included |
| Neighbours.NeighboursAgreeExactly | camo-circuit/constructor.go:157-189 | with distinct ids, two candidates to spare and no empty jurisdiction, some random choice of n middle hops repeats a jurisdiction between neighbours if and only if for some 1 <= i < n ranked places i+1 and i+2 share a jurisdiction with two earlier places while the rest of those are pairwise different |
| Neighbours.UntrappedCircuitsDiffer | camo-circuit/constructor.go:83-107 | without such a place every built circuit changes jurisdiction at every hop, the exit included |
| Neighbours.SomeSelectionRepeatsIff | camo-circuit/constructor.go:157-189 | for every list and length, a computable predicate on the ranked list that holds if and only if some selection repeats a jurisdiction between neighbours |
| Neighbours.FourAlikeAgree | camo-circuit/constructor.go:171-181 | four servers of one jurisdiction ranked first and an exit elsewhere: some random values build a circuit whose first two hops agree |
| Neighbours.NeighboursCanAgree | camo-circuit/constructor.go:178-181 | six servers in three jurisdictions for which such a circuit is built |
| BuildExact.EndsIff | camo-circuit/constructor.go:157-205 | the computable predicate is the statement that there are enough servers and every legal selection leaves an exit |
| BuildExact.BuildsWithIff | camo-circuit/constructor.go:49-116 | construction with n middle hops succeeds for all random values if and only if the gates are passed and every selection of n ends with an exit left |
| BuildExact.AlwaysBuildsIff | camo-circuit/constructor.go:49-116 | construction succeeds for all random values if and only if this holds for two, three and four middle hops |
| BuildExact.DeadEndReached | camo-circuit/constructor.go:91-110 | any legal middle hops that leave no exit are reached by some random values, and then the error is that no exit is left |
| BuildExact.ExitAlwaysFound | camo-circuit/constructor.go:49-116 | with distinct ids, the gates passed and enough exits outside each jurisdiction, construction succeeds for all random values |
| BuildExact.ExitCanBeMissing | camo-circuit/constructor.go:108-110 | one exit fewer is not enough: a three-node network that passes the gates, and random values for which construction fails with no exit left |
| BuildExact.NeverRunsOutIff | camo-circuit/constructor.go:58-86 | selection never runs out of nodes for any random choice if and only if four different servers are available |
| BuildExact.GateErrorsIff | camo-circuit/constructor.go:50-66 | the two gate errors occur if and only if fewer than three other servers, or else fewer than three first-named jurisdictions, are known |
| BuildExact.OutcomesIff | camo-circuit/constructor.go:67-153 | past the gates, each error and success if and only if stated conditions on the number of servers, the reads, a possible exit and the token hold |
| CircuitStores.CircuitStore.Put | camo-circuit/circuit.go:79-88 | replaces the device's circuit and its token entry; keeps the index sound |
| CircuitStores.CircuitStore.Remove | camo-circuit/circuit.go:99-106 | removes the circuit and its token entry, or nothing; keeps the index sound |
| CircuitStores.CircuitStore.All | camo-circuit/circuit.go:109-117 | every stored circuit exactly once |
| CircuitStores.PutCompleteIff | camo-circuit/circuit.go:79-88 | the token index stays complete if and only if no other device holds the token |
| CircuitStores.SizesAgreeIff | camo-circuit/circuit.go:65-69 | the token index is never larger than the store, and equally large exactly when complete |
| CircuitStores.RunSound | camo-circuit/circuit.go:79-106 | after any operations every token entry is the stored circuit of its device under its own token |
| CircuitStores.RunComplete | camo-circuit/circuit.go:79-106 | with fresh tokens, after any operations the index is complete and both maps have equal size |
| CircuitStores.StoreAgreement | camo-circuit/circuit.go:71-106 | both facts from the empty store |
| CircuitStores.RunPerDevice | camo-circuit/circuit.go:79-106 | after any operations each device has the circuit of its last put, or none after a removal, whatever happens to other devices |
| CircuitStores.FoundByTokenIff | camo-circuit/circuit.go:79-106 | with fresh tokens, a token leads to a circuit if and only if that was the last put for its device, not removed since, and carries the token |
| CircuitRotation.HopInCircuit | camo-circuit/main.go:137-144 | true exactly if a hop of the circuit is that server |
| CircuitRotation.RotationManager.Rotate | camo-circuit/main.go:94-134 | adds the new peers, stores the new circuit and schedules the teardown, or changes nothing |
| CircuitRotation.RotationManager.FinishTeardown | camo-circuit/main.go:116-125 | removes the peers of old hops whose server is not in the new circuit |
| CircuitRotation.RotationManager.CheckRotations | camo-circuit/main.go:78-90 | one pass over a snapshot of the store, in any order |
| CircuitRotation.PassPerDevice | camo-circuit/main.go:78-134 | no device appears or disappears, and each device's result depends only on its own attempt |
| CircuitRotation.RotationPass | camo-circuit/main.go:78-134 | each device keeps its circuit or has a well-formed new one; a due circuit is still stored if and only if its rotation failed |
| CircuitRotation.RotatedIff | camo-circuit/main.go:78-134 | on the fields: a device gets a new circuit if and only if its clock is after the rotation time, the query worked and construction succeeded, and it is the one constructed |
| CircuitRotation.CircuitLastsTenMinutes | camo-circuit/main.go:78-90 | a circuit built at time t survives every pass up to t + 600 s, and later ones exactly if no other can be built |
| CircuitRotation.PassKeepsAgreement | camo-circuit/main.go:78-113 | with fresh tokens the pass keeps both indexes in agreement and of equal size |
| CircuitRotation.PassTakesTunnelSteps | camo-circuit/main.go:94-125 | each successful rotation of a pass is one step of the peer model |
| CircuitRotation.PeerAfterIff | camo-circuit/main.go:105-125 | which peers there are after a step, on the fields, also when add or remove commands fail |
| CircuitRotation.TeardownKeepsCoverIff | camo-circuit/main.go:116-125 | a teardown leaves every stored circuit its peers if and only if no dropped server is on another device's circuit |
| CircuitRotation.LeavingSharedServer | camo-circuit/main.go:105-125 | two devices with complete indexes and all peers, of which one leaves a shared server: its rotation and teardown take the peer from the other |
| CircuitRotation.SharedServerLosesPeer | camo-circuit/main.go:105-125 | such a run with well-formed circuits only |
| CircuitRotation.PeersFollowCircuits | camo-circuit/main.go:105-125 | over any orderly run every stored circuit keeps its peers, and at rest the peers are exactly those of the stored circuits |
| CircuitRotation.SingleDeviceOverlap | camo-circuit/main.go:105-125 | one device: both circuits covered during the overlap, exactly the new circuit's peers afterwards |
| SimPoolCode.PoolManager.AllocateSim | camo-simpool/pool.go:46-72 | some available SIM is taken, or no change and exactly which error |
| SimPoolCode.PoolManager.ReleaseSim | camo-simpool/pool.go:76-92 | frees the session's SIM; never reports a missing SIM while sessions are paired |
| SimPoolCode.PoolManager.Stats | camo-simpool/pool.go:96-109 | the numbers of all, active and available SIMs |
| SimPoolCode.PoolManager.InitActiveSubset | camo-simpool/rotation.go:54-71 | promotes the target number of dormant SIMs, or all of them |
| SimPoolCode.PoolManager.RotateLocked | camo-simpool/rotation.go:79-153 | promotes, tops up and chooses retirements by a valid plan, in any iteration order, with the number that the draw below max(1, active/2) asks for |
| SimPoolCode.PoolManager.DrainRetired | camo-simpool/rotation.go:158-172 | makes dormant exactly the chosen SIMs without a session |
| SimPoolCode.PoolManager.MarkUnavailable | camo-simpool/pool.go:113-120 | the SIM becomes unavailable and its failures are counted |
| SimPoolCode.PoolManager.MarkDormant | camo-simpool/pool.go:123-130 | the SIM becomes dormant and its failures are cleared |
| SimPool.TargetCount | camo-simpool/rotation.go:184-191 | the largest whole number within 35% of the pool, but never below four |
| SimPool.StepPairedIff | camo-simpool/pool.go:36-92 | a step keeps session table and SIM session fields inverse if and only if its caller keeps the token and registration discipline |
| SimPool.SessionsPaired | camo-simpool/pool.go:36-130 | through every interleaving of all events they stay inverse, busy SIMs number the sessions, and every session's SIM is in the pool |
| SimPool.ReleaseUndoesAllocate | camo-simpool/pool.go:46-92 | release after allocate restores everything but the time of last use |
| SimPool.StepStrandsIff | camo-simpool/pool.go:36-130 | the only steps that take a SIM with a session out of the active subset are failure or recovery of a busy SIM and registration of a busy SIM |
| SimPool.NoSessionStranded | camo-simpool/rotation.go:79-172 | a SIM with a session stays active until release whatever rotations and drains do; active minus available is the number of sessions |
| SimPool.FailureFreeNeverStrands | camo-simpool/rotation.go:158-172 | runs without liveness events and registrations are among those |
| SimPool.DrainRevivesIff | camo-simpool/rotation.go:158-172 | over any run from a rotation to its drain, a SIM that fails and does not recover ends dormant if and only if it was chosen for retirement and had no session when it failed or lost it by release since |
| SimPool.FailedSimRevived | camo-simpool/rotation.go:79-172 | from every fresh pool a run of initialisation, rotation, failure and drain that leaves the failed SIM dormant |
| SimPool.KeyedAlways | camo-simpool/pool.go:36-130 | in every run, disciplined or not, SIMs stay filed under their own identifiers |
| SimRotation.RotateReachesTarget | camo-simpool/rotation.go:125-150 | with or without failures the locked phase ends with the target active or no dormant SIM left |
| SimRotation.CommittedMonotone | camo-simpool/rotation.go:79-172 | active SIMs that no outstanding drain can take never get fewer |
| SimRotation.CyclesNeverLower | camo-simpool/rotation.go:79-172 | no run of complete cycles lowers the active count |
| SimRotation.ActiveFloor | camo-simpool/rotation.go:54-191 | from initialisation on, at every moment, at least min(total, target) SIMs are active |
| SimRotation.BoundedTurnover | camo-simpool/rotation.go:92-172 | promoted SIMs stay active and are not retired, retirements do not exceed promotions, and at least active - max(1, active/2 - 1) previously active SIMs survive the cycle |
| SimRotation.UsedSimSurvivesNextCycle | camo-simpool/sim.go:95-109 | a SIM used in one cycle is not retired by the rotation that follows and stays active through the next cycle |
| SimCycle.RetiredAtDrainIff | camo-simpool/rotation.go:108-172 | over any run from a rotation to its drain, a SIM chosen for retirement that has not failed ends dormant if and only if it holds no session at the drain |
| SimCycle.PhasesChangeOnlyStates | camo-simpool/rotation.go:54-172 | initialisation, rotation and drain change states of SIMs and nothing else of them |
| SimCycle.ActiveAfterCycle | camo-simpool/rotation.go:79-172 | after a cycle without failures the active SIMs are exactly those before, less the retired ones without a session at the drain, and those promoted and topped up; their number likewise |
| SimCycle.RestingCycleExchanges | camo-simpool/rotation.go:79-172 | with no sessions and enough dormant SIMs a cycle exchanges exactly the drawn number and keeps the count |
| SimCycle.RetirableNextIff | camo-simpool/sim.go:90-109 | the next rotation may retire exactly the active SIMs without a session that have not been allocated since the previous one |
| SimCycle.FloorFromEmpty | camo-simpool/pool.go:36-41 | from the empty pool, after registrations and initialisation exactly min(total, target) SIMs are active, and never fewer in later cycles |
| Liveness.BackoffDuration | camo-simpool/liveness.go:111-123 | min(1 h * 2^k, 4 h) in 64-bit nanoseconds without overflow |
| Liveness.BackoffMonotone | camo-simpool/liveness.go:109-123 | waits never shrink with more failures and stay within one and four hours |
| Liveness.BackoffHours | camo-simpool/liveness.go:8-16 | the wait is one hour, two after one failure and four after more |
| Liveness.CheckActive | camo-simpool/liveness.go:56-72 | a run of single liveness events; afterwards the active SIMs are exactly those that were and answer, stamped; the others have one failure more and are unavailable; nothing else changes |
| Liveness.CheckDormant | camo-simpool/liveness.go:77-107 | a run of single liveness events; afterwards dormant are exactly the dormant SIMs that answer and the unavailable ones that answer after their wait; active and waiting SIMs do not change; all others have one failure more |
| GossipRecords.RecordKeyIff | camo-gossip/record.go:130-132 | two records share a key if and only if server id and second agree |
| Calendar.NextDayCounts | camo-gossip/store.go:120-121 | days are counted one by one across the ends of months, leap years and centuries, each with 86 400 seconds |
| Calendar.CountStarts | camo-gossip/store.go:120-121 | the count is zero at the start of 1970 |
| Calendar.ClockTicks | camo-gossip/store.go:120-121 | one second of the written UTC time adds one second to the count |
| Calendar.CountInOrder | camo-gossip/store.go:120-121 | instants are counted in the order of their written fields, and differently if those differ |
| Calendar.DayOfNanos | camo-gossip/store.go:120-121 | an age of more than 24 hours is one past the same time on the next calendar day |
| GossipStores.Store.Put | camo-gossip/store.go:48-62 | stores and marks exactly the records whose key is new |
| GossipStores.Store.Heartbeat | camo-gossip/store.go:66-73 | renews a known server and nothing else |
| GossipStores.Store.ActiveRecords | camo-gossip/store.go:87-97 | exactly the active records, one per server |
| GossipStores.Store.ExpireAndCheck | camo-gossip/store.go:115-129 | drops exactly the records older than 24 h and deactivates exactly the silent rest |
| GossipStores.ListedIsFresh | camo-gossip/store.go:87-129 | with an expiry pass in the last 60 s, each listed record was stored or confirmed at most 360 s ago |
| GossipStores.AlwaysTrustworthy | camo-gossip/server.go:78-98 | in every reachable state foreign records passed verification and are filed under their own id |
| GossipStores.LeavesIff | camo-gossip/store.go:48-124 | a server's entry leaves exactly when an expiry pass finds its record more than a calendar day old; a foreign record stays exactly if that does not happen and no other record of its server is taken |
| GossipStores.NeverReturns | camo-gossip/store.go:48-62 | a foreign record that is gone never comes back under the same key |
| GossipStores.StoredIsLastTaken | camo-gossip/store.go:48-62 | what is stored for a foreign server is the record of it taken last |
| GossipStores.HoldsNewestIff | camo-gossip/store.go:48-62 | throughout a run the stored record is the newest taken if and only if the records are taken in timestamp order |
| GossipStores.OlderOverwritesNewer | camo-gossip/store.go:48-62 | two announcements that arrive in reverse order leave the older one stored |
| GossipExact.ListedIff | camo-gossip/store.go:46-129 | over any history, a foreign record is listed if and only if it was stored last for its server, no expiry pass came more than 24 h after its timestamp, and none more than 300 s after the last renewal |
| GossipExact.HistoryDecides | camo-gossip/store.go:46-129 | likewise for being stored, the stored record, the time last seen and the active mark, each by itself |
| GossipExact.LastStoredIsLast | camo-gossip/store.go:46-73 | the events that these statements refer to are the last that stored a record of the server or renewed it |
| GossipExact.OwnRecordRestamped | camo-gossip/heartbeat.go:88-94 | the node's own stored record carries its latest announced timestamp and signature |
| GossipServers.PeerManager.ActiveAddrs | camo-gossip/peer.go:52-62 | all known addresses, each once, since no peer is ever deactivated |
| GossipServers.Server.ForwardRecord | camo-gossip/server.go:133-150 | one message to every known peer except the sender |
| GossipServers.Server.HandleNodeRecord | camo-gossip/server.go:71-105 | stores and forwards exactly the foreign, verified, new records |
| GossipServers.Server.HandleHeartbeat | camo-gossip/server.go:109-130 | renews exactly a known server with a valid signature, and then marks the sending peer as seen |
| GossipServers.HandlerIsFloodRun | camo-gossip/server.go:71-150 | the handler and its forwarding loop in one go are a run of the network with the same store and exactly the same messages sent |
| GossipServers.EachNodeRuns | camo-gossip/server.go:43-130 | in every network run, whatever is delivered to it, each node's store is the result of its own event history, rejected records included |
| Flood.RunScreened | camo-gossip/server.go:78-93 | in every run, whatever is injected, no handler gets past its checks with an unverified record or its own node's |
| Flood.StepHonestIff | camo-gossip/server.go:71-150 | a step keeps all messages honest if and only if it does not inject a dishonest one |
| Flood.StepSpreadsIff | camo-gossip/server.go:95-150 | whatever is injected, as long as signatures cannot be forged, a step keeps every flood spreading if and only if it does not store a record that seemed to come from a peer which neither has it nor is about to get it |
| Flood.StepKeeps | camo-gossip/server.go:71-150 | every protocol step keeps: each peer of a node that has a key has it or a verified copy is on its way, also when unverified, replayed or foreign records are injected |
| Flood.FloodCoverage | camo-gossip/server.go:43-150 | once nothing is in transit, every node reachable from one that has a key has it, and every other node reachable from the announcer has accepted it, also when unverified, replayed or foreign records are injected |
| FloodForged.PosingAsPeerBreaksCoverage | camo-gossip/server.go:102-149 | a run in which a copy delivered from a peer's address leaves that peer without the record |
| FloodBounds.StepWork | camo-gossip/server.go:89-104 | a measure that every protocol step lowers and that an announcement or an injected message raises by a bounded amount |
| FloodBounds.RunWork | camo-gossip/server.go:43-150 | under every interleaving and whatever is injected, the protocol steps are bounded by degrees and the number of injected messages, the sends by degrees alone, so floods end |
| FloodBounds.RunSends | camo-gossip/server.go:43-150 | all sends of any run are at most the announcers' degrees and one round over the peer graph per different verified key; unverified messages cause none |
| FloodBounds.OneFloodSends | camo-gossip/heartbeat.go:88-110 | one announcement causes at most as many sends as the sum of the peer degrees, whatever unverified messages and copies of it are injected |
| FloodBounds.FloodCompletes | camo-gossip/server.go:71-150 | from any screened state, which all reachable ones are, protocol steps lead to a state with nothing in transit |
| FloodBounds.AcceptsOnce | camo-gossip/store.go:48-62 | a node stores and forwards a key at most once in any run, whatever handlers interleave |
| FloodBounds.ExactlyOnceEverywhere | camo-gossip/server.go:43-150 | when the flood is over, every other reachable node has accepted it exactly once, also when unverified, replayed or foreign records are injected |
| FloodBounds.StoresOnly | camo-gossip/server.go:78-104 | if all verified records that come into play satisfy a predicate, so does every record that a node stores, whatever else is injected |
| FloodBounds.AcceptsTheRecord | camo-gossip/server.go:95-104 | if one verified record only comes into play under a key, that record is what every node accepts |
| FloodListing.ReachableNodesList | camo-gossip/store.go:48-129 | when a flood is over, every other reachable node holds the announcer's very record as active, if it is the only one of its server and nothing has expired |
| FloodListing.ListsExactlyTheOthers | camo-gossip/store.go:87-97 | in a settled network every node lists exactly the other nodes' records besides its own |
| FloodListing.SettledReached | camo-gossip/server.go:71-150 | every strongly connected network can settle: for all records of its nodes there is a run of announcements and protocol steps that does it |
| Composition.HopsAreVerified | camo-gossip/store.go:87-97 | whatever is delivered to the nodes, circuits built from a node's listing run only through other servers whose verified record it holds as active |
| Composition.DiverseListingAlwaysBuilds | camo-circuit/constructor.go:49-153 | a diverse listing always yields a well-formed circuit whose consecutive hops differ in jurisdiction |
| Composition.CandidatesAreTheOthers | camo-gossip/store.go:87-97 | in a settled network what a node can build from is a permutation of all other nodes |
| Composition.SettledNetworkBuilds | camo-circuit/constructor.go:49-153 | in a settled network every node whose fellow nodes are diverse builds, for all random values, a well-formed circuit whose consecutive hops differ in jurisdiction |

## Left out

- Sockets, JSON framing, configuration, logging, `main` functions and tickers of all components.
- camo-wireguard and camo-apncore: thin adapters; peer commands appear as sets of keys that succeed.
- Ed25519, base64 and key files: signature checks are a predicate that is a parameter.
- Session tokens and circuit ids are parameters; freshness of tokens is a stated condition.
- Floating point: scores are exact reals and the target count is the exact floor of 35%; rounding is not modelled.
- Aliasing: SIMs, circuits and records are values in maps that the methods reassign; the one alias that matters, a node's own record in its own store, is written out as a step.
- Carrier, jurisdiction and APN of a SIM, which no modelled operation reads.
- Flood: peers that join during a flood, lost messages, and addresses that differ from server ids.
- SimRotation: drains that outlast the next rotation; `SimPool` covers them for the session properties.
- SimPool.TargetCount: float rounding at exact multiples of 35% is not modelled; the target is the exact floor.
- Liveness.CheckActive: each SIM is examined atomically, where the source reads some fields without the lock.
- Liveness.CheckDormant: each SIM is examined atomically, where the source reads some fields without the lock.
- Neighbours.NeighboursAgreeExactly: the closed form needs distinct ids, two candidates to spare and non-empty jurisdictions; `Neighbours.SomeSelectionRepeatsIff` decides the other lists.

# Arsonist platform: verified core

A Dafny model of the parts of the Arsonist orchestration platform that hold real algorithms and
protocols, with proofs of what they promise. `dafny verify dfyconfig.toml` checks all of it.

How the files fit together:

- `Walks`, `CheapestWalks`, `InfrastructureGraph`, `TopologyManager`, `EngineAgreement`: the two
  shortest-path engines on one theory of walks, each proved optimal, and the exact condition under
  which they answer alike.
- `PeerRegistry`, `Gossip`: last-writer-wins gossip, the exact condition for convergence, and
  convergence of every run of a network that relays.
- `StableSort`, `NodeRanking`, `JobProtocol`, `JobSafety`, `JobRecovery`, `JobAttempts`,
  `JobOutcomes`, `JobEffects`, `JobRuns`, `ControlPlane`: the control plane's job protocol as a state
  machine, its safety and recovery over every run, what each handler does, and a process object that
  keeps these promises from call to call.
- `ClusterScoring`, `Federation`, `FederationController`: scoring with its tight lower bound,
  failover safety over every run, and a registry object that keeps it from call to call.
- `Leases`: three lock implementations refine one lease; mutual exclusion under every interleaving.
- `RateLimit`, `Replication`, `UltraScaleRuntime`, `EventLog`, `EdgeScheduler`, `LruCaches`,
  `EdgeRuntime`: incremental forms proved equal to simple specifications over every run.
- `Options`, `Collections`, `Texts`: shared small parts.

Code that updates an object is a class whose methods are proved against functions on values; the
theorems are about those functions, and the objects carry the run so far as history so that the
theorems hold of them. What the outside decides is a parameter: clock readings, network outcomes,
leadership, and the order in which a dictionary or table lists its entries. Identifiers are wrapped
strings. Times, loads and latencies are reals.

Where the code falls short of what one would expect of it, the model keeps the code, says exactly
when it does, and names an input:

- Gossip: version 5 seen at 100 and version 4 seen at 102 replace each other for ever
  (`EndlessPair`); registries converge exactly on coherent records (`ConvergesIffCoherent`). The
  re-stamping after a successful push is harmless exactly under the condition of `HintCoherentIff`;
  it does harm to a record of which a newer version was seen more than a second before
  (`HintBreaksAgreement`), and must not set a record's time back (`HintHoldsGreatestIff`).
- A gossip site relays only the first max(4 * fanout, 8) records of its own listing (`RelayedIff`).
- The two engines answer with different costs exactly where a pair is stored in both directions and
  the record that the infrastructure graph ignores is cheaper than every other route
  (`SameCostsIff`, `DearerRoute`). Two latencies alone do not make a difference
  (`DetourHidesShortcut`). They find paths for the same queries, but for the query from a registered
  node without links to itself (`CompareRoutes`).
- A heartbeat that leaves out a running job strands it unless another node lists it
  (`NeverStrandedIff`, `ForgetfulStrands`).
- "Completed" is not final for a job: a late failure report or the death of a node that still lists
  it reopens it, and nothing else does (`CompletedIff`, `CompletedComesBack`).
- A heartbeat or a second registration that reports its own cluster as offline leaves its active
  jobs there, and nothing else makes failover unsafe (`AlwaysSafeIff`, `OfflineRunIsUnsafe`,
  `ReregisteringIsUnsafe`); no later watch takes the jobs away (`NeverRerouted`).
- Failover can leave a job without a cluster although one is live, if that is overloaded beyond what
  a fraction can say (`WatchUnassignsIff`, `OverloadedInput`), and a job left without any cluster is
  never placed again (`NeverPlacedAgain`).
- A submission is not routed to a cluster with an empty id, but failover does send jobs there
  (`SubmitUnassignedIff`, `EmptyIdInput`).
- Without a sync callback a pending batch of changes is discarded (`SyncTick`); likewise the edge
  outbox marks rows without delivering them when no callback is installed (`FlushOutbox`).
- The rate limiter reads its clock before its lock; a rate above one request per second can be
  exceeded as soon as readings are served out of order at all (`LimitSurvivesIff`, `LagBreaksLimit`).
- `EdgeCache.put` does not return with `max_entries` of zero or less (`NeverRoomIff`).
- An edge node with an empty name is never scheduled, and blocks the others while it is the roomiest
  (`ScheduleKeeps`, `NamelessNodeBlocks`).

## Model

| member | source | states |
|---|---|---|
| `Walks.WalkBound` | fabric_core/infrastructure_graph.py:127-144 | Dijkstra's argument for every walk: once all edges out of the closed nodes are relaxed, a walk costs at least the bound or ends in a node whose recorded distance is no more than its cost |
| `Walks.NearestIsCheapest` | fabric_core/infrastructure_graph.py:128-132 | the nearest unvisited node carries a walk that no walk to it undercuts, and that walk passes no node twice |
| `Walks.ClosedIsEverything` | fabric_core/infrastructure_graph.py:127-130 | when nothing reached is unvisited, no walk at all leads to an unvisited node |
| `Walks.SimpleStopsDistinct` | fabric_core/infrastructure_graph.py:149-155 | a simple walk lists pairwise different stops |
| `Walks.StepBack` | fabric_core/infrastructure_graph.py:151-153 | one predecessor step shortens the recorded walk by its last stop, so following predecessors ends even through zero latencies |
| `Walks.ImproveKeepsSearching` | fabric_core/infrastructure_graph.py:141-144 | a strict improvement re-labels one unvisited node and keeps every other label, the level and the relaxed edges |
| `CheapestWalks.EdgeUsedOnce` | fabric_core/infrastructure_graph.py:127-144 | a walk can avoid an edge or use it once without costing more |
| `CheapestWalks.LeastExists` | fabric_core/infrastructure_graph.py:117-155 | a finite graph without negative latencies has a least cost between any two nodes, or no walk |
| `CheapestWalks.CheapestExists` | fabric_core/infrastructure_graph.py:117-155 | reachable nodes have a cheapest walk, independently of any search |
| `CheapestWalks.SameAnswersIff` | fabric_core/infrastructure_graph.py:117-155 | a graph answers every query like a larger one if and only if it has a walk as cheap as every edge of the larger one |
| `InfrastructureGraphs.RemovedEverywhere` | fabric_core/infrastructure_graph.py:84-96 | visiting the indexed neighbours of a node finds every link that touches it, and the index shrinks to the shadow of what is left |
| `InfrastructureGraphs.Unlink` | fabric_core/infrastructure_graph.py:90-95 | the removal loop drops exactly the links and mentions between the node and the given neighbours, in any visiting order |
| `InfrastructureGraphs.Nearest` | fabric_core/infrastructure_graph.py:128 | the scan finds an unvisited node that no unvisited node beats, infinity included |
| `InfrastructureGraphs.RelaxNeighbors` | fabric_core/infrastructure_graph.py:135-144 | after one node's loop every active edge out of it is relaxed and the search invariant holds |
| `InfrastructureGraphs.TracePath` | fabric_core/infrastructure_graph.py:149-154 | following predecessors terminates and yields the stops of the recorded walk in order |
| `InfrastructureGraphs.Search` | fabric_core/infrastructure_graph.py:122-144 | the loop ends with a cheapest simple walk to the target and its cost, or with proof that the target is unreachable |
| `InfrastructureGraphs.InfrastructureGraph.AddNode` | fabric_core/infrastructure_graph.py:77-82 | registering keeps the links and the index invariant; a known node keeps its neighbours |
| `InfrastructureGraphs.InfrastructureGraph.AddLink` | fabric_core/infrastructure_graph.py:98-104 | the record is stored under its direction and the index stays the undirected shadow of the link table |
| `InfrastructureGraphs.InfrastructureGraph.RemoveNode` | fabric_core/infrastructure_graph.py:84-96 | false and no change for an unknown node; otherwise no link and no index entry mentions the node and nothing else is lost |
| `InfrastructureGraphs.InfrastructureGraph.GetLink` | fabric_core/infrastructure_graph.py:109-111 | forward record first, else the reverse one, else none |
| `InfrastructureGraphs.InfrastructureGraph.ShortestPath` | fabric_core/infrastructure_graph.py:117-155 | for every graph the operations can build: a simple path of active links whose cost is the returned distance and minimal over all walks, and ([], inf) exactly when an endpoint is unregistered or no walk exists |
| `TopologyManagers.BuildGraph` | fabric/topology_manager.py:118-128 | the adjacency lists hold exactly both directions of every healthy link, under the regions those links touch |
| `TopologyManagers.EveryEdgeReturns` | fabric/topology_manager.py:121-128 | the healthy multigraph is symmetric with equal latencies |
| `TopologyManagers.PopNearest` | fabric/topology_manager.py:140 | a pop removes one entry of least distance |
| `TopologyManagers.TopIsNearest` | fabric/topology_manager.py:139-142 | despite outdated entries, the top of the heap is current if its node is unvisited, and then no reached unvisited node is nearer |
| `TopologyManagers.RelaxList` | fabric/topology_manager.py:151-158 | one node's loop relaxes all its edges and leaves every reached unvisited node with its current distance in the heap |
| `TopologyManagers.VisitNode` | fabric/topology_manager.py:143-158 | visiting the popped node keeps the search and heap invariants |
| `TopologyManagers.TargetFound` | fabric/topology_manager.py:144-150 | stopping when the target is popped is sound: its walk is cheapest and simple |
| `TopologyManagers.NothingLeft` | fabric/topology_manager.py:139-159 | an empty heap means the target is unreachable |
| `TopologyManagers.TracePath` | fabric/topology_manager.py:145-150 | the predecessor chain ends and gives the stops of the recorded walk |
| `TopologyManagers.Search` | fabric/topology_manager.py:133-159 | the lazy-deletion loop terminates by (unvisited regions, heap size) with a cheapest simple path, or None exactly if there is no walk |
| `TopologyManagers.TopologyManager.UpdateLink` | fabric/topology_manager.py:47-64 | one directed record is replaced |
| `TopologyManagers.TopologyManager.RemoveLink` | fabric/topology_manager.py:70-72 | one directed record goes, an absent one is ignored |
| `TopologyManagers.TopologyManager.ShortestPath` | fabric/topology_manager.py:117-159 | a minimum-latency simple path in the undirected multigraph of healthy links; None exactly when no healthy link touches the source or the target is unreachable |
| `EngineAgreement.TopologySeesMore` | fabric/topology_manager.py:119-128 | on the same usable links the topology manager sees every edge the infrastructure graph sees |
| `EngineAgreement.SameGraphIff` | fabric_core/infrastructure_graph.py:138-140 | the two engines see the same graph if and only if no pair of nodes is stored with two latencies |
| `EngineAgreement.ReachableAlike` | fabric/topology_manager.py:117-159 | the engines reach the same nodes whatever the latencies |
| `EngineAgreement.SameCostsIff` | fabric_core/infrastructure_graph.py:138-140 | the engines answer every query with the same cost if and only if, for every pair stored both ways, some route each way is as cheap as the record of the other way |
| `EngineAgreement.DearerRoute` | fabric_core/infrastructure_graph.py:138-140 | a pair stored as 1 and 5: the infrastructure graph goes back for 5, the topology manager for 1 |
| `EngineAgreement.DetourHidesShortcut` | fabric_core/infrastructure_graph.py:138-140 | a pair with two latencies and a cheap detour: the answers are the same |
| `EngineAgreement.CompareRoutes` | fabric_core/infrastructure_graph.py:117-155 | on the same links, with whatever latencies, a path is found by both engines or by neither, except for the query from a registered node without links to itself; the topology manager's path is never the dearer one, and both cost the same where no ignored record is a shortcut |
| `EngineAgreement.TopologyNeverDearer` | fabric/topology_manager.py:117-159 | where a pair has two latencies, the topology manager's route is never dearer |
| `Texts.StrippedUrl` | mesh/peer_registry.py:122 | stripping ends without a slash and changes nothing exactly when there was none |
| `Texts.OnlySlashesGo` | mesh/peer_registry.py:122 | a URL is the stripped one followed by slashes only, and the stripped one does not end in a slash |
| `Texts.OnlyBlanksGo` | global_scheduler/cross_cluster_scheduler.py:27 | a text is the stripped one between blanks only, and the stripped one neither begins nor ends with a blank |
| `Texts.LowerSameIff` | global_scheduler/cross_cluster_scheduler.py:27 | lower-cased texts are equal if and only if the texts are equal but for the case of letters |
| `PeerRegistries.AcceptedIsNormalised` | mesh/peer_registry.py:117-133 | what is stored for a gossip state is normalised and says what the state says: each field is the one of the same name, the URL without its trailing slashes, and the time that of the state or, if it has none, of the clock |
| `PeerRegistries.RelayIsIdentityIff` | mesh/gossip.py:131-149 | relaying a record and accepting it again is the identity if and only if the record is normalised |
| `PeerRegistries.PeerRegistry.MergeState` | mesh/peer_registry.py:88-115 | the table becomes the fold of last-writer-wins merges and the count is the number of rows written |
| `PeerRegistries.PeerRegistry.UpdateLatencyHint` | mesh/peer_registry.py:176-190 | the record is re-stamped with its version unchanged, and its latency moves 0.35 of the way to the sample |
| `PeerRegistries.HintMovesTowardsSample` | mesh/peer_registry.py:176-190 | the distance between sample and estimate shrinks by the factor 0.65 with every hint, the estimate never passes the sample, and nothing but latency and time changes |
| `PeerRegistries.MutualReplacementIff` | mesh/peer_registry.py:135-140 | two different records replace each other for ever exactly when they disagree (version order against time order by more than a second, or equal stamps) |
| `PeerRegistries.HintBreaksAgreement` | mesh/peer_registry.py:176-190 | a latency hint can make an old version and a newer one replace each other |
| `PeerRegistries.HintCoherentIff` | mesh/peer_registry.py:176-190 | a latency hint leaves coherent records coherent if and only if no newer version of the cluster was seen more than a second before it, no older one more than a second after it, and no other record of its version has its stamp |
| `PeerRegistries.HintHoldsGreatestIff` | mesh/peer_registry.py:176-190 | a hint keeps the table that of the greatest records if and only if it does not set the time back |
| `PeerRegistries.NeverSettles` | mesh/peer_registry.py:135-140 | records that replace each other are written on every single delivery, round after round |
| `PeerRegistries.EndlessPair` | mesh/peer_registry.py:135-140 | version 5 seen at 100 and version 4 seen at 102 are such a pair, and the one delivered last is held |
| `PeerRegistries.SnapshotsAgreeIff` | control_plane/mesh_bootstrap.py:69-70 | two snapshots of a cluster agree if and only if they do not carry the same stamps with different contents, although each reads the clock twice and truncates one reading |
| `PeerRegistries.GreatestIsUnique` | mesh/peer_registry.py:88-115 | coherent records determine the table that holds the greatest of each cluster |
| `PeerRegistries.MergeHoldsGreatest` | mesh/peer_registry.py:95-111 | under coherence one merge is taking the greater record |
| `PeerRegistries.MergeAllHoldsGreatest` | mesh/peer_registry.py:88-115 | after any sequence of merges the table holds the greatest record of every cluster heard of |
| `PeerRegistries.ConvergesIffCoherent` | mesh/peer_registry.py:135-140 | registries that receive the same records in any order and number end up equal if and only if the records are coherent |
| `PeerRegistries.TwoOrders` | mesh/peer_registry.py:135-140 | two mutually replacing records give different tables in the two orders |
| `PeerRegistries.LastOneWins` | mesh/peer_registry.py:135-140 | of two records where the second replaces the first, only the second is left |
| `GossipNetwork.RelayActsAsEverything` | mesh/gossip.py:125-150 | relaying only the held records of some clusters has the effect of relaying everything ever heard of them |
| `GossipNetwork.StepKeepsInv` | mesh/gossip.py:86-163 | every seed, push and latency hint keeps each site holding the greatest of all it has heard, if the records stay coherent and hints do not set the time back |
| `GossipNetwork.RunKeepsInv` | mesh/gossip.py:86-163 | so does every run over any number of sites |
| `GossipNetwork.SitesConverge` | mesh/gossip.py:86-163 | in every such run, latency hints after successful pushes included, two sites that have heard the same records along whatever routes hold the same table |
| `GossipNetwork.PushSpreads` | mesh/gossip.py:125-163 | after a push the receiver holds, of its own records, the snapshot and the relayed ones, always the greater, and no other site has changed |
| `GossipNetwork.ExchangeAgrees` | mesh/gossip.py:125-163 | if one site pushes all it holds to another, and that one pushes all it then holds back, the first holds the table of the second, up to the snapshot that the second sent of itself |
| `GossipServices.GossipService.HandleIncoming` | mesh/gossip.py:86-92 | an envelope is merged sender first, then the relayed records in order, and counted |
| `GossipServices.GossipService.PeersToRelay` | mesh/gossip.py:127-149 | of the registry's own rows, exactly the first max(4 * fanout, 8) listed without the own cluster are relayed |
| `GossipServices.GossipService.PushDone` | mesh/gossip.py:157-164 | a push that arrived re-stamps the record of the cluster it went to, any other changes no record; one of the counters goes up |
| `GossipServices.RelayedByCluster` | mesh/gossip.py:127-149 | what is relayed are the held records of the listed other clusters, as in a push of the network |
| `GossipServices.RelayedAre` | mesh/gossip.py:131-149 | a record is relayed exactly if it is listed and not of the own cluster |
| `GossipServices.RelayedIff` | mesh/gossip.py:127-149 | a site relays a held record if and only if it stands among the first max(4 * fanout, 8) of that site's own listing and is not of the site's own cluster |
| `GossipServices.EnvelopeIsPush` | mesh/gossip.py:86-150 | whatever the receiver's clock says, handling an envelope is the push step of the network |
| `StableSort.SortBy` | scheduler/weighted.py:42 | a sort by key: ordered, and a permutation |
| `StableSort.SortIsStable` | runtime/ultra_scale_runtime.py:140-141 | equal keys keep their order: any stamp that increased under equal keys orders them after sorting |
| `NodeRanking.EligibleNodesAre` | scheduler/weighted.py:38-40 | exactly the healthy nodes, with a GPU if the job needs one |
| `NodeRanking.RoundIsMonotone` | scheduler/weighted.py:34 | rounding to six digits, ties to even, keeps order |
| `NodeRanking.RoundIsNearest` | scheduler/weighted.py:34 | rounding finds the nearest millionth, of two equally near the even one |
| `NodeRanking.ScoreRespectsDominance` | scheduler/weighted.py:8-34 | a node at least as good in load, predicted latency, queue, reliability and GPU never scores worse, whatever the job needs |
| `NodeRanking.PredictionIsGreatest` | scheduler/weighted.py:8-11 | the predicted latency is the greatest of the measured one, 1200 ms per unit of average load, and one millisecond |
| `NodeRanking.ReliabilityIsShare` | scheduler/weighted.py:14-18 | the share of the jobs that went well; a half for a node without a history |
| `NodeRanking.GpuWorth` | scheduler/weighted.py:8-34 | a GPU is worth 0.12, or 0.83 if required, and 0.25 more for a high-power job |
| `NodeRanking.NoGpuPreferredIff` | scheduler/weighted.py:8-34 | for a high-power job a node without a GPU outscores one with a GPU if and only if it is better by more than 0.37 otherwise |
| `NodeRanking.LoadAgainstLatency` | scheduler/weighted.py:8-34 | of nodes that differ in load and latency one is at least as good if and only if 0.32 per unit of load outweighs 0.000072 per millisecond |
| `NodeRanking.LoadAgainstQueue` | scheduler/weighted.py:8-34 | likewise 0.32 per unit of load against 0.002 per queued job |
| `NodeRanking.QueueAgainstReliability` | scheduler/weighted.py:8-34 | likewise 0.002 per queued job against 0.30 per unit of reliability |
| `NodeRanking.SelectionIsBest` | scheduler/weighted.py:37-48 | the chosen nodes are distinct and eligible, as many as asked for or all there are, and none passed over scores better |
| `JobProtocol.DispatchKeepsJobs` | control_plane/app.py:108-114 | the dispatch loop touches nodes only |
| `JobProtocol.UnloadKeepsJobs` | control_plane/app.py:309-315 | taking a job off its nodes touches nodes only |
| `JobSafety.SaveKeeps` | control_plane/memory.py:292-297 | a saved record within its bounds keeps memory and storage equal and every other job as it was |
| `JobSafety.EnsureQueuedKeeps` | control_plane/memory.py:313-319 | queueing a queued job with attempts left settles it, keeps the queue duplicate-free and stored |
| `JobSafety.NodeChangeKeeps` | control_plane/memory.py:435-469 | adding, touching or removing a node, in memory and storage alike, keeps what is known of jobs and queue |
| `JobSafety.RequeueOrFailKeeps` | storage/job_queue.py:46-53 | requeueing or failing a job puts it where its status says and closes the open obligation on it |
| `JobSafety.DropHeadKeeps` | control_plane/memory.py:331-337 | the popped id is on record with attempts left, so the retry-limit branch of schedule_once is unreachable |
| `JobSafety.EnqueueKeeps` | control_plane/memory.py:321-329 | a fresh job enters table, queue and storage together |
| `JobSafety.DispatchKeeps` | control_plane/app.py:106-114 | one attempt pays for the deliveries made in it |
| `JobSafety.StartKeeps` | control_plane/app.py:101-120 | starting a job ends in running, queued or failed with the invariant whole, whatever the nodes answer |
| `JobSafety.ScheduleKeeps` | control_plane/app.py:89-120 | a scheduling round keeps the invariant |
| `JobSafety.ResultKeeps` | control_plane/app.py:294-319 | a result, late or not, keeps the invariant |
| `JobSafety.CheckKeeps` | control_plane/health.py:23-31 | a health check keeps the invariant |
| `JobSafety.StepKeepsInv` | control_plane/app.py:260-362 | every step of the protocol keeps the invariant |
| `JobSafety.RestartRestores` | control_plane/memory.py:104-125 | a restart at a step boundary restores exactly the lost state |
| `JobSafety.ReachableInv` | control_plane/app.py:89-120 | the invariant holds after every run |
| `JobSafety.ReachableStates` | storage/job_queue.py:28-53 | in every reachable state: no duplicates in the queue, queue inside the table, queued means in the queue, running means not in it and at least one attempt, failed means all 3 attempts used, queued ids have attempts left, at most 3 attempts and 3 * required_nodes deliveries, and a restart changes nothing |
| `JobRecovery.StartTracks` | control_plane/app.py:101-120 | a job that ends up running is listed on a registered node |
| `JobRecovery.RemovalTracks` | control_plane/health.py:23-31 | removing a node and requeueing what it listed leaves no running job unlisted |
| `JobRecovery.StepTracks` | control_plane/app.py:260-362 | every step keeps running jobs listed, if heartbeat lists keep the running jobs of their node |
| `JobRecovery.BeatTracksIff` | control_plane/app.py:343-351 | a heartbeat keeps running jobs listed if and only if every running job it drops is listed on another node |
| `JobRecovery.StepTracksIff` | control_plane/app.py:260-362 | any step keeps running jobs listed if and only if it is not a heartbeat that drops one which no other node lists |
| `JobRecovery.NeverStrandedIff` | control_plane/app.py:343-351 | over a whole run no running job is ever unlisted if and only if no heartbeat of the run drops one that no other node lists |
| `JobRecovery.NoStrandedJob` | control_plane/health.py:14-31 | over every such run, no running job is ever unlisted |
| `JobRecovery.RequeueRecovers` | storage/job_queue.py:46-53 | the job is back in the queue with attempts left, or failed with none; recovered jobs stay recovered |
| `JobRecovery.CheckRecovers` | control_plane/health.py:14-31 | exactly the dead nodes go, and each job listed on one of them is back in the queue or failed for good |
| `JobRecovery.StepLater` | storage/job_queue.py:28-53 | no step drops a job, changes what it asked for or takes an attempt back |
| `JobRecovery.RunLater` | storage/job_queue.py:28-53 | nor does any continuation of a run |
| `JobRecovery.ExhaustedStaysOut` | storage/job_queue.py:46-50 | a job with 3 attempts never re-enters the queue, however the run goes on |
| `JobRecovery.AttemptUsesBestNodes` | control_plane/app.py:101-114 | an attempt goes to distinct registered healthy eligible nodes that no other such node outscores |
| `JobAttempts.TakenAll` | control_plane/app.py:106-114 | if as many nodes took the job as were chosen, they are the chosen ones in order |
| `JobAttempts.OnlyTargetsTouched` | control_plane/app.py:106-114 | the dispatch loop lists the job on chosen nodes only, once each |
| `JobAttempts.StartAttempts` | control_plane/app.py:101-120 | an attempt goes to as many distinct registered eligible nodes as asked for, none of which another such node outscores; they are the assigned ones if the job runs |
| `JobAttempts.StepAttempts` | control_plane/app.py:260-362 | in every step an attempt is made only in its scheduling round, and goes to the best nodes there are when the round begins |
| `JobOutcomes.CheckTouchesListed` | control_plane/health.py:14-31 | a health check changes only jobs that a dead node lists |
| `JobOutcomes.ScheduleCompletesNothing` | control_plane/app.py:89-120 | a scheduling round completes no job and reopens none |
| `JobOutcomes.ResultDecidesOne` | control_plane/app.py:294-319 | a result completes its job exactly if it reports success, and touches no other job |
| `JobOutcomes.CompletedIff` | control_plane/app.py:260-362 | after any step a job is completed exactly if the step was a successful result for it, or it was completed and the step is neither a failure report for it nor a health check that finds it on a dead node |
| `JobOutcomes.ResultUndoesDispatchIff` | control_plane/nodes.py:42-47 | after dispatch and result a node lists every job as often as before, so that a job it listed already stays listed; its load is back exactly when neither cap acted; the latency average keeps 0.7 of its distance to the measured value |
| `JobOutcomes.SeenSurvivesIff` | control_plane/nodes.py:16-21 | a node that registers or sends a heartbeat survives a health check if and only if it comes within the dead time, and keeps the jobs it is known to run |
| `JobEffects.FailureRetriesIff` | control_plane/app.py:317-319 | after a failure report the job is queued and in the queue if and only if it has had fewer than 3 attempts, and failed if and only if it has had 3 |
| `JobEffects.FailedStepRetriesIff` | control_plane/app.py:294-319 | so it is after the whole step on a process that does not lead |
| `JobEffects.ResultCredits` | control_plane/app.py:303-308 | the reporting node gets one success or one failure more, and its load average moves by the factor beta |
| `JobEffects.ResultNodes` | control_plane/app.py:303-315 | crediting a node changes no list; the job is then taken off the assigned nodes |
| `JobEffects.UnloadReachesAll` | control_plane/app.py:309-315 | exactly the assigned nodes that are registered lose one listing of the job |
| `JobEffects.ResultUnlists` | control_plane/app.py:294-319 | after a result each assigned node lists the job once less, and every other job as often as before |
| `JobEffects.OnlyLeadersSchedule` | control_plane/app.py:89-93 | a process that does not lead, or has an empty queue, schedules nothing |
| `JobEffects.DispatchReachesAll` | control_plane/app.py:106-114 | a node lists the job if it answered, properly or not, and counts as assigned if it answered properly |
| `JobEffects.StartEnds` | control_plane/app.py:101-120 | an attempt costs one try; the job runs if and only if all chosen nodes accepted; otherwise it is queued last if tries are left and failed if not |
| `JobEffects.ChoiceExistsIff` | control_plane/app.py:101-104 | a best choice of as many nodes as asked for exists if and only if the ranking finds that many |
| `JobEffects.RoundOutcome` | control_plane/app.py:89-120 | a leader drops a completed head, puts a head back last, without an attempt, if no choice of nodes exists, and otherwise attempts it with a best choice |
| `JobEffects.StepAdvances` | control_plane/memory.py:313-337 | every step only appends to the queue and takes from its front |
| `JobEffects.RunAdvances` | control_plane/memory.py:313-337 | so over every run the queue is served in the order in which jobs were queued |
| `JobEffects.EarlierGoesFirst` | control_plane/memory.py:331-337 | of two queued jobs, as long as the earlier is there, the later stands behind it as before |
| `JobEffects.BeatReplaces` | control_plane/app.py:343-351 | a heartbeat sets load, latency, list and queue size of its node to what it reports, or keeps the list it does not report, and changes nothing else |
| `JobEffects.RegisterKeepsKnown` | control_plane/memory.py:435-446 | a known node that registers keeps all but its GPU flag and is healthy and seen |
| `JobEffects.RegisterStartsIdle` | control_plane/nodes.py:16-21 | a new one starts idle |
| `JobEffects.SubmitRecords` | control_plane/memory.py:321-329 | a submitted job is on record as asked for, without an attempt, and queued last |
| `JobRuns.ForgetfulStrands` | control_plane/app.py:343-351 | registration, a dispatched job and a heartbeat with an empty list end with a running job listed nowhere |
| `JobRuns.CompletedComesBack` | control_plane/health.py:14-31 | a garbled reply, a second dispatch and a success leave a stale listing; when the node dies, the completed job is reopened |
| `ControlPlane.ClusterMemory.constructor` | control_plane/memory.py:104-125 | a new process holds what storage holds |
| `ControlPlane.ClusterMemory.PopNextJob` | control_plane/memory.py:331-337 | the head leaves the queue and storage; an id without a record yields nothing |
| `ControlPlane.ClusterMemory.DispatchAll` | control_plane/app.py:106-114 | the loop takes the protocol's dispatch step and returns the nodes counted as assigned |
| `ControlPlane.ClusterMemory.Start` | control_plane/app.py:101-120 | takes the protocol step: too few nodes, enough nodes, or partial failure |
| `ControlPlane.ClusterMemory.ScheduleOnce` | control_plane/app.py:89-120 | takes the protocol's scheduling step in every branch |
| `ControlPlane.ClusterMemory.UnloadAll` | control_plane/app.py:309-315 | the loop takes one occurrence of the job off every assigned node that is registered |
| `ControlPlane.ClusterMemory.RecordResult` | control_plane/app.py:294-319 | unknown jobs are reported and change nothing; otherwise the protocol's result step |
| `ControlPlane.ClusterMemory.RequeueJobs` | control_plane/health.py:14-20 | the loop requeues or fails every listed job on record |
| `ControlPlane.ClusterMemory.CheckNodesOnce` | control_plane/health.py:23-31 | the loop takes the protocol's health check step |
| `ControlPlane.ClusterMemory.HandleStep` | control_plane/app.py:260-362 | every endpoint, composed of the loops and helpers, changes the tables as the protocol step does |
| `ControlPlane.Process.constructor` | control_plane/memory.py:104-125 | a process that starts after any run finds memory and queue as they were, and the run goes on |
| `ControlPlane.Process.Handle` | control_plane/app.py:260-362 | after every endpoint call on the object: the queue is duplicate-free, inside the table and holds jobs with attempts left, queued jobs are in it and running ones are not, a failed job has had 3 attempts, a failure report to a process that does not lead queues its job again if and only if it has had fewer, attempts and deliveries are bounded, storage equals memory, jobs become or stay completed exactly as CompletedIff says, running jobs are listed if no heartbeat has dropped one, and an attempt has gone to the best nodes there were |
| `ClusterScoring.RoundKeepsBound` | global_scheduler/cross_cluster_scheduler.py:32-35 | rounding to six digits cannot cross a bound that has six digits |
| `ClusterScoring.LiveScoresWell` | global_scheduler/cross_cluster_scheduler.py:9-35 | every live cluster with load in [0,1] and non-negative counts scores at least 0.48 |
| `ClusterScoring.BoundIsTight` | global_scheduler/cross_cluster_scheduler.py:9-35 | 0.48 is attained, for every job |
| `ClusterScoring.ScoreRespectsDominance` | global_scheduler/cross_cluster_scheduler.py:9-35 | a live cluster at least as good in every respect never scores worse |
| `ClusterScoring.WorthOfAmounts` | global_scheduler/cross_cluster_scheduler.py:9-35 | within the caps, a unit of load costs 0.35, a queued job 0.00044, a millisecond 0.00006, and a node brings 0.0005, a GPU 0.00625 if required and 0.0015625 if not |
| `ClusterScoring.WorthOfStates` | global_scheduler/cross_cluster_scheduler.py:9-35 | healthy is worth 0.10 more than degraded and 0.15 more than unknown, the preferred region 0.12 |
| `ClusterScoring.LoadAgainstQueue` | global_scheduler/cross_cluster_scheduler.py:9-35 | of clusters that differ in load and queue one is at least as good if and only if 0.35 per unit of load outweighs 0.00044 per queued job |
| `ClusterScoring.PreferredIff` | global_scheduler/cross_cluster_scheduler.py:27 | the region is preferred if and only if both are named and the names are equal but for surrounding blanks and case |
| `ClusterScoring.RankableOf` | global_scheduler/cross_cluster_scheduler.py:42-50 | exactly the clusters that are live and score at least zero |
| `ClusterScoring.Rank` | global_scheduler/cross_cluster_scheduler.py:38-53 | the loop and the sort give the ranking, a permutation of the rankable clusters |
| `ClusterScoring.BestAmongRankable` | global_scheduler/cross_cluster_scheduler.py:56-67 | for any clusters, a choice fails exactly if none can be ranked, and otherwise none that can be ranked scores better |
| `ClusterScoring.BestClusterIsBest` | global_scheduler/cross_cluster_scheduler.py:56-67 | a choice fails exactly when no cluster is live; otherwise a live cluster with the best score is chosen |
| `Federation.ReroutedWell` | federation/failover.py:37-46 | with sane reports, a rerouted job is on a live cluster of best score, or on none exactly if none is live |
| `Federation.RerouteAllIsPointwise` | federation/controller.py:85-87 | however many clusters died, a job is rerouted at most once |
| `Federation.WatchIsPointwise` | federation/controller.py:83-92 | sweep and nested rerouting loops amount to treating every job once |
| `Federation.WatchIsSafe` | federation/controller.py:79-94 | after a watch iteration no job that is neither completed nor failed is on an offline cluster, no job is lost, terminal jobs and jobs of live clusters are untouched, and a queued, routed, running or migrated job whose cluster fell silent is migrated to another or queued without one, whatever the clusters report of themselves |
| `Federation.WatchProceeds` | federation/failover.py:29-46 | what a watch makes of one job, in any state: it stays unless it is in one of the four open statuses on a cluster that fell silent; then it leaves that cluster |
| `Federation.TwoOutages` | federation/failover.py:29-46 | two watches in a row after any harmless run: a job that the first moved is moved again if its new cluster has fallen silent, and both leave a safe state |
| `Federation.WatchUnassignsIff` | federation/failover.py:37-42 | a watch iteration leaves an assigned job without a cluster if and only if it was active on one that fell silent and no swept cluster can be ranked for it |
| `Federation.UnassignedMeansNoneLive` | federation/failover.py:37-42 | with sane reports, that happens only if no cluster is live |
| `Federation.OverloadedInput` | federation/failover.py:37-42 | a live cluster that reports a load of ten or more is no place to go: the job is left without one |
| `Federation.SubmitIsSafe` | federation/controller.py:177-235 | a submission is placed on a live cluster or on none |
| `Federation.StepSafeIff` | federation/controller.py:79-278 | a step keeps failover safety if and only if it does not store as offline, by a heartbeat or a registration, a cluster to which an active job is assigned |
| `Federation.ReportSafeIff` | federation/controller.py:134-142 | a stored report is safe if and only if it is live or no active job is assigned to its cluster |
| `Federation.OfflineRunIsUnsafe` | federation/heartbeat.py:11-34 | registration, a submission and an offline heartbeat leave an active job on an offline cluster |
| `Federation.ReregisteringIsUnsafe` | federation/controller.py:134-142 | so do registration, a submission and a second registration as offline |
| `Federation.HeartbeatHoldsOffIff` | federation/heartbeat.py:47-65 | a heartbeat protects its cluster from the sweep exactly for the timeout, unless it says offline or its stamp is not positive |
| `Federation.StepKeepsKeyed` | federation/controller.py:126-142 | no step makes two clusters share a control-plane URL, up to case and trailing slashes |
| `Federation.SameUrlIff` | federation/controller.py:111-112 | two control-plane URLs count as one if and only if they are the same but for the case of letters and slashes at the end |
| `Federation.ReachableIsKeyed` | federation/controller.py:126-142 | so no reachable state has two clusters with one URL |
| `Federation.AlwaysSafeIff` | federation/controller.py:79-278 | over a whole run, no job that is neither completed nor failed is ever assigned to an offline cluster if and only if no step of the run stores a cluster with such jobs as offline |
| `Federation.ReachableIsTidy` | federation/heartbeat.py:17-31 | with sane reports throughout, every reachable state has sane records |
| `Federation.NoJobIsDropped` | federation/controller.py:177-278 | a submitted job stays on record for the rest of any run |
| `Federation.NeverPlacedAgain` | federation/controller.py:197-226 | a job left without a cluster, by submission or failover, is never placed again in the rest of any run |
| `Federation.NeverRerouted` | federation/failover.py:20-51 | a job on a cluster that is offline already stays assigned to it through every watch, until that cluster gets in touch again |
| `Federation.CompletionIsFinal` | federation/controller.py:266-278 | a completed or failed job changes in the rest of any run only if its completion is reported once more |
| `Federation.SubmitUnassignedIff` | federation/controller.py:197-226 | a submission ends without a cluster if and only if the push failed, no cluster can be ranked, or the best one has an empty id |
| `Federation.EmptyIdInput` | federation/failover.py:37-46 | with only a cluster of empty id, a submission is not placed, but failover does send jobs there |
| `FederationController.SweepList` | federation/heartbeat.py:47-65 | the loop sets exactly the silent live clusters offline and reports them in listing order |
| `FederationController.RerouteOne` | federation/failover.py:36-46 | one orphan goes, as migrated, to a live cluster that no rankable one outscores, or back to the queue exactly if none can be ranked; nothing else of it changes |
| `FederationController.RerouteList` | federation/failover.py:25-51 | the loop rewrites exactly the orphans of the dead cluster and counts and lists what has to be pushed |
| `FederationController.OpenOrphansMove` | federation/failover.py:29-33 | rerouted are exactly the jobs of the dead cluster that are queued, routed, running or migrated |
| `FederationController.PushesAre` | federation/failover.py:45-51 | every orphan that found a cluster is pushed to that cluster, and nothing else is |
| `FederationController.PushesAreOwed` | federation/controller.py:85-92 | over a whole watch iteration, pushed are exactly the jobs whose cluster fell silent and that found another |
| `FederationController.FederationRegistry.SweepStaleClusters` | federation/heartbeat.py:37-65 | the cluster table becomes the swept one; the newly offline ids are returned |
| `FederationController.FederationRegistry.RerouteJobs` | federation/failover.py:11-56 | exactly the queued, routed, running and migrated jobs of the dead cluster are rerouted among the other live ones, all others stay |
| `FederationController.FederationRegistry.WatchIteration` | federation/controller.py:83-92 | on the object, with the jobs listed anew for every dead cluster: no job but a completed or failed one is left on an offline cluster if no report so far has taken one with such jobs offline, every other job of a cluster that fell silent moves and no other job changes, jobs lose their cluster exactly as WatchUnassignsIff says, and pushed are exactly the jobs that moved |
| `FederationController.FederationRegistry.RegisterCluster` | federation/controller.py:126-142 | refused exactly if another cluster has the URL, up to case and slashes at the end; otherwise stored with a fresh heartbeat, which is safe exactly if it is live or has no job that is neither completed nor failed; no two clusters ever share a URL |
| `FederationController.FederationRegistry.SubmitGlobalJob` | federation/controller.py:177-235 | on the object: the job goes, as routed, to a live cluster that no rankable one outscores, or stays queued without one exactly if the push failed, no cluster can be ranked for it or the best one has an empty id |
| `FederationController.FederationRegistry.SaveRouted` | federation/controller.py:197-226 | saved as queued, then routed, and put back if the push fails; not routed to an empty id |
| `Leases.DistributedLock.AcquireLock` | consensus/distributed_lock.py:35-51 | refused exactly if an unexpired lease of another holder is in the way; otherwise the row is the holder's until ts + ttl, a renewal included |
| `Leases.DistributedLock.ReleaseLock` | consensus/distributed_lock.py:53-62 | exactly the holder's own row goes |
| `Leases.LeaderElection.TryAcquire` | consensus/election.py:34-50 | refused exactly if an unexpired lease of another is in the way; otherwise the row is the holder's until ts + ttl |
| `Leases.LeaderElection.Renew` | consensus/election.py:52-54 | the holder's own row, expired or not, now runs to ts + ttl |
| `Leases.GlobalConsensus.AcquireLock` | global_control/consensus.py:119-130 | refused exactly if an unexpired lease of another holder is in the way; otherwise the row is the holder's until ts + ttl |
| `Leases.GlobalConsensus.ReleaseLock` | global_control/consensus.py:132-138 | refines the shared release and reports whether something was released |
| `Leases.StepKeepsInv` | consensus/distributed_lock.py:35-62 | clock ticks, calls that have read the clock, their critical sections and releases keep: whoever holds a lease is in the table with it |
| `Leases.InvExcludes` | consensus/distributed_lock.py:35-62 | then no two holders hold one lease |
| `Leases.NeverTwoHolders` | consensus/distributed_lock.py:35-62 | under every interleaving, with stale clock readings, two holders never have an unexpired unreleased grant of one name at one real time |
| `Leases.OnlyFutureStampsSteal` | consensus/distributed_lock.py:41 | a held lease can be taken by another exactly with a stamp at or beyond its expiry, which lies in the future |
| `Leases.HolderRenews` | consensus/election.py:40-54 | in every state of every interleaving, a pending call of the current holder, however stale its reading, is granted and its grant runs to ts + ttl |
| `Leases.RefusedIff` | consensus/distributed_lock.py:41 | a pending call with a current reading is refused if and only if another holder holds the lease |
| `Leases.ReachableRefusedIff` | consensus/distributed_lock.py:35-51 | so it is in every state of every interleaving |
| `Leases.ReleasedIsFree` | consensus/distributed_lock.py:53-62 | what its holder lets go is granted to the next call with a current reading |
| `Leases.ExpiredIsAvailable` | consensus/distributed_lock.py:41 | an expired or absent entry never blocks a request with a current stamp |
| `RateLimits.AcceptedInOrder` | gateway/rate_limit.py:21-30 | acceptance times ascend |
| `RateLimits.NoWindowExceedsRate` | gateway/rate_limit.py:19-30 | no closed second, wherever it starts, holds more than the rounded-up rate of acceptances |
| `RateLimits.Prune` | gateway/rate_limit.py:24-26 | the loop drops, from the front, only times older than a second, and stops at the first that is not |
| `RateLimits.PrunedIsWindow` | gateway/rate_limit.py:24-26 | for an ordered history, what pruning leaves is as many as lie in the closed second |
| `RateLimits.InOrderAgrees` | gateway/rate_limit.py:19-30 | served in the order of the clock readings, the pruned deque takes every decision as the full history would |
| `RateLimits.LimitSurvivesIff` | gateway/rate_limit.py:21-30 | the clock is read before the lock: the limit survives every order of service with readings lagging by at most `lag` if and only if there is no lag or the rate is at most one per second |
| `RateLimits.LagBreaksLimit` | gateway/rate_limit.py:21-30 | for every rate above one and every lag, a burst, a request that prunes it and a late reading put one acceptance too many into a second |
| `RateLimits.Decide` | gateway/rate_limit.py:24-30 | accepted exactly if fewer times than the rate are left; queue and history follow |
| `RateLimits.RateLimiter.AllowRequest` | gateway/rate_limit.py:19-30 | for readings in any order the queue is that of the run so far; as long as they come in order, a request is refused exactly if the full history of its organisation has at least `rate` acceptances in the preceding closed second |
| `Replication.GlobalState.PutValue` | global_control/global_state.py:58-81 | one version up, logged with old and new version |
| `Replication.GlobalState.GetRow` | global_control/global_state.py:83-99 | the row, or none |
| `Replication.PutKeepsLog` | global_control/global_state.py:64-77 | the change log tells every step of every key's version without a gap |
| `Replication.StateReplicator.ApplyOne` | global_control/replication.py:116-133 | a change that is not newer by version is skipped; one that is raises the version by one and stores the remote value, unless it is more than one version ahead of a row that was written more recently, which keeps its value; logged unless skipped |
| `Replication.StateReplicator.ApplyRemoteChanges` | global_control/replication.py:112-134 | the store becomes the fold of deliveries; each change is counted once as applied, conflict or skipped, and the three add up |
| `Replication.DeliverOutcome` | global_control/replication.py:116-141 | what one change does to the row of its key, in every case, said on versions and times |
| `Replication.ConflictKeepsNewer` | global_control/replication.py:127-141 | on a conflict the key holds the remote value if it is at least as recent as its own, and otherwise keeps its own |
| `Replication.LastTakenWins` | global_control/replication.py:112-141 | over a run of changes a key holds the value of the last one that took, or its old value if none did |
| `Replication.StateReplicator.EnqueueChange` | global_control/replication.py:100-110 | appended to what is pending |
| `Replication.StateReplicator.SyncTick` | global_control/replication.py:82-98 | nothing enqueued is lost or reordered if and only if a callback is installed or nothing was pending; a failed batch goes back in front |
| `Replication.RedeliveryIsAbsorbed` | global_control/replication.py:112-141 | one change of version k delivered n times to a key at version v < k takes effect min(n, k - v) times and from then on the key holds the remote value at version k |
| `Replication.AbsorbedIsSkipped` | global_control/replication.py:123-125 | it is skipped if and only if it has been delivered k - v times |
| `Replication.VersionsStayInRange` | global_control/replication.py:112-134 | no version goes down or passes the highest version offered |
| `UltraScaleRuntimes.SubmitKeeps` | runtime/ultra_scale_runtime.py:91-110 | a fresh job joins table and queue with the next turn, or the queue is full and nothing changes |
| `UltraScaleRuntimes.BatchKeeps` | runtime/ultra_scale_runtime.py:112-125 | a batch is accepted from its front until the queue is full |
| `UltraScaleRuntimes.SortKeeps` | runtime/ultra_scale_runtime.py:140-141 | re-sorting keeps the invariant and orders the queue strictly by (priority, acceptance) |
| `UltraScaleRuntimes.RankOrders` | runtime/ultra_scale_runtime.py:133-139 | the rank puts critical before high before normal before low before background |
| `UltraScaleRuntimes.StartManyKeeps` | runtime/ultra_scale_runtime.py:143-154 | starting k jobs takes the first k and leaves the rest as it stands |
| `UltraScaleRuntimes.DispatchIsPriorityFifo` | runtime/ultra_scale_runtime.py:127-156 | dispatch takes the least jobs by (priority, acceptance), as many as request, queue and concurrency limit allow; running never exceeds the limit and submitted = queued + running + completed + failed + cancelled |
| `UltraScaleRuntimes.DispatchIsUrgent` | runtime/ultra_scale_runtime.py:127-156 | of a job that is dispatched and one that stays queued, the one that stays is never the more urgent by the five priorities, and not the earlier accepted if both are equally urgent |
| `UltraScaleRuntimes.RefusedAreLessUrgent` | runtime/ultra_scale_runtime.py:112-125 | of an accepted and a refused job of one batch, the refused one is never the more urgent |
| `UltraScaleRuntimes.CancelFacts` | runtime/ultra_scale_runtime.py:196-209 | cancelling takes exactly the job out of table, queue and running jobs |
| `UltraScaleRuntimes.FinishKeeps` | runtime/ultra_scale_runtime.py:176-194 | completion keeps the partition of the table and the balance |
| `UltraScaleRuntimes.CancelKeeps` | runtime/ultra_scale_runtime.py:196-209 | so does cancelling a running or a queued job |
| `UltraScaleRuntimes.InTurnMeans` | runtime/ultra_scale_runtime.py:140-141 | no job is queued twice, and equal priorities stand in acceptance order |
| `UltraScaleRuntimes.UltraScaleRuntime.SubmitJob` | runtime/ultra_scale_runtime.py:91-110 | accepted exactly if the queue has room; then the job is last in the queue and on record as queued |
| `UltraScaleRuntimes.UltraScaleRuntime.SubmitBatch` | runtime/ultra_scale_runtime.py:112-125 | as many jobs of the batch as fit are accepted, and no refused one is more urgent than an accepted one, by the five priorities |
| `UltraScaleRuntimes.UltraScaleRuntime.DispatchJobs` | runtime/ultra_scale_runtime.py:127-156 | until request, queue or concurrency limit is reached; no job left queued is more urgent than a dispatched one, or as urgent and accepted earlier |
| `UltraScaleRuntimes.UltraScaleRuntime.CompleteJob` | runtime/ultra_scale_runtime.py:176-194 | the job if it was running, else none and no change; it leaves table and running jobs, and the counter of its outcome goes up |
| `UltraScaleRuntimes.UltraScaleRuntime.CancelJob` | runtime/ultra_scale_runtime.py:196-209 | found exactly if the job is in the table; it leaves table, queue and running jobs, and nothing else does |
| `EventLogs.NewerIsSuffix` | distributed_queue/event_log.py:85-92 | the rows above a number are a suffix of the log |
| `EventLogs.TailIsSuffix` | distributed_queue/event_log.py:109-119 | tail is a suffix of at most limit rows, gaps in the numbering included |
| `EventLogs.TailIsExact` | distributed_queue/event_log.py:109-119 | the rows of tail are exactly those numbered within limit of the last |
| `EventLogs.TailIsFullIff` | distributed_queue/event_log.py:109-119 | tail yields as many rows as asked for if and only if no gap reaches into the last ones |
| `EventLogs.TailOfGapless` | distributed_queue/event_log.py:109-119 | a log without gaps yields exactly min(limit, length) rows |
| `EventLogs.PageIs` | distributed_queue/event_log.py:85-107 | a page begins with the first row above the number and is as long as asked for, unless fewer rows are left |
| `EventLogs.PageMakesProgress` | distributed_queue/event_log.py:85-92 | a page and what is above its last number make up what was above the starting number |
| `EventLogs.PagingIsComplete` | distributed_queue/event_log.py:85-107 | paging enumerates what is above the start once, in order, for every page size |
| `EventLogs.PagingReadsTheLog` | distributed_queue/event_log.py:85-107 | paging from zero reads the whole log |
| `EventLogs.MergeKeepsRows` | distributed_queue/event_log.py:134-161 | a merge changes no row and keeps ids unique |
| `EventLogs.MergedIds` | distributed_queue/event_log.py:134-161 | the ids are exactly those there before and the non-empty ones that came in |
| `EventLogs.FirstCopyLands` | distributed_queue/event_log.py:134-161 | of several events under one new id the first is kept, behind everything that came in before it |
| `EventLogs.MergeIsUnion` | distributed_queue/event_log.py:134-161 | where ids determine contents, a merge is a union of event sets |
| `EventLogs.ExchangeMakesEqual` | distributed_queue/event_log.py:85-161 | after exchanging all pages both ways, two logs hold the same events |
| `EventLogs.EventLog.Append` | distributed_queue/event_log.py:61-74 | one row with a greater number; earlier rows unchanged |
| `EventLogs.EventLog.MergeEvents` | distributed_queue/event_log.py:134-161 | earlier rows unchanged, the events are the merge, the count is what was inserted |
| `EdgeSchedulers.RegisterKeeps` | edge/edge_scheduler.py:57-60 | registering, also with a lower capacity, keeps every counter exact |
| `EdgeSchedulers.SubmitKeeps` | edge/edge_scheduler.py:79-82 | the queue gains the workload and is sorted by priority |
| `EdgeSchedulers.PickIsRoomiest` | edge/edge_scheduler.py:115-124 | a node with room is picked if there is one, and none has more room |
| `EdgeSchedulers.PickMeans` | edge/edge_scheduler.py:115-124 | on the counters: none is picked exactly if every node is at its capacity or above; otherwise one with the greatest capacity minus load |
| `EdgeSchedulers.AssignKeeps` | edge/edge_scheduler.py:91-97 | an assignment keeps the counters exact and the node within its capacity |
| `EdgeSchedulers.ScheduleKeeps` | edge/edge_scheduler.py:84-97 | refused exactly if the queue is empty, no node has room, or the roomiest node found has an empty name |
| `EdgeSchedulers.NamelessNodeBlocks` | edge/edge_scheduler.py:84-97 | a roomiest node with an empty name blocks scheduling although another node has room |
| `EdgeSchedulers.CompleteKeeps` | edge/edge_scheduler.py:99-113 | the clamp at zero never acts and the counter stays exact |
| `EdgeSchedulers.UnregisterKeeps` | edge/edge_scheduler.py:62-77 | removing a node loses no workload and leaves none running on it |
| `EdgeSchedulers.RequeueIs` | edge/edge_scheduler.py:66-76 | exactly the listed workloads leave the running ones and stand at the end of the queue in that order, queued and without a node |
| `EdgeSchedulers.TakeBack` | edge/edge_scheduler.py:66-76 | the loop does that |
| `EdgeSchedulers.EdgeScheduler.RegisterNode` | edge/edge_scheduler.py:57-60 | capacity set, load kept or started at zero, queue and running workloads as they were |
| `EdgeSchedulers.EdgeScheduler.UnregisterNode` | edge/edge_scheduler.py:62-77 | the node goes with its counters; exactly its workloads stop running, are returned, and stand at the end of the queue, queued and without a node |
| `EdgeSchedulers.EdgeScheduler.SubmitWorkload` | edge/edge_scheduler.py:79-82 | the queue gains the workload and is in order of descending priority |
| `EdgeSchedulers.EdgeScheduler.PickNode` | edge/edge_scheduler.py:115-124 | the loop finds the first roomiest node in listing order |
| `EdgeSchedulers.EdgeScheduler.ScheduleNextWorkload` | edge/edge_scheduler.py:84-97 | the head of the queue starts on a node with the greatest capacity minus load, which is above zero, and the load of that node goes up by one; nothing starts only if the queue is empty, no node has room or a node without a name is there |
| `EdgeSchedulers.EdgeScheduler.CompleteWorkload` | edge/edge_scheduler.py:99-113 | the workload with its outcome, or none; it stops running and the load of its node goes down by one |
| `LruCaches.TotalWithout` | edge/edge_cache.py:86-89 | the sum of the sizes does not depend on the order of summation, so subtracting one size keeps the counter exact |
| `LruCaches.NeverRoomIff` | edge/edge_cache.py:57-60 | something has to go whatever is left, so that put never leaves its loop, if and only if max_entries is zero or less |
| `Collections.LeastRanked` | edge/edge_cache.py:94 | a key whose value ranks no higher than any other |
| `LruCaches.Evict` | edge/edge_cache.py:57-60 | ends with fewer entries than allowed and room for the new size, or empty; has evicted no entry used more recently than a survivor, and not one more than needed |
| `LruCaches.PutIsSound` | replication/cache_replication.py:90-94 | replacing or adding an entry after eviction keeps the counter exact and the cache within its limits, or with a single entry |
| `LruCaches.MakeRoomAndPut` | replication/cache_replication.py:88-94 | room is made, then the entry stored |
| `LruCaches.DropAndPut` | edge/edge_cache.py:55-63 | the old entry goes first, so it is not counted against the room |
| `LruCaches.LookUp` | replication/cache_replication.py:97-113 | an entry is found exactly if held, unexpired and (where heeded) not invalidated, and it is the one stored last; a stale one is taken out |
| `LruCaches.Clean` | replication/cache_replication.py:155-164 | exactly the entries older than their time to live, or (where heeded) invalidated, go and are counted; the size counter stays exact |
| `LruCaches.EdgeCache.Get` | edge/edge_cache.py:38-51 | a value is returned exactly if one is held whose age is at most its time to live, and it is the one stored last; otherwise the entry goes |
| `LruCaches.EdgeCache.Put` | edge/edge_cache.py:53-63 | the counter is exact, the entry count bounded, the size within the limit or one entry alone, the evicted ones least recently used, minimal and counted |
| `LruCaches.EdgeCache.Delete` | edge/edge_cache.py:65-70 | exactly one entry goes |
| `LruCaches.EdgeCache.CleanupExpired` | edge/edge_cache.py:79-84 | exactly the expired entries go and are counted |
| `LruCaches.DistributedCacheFabric.Put` | replication/cache_replication.py:79-95 | the same, where the old entry of the key still counts while room is made; every eviction is counted |
| `LruCaches.DistributedCacheFabric.Get` | replication/cache_replication.py:97-113 | an entry is returned exactly if one is held whose age is at most its time to live and which is not invalidated, and it is the one stored last |
| `LruCaches.DistributedCacheFabric.Invalidate` | replication/cache_replication.py:115-127 | the entry is flagged and is not returned again until something new is stored |
| `LruCaches.DistributedCacheFabric.CleanupExpired` | replication/cache_replication.py:155-164 | exactly the expired and invalidated entries go and are counted |
| `EdgeRuntimes.UnsyncedIsSuffix` | edge/edge_runtime.py:214-216 | what is not marked is the end of the outbox |
| `EdgeRuntimes.SelectedIsNext` | edge/edge_runtime.py:214-216 | a flush selects the next rows in id order, at most a hundred |
| `EdgeRuntimes.MarkAll` | edge/edge_runtime.py:224-225 | exactly the selected rows are marked, nothing else changes |
| `EdgeRuntimes.Keep` | edge/edge_runtime.py:187-191 | one oldest entry goes if there are too many |
| `EdgeRuntimes.EdgeRuntime.constructor` | edge/edge_runtime.py:50-103 | opens tables left by earlier runtimes: the results are all there, and delivery goes on with the first unmarked row |
| `EdgeRuntimes.EdgeRuntime.GetCache` | edge/edge_runtime.py:157-182 | the in-memory layer over the table answers like a plain map of the last stored results |
| `EdgeRuntimes.EdgeRuntime.HandleRequest` | edge/edge_runtime.py:124-136 | so does a request, except that an empty result counts as a miss |
| `EdgeRuntimes.EdgeRuntime.PutCache` | edge/edge_runtime.py:184-199 | the result is stored; one oldest entry leaves the in-memory layer if it has grown too large |
| `EdgeRuntimes.EdgeRuntime.StoreResult` | edge/edge_runtime.py:138-145 | stored and announced in the outbox |
| `EdgeRuntimes.EdgeRuntime.SetConnected` | edge/edge_runtime.py:147-155 | syncing on reconnect, offline on disconnect, else the state stays |
| `EdgeRuntimes.EdgeRuntime.EnqueueOutbox` | edge/edge_runtime.py:201-209 | one unsynced row at the end |
| `EdgeRuntimes.EdgeRuntime.FlushOutbox` | edge/edge_runtime.py:211-233 | nothing is marked if the callback raises; otherwise the next rows are delivered once, in order, and marked, also with rows stored meanwhile; online only with nothing unsynced; a complete record of deliveries stays complete if and only if there is a callback or nothing was left to send |

## Left out

- HTTP routes, clients, dashboards, authentication, signatures and subprocess calls: I/O and opaque libraries.
- PostgreSQL mode, Redis branches, Raft and advisory locks: the behaviour is that of other systems.
- SQLite and JSON encodings: tables are maps or sequences, numbered rows get any greater number.
- Telemetry, metrics, event emission, execution logs and history lists, and timestamps that no decision reads.
- Rounding of floating-point numbers: reals are used, except that `round(x, 6)` is modelled.
- A crash between the outbox callback and the marking of its rows: a flush is one step; the rows would be delivered again.
- Interleavings inside a handler: control-plane and federation handlers are atomic steps. Leases and the rate limiter are modelled with interleaving.
- Negative latencies: both searches are proved for non-negative ones. Link keys are pairs, which takes node ids to contain no "::".
- The heap's tie-break by region id: left open, so the results hold for every tie-break.
- Reused ids: job ids, workload ids and appended event ids are taken to be fresh, as the code assumes.
- `expire_stale`, `score_peer` and the random choice of gossip partners: expiry removes records and so suspends convergence.
- Region names and control-plane URLs: stripping and lower-casing are those of ASCII.
- `mark_running`, `update_tokens` and the queue statistics of the ultra-scale runtime: they change no queue and would only add easy members.
- LruCaches.EdgeCache.constructor: requires `max_entries` of at least one; `NeverRoomIff` says why.
- Cache `clear`, `hot_keys`, warm candidates, invalidation by type and access counts: easy members.
- Priority order of the edge scheduler's queue after a node was removed: the code appends requeued workloads unsorted.
- A bound on the edge runtime's in-memory layer: loads from the table do not evict.
- `GlobalState.delete`, checkpoints, leader promotion, replicated-queue claims, incremental flush, vote and retry managers.

/**
 The control plane's job protocol as a state machine: submit, schedule, result, heartbeat,
 registration and node death over a queue, a job table and a node table, each mirrored to
 storage (control_plane/app.py, control_plane/memory.py, control_plane/health.py,
 control_plane/nodes.py, storage/job_queue.py).

 Every handler is one atomic step. What the outside decides (whether this process leads, what a
 node answers, what the clock says, in which order a dictionary lists its entries) is an argument.
 */
module JobProtocol {
  import opened Collections
  import opened Options
  import opened NodeRanking

  const MAX_JOB_RETRIES := 3

  const DEAD_AFTER_SEC := 15.0

  /** What came of posting a job to a node. A garbled reply leaves the job on the node but counts as a failure. */
  datatype Outcome = Accepted(latencyMs: real) | Garbled(latencyMs: real) | Refused

  /** `deliveries` is history: how often each job was taken on by a node. */
  datatype Cluster = Cluster(
    nodes: map<NodeId, NodeState>, jobs: map<JobId, JobRecord>, queue: seq<JobId>,
    storedNodes: map<NodeId, NodeState>, storedJobs: map<JobId, JobRecord>, storedQueue: seq<JobId>,
    deliveries: map<JobId, nat>)

  const EMPTY := Cluster(map[], map[], [], map[], map[], [], map[])

  // ----- ClusterMemory ---------------------------------------------------------------------------

  function SaveJob(s: Cluster, job: JobRecord): Cluster {
    s.(jobs := s.jobs[job.id := job], storedJobs := s.storedJobs[job.id := job])
  }

  function PersistQueue(s: Cluster): Cluster {
    s.(storedQueue := s.queue)
  }

  function EnsureJobQueued(s: Cluster, id: JobId): Cluster {
    PersistQueue(if id in s.queue then s else s.(queue := s.queue + [id]))
  }

  function EnqueueJob(s: Cluster, job: JobRecord): Cluster {
    EnsureJobQueued(SaveJob(s, job), job.id)
  }

  function DropHead(s: Cluster): Cluster
    requires s.queue != []
  {
    PersistQueue(s.(queue := s.queue[1..]))
  }

  /** `add_node` on a node already in the table, after its fields were changed. */
  function TouchNode(s: Cluster, node: NodeState, now: real): Cluster {
    var seen := node.(healthy := true, lastSeen := now);
    s.(nodes := s.nodes[node.nodeId := seen], storedNodes := s.storedNodes[node.nodeId := seen])
  }

  /** `register_node`: a known node keeps its load and its running jobs. */
  function RegisterNode(s: Cluster, id: NodeId, hasGpu: bool, now: real): Cluster {
    if id in s.nodes then TouchNode(s, s.nodes[id].(nodeId := id, hasGpu := hasGpu), now)
    else TouchNode(s, NodeState(id, hasGpu, 0.0, true, [], now, 0.0, 0, 0, 0, 0.0), now)
  }

  function RemoveNode(s: Cluster, id: NodeId): Cluster {
    s.(nodes := s.nodes - {id}, storedNodes := s.storedNodes - {id})
  }

  /** `_restore_sqlite`: a restarted process reads the tables. */
  function Restart(s: Cluster): Cluster {
    Cluster(s.storedNodes, s.storedJobs, s.storedQueue, s.storedNodes, s.storedJobs, s.storedQueue, s.deliveries)
  }

  // ----- Job transitions -------------------------------------------------------------------------

  function MarkRunning(s: Cluster, id: JobId): Cluster
    requires id in s.jobs
  {
    var job := s.jobs[id];
    SaveJob(s, job.(status := Running, attempts := job.attempts + 1))
  }

  function MarkFinished(s: Cluster, id: JobId, ok: bool): Cluster
    requires id in s.jobs
  {
    SaveJob(s, s.jobs[id].(status := if ok then Completed else Failed))
  }

  function RequeueOrFail(s: Cluster, id: JobId): Cluster
    requires id in s.jobs
  {
    var job := s.jobs[id];
    if job.attempts >= MAX_JOB_RETRIES then SaveJob(s, job.(status := Failed))
    else EnsureJobQueued(SaveJob(s, job.(status := Queued)), id)
  }

  function RequeueAll(s: Cluster, ids: seq<JobId>): Cluster {
    if ids == [] then s
    else
      var most := RequeueAll(s, ids[..|ids| - 1]);
      var id := ids[|ids| - 1];
      if id in most.jobs then RequeueOrFail(most, id) else most
  }

  // ----- Dispatch --------------------------------------------------------------------------------

  function Deliveries(s: Cluster, id: JobId): nat {
    if id in s.deliveries then s.deliveries[id] else 0
  }

  function Loaded(node: NodeState, id: JobId, latencyMs: real): NodeState {
    node.(currentLoad := Min(1.0, node.currentLoad + 0.2),
          runningJobs := node.runningJobs + [id],
          avgLatencyMs := if node.avgLatencyMs == 0.0 then latencyMs else node.avgLatencyMs * 0.7 + latencyMs * 0.3,
          queueSize := |node.runningJobs| + 1)
  }

  function Dispatch(s: Cluster, n: NodeId, id: JobId, outcome: Outcome, now: real): Cluster
    requires n in s.nodes
  {
    if outcome.Refused? then s
    else
      var s1 := TouchNode(s, Loaded(s.nodes[n], id, outcome.latencyMs), now);
      s1.(deliveries := s1.deliveries[id := Deliveries(s1, id) + 1])
  }

  /** The dispatch loop: the state after it, and the nodes counted as assigned. */
  function DispatchAll(s: Cluster, targets: seq<NodeId>, id: JobId, answer: NodeId -> Outcome, now: real): (Cluster,
      seq<NodeId>) {
    if targets == [] then (s, [])
    else
      var (s1, taken) := DispatchAll(s, targets[..|targets| - 1], id, answer, now);
      var n := targets[|targets| - 1];
      if n !in s1.nodes then (s1, taken)
      else (Dispatch(s1, n, id, answer(n), now), if answer(n).Accepted? then taken + [n] else taken)
  }

  function Listed(nodes: map<NodeId, NodeState>, order: seq<NodeId>): seq<NodeState> {
    if order == [] then []
    else Listed(nodes, order[..|order| - 1]) + if order[|order| - 1] in nodes then [nodes[order[|order| - 1]]] else []
  }

  function Ids(nodes: seq<NodeState>): seq<NodeId> {
    seq(|nodes|, i requires 0 <= i < |nodes| => nodes[i].nodeId)
  }

  /** The nodes a job would go to. `order` is how the node dictionary lists its keys. */
  function Candidates(s: Cluster, id: JobId, order: seq<NodeId>): seq<NodeState>
    requires id in s.jobs
  {
    SelectBestNodes(s.jobs[id], Listed(s.nodes, order))
  }

  /** The part of `schedule_once` after the job has been found fit to run. */
  function Start(s: Cluster, id: JobId, order: seq<NodeId>, answer: NodeId -> Outcome, now: real): Cluster
    requires id in s.jobs
  {
    var targets := Candidates(s, id, order);
    if |targets| < s.jobs[id].requiredNodes then RequeueOrFail(s, id)
    else
      var (s1, taken) := DispatchAll(MarkRunning(s, id), Ids(targets), id, answer, now);
      DispatchKeepsJobs(MarkRunning(s, id), Ids(targets), id, answer, now);
      if |taken| >= s1.jobs[id].requiredNodes then PersistQueue(SaveJob(s1, s1.jobs[id].(assignedNodes := taken)))
      else RequeueOrFail(s1, id)
  }

  function ScheduleOnce(s: Cluster, leader: bool, order: seq<NodeId>, answer: NodeId -> Outcome, now: real): Cluster {
    if !leader || s.queue == [] then s
    else
      var id, s1 := s.queue[0], DropHead(s);
      if id !in s1.jobs || s1.jobs[id].status in {Completed, Failed} then s1
      else if s1.jobs[id].attempts >= MAX_JOB_RETRIES then SaveJob(s1, s1.jobs[id].(status := Failed))
      else Start(s1, id, order, answer, now)
  }

  lemma {:induction false} DispatchKeepsJobs(s: Cluster, targets: seq<NodeId>, id: JobId, answer: NodeId -> Outcome,
      now: real)
    ensures var s1 := DispatchAll(s, targets, id, answer, now).0;
      s1.jobs == s.jobs && s1.queue == s.queue && s1.storedJobs == s.storedJobs && s1.storedQueue == s.storedQueue
  {
    if targets != [] {
      DispatchKeepsJobs(s, targets[..|targets| - 1], id, answer, now);
    }
  }

  // ----- Results, heartbeats, node death ---------------------------------------------------------

  function RemoveFirst(ids: seq<JobId>, id: JobId): seq<JobId> {
    if ids == [] then [] else if ids[0] == id then ids[1..] else [ids[0]] + RemoveFirst(ids[1..], id)
  }

  function Credited(node: NodeState, ok: bool, beta: real): NodeState {
    node.(jobsOk := if ok then node.jobsOk + 1 else node.jobsOk,
          jobsFailed := if ok then node.jobsFailed else node.jobsFailed + 1,
          loadEma := beta * node.currentLoad + (1.0 - beta) * node.loadEma)
  }

  function Unloaded(node: NodeState, id: JobId): NodeState {
    node.(currentLoad := Max(0.0, node.currentLoad - 0.2), runningJobs := RemoveFirst(node.runningJobs, id))
  }

  function UnloadAll(s: Cluster, taken: seq<NodeId>, id: JobId, now: real): Cluster {
    if taken == [] then s
    else
      var most := UnloadAll(s, taken[..|taken| - 1], id, now);
      var n := taken[|taken| - 1];
      if n in most.nodes then TouchNode(most, Unloaded(most.nodes[n], id), now) else most
  }

  /** `job_result`, without the scheduling round at its end. An unknown job changes nothing. */
  function RecordResult(s: Cluster, from: NodeId, id: JobId, ok: bool, beta: real, now: real): Cluster {
    if id !in s.jobs then s
    else
      var s1 := MarkFinished(s, id, ok);
      var s2 := if from in s1.nodes then TouchNode(s1, Credited(s1.nodes[from], ok, beta), now) else s1;
      var s3 := UnloadAll(s2, s2.jobs[id].assignedNodes, id, now);
      UnloadKeepsJobs(s2, s2.jobs[id].assignedNodes, id, now);
      if ok then s3 else RequeueOrFail(s3, id)
  }

  lemma {:induction false} UnloadKeepsJobs(s: Cluster, taken: seq<NodeId>, id: JobId, now: real)
    ensures var s1 := UnloadAll(s, taken, id, now);
      && s1.jobs == s.jobs && s1.queue == s.queue && s1.storedJobs == s.storedJobs && s1.storedQueue == s.storedQueue
      && s1.deliveries == s.deliveries
  {
    if taken != [] {
      UnloadKeepsJobs(s, taken[..|taken| - 1], id, now);
    }
  }

  function Beaten(node: NodeState, load: real, running: Option<seq<JobId>>, queueSize: Option<int>, latencyMs: real,
      beta: real): NodeState {
    var jobs := if running.Some? then running.value else node.runningJobs;
    node.(currentLoad := load, runningJobs := jobs, queueSize := if queueSize.Some? then queueSize.value else |jobs|,
          avgLatencyMs := latencyMs, loadEma := beta * load + (1.0 - beta) * node.loadEma)
  }

  /** A heartbeat from a registered node; `running` is the list of jobs it reports, if it reports one. */
  function Heartbeat(s: Cluster, from: NodeId, load: real, running: Option<seq<JobId>>, queueSize: Option<int>,
                     latencyMs: real, beta: real, now: real): Cluster {
    if from !in s.nodes then s
    else TouchNode(s, Beaten(s.nodes[from], load, running, queueSize, latencyMs, beta), now)
  }

  predicate Dead(node: NodeState, now: real) {
    now - node.lastSeen > DEAD_AFTER_SEC
  }

  /** `check_nodes_once`, over the node list taken before the loop. */
  function CheckNodes(s: Cluster, order: seq<NodeId>, now: real): Cluster {
    if order == [] then s
    else
      var most := CheckNodes(s, order[..|order| - 1], now);
      var n := order[|order| - 1];
      if n in most.nodes && Dead(most.nodes[n], now) then RequeueAll(RemoveNode(most, n), most.nodes[n].runningJobs)
          else most
  }

  // ----- Steps and runs --------------------------------------------------------------------------

  datatype Round = Round(leader: bool, order: seq<NodeId>, answer: NodeId -> Outcome)

  datatype Step =
    | Submit(id: JobId, requiredNodes: nat, power: Power, gpuRequired: bool, round: Round)
    | Schedule(round: Round)
    | Result(from: NodeId, id: JobId, ok: bool, beta: real, round: Round)
    | Beat(from: NodeId, load: real, running: Option<seq<JobId>>, queueSize: Option<int>, latencyMs: real, beta: real)
    | Register(node: NodeId, hasGpu: bool)
    | Check(order: seq<NodeId>)
    | Reboot

  function After(s: Cluster, round: Round, now: real): Cluster {
    ScheduleOnce(s, round.leader, round.order, round.answer, now)
  }

  function NewJob(id: JobId, requiredNodes: nat, power: Power, gpuRequired: bool): JobRecord {
    JobRecord(id, requiredNodes, power, gpuRequired, [], Queued, 0)
  }

  function Next(s: Cluster, step: Step, now: real): Cluster {
    match step
    case Submit(id, required, power, gpu, round) => After(EnqueueJob(s, NewJob(id, required, power, gpu)), round, now)
    case Schedule(round) => After(s, round, now)
    case Result(from, id, ok, beta, round) => if id in s.jobs
        then After(RecordResult(s, from, id, ok, beta, now), round, now) else s
    case Beat(from, load, running, queueSize, latencyMs, beta) => Heartbeat(s, from, load, running, queueSize,
        latencyMs, beta, now)
    case Register(id, hasGpu) => RegisterNode(s, id, hasGpu, now)
    case Check(order) => CheckNodes(s, order, now)
    case Reboot => Restart(s)
  }

  /** Requests ask for at least one node, job ids are not reused, and listings of the node table are complete. */
  ghost predicate Allowed(s: Cluster, step: Step) {
    match step
    case Submit(id, required, _, _, round) => required >= 1 && id !in s.jobs && Enumerates(round.order, s.nodes.Keys)
    case Schedule(round) => Enumerates(round.order, s.nodes.Keys)
    case Result(_, _, _, _, round) => Enumerates(round.order, s.nodes.Keys)
    case Check(order) => Enumerates(order, s.nodes.Keys)
    case _ => true
  }

  ghost function Exec(steps: seq<(Step, real)>): Cluster {
    if steps == [] then EMPTY else var (step, now) := steps[|steps| - 1]; Next(Exec(steps[..|steps| - 1]), step, now)
  }

  ghost predicate Run(steps: seq<(Step, real)>) {
    steps != [] ==> Run(steps[..|steps| - 1]) && Allowed(Exec(steps[..|steps| - 1]), steps[|steps| - 1].0)
  }
}

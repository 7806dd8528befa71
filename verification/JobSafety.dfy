/** What every reachable state of the job protocol satisfies. */
module JobSafety {
  import opened Collections
  import opened NodeRanking
  import opened JobProtocol

  /** The memory of the process and its storage agree. */
  ghost predicate Mirrored(s: Cluster) {
    s.storedNodes == s.nodes && s.storedJobs == s.jobs && s.storedQueue == s.queue
  }

  /** The bounds on one job: its attempts, and the deliveries they can have led to. */
  ghost predicate Bounded(s: Cluster, id: JobId)
    requires id in s.jobs
  {
    var job := s.jobs[id];
    && job.id == id && job.requiredNodes >= 1
    && job.attempts <= 3
    && (id in s.queue ==> job.attempts < 3)
    && Deliveries(s, id) <= job.attempts * job.requiredNodes
  }

  /** The status of one job fits its place in the queue, and a job has failed only if its attempts are used up. */
  ghost predicate Placed(s: Cluster, id: JobId)
    requires id in s.jobs
  {
    && (s.jobs[id].status == Queued ==> id in s.queue)
    && (s.jobs[id].status == Running ==> id !in s.queue && s.jobs[id].attempts >= 1)
    && (s.jobs[id].status == Failed ==> s.jobs[id].attempts == 3)
  }

  ghost predicate Keyed(s: Cluster) {
    forall n :: n in s.nodes ==> s.nodes[n].nodeId == n
  }

  /** Everything except the placement of the jobs in `open`, which a handler is working on. */
  ghost predicate InvBut(s: Cluster, open: set<JobId>) {
    && Mirrored(s) && Keyed(s)
    && Distinct(s.queue)
    && (forall id :: id in s.queue ==> id in s.jobs)
    && (forall id :: id in s.deliveries ==> id in s.jobs)
    && (forall id {:trigger Bounded(s, id)} :: id in s.jobs ==> Bounded(s, id))
    && (forall id {:trigger Placed(s, id)} :: id in s.jobs && id !in open ==> Placed(s, id))
  }

  ghost predicate Inv(s: Cluster) {
    InvBut(s, {})
  }

  // ----- One lemma per transition ----------------------------------------------------------------

  /** Changing the record of one job, within its bounds. */
  lemma SaveKeeps(s: Cluster, open: set<JobId>, job: JobRecord)
    requires InvBut(s, open) && job.id in s.jobs
    requires job.requiredNodes == s.jobs[job.id].requiredNodes
        && s.jobs[job.id].attempts <= job.attempts <= 3
    requires job.id in s.queue ==> job.attempts < 3
    ensures InvBut(SaveJob(s, job), open + {job.id})
    ensures Placed(SaveJob(s, job), job.id) ==> InvBut(SaveJob(s, job), open - {job.id})
  {
    var s' := SaveJob(s, job);
    forall id | id in s'.jobs
      ensures Bounded(s', id) && (id != job.id && id !in open ==> Placed(s', id))
    {
      assert Bounded(s, id) && (id !in open ==> Placed(s, id));
      if id == job.id {
        MoreAttempts(s.jobs[id].attempts, job.attempts, job.requiredNodes);
      }
    }
  }

  lemma MoreAttempts(a: nat, b: nat, k: nat)
    requires a <= b
    ensures a * k <= b * k
  {
  }

  lemma EnsureQueuedKeeps(s: Cluster, open: set<JobId>, id: JobId)
    requires InvBut(s, open) && id in s.jobs && s.jobs[id].status == Queued && s.jobs[id].attempts < 3
    ensures InvBut(EnsureJobQueued(s, id), open - {id})
  {
    var s' := EnsureJobQueued(s, id);
    forall j | j in s'.jobs
      ensures Bounded(s', j) && (j !in open - {id} ==> Placed(s', j))
    {
      assert Bounded(s, j) && (j !in open ==> Placed(s, j));
    }
  }

  lemma RequeueOrFailKeeps(s: Cluster, open: set<JobId>, id: JobId)
    requires InvBut(s, open) && id in s.jobs
    ensures InvBut(RequeueOrFail(s, id), open - {id})
    ensures RequeueOrFail(s, id).jobs.Keys == s.jobs.Keys
  {
    assert Bounded(s, id);
    var job := s.jobs[id];
    if job.attempts >= MAX_JOB_RETRIES {
      SaveKeeps(s, open, job.(status := Failed));
    } else {
      SaveKeeps(s, open, job.(status := Queued));
      EnsureQueuedKeeps(SaveJob(s, job.(status := Queued)), open + {id}, id);
      assert open + {id} - {id} == open - {id};
    }
  }

  lemma {:induction false} RequeueAllKeeps(s: Cluster, ids: seq<JobId>)
    requires Inv(s)
    ensures Inv(RequeueAll(s, ids)) && RequeueAll(s, ids).nodes == s.nodes
        && RequeueAll(s, ids).jobs.Keys == s.jobs.Keys
  {
    if ids != [] {
      RequeueAllKeeps(s, ids[..|ids| - 1]);
      var most := RequeueAll(s, ids[..|ids| - 1]);
      if ids[|ids| - 1] in most.jobs {
        RequeueOrFailKeeps(most, {}, ids[|ids| - 1]);
        assert {} - {ids[|ids| - 1]} == {};
      }
    }
  }

  /** A step that leaves jobs, queue and deliveries alone. */
  lemma NodeChangeKeeps(s: Cluster, s': Cluster, open: set<JobId>)
    requires InvBut(s, open) && Mirrored(s') && Keyed(s')
    requires s'.jobs == s.jobs && s'.queue == s.queue && s'.deliveries == s.deliveries
    ensures InvBut(s', open)
  {
    forall id | id in s'.jobs
      ensures Bounded(s', id) && (id !in open ==> Placed(s', id))
    {
      assert Bounded(s, id) && (id !in open ==> Placed(s, id));
    }
  }

  lemma DropHeadKeeps(s: Cluster)
    requires Inv(s) && s.queue != []
    ensures InvBut(DropHead(s), {s.queue[0]}) && s.queue[0] !in DropHead(s).queue
    ensures s.queue[0] in s.jobs && s.jobs[s.queue[0]].attempts < 3
  {
    var s' := DropHead(s);
    assert Bounded(s, s.queue[0]);
    assert forall id :: id in s.queue <==> id == s.queue[0] || id in s'.queue;
    forall id | id in s'.jobs
      ensures Bounded(s', id) && (id != s.queue[0] ==> Placed(s', id))
    {
      assert Bounded(s, id) && Placed(s, id);
    }
  }

  lemma EnqueueKeeps(s: Cluster, id: JobId, required: nat, power: Power, gpu: bool)
    requires Inv(s) && id !in s.jobs && required >= 1
    ensures Inv(EnqueueJob(s, NewJob(id, required, power, gpu)))
  {
    var s' := EnqueueJob(s, NewJob(id, required, power, gpu));
    forall j | j in s'.jobs
      ensures Bounded(s', j) && Placed(s', j)
    {
      if j != id {
        assert Bounded(s, j) && Placed(s, j);
      }
    }
  }

  // ----- Dispatching -----------------------------------------------------------------------------

  lemma {:induction false} DispatchAllCounts(s: Cluster, targets: seq<NodeId>, id: JobId, answer: NodeId -> Outcome,
      now: real)
    requires Mirrored(s) && Keyed(s) && id in s.jobs
    ensures var (s1, taken) := DispatchAll(s, targets, id, answer, now);
      && Mirrored(s1) && Keyed(s1) && s1.nodes.Keys == s.nodes.Keys
      && s1.jobs == s.jobs && s1.queue == s.queue
      && Deliveries(s1, id) <= Deliveries(s, id) + |targets|
      && (forall j :: j != id ==> Deliveries(s1, j) == Deliveries(s, j))
      && (forall j :: j in s1.deliveries ==> j in s.deliveries || j == id)
  {
    if targets != [] {
      DispatchAllCounts(s, targets[..|targets| - 1], id, answer, now);
    }
  }

  /** One more attempt pays for the deliveries made in it. */
  lemma AttemptPays(delivered: nat, before: nat, targets: nat, attempts: nat, required: nat)
    requires delivered <= before + targets && before <= attempts * required && targets <= required
    ensures delivered <= (attempts + 1) * required
  {
  }

  lemma DispatchKeeps(s: Cluster, targets: seq<NodeId>, id: JobId, answer: NodeId -> Outcome, now: real)
    requires InvBut(s, {id}) && id in s.jobs && id !in s.queue
    requires s.jobs[id].attempts < 3 && |targets| <= s.jobs[id].requiredNodes
    ensures InvBut(DispatchAll(MarkRunning(s, id), targets, id, answer, now).0, {id})
  {
    var s0 := MarkRunning(s, id);
    DispatchAllCounts(s0, targets, id, answer, now);
    var s1 := DispatchAll(s0, targets, id, answer, now).0;
    assert Bounded(s, id);
    AttemptPays(Deliveries(s1, id), Deliveries(s, id), |targets|, s.jobs[id].attempts, s.jobs[id].requiredNodes);
    forall j | j in s1.jobs
      ensures Bounded(s1, j) && (j != id ==> Placed(s1, j))
    {
      assert Bounded(s, j) && (j != id ==> Placed(s, j));
    }
  }

  lemma StartKeeps(s: Cluster, id: JobId, order: seq<NodeId>, answer: NodeId -> Outcome, now: real)
    requires InvBut(s, {id}) && id in s.jobs && id !in s.queue && s.jobs[id].attempts < 3
    ensures Inv(Start(s, id, order, answer, now))
  {
    assert {id} - {id} == {};
    var targets := Candidates(s, id, order);
    if |targets| < s.jobs[id].requiredNodes {
      RequeueOrFailKeeps(s, {id}, id);
    } else {
      DispatchKeeps(s, Ids(targets), id, answer, now);
      DispatchKeepsJobs(MarkRunning(s, id), Ids(targets), id, answer, now);
      var (s1, taken) := DispatchAll(MarkRunning(s, id), Ids(targets), id, answer, now);
      if |taken| >= s1.jobs[id].requiredNodes {
        assert Bounded(s1, id);
        SaveKeeps(s1, {id}, s1.jobs[id].(assignedNodes := taken));
      } else {
        RequeueOrFailKeeps(s1, {id}, id);
      }
    }
  }

  lemma ScheduleKeeps(s: Cluster, leader: bool, order: seq<NodeId>, answer: NodeId -> Outcome, now: real)
    requires Inv(s)
    ensures Inv(ScheduleOnce(s, leader, order, answer, now))
  {
    if leader && s.queue != [] {
      DropHeadKeeps(s);
      var id, s1 := s.queue[0], DropHead(s);
      if s1.jobs[id].status in {Completed, Failed} {
        assert Placed(s, id) && Placed(s1, id);
      } else {
        StartKeeps(s1, id, order, answer, now);
      }
    }
  }

  // ----- Results and node death ------------------------------------------------------------------

  lemma {:induction false} UnloadKeeps(s: Cluster, open: set<JobId>, taken: seq<NodeId>, id: JobId, now: real)
    requires InvBut(s, open)
    ensures InvBut(UnloadAll(s, taken, id, now), open)
  {
    if taken != [] {
      UnloadKeeps(s, open, taken[..|taken| - 1], id, now);
      var most := UnloadAll(s, taken[..|taken| - 1], id, now);
      NodeChangeKeeps(most, UnloadAll(s, taken, id, now), open);
    }
  }

  lemma ResultKeeps(s: Cluster, from: NodeId, id: JobId, ok: bool, beta: real, now: real)
    requires Inv(s) && id in s.jobs
    ensures Inv(RecordResult(s, from, id, ok, beta, now))
  {
    var open := if ok then {} else {id};
    assert {} + {id} == {id} && {} - {id} == {} && {id} - {id} == {};
    assert Bounded(s, id);
    var s1 := MarkFinished(s, id, ok);
    SaveKeeps(s, {}, s.jobs[id].(status := if ok then Completed else Failed));
    assert InvBut(s1, open);
    var s2 := if from in s1.nodes then TouchNode(s1, Credited(s1.nodes[from], ok, beta), now) else s1;
    NodeChangeKeeps(s1, s2, open);
    UnloadKeeps(s2, open, s2.jobs[id].assignedNodes, id, now);
    UnloadKeepsJobs(s2, s2.jobs[id].assignedNodes, id, now);
    if !ok {
      RequeueOrFailKeeps(UnloadAll(s2, s2.jobs[id].assignedNodes, id, now), open, id);
    }
  }

  lemma {:induction false} CheckKeeps(s: Cluster, order: seq<NodeId>, now: real)
    requires Inv(s)
    ensures Inv(CheckNodes(s, order, now))
  {
    if order != [] {
      CheckKeeps(s, order[..|order| - 1], now);
      var most := CheckNodes(s, order[..|order| - 1], now);
      var n := order[|order| - 1];
      if n in most.nodes && Dead(most.nodes[n], now) {
        NodeChangeKeeps(most, RemoveNode(most, n), {});
        RequeueAllKeeps(RemoveNode(most, n), most.nodes[n].runningJobs);
      }
    }
  }

  // ----- Runs ------------------------------------------------------------------------------------

  /** Every allowed step keeps the invariant. */
  lemma StepKeepsInv(s: Cluster, step: Step, now: real)
    requires Inv(s) && Allowed(s, step)
    ensures Inv(Next(s, step, now))
  {
    match step
    case Submit(id, required, power, gpu, round) =>
      EnqueueKeeps(s, id, required, power, gpu);
      ScheduleKeeps(EnqueueJob(s, NewJob(id, required, power, gpu)), round.leader, round.order, round.answer, now);
    case Schedule(round) =>
      ScheduleKeeps(s, round.leader, round.order, round.answer, now);
    case Result(from, id, ok, beta, round) =>
      if id in s.jobs {
        ResultKeeps(s, from, id, ok, beta, now);
        ScheduleKeeps(RecordResult(s, from, id, ok, beta, now), round.leader, round.order, round.answer, now);
      }
    case Beat(from, load, running, queueSize, latencyMs, beta) =>
      NodeChangeKeeps(s, Next(s, step, now), {});
    case Register(id, hasGpu) =>
      NodeChangeKeeps(s, Next(s, step, now), {});
    case Check(order) =>
      CheckKeeps(s, order, now);
    case Reboot =>
      RestartRestores(s);
  }

  /** A restart at a step boundary restores exactly the state that was lost. */
  lemma RestartRestores(s: Cluster)
    requires Inv(s)
    ensures Restart(s) == s
  {
  }

  lemma {:induction false} ReachableInv(steps: seq<(Step, real)>)
    requires Run(steps)
    ensures Inv(Exec(steps))
  {
    if steps != [] {
      ReachableInv(steps[..|steps| - 1]);
      StepKeepsInv(Exec(steps[..|steps| - 1]), steps[|steps| - 1].0, steps[|steps| - 1].1);
    }
  }

  /**
   The protocol's promise in every reachable state: the queue is duplicate-free and inside the
   job table, a queued job is in it and a running one is not, whatever is in it has attempts
   left, a job has failed only after three attempts, and no job is delivered more than three times
   per node it asked for.
   */
  lemma ReachableStates(steps: seq<(Step, real)>, id: JobId)
    requires Run(steps) && id in Exec(steps).jobs
    ensures var s := Exec(steps);
      && Distinct(s.queue) && (forall j :: j in s.queue ==> j in s.jobs)
      && (s.jobs[id].status == Queued ==> id in s.queue)
      && (s.jobs[id].status == Running ==> id !in s.queue && s.jobs[id].attempts >= 1)
      && (s.jobs[id].status == Failed ==> s.jobs[id].attempts == 3)
      && (id in s.queue ==> s.jobs[id].attempts < 3)
      && s.jobs[id].attempts <= 3
      && Deliveries(s, id) <= 3 * s.jobs[id].requiredNodes
      && Restart(s) == s
  {
    ReachableInv(steps);
    var s := Exec(steps);
    assert Bounded(s, id) && Placed(s, id);
    MoreAttempts(s.jobs[id].attempts, 3, s.jobs[id].requiredNodes);
    RestartRestores(s);
  }
}

/**
 The control plane's handlers in the form they have in the source: an object whose tables are
 changed in place, and loops over nodes and jobs. The object is driven by the endpoints; between
 any two of them it keeps what is proved of the protocol's runs.
 */
module ControlPlane {
  import opened Collections
  import opened Options
  import opened NodeRanking
  import P = JobProtocol
  import JobSafety
  import JobRecovery
  import JobAttempts
  import JobEffects
  import JobOutcomes
  import JobRuns

  /** Queued jobs are in the queue, running ones are not, and failed ones have had their three attempts. */
  ghost predicate WellPlaced(s: P.Cluster, id: JobId)
    requires id in s.jobs
  {
    && (s.jobs[id].status == Queued ==> id in s.queue)
    && (s.jobs[id].status == Running ==> id !in s.queue)
    && (s.jobs[id].status == Failed ==> s.jobs[id].attempts == 3)
  }

  /** At most three attempts, and three deliveries for each node asked for. */
  ghost predicate WithinBounds(s: P.Cluster, id: JobId)
    requires id in s.jobs
  {
    s.jobs[id].attempts <= 3 && P.Deliveries(s, id) <= 3 * s.jobs[id].requiredNodes
  }

  /** What holds after any run. */
  lemma StateFacts(steps: seq<(P.Step, real)>)
    requires P.Run(steps)
    ensures var s := P.Exec(steps);
      && Distinct(s.queue) && (forall id :: id in s.queue ==> id in s.jobs && s.jobs[id].attempts < 3)
      && (forall id :: id in s.jobs ==> WellPlaced(s, id) && WithinBounds(s, id))
      && JobSafety.Mirrored(s)
  {
    var s := P.Exec(steps);
    JobSafety.ReachableInv(steps);
    forall id | id in s.jobs
      ensures WellPlaced(s, id) && WithinBounds(s, id)
    {
      JobSafety.ReachableStates(steps, id);
    }
    forall id | id in s.queue
      ensures id in s.jobs && s.jobs[id].attempts < 3
    {
      assert id in s.jobs;
      JobSafety.ReachableStates(steps, id);
    }
  }

  /** After a run of harmless heartbeats no running job is unlisted. */
  lemma ListedFacts(steps: seq<(P.Step, real)>)
    requires P.Run(steps) && JobRecovery.HarmlessRun(steps)
    ensures forall id :: id in P.Exec(steps).jobs && P.Exec(steps).jobs[id].status == Running ==>
      exists n :: n in P.Exec(steps).nodes && id in P.Exec(steps).nodes[n].runningJobs
  {
    JobRecovery.NeverStrandedIff(steps);
    forall id | id in P.Exec(steps).jobs && P.Exec(steps).jobs[id].status == Running
      ensures exists n :: n in P.Exec(steps).nodes && id in P.Exec(steps).nodes[n].runningJobs
    {
      assert JobRecovery.Tracked(P.Exec(steps), id);
    }
  }

  /** What becomes of the jobs in one more step. */
  ghost predicate Proceeds(s: P.Cluster, s': P.Cluster, step: P.Step, now: real, id: JobId)
    requires id in s.jobs
  {
    && id in s'.jobs && s'.jobs[id].attempts >= s.jobs[id].attempts
    && (s'.jobs[id].status == Completed <==>
          || (step.Result? && step.id == id && step.ok)
          || (s.jobs[id].status == Completed && !JobOutcomes.Reopens(s, step, now, id)))
  }

  lemma StepFacts(steps: seq<(P.Step, real)>, step: P.Step, now: real)
    requires P.Run(steps) && P.Allowed(P.Exec(steps), step)
    ensures P.Run(steps + [(step, now)]) && P.Exec(steps + [(step, now)]) == P.Next(P.Exec(steps), step, now)
    ensures forall id :: id in P.Exec(steps).jobs ==>
        Proceeds(P.Exec(steps), P.Next(P.Exec(steps), step, now), step, now, id)
  {
    JobRuns.ExecSnoc(steps, step, now);
    JobSafety.ReachableInv(steps);
    JobRecovery.StepLater(P.Exec(steps), step, now);
    forall id | id in P.Exec(steps).jobs
      ensures Proceeds(P.Exec(steps), P.Next(P.Exec(steps), step, now), step, now, id)
    {
      JobOutcomes.CompletedIff(P.Exec(steps), step, now, id);
    }
  }

  lemma AttemptFacts(steps: seq<(P.Step, real)>, step: P.Step, now: real)
    requires P.Run(steps) && P.Allowed(P.Exec(steps), step)
    ensures var r, s' := JobAttempts.RoundStart(P.Exec(steps), step, now), P.Next(P.Exec(steps), step, now);
      forall id :: id in r.jobs && id in s'.jobs && s'.jobs[id].attempts != r.jobs[id].attempts ==>
        exists chosen :: JobAttempts.Attempted(r, s', id, chosen)
  {
    var r, s' := JobAttempts.RoundStart(P.Exec(steps), step, now), P.Next(P.Exec(steps), step, now);
    JobSafety.ReachableInv(steps);
    forall id | id in r.jobs && id in s'.jobs && s'.jobs[id].attempts != r.jobs[id].attempts
      ensures exists chosen :: JobAttempts.Attempted(r, s', id, chosen)
    {
      JobAttempts.StepAttempts(P.Exec(steps), step, now, id);
    }
  }

  class ClusterMemory {
    var nodes: map<NodeId, NodeState>
    var jobs: map<JobId, JobRecord>
    var queue: seq<JobId>
    var storedNodes: map<NodeId, NodeState>
    var storedJobs: map<JobId, JobRecord>
    var storedQueue: seq<JobId>
    ghost var deliveries: map<JobId, nat>

    ghost function View(): P.Cluster
      reads this
    {
      P.Cluster(nodes, jobs, queue, storedNodes, storedJobs, storedQueue, deliveries)
    }

    /** Opens the tables left by earlier processes. */
    constructor (dbNodes: map<NodeId, NodeState>, dbJobs: map<JobId, JobRecord>, dbQueue: seq<JobId>,
        ghost was: P.Cluster)
      requires dbNodes == was.storedNodes && dbJobs == was.storedJobs && dbQueue == was.storedQueue
      ensures View() == P.Restart(was)
    {
      nodes, jobs, queue := dbNodes, dbJobs, dbQueue;
      storedNodes, storedJobs, storedQueue := dbNodes, dbJobs, dbQueue;
      deliveries := was.deliveries;
    }

    method SaveJob(job: JobRecord)
      modifies this
      ensures View() == P.SaveJob(old(View()), job)
    {
      jobs := jobs[job.id := job];
      storedJobs := storedJobs[job.id := job];
    }

    method PersistQueue()
      modifies this
      ensures View() == P.PersistQueue(old(View()))
    {
      storedQueue := queue;
    }

    method EnsureJobQueued(id: JobId)
      modifies this
      ensures View() == P.EnsureJobQueued(old(View()), id)
    {
      if id !in queue {
        queue := queue + [id];
      }
      PersistQueue();
    }

    method EnqueueJob(job: JobRecord)
      modifies this
      ensures View() == P.EnqueueJob(old(View()), job)
    {
      jobs := jobs[job.id := job];
      if job.id !in queue {
        queue := queue + [job.id];
      }
      SaveJob(job);
      PersistQueue();
    }

    method PopNextJob() returns (popped: Option<JobId>)
      modifies this
      ensures old(queue) == [] ==> popped == None && View() == old(View())
      ensures old(queue) != [] ==> View() == P.DropHead(old(View()))
      ensures old(queue) != [] ==> popped == if old(queue)[0] in jobs then Some(old(queue)[0]) else None
    {
      if queue == [] {
        return None;
      }
      var id := queue[0];
      queue := queue[1..];
      PersistQueue();
      popped := if id in jobs then Some(id) else None;
    }

    /** `add_node` after the fields of a node in the table were changed. */
    method TouchNode(node: NodeState, now: real)
      modifies this
      ensures View() == P.TouchNode(old(View()), node, now)
    {
      nodes := nodes[node.nodeId := node.(healthy := true, lastSeen := now)];
      storedNodes := storedNodes[node.nodeId := nodes[node.nodeId]];
    }

    method RegisterNode(id: NodeId, hasGpu: bool, now: real)
      modifies this
      ensures View() == P.RegisterNode(old(View()), id, hasGpu, now)
    {
      if id in nodes {
        TouchNode(nodes[id].(nodeId := id, hasGpu := hasGpu), now);
      } else {
        TouchNode(NodeState(id, hasGpu, 0.0, true, [], now, 0.0, 0, 0, 0, 0.0), now);
      }
    }

    method RemoveNode(id: NodeId)
      modifies this
      ensures View() == P.RemoveNode(old(View()), id)
    {
      nodes := nodes - {id};
      storedNodes := storedNodes - {id};
    }

    // ----- storage/job_queue.py -------------------------------------------------------------------

    method MarkRunning(id: JobId)
      requires id in jobs
      modifies this
      ensures View() == P.MarkRunning(old(View()), id)
    {
      SaveJob(jobs[id].(status := Running, attempts := jobs[id].attempts + 1));
    }

    method MarkFinished(id: JobId, ok: bool)
      requires id in jobs
      modifies this
      ensures View() == P.MarkFinished(old(View()), id, ok)
    {
      SaveJob(jobs[id].(status := if ok then Completed else Failed));
    }

    method RequeueOrFail(id: JobId)
      requires id in jobs
      modifies this
      ensures View() == P.RequeueOrFail(old(View()), id)
    {
      if jobs[id].attempts >= P.MAX_JOB_RETRIES {
        SaveJob(jobs[id].(status := Failed));
        return;
      }
      SaveJob(jobs[id].(status := Queued));
      EnsureJobQueued(id);
    }

    // ----- control_plane/nodes.py and control_plane/app.py ----------------------------------------

    method DispatchJob(n: NodeId, id: JobId, answer: P.Outcome, now: real)
      requires n in nodes
      modifies this
      ensures View() == P.Dispatch(old(View()), n, id, answer, now)
    {
      if answer.Refused? {
        return;
      }
      TouchNode(P.Loaded(nodes[n], id, answer.latencyMs), now);
      deliveries := deliveries[id := P.Deliveries(View(), id) + 1];
    }

    method DispatchAll(targets: seq<NodeId>, id: JobId, answer: NodeId -> P.Outcome, now: real)
        returns (taken: seq<NodeId>)
      modifies this
      ensures (View(), taken) == P.DispatchAll(old(View()), targets, id, answer, now)
    {
      taken := [];
      for i := 0 to |targets|
        invariant (View(), taken) == P.DispatchAll(old(View()), targets[..i], id, answer, now)
      {
        assert targets[..i + 1][..i] == targets[..i];
        var n := targets[i];
        if n in nodes {
          DispatchJob(n, id, answer(n), now);
          if answer(n).Accepted? {
            taken := taken + [n];
          }
        }
      }
      assert targets[..|targets|] == targets;
    }

    method ScheduleOnce(leader: bool, order: seq<NodeId>, answer: NodeId -> P.Outcome, now: real)
      modifies this
      ensures View() == P.ScheduleOnce(old(View()), leader, order, answer, now)
    {
      if !leader {
        return;
      }
      var popped := PopNextJob();
      if popped == None {
        return;
      }
      var id := popped.value;
      if jobs[id].status in {Completed, Failed} {
        return;
      }
      if jobs[id].attempts >= P.MAX_JOB_RETRIES {
        SaveJob(jobs[id].(status := Failed));
        return;
      }
      Start(id, order, answer, now);
    }

    method Start(id: JobId, order: seq<NodeId>, answer: NodeId -> P.Outcome, now: real)
      requires id in jobs
      modifies this
      ensures View() == P.Start(old(View()), id, order, answer, now)
    {
      var targets := SelectBestNodes(jobs[id], P.Listed(nodes, order));
      if |targets| < jobs[id].requiredNodes {
        RequeueOrFail(id);
        return;
      }
      MarkRunning(id);
      P.DispatchKeepsJobs(View(), P.Ids(targets), id, answer, now);
      var taken := DispatchAll(P.Ids(targets), id, answer, now);
      if |taken| >= jobs[id].requiredNodes {
        SaveJob(jobs[id].(assignedNodes := taken));
        PersistQueue();
      } else {
        RequeueOrFail(id);
      }
    }

    method UnloadAll(taken: seq<NodeId>, id: JobId, now: real)
      modifies this
      ensures View() == P.UnloadAll(old(View()), taken, id, now)
    {
      for i := 0 to |taken|
        invariant View() == P.UnloadAll(old(View()), taken[..i], id, now)
      {
        assert taken[..i + 1][..i] == taken[..i];
        var n := taken[i];
        if n in nodes {
          TouchNode(P.Unloaded(nodes[n], id), now);
        }
      }
      assert taken[..|taken|] == taken;
    }

    method RecordResult(from: NodeId, id: JobId, ok: bool, beta: real, now: real) returns (found: bool)
      modifies this
      ensures found <==> id in old(jobs)
      ensures View() == P.RecordResult(old(View()), from, id, ok, beta, now)
    {
      if id !in jobs {
        return false;
      }
      MarkFinished(id, ok);
      if from in nodes {
        TouchNode(P.Credited(nodes[from], ok, beta), now);
      }
      var finished := jobs[id];
      P.UnloadKeepsJobs(View(), finished.assignedNodes, id, now);
      UnloadAll(finished.assignedNodes, id, now);
      if !ok {
        RequeueOrFail(id);
      }
      return true;
    }

    method Heartbeat(from: NodeId, load: real, running: Option<seq<JobId>>, queueSize: Option<int>, latencyMs: real,
        beta: real, now: real)
        returns (known: bool)
      modifies this
      ensures known <==> from in old(nodes)
      ensures View() == P.Heartbeat(old(View()), from, load, running, queueSize, latencyMs, beta, now)
    {
      if from !in nodes {
        return false;
      }
      TouchNode(P.Beaten(nodes[from], load, running, queueSize, latencyMs, beta), now);
      return true;
    }

    // ----- control_plane/health.py -----------------------------------------------------------------

    method RequeueJobs(ids: seq<JobId>)
      modifies this
      ensures View() == P.RequeueAll(old(View()), ids)
    {
      for i := 0 to |ids|
        invariant View() == P.RequeueAll(old(View()), ids[..i])
      {
        assert ids[..i + 1][..i] == ids[..i];
        if ids[i] in jobs {
          RequeueOrFail(ids[i]);
        }
      }
      assert ids[..|ids|] == ids;
    }

    method CheckNodesOnce(order: seq<NodeId>, now: real)
      modifies this
      ensures View() == P.CheckNodes(old(View()), order, now)
    {
      for i := 0 to |order|
        invariant View() == P.CheckNodes(old(View()), order[..i], now)
      {
        assert order[..i + 1][..i] == order[..i];
        var n := order[i];
        if n in nodes && P.Dead(nodes[n], now) {
          var lost := nodes[n].runningJobs;
          RemoveNode(n);
          RequeueJobs(lost);
        }
      }
      assert order[..|order|] == order;
    }

    /** What each endpoint does to the tables. */
    method HandleStep(step: P.Step, now: real)
      requires !step.Reboot?
      modifies this
      ensures View() == P.Next(old(View()), step, now)
    {
      match step
      case Submit(id, required, power, gpu, round) =>
        EnqueueJob(P.NewJob(id, required, power, gpu));
        ScheduleOnce(round.leader, round.order, round.answer, now);
      case Schedule(round) =>
        ScheduleOnce(round.leader, round.order, round.answer, now);
      case Result(from, id, ok, beta, round) =>
        var found := RecordResult(from, id, ok, beta, now);
        if found {
          ScheduleOnce(round.leader, round.order, round.answer, now);
        }
      case Beat(from, load, running, queueSize, latencyMs, beta) =>
        var _ := Heartbeat(from, load, running, queueSize, latencyMs, beta, now);
      case Register(id, hasGpu) =>
        RegisterNode(id, hasGpu, now);
      case Check(order) =>
        CheckNodesOnce(order, now);
    }
  }

  /** The control plane process: its memory, and the steps taken so far, those of earlier processes included. */
  class Process {
    const memory: ClusterMemory
    ghost var steps: seq<(P.Step, real)>

    /** The tables are those that the steps lead to. */
    ghost predicate Valid()
      reads this, memory
    {
      P.Run(steps) && memory.View() == P.Exec(steps)
    }

    /** A process that starts after the steps `before` finds everything as it was. */
    constructor (dbNodes: map<NodeId, NodeState>, dbJobs: map<JobId, JobRecord>, dbQueue: seq<JobId>,
                 ghost before: seq<(P.Step, real)>, ghost now: real)
      requires P.Run(before) && dbQueue == P.Exec(before).storedQueue
      requires dbNodes == P.Exec(before).storedNodes && dbJobs == P.Exec(before).storedJobs
      ensures Valid() && fresh(memory) && steps == before + [(P.Reboot, now)] && memory.View() == P.Exec(before)
    {
      memory := new ClusterMemory(dbNodes, dbJobs, dbQueue, P.Exec(before));
      steps := before + [(P.Reboot, now)];
      JobSafety.ReachableInv(before);
      JobSafety.RestartRestores(P.Exec(before));
      JobRuns.ExecSnoc(before, P.Reboot, now);
    }

    /**
     The endpoints, each one atomic step. Afterwards the queue is duplicate-free, inside the job
     table and holds jobs with attempts left; queued jobs are in it and running ones are not;
     memory and storage agree; a job has changed to or from completed exactly as `CompletedIff`
     says; if no heartbeat so far has dropped a running job, every running job is listed on a
     registered node; an attempt at a job has gone to the best nodes there were; a job has failed
     only after three attempts, and a failure report before the third queues it again.
     */
    method Handle(step: P.Step, now: real)
      requires Valid() && !step.Reboot? && P.Allowed(memory.View(), step)
      modifies this, memory
      ensures Valid() && steps == old(steps) + [(step, now)]
      ensures Distinct(memory.queue)
      ensures forall id :: id in memory.queue ==> id in memory.jobs && memory.jobs[id].attempts < 3
      ensures forall id :: id in memory.jobs ==> WellPlaced(memory.View(), id) && WithinBounds(memory.View(), id)
      ensures JobSafety.Mirrored(memory.View())
      ensures forall id :: id in old(memory.jobs) ==> Proceeds(old(memory.View()), memory.View(), step, now, id)
      ensures JobRecovery.HarmlessRun(steps) ==>
        forall id :: id in memory.jobs && memory.jobs[id].status == Running ==>
          exists n :: n in memory.nodes && id in memory.nodes[n].runningJobs
      ensures step.Result? && !step.ok && !step.round.leader && step.id in old(memory.jobs) ==>
        && step.id in memory.jobs
        && (memory.jobs[step.id].status == Queued && step.id in memory.queue <==>
            old(memory.jobs)[step.id].attempts < 3)
      ensures var r := JobAttempts.RoundStart(old(memory.View()), step, now);
        forall id :: id in r.jobs && id in memory.jobs && memory.jobs[id].attempts != r.jobs[id].attempts ==>
          exists chosen :: JobAttempts.Attempted(r, memory.View(), id, chosen)
    {
      StepFacts(steps, step, now);
      AttemptFacts(steps, step, now);
      if step.Result? && !step.ok && !step.round.leader && step.id in memory.jobs {
        JobSafety.ReachableInv(steps);
        JobEffects.FailedStepRetriesIff(memory.View(), step, now);
      }
      StateFacts(steps + [(step, now)]);
      if JobRecovery.HarmlessRun(steps + [(step, now)]) {
        ListedFacts(steps + [(step, now)]);
      }
      steps := steps + [(step, now)];
      memory.HandleStep(step, now);
    }
  }
}

/** Exactly when a completed job is reopened, and exactly when a result undoes what a dispatch did to a node. */
module JobOutcomes {
  import opened NodeRanking
  import opened JobProtocol
  import opened JobSafety
  import opened JobRecovery

  ghost predicate Done(s: Cluster, id: JobId) {
    id in s.jobs && s.jobs[id].status == Completed
  }

  lemma RequeueTouchesOne(s: Cluster, id: JobId, j: JobId)
    requires id in s.jobs && s.jobs[id].id == id && j in s.jobs
    ensures j in RequeueOrFail(s, id).jobs
    ensures j != id ==> RequeueOrFail(s, id).jobs[j] == s.jobs[j]
    ensures !Done(RequeueOrFail(s, id), id)
  {
  }

  lemma {:induction false} RequeueAllTouchesListed(s: Cluster, ids: seq<JobId>, j: JobId)
    requires Inv(s) && j in s.jobs && j !in ids
    ensures j in RequeueAll(s, ids).jobs && RequeueAll(s, ids).jobs[j] == s.jobs[j]
  {
    if ids != [] {
      var most, id := ids[..|ids| - 1], ids[|ids| - 1];
      assert ids == most + [id];
      RequeueAllTouchesListed(s, most, j);
      RequeueAllKeeps(s, most);
      var m := RequeueAll(s, most);
      if id in m.jobs {
        assert Bounded(m, id);
        RequeueTouchesOne(m, id, j);
      }
    }
  }

  /** A health check changes only jobs that a dead node lists. */
  lemma {:induction false} CheckTouchesListed(s: Cluster, order: seq<NodeId>, now: real, j: JobId)
    requires Inv(s) && j in s.jobs && !ListedOnDead(s, order, now, j)
    ensures j in CheckNodes(s, order, now).jobs && CheckNodes(s, order, now).jobs[j] == s.jobs[j]
  {
    if order != [] {
      var rest, n := order[..|order| - 1], order[|order| - 1];
      assert order == rest + [n];
      assert forall m :: m in rest ==> m in order;
      CheckTouchesListed(s, rest, now, j);
      CheckKeeps(s, rest, now);
      CheckRecovers(s, rest, now);
      var most := CheckNodes(s, rest, now);
      if n in most.nodes && Dead(most.nodes[n], now) {
        assert most.nodes[n] == s.nodes[n] && n in order;
        NodeChangeKeeps(most, RemoveNode(most, n), {});
        RequeueAllTouchesListed(RemoveNode(most, n), most.nodes[n].runningJobs, j);
      }
    }
  }

  /** Starting a job completes neither it nor any other, and reopens none. */
  lemma StartCompletesNothing(s: Cluster, id: JobId, order: seq<NodeId>, answer: NodeId -> Outcome, now: real, j: JobId)
    requires id in s.jobs && s.jobs[id].id == id && j in s.jobs && !Done(s, id)
    ensures j in Start(s, id, order, answer, now).jobs
    ensures Done(Start(s, id, order, answer, now), j) <==> Done(s, j)
  {
    var targets := Candidates(s, id, order);
    if |targets| < s.jobs[id].requiredNodes {
      RequeueTouchesOne(s, id, j);
    } else {
      var s0 := MarkRunning(s, id);
      DispatchKeepsJobs(s0, Ids(targets), id, answer, now);
      var (s1, taken) := DispatchAll(s0, Ids(targets), id, answer, now);
      if |taken| < s1.jobs[id].requiredNodes {
        RequeueTouchesOne(s1, id, j);
      }
    }
  }

  lemma ScheduleCompletesNothing(s: Cluster, leader: bool, order: seq<NodeId>, answer: NodeId -> Outcome, now: real,
      j: JobId)
    requires Inv(s) && j in s.jobs
    ensures j in ScheduleOnce(s, leader, order, answer, now).jobs
    ensures Done(ScheduleOnce(s, leader, order, answer, now), j) <==> Done(s, j)
  {
    if leader && s.queue != [] {
      DropHeadKeeps(s);
      var id, s1 := s.queue[0], DropHead(s);
      assert Bounded(s1, id);
      if s1.jobs[id].status !in {Completed, Failed} {
        StartCompletesNothing(s1, id, order, answer, now, j);
      }
    }
  }

  /** A result decides the job it is for, and no other. */
  lemma ResultDecidesOne(s: Cluster, from: NodeId, id: JobId, ok: bool, beta: real, now: real, j: JobId)
    requires Inv(s) && id in s.jobs && j in s.jobs
    ensures j in RecordResult(s, from, id, ok, beta, now).jobs
    ensures j != id ==> RecordResult(s, from, id, ok, beta, now).jobs[j] == s.jobs[j]
    ensures Done(RecordResult(s, from, id, ok, beta, now), id) <==> ok
  {
    assert Bounded(s, id);
    var s1 := MarkFinished(s, id, ok);
    var s2 := if from in s1.nodes then TouchNode(s1, Credited(s1.nodes[from], ok, beta), now) else s1;
    UnloadKeepsJobs(s2, s2.jobs[id].assignedNodes, id, now);
    if !ok {
      RequeueTouchesOne(UnloadAll(s2, s2.jobs[id].assignedNodes, id, now), id, j);
    }
  }

  /** The two events that reopen a completed job: a late failure report, and the death of a node that still lists it. */
  ghost predicate Reopens(s: Cluster, step: Step, now: real, id: JobId) {
    || (step.Result? && step.id == id && !step.ok)
    || (step.Check? && ListedOnDead(s, step.order, now, id))
  }

  /**
   A job is completed by nothing but a successful result, and "completed" is not final: a step
   takes it back exactly when it reopens the job.
   */
  lemma CompletedIff(s: Cluster, step: Step, now: real, id: JobId)
    requires Inv(s) && Allowed(s, step) && id in s.jobs
    ensures Done(Next(s, step, now), id) <==>
      (step.Result? && step.id == id && step.ok) || (Done(s, id) && !Reopens(s, step, now, id))
  {
    match step
    case Submit(j, required, power, gpu, round) =>
      EnqueueKeeps(s, j, required, power, gpu);
      ScheduleCompletesNothing(EnqueueJob(s, NewJob(j, required, power, gpu)), round.leader, round.order, round.answer,
          now, id);
    case Schedule(round) =>
      ScheduleCompletesNothing(s, round.leader, round.order, round.answer, now, id);
    case Result(from, j, ok, beta, round) =>
      if j in s.jobs {
        ResultKeeps(s, from, j, ok, beta, now);
        ResultDecidesOne(s, from, j, ok, beta, now, id);
        ScheduleCompletesNothing(RecordResult(s, from, j, ok, beta, now), round.leader, round.order, round.answer, now,
            id);
      }
    case Beat(_, _, _, _, _, _) =>
    case Register(_, _) =>
    case Check(order) =>
      if ListedOnDead(s, order, now, id) {
        CheckRecovers(s, order, now);
      } else {
        CheckTouchesListed(s, order, now, id);
      }
    case Reboot =>
      RestartRestores(s);
  }

  // ----- Dispatch and result on one node ---------------------------------------------------------

  lemma {:induction false} RemoveAppended(ids: seq<JobId>, id: JobId)
    ensures RemoveFirst(ids + [id], id) == if id in ids then RemoveFirst(ids, id) + [id] else ids
  {
    if ids != [] {
      assert (ids + [id])[1..] == ids[1..] + [id] && ids == [ids[0]] + ids[1..];
      if ids[0] != id {
        RemoveAppended(ids[1..], id);
      }
    }
  }

  lemma {:induction false} RemoveTakesOne(ids: seq<JobId>, id: JobId)
    requires id in ids
    ensures multiset(RemoveFirst(ids, id)) == multiset(ids) - multiset{id}
  {
    assert ids == [ids[0]] + ids[1..];
    if ids[0] != id {
      RemoveTakesOne(ids[1..], id);
    }
  }

  /**
   What a result makes of a dispatch to a node. Every job is listed as often as before, so that a
   job which the node listed already stays listed after its result; the list itself is as before
   if the node did not list it. The load is back exactly when neither cap acted. The latency is
   three tenths nearer to the measured one.
   */
  lemma ResultUndoesDispatchIff(node: NodeState, id: JobId, latencyMs: real)
    ensures var after := Unloaded(Loaded(node, id, latencyMs), id);
      && multiset(after.runningJobs) == multiset(node.runningJobs)
      && (id in after.runningJobs <==> id in node.runningJobs)
      && (id !in node.runningJobs ==> after.runningJobs == node.runningJobs)
      && (after.currentLoad == node.currentLoad <==> 0.0 <= node.currentLoad <= 0.8)
      && (node.avgLatencyMs != 0.0 ==> after.avgLatencyMs - latencyMs == 0.7 * (node.avgLatencyMs - latencyMs))
      && (node.avgLatencyMs == 0.0 ==> after.avgLatencyMs == latencyMs)
      && Loaded(node, id, latencyMs).queueSize == |node.runningJobs| + 1
  {
    RemoveAppended(node.runningJobs, id);
    RemoveTakesOne(node.runningJobs + [id], id);
    assert id in multiset(RemoveFirst(node.runningJobs + [id], id)) <==> id in RemoveFirst(node.runningJobs + [id], id);
    assert id in multiset(node.runningJobs) <==> id in node.runningJobs;
  }

  /**
   A node that has just registered or sent a heartbeat survives a health check exactly for the
   dead time, and keeps the jobs it is known to run.
   */
  lemma SeenSurvivesIff(s: Cluster, step: Step, now: real, n: NodeId, order: seq<NodeId>, later: real)
    requires Inv(s) && n in order
    requires (step.Register? && step.node == n) || (step.Beat? && step.from == n && n in s.nodes)
    ensures n in CheckNodes(Next(s, step, now), order, later).nodes <==> later - now <= 15.0
    ensures n in Next(s, step, now).nodes && Next(s, step, now).nodes[n].runningJobs ==
      if step.Beat? && step.running.Some? then step.running.value else if n in s.nodes then s.nodes[n].runningJobs
          else []
  {
    StepKeepsInv(s, step, now);
    CheckRecovers(Next(s, step, now), order, later);
  }
}

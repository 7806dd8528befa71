/** Where the attempts at a job go: to the best nodes there are when its round begins. */
module JobAttempts {
  import opened Collections
  import opened NodeRanking
  import opened JobProtocol
  import opened JobSafety
  import opened JobRecovery

  /** As many nodes as the job asks for, registered, eligible, each once, and no other such node scores better. */
  ghost predicate BestChoice(s: Cluster, job: JobRecord, chosen: seq<NodeId>) {
    && Distinct(chosen) && |chosen| == job.requiredNodes
    && (forall n :: n in chosen ==> n in s.nodes && Fit(s.nodes[n], job))
    && (forall n, m :: n in chosen && m in s.nodes && m !in chosen && n in s.nodes && Fit(s.nodes[m], job) ==>
          NodeScore(s.nodes[m], job) <= NodeScore(s.nodes[n], job))
  }

  /** The node is healthy, and has a GPU if the job requires one. */
  ghost predicate Fit(node: NodeState, job: JobRecord) {
    node.healthy && (node.hasGpu || !job.gpuRequired)
  }

  lemma IdsOfRegistered(nodes: map<NodeId, NodeState>, targets: seq<NodeState>)
    requires Registered(nodes, targets)
    ensures forall n :: n in Ids(targets) <==> n in nodes && nodes[n] in targets
  {
    forall n | n in nodes && nodes[n] in targets
      ensures n in Ids(targets)
    {
      var i :| 0 <= i < |targets| && targets[i] == nodes[n];
      assert Ids(targets)[i] == nodes[n].nodeId;
    }
    forall n | n in Ids(targets)
      ensures n in nodes && nodes[n] in targets
    {
      var i :| 0 <= i < |targets| && targets[i].nodeId == n;
      assert targets[i] in targets;
    }
  }

  ghost predicate Registered(nodes: map<NodeId, NodeState>, targets: seq<NodeState>) {
    && (forall n :: n in nodes ==> nodes[n].nodeId == n)
    && (forall t :: t in targets ==> t.nodeId in nodes && nodes[t.nodeId] == t)
  }

  lemma ChosenAreBest(s: Cluster, id: JobId, order: seq<NodeId>)
    requires Keyed(s) && id in s.jobs && Enumerates(order, s.nodes.Keys)
    requires |Candidates(s, id, order)| >= s.jobs[id].requiredNodes
    ensures BestChoice(s, s.jobs[id], Ids(Candidates(s, id, order)))
  {
    var targets := Candidates(s, id, order);
    AttemptUsesBestNodes(s, id, order);
    IdsOfRegistered(s.nodes, targets);
    IdsAreDistinct(targets);
  }

  lemma IdsAreDistinct(nodes: seq<NodeState>)
    requires DistinctIds(nodes)
    ensures Distinct(Ids(nodes))
  {
  }

  lemma {:induction false} TakenAll(s: Cluster, targets: seq<NodeId>, id: JobId, answer: NodeId -> Outcome, now: real)
    ensures var taken := DispatchAll(s, targets, id, answer, now).1;
      |taken| <= |targets| && (|taken| == |targets| ==> taken == targets)
  {
    if targets != [] {
      TakenAll(s, targets[..|targets| - 1], id, answer, now);
      assert targets == targets[..|targets| - 1] + [targets[|targets| - 1]];
    }
  }

  /** The dispatch loop adds the job to the list of some of its targets, once, and to no other list. */
  ghost predicate ListsMore(s: Cluster, s1: Cluster, targets: seq<NodeId>, id: JobId) {
    forall n :: n in s.nodes ==>
      && n in s1.nodes
      && (s1.nodes[n].runningJobs == s.nodes[n].runningJobs
          || (n in targets && s1.nodes[n].runningJobs == s.nodes[n].runningJobs + [id]))
  }

  lemma {:induction false} OnlyTargetsTouched(s: Cluster, targets: seq<NodeId>, id: JobId, answer: NodeId -> Outcome,
      now: real)
    requires Keyed(s) && Distinct(targets)
    ensures var s1 := DispatchAll(s, targets, id, answer, now).0;
      && Keyed(s1) && ListsMore(s, s1, targets, id)
      && forall n :: n in s.nodes && n !in targets ==> n in s1.nodes && s1.nodes[n] == s.nodes[n]
  {
    if targets != [] {
      var most, last := targets[..|targets| - 1], targets[|targets| - 1];
      assert targets == most + [last];
      OnlyTargetsTouched(s, most, id, answer, now);
      assert last !in most;
    }
  }

  /** An attempt at a job, from the state `r` in which its round begins to the state `s` in which the step ends. */
  ghost predicate Attempted(r: Cluster, s: Cluster, id: JobId, chosen: seq<NodeId>)
    requires id in r.jobs && id in s.jobs
  {
    && BestChoice(r, r.jobs[id], chosen) && ListsMore(r, s, chosen, id)
    && (s.jobs[id].status == Running ==> s.jobs[id].assignedNodes == chosen)
  }

  /** How an attempt ends, given the nodes that took the job. */
  function Settle(s: Cluster, id: JobId, taken: seq<NodeId>): Cluster
    requires id in s.jobs
  {
    if |taken| >= s.jobs[id].requiredNodes then PersistQueue(SaveJob(s, s.jobs[id].(assignedNodes := taken)))
    else RequeueOrFail(s, id)
  }

  lemma StartIsDispatchAndSettle(s: Cluster, id: JobId, order: seq<NodeId>, answer: NodeId -> Outcome, now: real)
    requires id in s.jobs
    ensures var targets := Ids(Candidates(s, id, order));
      var (s1, taken) := DispatchAll(MarkRunning(s, id), targets, id, answer, now);
      && id in s1.jobs && s1.jobs == MarkRunning(s, id).jobs
      && Start(s, id, order, answer, now) ==
           if |targets| < s.jobs[id].requiredNodes then RequeueOrFail(s, id) else Settle(s1, id, taken)
  {
    DispatchKeepsJobs(MarkRunning(s, id), Ids(Candidates(s, id, order)), id, answer, now);
  }

  lemma RequeueFacts(s: Cluster, id: JobId)
    requires id in s.jobs && s.jobs[id].id == id
    ensures var s' := RequeueOrFail(s, id);
      && id in s'.jobs && s'.nodes == s.nodes && s'.jobs == s.jobs[id := s'.jobs[id]]
      && s'.jobs[id].attempts == s.jobs[id].attempts && s'.jobs[id].status != Running
  {
    var job := s.jobs[id];
    if job.attempts >= MAX_JOB_RETRIES {
      assert RequeueOrFail(s, id) == SaveJob(s, job.(status := Failed));
    } else {
      assert RequeueOrFail(s, id).jobs == s.jobs[id := job.(status := Queued)];
    }
  }

  lemma SettleFacts(s: Cluster, id: JobId, taken: seq<NodeId>)
    requires id in s.jobs && s.jobs[id].id == id
    ensures var s' := Settle(s, id, taken);
      && id in s'.jobs && s'.nodes == s.nodes && s'.jobs == s.jobs[id := s'.jobs[id]]
      && (s'.jobs[id].status == Running ==> s'.jobs[id].assignedNodes == taken && |taken| >= s.jobs[id].requiredNodes)
  {
    if |taken| < s.jobs[id].requiredNodes {
      RequeueFacts(s, id);
    }
  }

  lemma DispatchAttempts(s: Cluster, id: JobId, targets: seq<NodeId>, answer: NodeId -> Outcome, now: real)
    requires Keyed(s) && id in s.jobs && s.jobs[id].id == id && BestChoice(s, s.jobs[id], targets)
    ensures var (s1, taken) := DispatchAll(MarkRunning(s, id), targets, id, answer, now);
      id in s1.jobs && AttemptedOrNot(s, Settle(s1, id, taken), id, targets)
  {
    var s0 := MarkRunning(s, id);
    var (s1, taken) := DispatchAll(s0, targets, id, answer, now);
    TakenAll(s0, targets, id, answer, now);
    OnlyTargetsTouched(s0, targets, id, answer, now);
    DispatchKeepsJobs(s0, targets, id, answer, now);
    SettleFacts(s1, id, taken);
  }

  /** Either no attempt was made, or one with the chosen nodes; no other job has changed. */
  ghost predicate AttemptedOrNot(s: Cluster, s': Cluster, id: JobId, chosen: seq<NodeId>)
    requires id in s.jobs
  {
    && id in s'.jobs && s'.jobs == s.jobs[id := s'.jobs[id]]
    && (s'.jobs[id].attempts == s.jobs[id].attempts || Attempted(s, s', id, chosen))
  }

  lemma RequeueMakesNone(s: Cluster, id: JobId, chosen: seq<NodeId>)
    requires id in s.jobs && s.jobs[id].id == id
    ensures AttemptedOrNot(s, RequeueOrFail(s, id), id, chosen)
  {
    RequeueFacts(s, id);
  }

  lemma StartAttempts(s: Cluster, id: JobId, order: seq<NodeId>, answer: NodeId -> Outcome, now: real)
    requires Keyed(s) && id in s.jobs && s.jobs[id].id == id && Enumerates(order, s.nodes.Keys)
    ensures AttemptedOrNot(s, Start(s, id, order, answer, now), id, Ids(Candidates(s, id, order)))
  {
    var targets := Ids(Candidates(s, id, order));
    StartIsDispatchAndSettle(s, id, order, answer, now);
    if |targets| < s.jobs[id].requiredNodes {
      RequeueMakesNone(s, id, targets);
    } else {
      ChosenAreBest(s, id, order);
      DispatchAttempts(s, id, targets, answer, now);
    }
  }

  /** A round makes an attempt at the head of the queue at most. */
  lemma RoundAttempts(s: Cluster, round: Round, now: real, id: JobId)
    requires Inv(s) && Enumerates(round.order, s.nodes.Keys) && id in s.jobs
    ensures var s' := After(s, round, now);
      id in s'.jobs && (s'.jobs[id].attempts == s.jobs[id].attempts || exists chosen :: Attempted(s, s', id, chosen))
  {
    if round.leader && s.queue != [] {
      DropHeadKeeps(s);
      var head, s1 := s.queue[0], DropHead(s);
      assert Bounded(s1, head);
      if s1.jobs[head].status !in {Completed, Failed} {
        StartAttempts(s1, head, round.order, round.answer, now);
        var chosen := Ids(Candidates(s1, head, round.order));
        assert id == head && Attempted(s1, After(s, round, now), id, chosen) ==>
            Attempted(s, After(s, round, now), id, chosen);
      }
    }
  }

  // ----- Steps -----------------------------------------------------------------------------------

  lemma {:induction false} UnloadKeepsNodes(s: Cluster, taken: seq<NodeId>, id: JobId, now: real)
    requires Keyed(s)
    ensures Keyed(UnloadAll(s, taken, id, now)) && UnloadAll(s, taken, id, now).nodes.Keys == s.nodes.Keys
  {
    if taken != [] {
      UnloadKeepsNodes(s, taken[..|taken| - 1], id, now);
    }
  }

  lemma CreditKeepsNodes(s: Cluster, from: NodeId, id: JobId, ok: bool, beta: real, now: real)
    requires Keyed(s) && id in s.jobs
    ensures var s1 := MarkFinished(s, id, ok);
      var s2 := if from in s1.nodes then TouchNode(s1, Credited(s1.nodes[from], ok, beta), now) else s1;
      Keyed(s2) && s2.nodes.Keys == s.nodes.Keys
  {
  }

  lemma RequeueKeepsNodes(s: Cluster, id: JobId)
    requires id in s.jobs
    ensures RequeueOrFail(s, id).nodes == s.nodes
  {
  }

  lemma ResultKeepsNodes(s: Cluster, from: NodeId, id: JobId, ok: bool, beta: real, now: real)
    requires Keyed(s)
    ensures RecordResult(s, from, id, ok, beta, now).nodes.Keys == s.nodes.Keys
  {
    if id in s.jobs {
      var s1 := MarkFinished(s, id, ok);
      var s2 := if from in s1.nodes then TouchNode(s1, Credited(s1.nodes[from], ok, beta), now) else s1;
      var taken := s2.jobs[id].assignedNodes;
      CreditKeepsNodes(s, from, id, ok, beta, now);
      UnloadKeepsNodes(s2, taken, id, now);
      UnloadKeepsJobs(s2, taken, id, now);
      RequeueKeepsNodes(UnloadAll(s2, taken, id, now), id);
    }
  }

  lemma {:induction false} RequeueAllKeepsAttempts(s: Cluster, ids: seq<JobId>, id: JobId)
    requires Inv(s) && id in s.jobs
    ensures id in RequeueAll(s, ids).jobs && RequeueAll(s, ids).jobs[id].attempts == s.jobs[id].attempts
  {
    if ids != [] {
      RequeueAllKeepsAttempts(s, ids[..|ids| - 1], id);
      RequeueAllKeeps(s, ids[..|ids| - 1]);
      var most, last := RequeueAll(s, ids[..|ids| - 1]), ids[|ids| - 1];
      if last in most.jobs {
        assert Bounded(most, last);
      }
    }
  }

  lemma {:induction false} CheckKeepsAttempts(s: Cluster, order: seq<NodeId>, now: real, id: JobId)
    requires Inv(s) && id in s.jobs
    ensures id in CheckNodes(s, order, now).jobs && CheckNodes(s, order, now).jobs[id].attempts == s.jobs[id].attempts
  {
    if order != [] {
      var rest, n := order[..|order| - 1], order[|order| - 1];
      CheckKeepsAttempts(s, rest, now, id);
      CheckKeeps(s, rest, now);
      var most := CheckNodes(s, rest, now);
      if n in most.nodes && Dead(most.nodes[n], now) {
        NodeChangeKeeps(most, RemoveNode(most, n), {});
        RequeueAllKeepsAttempts(RemoveNode(most, n), most.nodes[n].runningJobs, id);
      }
    }
  }

  /** The state in which the scheduling round of a step begins; without a round, the state before it. */
  function RoundStart(s: Cluster, step: Step, now: real): Cluster {
    match step
    case Submit(id, required, power, gpu, _) => EnqueueJob(s, NewJob(id, required, power, gpu))
    case Result(from, id, ok, beta, _) => RecordResult(s, from, id, ok, beta, now)
    case _ => s
  }

  /**
   In every step, an attempt is made only in its round, and goes to the best nodes there are when
   the round begins: it is listed on those that took it, and they are the assigned ones if it runs.
   */
  lemma StepAttempts(s: Cluster, step: Step, now: real, id: JobId)
    requires Inv(s) && Allowed(s, step) && id in RoundStart(s, step, now).jobs
    ensures var r, s' := RoundStart(s, step, now), Next(s, step, now);
      id in s'.jobs && (s'.jobs[id].attempts == r.jobs[id].attempts || exists chosen :: Attempted(r, s', id, chosen))
  {
    match step
    case Submit(j, required, power, gpu, round) =>
      EnqueueKeeps(s, j, required, power, gpu);
      RoundAttempts(RoundStart(s, step, now), round, now, id);
    case Schedule(round) =>
      RoundAttempts(s, round, now, id);
    case Result(from, j, ok, beta, round) =>
      if j in s.jobs {
        ResultKeeps(s, from, j, ok, beta, now);
        ResultKeepsNodes(s, from, j, ok, beta, now);
        RoundAttempts(RoundStart(s, step, now), round, now, id);
      }
    case Beat(_, _, _, _, _, _) =>
    case Register(_, _) =>
    case Check(order) =>
      CheckKeepsAttempts(s, order, now, id);
    case Reboot =>
      RestartRestores(s);
  }
}

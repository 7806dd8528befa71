/** Runs on one node: how a job is stranded, and how a completed job comes back. */
module JobRuns {
  import opened Options
  import opened NodeRanking
  import opened JobProtocol
  import opened JobSafety
  import opened JobRecovery
  import opened JobOutcomes

  lemma ExecSnoc(steps: seq<(Step, real)>, step: Step, now: real)
    ensures Exec(steps + [(step, now)]) == Next(Exec(steps), step, now)
    ensures Run(steps + [(step, now)]) <==> Run(steps) && Allowed(Exec(steps), step)
  {
    assert (steps + [(step, now)])[..|steps|] == steps;
  }

  /** A cluster of one healthy node and one job that asks for one node. */
  ghost predicate Single(s: Cluster, n: NodeId, seen: real, listing: seq<JobId>, job: JobRecord, queue: seq<JobId>) {
    && s.nodes.Keys == {n} && s.nodes[n].nodeId == n && s.nodes[n].healthy && s.nodes[n].lastSeen == seen
    && s.nodes[n].runningJobs == listing
    && s.jobs == map[job.id := job] && s.queue == queue
    && job.requiredNodes == 1 && !job.gpuRequired
  }

  lemma ListedOne(nodes: map<NodeId, NodeState>, n: NodeId)
    requires n in nodes
    ensures Listed(nodes, [n]) == [nodes[n]]
  {
    assert [n][..0] == [];
    assert Listed(nodes, [n][..0]) == [];
  }

  lemma ChosenOne(job: JobRecord, node: NodeState)
    requires Eligible(node, job) && job.requiredNodes == 1
    ensures SelectBestNodes(job, [node]) == [node]
  {
    assert [node][..0] == [];
    assert EligibleNodes(job, [node][..0]) == [];
    assert EligibleNodes(job, [node]) == [node];
    var ranked := RankNodes(job, [node]);
    assert ranked[0] in multiset(ranked);
  }

  lemma DispatchToOne(s: Cluster, n: NodeId, id: JobId, answer: NodeId -> Outcome, now: real)
    requires n in s.nodes
    ensures DispatchAll(s, [n], id, answer, now) == (Dispatch(s, n, id, answer(n), now), if answer(n).Accepted?
        then [n] else [])
  {
    assert [n][..0] == [];
    assert DispatchAll(s, [n][..0], id, answer, now) == (s, []);
    var none: seq<NodeId> := [];
    assert none + [n] == [n];
  }

  /** What starting a job that goes to the only node amounts to. */
  function AfterStart(s: Cluster, n: NodeId, id: JobId, outcome: Outcome, now: real): Cluster
    requires n in s.nodes && id in s.jobs && s.jobs[id].id == id
  {
    var s1 := Dispatch(MarkRunning(s, id), n, id, outcome, now);
    if outcome.Accepted? then PersistQueue(SaveJob(s1, s1.jobs[id].(assignedNodes := [n]))) else RequeueOrFail(s1, id)
  }

  lemma StartOnOne(s: Cluster, n: NodeId, id: JobId, answer: NodeId -> Outcome, now: real)
    requires n in s.nodes && s.nodes[n].nodeId == n && id in s.jobs && s.jobs[id].id == id
        && s.jobs[id].requiredNodes == 1
    requires Eligible(s.nodes[n], s.jobs[id]) && !answer(n).Refused?
    ensures Start(s, id, [n], answer, now) == AfterStart(s, n, id, answer(n), now)
  {
    ListedOne(s.nodes, n);
    ChosenOne(s.jobs[id], s.nodes[n]);
    assert Ids([s.nodes[n]]) == [n];
    DispatchToOne(MarkRunning(s, id), n, id, answer, now);
  }

  /** What the single job's record becomes in a round in which the node takes it. */
  function Tried(job: JobRecord, n: NodeId, outcome: Outcome): JobRecord {
    if outcome.Accepted? then job.(status := Running, attempts := job.attempts + 1, assignedNodes := [n])
    else job.(attempts := job.attempts + 1)
  }

  /** One round on the single job: the node takes it, with or without a proper reply. */
  lemma RoundOnOne(s: Cluster, n: NodeId, seen: real, listing: seq<JobId>, job: JobRecord, answer: NodeId -> Outcome,
      now: real)
    requires Single(s, n, seen, listing, job, [job.id]) && job.status == Queued && job.attempts < 2
        && !answer(n).Refused?
    ensures Single(ScheduleOnce(s, true, [n], answer, now), n, now, listing + [job.id], Tried(job, n, answer(n)),
                   if answer(n).Accepted? then [] else [job.id])
  {
    RoundIsStart(s, job.id, [n], answer, now);
    StartOnOne(DropHead(s), n, job.id, answer, now);
    StartSettles(DropHead(s), n, seen, listing, job, answer(n), now);
  }

  lemma StartSettles(s: Cluster, n: NodeId, seen: real, listing: seq<JobId>, job: JobRecord, outcome: Outcome,
      now: real)
    requires Single(s, n, seen, listing, job, []) && job.status == Queued && job.attempts < 2 && !outcome.Refused?
    ensures Single(AfterStart(s, n, job.id, outcome, now), n, now, listing + [job.id], Tried(job, n, outcome),
                   if outcome.Accepted? then [] else [job.id])
  {
    TakenOnOne(s, n, seen, listing, job, outcome, now);
    SettledOnOne(Dispatch(MarkRunning(s, job.id), n, job.id, outcome, now), n, now, listing + [job.id],
                 job.(status := Running, attempts := job.attempts + 1));
  }

  lemma RoundIsStart(s: Cluster, id: JobId, order: seq<NodeId>, answer: NodeId -> Outcome, now: real)
    requires s.queue == [id] && id in s.jobs && s.jobs[id].status == Queued && s.jobs[id].attempts < 3
    ensures ScheduleOnce(s, true, order, answer, now) == Start(DropHead(s), id, order, answer, now)
        && DropHead(s).queue == []
  {
  }

  lemma SettledOnOne(s: Cluster, n: NodeId, seen: real, listing: seq<JobId>, job: JobRecord)
    requires Single(s, n, seen, listing, job, []) && job.attempts < 3
    ensures Single(PersistQueue(SaveJob(s, s.jobs[job.id].(assignedNodes := [n]))), n, seen, listing,
        job.(assignedNodes := [n]), [])
    ensures Single(RequeueOrFail(s, job.id), n, seen, listing, job.(status := Queued), [job.id])
  {
    KeptOnOne(s, n, seen, listing, job, job.(assignedNodes := [n]));
    KeptOnOne(s, n, seen, listing, job, job.(status := Queued));
  }

  lemma TakenOnOne(s: Cluster, n: NodeId, seen: real, listing: seq<JobId>, job: JobRecord, outcome: Outcome, now: real)
    requires Single(s, n, seen, listing, job, []) && !outcome.Refused?
    ensures Single(Dispatch(MarkRunning(s, job.id), n, job.id, outcome, now), n, now, listing + [job.id],
                   job.(status := Running, attempts := job.attempts + 1), [])
  {
  }

  /** Saving the job's record, and queueing it or not. */
  lemma KeptOnOne(s: Cluster, n: NodeId, seen: real, listing: seq<JobId>, job: JobRecord, job': JobRecord)
    requires Single(s, n, seen, listing, job, [])
    requires job'.id == job.id && job'.requiredNodes == 1 && !job'.gpuRequired
    ensures Single(PersistQueue(SaveJob(s, job')), n, seen, listing, job', [])
    ensures Single(EnsureJobQueued(SaveJob(s, job'), job.id), n, seen, listing, job', [job.id])
  {
    assert s.queue + [job.id] == [job.id];
  }

  function Registered(n: NodeId, now: real): seq<(Step, real)> {
    [] + [(Register(n, false), now)]
  }

  /** Registration, and a submission that goes to the node at once. */
  function Dispatched(n: NodeId, id: JobId, answer: NodeId -> Outcome, now: real): seq<(Step, real)> {
    Registered(n, now) + [(Submit(id, 1, Power.Low, false, Round(true, [n], answer)), now)]
  }

  lemma SubmittedState(n: NodeId, job: JobRecord, now: real)
    requires job.requiredNodes == 1 && !job.gpuRequired
    ensures Single(EnqueueJob(Exec(Registered(n, now)), job), n, now, [], job, [job.id])
    ensures job.id !in Exec(Registered(n, now)).jobs
  {
    var none: seq<(Step, real)> := [];
    ExecSnoc(none, Register(n, false), now);
  }

  lemma DispatchedState(n: NodeId, id: JobId, answer: NodeId -> Outcome, now: real)
    requires !answer(n).Refused?
    ensures Run(Dispatched(n, id, answer, now))
    ensures Single(Exec(Dispatched(n, id, answer, now)), n, now, [id],
        Tried(NewJob(id, 1, Power.Low, false), n, answer(n)),
                   if answer(n).Accepted? then [] else [id])
  {
    var none: seq<(Step, real)> := [];
    ExecSnoc(none, Register(n, false), now);
    ExecSnoc(Registered(n, now), Submit(id, 1, Power.Low, false, Round(true, [n], answer)), now);
    var job := NewJob(id, 1, Power.Low, false);
    SubmittedState(n, job, now);
    RoundOnOne(EnqueueJob(Exec(Registered(n, now)), job), n, now, [], job, answer, now);
    assert [] + [id] == [id];
  }

  /** The node's heartbeat leaves the job out. */
  function Forgetful(n: NodeId, id: JobId, now: real): seq<(Step, real)> {
    Dispatched(n, id, _ => Accepted(10.0), now) + [(Beat(n, 0.2, Some([]), None, 10.0, 0.25), now)]
  }

  /** It ends with a running job that is listed nowhere. */
  lemma ForgetfulStrands(n: NodeId, id: JobId, now: real)
    ensures Run(Forgetful(n, id, now)) && !AllTracked(Exec(Forgetful(n, id, now)))
  {
    var before := Dispatched(n, id, _ => Accepted(10.0), now);
    var beat := Beat(n, 0.2, Some([]), None, 10.0, 0.25);
    DispatchedState(n, id, _ => Accepted(10.0), now);
    ExecSnoc(before, beat, now);
    assert !Tracked(Exec(Forgetful(n, id, now)), id);
  }

  /** A garbled reply, a second dispatch, success; the node still lists the job once. */
  function Twice(n: NodeId, id: JobId, now: real): seq<(Step, real)> {
    Redispatched(n, id, now) + [(Result(n, id, true, 0.25, Round(false, [n], _ => Refused)), now)]
  }

  lemma UnloadOne(s: Cluster, n: NodeId, id: JobId, now: real)
    requires n in s.nodes
    ensures UnloadAll(s, [n], id, now) == TouchNode(s, Unloaded(s.nodes[n], id), now)
  {
    assert [n][..0] == [];
    assert UnloadAll(s, [n][..0], id, now) == s;
  }

  /** The part of the run up to the second dispatch. */
  function Redispatched(n: NodeId, id: JobId, now: real): seq<(Step, real)> {
    Dispatched(n, id, _ => Garbled(10.0), now) + [(Schedule(Round(true, [n], _ => Accepted(10.0))), now)]
  }

  lemma RedispatchedState(n: NodeId, id: JobId, now: real)
    ensures Run(Redispatched(n, id, now))
    ensures Single(Exec(Redispatched(n, id, now)), n, now, [id] + [id],
                   Tried(NewJob(id, 1, Power.Low, false).(attempts := 1), n, Accepted(10.0)), [])
  {
    var one := Dispatched(n, id, _ => Garbled(10.0), now);
    DispatchedState(n, id, _ => Garbled(10.0), now);
    ExecSnoc(one, Schedule(Round(true, [n], _ => Accepted(10.0))), now);
    RoundOnOne(Exec(one), n, now, [id], NewJob(id, 1, Power.Low, false).(attempts := 1), _ => Accepted(10.0), now);
  }

  lemma TwiceLists(n: NodeId, id: JobId, now: real)
    ensures Run(Twice(n, id, now)) && ListsDone(Exec(Twice(n, id, now)), n, id, now)
  {
    RedispatchedState(n, id, now);
    ExecSnoc(Redispatched(n, id, now), Result(n, id, true, 0.25, Round(false, [n], _ => Refused)), now);
    ResultOnOne(Exec(Redispatched(n, id, now)), n, now, id,
        Tried(NewJob(id, 1, Power.Low, false).(attempts := 1), n, Accepted(10.0)));
  }

  /** The only node lists the job, and the job is completed. */
  ghost predicate ListsDone(s: Cluster, n: NodeId, id: JobId, seen: real) {
    Done(s, id) && s.nodes.Keys == {n} && s.nodes[n].runningJobs == [id] && s.nodes[n].lastSeen == seen
  }

  lemma ResultOnOne(s: Cluster, n: NodeId, now: real, id: JobId, job: JobRecord)
    requires Single(s, n, now, [id] + [id], job, []) && job.id == id && job.assignedNodes == [n]
    ensures ListsDone(RecordResult(s, n, id, true, 0.25, now), n, id, now)
  {
    var s1 := MarkFinished(s, id, true);
    var s2 := TouchNode(s1, Credited(s1.nodes[n], true, 0.25), now);
    UnloadOne(s2, n, id, now);
    assert ([id] + [id])[1..] == [id];
  }

  /** When the node dies, the completed job is queued again or runs out of attempts: it is not completed any more. */
  lemma CompletedComesBack(n: NodeId, id: JobId, now: real, later: real)
    requires later - now > 15.0
    ensures Run(Twice(n, id, now) + [(Check([n]), later)])
    ensures Done(Exec(Twice(n, id, now)), id) && !Done(Exec(Twice(n, id, now) + [(Check([n]), later)]), id)
  {
    TwiceLists(n, id, now);
    ReachableInv(Twice(n, id, now));
    ExecSnoc(Twice(n, id, now), Check([n]), later);
    var s := Exec(Twice(n, id, now));
    assert n in [n] && id in s.nodes[n].runningJobs;
    CompletedIff(s, Check([n]), later, id);
  }
}

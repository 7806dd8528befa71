/**
 What the handlers do, said on the tables: every branch of a scheduling round, results,
 heartbeats, registration, submission.
 */
module JobEffects {
  import opened Collections
  import opened NodeRanking
  import opened JobProtocol
  import opened JobSafety
  import opened JobRecovery
  import opened JobAttempts
  import opened JobOutcomes

  // ----- Results ---------------------------------------------------------------------------------

  /** A failure report gives the job another try exactly if it has had fewer than three attempts. */
  lemma FailureRetriesIff(s: Cluster, from: NodeId, id: JobId, beta: real, now: real)
    requires Inv(s) && id in s.jobs
    ensures var s' := RecordResult(s, from, id, false, beta, now);
      && id in s'.jobs && s'.jobs[id].attempts == s.jobs[id].attempts
      && (s'.jobs[id].status == Queued && id in s'.queue <==> s.jobs[id].attempts < 3)
      && (s'.jobs[id].status == Failed <==> s.jobs[id].attempts == 3)
  {
    assert Bounded(s, id);
    ResultKeeps(s, from, id, false, beta, now);
    var s1 := MarkFinished(s, id, false);
    var s2 := if from in s1.nodes then TouchNode(s1, Credited(s1.nodes[from], false, beta), now) else s1;
    UnloadKeepsJobs(s2, s2.jobs[id].assignedNodes, id, now);
  }

  /** The same of the whole step, on a process that does not lead. */
  lemma FailedStepRetriesIff(s: Cluster, step: Step, now: real)
    requires Inv(s) && step.Result? && !step.ok && !step.round.leader && step.id in s.jobs
    ensures var s' := Next(s, step, now);
      && step.id in s'.jobs
      && (s'.jobs[step.id].status == Queued && step.id in s'.queue <==> s.jobs[step.id].attempts < 3)
      && (s'.jobs[step.id].status == Failed <==> s.jobs[step.id].attempts == 3)
  {
    FailureRetriesIff(s, step.from, step.id, step.beta, now);
  }

  /** Taking a job off nodes leaves their counters alone. */
  lemma {:induction false} UnloadKeepsCounters(s: Cluster, taken: seq<NodeId>, id: JobId, now: real, n: NodeId)
    requires Keyed(s) && n in s.nodes
    ensures Keyed(UnloadAll(s, taken, id, now)) && n in UnloadAll(s, taken, id, now).nodes
    ensures SameCounters(s.nodes[n], UnloadAll(s, taken, id, now).nodes[n])
  {
    if taken != [] {
      UnloadKeepsCounters(s, taken[..|taken| - 1], id, now, n);
    }
  }

  ghost predicate SameCounters(a: NodeState, b: NodeState) {
    b.jobsOk == a.jobsOk && b.jobsFailed == a.jobsFailed && b.loadEma == a.loadEma && b.hasGpu == a.hasGpu
  }

  /** The reporting node is credited with one success or one failure, and its load average moves by the factor beta. */
  lemma ResultCredits(s: Cluster, from: NodeId, id: JobId, ok: bool, beta: real, now: real)
    requires Inv(s) && id in s.jobs && from in s.nodes
    ensures var s' := RecordResult(s, from, id, ok, beta, now);
      && from in s'.nodes
      && s'.nodes[from].jobsOk == s.nodes[from].jobsOk + (if ok then 1 else 0)
      && s'.nodes[from].jobsFailed == s.nodes[from].jobsFailed + (if ok then 0 else 1)
      && s'.nodes[from].loadEma - s.nodes[from].loadEma == beta * (s.nodes[from].currentLoad - s.nodes[from].loadEma)
  {
    var s1 := MarkFinished(s, id, ok);
    var s2 := TouchNode(s1, Credited(s1.nodes[from], ok, beta), now);
    UnloadKeepsCounters(s2, s2.jobs[id].assignedNodes, id, now, from);
    UnloadKeepsJobs(s2, s2.jobs[id].assignedNodes, id, now);
    RequeueKeepsNodes(UnloadAll(s2, s2.jobs[id].assignedNodes, id, now), id);
  }

  /** Every assigned node that is still registered lists the job once less; other lists stay. */
  lemma {:induction false} UnloadReachesAll(s: Cluster, taken: seq<NodeId>, id: JobId, now: real, n: NodeId)
    requires Keyed(s) && n in s.nodes && Distinct(taken)
    ensures var s' := UnloadAll(s, taken, id, now);
      && Keyed(s') && n in s'.nodes
      && s'.nodes[n].runningJobs == if n in taken then RemoveFirst(s.nodes[n].runningJobs, id)
          else s.nodes[n].runningJobs
  {
    if taken != [] {
      var most := taken[..|taken| - 1];
      assert taken == most + [taken[|taken| - 1]];
      UnloadReachesAll(s, most, id, now, n);
      assert taken[|taken| - 1] !in most;
    }
  }

  /** The nodes after a result: the reporting one is credited, then the job is taken off the assigned ones. */
  lemma ResultNodes(s: Cluster, from: NodeId, id: JobId, ok: bool, beta: real, now: real) returns (credited: Cluster)
    requires Inv(s) && id in s.jobs
    ensures Keyed(credited) && credited.nodes.Keys == s.nodes.Keys
    ensures forall n :: n in s.nodes ==> credited.nodes[n].runningJobs == s.nodes[n].runningJobs
    ensures RecordResult(s, from, id, ok, beta, now).nodes ==
      UnloadAll(credited, s.jobs[id].assignedNodes, id, now).nodes
  {
    var s1 := MarkFinished(s, id, ok);
    credited := if from in s1.nodes then TouchNode(s1, Credited(s1.nodes[from], ok, beta), now) else s1;
    CreditKeepsNodes(s, from, id, ok, beta, now);
    UnloadKeepsJobs(credited, credited.jobs[id].assignedNodes, id, now);
    RequeueKeepsNodes(UnloadAll(credited, credited.jobs[id].assignedNodes, id, now), id);
    assert credited.jobs[id].assignedNodes == s.jobs[id].assignedNodes;
  }

  /** How often a node lists a job after its result. */
  lemma ResultUnlists(s: Cluster, from: NodeId, id: JobId, ok: bool, beta: real, now: real, n: NodeId)
    requires Inv(s) && id in s.jobs && n in s.nodes && Distinct(s.jobs[id].assignedNodes)
    ensures var s' := RecordResult(s, from, id, ok, beta, now);
      && n in s'.nodes
      && multiset(s'.nodes[n].runningJobs) ==
         multiset(s.nodes[n].runningJobs) - (if n in s.jobs[id].assignedNodes then multiset{id} else multiset{})
  {
    var credited := ResultNodes(s, from, id, ok, beta, now);
    UnloadReachesAll(credited, s.jobs[id].assignedNodes, id, now, n);
    RemoveIsMinus(s.nodes[n].runningJobs, id);
  }

  lemma RemoveIsMinus(ids: seq<JobId>, id: JobId)
    ensures multiset(RemoveFirst(ids, id)) == multiset(ids) - multiset{id}
  {
    if id in ids {
      RemoveTakesOne(ids, id);
    } else {
      RemoveNothing(ids, id);
      assert id !in multiset(ids);
    }
  }

  lemma {:induction false} RemoveNothing(ids: seq<JobId>, id: JobId)
    requires id !in ids
    ensures RemoveFirst(ids, id) == ids
  {
    if ids != [] {
      RemoveNothing(ids[1..], id);
      assert ids == [ids[0]] + ids[1..];
    }
  }

  // ----- Rounds ----------------------------------------------------------------------------------

  /** Only a leader schedules. */
  lemma OnlyLeadersSchedule(s: Cluster, round: Round, now: real)
    requires !round.leader || s.queue == []
    ensures After(s, round, now) == s
  {
  }

  /** A node that answers a dispatch lists the job, properly answered or not; one that refuses does not. */
  lemma {:induction false} DispatchReachesAll(s: Cluster, targets: seq<NodeId>, id: JobId, answer: NodeId -> Outcome,
      now: real)
    requires Keyed(s) && Distinct(targets) && forall n :: n in targets ==> n in s.nodes
    ensures var (s1, taken) := DispatchAll(s, targets, id, answer, now);
      && Keyed(s1) && s1.nodes.Keys == s.nodes.Keys
      && (forall n :: n in taken <==> n in targets && answer(n).Accepted?)
      && (forall n :: n in s.nodes ==>
            s1.nodes[n].runningJobs ==
            if n in targets && !answer(n).Refused? then s.nodes[n].runningJobs + [id] else s.nodes[n].runningJobs)
  {
    if targets != [] {
      var most, last := targets[..|targets| - 1], targets[|targets| - 1];
      assert targets == most + [last];
      assert last !in most;
      DispatchReachesAll(s, most, id, answer, now);
    }
  }

  /** What an attempt at a job leads to, given the nodes chosen and their answers. */
  ghost predicate AttemptEnds(s: Cluster, s': Cluster, id: JobId, chosen: seq<NodeId>, answer: NodeId -> Outcome)
    requires id in s.jobs && id in s'.jobs
  {
    && s'.jobs[id].attempts == s.jobs[id].attempts + 1
    && (s'.jobs[id].status == Running <==> forall n :: n in chosen ==> answer(n).Accepted?)
    && (s'.jobs[id].status != Running ==>
        if s.jobs[id].attempts < 2 then s'.jobs[id].status == Queued else s'.jobs[id].status == Failed)
    && s'.queue == s.queue + (if s'.jobs[id].status == Queued then [id] else [])
    && s'.nodes.Keys == s.nodes.Keys
    && forall n :: n in s.nodes && n in s'.nodes ==>
         s'.nodes[n].runningJobs ==
         if n in chosen && !answer(n).Refused? then s.nodes[n].runningJobs + [id] else s.nodes[n].runningJobs
  }

  lemma StartEnds(s: Cluster, id: JobId, order: seq<NodeId>, answer: NodeId -> Outcome, now: real)
    requires Keyed(s) && id in s.jobs && s.jobs[id].id == id && id !in s.queue && s.jobs[id].attempts < 3
    requires BestChoice(s, s.jobs[id], Ids(Candidates(s, id, order)))
    ensures var s' := Start(s, id, order, answer, now);
      id in s'.jobs && AttemptEnds(s, s', id, Ids(Candidates(s, id, order)), answer)
  {
    var chosen := Ids(Candidates(s, id, order));
    StartIsDispatchAndSettle(s, id, order, answer, now);
    var s0 := MarkRunning(s, id);
    DispatchReachesAll(s0, chosen, id, answer, now);
    DispatchKeepsJobs(s0, chosen, id, answer, now);
    TakenAll(s0, chosen, id, answer, now);
    var (s1, taken) := DispatchAll(s0, chosen, id, answer, now);
    if forall n :: n in chosen ==> answer(n).Accepted? {
      TakenIfAllAccept(s0, chosen, id, answer, now);
    }
    SettleEnds(s1, id, taken);
  }

  lemma {:induction false} TakenIfAllAccept(s: Cluster, targets: seq<NodeId>, id: JobId, answer: NodeId -> Outcome,
      now: real)
    requires Keyed(s) && forall n :: n in targets ==> n in s.nodes && answer(n).Accepted?
    ensures DispatchAll(s, targets, id, answer, now).1 == targets
    ensures Keyed(DispatchAll(s, targets, id, answer, now).0)
    ensures DispatchAll(s, targets, id, answer, now).0.nodes.Keys == s.nodes.Keys
  {
    if targets != [] {
      TakenIfAllAccept(s, targets[..|targets| - 1], id, answer, now);
      assert targets == targets[..|targets| - 1] + [targets[|targets| - 1]];
    }
  }

  lemma SettleEnds(s: Cluster, id: JobId, taken: seq<NodeId>)
    requires id in s.jobs && s.jobs[id].id == id && id !in s.queue && s.jobs[id].attempts <= 3
        && s.jobs[id].status == Running
    ensures var s' := Settle(s, id, taken);
      && id in s'.jobs && s'.nodes == s.nodes && s'.jobs[id].attempts == s.jobs[id].attempts
      && (s'.jobs[id].status == Running <==> |taken| >= s.jobs[id].requiredNodes)
      && (s'.jobs[id].status != Running ==>
          if s.jobs[id].attempts < 3 then s'.jobs[id].status == Queued else s'.jobs[id].status == Failed)
      && s'.queue == s.queue + (if s'.jobs[id].status == Queued then [id] else [])
  {
  }

  lemma {:induction false} NoMoreThan(xs: seq<NodeId>, ys: seq<NodeId>)
    requires Distinct(xs) && forall x :: x in xs ==> x in ys
    ensures |xs| <= |ys|
    decreases |xs|
  {
    if xs != [] {
      var x := xs[|xs| - 1];
      assert x in xs;
      var i :| 0 <= i < |ys| && ys[i] == x;
      var others := ys[..i] + ys[i + 1..];
      forall z | z in xs[..|xs| - 1]
        ensures z in others
      {
        assert z in ys && z != x;
      }
      NoMoreThan(xs[..|xs| - 1], others);
    }
  }

  /** There is a best choice exactly if the ranking finds as many nodes as the job asks for. */
  lemma ChoiceExistsIff(s: Cluster, id: JobId, order: seq<NodeId>)
    requires Keyed(s) && id in s.jobs && Enumerates(order, s.nodes.Keys)
    ensures (exists chosen :: BestChoice(s, s.jobs[id], chosen)) <==>
        |Candidates(s, id, order)| >= s.jobs[id].requiredNodes
  {
    var targets := Candidates(s, id, order);
    if |targets| >= s.jobs[id].requiredNodes {
      ChosenAreBest(s, id, order);
    } else if chosen :| BestChoice(s, s.jobs[id], chosen) {
      ListedNodes(s, order);
      SelectionIsBest(s.jobs[id], Listed(s.nodes, order));
      forall n | n in chosen
        ensures n in Ids(targets)
      {
        assert s.nodes[n] in Listed(s.nodes, order) && Eligible(s.nodes[n], s.jobs[id]) && s.nodes[n] in targets;
        var i :| 0 <= i < |targets| && targets[i] == s.nodes[n];
        assert Ids(targets)[i] == n;
      }
      NoMoreThan(chosen, Ids(targets));
    }
  }

  /** A round drops a completed head; otherwise it attempts it with a best choice, or puts it back if there is none. */
  lemma RoundOutcome(s: Cluster, round: Round, now: real)
    requires Inv(s) && round.leader && s.queue != [] && Enumerates(round.order, s.nodes.Keys)
    ensures var head, s', rest := s.queue[0], After(s, round, now), DropHead(s);
      && head in s.jobs && head in s'.jobs
      && (s.jobs[head].status == Completed ==> s' == rest)
      && (s.jobs[head].status != Completed && !(exists chosen :: BestChoice(s, s.jobs[head], chosen)) ==>
            s'.nodes == s.nodes && s'.jobs == s.jobs[head := s.jobs[head].(status := Queued)]
                && s'.queue == rest.queue + [head])
      && (s.jobs[head].status != Completed && (exists chosen :: BestChoice(s, s.jobs[head], chosen)) ==>
            exists chosen :: BestChoice(s, s.jobs[head], chosen) && AttemptEnds(rest, s', head, chosen, round.answer))
  {
    DropHeadKeeps(s);
    var head, rest := s.queue[0], DropHead(s);
    assert Bounded(s, head) && Placed(s, head) && Bounded(rest, head);
    ChoiceExistsIff(s, head, round.order);
    assert Candidates(rest, head, round.order) == Candidates(s, head, round.order);
    if s.jobs[head].status != Completed && |Candidates(s, head, round.order)| >= s.jobs[head].requiredNodes {
      ChosenAreBest(rest, head, round.order);
      StartEnds(rest, head, round.order, round.answer, now);
      ChosenAreBest(s, head, round.order);
    } else if s.jobs[head].status != Completed {
      StartIsDispatchAndSettle(rest, head, round.order, round.answer, now);
    }
  }

  // ----- Arrival order ---------------------------------------------------------------------------

  /** `added` was appended, then `popped` ids were taken off the front. */
  ghost predicate Served(before: seq<JobId>, added: seq<JobId>, popped: nat, after: seq<JobId>) {
    popped <= |before + added| && after == (before + added)[popped..]
  }

  /** Ids were only appended behind, and only taken off the front. */
  ghost predicate Advances(before: seq<JobId>, after: seq<JobId>) {
    exists added, popped: nat :: Served(before, added, popped, after)
  }

  lemma AdvanceAppend(before: seq<JobId>, added: seq<JobId>)
    ensures Advances(before, before + added)
  {
    assert Served(before, added, 0, before + added);
  }

  lemma ServedTwice(a: seq<JobId>, x: seq<JobId>, p: nat, b: seq<JobId>, y: seq<JobId>, q: nat, c: seq<JobId>)
    requires Served(a, x, p, b) && Served(b, y, q, c)
    ensures Served(a, x + y, p + q, c)
  {
    var all := a + (x + y);
    assert all == a + x + y && b + y == all[p..];
    assert all[p..][q..] == all[p + q..];
  }

  lemma AdvanceTwice(a: seq<JobId>, b: seq<JobId>, c: seq<JobId>)
    requires Advances(a, b) && Advances(b, c)
    ensures Advances(a, c)
  {
    var x, p: nat :| Served(a, x, p, b);
    var y, q: nat :| Served(b, y, q, c);
    ServedTwice(a, x, p, b, y, q, c);
  }

  lemma RequeueAdvances(s: Cluster, id: JobId)
    requires id in s.jobs
    ensures Advances(s.queue, RequeueOrFail(s, id).queue)
  {
    AdvanceAppend(s.queue, []);
    AdvanceAppend(s.queue, [id]);
    assert s.queue + [] == s.queue;
  }

  lemma {:induction false} RequeueAllAdvances(s: Cluster, ids: seq<JobId>)
    ensures Advances(s.queue, RequeueAll(s, ids).queue)
  {
    if ids == [] {
      AdvanceAppend(s.queue, []);
      assert s.queue + [] == s.queue;
    } else {
      var most, id := RequeueAll(s, ids[..|ids| - 1]), ids[|ids| - 1];
      RequeueAllAdvances(s, ids[..|ids| - 1]);
      if id in most.jobs {
        RequeueAdvances(most, id);
        AdvanceTwice(s.queue, most.queue, RequeueOrFail(most, id).queue);
      }
    }
  }

  lemma {:induction false} CheckAdvances(s: Cluster, order: seq<NodeId>, now: real)
    ensures Advances(s.queue, CheckNodes(s, order, now).queue)
  {
    if order == [] {
      AdvanceAppend(s.queue, []);
      assert s.queue + [] == s.queue;
    } else {
      var most, n := CheckNodes(s, order[..|order| - 1], now), order[|order| - 1];
      CheckAdvances(s, order[..|order| - 1], now);
      if n in most.nodes && Dead(most.nodes[n], now) {
        RequeueAllAdvances(RemoveNode(most, n), most.nodes[n].runningJobs);
        AdvanceTwice(s.queue, most.queue, CheckNodes(s, order, now).queue);
      }
    }
  }

  lemma RoundAdvances(s: Cluster, round: Round, now: real)
    requires Inv(s) && Enumerates(round.order, s.nodes.Keys)
    ensures Advances(s.queue, After(s, round, now).queue)
  {
    AdvanceAppend(s.queue, []);
    assert s.queue + [] == s.queue;
    if round.leader && s.queue != [] {
      RoundOutcome(s, round, now);
      var head, rest := s.queue[0], s.queue[1..];
      assert Served(s.queue, [], 1, rest) && Served(s.queue, [head], 1, rest + [head]) && rest + [] == rest;
    }
  }

  /** Every step only appends to the queue and pops from its front: of two queued jobs, the earlier is popped first. */
  lemma StepAdvances(s: Cluster, step: Step, now: real)
    requires Inv(s) && Allowed(s, step)
    ensures Advances(s.queue, Next(s, step, now).queue)
  {
    AdvanceAppend(s.queue, []);
    assert s.queue + [] == s.queue;
    match step
    case Submit(id, required, power, gpu, round) =>
      var s1 := EnqueueJob(s, NewJob(id, required, power, gpu));
      EnqueueKeeps(s, id, required, power, gpu);
      AdvanceAppend(s.queue, [id]);
      RoundAdvances(s1, round, now);
      AdvanceTwice(s.queue, s1.queue, Next(s, step, now).queue);
    case Schedule(round) =>
      RoundAdvances(s, round, now);
    case Result(from, id, ok, beta, round) =>
      if id in s.jobs {
        var s1 := RecordResult(s, from, id, ok, beta, now);
        ResultKeeps(s, from, id, ok, beta, now);
        ResultKeepsNodes(s, from, id, ok, beta, now);
        ResultAdvances(s, from, id, ok, beta, now);
        RoundAdvances(s1, round, now);
        AdvanceTwice(s.queue, s1.queue, Next(s, step, now).queue);
      }
    case Beat(_, _, _, _, _, _) =>
    case Register(_, _) =>
    case Check(order) =>
      CheckAdvances(s, order, now);
    case Reboot =>
      RestartRestores(s);
  }

  lemma ResultAdvances(s: Cluster, from: NodeId, id: JobId, ok: bool, beta: real, now: real)
    requires Inv(s) && id in s.jobs
    ensures Advances(s.queue, RecordResult(s, from, id, ok, beta, now).queue)
  {
    AdvanceAppend(s.queue, []);
    assert s.queue + [] == s.queue;
    var s1 := MarkFinished(s, id, ok);
    var s2 := if from in s1.nodes then TouchNode(s1, Credited(s1.nodes[from], ok, beta), now) else s1;
    UnloadKeepsJobs(s2, s2.jobs[id].assignedNodes, id, now);
    RequeueAdvances(UnloadAll(s2, s2.jobs[id].assignedNodes, id, now), id);
  }

  /** Over every run, the queue is served in arrival order: later queues are what is left of one growing list. */
  lemma {:induction false} RunAdvances(steps: seq<(Step, real)>, k: nat)
    requires Run(steps) && k <= |steps|
    ensures Run(steps[..k]) && Advances(Exec(steps[..k]).queue, Exec(steps).queue)
    decreases |steps|
  {
    if k == |steps| {
      assert steps[..k] == steps;
      AdvanceAppend(Exec(steps).queue, []);
      assert Exec(steps).queue + [] == Exec(steps).queue;
    } else {
      var rest := steps[..|steps| - 1];
      assert rest[..k] == steps[..k];
      RunAdvances(rest, k);
      ReachableInv(rest);
      StepAdvances(Exec(rest), steps[|steps| - 1].0, steps[|steps| - 1].1);
      AdvanceTwice(Exec(steps[..k]).queue, Exec(rest).queue, Exec(steps).queue);
    }
  }

  /** If the earlier of two queued jobs still stands where it stood, so does the later. */
  lemma EarlierGoesFirst(before: seq<JobId>, added: seq<JobId>, popped: nat, i: nat, j: nat)
    requires popped <= |before + added| && i < j < |before|
    ensures popped <= i ==>
      j - popped < |(before + added)[popped..]| && (before + added)[popped..][i - popped] == before[i]
      && (before + added)[popped..][j - popped] == before[j]
  {
  }

  // ----- Heartbeats, registration, submission ----------------------------------------------------

  /** A heartbeat replaces what its node reports, and nothing else. */
  lemma BeatReplaces(s: Cluster, step: Step, now: real)
    requires step.Beat? && step.from in s.nodes && Keyed(s)
    ensures var s' := Next(s, step, now);
      && s'.jobs == s.jobs && s'.queue == s.queue && s'.nodes.Keys == s.nodes.Keys
      && (forall n :: n in s.nodes && n != step.from ==> s'.nodes[n] == s.nodes[n])
      && var a, b := s.nodes[step.from], s'.nodes[step.from];
      && b.healthy && b.lastSeen == now && b.currentLoad == step.load && b.avgLatencyMs == step.latencyMs
      && b.hasGpu == a.hasGpu && b.jobsOk == a.jobsOk && b.jobsFailed == a.jobsFailed
      && b.runningJobs == (match step.running case Some(ids) => ids case None => a.runningJobs)
      && b.queueSize == (match step.queueSize case Some(size) => size case None => |b.runningJobs|)
      && b.loadEma - a.loadEma == step.beta * (step.load - a.loadEma)
  {
  }

  /** A node that registers is healthy and seen; a known one keeps everything but its GPU. */
  lemma RegisterKeepsKnown(s: Cluster, n: NodeId, hasGpu: bool, now: real)
    requires n in s.nodes
    ensures var s' := Next(s, Register(n, hasGpu), now);
      && s'.jobs == s.jobs && s'.queue == s.queue
      && s'.nodes == s.nodes[n := s.nodes[n].(nodeId := n, hasGpu := hasGpu, healthy := true, lastSeen := now)]
  {
  }

  /** A new one starts idle. */
  lemma RegisterStartsIdle(s: Cluster, n: NodeId, hasGpu: bool, now: real)
    requires n !in s.nodes
    ensures var s' := Next(s, Register(n, hasGpu), now);
      && s'.jobs == s.jobs && s'.queue == s.queue
      && s'.nodes == s.nodes[n := NodeState(n, hasGpu, 0.0, true, [], now, 0.0, 0, 0, 0, 0.0)]
  {
  }

  /** A submitted job is on record as asked for, queued last and without an attempt. */
  lemma SubmitRecords(s: Cluster, id: JobId, required: nat, power: Power, gpu: bool)
    requires id !in s.jobs && id !in s.queue
    ensures var s' := EnqueueJob(s, NewJob(id, required, power, gpu));
      && s'.queue == s.queue + [id] && s'.nodes == s.nodes && s'.jobs == s.jobs[id := s'.jobs[id]]
      && s'.jobs[id].id == id && s'.jobs[id].requiredNodes == required && s'.jobs[id].power == power
      && s'.jobs[id].gpuRequired == gpu && s'.jobs[id].status == Queued
      && s'.jobs[id].attempts == 0 && s'.jobs[id].assignedNodes == []
  {
  }
}

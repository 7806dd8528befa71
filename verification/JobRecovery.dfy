/** No running job is lost track of, dead nodes give their jobs back, and attempts run out for good. */
module JobRecovery {
  import opened Collections
  import opened NodeRanking
  import opened JobProtocol
  import opened JobSafety

  ghost predicate OnSomeNode(nodes: map<NodeId, NodeState>, id: JobId) {
    exists n :: n in nodes && id in nodes[n].runningJobs
  }

  /** A running job is listed on some registered node. */
  ghost predicate Tracked(s: Cluster, id: JobId)
    requires id in s.jobs
  {
    s.jobs[id].status == Running ==> OnSomeNode(s.nodes, id)
  }

  ghost predicate AllTrackedBut(s: Cluster, open: iset<JobId>) {
    forall id {:trigger Tracked(s, id)} :: id in s.jobs && id !in open ==> Tracked(s, id)
  }

  ghost predicate AllTracked(s: Cluster) {
    AllTrackedBut(s, iset{})
  }

  /** A heartbeat list keeps the running jobs that the node was known to have. */
  ghost predicate Honest(s: Cluster, step: Step) {
    step.Beat? && step.running.Some? && step.from in s.nodes ==>
      forall id :: id in s.nodes[step.from].runningJobs && id in s.jobs && s.jobs[id].status == Running ==>
          id in step.running.value
  }

  // ----- Listings --------------------------------------------------------------------------------

  /** `id` is listed on every node of `b` that listed it in `a`. */
  ghost predicate KeepsListing(a: map<NodeId, NodeState>, b: map<NodeId, NodeState>, id: JobId) {
    forall n :: n in a && id in a[n].runningJobs ==> n in b && id in b[n].runningJobs
  }

  lemma ListingKept(a: map<NodeId, NodeState>, b: map<NodeId, NodeState>, id: JobId)
    requires KeepsListing(a, b, id) && OnSomeNode(a, id)
    ensures OnSomeNode(b, id)
  {
    var n :| n in a && id in a[n].runningJobs;
    assert n in b && id in b[n].runningJobs;
  }

  lemma ListingKeptTwice(a: map<NodeId, NodeState>, b: map<NodeId, NodeState>, c: map<NodeId, NodeState>, id: JobId)
    requires KeepsListing(a, b, id) && KeepsListing(b, c, id)
    ensures KeepsListing(a, c, id)
  {
  }

  lemma TouchKeepsListing(s: Cluster, node: NodeState, now: real, id: JobId)
    requires node.nodeId in s.nodes && id in s.nodes[node.nodeId].runningJobs ==> id in node.runningJobs
    ensures KeepsListing(s.nodes, TouchNode(s, node, now).nodes, id)
  {
  }

  lemma TrackedCarriesOver(s: Cluster, s': Cluster, open: iset<JobId>, open': iset<JobId>)
    requires AllTrackedBut(s, open)
    requires forall id :: id in s'.jobs && id !in open' && s'.jobs[id].status == Running ==>
               id in s.jobs && id !in open && s.jobs[id].status == Running && KeepsListing(s.nodes, s'.nodes, id)
    ensures AllTrackedBut(s', open')
  {
    forall id | id in s'.jobs && id !in open'
      ensures Tracked(s', id)
    {
      if s'.jobs[id].status == Running {
        assert Tracked(s, id);
        ListingKept(s.nodes, s'.nodes, id);
      }
    }
  }

  lemma RequeueTracks(s: Cluster, open: iset<JobId>, id: JobId)
    requires AllTrackedBut(s, open) && id in s.jobs && s.jobs[id].id == id
    ensures AllTrackedBut(RequeueOrFail(s, id), open - iset{id})
  {
    TrackedCarriesOver(s, RequeueOrFail(s, id), open, open - iset{id});
  }

  lemma {:induction false} RequeueAllTracks(s: Cluster, open: iset<JobId>, ids: seq<JobId>)
    requires Inv(s) && AllTrackedBut(s, open)
    ensures AllTrackedBut(RequeueAll(s, ids), open - iset id | id in ids)
  {
    if ids == [] {
      assert open - (iset id | id in ids) == open;
    } else {
      var most, id := ids[..|ids| - 1], ids[|ids| - 1];
      assert ids == most + [id];
      RequeueAllTracks(s, open, most);
      RequeueAllKeeps(s, most);
      var m := RequeueAll(s, most);
      var open1 := open - iset j | j in most;
      assert open - (iset j | j in ids) == open1 - iset{id};
      if id in m.jobs {
        assert Bounded(m, id);
        RequeueTracks(m, open1, id);
      } else {
        TrackedCarriesOver(m, m, open1, open1 - iset{id});
      }
    }
  }

  lemma {:induction false} DispatchLists(s: Cluster, targets: seq<NodeId>, id: JobId, answer: NodeId -> Outcome,
      now: real)
    requires Keyed(s)
    ensures var (s1, taken) := DispatchAll(s, targets, id, answer, now);
      && Keyed(s1)
      && (forall j :: KeepsListing(s.nodes, s1.nodes, j))
      && (forall n :: n in taken ==> n in s1.nodes && id in s1.nodes[n].runningJobs)
  {
    if targets != [] {
      DispatchLists(s, targets[..|targets| - 1], id, answer, now);
      var (most, _) := DispatchAll(s, targets[..|targets| - 1], id, answer, now);
      var s1 := DispatchAll(s, targets, id, answer, now).0;
      var n := targets[|targets| - 1];
      forall j
        ensures KeepsListing(s.nodes, s1.nodes, j)
      {
        if n in most.nodes && !answer(n).Refused? {
          TouchKeepsListing(most, Loaded(most.nodes[n], id, answer(n).latencyMs), now, j);
        }
        ListingKeptTwice(s.nodes, most.nodes, s1.nodes, j);
      }
    }
  }

  lemma StartTracks(s: Cluster, id: JobId, order: seq<NodeId>, answer: NodeId -> Outcome, now: real)
    requires InvBut(s, {id}) && id in s.jobs && AllTracked(s)
    ensures AllTracked(Start(s, id, order, answer, now))
  {
    assert Bounded(s, id);
    assert iset{} - iset{id} == iset{} && iset{id} - iset{id} == iset{};
    var targets := Candidates(s, id, order);
    if |targets| < s.jobs[id].requiredNodes {
      RequeueTracks(s, iset{}, id);
    } else {
      var s0 := MarkRunning(s, id);
      DispatchLists(s0, Ids(targets), id, answer, now);
      DispatchKeepsJobs(s0, Ids(targets), id, answer, now);
      var (s1, taken) := DispatchAll(s0, Ids(targets), id, answer, now);
      TrackedCarriesOver(s, s1, iset{}, iset{id});
      if |taken| >= s1.jobs[id].requiredNodes {
        assert taken[0] in taken;
        var s2 := Start(s, id, order, answer, now);
        forall j | j in s2.jobs
          ensures Tracked(s2, j)
        {
          assert j != id ==> Tracked(s1, j);
        }
      } else {
        RequeueTracks(s1, iset{id}, id);
      }
    }
  }

  lemma ScheduleTracks(s: Cluster, leader: bool, order: seq<NodeId>, answer: NodeId -> Outcome, now: real)
    requires Inv(s) && AllTracked(s)
    ensures AllTracked(ScheduleOnce(s, leader, order, answer, now))
  {
    if leader && s.queue != [] {
      DropHeadKeeps(s);
      TrackedCarriesOver(s, DropHead(s), iset{}, iset{});
      if s.jobs[s.queue[0]].status !in {Completed, Failed} {
        StartTracks(DropHead(s), s.queue[0], order, answer, now);
      }
    }
  }

  lemma {:induction false} RemoveFirstKeepsOthers(ids: seq<JobId>, id: JobId)
    ensures forall j :: j in ids && j != id ==> j in RemoveFirst(ids, id)
  {
    if ids != [] && ids[0] != id {
      RemoveFirstKeepsOthers(ids[1..], id);
    }
  }

  lemma {:induction false} UnloadListings(s: Cluster, taken: seq<NodeId>, id: JobId, now: real)
    requires Keyed(s)
    ensures Keyed(UnloadAll(s, taken, id, now))
    ensures forall j :: j != id ==> KeepsListing(s.nodes, UnloadAll(s, taken, id, now).nodes, j)
  {
    if taken != [] {
      UnloadListings(s, taken[..|taken| - 1], id, now);
      var most := UnloadAll(s, taken[..|taken| - 1], id, now);
      var n := taken[|taken| - 1];
      var s1 := UnloadAll(s, taken, id, now);
      forall j | j != id
        ensures KeepsListing(s.nodes, s1.nodes, j)
      {
        if n in most.nodes {
          RemoveFirstKeepsOthers(most.nodes[n].runningJobs, id);
          TouchKeepsListing(most, Unloaded(most.nodes[n], id), now, j);
        }
        ListingKeptTwice(s.nodes, most.nodes, s1.nodes, j);
      }
    }
  }

  lemma ResultTracks(s: Cluster, from: NodeId, id: JobId, ok: bool, beta: real, now: real)
    requires Inv(s) && AllTracked(s) && id in s.jobs
    ensures AllTracked(RecordResult(s, from, id, ok, beta, now))
  {
    assert Bounded(s, id);
    var s1 := MarkFinished(s, id, ok);
    var s2 := if from in s1.nodes then TouchNode(s1, Credited(s1.nodes[from], ok, beta), now) else s1;
    UnloadListings(s2, s2.jobs[id].assignedNodes, id, now);
    UnloadKeepsJobs(s2, s2.jobs[id].assignedNodes, id, now);
    var s3 := UnloadAll(s2, s2.jobs[id].assignedNodes, id, now);
    TrackedCarriesOver(s, s2, iset{}, iset{});
    TrackedCarriesOver(s2, s3, iset{}, iset{});
    if !ok {
      RequeueTracks(s3, iset{}, id);
      assert iset{} - iset{id} == iset{};
    }
  }

  /** Removing a node and requeueing what it listed leaves no running job behind. */
  lemma RemovalTracks(s: Cluster, n: NodeId)
    requires Inv(s) && AllTracked(s) && n in s.nodes
    ensures AllTracked(RequeueAll(RemoveNode(s, n), s.nodes[n].runningJobs))
  {
    var lost := iset id | id in s.nodes[n].runningJobs;
    var s1 := RemoveNode(s, n);
    TrackedCarriesOver(s, s1, iset{}, lost);
    NodeChangeKeeps(s, s1, {});
    RequeueAllTracks(s1, lost, s.nodes[n].runningJobs);
    assert lost - lost == iset{};
  }

  lemma {:induction false} CheckTracks(s: Cluster, order: seq<NodeId>, now: real)
    requires Inv(s) && AllTracked(s)
    ensures AllTracked(CheckNodes(s, order, now))
  {
    if order != [] {
      CheckTracks(s, order[..|order| - 1], now);
      CheckKeeps(s, order[..|order| - 1], now);
      var most := CheckNodes(s, order[..|order| - 1], now);
      var n := order[|order| - 1];
      if n in most.nodes && Dead(most.nodes[n], now) {
        RemovalTracks(most, n);
      }
    }
  }

  lemma StepTracks(s: Cluster, step: Step, now: real)
    requires Inv(s) && AllTracked(s) && Allowed(s, step) && Honest(s, step)
    ensures AllTracked(Next(s, step, now))
  {
    match step
    case Submit(id, required, power, gpu, round) =>
      var s1 := EnqueueJob(s, NewJob(id, required, power, gpu));
      EnqueueKeeps(s, id, required, power, gpu);
      TrackedCarriesOver(s, s1, iset{}, iset{});
      ScheduleTracks(s1, round.leader, round.order, round.answer, now);
    case Schedule(round) =>
      ScheduleTracks(s, round.leader, round.order, round.answer, now);
    case Result(from, id, ok, beta, round) =>
      if id in s.jobs {
        ResultKeeps(s, from, id, ok, beta, now);
        ResultTracks(s, from, id, ok, beta, now);
        ScheduleTracks(RecordResult(s, from, id, ok, beta, now), round.leader, round.order, round.answer, now);
      }
    case Beat(from, load, running, queueSize, latencyMs, beta) =>
      TrackedCarriesOver(s, Next(s, step, now), iset{}, iset{});
    case Register(id, hasGpu) =>
      TrackedCarriesOver(s, Next(s, step, now), iset{}, iset{});
    case Check(order) =>
      CheckTracks(s, order, now);
    case Reboot =>
      RestartRestores(s);
  }

  /** Every running job that a heartbeat drops from its node's list is listed on another node. */
  ghost predicate Harmless(s: Cluster, step: Step) {
    step.Beat? && step.running.Some? && step.from in s.nodes ==>
      forall id :: id in s.jobs && s.jobs[id].status == Running && id in s.nodes[step.from].runningJobs ==>
        id in step.running.value || OnSomeNode(s.nodes - {step.from}, id)
  }

  /**
   Exactly when a heartbeat keeps running jobs tracked: every running job that it drops from its
   node's list is listed on another node.
   */
  lemma BeatTracksIff(s: Cluster, step: Step, now: real)
    requires Inv(s) && AllTracked(s) && step.Beat? && step.running.Some? && step.from in s.nodes
    ensures AllTracked(Next(s, step, now)) <==> Harmless(s, step)
  {
    var s' := Next(s, step, now);
    forall id | id in s.jobs && s.jobs[id].status == Running
      ensures Tracked(s', id) <==> id in step.running.value || OnSomeNode(s.nodes - {step.from}, id)
    {
      if id in step.running.value {
        assert id in s'.nodes[step.from].runningJobs;
      } else if OnSomeNode(s.nodes - {step.from}, id) {
        ListingKept(s.nodes - {step.from}, s'.nodes, id);
      } else {
        forall n | n in s'.nodes
          ensures id !in s'.nodes[n].runningJobs
        {
          if n != step.from {
            assert (s.nodes - {step.from})[n] == s'.nodes[n];
          }
        }
      }
    }
    forall id | id in s.jobs && s.jobs[id].status == Running && id !in s.nodes[step.from].runningJobs
      ensures OnSomeNode(s.nodes - {step.from}, id)
    {
      assert Tracked(s, id);
      var n :| n in s.nodes && id in s.nodes[n].runningJobs;
      assert n in s.nodes - {step.from} && id in (s.nodes - {step.from})[n].runningJobs;
    }
  }

  /** No other step loses track of a running job. */
  lemma StepTracksIff(s: Cluster, step: Step, now: real)
    requires Inv(s) && AllTracked(s) && Allowed(s, step)
    ensures AllTracked(Next(s, step, now)) <==> Harmless(s, step)
  {
    if step.Beat? && step.running.Some? && step.from in s.nodes {
      BeatTracksIff(s, step, now);
    } else {
      StepTracks(s, step, now);
    }
  }

  ghost predicate HarmlessRun(steps: seq<(Step, real)>) {
    steps != [] ==> HarmlessRun(steps[..|steps| - 1]) && Harmless(Exec(steps[..|steps| - 1]), steps[|steps| - 1].0)
  }

  /** In every state of the run a running job is listed on some registered node. */
  ghost predicate AlwaysTracked(steps: seq<(Step, real)>) {
    AllTracked(Exec(steps)) && (steps != [] ==> AlwaysTracked(steps[..|steps| - 1]))
  }

  /** No job is ever stranded exactly if every heartbeat of the run is harmless. */
  lemma {:induction false} NeverStrandedIff(steps: seq<(Step, real)>)
    requires Run(steps)
    ensures AlwaysTracked(steps) <==> HarmlessRun(steps)
  {
    if steps != [] {
      var rest := steps[..|steps| - 1];
      NeverStrandedIff(rest);
      if AlwaysTracked(rest) {
        ReachableInv(rest);
        StepTracksIff(Exec(rest), steps[|steps| - 1].0, steps[|steps| - 1].1);
      }
    }
  }

  ghost predicate HonestRun(steps: seq<(Step, real)>) {
    steps != [] ==> HonestRun(steps[..|steps| - 1]) && Honest(Exec(steps[..|steps| - 1]), steps[|steps| - 1].0)
  }

  /** No stranded job: in every reachable state a running job is listed on some registered node. */
  lemma {:induction false} NoStrandedJob(steps: seq<(Step, real)>)
    requires Run(steps) && HonestRun(steps)
    ensures AllTracked(Exec(steps))
  {
    if steps != [] {
      NoStrandedJob(steps[..|steps| - 1]);
      ReachableInv(steps[..|steps| - 1]);
      StepTracks(Exec(steps[..|steps| - 1]), steps[|steps| - 1].0, steps[|steps| - 1].1);
    }
  }

  // ----- What a health check gives back ----------------------------------------------------------

  /** The job waits in the queue again, or has failed with no attempts left. */
  ghost predicate Recovered(s: Cluster, id: JobId)
    requires id in s.jobs
  {
    || (s.jobs[id].status == Queued && id in s.queue && s.jobs[id].attempts < 3)
    || (s.jobs[id].status == Failed && s.jobs[id].attempts == 3)
  }

  lemma RequeueRecovers(s: Cluster, id: JobId)
    requires Inv(s) && id in s.jobs
    ensures Recovered(RequeueOrFail(s, id), id)
    ensures forall j :: j in s.jobs && Recovered(s, j) ==> Recovered(RequeueOrFail(s, id), j)
  {
    assert Bounded(s, id);
  }

  lemma {:induction false} RequeueAllRecovers(s: Cluster, ids: seq<JobId>)
    requires Inv(s)
    ensures Inv(RequeueAll(s, ids)) && RequeueAll(s, ids).nodes == s.nodes
        && RequeueAll(s, ids).jobs.Keys == s.jobs.Keys
    ensures forall id :: id in s.jobs && (id in ids || Recovered(s, id)) ==> Recovered(RequeueAll(s, ids), id)
  {
    RequeueAllKeeps(s, ids);
    if ids != [] {
      var most, id := ids[..|ids| - 1], ids[|ids| - 1];
      assert ids == most + [id];
      RequeueAllRecovers(s, most);
      if id in s.jobs {
        RequeueRecovers(RequeueAll(s, most), id);
      }
    }
  }

  ghost function Survivors(nodes: map<NodeId, NodeState>, order: seq<NodeId>, now: real): map<NodeId, NodeState> {
    map n | n in nodes && !(n in order && Dead(nodes[n], now)) :: nodes[n]
  }

  ghost predicate ListedOnDead(s: Cluster, order: seq<NodeId>, now: real, id: JobId) {
    exists n :: n in order && n in s.nodes && Dead(s.nodes[n], now) && id in s.nodes[n].runningJobs
  }

  /** One node's turn in a health check. */
  lemma CheckOneRecovers(s: Cluster, n: NodeId, now: real)
    requires Inv(s)
    ensures var s' := CheckNodes(s, [n], now);
      && s'.nodes == (if n in s.nodes && Dead(s.nodes[n], now) then s.nodes - {n} else s.nodes)
      && s'.jobs.Keys == s.jobs.Keys
      && (forall id :: id in s.jobs && Recovered(s, id) ==> Recovered(s', id))
      && (forall id :: id in s.jobs && ListedOnDead(s, [n], now, id) ==> Recovered(s', id))
  {
    assert CheckNodes(s, [n][..0], now) == s;
    if n in s.nodes && Dead(s.nodes[n], now) {
      var s1 := RemoveNode(s, n);
      NodeChangeKeeps(s, s1, {});
      RequeueAllRecovers(s1, s.nodes[n].runningJobs);
      assert forall id :: id in s.jobs && Recovered(s, id) ==> Recovered(s1, id);
    }
  }

  lemma CheckSplits(s: Cluster, order: seq<NodeId>, n: NodeId, now: real)
    ensures CheckNodes(s, order + [n], now) == CheckNodes(CheckNodes(s, order, now), [n], now)
  {
    var m := CheckNodes(s, order, now);
    assert (order + [n])[..|order|] == order && [n][..0] == [];
    assert CheckNodes(m, [n][..0], now) == m;
  }

  /**
   A health check removes exactly the dead nodes, and every job listed on one of them is either
   back in the queue or has failed for good.
   */
  lemma {:induction false} CheckRecovers(s: Cluster, order: seq<NodeId>, now: real)
    requires Inv(s)
    ensures CheckNodes(s, order, now).nodes == Survivors(s.nodes, order, now)
    ensures CheckNodes(s, order, now).jobs.Keys == s.jobs.Keys
    ensures forall id :: id in s.jobs && ListedOnDead(s, order, now, id) ==> Recovered(CheckNodes(s, order, now), id)
  {
    if order != [] {
      var rest, n := order[..|order| - 1], order[|order| - 1];
      assert order == rest + [n];
      CheckRecovers(s, rest, now);
      CheckKeeps(s, rest, now);
      var most := CheckNodes(s, rest, now);
      CheckSplits(s, rest, n, now);
      CheckOneRecovers(most, n, now);
      forall id | id in s.jobs && ListedOnDead(s, order, now, id)
        ensures Recovered(CheckNodes(s, order, now), id)
      {
        var m :| m in order && m in s.nodes && Dead(s.nodes[m], now) && id in s.nodes[m].runningJobs;
        assert m in rest ==> ListedOnDead(s, rest, now, id);
        assert m !in rest ==> m == n && m in most.nodes && m in [n] && ListedOnDead(most, [n], now, id);
      }
    }
  }

  // ----- Attempts run out ------------------------------------------------------------------------

  /** Jobs are never dropped, keep what they asked for, and attempts are never taken back. */
  ghost predicate Later(s: Cluster, s': Cluster) {
    forall id :: id in s.jobs ==>
      && id in s'.jobs
      && s'.jobs[id].requiredNodes == s.jobs[id].requiredNodes
      && s.jobs[id].attempts <= s'.jobs[id].attempts
  }

  lemma LaterTwice(a: Cluster, b: Cluster, c: Cluster)
    requires Later(a, b) && Later(b, c)
    ensures Later(a, c)
  {
  }

  lemma SaveLater(s: Cluster, job: JobRecord)
    requires job.id in s.jobs ==>
      job.requiredNodes == s.jobs[job.id].requiredNodes && s.jobs[job.id].attempts <= job.attempts
    ensures Later(s, SaveJob(s, job))
  {
  }

  lemma RequeueLater(s: Cluster, id: JobId)
    requires id in s.jobs && s.jobs[id].id == id
    ensures Later(s, RequeueOrFail(s, id))
  {
    SaveLater(s, s.jobs[id].(status := Failed));
    SaveLater(s, s.jobs[id].(status := Queued));
  }

  lemma {:induction false} RequeueAllLater(s: Cluster, ids: seq<JobId>)
    requires Inv(s)
    ensures Later(s, RequeueAll(s, ids))
  {
    if ids != [] {
      RequeueAllLater(s, ids[..|ids| - 1]);
      RequeueAllKeeps(s, ids[..|ids| - 1]);
      var most := RequeueAll(s, ids[..|ids| - 1]);
      if ids[|ids| - 1] in most.jobs {
        assert Bounded(most, ids[|ids| - 1]);
        RequeueLater(most, ids[|ids| - 1]);
        LaterTwice(s, most, RequeueAll(s, ids));
      }
    }
  }

  lemma {:induction false} CheckLater(s: Cluster, order: seq<NodeId>, now: real)
    requires Inv(s)
    ensures Later(s, CheckNodes(s, order, now))
  {
    if order != [] {
      CheckLater(s, order[..|order| - 1], now);
      CheckKeeps(s, order[..|order| - 1], now);
      var most := CheckNodes(s, order[..|order| - 1], now);
      var n := order[|order| - 1];
      if n in most.nodes && Dead(most.nodes[n], now) {
        NodeChangeKeeps(most, RemoveNode(most, n), {});
        RequeueAllLater(RemoveNode(most, n), most.nodes[n].runningJobs);
      }
    }
  }

  lemma StartLater(s: Cluster, id: JobId, order: seq<NodeId>, answer: NodeId -> Outcome, now: real)
    requires id in s.jobs && s.jobs[id].id == id
    ensures Later(s, Start(s, id, order, answer, now))
  {
    var targets := Candidates(s, id, order);
    if |targets| < s.jobs[id].requiredNodes {
      RequeueLater(s, id);
    } else {
      var s0 := MarkRunning(s, id);
      SaveLater(s, s.jobs[id].(status := Running, attempts := s.jobs[id].attempts + 1));
      DispatchKeepsJobs(s0, Ids(targets), id, answer, now);
      var (s1, taken) := DispatchAll(s0, Ids(targets), id, answer, now);
      SaveLater(s1, s1.jobs[id].(assignedNodes := taken));
      RequeueLater(s1, id);
      LaterTwice(s, s1, Start(s, id, order, answer, now));
    }
  }

  lemma ScheduleLater(s: Cluster, leader: bool, order: seq<NodeId>, answer: NodeId -> Outcome, now: real)
    requires Inv(s)
    ensures Later(s, ScheduleOnce(s, leader, order, answer, now))
  {
    if leader && s.queue != [] {
      DropHeadKeeps(s);
      var id, s1 := s.queue[0], DropHead(s);
      assert Bounded(s1, id);
      if s1.jobs[id].status !in {Completed, Failed} {
        StartLater(s1, id, order, answer, now);
        LaterTwice(s, s1, Start(s1, id, order, answer, now));
      }
    }
  }

  lemma ResultLater(s: Cluster, from: NodeId, id: JobId, ok: bool, beta: real, now: real)
    requires Inv(s) && id in s.jobs
    ensures Later(s, RecordResult(s, from, id, ok, beta, now))
  {
    assert Bounded(s, id);
    SaveLater(s, s.jobs[id].(status := if ok then Completed else Failed));
    var s1 := MarkFinished(s, id, ok);
    var s2 := if from in s1.nodes then TouchNode(s1, Credited(s1.nodes[from], ok, beta), now) else s1;
    UnloadKeepsJobs(s2, s2.jobs[id].assignedNodes, id, now);
    var s3 := UnloadAll(s2, s2.jobs[id].assignedNodes, id, now);
    RequeueLater(s3, id);
    LaterTwice(s, s3, RecordResult(s, from, id, ok, beta, now));
  }

  lemma StepLater(s: Cluster, step: Step, now: real)
    requires Inv(s) && Allowed(s, step)
    ensures Later(s, Next(s, step, now))
  {
    match step
    case Submit(id, required, power, gpu, round) =>
      EnqueueKeeps(s, id, required, power, gpu);
      ScheduleLater(EnqueueJob(s, NewJob(id, required, power, gpu)), round.leader, round.order, round.answer, now);
      LaterTwice(s, EnqueueJob(s, NewJob(id, required, power, gpu)), Next(s, step, now));
    case Schedule(round) =>
      ScheduleLater(s, round.leader, round.order, round.answer, now);
    case Result(from, id, ok, beta, round) =>
      if id in s.jobs {
        ResultKeeps(s, from, id, ok, beta, now);
        ResultLater(s, from, id, ok, beta, now);
        ScheduleLater(RecordResult(s, from, id, ok, beta, now), round.leader, round.order, round.answer, now);
        LaterTwice(s, RecordResult(s, from, id, ok, beta, now), Next(s, step, now));
      }
    case Beat(_, _, _, _, _, _) =>
    case Register(_, _) =>
    case Check(order) =>
      CheckLater(s, order, now);
    case Reboot =>
      RestartRestores(s);
  }

  lemma {:induction false} RunLater(steps: seq<(Step, real)>, k: nat)
    requires Run(steps) && k <= |steps|
    ensures Run(steps[..k]) && Later(Exec(steps[..k]), Exec(steps))
    decreases |steps|
  {
    if k == |steps| {
      assert steps[..k] == steps;
    } else {
      var rest := steps[..|steps| - 1];
      assert rest[..k] == steps[..k];
      RunLater(rest, k);
      ReachableInv(rest);
      StepLater(Exec(rest), steps[|steps| - 1].0, steps[|steps| - 1].1);
    }
  }

  /** A job that has used its three attempts is never queued again, however the run goes on. */
  lemma ExhaustedStaysOut(steps: seq<(Step, real)>, k: nat, id: JobId)
    requires Run(steps) && k <= |steps|
    requires id in Exec(steps[..k]).jobs && Exec(steps[..k]).jobs[id].attempts == 3
    ensures id in Exec(steps).jobs && Exec(steps).jobs[id].attempts == 3 && id !in Exec(steps).queue
  {
    RunLater(steps, k);
    ReachableStates(steps, id);
  }

  // ----- Where an attempt goes -------------------------------------------------------------------

  lemma {:induction false} ListedNodes(s: Cluster, order: seq<NodeId>)
    requires Keyed(s) && Distinct(order)
    ensures DistinctIds(Listed(s.nodes, order))
    ensures forall node :: node in Listed(s.nodes, order) <==>
        node.nodeId in order && node.nodeId in s.nodes && s.nodes[node.nodeId] == node
  {
    if order != [] {
      var rest, n := order[..|order| - 1], order[|order| - 1];
      assert order == rest + [n];
      ListedNodes(s, rest);
      assert n !in rest;
      forall i | 0 <= i < |Listed(s.nodes, rest)|
        ensures Listed(s.nodes, rest)[i].nodeId != n
      {
        assert Listed(s.nodes, rest)[i] in Listed(s.nodes, rest);
      }
    }
  }

  /**
   An attempt goes to distinct registered healthy eligible nodes, and no other such node scores
   better than one of them.
   */
  lemma AttemptUsesBestNodes(s: Cluster, id: JobId, order: seq<NodeId>)
    requires Keyed(s) && id in s.jobs && Distinct(order) && forall n :: n in s.nodes <==> n in order
    ensures var targets := Candidates(s, id, order);
      && DistinctIds(targets) && |targets| <= s.jobs[id].requiredNodes
      && (forall t :: t in targets ==> t.nodeId in s.nodes && s.nodes[t.nodeId] == t && Eligible(t, s.jobs[id]))
      && (forall t, n :: t in targets && n in s.nodes && Eligible(s.nodes[n], s.jobs[id]) && s.nodes[n] !in targets ==>
            NodeScore(s.nodes[n], s.jobs[id]) <= NodeScore(t, s.jobs[id]))
  {
    ListedNodes(s, order);
    SelectionIsBest(s.jobs[id], Listed(s.nodes, order));
    assert forall n :: n in s.nodes ==> s.nodes[n] in Listed(s.nodes, order);
  }
}

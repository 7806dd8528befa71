/**
 The federation controller's steps in the form they have in the source: loops that rewrite
 cluster and job records in the registry. Each is proved to take the federation step of the
 same name.
 */
module FederationController {
  import opened Collections
  import opened Options
  import opened ClusterScoring
  import F = Federation

  /** The table after writing the changed record of each listed key that calls for it, one after the other. */
  ghost function Written<K, V>(table: map<K, V>, order: seq<K>, changes: V -> bool, change: V -> V): map<K, V> {
    if order == [] then table
    else
      var rest, k := Written(table, order[..|order| - 1], changes, change), order[|order| - 1];
      if k in table && changes(table[k]) then rest[k := change(table[k])] else rest
  }

  lemma {:induction false} WrittenAt<K, V>(table: map<K, V>, order: seq<K>, changes: V -> bool, change: V -> V)
    ensures Written(table, order, changes, change).Keys == table.Keys
    ensures forall k :: k in table ==>
      Written(table, order, changes, change)[k] == if k in order && changes(table[k]) then change(table[k])
          else table[k]
  {
    if order != [] {
      WrittenAt(table, order[..|order| - 1], changes, change);
      assert order == order[..|order| - 1] + [order[|order| - 1]];
    }
  }

  /** When every key is listed, the writes amount to changing each record once. */
  lemma WrittenToAll<K, V>(table: map<K, V>, order: seq<K>, changes: V -> bool, change: V -> V)
    requires forall k :: k in table ==> k in order
    ensures Written(table, order, changes, change) == map k | k in table :: if changes(table[k]) then change(table[k])
        else table[k]
  {
    WrittenAt(table, order, changes, change);
  }

  lemma WrittenNext<K, V>(table: map<K, V>, order: seq<K>, i: nat, changes: V -> bool, change: V -> V)
    requires i < |order| && order[i] in table
    ensures var rest, k := Written(table, order[..i], changes, change), order[i];
      Written(table, order[..i + 1], changes, change) == if changes(table[k]) then rest[k := change(table[k])] else rest
  {
    assert order[..i + 1][..i] == order[..i];
  }

  lemma StaleNext(listed: map<ClusterId, ClusterRecord>, order: seq<ClusterId>, i: nat, now: real, timeout: real)
    requires i < |order| && order[i] in listed
    ensures var rest, k := F.StaleIds(listed, order[..i], now, timeout), order[i];
      F.StaleIds(listed, order[..i + 1], now, timeout) == if F.Stale(listed[k], now, timeout) then rest + [k] else rest
  {
    assert order[..i + 1][..i] == order[..i];
  }

  /**
   One cluster of the sweep: a live one that has beaten before, but not within the timeout, goes
   offline with one more miss.
   */
  method SweepOne(c: ClusterRecord, now: real, timeout: real) returns (silent: Option<ClusterRecord>)
    ensures silent.Some? <==> c.health != Offline && c.lastHeartbeat > 0.0 && now - c.lastHeartbeat > timeout
    ensures silent.Some? ==> silent.value == c.(health := Offline, misses := c.misses + 1) == F.Swept(c, now, timeout)
    ensures silent.Some? <==> F.Stale(c, now, timeout)
  {
    if c.health == Offline || c.lastHeartbeat <= 0.0 {
      return None;
    }
    if now - c.lastHeartbeat > timeout {
      return Some(c.(health := Offline, misses := c.misses + 1));
    }
    return None;
  }

  /** The loop of `sweep_stale_clusters`, over the clusters as listed before it. */
  method SweepList(listed: map<ClusterId, ClusterRecord>, order: seq<ClusterId>, now: real, timeout: real)
      returns (clusters: map<ClusterId, ClusterRecord>, offline: seq<ClusterId>)
    requires forall k :: k in order <==> k in listed
    ensures clusters == F.Sweep(listed, now, timeout)
    ensures offline == F.StaleIds(listed, order, now, timeout)
  {
    clusters, offline := listed, [];
    ghost var stale, swept := (c: ClusterRecord) => F.Stale(c, now, timeout),
        (c: ClusterRecord) => F.Swept(c, now, timeout);
    for i := 0 to |order|
      invariant clusters == Written(listed, order[..i], stale, swept)
      invariant offline == F.StaleIds(listed, order[..i], now, timeout)
    {
      WrittenNext(listed, order, i, stale, swept);
      StaleNext(listed, order, i, now, timeout);
      var k := order[i];
      var silent := SweepOne(listed[k], now, timeout);
      if silent.Some? {
        clusters := clusters[k := silent.value];
        offline := offline + [k];
      }
    }
    assert order[..|order|] == order;
    WrittenToAll(listed, order, stale, swept);
  }

  /**
   One job of the dead cluster goes to a cluster that none of the others outscores, or to none if
   none can be ranked.
   */
  method RerouteOne(job: GlobalJob, others: seq<ClusterRecord>)
      returns (moved: GlobalJob, target: Option<ClusterRecord>)
    ensures moved == F.Rerouted(job, others) && target == BestCluster(job, others)
    ensures moved == job.(status := moved.status, cluster := moved.cluster)
    ensures target.None? <==> forall c :: c in others ==> !Rankable(job, c)
    ensures target.None? ==> moved.status == Queued && moved.cluster == None
    ensures target.Some? ==>
      && moved.status == Migrated && moved.cluster == Some(target.value.id) && target.value in others
      && Live(target.value) && forall c :: c in others && Rankable(job, c) ==> Score(job, c) <= Score(job, target.value)
  {
    BestAmongRankable(job, others);
    target := BestCluster(job, others);
    if target == None {
      moved := job.(status := Queued, cluster := None);
    } else {
      moved := job.(status := Migrated, cluster := Some(target.value.id));
    }
  }

  /** What has to be pushed, in listing order: every orphan that found a cluster, with that cluster. */
  ghost function Pushes(listed: map<JobId, GlobalJob>, jobOrder: seq<JobId>, dead: ClusterId,
      others: seq<ClusterRecord>): seq<(GlobalJob, ClusterRecord)> {
    if jobOrder == [] then []
    else
      var id := jobOrder[|jobOrder| - 1];
      Pushes(listed, jobOrder[..|jobOrder| - 1], dead, others)
      + if id in listed && F.Orphaned(listed[id], dead) && BestCluster(listed[id], others).Some?
        then [(F.Rerouted(listed[id], others), BestCluster(listed[id], others).value)] else []
  }

  lemma PushesNext(listed: map<JobId, GlobalJob>, jobOrder: seq<JobId>, i: nat, dead: ClusterId,
      others: seq<ClusterRecord>)
    requires i < |jobOrder| && jobOrder[i] in listed
    ensures var rest, job := Pushes(listed, jobOrder[..i], dead, others), listed[jobOrder[i]];
      Pushes(listed, jobOrder[..i + 1], dead, others) ==
      if F.Orphaned(job, dead) && BestCluster(job, others).Some?
          then rest + [(F.Rerouted(job, others), BestCluster(job, others).value)] else rest
  {
    assert jobOrder[..i + 1][..i] == jobOrder[..i];
  }

  /** One push of the list comes from one orphan of the dead cluster. */
  ghost predicate PushOf(listed: map<JobId, GlobalJob>, id: JobId, dead: ClusterId, others: seq<ClusterRecord>,
      p: (GlobalJob, ClusterRecord)) {
    && id in listed && F.Orphaned(listed[id], dead)
    && BestCluster(listed[id], others) == Some(p.1) && p.1 in others
    && p.0 == listed[id].(status := Migrated, cluster := Some(p.1.id))
  }

  /** Every push is that of a listed orphan, and every listed orphan that found a cluster is pushed. */
  lemma {:induction false} PushesAre(listed: map<JobId, GlobalJob>, jobOrder: seq<JobId>, dead: ClusterId,
      others: seq<ClusterRecord>)
    ensures forall p :: p in Pushes(listed, jobOrder, dead, others) ==>
        exists id :: id in jobOrder && PushOf(listed, id, dead, others, p)
    ensures forall id ::
      id in jobOrder && id in listed && F.Orphaned(listed[id], dead) && BestCluster(listed[id], others).Some? ==>
      (F.Rerouted(listed[id], others), BestCluster(listed[id], others).value) in Pushes(listed, jobOrder, dead, others)
  {
    if jobOrder != [] {
      var most, id := jobOrder[..|jobOrder| - 1], jobOrder[|jobOrder| - 1];
      assert jobOrder == most + [id];
      PushesAre(listed, most, dead, others);
      forall p | p in Pushes(listed, jobOrder, dead, others)
        ensures exists k :: k in jobOrder && PushOf(listed, k, dead, others, p)
      {
        if p in Pushes(listed, most, dead, others) {
          var k :| k in most && PushOf(listed, k, dead, others, p);
          assert k in jobOrder;
        } else {
          BestAmongRankable(listed[id], others);
          assert PushOf(listed, id, dead, others, p);
        }
      }
    }
  }

  /** A job is rerouted exactly if it is in an open status and on the dead cluster. */
  lemma OpenOrphansMove(listed: map<JobId, GlobalJob>, dead: ClusterId, others: seq<ClusterRecord>)
    ensures (map id | id in listed :: if F.Orphaned(listed[id], dead) then F.Rerouted(listed[id], others)
        else listed[id])
      == map id | id in listed ::
           if listed[id].status in {Queued, Routed, Running, Migrated} && listed[id].cluster == Some(dead)
           then F.Rerouted(listed[id], others) else listed[id]
  {
    forall id | id in listed
      ensures F.Orphaned(listed[id], dead) <==>
        listed[id].status in {Queued, Routed, Running, Migrated} && listed[id].cluster == Some(dead)
    {
    }
  }

  /** The loop of `reroute_jobs_from_dead_cluster`, over the jobs as listed before it. */
  method RerouteList(listed: map<JobId, GlobalJob>, jobOrder: seq<JobId>, dead: ClusterId, others: seq<ClusterRecord>)
      returns (jobs: map<JobId, GlobalJob>, rerouted: nat, pushes: seq<(GlobalJob, ClusterRecord)>)
    requires forall id :: id in jobOrder <==> id in listed
    ensures jobs == map id | id in listed :: if F.Orphaned(listed[id], dead) then F.Rerouted(listed[id], others)
        else listed[id]
    ensures pushes == Pushes(listed, jobOrder, dead, others) && rerouted == |pushes|
  {
    jobs, rerouted, pushes := listed, 0, [];
    ghost var orphaned, moves := (j: GlobalJob) => F.Orphaned(j, dead), (j: GlobalJob) => F.Rerouted(j, others);
    for i := 0 to |jobOrder|
      invariant jobs == Written(listed, jobOrder[..i], orphaned, moves)
      invariant pushes == Pushes(listed, jobOrder[..i], dead, others) && rerouted == |pushes|
    {
      WrittenNext(listed, jobOrder, i, orphaned, moves);
      PushesNext(listed, jobOrder, i, dead, others);
      var id := jobOrder[i];
      var job := listed[id];
      if job.cluster != Some(dead) || !F.Active(job) {
        continue;
      }
      var moved, target := RerouteOne(job, others);
      jobs := jobs[id := moved];
      if target.Some? {
        rerouted := rerouted + 1;
        pushes := pushes + [(moved, target.value)];
      }
    }
    assert jobOrder[..|jobOrder|] == jobOrder;
    WrittenToAll(listed, jobOrder, orphaned, moves);
  }

  // ----- All pushes of a watch iteration ---------------------------------------------------------

  /** A push for a job that was on one of the dead clusters and has found another. */
  ghost predicate PushedBy(swept: F.Fed, dead: seq<ClusterId>, live: seq<ClusterRecord>, id: JobId,
      p: (GlobalJob, ClusterRecord)) {
    && id in swept.jobs && F.Open(swept.jobs[id])
    && swept.jobs[id].cluster.Some? && swept.jobs[id].cluster.value in dead
    && BestCluster(swept.jobs[id], live) == Some(p.1) && p.0 == F.Rerouted(swept.jobs[id], live)
  }

  ghost predicate AllPushed(swept: F.Fed, dead: seq<ClusterId>, live: seq<ClusterRecord>,
      pushes: seq<(GlobalJob, ClusterRecord)>) {
    forall p :: p in pushes <==> exists id :: PushedBy(swept, dead, live, id, p)
  }

  /** The clusters of `dead` are registered and offline. */
  ghost predicate AllDead(swept: F.Fed, dead: seq<ClusterId>) {
    forall k :: k in dead ==> k in swept.clusters && !Live(swept.clusters[k])
  }

  lemma OnePushMore(swept: F.Fed, dead: seq<ClusterId>, d: ClusterId, order: seq<ClusterId>,
      jobs: map<JobId, GlobalJob>, id: JobId, p: (GlobalJob, ClusterRecord))
    requires F.Keyed(swept) && AllDead(swept, dead + [d]) && id in swept.jobs && id in jobs
    requires jobs[id] == F.Relocated(swept.jobs[id], dead, F.LiveClusters(swept.clusters, order))
    ensures var live := F.LiveClusters(swept.clusters, order);
      PushedBy(swept, dead + [d], live, id, p) <==> PushedBy(swept, dead, live, id, p) || PushOf(jobs, id, d, live, p)
  {
    var live, job := F.LiveClusters(swept.clusters, order), swept.jobs[id];
    assert d in dead + [d];
    if F.Active(job) && job.cluster.Some? && job.cluster.value in dead {
      F.RerouteLeaves(swept.clusters, order, job, d);
      assert job.cluster.value in dead + [d] && !F.Orphaned(jobs[id], d);
    } else {
      NewOrphanIsPushed(swept, dead, d, live, jobs, id, p);
    }
  }

  lemma NewOrphanIsPushed(swept: F.Fed, dead: seq<ClusterId>, d: ClusterId, live: seq<ClusterRecord>,
      jobs: map<JobId, GlobalJob>, id: JobId, p: (GlobalJob, ClusterRecord))
    requires id in swept.jobs && id in jobs && jobs[id] == swept.jobs[id]
    requires !(F.Open(swept.jobs[id]) && swept.jobs[id].cluster.Some? && swept.jobs[id].cluster.value in dead)
    ensures !PushedBy(swept, dead, live, id, p)
    ensures PushedBy(swept, dead + [d], live, id, p) <==> PushOf(jobs, id, d, live, p)
  {
    BestAmongRankable(swept.jobs[id], live);
    assert d in dead + [d];
  }

  /** One more dead cluster: its pushes are added. */
  lemma PushesGrow(swept: F.Fed, dead: seq<ClusterId>, d: ClusterId, order: seq<ClusterId>, listing: seq<JobId>,
                   pushes: seq<(GlobalJob, ClusterRecord)>)
    requires F.Keyed(swept) && Enumerates(order, swept.clusters.Keys) && Enumerates(listing, swept.jobs.Keys)
    requires AllDead(swept, dead + [d]) && AllPushed(swept, dead, F.LiveClusters(swept.clusters, order), pushes)
    ensures var jobs, others := F.RerouteAll(swept, dead, order).jobs, F.LiveOthers(swept.clusters, order, d);
      AllPushed(swept, dead + [d], F.LiveClusters(swept.clusters, order), pushes + Pushes(jobs, listing, d, others))
  {
    var jobs, live := F.RerouteAll(swept, dead, order).jobs, F.LiveClusters(swept.clusters, order);
    assert d in dead + [d];
    F.DeadIsNotLive(swept.clusters, order, d);
    F.RerouteAllFrame(swept, dead, order);
    forall k | k in dead
      ensures k in swept.clusters && !Live(swept.clusters[k])
    {
      assert k in dead + [d];
    }
    forall id | id in swept.jobs
      ensures id in jobs && jobs[id] == F.Relocated(swept.jobs[id], dead, live)
    {
      F.RerouteAllIsPointwise(swept, dead, order, id);
    }
    PushesJoin(swept, dead, d, order, jobs, listing, pushes);
  }

  lemma PushesJoin(swept: F.Fed, dead: seq<ClusterId>, d: ClusterId, order: seq<ClusterId>, jobs: map<JobId, GlobalJob>,
                   listing: seq<JobId>, pushes: seq<(GlobalJob, ClusterRecord)>)
    requires F.Keyed(swept) && AllDead(swept, dead + [d]) && jobs.Keys == swept.jobs.Keys
        && forall id :: id in listing <==> id in jobs
    requires forall id :: id in jobs ==>
        jobs[id] == F.Relocated(swept.jobs[id], dead, F.LiveClusters(swept.clusters, order))
    requires AllPushed(swept, dead, F.LiveClusters(swept.clusters, order), pushes)
    ensures var live := F.LiveClusters(swept.clusters, order);
      AllPushed(swept, dead + [d], live, pushes + Pushes(jobs, listing, d, live))
  {
    var live := F.LiveClusters(swept.clusters, order);
    var added := Pushes(jobs, listing, d, live);
    forall p
      ensures p in pushes + added <==> exists id :: PushedBy(swept, dead + [d], live, id, p)
    {
      if p in pushes {
        var id :| PushedBy(swept, dead, live, id, p);
        OnePushMore(swept, dead, d, order, jobs, id, p);
      }
      AddedIsOfDead(jobs, listing, d, live, p);
      if id :| PushOf(jobs, id, d, live, p) {
        OnePushMore(swept, dead, d, order, jobs, id, p);
      }
      if id :| PushedBy(swept, dead + [d], live, id, p) {
        OnePushMore(swept, dead, d, order, jobs, id, p);
      }
    }
  }

  lemma AddedIsOfDead(jobs: map<JobId, GlobalJob>, listing: seq<JobId>, d: ClusterId, live: seq<ClusterRecord>,
      p: (GlobalJob, ClusterRecord))
    requires forall id :: id in listing <==> id in jobs
    ensures p in Pushes(jobs, listing, d, live) <==> exists id :: PushOf(jobs, id, d, live, p)
  {
    PushesAre(jobs, listing, d, live);
    if id :| PushOf(jobs, id, d, live, p) {
      assert (F.Rerouted(jobs[id], live), BestCluster(jobs[id], live).value) == p;
    }
  }

  /** A push that a watch iteration from `f` to `g` owes: for a job whose cluster fell silent and that found another. */
  ghost predicate Owed(f: F.Fed, g: F.Fed, id: JobId, p: (GlobalJob, ClusterRecord)) {
    && id in f.jobs && id in g.jobs && F.Open(f.jobs[id])
    && F.FellSilent(f, g, f.jobs[id].cluster)
    && p.0 == g.jobs[id] && p.0.cluster == Some(p.1.id) && p.1.id in g.clusters && p.1 == g.clusters[p.1.id]
  }

  lemma PushedIsOwed(f: F.Fed, order: seq<ClusterId>, now: real, timeout: real, id: JobId,
      p: (GlobalJob, ClusterRecord))
    requires F.Keyed(f) && Enumerates(order, f.clusters.Keys)
    ensures var swept, g := f.(clusters := F.Sweep(f.clusters, now, timeout)), F.WatchOnce(f, order, now, timeout);
      PushedBy(swept, F.StaleIds(f.clusters, order, now, timeout), F.LiveClusters(swept.clusters, order), id, p) <==>
          Owed(f, g, id, p)
  {
    if id in f.jobs {
      var swept := f.(clusters := F.Sweep(f.clusters, now, timeout));
      var live := F.LiveClusters(swept.clusters, order);
      F.WatchIsPointwise(f, order, now, timeout);
      F.StaleIdsAre(f.clusters, order, now, timeout);
      F.LiveClustersAre(swept.clusters, order);
      BestAmongRankable(f.jobs[id], live);
    }
  }

  lemma PushesAreOwed(f: F.Fed, order: seq<ClusterId>, now: real, timeout: real,
      pushes: seq<(GlobalJob, ClusterRecord)>)
    requires F.Keyed(f) && Enumerates(order, f.clusters.Keys)
    requires var swept := f.(clusters := F.Sweep(f.clusters, now, timeout));
      AllPushed(swept, F.StaleIds(f.clusters, order, now, timeout), F.LiveClusters(swept.clusters, order), pushes)
    ensures forall p :: p in pushes <==> exists id :: Owed(f, F.WatchOnce(f, order, now, timeout), id, p)
  {
    var swept, g := f.(clusters := F.Sweep(f.clusters, now, timeout)), F.WatchOnce(f, order, now, timeout);
    var dead, live := F.StaleIds(f.clusters, order, now, timeout), F.LiveClusters(swept.clusters, order);
    forall p
      ensures p in pushes <==> exists id :: Owed(f, g, id, p)
    {
      if id :| PushedBy(swept, dead, live, id, p) {
        PushedIsOwed(f, order, now, timeout, id, p);
      }
      if id :| Owed(f, g, id, p) {
        PushedIsOwed(f, order, now, timeout, id, p);
      }
    }
  }

  lemma NextDead(swept: F.Fed, dead: seq<ClusterId>, i: nat, order: seq<ClusterId>)
    requires i < |dead| && AllDead(swept, dead)
    ensures F.RerouteAll(swept, dead[..i + 1], order) == F.Reroute(F.RerouteAll(swept, dead[..i], order), dead[i],
        order)
    ensures dead[..i + 1] == dead[..i] + [dead[i]] && AllDead(swept, dead[..i] + [dead[i]])
    ensures F.RerouteAll(swept, dead[..i], order).clusters == swept.clusters
  {
    assert dead[..i + 1][..i] == dead[..i];
    F.RerouteAllFrame(swept, dead[..i], order);
  }

  /**
   Terminal jobs and jobs of clusters that are live are as they were, and a job lost its cluster
   without getting another exactly if that fell silent and no cluster can be ranked for it.
   */
  ghost predicate LeavesRest(f: F.Fed, g: F.Fed, now: real, timeout: real) {
    && (forall id {:trigger F.Proceeds(f, g, id)} :: id in f.jobs ==> F.Proceeds(f, g, id))
    && (forall id :: id in f.jobs && id in g.jobs && f.jobs[id].cluster.Some? ==>
          (g.jobs[id].cluster.None? <==>
             && F.OnStale(f, f.jobs[id], now, timeout)
             && forall k :: k in g.clusters ==> !Rankable(f.jobs[id], g.clusters[k])))
  }

  lemma WatchLeavesRest(f: F.Fed, order: seq<ClusterId>, now: real, timeout: real)
    requires F.Keyed(f) && Enumerates(order, f.clusters.Keys)
    ensures LeavesRest(f, F.WatchOnce(f, order, now, timeout), now, timeout)
  {
    forall id | id in f.jobs
      ensures F.Proceeds(f, F.WatchOnce(f, order, now, timeout), id)
    {
      F.WatchProceeds(f, order, now, timeout, id);
    }
    forall id | id in f.jobs && f.jobs[id].cluster.Some?
      ensures id in F.WatchOnce(f, order, now, timeout).jobs
      ensures F.WatchOnce(f, order, now, timeout).jobs[id].cluster.None? <==>
        && F.OnStale(f, f.jobs[id], now, timeout)
        && forall k :: k in F.WatchOnce(f, order, now, timeout).clusters ==>
             !Rankable(f.jobs[id], F.WatchOnce(f, order, now, timeout).clusters[k])
    {
      F.WatchUnassignsIff(f, order, now, timeout, id);
    }
  }

  predicate BestHasNoName(job: GlobalJob, live: seq<ClusterRecord>) {
    var best := BestCluster(job.(status := Queued, cluster := None), live);
    best.Some? && best.value.id == ClusterId("")
  }

  lemma SubmitFacts(f: F.Fed, job: GlobalJob, order: seq<ClusterId>, pushed: bool)
    requires F.Keyed(f) && Enumerates(order, f.clusters.Keys)
    ensures var queued := job.(status := Queued, cluster := None);
      var r := F.Routing(queued, BestCluster(queued, F.LiveClusters(f.clusters, order)), pushed);
      && F.Submit(f, job, order, pushed) == F.Fed(f.clusters, f.jobs[job.id := r])
      && r == job.(status := if r.cluster.Some? then Routed else Queued, cluster := r.cluster)
      && (r.cluster.Some? ==>
            && r.cluster.value in f.clusters && Live(f.clusters[r.cluster.value])
            && forall k :: k in f.clusters && Rankable(queued, f.clusters[k]) ==>
                 Score(queued, f.clusters[k]) <= Score(queued, f.clusters[r.cluster.value]))
      && (r.cluster.None? <==>
            || !pushed || (forall k :: k in f.clusters ==> !Rankable(queued, f.clusters[k]))
            || BestHasNoName(job, F.LiveClusters(f.clusters, order)))
  {
    F.SubmitUnassignedIff(f, job, order, pushed);
    F.LiveClustersAre(f.clusters, order);
    BestAmongRankable(job.(status := Queued, cluster := None), F.LiveClusters(f.clusters, order));
  }

  /** One more harmless step of a harmless run is safe. */
  lemma HarmlessMore(steps: seq<(F.Step, real)>, step: F.Step, now: real)
    requires F.Run(steps) && F.Allowed(F.Exec(steps), step) && F.HarmlessRun(steps) && F.Harmless(F.Exec(steps), step)
    ensures F.HarmlessRun(steps + [(step, now)]) && F.Safe(F.Exec(steps + [(step, now)]))
  {
    var more := steps + [(step, now)];
    assert more[..|more| - 1] == steps;
    F.ExecSnoc(steps, step, now);
    F.AlwaysSafeIff(more);
  }

  /** One more report, and exactly when it keeps a harmless run safe. */
  lemma ReportFacts(steps: seq<(F.Step, real)>, step: F.Step, now: real)
    requires F.Run(steps) && F.Allowed(F.Exec(steps), step)
    ensures F.Run(steps + [(step, now)]) && F.Exec(steps + [(step, now)]) == F.Next(F.Exec(steps), step, now)
    ensures F.HarmlessRun(steps) ==> (F.Safe(F.Next(F.Exec(steps), step, now)) <==> F.Harmless(F.Exec(steps), step))
  {
    F.ExecSnoc(steps, step, now);
    if F.HarmlessRun(steps) {
      F.ReachableIsSafe(steps);
      F.ReachableIsKeyed(steps);
      F.StepSafeIff(F.Exec(steps), step, now);
    }
  }

  /** The loop of `register_cluster` over the listed clusters. */
  method FindUrl(clusters: map<ClusterId, ClusterRecord>, order: seq<ClusterId>, c: ClusterRecord) returns (taken: bool)
    requires forall k :: k in order <==> k in clusters
    ensures taken == F.UrlTaken(clusters, c)
  {
    var url := F.NormalUrl(c.url);
    for i := 0 to |order|
      invariant forall j :: 0 <= j < i ==> clusters[order[j]].id == c.id || F.NormalUrl(clusters[order[j]].url) != url
    {
      var other := clusters[order[i]];
      if other.id == c.id {
        continue;
      }
      if F.NormalUrl(other.url) == url {
        return true;
      }
    }
    return false;
  }

  class FederationRegistry {
    var clusters: map<ClusterId, ClusterRecord>
    var jobs: map<JobId, GlobalJob>
    ghost var steps: seq<(F.Step, real)>

    ghost function View(): F.Fed
      reads this
    {
      F.Fed(clusters, jobs)
    }

    /** The tables are those that the steps taken so far lead to. */
    ghost predicate Valid()
      reads this
    {
      F.Run(steps) && View() == F.Exec(steps)
    }

    constructor ()
      ensures Valid() && steps == []
    {
      clusters, jobs, steps := map[], map[], [];
    }

    /** What holds between any two steps. */
    lemma Promises()
      requires Valid()
      ensures F.Keyed(View()) && F.OneUrlEach(View())
      ensures F.HarmlessRun(steps) <==> F.AlwaysSafe(steps)
      ensures F.SaneRun(steps) ==> F.Tidy(View())
    {
      F.ReachableIsKeyed(steps);
      F.AlwaysSafeIff(steps);
      if F.SaneRun(steps) {
        F.ReachableIsTidy(steps);
      }
    }

    method SweepStaleClusters(order: seq<ClusterId>, now: real, timeout: real) returns (offline: seq<ClusterId>)
      requires Enumerates(order, clusters.Keys)
      modifies this`clusters
      ensures clusters == F.Sweep(old(clusters), now, timeout)
      ensures offline == F.StaleIds(old(clusters), order, now, timeout)
    {
      clusters, offline := SweepList(clusters, order, now, timeout);
    }

    /** `jobOrder` is how the registry lists its jobs. */
    method RerouteJobs(dead: ClusterId, order: seq<ClusterId>, jobOrder: seq<JobId>)
        returns (rerouted: nat, pushes: seq<(GlobalJob, ClusterRecord)>)
      requires Enumerates(jobOrder, jobs.Keys)
      modifies this`jobs
      ensures View() == F.Reroute(old(View()), dead, order)
      ensures pushes == Pushes(old(jobs), jobOrder, dead, F.LiveOthers(clusters, order, dead)) && rerouted == |pushes|
      ensures jobs == map id | id in old(jobs) ::
        if old(jobs)[id].status in {Queued, Routed, Running, Migrated} && old(jobs)[id].cluster == Some(dead)
        then F.Rerouted(old(jobs)[id], F.LiveOthers(clusters, order, dead)) else old(jobs)[id]
    {
      var others := F.LiveOthers(clusters, order, dead);
      OpenOrphansMove(jobs, dead, others);
      jobs, rerouted, pushes := RerouteList(jobs, jobOrder, dead, others);
    }

    /** The loop over the dead clusters; `listing(i)` is how the registry lists its jobs the i-th time. */
    method RerouteDead(dead: seq<ClusterId>, order: seq<ClusterId>, listing: nat -> seq<JobId>)
        returns (pushes: seq<(GlobalJob, ClusterRecord)>)
      requires F.Keyed(View()) && Enumerates(order, clusters.Keys) && forall i :: Enumerates(listing(i), jobs.Keys)
      requires AllDead(View(), dead)
      modifies this`jobs
      ensures View() == F.RerouteAll(old(View()), dead, order)
      ensures AllPushed(old(View()), dead, F.LiveClusters(clusters, order), pushes)
    {
      ghost var swept, live := View(), F.LiveClusters(clusters, order);
      pushes := [];
      for i := 0 to |dead|
        invariant View() == F.RerouteAll(swept, dead[..i], order) && jobs.Keys == swept.jobs.Keys
        invariant AllPushed(swept, dead[..i], live, pushes)
      {
        NextDead(swept, dead, i, order);
        PushesGrow(swept, dead[..i], dead[i], order, listing(i), pushes);
        var rerouted, more := RerouteJobs(dead[i], order, listing(i));
        pushes := pushes + more;
      }
      assert dead[..|dead|] == dead;
    }

    /**
     The body of the watch loop; failed pushes are only logged and change nothing. If no report so
     far has taken a cluster with open jobs offline, no job but a completed or failed one is left on
     an offline cluster. Pushed are exactly the jobs that have moved.
     */
    method WatchIteration(order: seq<ClusterId>, listing: nat -> seq<JobId>, now: real, timeout: real)
        returns (pushes: seq<(GlobalJob, ClusterRecord)>)
      requires Valid() && Enumerates(order, clusters.Keys) && forall i :: Enumerates(listing(i), jobs.Keys)
      modifies this
      ensures Valid() && steps == old(steps) + [(F.WatchStep(order, timeout), now)]
      ensures jobs.Keys == old(jobs.Keys) && clusters == F.Sweep(old(clusters), now, timeout)
      ensures forall p :: p in pushes <==> exists id :: Owed(old(View()), View(), id, p)
      ensures LeavesRest(old(View()), View(), now, timeout)
      ensures F.HarmlessRun(old(steps)) ==> F.HarmlessRun(steps) && F.Safe(View())
    {
      Promises();
      ghost var f, before := View(), steps;
      F.WatchIsPointwise(f, order, now, timeout);
      F.StaleIdsAre(clusters, order, now, timeout);
      WatchLeavesRest(f, order, now, timeout);
      F.ExecSnoc(steps, F.WatchStep(order, timeout), now);
      if F.HarmlessRun(steps) {
        HarmlessMore(steps, F.WatchStep(order, timeout), now);
      }
      var dead := SweepStaleClusters(order, now, timeout);
      pushes := RerouteDead(dead, order, listing);
      steps := steps + [(F.WatchStep(order, timeout), now)];
      PushesAreOwed(f, order, now, timeout, pushes);
    }

    method ApplyHeartbeat(p: ClusterRecord, now: real) returns (known: bool)
      requires Valid()
      modifies this
      ensures Valid() && steps == old(steps) + [(F.BeatStep(p), now)]
      ensures known <==> p.id in old(clusters)
      ensures jobs == old(jobs) && clusters.Keys == old(clusters.Keys) && forall k :: k in clusters && k != p.id ==>
          clusters[k] == old(clusters)[k]
      ensures known ==> clusters[p.id] == p.(region := old(clusters)[p.id].region, url := old(clusters)[p.id].url,
          lastHeartbeat := now, misses := 0)
      ensures known && F.HarmlessRun(old(steps)) ==> (F.Safe(View()) <==> Live(p) || !F.Occupied(old(View()), p.id))
    {
      ReportFacts(steps, F.BeatStep(p), now);
      steps := steps + [(F.BeatStep(p), now)];
      if p.id !in clusters {
        return false;
      }
      clusters := clusters[p.id := p.(region := clusters[p.id].region, url := clusters[p.id].url, lastHeartbeat := now,
          misses := 0)];
      return true;
    }

    /** Refused exactly if another cluster has the control-plane URL; so no two ever share one. */
    method RegisterCluster(c: ClusterRecord, now: real, order: seq<ClusterId>) returns (accepted: bool)
      requires Valid() && Enumerates(order, clusters.Keys)
      modifies this
      ensures Valid() && steps == old(steps) + [(F.RegisterStep(c), now)] && F.OneUrlEach(View())
      ensures accepted <==> forall k :: k in old(clusters) && k != c.id ==>
          !F.SameUrl(old(clusters)[k].url, c.url)
      ensures jobs == old(jobs) && clusters == if accepted
          then old(clusters)[c.id := c.(lastHeartbeat := now, misses := 0)] else old(clusters)
      ensures accepted && F.HarmlessRun(old(steps)) ==> (F.Safe(View()) <==> Live(c) || !F.Occupied(old(View()), c.id))
    {
      Promises();
      ReportFacts(steps, F.RegisterStep(c), now);
      F.StepKeepsKeyed(View(), F.RegisterStep(c), now);
      forall k | k in clusters
        ensures F.NormalUrl(clusters[k].url) == F.NormalUrl(c.url) <==> F.SameUrl(clusters[k].url, c.url)
      {
        F.SameUrlIff(clusters[k].url, c.url);
      }
      var taken := FindUrl(clusters, order, c);
      steps := steps + [(F.RegisterStep(c), now)];
      if taken {
        return false;
      }
      clusters := clusters[c.id := c.(lastHeartbeat := now, misses := 0)];
      return true;
    }

    /**
     The job goes to a live cluster, or to none exactly if the push failed, no cluster can be
     ranked for it, or the best one has an empty id.
     */
    method SubmitGlobalJob(job: GlobalJob, order: seq<ClusterId>, pushed: bool, now: real)
        returns (target: Option<ClusterId>)
      requires Valid() && job.id !in jobs && Enumerates(order, clusters.Keys)
      modifies this
      ensures Valid() && steps == old(steps) + [(F.SubmitStep(job, order, pushed), now)]
      ensures clusters == old(clusters) && job.id in jobs && jobs[job.id].cluster == target
      ensures jobs == old(jobs)[job.id := job.(status := if target.Some? then Routed else Queued, cluster := target)]
      ensures target.Some? ==> target.value in clusters && Live(clusters[target.value])
      ensures target.Some? ==>
        var queued := job.(status := Queued, cluster := None);
        forall k :: k in clusters && Rankable(queued, clusters[k]) ==>
          Score(queued, clusters[k]) <= Score(queued, clusters[target.value])
      ensures target.None? <==>
        || !pushed || (forall k :: k in clusters ==> !Rankable(job.(status := Queued, cluster := None), clusters[k]))
        || BestHasNoName(job, F.LiveClusters(clusters, order))
    {
      Promises();
      F.ExecSnoc(steps, F.SubmitStep(job, order, pushed), now);
      SubmitFacts(View(), job, order, pushed);
      var queued := job.(status := Queued, cluster := None);
      var best := BestCluster(queued, F.LiveClusters(clusters, order));
      SaveRouted(queued, best, pushed);
      steps := steps + [(F.SubmitStep(job, order, pushed), now)];
      target := jobs[job.id].cluster;
    }

    /** The record is saved as queued, then as routed before the push, and put back if the push fails. */
    method SaveRouted(queued: GlobalJob, target: Option<ClusterRecord>, pushed: bool)
      requires queued.status == Queued && queued.cluster == None
      modifies this`jobs
      ensures jobs == old(jobs)[queued.id := F.Routing(queued, target, pushed)]
    {
      jobs := jobs[queued.id := queued];
      if target == None || target.value.id == ClusterId("") {
        return;
      }
      var routed := queued.(status := Routed, cluster := Some(target.value.id));
      jobs := jobs[queued.id := routed];
      if !pushed {
        jobs := jobs[queued.id := routed.(status := Queued, cluster := None)];
      }
    }

    method GlobalJobComplete(id: JobId, ok: bool, now: real) returns (known: bool)
      requires Valid()
      modifies this
      ensures Valid() && steps == old(steps) + [(F.CompleteStep(id, ok), now)]
      ensures known <==> id in old(jobs)
      ensures clusters == old(clusters) && jobs.Keys == old(jobs.Keys) && forall j :: j in jobs && j != id ==>
          jobs[j] == old(jobs)[j]
      ensures known ==> jobs[id] == old(jobs)[id].(status := if ok then Completed else Failed)
    {
      F.ExecSnoc(steps, F.CompleteStep(id, ok), now);
      steps := steps + [(F.CompleteStep(id, ok), now)];
      if id !in jobs {
        return false;
      }
      jobs := jobs[id := jobs[id].(status := if ok then Completed else Failed)];
      return true;
    }
  }
}

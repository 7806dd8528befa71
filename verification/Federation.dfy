/**
 Federation failover as a state machine over the cluster and job tables: registration,
 heartbeats, job submission and completion, and the watch iteration that sweeps silent clusters
 offline and reroutes their jobs (federation/controller.py, federation/heartbeat.py,
 federation/failover.py, federation/router.py).

 `order` is how the registry lists its clusters; whether a push to a cluster succeeds and what
 the clock says are arguments.
 */
module Federation {
  import opened Collections
  import opened Options
  import opened Texts
  import opened ClusterScoring

  datatype Fed = Fed(clusters: map<ClusterId, ClusterRecord>, jobs: map<JobId, GlobalJob>)

  predicate Active(job: GlobalJob) {
    job.status in {Queued, Routed, Running, Migrated}
  }

  /** The job is neither completed nor failed. */
  ghost predicate Open(job: GlobalJob) {
    job.status != Completed && job.status != Failed
  }

  // ----- Listing ---------------------------------------------------------------------------------

  /** The live clusters other than `dead`, in listing order. */
  function LiveOthers(clusters: map<ClusterId, ClusterRecord>, order: seq<ClusterId>,
      dead: ClusterId): seq<ClusterRecord> {
    if order == [] then []
    else
      var k := order[|order| - 1];
      LiveOthers(clusters, order[..|order| - 1], dead)
      + if k in clusters && clusters[k].id != dead && Live(clusters[k]) then [clusters[k]] else []
  }

  /** The live clusters, in listing order. */
  function LiveClusters(clusters: map<ClusterId, ClusterRecord>, order: seq<ClusterId>): seq<ClusterRecord> {
    if order == [] then []
    else
      var k := order[|order| - 1];
      LiveClusters(clusters, order[..|order| - 1]) + if k in clusters && Live(clusters[k]) then [clusters[k]] else []
  }

  lemma {:induction false} LiveClustersAre(clusters: map<ClusterId, ClusterRecord>, order: seq<ClusterId>)
    ensures forall c :: c in LiveClusters(clusters, order) ==>
        Live(c) && exists k :: k in order && k in clusters && clusters[k] == c
    ensures forall k :: k in order && k in clusters && Live(clusters[k]) ==>
        clusters[k] in LiveClusters(clusters, order)
  {
    if order != [] {
      var most, k := order[..|order| - 1], order[|order| - 1];
      assert order == most + [k];
      LiveClustersAre(clusters, most);
      forall c | c in LiveClusters(clusters, order)
        ensures Live(c) && exists k :: k in order && k in clusters && clusters[k] == c
      {
        if c in LiveClusters(clusters, most) {
          var j :| j in most && j in clusters && clusters[j] == c;
          assert j in order;
        } else {
          assert k in order && clusters[k] == c;
        }
      }
    }
  }

  // ----- Steps -----------------------------------------------------------------------------------

  predicate Stale(c: ClusterRecord, now: real, timeout: real) {
    Live(c) && c.lastHeartbeat > 0.0 && now - c.lastHeartbeat > timeout
  }

  function Swept(c: ClusterRecord, now: real, timeout: real): ClusterRecord {
    if Stale(c, now, timeout) then c.(health := Offline, misses := c.misses + 1) else c
  }

  function Sweep(clusters: map<ClusterId, ClusterRecord>, now: real, timeout: real): map<ClusterId, ClusterRecord> {
    map k | k in clusters :: Swept(clusters[k], now, timeout)
  }

  function StaleIds(clusters: map<ClusterId, ClusterRecord>, order: seq<ClusterId>, now: real,
      timeout: real): seq<ClusterId> {
    if order == [] then []
    else
      var k := order[|order| - 1];
      StaleIds(clusters, order[..|order| - 1], now, timeout) + if k in clusters && Stale(clusters[k], now, timeout)
          then [k] else []
  }

  lemma {:induction false} StaleIdsAre(clusters: map<ClusterId, ClusterRecord>, order: seq<ClusterId>, now: real,
      timeout: real)
    ensures forall k :: k in StaleIds(clusters, order, now, timeout) <==>
        k in order && k in clusters && Stale(clusters[k], now, timeout)
  {
    if order != [] {
      assert order == order[..|order| - 1] + [order[|order| - 1]];
      StaleIdsAre(clusters, order[..|order| - 1], now, timeout);
    }
  }

  function SentTo(job: GlobalJob, target: Option<ClusterRecord>): GlobalJob {
    match target
    case None => job.(status := Queued, cluster := None)
    case Some(c) => job.(status := Migrated, cluster := Some(c.id))
  }

  /** What failover does to one job of a dead cluster. */
  function Rerouted(job: GlobalJob, others: seq<ClusterRecord>): GlobalJob {
    SentTo(job, BestCluster(job, others))
  }

  predicate Orphaned(job: GlobalJob, dead: ClusterId) {
    Active(job) && job.cluster == Some(dead)
  }

  function Reroute(f: Fed, dead: ClusterId, order: seq<ClusterId>): Fed {
    var others := LiveOthers(f.clusters, order, dead);
    f.(jobs := map id | id in f.jobs :: if Orphaned(f.jobs[id], dead) then Rerouted(f.jobs[id], others) else f.jobs[id])
  }

  function RerouteAll(f: Fed, dead: seq<ClusterId>, order: seq<ClusterId>): Fed {
    if dead == [] then f else Reroute(RerouteAll(f, dead[..|dead| - 1], order), dead[|dead| - 1], order)
  }

  function WatchOnce(f: Fed, order: seq<ClusterId>, now: real, timeout: real): Fed {
    RerouteAll(f.(clusters := Sweep(f.clusters, now, timeout)), StaleIds(f.clusters, order, now, timeout), order)
  }

  /** A heartbeat replaces what the cluster reports about itself. An unknown cluster changes nothing. */
  function Heartbeat(f: Fed, p: ClusterRecord, now: real): Fed {
    if p.id !in f.clusters then f
    else f.(clusters := f.clusters[p.id := p.(region := f.clusters[p.id].region, url := f.clusters[p.id].url,
        lastHeartbeat := now, misses := 0)])
  }

  /** `_normalize_cp_url`. */
  function NormalUrl(url: string): string {
    Lower(StripSlashes(url))
  }

  /** The same but for the case of letters and slashes at the end. */
  ghost predicate SameUrl(a: string, b: string) {
    SameButCase(StripSlashes(a), StripSlashes(b))
  }

  lemma SameUrlIff(a: string, b: string)
    ensures NormalUrl(a) == NormalUrl(b) <==> SameUrl(a, b)
  {
    LowerSameIff(StripSlashes(a), StripSlashes(b));
  }

  /** Another cluster has the same control-plane URL. */
  predicate UrlTaken(clusters: map<ClusterId, ClusterRecord>, c: ClusterRecord) {
    exists k :: k in clusters && clusters[k].id != c.id && NormalUrl(clusters[k].url) == NormalUrl(c.url)
  }

  /** Refused if the control-plane URL is registered under another id. */
  function Register(f: Fed, c: ClusterRecord, now: real): Fed {
    if UrlTaken(f.clusters, c) then f else f.(clusters := f.clusters[c.id := c.(lastHeartbeat := now, misses := 0)])
  }

  /**
   A new job with the cluster chosen for it, if any; `pushed` says whether that cluster took the
   job. A cluster with an empty id counts as no choice.
   */
  function Routing(queued: GlobalJob, target: Option<ClusterRecord>, pushed: bool): GlobalJob {
    match target
    case None => queued
    case Some(c) => if pushed && c.id != ClusterId("") then queued.(status := Routed, cluster := Some(c.id)) else queued
  }

  function Submit(f: Fed, job: GlobalJob, order: seq<ClusterId>, pushed: bool): Fed {
    var queued := job.(status := Queued, cluster := None);
    f.(jobs := f.jobs[job.id := Routing(queued, BestCluster(queued, LiveClusters(f.clusters, order)), pushed)])
  }

  function Complete(f: Fed, id: JobId, ok: bool): Fed {
    if id !in f.jobs then f
    else f.(jobs := f.jobs[id := f.jobs[id].(status := if ok then Completed else Failed)])
  }

  datatype Step =
    | RegisterStep(c: ClusterRecord)
    | BeatStep(p: ClusterRecord)
    | SubmitStep(job: GlobalJob, order: seq<ClusterId>, pushed: bool)
    | CompleteStep(id: JobId, ok: bool)
    | WatchStep(order: seq<ClusterId>, timeout: real)

  function Next(f: Fed, step: Step, now: real): Fed {
    match step
    case RegisterStep(c) => Register(f, c, now)
    case BeatStep(p) => Heartbeat(f, p, now)
    case SubmitStep(job, order, pushed) => Submit(f, job, order, pushed)
    case CompleteStep(id, ok) => Complete(f, id, ok)
    case WatchStep(order, timeout) => WatchOnce(f, order, now, timeout)
  }

  /** Job ids are fresh and listings are complete. */
  ghost predicate Allowed(f: Fed, step: Step) {
    match step
    case SubmitStep(job, order, _) => job.id !in f.jobs && Enumerates(order, f.clusters.Keys)
    case WatchStep(order, _) => Enumerates(order, f.clusters.Keys)
    case _ => true
  }

  /** The record under which a cluster is stored after it got in touch, if the step stores one. */
  function Report(f: Fed, step: Step): Option<ClusterRecord> {
    match step
    case RegisterStep(c) => if UrlTaken(f.clusters, c) then None else Some(c)
    case BeatStep(p) => if p.id in f.clusters then Some(p) else None
    case _ => None
  }

  // ----- Safety ----------------------------------------------------------------------------------

  /** A job that is neither completed nor failed is assigned to no cluster, or to one that is not offline. */
  ghost predicate WellPlaced(f: Fed, job: GlobalJob) {
    job.status != Completed && job.status != Failed && job.cluster.Some? ==>
      job.cluster.value in f.clusters && f.clusters[job.cluster.value].health != Offline
  }

  ghost predicate Safe(f: Fed) {
    forall id :: id in f.jobs ==> WellPlaced(f, f.jobs[id])
  }

  ghost predicate Keyed(f: Fed) {
    forall k :: k in f.clusters ==> f.clusters[k].id == k
  }

  ghost predicate Tidy(f: Fed) {
    Keyed(f) && forall k :: k in f.clusters ==> Sane(f.clusters[k])
  }

  /** What one watch iteration makes of a job, said directly: orphans of swept clusters go to the best live cluster. */
  ghost function Watched(f: Fed, job: GlobalJob, order: seq<ClusterId>, now: real, timeout: real): GlobalJob {
    if Open(job) && job.cluster.Some? && job.cluster.value in order && job.cluster.value in f.clusters
       && Stale(f.clusters[job.cluster.value], now, timeout)
    then Rerouted(job, LiveClusters(Sweep(f.clusters, now, timeout), order))
    else job
  }

  /** A cluster that is offline is not among the live ones, so leaving it out changes nothing. */
  lemma {:induction false} DeadIsNotLive(clusters: map<ClusterId, ClusterRecord>, order: seq<ClusterId>,
      dead: ClusterId)
    requires forall k :: k in clusters ==> clusters[k].id == k
    requires dead in clusters && !Live(clusters[dead])
    ensures LiveOthers(clusters, order, dead) == LiveClusters(clusters, order)
  {
    if order != [] {
      DeadIsNotLive(clusters, order[..|order| - 1], dead);
    }
  }

  lemma LiveListed(clusters: map<ClusterId, ClusterRecord>, order: seq<ClusterId>)
    requires Enumerates(order, clusters.Keys) && forall k :: k in clusters ==> clusters[k].id == k && Sane(clusters[k])
    ensures forall c :: c in LiveClusters(clusters, order) ==>
        Sane(c) && Live(c) && c.id in clusters && clusters[c.id] == c
    ensures (exists k :: k in clusters && Live(clusters[k])) <==> LiveClusters(clusters, order) != []
  {
    var r := LiveClusters(clusters, order);
    LiveClustersAre(clusters, order);
    if r != [] {
      assert r[0] in r;
    }
    if k :| k in clusters && Live(clusters[k]) {
      assert k in order && clusters[k] in r;
    }
  }

  /** A rerouted job never goes to a cluster that is offline. */
  lemma RerouteLeaves(clusters: map<ClusterId, ClusterRecord>, order: seq<ClusterId>, job: GlobalJob, dead: ClusterId)
    requires (forall k :: k in clusters ==> clusters[k].id == k) && dead in clusters && !Live(clusters[dead])
    ensures Rerouted(job, LiveClusters(clusters, order)).cluster != Some(dead)
  {
    LiveClustersAre(clusters, order);
    BestAmongRankable(job, LiveClusters(clusters, order));
  }

  /** A rerouted job sits on a live cluster with the best score, or on none because no cluster is live. */
  lemma ReroutedWell(clusters: map<ClusterId, ClusterRecord>, order: seq<ClusterId>, job: GlobalJob)
    requires Enumerates(order, clusters.Keys) && forall k :: k in clusters ==> clusters[k].id == k && Sane(clusters[k])
    ensures var r := Rerouted(job, LiveClusters(clusters, order));
      && r.id == job.id
      && (r.cluster.None? <==> forall k :: k in clusters ==> !Live(clusters[k]))
      && (r.cluster.Some? ==>
            && r.status == Migrated && r.cluster.value in clusters && Live(clusters[r.cluster.value])
            && forall k :: k in clusters && Live(clusters[k]) ==>
                Score(job, clusters[k]) <= Score(job, clusters[r.cluster.value]))
      && (r.cluster.None? ==> r.status == Queued)
  {
    var live := LiveClusters(clusters, order);
    LiveListed(clusters, order);
    LiveClustersAre(clusters, order);
    BestClusterIsBest(job, live);
    assert forall k :: k in clusters && Live(clusters[k]) ==> k in order && clusters[k] in live;
  }

  /** What the rerouting loops make of a job, given the live clusters. */
  function Relocated(job: GlobalJob, dead: seq<ClusterId>, live: seq<ClusterRecord>): GlobalJob {
    if Active(job) && job.cluster.Some? && job.cluster.value in dead then Rerouted(job, live) else job
  }

  lemma {:induction false} RerouteAllFrame(g: Fed, dead: seq<ClusterId>, order: seq<ClusterId>)
    ensures RerouteAll(g, dead, order).clusters == g.clusters && RerouteAll(g, dead, order).jobs.Keys == g.jobs.Keys
  {
    if dead != [] {
      RerouteAllFrame(g, dead[..|dead| - 1], order);
    }
  }

  lemma OneMoreDeath(job: GlobalJob, dead: seq<ClusterId>, d: ClusterId, live: seq<ClusterRecord>)
    requires Rerouted(job, live).cluster != Some(d)
    ensures var before := Relocated(job, dead, live);
      Relocated(job, dead + [d], live) == if Orphaned(before, d) then Rerouted(before, live) else before
  {
  }

  lemma RerouteAt(f: Fed, dead: ClusterId, order: seq<ClusterId>, id: JobId)
    requires id in f.jobs
    ensures id in Reroute(f, dead, order).jobs
    ensures Reroute(f, dead, order).jobs[id] ==
            if Orphaned(f.jobs[id], dead) then Rerouted(f.jobs[id], LiveOthers(f.clusters, order, dead)) else f.jobs[id]
  {
  }

  /** A job is rerouted at most once, however many clusters died: it goes to a live one. */
  lemma {:induction false} RerouteAllIsPointwise(g: Fed, dead: seq<ClusterId>, order: seq<ClusterId>, id: JobId)
    requires Keyed(g) && Enumerates(order, g.clusters.Keys) && id in g.jobs
    requires forall k :: k in dead ==> k in g.clusters && !Live(g.clusters[k])
    ensures id in RerouteAll(g, dead, order).jobs
    ensures RerouteAll(g, dead, order).jobs[id] == Relocated(g.jobs[id], dead, LiveClusters(g.clusters, order))
  {
    if dead != [] {
      var most, d := dead[..|dead| - 1], dead[|dead| - 1];
      assert dead == most + [d];
      RerouteAllFrame(g, most, order);
      RerouteAllIsPointwise(g, most, order, id);
      DeadIsNotLive(g.clusters, order, d);
      RerouteLeaves(g.clusters, order, g.jobs[id], d);
      RerouteAt(RerouteAll(g, most, order), d, order, id);
      OneMoreDeath(g.jobs[id], most, d, LiveClusters(g.clusters, order));
    }
  }

  lemma RelocatedIsWatched(f: Fed, job: GlobalJob, order: seq<ClusterId>, now: real, timeout: real)
    ensures var dead := StaleIds(f.clusters, order, now, timeout);
      Relocated(job, dead, LiveClusters(Sweep(f.clusters, now, timeout), order)) == Watched(f, job, order, now, timeout)
  {
    StaleIdsAre(f.clusters, order, now, timeout);
  }

  /** The sweep and the nested rerouting loops amount to treating every job once. */
  lemma WatchIsPointwise(f: Fed, order: seq<ClusterId>, now: real, timeout: real)
    requires Keyed(f) && Enumerates(order, f.clusters.Keys)
    ensures WatchOnce(f, order, now, timeout).clusters == Sweep(f.clusters, now, timeout)
    ensures WatchOnce(f, order, now, timeout).jobs.Keys == f.jobs.Keys
    ensures forall id :: id in f.jobs ==>
        WatchOnce(f, order, now, timeout).jobs[id] == Watched(f, f.jobs[id], order, now, timeout)
  {
    var swept := f.(clusters := Sweep(f.clusters, now, timeout));
    var dead := StaleIds(f.clusters, order, now, timeout);
    RerouteAllFrame(swept, dead, order);
    StaleIdsAre(f.clusters, order, now, timeout);
    assert Enumerates(order, swept.clusters.Keys);
    forall id | id in f.jobs
      ensures WatchOnce(f, order, now, timeout).jobs[id] == Watched(f, f.jobs[id], order, now, timeout)
    {
      RerouteAllIsPointwise(swept, dead, order, id);
      RelocatedIsWatched(f, f.jobs[id], order, now, timeout);
    }
  }

  /**
   Whatever the clusters report of themselves: a rerouted job is on a live cluster, or on none
   because none can be ranked.
   */
  lemma ReroutedIff(clusters: map<ClusterId, ClusterRecord>, order: seq<ClusterId>, job: GlobalJob)
    requires Enumerates(order, clusters.Keys) && forall k :: k in clusters ==> clusters[k].id == k
    ensures var r := Rerouted(job, LiveClusters(clusters, order));
      && (r.cluster.None? <==> forall k :: k in clusters ==> !Rankable(job, clusters[k]))
      && (r.cluster.Some? ==> r.cluster.value in clusters && Live(clusters[r.cluster.value]))
  {
    LiveClustersAre(clusters, order);
    BestAmongRankable(job, LiveClusters(clusters, order));
    assert forall k :: k in clusters && Rankable(job, clusters[k]) ==> k in order;
  }

  lemma WatchedWell(f: Fed, clusters: map<ClusterId, ClusterRecord>, job: GlobalJob, order: seq<ClusterId>, now: real,
      timeout: real)
    requires Keyed(f) && WellPlaced(f, job) && Enumerates(order, f.clusters.Keys)
    requires clusters == Sweep(f.clusters, now, timeout)
    ensures WellPlaced(Fed(clusters, f.jobs), Watched(f, job, order, now, timeout))
  {
    assert Enumerates(order, clusters.Keys);
    ReroutedIff(clusters, order, job);
  }

  /**
   After a watch iteration no job but a completed or failed one is on an offline cluster, no job is
   lost, terminal jobs and jobs of live clusters are as they were, and a job in any open status
   whose cluster fell silent has left it, whatever the clusters report of themselves.
   */
  lemma WatchIsSafe(f: Fed, order: seq<ClusterId>, now: real, timeout: real)
    requires Keyed(f) && Safe(f) && Enumerates(order, f.clusters.Keys)
    ensures var g := WatchOnce(f, order, now, timeout);
      && Keyed(g) && Safe(g)
      && g.jobs.Keys == f.jobs.Keys
      && (forall id {:trigger Proceeds(f, g, id)} :: id in f.jobs ==> Proceeds(f, g, id))
  {
    var g := WatchOnce(f, order, now, timeout);
    WatchIsPointwise(f, order, now, timeout);
    forall id | id in f.jobs
      ensures WellPlaced(g, g.jobs[id]) && Proceeds(f, g, id)
    {
      WatchedWell(f, g.clusters, f.jobs[id], order, now, timeout);
      WatchProceeds(f, order, now, timeout, id);
    }
  }

  /**
   What a watch makes of one job: it stays as it is if it is completed or failed, or its cluster has
   not fallen silent; otherwise, in any of the four open statuses, it leaves that cluster, and is
   migrated to another or queued without one.
   */
  ghost predicate Proceeds(f: Fed, g: Fed, id: JobId) {
    && id in f.jobs && id in g.jobs
    && (f.jobs[id].status in {Completed, Failed} || !FellSilent(f, g, f.jobs[id].cluster) ==> g.jobs[id] == f.jobs[id])
    && (f.jobs[id].status in {Queued, Routed, Running, Migrated} && FellSilent(f, g, f.jobs[id].cluster) ==>
          && g.jobs[id].cluster != f.jobs[id].cluster
          && g.jobs[id].status == if g.jobs[id].cluster.Some? then Migrated else Queued)
  }

  /** The cluster was live before and is offline after. */
  ghost predicate FellSilent(f: Fed, g: Fed, c: Option<ClusterId>) {
    && c.Some? && c.value in f.clusters && f.clusters[c.value].health != Offline
    && c.value in g.clusters && g.clusters[c.value].health == Offline
  }

  lemma SweepSilences(f: Fed, g: Fed, c: Option<ClusterId>, now: real, timeout: real)
    requires g.clusters == Sweep(f.clusters, now, timeout)
    ensures FellSilent(f, g, c) <==> c.Some? && c.value in f.clusters && Stale(f.clusters[c.value], now, timeout)
  {
  }

  lemma JobProceeds(f: Fed, g: Fed, order: seq<ClusterId>, now: real, timeout: real, id: JobId)
    requires Keyed(f) && Enumerates(order, f.clusters.Keys) && g.clusters == Sweep(f.clusters, now, timeout)
    requires id in f.jobs && id in g.jobs && g.jobs[id] == Watched(f, f.jobs[id], order, now, timeout)
    ensures Proceeds(f, g, id)
  {
    var c := f.jobs[id].cluster;
    SweepSilences(f, g, c, now, timeout);
    if FellSilent(f, g, c) {
      RerouteLeaves(g.clusters, order, f.jobs[id], c.value);
    }
  }

  lemma WatchProceeds(f: Fed, order: seq<ClusterId>, now: real, timeout: real, id: JobId)
    requires Keyed(f) && Enumerates(order, f.clusters.Keys) && id in f.jobs
    ensures Proceeds(f, WatchOnce(f, order, now, timeout), id)
  {
    WatchIsPointwise(f, order, now, timeout);
    JobProceeds(f, WatchOnce(f, order, now, timeout), order, now, timeout, id);
  }

  /** The job was active on a cluster that the sweep takes offline. */
  ghost predicate OnStale(f: Fed, job: GlobalJob, now: real, timeout: real) {
    Open(job) && job.cluster.Some? && job.cluster.value in f.clusters
        && Stale(f.clusters[job.cluster.value], now, timeout)
  }

  /**
   Exactly when a watch iteration takes a job's cluster away without giving it another: the job
   was active on a cluster that fell silent, and no swept cluster can be ranked for it.
   */
  lemma WatchUnassignsIff(f: Fed, order: seq<ClusterId>, now: real, timeout: real, id: JobId)
    requires Keyed(f) && Enumerates(order, f.clusters.Keys) && id in f.jobs && f.jobs[id].cluster.Some?
    ensures var g := WatchOnce(f, order, now, timeout);
      id in g.jobs &&
      (g.jobs[id].cluster.None? <==>
         OnStale(f, f.jobs[id], now, timeout) && forall k :: k in g.clusters ==> !Rankable(f.jobs[id], g.clusters[k]))
  {
    WatchIsPointwise(f, order, now, timeout);
    assert Enumerates(order, Sweep(f.clusters, now, timeout).Keys);
    ReroutedIff(Sweep(f.clusters, now, timeout), order, f.jobs[id]);
  }

  /**
   With sane reports, a cluster can be ranked exactly if it is live: then a job loses its cluster
   only if none is live.
   */
  lemma SaneIsRankable(f: Fed, job: GlobalJob)
    requires Tidy(f)
    ensures forall k :: k in f.clusters ==> (Rankable(job, f.clusters[k]) <==> Live(f.clusters[k]))
  {
    forall k | k in f.clusters && Live(f.clusters[k])
      ensures Rankable(job, f.clusters[k])
    {
      LiveScoresWell(job, f.clusters[k]);
    }
  }

  lemma UnassignedMeansNoneLive(f: Fed, order: seq<ClusterId>, now: real, timeout: real, id: JobId)
    requires Tidy(f) && Enumerates(order, f.clusters.Keys) && id in f.jobs && f.jobs[id].cluster.Some?
    ensures var g := WatchOnce(f, order, now, timeout);
      id in g.jobs && (g.jobs[id].cluster.None? ==> forall k :: k in g.clusters ==> !Live(g.clusters[k]))
  {
    var g := WatchOnce(f, order, now, timeout);
    WatchUnassignsIff(f, order, now, timeout, id);
    WatchIsPointwise(f, order, now, timeout);
    SaneIsRankable(g, f.jobs[id]);
  }

  /** An overloaded report is accepted, and then a live cluster is no place to go: the job is left without one. */
  lemma OverloadedInput(job: GlobalJob, c: ClusterRecord)
    requires Live(c) && c.currentLoad >= 10.0 && c.queueDepth >= 0 && c.avgLatencyMs >= 0.0
    requires c.gpuCapacity >= 0 && c.nodeCount >= 0
    ensures Rerouted(job, [c]).cluster == None && Rerouted(job, [c]).status == Queued
  {
    OverloadedScoresBelowZero(job, c);
    BestAmongRankable(job, [c]);
  }

  lemma SubmitIsSafe(f: Fed, job: GlobalJob, order: seq<ClusterId>, pushed: bool)
    requires Keyed(f) && Safe(f) && Enumerates(order, f.clusters.Keys)
    ensures Safe(Submit(f, job, order, pushed))
  {
    LiveClustersAre(f.clusters, order);
    BestAmongRankable(job.(status := Queued, cluster := None), LiveClusters(f.clusters, order));
    var g := Submit(f, job, order, pushed);
    forall id | id in g.jobs
      ensures WellPlaced(g, g.jobs[id])
    {
      if id != job.id {
        assert WellPlaced(f, f.jobs[id]);
      }
    }
  }

  /** An active job is assigned to the cluster. */
  ghost predicate Occupied(f: Fed, c: ClusterId) {
    exists id :: id in f.jobs && Open(f.jobs[id]) && f.jobs[id].cluster == Some(c)
  }

  /** The step does not store a cluster as offline, by a heartbeat or a registration, that has active jobs. */
  ghost predicate Harmless(f: Fed, step: Step) {
    Report(f, step).Some? && !Live(Report(f, step).value) ==> !Occupied(f, Report(f, step).value.id)
  }

  /** A report replaces one record. It is safe exactly if it is live, or no active job is there. */
  lemma ReportSafeIff(f: Fed, c: ClusterRecord)
    requires Keyed(f) && Safe(f)
    ensures Safe(f.(clusters := f.clusters[c.id := c])) <==> Live(c) || !Occupied(f, c.id)
  {
    var g := f.(clusters := f.clusters[c.id := c]);
    forall id | id in f.jobs
      ensures WellPlaced(g, f.jobs[id]) <==> Live(c) || !(Open(f.jobs[id]) && f.jobs[id].cluster == Some(c.id))
    {
      assert WellPlaced(f, f.jobs[id]);
    }
  }

  /** Exactly when a step keeps failover safety. */
  lemma StepSafeIff(f: Fed, step: Step, now: real)
    requires Keyed(f) && Safe(f) && Allowed(f, step)
    ensures Safe(Next(f, step, now)) <==> Harmless(f, step)
  {
    match step
    case RegisterStep(c) =>
      ReportSafeIff(f, c.(lastHeartbeat := now, misses := 0));
    case BeatStep(p) =>
      if p.id in f.clusters {
        ReportSafeIff(f, p.(region := f.clusters[p.id].region, url := f.clusters[p.id].url, lastHeartbeat := now,
            misses := 0));
      }
    case SubmitStep(job, order, pushed) =>
      SubmitIsSafe(f, job, order, pushed);
    case CompleteStep(id, ok) =>
      StillPlaced(f, Next(f, step, now));
    case WatchStep(order, timeout) =>
      WatchIsSafe(f, order, now, timeout);
  }

  /** Steps that leave the clusters alone and give no active job a new place. */
  lemma StillPlaced(f: Fed, g: Fed)
    requires Safe(f) && g.clusters == f.clusters
    requires forall id :: id in g.jobs && Open(g.jobs[id]) ==> id in f.jobs && f.jobs[id] == g.jobs[id]
    ensures Safe(g)
  {
    forall id | id in g.jobs
      ensures WellPlaced(g, g.jobs[id])
    {
      if Open(g.jobs[id]) {
        assert WellPlaced(f, f.jobs[id]);
      }
    }
  }

  // ----- Runs ------------------------------------------------------------------------------------

  ghost function Exec(steps: seq<(Step, real)>): Fed {
    if steps == [] then Fed(map[], map[])
    else var (step, now) := steps[|steps| - 1]; Next(Exec(steps[..|steps| - 1]), step, now)
  }

  ghost predicate Run(steps: seq<(Step, real)>) {
    steps != [] ==> Run(steps[..|steps| - 1]) && Allowed(Exec(steps[..|steps| - 1]), steps[|steps| - 1].0)
  }

  ghost predicate HarmlessRun(steps: seq<(Step, real)>) {
    steps != [] ==> HarmlessRun(steps[..|steps| - 1]) && Harmless(Exec(steps[..|steps| - 1]), steps[|steps| - 1].0)
  }

  /** In every state of the run no active job is assigned to an offline cluster. */
  ghost predicate AlwaysSafe(steps: seq<(Step, real)>) {
    Safe(Exec(steps)) && (steps != [] ==> AlwaysSafe(steps[..|steps| - 1]))
  }

  /**
   Failover is safe throughout a run exactly if no step of the run stores a cluster that has active
   jobs as offline.
   */
  lemma {:induction false} AlwaysSafeIff(steps: seq<(Step, real)>)
    requires Run(steps)
    ensures AlwaysSafe(steps) <==> HarmlessRun(steps)
  {
    if steps != [] {
      var rest := steps[..|steps| - 1];
      AlwaysSafeIff(rest);
      if AlwaysSafe(rest) {
        ReachableIsKeyed(rest);
        StepSafeIff(Exec(rest), steps[|steps| - 1].0, steps[|steps| - 1].1);
      }
    }
  }

  /** In particular, in the state reached. */
  lemma ReachableIsSafe(steps: seq<(Step, real)>)
    requires Run(steps) && HarmlessRun(steps)
    ensures Safe(Exec(steps))
  {
    AlwaysSafeIff(steps);
  }

  /** The clusters of the run report loads that are fractions and counts that are counts. */
  ghost predicate SaneRun(steps: seq<(Step, real)>) {
    forall i :: 0 <= i < |steps| ==>
      && (steps[i].0.RegisterStep? ==> Sane(steps[i].0.c))
      && (steps[i].0.BeatStep? ==> Sane(steps[i].0.p))
  }

  lemma {:induction false} ReachableIsTidy(steps: seq<(Step, real)>)
    requires Run(steps) && SaneRun(steps)
    ensures Tidy(Exec(steps))
  {
    ReachableIsKeyed(steps);
    if steps != [] {
      var rest, step := steps[..|steps| - 1], steps[|steps| - 1].0;
      ReachableIsTidy(rest);
      if step.WatchStep? {
        WatchIsPointwise(Exec(rest), step.order, steps[|steps| - 1].1, step.timeout);
      }
    }
  }

  lemma {:induction false} ReachableIsKeyed(steps: seq<(Step, real)>)
    requires Run(steps)
    ensures Keyed(Exec(steps)) && OneUrlEach(Exec(steps))
  {
    if steps != [] {
      ReachableIsKeyed(steps[..|steps| - 1]);
      StepKeepsKeyed(Exec(steps[..|steps| - 1]), steps[|steps| - 1].0, steps[|steps| - 1].1);
    }
  }

  lemma StepKeepsKeyed(f: Fed, step: Step, now: real)
    requires Keyed(f) && Allowed(f, step) && OneUrlEach(f)
    ensures Keyed(Next(f, step, now)) && OneUrlEach(Next(f, step, now))
  {
    var g := Next(f, step, now);
    if step.WatchStep? {
      WatchIsPointwise(f, step.order, now, step.timeout);
    }
    forall j, k
      ensures Apart(g.clusters, j, k)
    {
      assert Apart(f.clusters, j, k);
      if j in g.clusters && k in g.clusters {
        SameUrlIff(g.clusters[j].url, g.clusters[k].url);
      }
    }
  }

  ghost predicate Apart(clusters: map<ClusterId, ClusterRecord>, j: ClusterId, k: ClusterId) {
    j in clusters && k in clusters && j != k ==> !SameUrl(clusters[j].url, clusters[k].url)
  }

  /** No two clusters share a control-plane URL, up to case and trailing slashes. */
  ghost predicate OneUrlEach(f: Fed) {
    forall j, k {:trigger Apart(f.clusters, j, k)} :: Apart(f.clusters, j, k)
  }

  /** No step drops a job. */
  lemma StepKeepsJobs(f: Fed, step: Step, now: real)
    requires Allowed(f, step)
    ensures f.jobs.Keys <= Next(f, step, now).jobs.Keys
  {
    if step.WatchStep? {
      RerouteAllFrame(f.(clusters := Sweep(f.clusters, now, step.timeout)),
          StaleIds(f.clusters, step.order, now, step.timeout), step.order);
    }
  }

  /** A submitted job stays on record for the rest of the run. */
  lemma {:induction false} NoJobIsDropped(steps: seq<(Step, real)>, k: nat)
    requires Run(steps) && k <= |steps|
    ensures Run(steps[..k]) && Exec(steps[..k]).jobs.Keys <= Exec(steps).jobs.Keys
    decreases |steps|
  {
    if k == |steps| {
      assert steps[..k] == steps;
    } else {
      var rest := steps[..|steps| - 1];
      assert rest[..k] == steps[..k];
      NoJobIsDropped(rest, k);
      StepKeepsJobs(Exec(rest), steps[|steps| - 1].0, steps[|steps| - 1].1);
    }
  }

  // ----- What is never taken up again ------------------------------------------------------------

  /** One step leaves a job that is assigned to no cluster without one. */
  lemma UnplacedStays(f: Fed, step: Step, now: real, id: JobId)
    requires Keyed(f) && Allowed(f, step) && id in f.jobs && f.jobs[id].cluster == None
    ensures id in Next(f, step, now).jobs && Next(f, step, now).jobs[id].cluster == None
    ensures Open(f.jobs[id]) && Open(Next(f, step, now).jobs[id]) ==> Next(f, step, now).jobs[id] == f.jobs[id]
  {
    if step.WatchStep? {
      WatchIsPointwise(f, step.order, now, step.timeout);
    }
  }

  /** A job left without a cluster, by a submission or by a failover, is never placed again in the rest of the run. */
  lemma {:induction false} NeverPlacedAgain(steps: seq<(Step, real)>, k: nat, id: JobId)
    requires Run(steps) && k <= |steps| && id in Exec(steps[..k]).jobs && Exec(steps[..k]).jobs[id].cluster == None
    ensures id in Exec(steps).jobs && Exec(steps).jobs[id].cluster == None
    decreases |steps|
  {
    if k == |steps| {
      assert steps[..k] == steps;
    } else {
      var rest := steps[..|steps| - 1];
      assert rest[..k] == steps[..k];
      NeverPlacedAgain(rest, k, id);
      ReachableIsKeyed(rest);
      UnplacedStays(Exec(rest), steps[|steps| - 1].0, steps[|steps| - 1].1, id);
    }
  }

  /** The cluster itself gets in touch. */
  ghost predicate From(step: Step, c: ClusterId) {
    (step.RegisterStep? && step.c.id == c) || (step.BeatStep? && step.p.id == c)
  }

  /** A job on a cluster that is offline stays there, whatever else happens. */
  ghost predicate LeftBehind(f: Fed, c: ClusterId, id: JobId) {
    c in f.clusters && !Live(f.clusters[c]) && id in f.jobs && f.jobs[id].cluster == Some(c)
  }

  lemma LeftBehindStays(f: Fed, step: Step, now: real, c: ClusterId, id: JobId)
    requires Keyed(f) && Allowed(f, step) && LeftBehind(f, c, id) && !From(step, c)
    ensures LeftBehind(Next(f, step, now), c, id)
  {
    if step.WatchStep? {
      WatchIsPointwise(f, step.order, now, step.timeout);
    }
  }

  /**
   No watch reroutes a job from a cluster that is offline already, such as one that has reported
   itself offline: until that cluster gets in touch again, the job stays assigned to it.
   */
  lemma {:induction false} NeverRerouted(steps: seq<(Step, real)>, k: nat, c: ClusterId, id: JobId)
    requires Run(steps) && k <= |steps| && LeftBehind(Exec(steps[..k]), c, id)
    requires forall i :: k <= i < |steps| ==> !From(steps[i].0, c)
    ensures LeftBehind(Exec(steps), c, id)
    decreases |steps|
  {
    if k == |steps| {
      assert steps[..k] == steps;
    } else {
      var rest := steps[..|steps| - 1];
      assert rest[..k] == steps[..k];
      NeverRerouted(rest, k, c, id);
      ReachableIsKeyed(rest);
      LeftBehindStays(Exec(rest), steps[|steps| - 1].0, steps[|steps| - 1].1, c, id);
    }
  }

  /** A terminal job changes only when its completion is reported once more. */
  lemma TerminalStays(f: Fed, step: Step, now: real, id: JobId)
    requires Keyed(f) && Allowed(f, step) && id in f.jobs && !Open(f.jobs[id])
    requires !(step.CompleteStep? && step.id == id)
    ensures id in Next(f, step, now).jobs && Next(f, step, now).jobs[id] == f.jobs[id]
  {
    if step.WatchStep? {
      WatchIsPointwise(f, step.order, now, step.timeout);
    }
  }

  lemma {:induction false} CompletionIsFinal(steps: seq<(Step, real)>, k: nat, id: JobId)
    requires Run(steps) && k <= |steps| && id in Exec(steps[..k]).jobs && !Open(Exec(steps[..k]).jobs[id])
    requires forall i :: k <= i < |steps| ==> !(steps[i].0.CompleteStep? && steps[i].0.id == id)
    ensures id in Exec(steps).jobs && Exec(steps).jobs[id] == Exec(steps[..k]).jobs[id]
    decreases |steps|
  {
    if k == |steps| {
      assert steps[..k] == steps;
    } else {
      var rest := steps[..|steps| - 1];
      assert rest[..k] == steps[..k];
      CompletionIsFinal(rest, k, id);
      ReachableIsKeyed(rest);
      TerminalStays(Exec(rest), steps[|steps| - 1].0, steps[|steps| - 1].1, id);
    }
  }

  /**
   A heartbeat protects its cluster from the sweep exactly for the timeout, unless its clock reads
   zero or it says it is offline.
   */
  lemma HeartbeatHoldsOffIff(f: Fed, p: ClusterRecord, now: real, later: real, timeout: real)
    requires p.id in f.clusters
    ensures p.id in Sweep(Heartbeat(f, p, now).clusters, later, timeout)
    ensures Live(Sweep(Heartbeat(f, p, now).clusters, later, timeout)[p.id]) <==>
      Live(p) && (now <= 0.0 || later - now <= timeout)
  {
  }

  // ----- Empty ids -------------------------------------------------------------------------------

  /**
   A submission ends without a cluster exactly if the push failed, no cluster can be ranked, or
   the best one has an empty id.
   */
  lemma SubmitUnassignedIff(f: Fed, job: GlobalJob, order: seq<ClusterId>, pushed: bool)
    requires Keyed(f) && Enumerates(order, f.clusters.Keys)
    ensures var queued := job.(status := Queued, cluster := None);
      var best := BestCluster(queued, LiveClusters(f.clusters, order));
      Submit(f, job, order, pushed).jobs[job.id].cluster == None <==>
      !pushed || (forall k :: k in f.clusters ==> !Rankable(queued, f.clusters[k]))
          || (best.Some? && best.value.id == ClusterId(""))
  {
    var queued := job.(status := Queued, cluster := None);
    LiveClustersAre(f.clusters, order);
    BestAmongRankable(queued, LiveClusters(f.clusters, order));
    assert forall k :: k in f.clusters && Rankable(queued, f.clusters[k]) ==> k in order;
  }

  /** Failover does send jobs to a cluster with an empty id, and a submission does not, even if it is the only one. */
  lemma EmptyIdInput(c: ClusterRecord, job: GlobalJob, now: real)
    requires c.id == ClusterId("") && Sane(c) && Live(c)
    ensures var f := Fed(map[c.id := c], map[]);
      Submit(f, job, [c.id], true).jobs[job.id].cluster == None
    ensures Rerouted(job, [c]).status == Migrated && Rerouted(job, [c]).cluster == Some(ClusterId(""))
  {
    BestOfOne(job, c);
    OnlyChoice(c, job.(status := Queued, cluster := None));
  }

  // ----- A run that ends unsafely ------------------------------------------------------------------

  lemma ExecSnoc(steps: seq<(Step, real)>, step: Step, now: real)
    ensures Exec(steps + [(step, now)]) == Next(Exec(steps), step, now)
    ensures Run(steps + [(step, now)]) <==> Run(steps) && Allowed(Exec(steps), step)
  {
    assert (steps + [(step, now)])[..|steps|] == steps;
  }

  lemma OneLive(clusters: map<ClusterId, ClusterRecord>, k: ClusterId)
    requires k in clusters && Live(clusters[k])
    ensures LiveClusters(clusters, [k]) == [clusters[k]]
  {
    assert [k][..0] == [];
    assert LiveClusters(clusters, [k][..0]) == [];
  }

  lemma BestOfOne(job: GlobalJob, c: ClusterRecord)
    requires Sane(c) && Live(c)
    ensures BestCluster(job, [c]) == Some(c)
  {
    BestClusterIsBest(job, [c]);
    assert Live([c][0]);
  }

  lemma OnlyChoice(c: ClusterRecord, job: GlobalJob)
    requires Sane(c) && Live(c)
    ensures var f := Fed(map[c.id := c], map[]);
      Tidy(f) && Safe(f) && BestCluster(job, LiveClusters(f.clusters, [c.id])) == Some(c)
  {
    OneLive(map[c.id := c], c.id);
    BestOfOne(job, c);
  }

  /** Registration and a submission, which leave the job active on the cluster. */
  function PlacedRun(c: ClusterRecord, job: GlobalJob, now: real): seq<(Step, real)> {
    [] + [(RegisterStep(c), now)] + [(SubmitStep(job, [c.id], true), now)]
  }

  lemma RegisteredState(c: ClusterRecord, now: real)
    requires Sane(c) && Live(c)
    ensures var one: seq<(Step, real)> := [] + [(RegisterStep(c), now)];
      Run(one) && Exec(one) == Fed(map[c.id := c.(lastHeartbeat := now, misses := 0)], map[])
  {
    var none: seq<(Step, real)> := [];
    ExecSnoc(none, RegisterStep(c), now);
  }

  lemma PlacedState(c: ClusterRecord, job: GlobalJob, now: real)
    requires Sane(c) && Live(c) && c.id != ClusterId("")
    ensures Run(PlacedRun(c, job, now))
    ensures var f := Exec(PlacedRun(c, job, now));
      Keyed(f) && Safe(f) && f.clusters.Keys == {c.id} && Occupied(f, c.id)
  {
    var seen, queued := c.(lastHeartbeat := now, misses := 0), job.(status := Queued, cluster := None);
    var one := Fed(map[c.id := seen], map[]);
    RegisteredState(c, now);
    ExecSnoc([] + [(RegisterStep(c), now)], SubmitStep(job, [c.id], true), now);
    OnlyChoice(seen, queued);
    SubmitIsSafe(one, job, [c.id], true);
    assert Submit(one, job, [c.id], true).jobs[job.id].cluster == Some(c.id);
  }

  /** A heartbeat in which the cluster calls itself offline leaves an active job on an offline cluster. */
  lemma OfflineRunIsUnsafe(c: ClusterRecord, job: GlobalJob, now: real)
    requires Sane(c) && Live(c) && c.id != ClusterId("")
    ensures var steps := PlacedRun(c, job, now) + [(BeatStep(c.(health := Offline)), now)];
      Run(steps) && !Safe(Exec(steps))
  {
    PlacedState(c, job, now);
    ExecSnoc(PlacedRun(c, job, now), BeatStep(c.(health := Offline)), now);
    StepSafeIff(Exec(PlacedRun(c, job, now)), BeatStep(c.(health := Offline)), now);
  }

  /** So does registering once more as offline. */
  lemma ReregisteringIsUnsafe(c: ClusterRecord, job: GlobalJob, now: real)
    requires Sane(c) && Live(c) && c.id != ClusterId("")
    ensures var steps := PlacedRun(c, job, now) + [(RegisterStep(c.(health := Offline)), now)];
      Run(steps) && !Safe(Exec(steps))
  {
    PlacedState(c, job, now);
    ExecSnoc(PlacedRun(c, job, now), RegisterStep(c.(health := Offline)), now);
    StepSafeIff(Exec(PlacedRun(c, job, now)), RegisterStep(c.(health := Offline)), now);
  }

  // ----- Two outages in a row ----------------------------------------------------------------------

  /**
   A job that a watch has moved off a silent cluster is moved again when its new cluster falls
   silent, and so on: wherever it was, after the next watch it is on a live cluster or on none.
   */
  lemma TwoOutages(steps: seq<(Step, real)>, order: seq<ClusterId>, first: real, second: real, timeout: real, id: JobId)
    requires Run(steps) && HarmlessRun(steps) && Enumerates(order, Exec(steps).clusters.Keys)
    requires id in Exec(steps).jobs && Exec(steps).jobs[id].status in {Queued, Routed, Running, Migrated}
    ensures var one := steps + [(WatchStep(order, timeout), first)];
      var two := one + [(WatchStep(order, timeout), second)];
      && Run(two) && HarmlessRun(two) && Safe(Exec(one)) && Safe(Exec(two))
      && Proceeds(Exec(steps), Exec(one), id) && Proceeds(Exec(one), Exec(two), id)
      && Exec(one).jobs[id].status in {Queued, Routed, Running, Migrated}
  {
    var one := steps + [(WatchStep(order, timeout), first)];
    var f, g := Exec(steps), Exec(one);
    ReachableIsSafe(steps);
    ReachableIsKeyed(steps);
    ExecSnoc(steps, WatchStep(order, timeout), first);
    HarmlessSnoc(steps, WatchStep(order, timeout), first);
    WatchIsSafe(f, order, first, timeout);
    WatchIsPointwise(f, order, first, timeout);
    assert Enumerates(order, g.clusters.Keys);
    ExecSnoc(one, WatchStep(order, timeout), second);
    HarmlessSnoc(one, WatchStep(order, timeout), second);
    WatchIsSafe(g, order, second, timeout);
  }

  lemma HarmlessSnoc(steps: seq<(Step, real)>, step: Step, now: real)
    ensures HarmlessRun(steps + [(step, now)]) <==> HarmlessRun(steps) && Harmless(Exec(steps), step)
  {
    assert (steps + [(step, now)])[..|steps|] == steps;
  }
}

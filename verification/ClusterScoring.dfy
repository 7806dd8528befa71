/** Cluster scoring and choice across a federation (global_scheduler/cross_cluster_scheduler.py). */
module ClusterScoring {
  import opened Options
  import opened StableSort
  import opened Texts
  import NodeRanking

  datatype ClusterId = ClusterId(name: string)

  datatype JobId = JobId(name: string)

  datatype Health = Healthy | Degraded | Offline | Unknown

  datatype ClusterRecord = ClusterRecord(
    id: ClusterId, region: string, nodeCount: int, gpuCapacity: int, currentLoad: real, queueDepth: int,
    avgLatencyMs: real, health: Health, lastHeartbeat: real, misses: int, url: string)

  datatype Status = Queued | Routed | Running | Completed | Failed | Migrated

  datatype GlobalJob = GlobalJob(
    id: JobId, gpuRequired: bool, status: Status, preferredRegion: Option<string>, cluster: Option<ClusterId>)

  predicate Live(c: ClusterRecord) {
    c.health != Offline
  }

  // ----- Region names are compared without surrounding blanks and without case -----------------

  predicate Preferred(job: GlobalJob, c: ClusterRecord) {
    && job.preferredRegion.Some? && job.preferredRegion.value != "" && c.region != ""
    && Lower(Strip(job.preferredRegion.value)) == Lower(Strip(c.region))
  }

  function Capped(n: int, cap: int): real
    requires cap > 0
  {
    (if n < cap then n else cap) as real / cap as real
  }

  function HealthWeight(h: Health): real {
    match h
    case Healthy => 0.20
    case Degraded => 0.10
    case Unknown => 0.05
    case Offline => 0.0
  }

  function RawScore(job: GlobalJob, c: ClusterRecord): real {
    var latency := NodeRanking.Max(0.0, 1.0 - NodeRanking.Min(c.avgLatencyMs, 3000.0) / 3000.0) * 0.18;
    var gpu := Capped(c.gpuCapacity, 64) * (if job.gpuRequired then 0.40 else 0.10);
    1.0 - c.currentLoad * 0.35 - Capped(c.queueDepth, 500) * 0.22 + latency + gpu + HealthWeight(c.health)
    + Capped(c.nodeCount, 100) * 0.05 + (if Preferred(job, c) then 0.12 else 0.0)
  }

  function Score(job: GlobalJob, c: ClusterRecord): real {
    if c.health == Offline then -1.0 else NodeRanking.Round6(RawScore(job, c))
  }

  /** Loads are fractions and counts are counts. */
  ghost predicate Sane(c: ClusterRecord) {
    0.0 <= c.currentLoad <= 1.0 && c.queueDepth >= 0 && c.gpuCapacity >= 0 && c.nodeCount >= 0
  }

  lemma RoundKeepsBound(x: real, k: int)
    requires x >= k as real / 1000000.0
    ensures NodeRanking.Round6(x) >= k as real / 1000000.0
  {
    assert x * 1000000.0 >= k as real;
    assert (x * 1000000.0).Floor >= k;
  }

  lemma CappedRange(n: int, cap: int)
    requires n >= 0 && cap > 0
    ensures 0.0 <= Capped(n, cap) <= 1.0
  {
    var m := if n < cap then n else cap;
    assert cap as real * Capped(n, cap) == m as real;
  }

  /** Every live cluster scores at least 0.48. */
  lemma LiveScoresWell(job: GlobalJob, c: ClusterRecord)
    requires Sane(c) && Live(c)
    ensures Score(job, c) >= 0.48
  {
    CappedRange(c.queueDepth, 500);
    CappedRange(c.gpuCapacity, 64);
    CappedRange(c.nodeCount, 100);
    RoundKeepsBound(RawScore(job, c), 480000);
  }

  /** The bound is attained, so no better one holds. */
  lemma BoundIsTight(job: GlobalJob)
    ensures exists c :: Sane(c) && Live(c) && Score(job, c) == 0.48
  {
    var c := ClusterRecord(ClusterId("c"), "", 0, 0, 1.0, 500, 3000.0, Unknown, 0.0, 0, "");
    assert Capped(500, 500) == 1.0 && Capped(0, 64) == 0.0 && Capped(0, 100) == 0.0;
    assert RawScore(job, c) == 0.48;
    assert RawScore(job, c) * 1000000.0 == 480000.0 && 480000.0.Floor == 480000;
    assert Sane(c) && Live(c) && Score(job, c) == 0.48;
  }

  /** At least as good in every respect that the score looks at. */
  ghost predicate Dominates(job: GlobalJob, a: ClusterRecord, b: ClusterRecord) {
    && a.currentLoad <= b.currentLoad && a.queueDepth <= b.queueDepth && a.avgLatencyMs <= b.avgLatencyMs
    && a.gpuCapacity >= b.gpuCapacity && a.nodeCount >= b.nodeCount
    && (a.health == Healthy || a.health == b.health || (a.health == Degraded && b.health != Healthy))
    && (Preferred(job, b) ==> Preferred(job, a))
  }

  /** A live cluster that is at least as good as another in every respect never scores worse. */
  lemma ScoreRespectsDominance(job: GlobalJob, a: ClusterRecord, b: ClusterRecord)
    requires Live(a) && Live(b) && Dominates(job, a, b)
    ensures Score(job, a) >= Score(job, b)
  {
    assert Capped(a.queueDepth, 500) <= Capped(b.queueDepth, 500);
    assert Capped(a.gpuCapacity, 64) >= Capped(b.gpuCapacity, 64);
    assert Capped(a.nodeCount, 100) >= Capped(b.nodeCount, 100);
    NodeRanking.RoundIsMonotone(RawScore(job, b), RawScore(job, a));
  }

  // ----- What each respect is worth ----------------------------------------------------------------

  /**
   A unit of load costs 0.35, a queued job 0.00044, a millisecond 0.00006, a node brings 0.0005, a
   GPU 0.00625 if required and a quarter of that if not.
   */
  lemma WorthOfAmounts(job: GlobalJob, c: ClusterRecord, load: real, queue: int, ms: real, nodes: int, gpus: int)
    requires 0 <= queue <= 500 && 0 <= c.queueDepth <= 500 && 0.0 <= ms <= 3000.0 && 0.0 <= c.avgLatencyMs <= 3000.0
    requires 0 <= nodes <= 100 && 0 <= c.nodeCount <= 100 && 0 <= gpus <= 64 && 0 <= c.gpuCapacity <= 64
    ensures RawScore(job, c.(currentLoad := load)) - RawScore(job, c) == 0.35 * (c.currentLoad - load)
    ensures RawScore(job, c.(queueDepth := queue)) - RawScore(job, c) == 0.00044 * (c.queueDepth - queue) as real
    ensures RawScore(job, c.(avgLatencyMs := ms)) - RawScore(job, c) == 0.00006 * (c.avgLatencyMs - ms)
    ensures RawScore(job, c.(nodeCount := nodes)) - RawScore(job, c) == 0.0005 * (nodes - c.nodeCount) as real
    ensures RawScore(job, c.(gpuCapacity := gpus)) - RawScore(job, c) ==
      (if job.gpuRequired then 0.00625 else 0.0015625) * (gpus - c.gpuCapacity) as real
  {
  }

  /** Healthy is worth 0.10 more than degraded and 0.15 more than unknown; the preferred region 0.12. */
  lemma WorthOfStates(job: GlobalJob, c: ClusterRecord)
    ensures RawScore(job, c.(health := Healthy)) - RawScore(job, c.(health := Degraded)) == 0.10
    ensures RawScore(job, c.(health := Healthy)) - RawScore(job, c.(health := Unknown)) == 0.15
    ensures !Preferred(job, c) ==> forall r :: Preferred(job, c.(region := r)) ==>
        RawScore(job, c.(region := r)) - RawScore(job, c) == 0.12
  {
  }

  /** Clusters alike but for load and queue: a tenth of the load weighs as much as some 80 queued jobs. */
  lemma LoadAgainstQueue(job: GlobalJob, a: ClusterRecord, b: ClusterRecord)
    requires 0 <= a.queueDepth <= 500 && 0 <= b.queueDepth <= 500
    requires b == a.(currentLoad := b.currentLoad, queueDepth := b.queueDepth)
    ensures RawScore(job, a) >= RawScore(job, b) <==>
      0.35 * (a.currentLoad - b.currentLoad) <= 0.00044 * (b.queueDepth - a.queueDepth) as real
  {
  }

  /** The region is preferred if it is named and the names are the same but for blanks around them and case. */
  lemma PreferredIff(job: GlobalJob, c: ClusterRecord)
    ensures Preferred(job, c) <==>
      && job.preferredRegion.Some? && job.preferredRegion.value != "" && c.region != ""
      && SameButCase(Strip(job.preferredRegion.value), Strip(c.region))
  {
    if job.preferredRegion.Some? {
      LowerSameIff(Strip(job.preferredRegion.value), Strip(c.region));
    }
  }

  /** A load far above one outweighs everything else. */
  lemma OverloadedScoresBelowZero(job: GlobalJob, c: ClusterRecord)
    requires Live(c) && c.currentLoad >= 10.0 && c.queueDepth >= 0 && c.avgLatencyMs >= 0.0
    requires c.gpuCapacity >= 0 && c.nodeCount >= 0
    ensures Score(job, c) < 0.0
  {
    CappedRange(c.queueDepth, 500);
    CappedRange(c.gpuCapacity, 64);
    CappedRange(c.nodeCount, 100);
    assert RawScore(job, c) <= -1.0;
    NodeRanking.RoundIsMonotone(RawScore(job, c), -1.0);
    assert -1.0 * 1000000.0 == -1000000.0 && (-1000000.0).Floor == -1000000;
  }

  // ----- Ranking ---------------------------------------------------------------------------------

  predicate Rankable(job: GlobalJob, c: ClusterRecord) {
    Live(c) && Score(job, c) >= 0.0
  }

  function RankableOf(job: GlobalJob, clusters: seq<ClusterRecord>): (r: seq<ClusterRecord>)
    ensures forall c :: c in r <==> c in clusters && Rankable(job, c)
  {
    if clusters == [] then []
    else
      var most, last := clusters[..|clusters| - 1], clusters[|clusters| - 1];
      assert clusters == most + [last];
      RankableOf(job, most) + if Rankable(job, last) then [last] else []
  }

  function RankClusters(job: GlobalJob, clusters: seq<ClusterRecord>): seq<ClusterRecord> {
    SortBy(RankableOf(job, clusters), (c: ClusterRecord) => -Score(job, c))
  }

  function BestCluster(job: GlobalJob, clusters: seq<ClusterRecord>): Option<ClusterRecord> {
    var ranked := RankClusters(job, clusters);
    if ranked == [] then None else Some(ranked[0])
  }

  /** A choice fails exactly if nothing can be ranked; otherwise nothing that can be ranked scores better. */
  lemma BestAmongRankable(job: GlobalJob, clusters: seq<ClusterRecord>)
    ensures BestCluster(job, clusters).None? <==> forall c :: c in clusters ==> !Rankable(job, c)
    ensures BestCluster(job, clusters).Some? ==>
      var best := BestCluster(job, clusters).value;
      best in clusters && Rankable(job, best) && forall c :: c in clusters && Rankable(job, c) ==>
          Score(job, c) <= Score(job, best)
  {
    var ranked := RankClusters(job, clusters);
    var key := (c: ClusterRecord) => -Score(job, c);
    SameElements(RankableOf(job, clusters), ranked);
    if ranked != [] {
      assert ranked[0] in ranked;
      forall c | c in clusters && Rankable(job, c)
        ensures Score(job, c) <= Score(job, ranked[0])
      {
        assert c in ranked;
        var j :| 0 <= j < |ranked| && ranked[j] == c;
        assert key(ranked[0]) <= key(ranked[j]);
      }
    }
  }

  /** The loop of `rank_clusters`. */
  method Rank(job: GlobalJob, clusters: seq<ClusterRecord>) returns (ranked: seq<ClusterRecord>)
    ensures ranked == RankClusters(job, clusters)
    ensures multiset(ranked) == multiset(RankableOf(job, clusters))
  {
    ranked := [];
    for i := 0 to |clusters|
      invariant ranked == RankableOf(job, clusters[..i])
    {
      assert clusters[..i + 1][..i] == clusters[..i];
      var c := clusters[i];
      if c.health == Offline {
        continue;
      }
      if Score(job, c) < 0.0 {
        continue;
      }
      ranked := ranked + [c];
    }
    assert clusters[..|clusters|] == clusters;
    ranked := SortBy(ranked, (c: ClusterRecord) => -Score(job, c));
  }

  /** Among sane clusters, a choice fails only when none is live; otherwise a live one with the best score is chosen. */
  lemma BestClusterIsBest(job: GlobalJob, clusters: seq<ClusterRecord>)
    requires forall c :: c in clusters ==> Sane(c)
    ensures BestCluster(job, clusters).None? <==> forall c :: c in clusters ==> !Live(c)
    ensures BestCluster(job, clusters).Some? ==>
      var best := BestCluster(job, clusters).value;
      best in clusters && Live(best) && forall c :: c in clusters && Live(c) ==> Score(job, c) <= Score(job, best)
  {
    BestAmongRankable(job, clusters);
    forall c | c in clusters && Live(c)
      ensures Rankable(job, c)
    {
      LiveScoresWell(job, c);
    }
  }
}

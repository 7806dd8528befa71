/** Weighted node selection (scheduler/weighted.py) and the records it reads (shared/models.py). */
module NodeRanking {
  import opened StableSort

  datatype JobId = JobId(name: string)

  datatype NodeId = NodeId(name: string)

  datatype Power = Low | Medium | High

  datatype Status = Queued | Running | Completed | Failed

  datatype JobRecord = JobRecord(
    id: JobId, requiredNodes: nat, power: Power, gpuRequired: bool,
    assignedNodes: seq<NodeId>, status: Status, attempts: nat)

  datatype NodeState = NodeState(
    nodeId: NodeId, hasGpu: bool, currentLoad: real, healthy: bool, runningJobs: seq<JobId>, lastSeen: real,
    avgLatencyMs: real, queueSize: int, jobsOk: nat, jobsFailed: nat, loadEma: real)

  function Max(x: real, y: real): real {
    if x < y then y else x
  }

  function Min(x: real, y: real): real {
    if y < x then y else x
  }

  /** The nearest whole number of millionths, the even one of two equally near. */
  function Rounded(x: real): int {
    var scaled := x * 1000000.0;
    var low := scaled.Floor;
    var part := scaled - low as real;
    if part < 0.5 || (part == 0.5 && low % 2 == 0) then low else low + 1
  }

  /** `round(x, 6)`. */
  function Round6(x: real): real {
    Rounded(x) as real / 1000000.0
  }

  lemma MillionthsInOrder(m: int, n: int)
    requires m <= n
    ensures m as real / 1000000.0 <= n as real / 1000000.0
  {
  }

  /** Rounding keeps order, also across ties. */
  lemma RoundIsMonotone(x: real, y: real)
    requires x <= y
    ensures Round6(x) <= Round6(y)
  {
    var a, b := (x * 1000000.0).Floor, (y * 1000000.0).Floor;
    assert a <= b;
    MillionthsInOrder(Rounded(x), Rounded(y));
  }

  /** Rounding finds the nearest millionth, and of two equally near the even one. */
  lemma RoundIsNearest(x: real)
    ensures -0.5 <= Rounded(x) as real - x * 1000000.0 <= 0.5
    ensures Rounded(x) as real - x * 1000000.0 in {-0.5, 0.5} ==> Rounded(x) % 2 == 0
    ensures Round6(x) * 1000000.0 == Rounded(x) as real
  {
  }

  function PredictedLatencyMs(node: NodeState): real {
    Max(Max(node.avgLatencyMs, node.loadEma * 1200.0), 1.0)
  }

  function Reliability(node: NodeState): real {
    var total := node.jobsOk + node.jobsFailed;
    if total == 0 then 0.5 else node.jobsOk as real / total as real
  }

  function RawScore(node: NodeState, job: JobRecord): real {
    var load := Max(0.0, 1.0 - node.currentLoad) * 0.32;
    var gpu := if job.gpuRequired && node.hasGpu then 0.28 else if node.hasGpu then 0.12 else 0.0;
    var latency := Max(0.0, 1.0 - Min(PredictedLatencyMs(node), 2500.0) / 2500.0) * 0.18;
    var queue := Max(0.0, 1.0 - Min(node.queueSize as real, 50.0) / 50.0) * 0.10;
    var history := (Reliability(node) - 0.5) * 0.30;
    var gpu1 := if job.power == High && !node.hasGpu then gpu - 0.25 else gpu;
    var gpu2 := if job.gpuRequired && !node.hasGpu then gpu1 - 0.55 else gpu1;
    load + gpu2 + latency + queue + history
  }

  function NodeScore(node: NodeState, job: JobRecord): real {
    Round6(RawScore(node, job))
  }

  /** At least as good in every respect that the score looks at. */
  ghost predicate Dominates(a: NodeState, b: NodeState) {
    && a.currentLoad <= b.currentLoad && PredictedLatencyMs(a) <= PredictedLatencyMs(b) && a.queueSize <= b.queueSize
    && Reliability(a) >= Reliability(b) && (b.hasGpu ==> a.hasGpu)
  }

  /** A node that is at least as good in every respect never scores worse, whatever the job needs. */
  lemma ScoreRespectsDominance(a: NodeState, b: NodeState, job: JobRecord)
    requires Dominates(a, b)
    ensures NodeScore(a, job) >= NodeScore(b, job)
  {
    RoundIsMonotone(RawScore(b, job), RawScore(a, job));
  }

  // ----- What each respect is worth ----------------------------------------------------------------

  /**
   The prediction is the measured latency, 1200 ms per unit of average load, or one millisecond,
   whichever is most.
   */
  lemma PredictionIsGreatest(node: NodeState)
    ensures PredictedLatencyMs(node) >= node.avgLatencyMs && PredictedLatencyMs(node) >= 1200.0 * node.loadEma
    ensures PredictedLatencyMs(node) >= 1.0
    ensures PredictedLatencyMs(node) in {node.avgLatencyMs, 1200.0 * node.loadEma, 1.0}
  {
  }

  /** A GPU is worth 0.12; 0.37 for a high-power job; 0.83 if required, and 1.08 if both. */
  lemma GpuWorth(node: NodeState, job: JobRecord)
    ensures RawScore(node.(hasGpu := true), job) - RawScore(node.(hasGpu := false), job) ==
      (if job.gpuRequired then 0.83 else 0.12) + (if job.power == High then 0.25 else 0.0)
  {
  }

  /**
   For a high-power job, a node without a GPU is preferred to one with a GPU exactly if it is
   better by more than 0.37 otherwise.
   */
  lemma NoGpuPreferredIff(a: NodeState, b: NodeState, job: JobRecord)
    requires job.power == High && !job.gpuRequired && !a.hasGpu && b.hasGpu
    ensures RawScore(a, job) > RawScore(b, job) <==> RawScore(a.(hasGpu := true), job) - RawScore(b, job) > 0.37
  {
    GpuWorth(a, job);
    assert a.(hasGpu := false) == a;
  }

  /** Nodes alike but for load and latency: a tenth of the load weighs as much as some 444 ms. */
  lemma LoadAgainstLatency(a: NodeState, b: NodeState, job: JobRecord)
    requires 0.0 <= a.currentLoad <= 1.0 && 0.0 <= b.currentLoad <= 1.0
    requires PredictedLatencyMs(a) <= 2500.0 && PredictedLatencyMs(b) <= 2500.0
    requires a.hasGpu == b.hasGpu && a.queueSize == b.queueSize && Reliability(a) == Reliability(b)
    ensures RawScore(a, job) >= RawScore(b, job) <==>
      0.32 * (a.currentLoad - b.currentLoad) <= 0.000072 * (PredictedLatencyMs(b) - PredictedLatencyMs(a))
  {
  }

  /**
   Nodes alike but for queue and reliability: one queued job weighs as much as two thirds of a
   percent of reliability.
   */
  lemma QueueAgainstReliability(a: NodeState, b: NodeState, job: JobRecord)
    requires 0 <= a.queueSize <= 50 && 0 <= b.queueSize <= 50
    requires a.hasGpu == b.hasGpu && a.currentLoad == b.currentLoad && PredictedLatencyMs(a) == PredictedLatencyMs(b)
    ensures RawScore(a, job) >= RawScore(b, job) <==>
      0.002 * (a.queueSize - b.queueSize) as real <= 0.30 * (Reliability(a) - Reliability(b))
  {
  }

  /** Nodes alike but for load and queue: a tenth of the load weighs as much as sixteen queued jobs. */
  lemma LoadAgainstQueue(a: NodeState, b: NodeState, job: JobRecord)
    requires 0.0 <= a.currentLoad <= 1.0 && 0.0 <= b.currentLoad <= 1.0
    requires 0 <= a.queueSize <= 50 && 0 <= b.queueSize <= 50
    requires a.hasGpu == b.hasGpu && PredictedLatencyMs(a) == PredictedLatencyMs(b) && Reliability(a) == Reliability(b)
    ensures RawScore(a, job) >= RawScore(b, job) <==>
      0.32 * (a.currentLoad - b.currentLoad) <= 0.002 * (b.queueSize - a.queueSize) as real
  {
  }

  /** The share of jobs that went well; a half for a node without a history. */
  lemma ReliabilityIsShare(node: NodeState)
    ensures node.jobsOk + node.jobsFailed == 0 ==> Reliability(node) == 0.5
    ensures Reliability(node) * (node.jobsOk + node.jobsFailed) as real == node.jobsOk as real
            || node.jobsOk + node.jobsFailed == 0
  {
  }

  predicate Eligible(node: NodeState, job: JobRecord) {
    node.healthy && (job.gpuRequired ==> node.hasGpu)
  }

  function EligibleNodes(job: JobRecord, nodes: seq<NodeState>): seq<NodeState> {
    if nodes == [] then []
    else EligibleNodes(job, nodes[..|nodes| - 1]) + if Eligible(nodes[|nodes| - 1], job) then [nodes[|nodes| - 1]]
        else []
  }

  /** Best first; equally good nodes keep their order. */
  function RankNodes(job: JobRecord, nodes: seq<NodeState>): seq<NodeState> {
    SortBy(EligibleNodes(job, nodes), (n: NodeState) => -NodeScore(n, job))
  }

  function SelectBestNodes(job: JobRecord, nodes: seq<NodeState>): seq<NodeState> {
    var ranked := RankNodes(job, nodes);
    if job.requiredNodes < |ranked| then ranked[..job.requiredNodes] else ranked
  }

  ghost predicate DistinctIds(nodes: seq<NodeState>) {
    DistinctBy(nodes, (n: NodeState) => n.nodeId)
  }

  lemma {:induction false} EligibleNodesAre(job: JobRecord, nodes: seq<NodeState>)
    ensures forall n :: n in EligibleNodes(job, nodes) <==> n in nodes && Eligible(n, job)
    ensures DistinctIds(nodes) ==> DistinctIds(EligibleNodes(job, nodes))
  {
    if nodes != [] {
      var most, last := nodes[..|nodes| - 1], nodes[|nodes| - 1];
      assert nodes == most + [last];
      EligibleNodesAre(job, most);
      if DistinctIds(nodes) {
        forall n | n in EligibleNodes(job, most)
          ensures n.nodeId != last.nodeId
        {
          var i :| 0 <= i < |most| && most[i] == n;
          assert nodes[i] == n && nodes[|nodes| - 1] == last;
        }
      }
    }
  }

  /**
   The selected nodes are distinct healthy eligible nodes, as many as the job asks for if there
   are so many, and none that was passed over scores better.
   */
  lemma SelectionIsBest(job: JobRecord, nodes: seq<NodeState>)
    requires DistinctIds(nodes)
    ensures var chosen := SelectBestNodes(job, nodes);
      && DistinctIds(chosen)
      && (forall n :: n in chosen ==> n in nodes && Eligible(n, job))
      && |chosen| <= job.requiredNodes
      && (|chosen| < job.requiredNodes ==> forall n :: n in nodes && Eligible(n, job) ==> n in chosen)
      && (forall n, m :: n in chosen && m in nodes && Eligible(m, job) && m !in chosen ==>
          NodeScore(m, job) <= NodeScore(n, job))
  {
    var eligible, ranked, chosen := EligibleNodes(job, nodes), RankNodes(job, nodes), SelectBestNodes(job, nodes);
    EligibleNodesAre(job, nodes);
    SameElements(eligible, ranked);
    DistinctAfterSorting(eligible, ranked, (n: NodeState) => n.nodeId);
    var key := (n: NodeState) => -NodeScore(n, job);
    PrefixIsLeast(ranked, key, |chosen|);
    assert chosen == ranked[..|chosen|];
    forall n, m | n in chosen && m in nodes && Eligible(m, job) && m !in chosen
      ensures NodeScore(m, job) <= NodeScore(n, job)
    {
      assert m in eligible && m in ranked;
      assert key(n) <= key(m);
    }
  }
}

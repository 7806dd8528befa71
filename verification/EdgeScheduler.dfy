/**
 The edge scheduler (edge/edge_scheduler.py): a priority queue of workloads, the running ones,
 and per node a capacity and a load counter that is updated step by step.

 Workload ids are taken to be unique among the workloads in the scheduler.
 */
module EdgeSchedulers {
  import opened Options
  import opened StableSort

  datatype NodeId = NodeId(name: string)

  datatype WorkloadId = WorkloadId(name: string)

  const NOBODY := NodeId("")

  datatype Status = Queued | Running | Completed | Failed

  datatype Workload = Workload(id: WorkloadId, priority: int, status: Status, node: NodeId)

  /** `peak` is history: the largest capacity each registered node has had since it was registered. */
  datatype Edge = Edge(
    queue: seq<Workload>, running: map<WorkloadId, Workload>, capacity: map<NodeId, int>, load: map<NodeId, int>,
    peak: map<NodeId, int>)

  const EMPTY := Edge([], map[], map[], map[], map[])

  // ----- Operations ------------------------------------------------------------------------------

  function Max(x: int, y: int): int {
    if x < y then y else x
  }

  function Register(s: Edge, n: NodeId, capacity: int): Edge {
    s.(capacity := s.capacity[n := capacity],
       load := if n in s.load then s.load else s.load[n := 0],
       peak := s.peak[n := if n in s.peak then Max(s.peak[n], capacity) else Max(0, capacity)])
  }

  function Back(w: Workload): Workload {
    w.(status := Queued, node := NOBODY)
  }

  ghost function On(running: map<WorkloadId, Workload>, n: NodeId): set<WorkloadId> {
    set id | id in running && running[id].node == n
  }

  /** Taking back the workloads `order` lists, in that order. */
  function Requeue(s: Edge, order: seq<WorkloadId>): Edge {
    if order == [] then s
    else
      var most, id := Requeue(s, order[..|order| - 1]), order[|order| - 1];
      if id in most.running then most.(running := most.running - {id}, queue := most.queue + [Back(most.running[id])])
          else most
  }

  /** `order` is how the running workloads of the node are listed. */
  function Unregister(s: Edge, n: NodeId, order: seq<WorkloadId>): Edge {
    Requeue(s.(capacity := s.capacity - {n}, load := s.load - {n}, peak := s.peak - {n}), order)
  }

  function Submit(s: Edge, w: Workload): Edge {
    s.(queue := SortBy(s.queue + [w], (x: Workload) => -(x.priority as real)))
  }

  function Headroom(s: Edge, n: NodeId): int
    requires n in s.capacity
  {
    s.capacity[n] - if n in s.load then s.load[n] else 0
  }

  /** The best node so far after looking at the nodes of `order`. */
  function Pick(s: Edge, order: seq<NodeId>): Option<NodeId> {
    if order == [] then None
    else
      var best, n := Pick(s, order[..|order| - 1]), order[|order| - 1];
      if n !in s.capacity then best
      else if Headroom(s, n) > 0 && (best.None? || best.value !in s.capacity
          || Headroom(s, n) > Headroom(s, best.value)) then Some(n)
      else best
  }

  function Assign(s: Edge, n: NodeId): Edge
    requires s.queue != []
  {
    var w := s.queue[0].(status := Running, node := n);
    s.(queue := s.queue[1..], running := s.running[w.id := w],
        load := s.load[n := (if n in s.load then s.load[n] else 0) + 1])
  }

  /** A node with an empty name is never used: the source takes it for "no node". */
  function ScheduleNext(s: Edge, order: seq<NodeId>): Edge {
    if s.queue == [] then s
    else match Pick(s, order)
         case None => s
         case Some(n) => if n == NOBODY then s else Assign(s, n)
  }

  function Complete(s: Edge, id: WorkloadId): Edge {
    if id !in s.running then s
    else
      var n := s.running[id].node;
      s.(running := s.running - {id}, load := if n in s.load then s.load[n := Max(0, s.load[n] - 1)] else s.load)
  }

  // ----- The invariant ---------------------------------------------------------------------------

  /** The counter of a node is the number of workloads running on it, and never above its peak capacity. */
  ghost predicate Counted(s: Edge, n: NodeId) {
    n in s.capacity ==>
      && n in s.load && n in s.peak
      && s.load[n] == |On(s.running, n)|
      && s.load[n] <= s.peak[n] && s.capacity[n] <= s.peak[n]
  }

  ghost predicate AllCounted(s: Edge) {
    && s.load.Keys == s.capacity.Keys && s.peak.Keys == s.capacity.Keys
    && forall n {:trigger Counted(s, n)} :: Counted(s, n)
  }

  /** A running workload is on a registered node, and is not queued as well. */
  ghost predicate Settled(s: Edge, id: WorkloadId) {
    id in s.running ==>
      s.running[id].id == id && s.running[id].node in s.capacity && forall i :: 0 <= i < |s.queue| ==>
          s.queue[i].id != id
  }

  ghost predicate UniqueQueue(queue: seq<Workload>) {
    DistinctBy(queue, (w: Workload) => w.id)
  }

  ghost predicate Inv(s: Edge) {
    AllCounted(s) && UniqueQueue(s.queue) && forall id {:trigger Settled(s, id)} :: Settled(s, id)
  }

  /** All workload ids in the scheduler. */
  ghost function Known(s: Edge): set<WorkloadId> {
    (set i | 0 <= i < |s.queue| :: s.queue[i].id) + s.running.Keys
  }

  // ----- Counting --------------------------------------------------------------------------------

  lemma OneMore(running: map<WorkloadId, Workload>, w: Workload, n: NodeId)
    requires w.id !in running
    ensures On(running[w.id := w], n) == On(running, n) + if w.node == n then {w.id} else {}
    ensures |On(running[w.id := w], n)| == |On(running, n)| + if w.node == n then 1 else 0
  {
  }

  lemma OneLess(running: map<WorkloadId, Workload>, id: WorkloadId, n: NodeId)
    requires id in running
    ensures On(running - {id}, n) == On(running, n) - {id}
    ensures |On(running - {id}, n)| == |On(running, n)| - if running[id].node == n then 1 else 0
  {
  }

  // ----- Every operation keeps the invariant -----------------------------------------------------

  lemma RegisterKeeps(s: Edge, n: NodeId, capacity: int)
    requires Inv(s)
    ensures Inv(Register(s, n, capacity)) && Known(Register(s, n, capacity)) == Known(s)
  {
    var s' := Register(s, n, capacity);
    assert Counted(s, n);
    if n !in s.capacity {
      NothingOnStrangers(s, n);
    }
    forall m
      ensures Counted(s', m)
    {
      assert Counted(s, m);
    }
    forall id
      ensures Settled(s', id)
    {
      assert Settled(s, id);
    }
  }

  lemma NothingOnStrangers(s: Edge, n: NodeId)
    requires Inv(s) && n !in s.capacity
    ensures On(s.running, n) == {}
  {
    forall id | id in s.running
      ensures s.running[id].node != n
    {
      assert Settled(s, id);
    }
  }

  lemma SubmitKeeps(s: Edge, w: Workload)
    requires Inv(s) && w.id !in Known(s)
    ensures Inv(Submit(s, w)) && multiset(Submit(s, w).queue) == multiset(s.queue) + multiset{w}
    ensures SortedBy(Submit(s, w).queue, (x: Workload) => -(x.priority as real))
  {
    var s' := Submit(s, w);
    SubmitQueue(s.queue, w);
    forall n
      ensures Counted(s', n)
    {
      assert Counted(s, n);
    }
    forall id
      ensures Settled(s', id)
    {
      assert Settled(s, id);
      if id in s.running {
        forall i | 0 <= i < |s'.queue|
          ensures s'.queue[i].id != id
        {
          assert s'.queue[i] in s'.queue && s'.queue[i] in s.queue + [w];
        }
      }
    }
  }

  lemma SubmitQueue(queue: seq<Workload>, w: Workload)
    requires UniqueQueue(queue) && forall i :: 0 <= i < |queue| ==> queue[i].id != w.id
    ensures var sorted := SortBy(queue + [w], (x: Workload) => -(x.priority as real));
      UniqueQueue(sorted) && forall x :: x in sorted <==> x in queue + [w]
  {
    var sorted := SortBy(queue + [w], (x: Workload) => -(x.priority as real));
    DistinctAfterSorting(queue + [w], sorted, (x: Workload) => x.id);
    SameElements(queue + [w], sorted);
  }

  /** A node is picked among those with room, and none has more room; if none is picked, none has room. */
  lemma {:induction false} PickIsRoomiest(s: Edge, order: seq<NodeId>)
    ensures Pick(s, order).Some? ==>
        Pick(s, order).value in order && Pick(s, order).value in s.capacity && Headroom(s, Pick(s, order).value) > 0
    ensures forall n :: n in order && n in s.capacity && Headroom(s, n) > 0 ==>
      Pick(s, order).Some? && Pick(s, order).value in s.capacity && Headroom(s, n) <= Headroom(s, Pick(s, order).value)
  {
    if order != [] {
      assert order == order[..|order| - 1] + [order[|order| - 1]];
      PickIsRoomiest(s, order[..|order| - 1]);
    }
  }

  /** What picking means on capacities and counters: the node with the greatest difference, if any is above zero. */
  lemma PickMeans(s: Edge, order: seq<NodeId>)
    requires Inv(s) && forall n :: n in order <==> n in s.capacity
    ensures s.load.Keys == s.capacity.Keys
    ensures Pick(s, order) == None <==> forall n :: n in s.capacity ==> s.capacity[n] <= s.load[n]
    ensures Pick(s, order).Some? ==>
      var best := Pick(s, order).value;
      && best in s.capacity && s.load[best] < s.capacity[best]
      && forall n :: n in s.capacity ==> s.capacity[n] - s.load[n] <= s.capacity[best] - s.load[best]
  {
    PickIsRoomiest(s, order);
    forall n | n in s.capacity
      ensures Headroom(s, n) == s.capacity[n] - s.load[n]
    {
    }
  }

  lemma AssignKeeps(s: Edge, n: NodeId)
    requires Inv(s) && s.queue != [] && n in s.capacity && Headroom(s, n) > 0
    ensures Inv(Assign(s, n)) && Assign(s, n).load[n] <= s.capacity[n]
    ensures Known(Assign(s, n)) == Known(s)
  {
    var s', w := Assign(s, n), s.queue[0].(status := Running, node := n);
    assert Settled(s, w.id) && w.id !in s.running;
    forall m
      ensures Counted(s', m)
    {
      assert Counted(s, m) && Counted(s, n);
      OneMore(s.running, w, m);
    }
    forall id
      ensures Settled(s', id)
    {
      assert Settled(s, id);
    }
    assert s.queue == [s.queue[0]] + s.queue[1..];
    AssignKnown(s, n);
  }

  lemma AssignKnown(s: Edge, n: NodeId)
    requires s.queue != []
    ensures Known(Assign(s, n)) == Known(s)
  {
    var s' := Assign(s, n);
    forall id | id in Known(s)
      ensures id in Known(s')
    {
      if id !in s.running {
        var i :| 0 <= i < |s.queue| && s.queue[i].id == id;
        if i > 0 {
          assert s'.queue[i - 1].id == id;
        }
      }
    }
    forall id | id in Known(s')
      ensures id in Known(s)
    {
      if id !in s'.running {
        var i :| 0 <= i < |s'.queue| && s'.queue[i].id == id;
        assert s.queue[i + 1].id == id;
      }
    }
  }

  /**
   Scheduling is refused exactly when the queue is empty, no node has room, or the roomiest node
   found has an empty name.
   */
  lemma ScheduleKeeps(s: Edge, order: seq<NodeId>)
    requires Inv(s) && forall n :: n in order <==> n in s.capacity
    ensures Inv(ScheduleNext(s, order)) && Known(ScheduleNext(s, order)) == Known(s)
    ensures ScheduleNext(s, order) == s <==>
      s.queue == [] || (forall n :: n in s.capacity ==> Headroom(s, n) <= 0) || Pick(s, order) == Some(NOBODY)
  {
    PickIsRoomiest(s, order);
    if s.queue != [] && Pick(s, order).Some? {
      AssignKeeps(s, Pick(s, order).value);
      assert |Assign(s, Pick(s, order).value).queue| != |s.queue|;
    }
  }

  /** A node without a name that is the roomiest blocks the scheduler, although another node has room. */
  lemma NamelessNodeBlocks(n: NodeId, w: Workload, order: seq<NodeId>)
    requires n != NOBODY && forall m :: m in order <==> m == NOBODY || m == n
    ensures var s := Submit(Register(Register(EMPTY, NOBODY, 4), n, 3), w);
      && Inv(s) && s.queue != [] && s.capacity.Keys == {NOBODY, n} && Headroom(s, n) == 3
      && ScheduleNext(s, order) == s
  {
    TwoNodes(n);
    var s0 := Register(Register(EMPTY, NOBODY, 4), n, 3);
    var s := Submit(s0, w);
    SubmitKeeps(s0, w);
    assert w in multiset(s.queue);
    RoomiestIsPicked(s, NOBODY, order);
  }

  lemma TwoNodes(n: NodeId)
    requires n != NOBODY
    ensures var s := Register(Register(EMPTY, NOBODY, 4), n, 3);
      && Inv(s) && Known(s) == {} && s.queue == []
      && s.capacity == map[NOBODY := 4, n := 3] && s.load == map[NOBODY := 0, n := 0]
  {
    RegisterKeeps(EMPTY, NOBODY, 4);
    RegisterKeeps(Register(EMPTY, NOBODY, 4), n, 3);
  }

  lemma RoomiestIsPicked(s: Edge, best: NodeId, order: seq<NodeId>)
    requires best in order && best in s.capacity && Headroom(s, best) > 0
    requires forall n :: n in s.capacity && n != best ==> Headroom(s, n) < Headroom(s, best)
    ensures Pick(s, order) == Some(best)
  {
    PickIsRoomiest(s, order);
  }

  /** The clamp at zero in `complete` never acts, and the counter stays exact. */
  lemma CompleteKeeps(s: Edge, id: WorkloadId)
    requires Inv(s) && id in s.running
    ensures Inv(Complete(s, id))
    ensures s.running[id].node in s.load && s.load[s.running[id].node] >= 1
    ensures Complete(s, id).load == s.load[s.running[id].node := s.load[s.running[id].node] - 1]
    ensures Known(Complete(s, id)) == Known(s) - {id}
  {
    var s', n := Complete(s, id), s.running[id].node;
    assert Settled(s, id) && Counted(s, n);
    assert id in On(s.running, n);
    forall m
      ensures Counted(s', m)
    {
      assert Counted(s, m);
      OneLess(s.running, id, m);
    }
    forall j
      ensures Settled(s', j)
    {
      assert Settled(s, j);
    }
  }

  // ----- Removing a node -------------------------------------------------------------------------

  /** One workload goes back to the queue; the node it ran on has left already. */
  lemma BackKeeps(s: Edge, id: WorkloadId, n: NodeId, left: set<WorkloadId>)
    requires Removing(s, n, left) && id in left && id in s.running
    ensures var s' := s.(running := s.running - {id}, queue := s.queue + [Back(s.running[id])]);
      Removing(s', n, left - {id}) && Known(s') == Known(s)
  {
    var s' := s.(running := s.running - {id}, queue := s.queue + [Back(s.running[id])]);
    assert Leaving(s, n, left, id);
    forall m
      ensures Counted(s', m)
    {
      assert Counted(s, m);
      OneLess(s.running, id, m);
    }
    forall j
      ensures Leaving(s', n, left - {id}, j)
    {
      assert Leaving(s, n, left, j);
    }
    BackKnown(s, id);
  }

  lemma BackKnown(s: Edge, id: WorkloadId)
    requires id in s.running && s.running[id].id == id
    ensures Known(s.(running := s.running - {id}, queue := s.queue + [Back(s.running[id])])) == Known(s)
  {
    var s' := s.(running := s.running - {id}, queue := s.queue + [Back(s.running[id])]);
    forall j | j in Known(s)
      ensures j in Known(s')
    {
      if j !in s.running {
        var i :| 0 <= i < |s.queue| && s.queue[i].id == j;
        assert s'.queue[i].id == j;
      } else if j == id {
        assert s'.queue[|s.queue|].id == id;
      }
    }
    forall j | j in Known(s')
      ensures j in Known(s)
    {
      if j !in s'.running {
        var i :| 0 <= i < |s'.queue| && s'.queue[i].id == j;
        assert i < |s.queue| ==> s.queue[i].id == j;
      }
    }
  }

  /** While a node is being removed, exactly the workloads in `left` still run on it. */
  ghost predicate Leaving(s: Edge, n: NodeId, left: set<WorkloadId>, id: WorkloadId) {
    && (id in left ==> id in s.running)
    && (id in s.running ==>
          && s.running[id].id == id && (id in left <==> s.running[id].node == n)
          && (id !in left ==> s.running[id].node in s.capacity)
          && forall i :: 0 <= i < |s.queue| ==> s.queue[i].id != id)
  }

  ghost predicate Removing(s: Edge, n: NodeId, left: set<WorkloadId>) {
    && n !in s.capacity && AllCounted(s) && UniqueQueue(s.queue)
    && forall id {:trigger Leaving(s, n, left, id)} :: Leaving(s, n, left, id)
  }

  lemma {:induction false} RequeueKeeps(s: Edge, n: NodeId, left: set<WorkloadId>, order: seq<WorkloadId>)
    requires Removing(s, n, left) && forall i :: 0 <= i < |order| ==> order[i] in left
    requires forall i, j :: 0 <= i < j < |order| ==> order[i] != order[j]
    ensures Removing(Requeue(s, order), n, left - set id | id in order) && Known(Requeue(s, order)) == Known(s)
  {
    if order == [] {
      assert left - (set id | id in order) == left;
    } else {
      var most, id := order[..|order| - 1], order[|order| - 1];
      assert order == most + [id];
      RequeueKeeps(s, n, left, most);
      var rest := left - set j | j in most;
      assert id in rest;
      assert Leaving(Requeue(s, most), n, rest, id);
      BackKeeps(Requeue(s, most), id, n, rest);
      assert left - (set j | j in order) == rest - {id};
    }
  }

  ghost predicate AllRunning(running: map<WorkloadId, Workload>, order: seq<WorkloadId>) {
    forall i :: 0 <= i < |order| ==> order[i] in running
  }

  ghost function Orphans(running: map<WorkloadId, Workload>, order: seq<WorkloadId>): (orphans: seq<Workload>)
    requires AllRunning(running, order)
    ensures |orphans| == |order|
    ensures forall i :: 0 <= i < |order| ==> orphans[i] == running[order[i]].(status := Queued, node := NodeId(""))
  {
    seq(|order|, i requires 0 <= i < |order| => Back(running[order[i]]))
  }

  ghost function Ids(order: seq<WorkloadId>): set<WorkloadId> {
    set id | id in order
  }

  lemma OrphansSnoc(running: map<WorkloadId, Workload>, order: seq<WorkloadId>, id: WorkloadId)
    requires AllRunning(running, order + [id])
    ensures id in running && AllRunning(running, order)
    ensures Orphans(running, order + [id]) == Orphans(running, order) + [Back(running[id])]
    ensures Ids(order + [id]) == Ids(order) + {id}
  {
    var all := order + [id];
    assert all[|order|] == id && forall i :: 0 <= i < |order| ==> all[i] == order[i];
  }

  lemma RequeueSnoc(s: Edge, order: seq<WorkloadId>, id: WorkloadId)
    requires id in Requeue(s, order).running
    ensures var most := Requeue(s, order);
      Requeue(s, order + [id]) ==
        most.(running := most.running - {id}, queue := most.queue + [Back(most.running[id])])
  {
    assert (order + [id])[..|order|] == order;
  }

  ghost predicate NoneTwice(order: seq<WorkloadId>) {
    forall i, j :: 0 <= i < j < |order| ==> order[i] != order[j]
  }

  lemma NoneTwiceSnoc(order: seq<WorkloadId>, id: WorkloadId)
    requires NoneTwice(order + [id])
    ensures NoneTwice(order) && id !in Ids(order)
  {
    var all := order + [id];
    assert all[|order|] == id && forall i :: 0 <= i < |order| ==> all[i] == order[i];
  }

  ghost predicate Taken(s: Edge, order: seq<WorkloadId>, s': Edge)
    requires AllRunning(s.running, order)
  {
    && s'.running == s.running - Ids(order) && s'.queue == s.queue + Orphans(s.running, order)
    && s'.capacity == s.capacity && s'.load == s.load && s'.peak == s.peak
  }

  /** Taking back several workloads: they leave the running ones and stand at the end of the queue, without a node. */
  lemma {:induction false} RequeueIs(s: Edge, order: seq<WorkloadId>)
    requires AllRunning(s.running, order) && NoneTwice(order)
    ensures Taken(s, order, Requeue(s, order))
  {
    if order != [] {
      var most, id := order[..|order| - 1], order[|order| - 1];
      assert order == most + [id];
      OrphansSnoc(s.running, most, id);
      NoneTwiceSnoc(most, id);
      RequeueIs(s, most);
      RequeueSnoc(s, most, id);
      assert s.running - Ids(most) - {id} == s.running - Ids(order);
    }
  }

  /** The loop that takes workloads back from a node. */
  method TakeBack(running0: map<WorkloadId, Workload>, queue0: seq<Workload>, order: seq<WorkloadId>)
      returns (running: map<WorkloadId, Workload>, queue: seq<Workload>, orphaned: seq<Workload>)
    requires AllRunning(running0, order) && NoneTwice(order)
    ensures running == running0 - Ids(order) && queue == queue0 + orphaned && orphaned == Orphans(running0, order)
  {
    running, queue, orphaned := running0, queue0, [];
    for i := 0 to |order|
      invariant AllRunning(running0, order[..i]) && NoneTwice(order[..i])
      invariant running == running0 - Ids(order[..i])
      invariant queue == queue0 + orphaned && orphaned == Orphans(running0, order[..i])
    {
      assert order[..i + 1] == order[..i] + [order[i]];
      OrphansSnoc(running0, order[..i], order[i]);
      NoneTwiceSnoc(order[..i], order[i]);
      if order[i] in running {
        var w := running[order[i]].(status := Queued, node := NOBODY);
        running := running - {order[i]};
        queue := queue + [w];
        orphaned := orphaned + [w];
      }
    }
    assert order[..|order|] == order;
  }

  /** Removing a node loses no workload: what ran on it is queued again. */
  lemma UnregisterKeeps(s: Edge, n: NodeId, order: seq<WorkloadId>)
    requires Inv(s) && Ids(order) == On(s.running, n) && NoneTwice(order)
    ensures Inv(Unregister(s, n, order)) && Known(Unregister(s, n, order)) == Known(s)
    ensures On(Unregister(s, n, order).running, n) == {} && n !in Unregister(s, n, order).capacity
  {
    var s0 := s.(capacity := s.capacity - {n}, load := s.load - {n}, peak := s.peak - {n});
    var left := On(s.running, n);
    forall m
      ensures Counted(s0, m)
    {
      assert Counted(s, m);
    }
    forall id
      ensures Leaving(s0, n, left, id)
    {
      assert Settled(s, id);
    }
    forall i | 0 <= i < |order|
      ensures order[i] in left
    {
      assert order[i] in set id | id in order;
    }
    RequeueKeeps(s0, n, left, order);
    var s' := Unregister(s, n, order);
    assert left - (set id | id in order) == {};
    forall id
      ensures Settled(s', id) && id !in On(s'.running, n)
    {
      assert Leaving(s', n, {}, id);
    }
  }

  lemma UnregisterIs(s: Edge, n: NodeId, order: seq<WorkloadId>)
    requires Ids(order) == On(s.running, n) && NoneTwice(order)
    ensures AllRunning(s.running, order)
    ensures Taken(s.(capacity := s.capacity - {n}, load := s.load - {n}, peak := s.peak - {n}), order,
                Unregister(s, n, order))
  {
    forall i | 0 <= i < |order|
      ensures order[i] in s.running
    {
      assert order[i] in Ids(order);
    }
    RequeueIs(s.(capacity := s.capacity - {n}, load := s.load - {n}, peak := s.peak - {n}), order);
  }

  // ----- The class -------------------------------------------------------------------------------

  class EdgeScheduler {
    var queue: seq<Workload>
    var running: map<WorkloadId, Workload>
    var capacity: map<NodeId, int>
    var load: map<NodeId, int>
    ghost var peak: map<NodeId, int>

    ghost function View(): Edge
      reads this
    {
      Edge(queue, running, capacity, load, peak)
    }

    ghost predicate Valid()
      reads this
    {
      Inv(View())
    }

    constructor ()
      ensures Valid() && View() == EMPTY
    {
      queue, running, capacity, load, peak := [], map[], map[], map[], map[];
    }

    method RegisterNode(n: NodeId, room: int)
      requires Valid()
      modifies this
      ensures Valid() && View() == Register(old(View()), n, room)
      ensures capacity == old(capacity)[n := room] && queue == old(queue) && running == old(running)
      ensures load == old(load)[n := if n in old(load) then old(load)[n] else 0]
    {
      RegisterKeeps(View(), n, room);
      capacity := capacity[n := room];
      if n !in load {
        load := load[n := 0];
      }
      peak := peak[n := if n in peak then Max(peak[n], room) else Max(0, room)];
    }

    /** `order` lists the workloads found running on the node. */
    method UnregisterNode(n: NodeId, order: seq<WorkloadId>) returns (orphaned: seq<Workload>)
      requires Valid() && Ids(order) == On(running, n) && NoneTwice(order)
      modifies this
      ensures Valid() && View() == Unregister(old(View()), n, order)
      ensures queue == old(queue) + orphaned && |orphaned| == |order|
      ensures AllRunning(old(running), order) && forall i :: 0 <= i < |order| ==>
          orphaned[i] == old(running)[order[i]].(status := Queued, node := NodeId(""))
      ensures capacity == old(capacity) - {n} && load == old(load) - {n}
      ensures running == old(running) - set id | id in old(running) && old(running)[id].node == n
    {
      UnregisterKeeps(View(), n, order);
      UnregisterIs(View(), n, order);
      capacity, load, peak := capacity - {n}, load - {n}, peak - {n};
      running, queue, orphaned := TakeBack(running, queue, order);
    }

    method SubmitWorkload(w: Workload)
      requires Valid() && w.id !in Known(View())
      modifies this
      ensures Valid() && View() == Submit(old(View()), w)
      ensures multiset(queue) == multiset(old(queue)) + multiset{w} && running == old(running)
      ensures forall i, j :: 0 <= i < j < |queue| ==> queue[i].priority >= queue[j].priority
    {
      SubmitKeeps(View(), w);
      queue := queue + [w];
      queue := SortBy(queue, (x: Workload) => -(x.priority as real));
    }

    /** `order` is how the capacity dictionary lists its nodes. */
    method PickNode(order: seq<NodeId>) returns (best: Option<NodeId>)
      requires forall n :: n in order ==> n in capacity
      ensures best == Pick(View(), order)
    {
      best := None;
      var bestHeadroom := -1;
      for i := 0 to |order|
        invariant best == Pick(View(), order[..i])
        invariant best.None? ==> bestHeadroom == -1
        invariant best.Some? ==> best.value in capacity && bestHeadroom == Headroom(View(), best.value)
      {
        assert order[..i + 1][..i] == order[..i] && order[i] in order;
        var current := if order[i] in load then load[order[i]] else 0;
        var headroom := capacity[order[i]] - current;
        if headroom > 0 && headroom > bestHeadroom {
          best, bestHeadroom := Some(order[i]), headroom;
        }
      }
      assert order[..|order|] == order;
    }

    method ScheduleNextWorkload(order: seq<NodeId>) returns (scheduled: Option<Workload>)
      requires Valid() && forall n :: n in order <==> n in capacity
      modifies this
      ensures Valid() && View() == ScheduleNext(old(View()), order)
      ensures scheduled.Some? <==> View() != old(View())
      ensures old(load).Keys == old(capacity).Keys == capacity.Keys
      ensures scheduled.None? && old(queue) != [] && NodeId("") !in old(capacity) ==>
        forall n :: n in old(capacity) ==> old(capacity)[n] <= old(load)[n]
      ensures scheduled.Some? ==> var n := scheduled.value.node;
        && old(queue) != [] && scheduled.value == old(queue)[0].(status := Running, node := n)
        && queue == old(queue)[1..] && running == old(running)[scheduled.value.id := scheduled.value]
        && n in old(capacity) && old(load)[n] < old(capacity)[n] && load == old(load)[n := old(load)[n] + 1]
        && forall m :: m in old(capacity) ==> old(capacity)[m] - old(load)[m] <= old(capacity)[n] - old(load)[n]
    {
      ScheduleKeeps(View(), order);
      PickMeans(View(), order);
      if queue == [] {
        return None;
      }
      var best := PickNode(order);
      if best == None || best.value == NOBODY {
        return None;
      }
      var w := AssignTo(best.value);
      return Some(w);
    }

    method AssignTo(n: NodeId) returns (w: Workload)
      requires queue != []
      modifies this
      ensures View() == Assign(old(View()), n) && |queue| == |old(queue)| - 1
      ensures w == old(queue)[0].(status := Running, node := n)
    {
      w := queue[0].(status := Running, node := n);
      queue := queue[1..];
      running := running[w.id := w];
      load := load[n := (if n in load then load[n] else 0) + 1];
    }

    method CompleteWorkload(id: WorkloadId, success: bool) returns (done: Option<Workload>)
      requires Valid()
      modifies this
      ensures Valid() && View() == Complete(old(View()), id)
      ensures done == if id in old(running)
          then Some(old(running)[id].(status := if success then Completed else Failed)) else None
      ensures running == old(running) - {id} && queue == old(queue)
      ensures done.Some? ==>
        var n := done.value.node;
        n in old(load) && load == old(load)[n := old(load)[n] - 1]
      ensures done.None? ==> load == old(load)
    {
      if id !in running {
        return None;
      }
      CompleteKeeps(View(), id);
      var w := running[id];
      running := running - {id};
      if w.node in load {
        load := load[w.node := Max(0, load[w.node] - 1)];
      }
      return Some(w.(status := if success then Completed else Failed));
    }
  }
}

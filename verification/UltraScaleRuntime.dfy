/**
 The ultra-scale runtime (runtime/ultra_scale_runtime.py): a bounded queue of job ids that is
 re-sorted by priority whenever jobs are dispatched, a table of running jobs, and counters.

 Callers are taken to use job ids that are not in the table already; a reused id would appear
 in the queue twice.
 */
module UltraScaleRuntimes {
  import opened Collections
  import opened Options
  import opened StableSort

  datatype JobId = JobId(name: string)

  datatype Priority = Critical | High | Normal | Low | Background

  datatype JobState = Queued | Dispatched | Completed | Failed | Cancelled

  datatype Job = Job(id: JobId, priority: Priority, state: JobState)

  /** The runtime's tables and counters; `cancelled` and `turns` are history the source does not keep. */
  datatype Runtime = Runtime(
    jobs: map<JobId, Job>, queued: seq<JobId>, running: map<JobId, Job>,
    submitted: nat, completed: nat, failed: nat, cancelled: nat, turns: map<JobId, nat>)

  const EMPTY := Runtime(map[], [], map[], 0, 0, 0, 0, map[])

  function Rank(p: Priority): int {
    match p
    case Critical => 0
    case High => 1
    case Normal => 2
    case Low => 3
    case Background => 4
  }

  /** One priority is at least as urgent as another: critical, high, normal, low, background. */
  ghost predicate NoLessUrgent(a: Priority, b: Priority) {
    match b
    case Critical => a == Critical
    case High => a == Critical || a == High
    case Normal => a == Critical || a == High || a == Normal
    case Low => a != Background
    case Background => true
  }

  lemma RankOrders(a: Priority, b: Priority)
    ensures Rank(a) <= Rank(b) <==> NoLessUrgent(a, b)
    ensures Rank(a) == Rank(b) <==> a == b
  {
  }

  /** The sort key of the queue: an id that is not in the table counts as normal. */
  function Key(jobs: map<JobId, Job>): JobId -> real {
    (id: JobId) => (if id in jobs then Rank(jobs[id].priority) else 2) as real
  }

  /** The number under which a job was accepted. */
  ghost function Turn(turns: map<JobId, nat>): JobId -> int {
    (id: JobId) => if id in turns then turns[id] else 0
  }

  function Min(x: int, y: int): int {
    if x < y then x else y
  }

  // ----- Operations ------------------------------------------------------------------------------

  function Submit(s: Runtime, job: Job, maxQueue: int): Runtime {
    if |s.queued| >= maxQueue then s
    else s.(jobs := s.jobs[job.id := job.(state := Queued)], queued := s.queued + [job.id],
            turns := s.turns[job.id := s.submitted], submitted := s.submitted + 1)
  }

  function SubmitAll(s: Runtime, batch: seq<Job>, maxQueue: int): Runtime {
    if batch == [] then s else Submit(SubmitAll(s, batch[..|batch| - 1], maxQueue), batch[|batch| - 1], maxQueue)
  }

  function SortQueue(s: Runtime): Runtime {
    s.(queued := SortBy(s.queued, Key(s.jobs)))
  }

  /** Pops the front of the queue and starts it. */
  function StartFirst(s: Runtime): Runtime {
    if s.queued == [] || s.queued[0] !in s.jobs then s
    else
      var id := s.queued[0];
      var job := s.jobs[id].(state := Dispatched);
      s.(queued := s.queued[1..], jobs := s.jobs[id := job], running := s.running[id := job])
  }

  function StartMany(s: Runtime, k: nat): Runtime {
    if k == 0 then s else StartFirst(StartMany(s, k - 1))
  }

  function CountToStart(maxConcurrent: nat, running: nat, maxDispatch: int, queued: nat): nat {
    var n := Min(Min(maxConcurrent - running, maxDispatch), queued);
    if n < 0 then 0 else n
  }

  function DispatchCount(s: Runtime, maxConcurrent: nat, maxDispatch: int): nat {
    CountToStart(maxConcurrent, |s.running|, maxDispatch, |s.queued|)
  }

  function Dispatch(s: Runtime, maxConcurrent: nat, maxDispatch: int): Runtime {
    StartMany(SortQueue(s), DispatchCount(s, maxConcurrent, maxDispatch))
  }

  function Finish(s: Runtime, id: JobId, success: bool): Runtime {
    if id !in s.running then s
    else s.(jobs := s.jobs - {id}, running := s.running - {id},
            completed := if success then s.completed + 1 else s.completed,
            failed := if success then s.failed else s.failed + 1)
  }

  /** `list.remove`: the first occurrence goes. */
  function Remove(ids: seq<JobId>, id: JobId): seq<JobId> {
    if ids == [] then [] else if ids[0] == id then ids[1..] else [ids[0]] + Remove(ids[1..], id)
  }

  function Cancel(s: Runtime, id: JobId): Runtime {
    if id in s.running then s.(jobs := s.jobs - {id}, running := s.running - {id}, cancelled := s.cancelled + 1)
    else if id in s.queued then s.(jobs := s.jobs - {id}, queued := Remove(s.queued, id), cancelled := s.cancelled + 1)
    else s
  }

  // ----- The invariant ---------------------------------------------------------------------------

  /** A job is in the table exactly if it is queued or running, and it is not both. */
  ghost predicate Placed(s: Runtime, id: JobId) {
    && (id in s.jobs <==> id in s.queued || id in s.running)
    && !(id in s.queued && id in s.running)
    && (id in s.jobs ==> s.jobs[id].id == id && (id in s.running ==> s.running[id] == s.jobs[id]))
  }

  ghost predicate AllPlaced(s: Runtime) {
    forall id {:trigger Placed(s, id)} :: Placed(s, id)
  }

  /** Of two queued jobs of one priority, the one accepted first stands first. */
  ghost predicate PairInTurn(jobs: map<JobId, Job>, queued: seq<JobId>, turns: map<JobId, nat>, i: int, j: int)
    requires 0 <= i < j < |queued|
  {
    Key(jobs)(queued[i]) == Key(jobs)(queued[j]) ==> Turn(turns)(queued[i]) < Turn(turns)(queued[j])
  }

  ghost predicate Numbered(turns: map<JobId, nat>, next: nat, id: JobId) {
    id in turns && turns[id] < next
  }

  ghost predicate InTurn(jobs: map<JobId, Job>, queued: seq<JobId>, turns: map<JobId, nat>, next: nat) {
    && (forall id {:trigger Numbered(turns, next, id)} :: id in queued ==> Numbered(turns, next, id))
    && (forall i, j {:trigger PairInTurn(jobs, queued, turns, i, j)} :: 0 <= i < j < |queued| ==>
        PairInTurn(jobs, queued, turns, i, j))
  }

  /** In particular no job is queued twice. */
  lemma InTurnMeans(jobs: map<JobId, Job>, queued: seq<JobId>, turns: map<JobId, nat>, next: nat)
    requires InTurn(jobs, queued, turns, next)
    ensures StampsIncrease(queued, Key(jobs), Turn(turns)) && Distinct(queued)
  {
    forall i, j | 0 <= i < j < |queued|
      ensures queued[i] != queued[j]
      ensures Key(jobs)(queued[i]) == Key(jobs)(queued[j]) ==> Turn(turns)(queued[i]) < Turn(turns)(queued[j])
    {
      assert PairInTurn(jobs, queued, turns, i, j);
    }
  }

  lemma SortedInTurn(jobs: map<JobId, Job>, queued: seq<JobId>, sorted: seq<JobId>, turns: map<JobId, nat>, next: nat)
    requires InTurn(jobs, queued, turns, next) && multiset(sorted) == multiset(queued)
    requires StrictlySorted(sorted, Key(jobs), Turn(turns))
    ensures InTurn(jobs, sorted, turns, next)
  {
    SameElements(queued, sorted);
    forall id | id in sorted
      ensures Numbered(turns, next, id)
    {
      assert id in queued;
    }
    forall i, j | 0 <= i < j < |sorted|
      ensures PairInTurn(jobs, sorted, turns, i, j)
    {
      assert Before(sorted[i], sorted[j], Key(jobs), Turn(turns));
    }
  }

  /** Nothing is lost: what was submitted is waiting, running or accounted for. */
  ghost predicate Conserved(s: Runtime) {
    s.submitted == |s.queued| + |s.running| + s.completed + s.failed + s.cancelled
  }

  ghost predicate Inv(s: Runtime, maxConcurrent: nat) {
    AllPlaced(s) && InTurn(s.jobs, s.queued, s.turns, s.submitted) && Conserved(s) && |s.running| <= maxConcurrent
  }

  // ----- Facts about the queue -------------------------------------------------------------------

  lemma AppendKeepsTurns(jobs: map<JobId, Job>, queued: seq<JobId>, turns: map<JobId, nat>, next: nat, job: Job)
    requires InTurn(jobs, queued, turns, next) && job.id !in queued && job.id !in jobs
    ensures InTurn(jobs[job.id := job], queued + [job.id], turns[job.id := next], next + 1)
  {
    var jobs', turns', queued' := jobs[job.id := job], turns[job.id := next], queued + [job.id];
    forall id | id in queued'
      ensures Numbered(turns', next + 1, id)
    {
      assert id in queued ==> Numbered(turns, next, id);
    }
    forall i, j | 0 <= i < j < |queued'|
      ensures PairInTurn(jobs', queued', turns', i, j)
    {
      assert queued[i] in queued && Numbered(turns, next, queued[i]);
      if j < |queued| {
        assert queued[j] in queued && PairInTurn(jobs, queued, turns, i, j);
      }
    }
  }

  /** Taking jobs out of the queue, or changing jobs without changing the priority of a queued one. */
  lemma PartKeepsTurns(jobs: map<JobId, Job>, jobs': map<JobId, Job>, queued: seq<JobId>, part: seq<JobId>,
                       turns: map<JobId, nat>, next: nat, at: seq<int>)
    requires InTurn(jobs, queued, turns, next)
    requires StandAt(part, queued, at)
    requires forall id :: id in part ==> Key(jobs')(id) == Key(jobs)(id)
    ensures InTurn(jobs', part, turns, next)
  {
    forall id | id in part
      ensures Numbered(turns, next, id)
    {
      var i :| 0 <= i < |part| && part[i] == id;
      assert queued[at[i]] in queued;
    }
    forall i, j | 0 <= i < j < |part|
      ensures PairInTurn(jobs', part, turns, i, j)
    {
      assert part[i] in part && part[j] in part;
      assert PairInTurn(jobs, queued, turns, at[i], at[j]);
    }
  }

  /** The elements of `part` stand in `whole` at the increasing positions `at`. */
  ghost predicate StandAt(part: seq<JobId>, whole: seq<JobId>, at: seq<int>) {
    && |at| == |part|
    && (forall i :: 0 <= i < |part| ==> 0 <= at[i] < |whole| && whole[at[i]] == part[i])
    && (forall i, j :: 0 <= i < j < |part| ==> at[i] < at[j])
  }

  /** The positions one further on, behind a new first one. */
  ghost function Further(at: seq<int>): seq<int> {
    [0] + seq(|at|, i requires 0 <= i < |at| => at[i] + 1)
  }

  lemma StandOneFurther(part: seq<JobId>, whole: seq<JobId>, at: seq<int>, x: JobId)
    requires StandAt(part, whole, at)
    ensures StandAt([x] + part, [x] + whole, Further(at))
  {
    var further := Further(at);
    forall i | 0 <= i < |part| + 1
      ensures 0 <= further[i] < |whole| + 1 && ([x] + whole)[further[i]] == ([x] + part)[i]
    {
      assert i > 0 ==> further[i] == at[i - 1] + 1;
    }
  }

  lemma RestStands(ids: seq<JobId>)
    requires ids != []
    ensures StandAt(ids[1..], ids, seq(|ids| - 1, i => i + 1))
  {
  }

  /** Where the ids that are left stood before. */
  lemma {:induction false} RemovePositions(ids: seq<JobId>, id: JobId) returns (at: seq<int>)
    requires id in ids
    ensures StandAt(Remove(ids, id), ids, at)
  {
    if ids[0] == id {
      RestStands(ids);
      at := seq(|ids| - 1, i => i + 1);
    } else {
      assert ids == [ids[0]] + ids[1..];
      var rest := RemovePositions(ids[1..], id);
      StandOneFurther(Remove(ids[1..], id), ids[1..], rest, ids[0]);
      at := Further(rest);
    }
  }

  lemma DistinctRest(ids: seq<JobId>)
    requires Distinct(ids) && ids != []
    ensures Distinct(ids[1..]) && ids[0] !in ids[1..]
  {
  }

  lemma {:induction false} RemoveMembers(ids: seq<JobId>, id: JobId)
    requires Distinct(ids) && id in ids
    ensures id !in Remove(ids, id) && forall x :: x in ids <==> x == id || x in Remove(ids, id)
  {
    assert ids == [ids[0]] + ids[1..];
    DistinctRest(ids);
    if ids[0] != id {
      RemoveMembers(ids[1..], id);
    }
  }

  lemma SameKeepsTurns(jobs: map<JobId, Job>, jobs': map<JobId, Job>, queued: seq<JobId>,
                       turns: map<JobId, nat>, next: nat)
    requires InTurn(jobs, queued, turns, next) && forall id :: id in queued ==> Key(jobs')(id) == Key(jobs)(id)
    ensures InTurn(jobs', queued, turns, next)
  {
    PartKeepsTurns(jobs, jobs', queued, queued, turns, next, seq(|queued|, i => i));
  }

  lemma TailKeepsTurns(jobs: map<JobId, Job>, jobs': map<JobId, Job>, queued: seq<JobId>,
                       turns: map<JobId, nat>, next: nat)
    requires InTurn(jobs, queued, turns, next) && queued != []
    requires forall id :: id in queued[1..] ==> Key(jobs')(id) == Key(jobs)(id)
    ensures InTurn(jobs', queued[1..], turns, next)
  {
    PartKeepsTurns(jobs, jobs', queued, queued[1..], turns, next, seq(|queued| - 1, i => i + 1));
  }

  lemma RemoveKeepsTurns(jobs: map<JobId, Job>, jobs': map<JobId, Job>, queued: seq<JobId>, id: JobId,
                         turns: map<JobId, nat>, next: nat)
    requires InTurn(jobs, queued, turns, next) && id in queued
    requires forall j :: j in Remove(queued, id) ==> Key(jobs')(j) == Key(jobs)(j)
    ensures InTurn(jobs', Remove(queued, id), turns, next) && |Remove(queued, id)| == |queued| - 1
  {
    var at := RemovePositions(queued, id);
    PartKeepsTurns(jobs, jobs', queued, Remove(queued, id), turns, next, at);
    RemoveIsShorter(queued, id);
  }

  lemma {:induction false} RemoveIsMinus(ids: seq<JobId>, id: JobId)
    ensures multiset(Remove(ids, id)) == multiset(ids) - multiset{id}
  {
    if ids != [] {
      assert ids == [ids[0]] + ids[1..];
      if ids[0] != id {
        RemoveIsMinus(ids[1..], id);
      }
    }
  }

  lemma {:induction false} RemoveIsShorter(ids: seq<JobId>, id: JobId)
    requires id in ids
    ensures |Remove(ids, id)| == |ids| - 1
  {
    if ids[0] != id {
      RemoveIsShorter(ids[1..], id);
    }
  }

  lemma HeadIsUnique(jobs: map<JobId, Job>, queued: seq<JobId>, turns: map<JobId, nat>, next: nat)
    requires InTurn(jobs, queued, turns, next) && queued != []
    ensures queued[0] !in queued[1..]
  {
    InTurnMeans(jobs, queued, turns, next);
  }

  lemma SmallerBy(m: map<JobId, Job>, id: JobId)
    requires id in m
    ensures |m - {id}| == |m| - 1
  {
    assert (m - {id}).Keys == m.Keys - {id};
  }

  // ----- Every operation keeps the invariant -----------------------------------------------------

  lemma SubmitKeeps(s: Runtime, job: Job, maxQueue: int, maxConcurrent: nat)
    requires Inv(s, maxConcurrent) && job.id !in s.jobs
    ensures Inv(Submit(s, job, maxQueue), maxConcurrent)
  {
    if |s.queued| < maxQueue {
      var s' := Submit(s, job, maxQueue);
      assert Placed(s, job.id);
      AppendKeepsTurns(s.jobs, s.queued, s.turns, s.submitted, job.(state := Queued));
      forall id
        ensures Placed(s', id)
      {
        assert Placed(s, id);
      }
    }
  }

  lemma SortKeeps(s: Runtime, maxConcurrent: nat)
    requires Inv(s, maxConcurrent)
    ensures Inv(SortQueue(s), maxConcurrent)
    ensures StrictlySorted(SortQueue(s).queued, Key(s.jobs), Turn(s.turns))
  {
    var s' := SortQueue(s);
    InTurnMeans(s.jobs, s.queued, s.turns, s.submitted);
    SortIsStable(s.queued, Key(s.jobs), Turn(s.turns));
    SortedInTurn(s.jobs, s.queued, s'.queued, s.turns, s.submitted);
    SameElements(s.queued, s'.queued);
    forall id
      ensures Placed(s', id)
    {
      assert Placed(s, id);
    }
  }

  /** The same jobs with the same priorities. */
  ghost predicate SamePriorities(a: map<JobId, Job>, b: map<JobId, Job>) {
    a.Keys == b.Keys && forall id :: id in a ==> b[id].priority == a[id].priority
  }

  /** A running job stays, and one that joins has been dispatched. */
  ghost predicate StaysOrJoins(a: map<JobId, Job>, b: map<JobId, Job>, id: JobId) {
    (id in a ==> id in b && b[id] == a[id]) && (id in b && id !in a ==> b[id].state == Dispatched)
  }

  ghost predicate Joined(a: map<JobId, Job>, b: map<JobId, Job>) {
    forall id {:trigger StaysOrJoins(a, b, id)} :: StaysOrJoins(a, b, id)
  }

  lemma StartKeepsPlaces(s: Runtime, maxConcurrent: nat)
    requires Inv(s, maxConcurrent) && s.queued != []
    ensures s.queued[0] in s.jobs && s.queued[0] !in s.running && AllPlaced(StartFirst(s))
  {
    var s', id := StartFirst(s), s.queued[0];
    assert s.queued == [id] + s.queued[1..];
    HeadIsUnique(s.jobs, s.queued, s.turns, s.submitted);
    assert Placed(s, id);
    forall j
      ensures Placed(s', j)
    {
      assert Placed(s, j);
    }
  }

  lemma StartKeepsTurns(s: Runtime, maxConcurrent: nat)
    requires Inv(s, maxConcurrent) && s.queued != [] && s.queued[0] in s.jobs
    ensures InTurn(StartFirst(s).jobs, s.queued[1..], s.turns, s.submitted)
  {
    var s' := StartFirst(s);
    TailKeepsTurns(s.jobs, s'.jobs, s.queued, s.turns, s.submitted);
  }

  lemma StartKeeps(s: Runtime, maxConcurrent: nat)
    requires Inv(s, maxConcurrent) && s.queued != [] && |s.running| < maxConcurrent
    ensures Inv(StartFirst(s), maxConcurrent) && Started(s, StartFirst(s), 1)
  {
    StartKeepsPlaces(s, maxConcurrent);
    StartKeepsTurns(s, maxConcurrent);
  }

  /** `s'` is what `s` has become after the first `k` queued jobs were started. */
  ghost predicate Started(s: Runtime, s': Runtime, k: nat) {
    && SamePriorities(s.jobs, s'.jobs) && Joined(s.running, s'.running)
    && k <= |s.queued| && s'.queued == s.queued[k..] && |s'.running| == |s.running| + k && s'.turns == s.turns
  }

  lemma StartedOneMore(s: Runtime, m: Runtime, s': Runtime, k: nat)
    requires Started(s, m, k) && Started(m, s', 1)
    ensures Started(s, s', k + 1)
  {
    assert s.queued[k..][1..] == s.queued[k + 1..];
    forall id
      ensures StaysOrJoins(s.running, s'.running, id)
    {
      assert StaysOrJoins(s.running, m.running, id) && StaysOrJoins(m.running, s'.running, id);
    }
  }

  /** Starting `k` jobs takes the first `k` out of the queue and leaves the rest as it stands. */
  lemma {:induction false} StartManyKeeps(s: Runtime, k: nat, maxConcurrent: nat)
    requires Inv(s, maxConcurrent) && k <= |s.queued| && |s.running| + k <= maxConcurrent
    ensures Inv(StartMany(s, k), maxConcurrent) && Started(s, StartMany(s, k), k)
  {
    if k > 0 {
      StartManyKeeps(s, k - 1, maxConcurrent);
      var m := StartMany(s, k - 1);
      StartKeeps(m, maxConcurrent);
      StartedOneMore(s, m, StartFirst(m), k - 1);
    }
  }

  lemma FirstOnesPrecede(sorted: seq<JobId>, k: nat, key: JobId -> real, turn: JobId -> int)
    requires StrictlySorted(sorted, key, turn) && k <= |sorted|
    ensures forall i, j :: 0 <= i < k && 0 <= j < |sorted[k..]| ==> Before(sorted[i], sorted[k..][j], key, turn)
  {
  }

  /**
   Dispatch starts the jobs that come first by priority and then by acceptance, as many as the
   request, the queue and the concurrency limit allow; everything else stays queued.
   */
  lemma DispatchIsPriorityFifo(s: Runtime, maxConcurrent: nat, maxDispatch: int)
    requires Inv(s, maxConcurrent)
    ensures var s', k, sorted := Dispatch(s, maxConcurrent, maxDispatch), DispatchCount(s, maxConcurrent, maxDispatch),
        SortQueue(s).queued;
      && Inv(s', maxConcurrent) && SamePriorities(s.jobs, s'.jobs) && Joined(s.running, s'.running)
      && k <= |sorted| && multiset(sorted) == multiset(s.queued)
      && StrictlySorted(sorted, Key(s.jobs), Turn(s.turns))
      && s'.queued == sorted[k..] && |s'.running| == |s.running| + k
      && (forall i, j :: 0 <= i < k && 0 <= j < |s'.queued| ==>
          Before(sorted[i], s'.queued[j], Key(s.jobs), Turn(s.turns)))
      && (maxDispatch >= 0 ==> |s'.running| == maxConcurrent || k == maxDispatch || s'.queued == [])
  {
    SortKeeps(s, maxConcurrent);
    var k, sorted := DispatchCount(s, maxConcurrent, maxDispatch), SortQueue(s).queued;
    StartManyKeeps(SortQueue(s), k, maxConcurrent);
    FirstOnesPrecede(sorted, k, Key(s.jobs), Turn(s.turns));
  }

  /** Nothing more urgent than a started job stays queued, and nothing equally urgent that was accepted before it. */
  ghost predicate GoesBefore(jobs: map<JobId, Job>, turns: map<JobId, nat>, a: JobId, b: JobId) {
    && a in jobs && b in jobs && a in turns && b in turns
    && NoLessUrgent(jobs[a].priority, jobs[b].priority)
    && (jobs[a].priority == jobs[b].priority ==> turns[a] < turns[b])
  }

  lemma DispatchIsUrgent(s: Runtime, maxConcurrent: nat, maxDispatch: int)
    requires Inv(s, maxConcurrent)
    ensures DispatchCount(s, maxConcurrent, maxDispatch) <= |SortQueue(s).queued|
    ensures var k := DispatchCount(s, maxConcurrent, maxDispatch);
      forall a, b :: a in SortQueue(s).queued[..k] && b in Dispatch(s, maxConcurrent, maxDispatch).queued ==>
        GoesBefore(s.jobs, s.turns, a, b)
  {
    DispatchIsPriorityFifo(s, maxConcurrent, maxDispatch);
    FirstGoBefore(s, SortQueue(s).queued, DispatchCount(s, maxConcurrent, maxDispatch), maxConcurrent);
  }

  lemma FirstGoBefore(s: Runtime, sorted: seq<JobId>, k: nat, maxConcurrent: nat)
    requires Inv(s, maxConcurrent) && multiset(sorted) == multiset(s.queued) && k <= |sorted|
    requires StrictlySorted(sorted, Key(s.jobs), Turn(s.turns))
    ensures forall a, b :: a in sorted[..k] && b in sorted[k..] ==> GoesBefore(s.jobs, s.turns, a, b)
  {
    SameElements(s.queued, sorted);
    forall a, b | a in sorted[..k] && b in sorted[k..]
      ensures GoesBefore(s.jobs, s.turns, a, b)
    {
      var i :| 0 <= i < k && sorted[i] == a;
      var j :| k <= j < |sorted| && sorted[j] == b;
      assert a in sorted && b in sorted && Before(sorted[i], sorted[j], Key(s.jobs), Turn(s.turns));
      QueuedIsNumbered(s, a, maxConcurrent);
      QueuedIsNumbered(s, b, maxConcurrent);
      BeforeIsUrgent(s.jobs, s.turns, a, b);
    }
  }

  lemma QueuedIsNumbered(s: Runtime, id: JobId, maxConcurrent: nat)
    requires Inv(s, maxConcurrent) && id in s.queued
    ensures id in s.jobs && id in s.turns
  {
    assert Placed(s, id) && Numbered(s.turns, s.submitted, id);
  }

  lemma BeforeIsUrgent(jobs: map<JobId, Job>, turns: map<JobId, nat>, a: JobId, b: JobId)
    requires a in jobs && b in jobs && a in turns && b in turns && Before(a, b, Key(jobs), Turn(turns))
    ensures GoesBefore(jobs, turns, a, b)
  {
    RankOrders(jobs[a].priority, jobs[b].priority);
  }

  lemma FinishKeeps(s: Runtime, id: JobId, success: bool, maxConcurrent: nat)
    requires Inv(s, maxConcurrent)
    ensures Inv(Finish(s, id, success), maxConcurrent)
  {
    if id in s.running {
      var s' := Finish(s, id, success);
      SmallerBy(s.running, id);
      assert Placed(s, id);
      SameKeepsTurns(s.jobs, s'.jobs, s.queued, s.turns, s.submitted);
      forall j
        ensures Placed(s', j)
      {
        assert Placed(s, j);
      }
    }
  }

  lemma CancelQueuedKeeps(s: Runtime, id: JobId, maxConcurrent: nat)
    requires Inv(s, maxConcurrent) && id in s.queued && id !in s.running
    ensures Inv(Cancel(s, id), maxConcurrent)
  {
    var s' := Cancel(s, id);
    InTurnMeans(s.jobs, s.queued, s.turns, s.submitted);
    RemoveMembers(s.queued, id);
    RemoveKeepsTurns(s.jobs, s'.jobs, s.queued, id, s.turns, s.submitted);
    forall j
      ensures Placed(s', j)
    {
      assert Placed(s, j);
    }
  }

  lemma CancelKeeps(s: Runtime, id: JobId, maxConcurrent: nat)
    requires Inv(s, maxConcurrent)
    ensures Inv(Cancel(s, id), maxConcurrent)
    ensures Cancel(s, id).jobs == s.jobs - {id}
  {
    assert Placed(s, id);
    if id in s.running {
      var s' := Cancel(s, id);
      SmallerBy(s.running, id);
      SameKeepsTurns(s.jobs, s'.jobs, s.queued, s.turns, s.submitted);
      forall j
        ensures Placed(s', j)
      {
        assert Placed(s, j);
      }
    } else if id in s.queued {
      CancelQueuedKeeps(s, id, maxConcurrent);
    }
  }

  // ----- Batches ---------------------------------------------------------------------------------

  ghost predicate FreshBatch(s: Runtime, batch: seq<Job>) {
    (forall job :: job in batch ==> job.id !in s.jobs) && DistinctBy(batch, (job: Job) => job.id)
  }

  function Ids(jobs: seq<Job>): seq<JobId> {
    seq(|jobs|, i requires 0 <= i < |jobs| => jobs[i].id)
  }

  function Room(s: Runtime, maxQueue: int): nat {
    if maxQueue - |s.queued| < 0 then 0 else maxQueue - |s.queued|
  }

  /** Only jobs of the batch come into the table. */
  lemma {:induction false} BatchAddsItsOwn(s: Runtime, batch: seq<Job>, maxQueue: int, id: JobId)
    requires id in SubmitAll(s, batch, maxQueue).jobs && id !in s.jobs
    ensures exists i :: 0 <= i < |batch| && batch[i].id == id
  {
    var most, last := batch[..|batch| - 1], batch[|batch| - 1];
    if id == last.id {
      assert batch[|batch| - 1].id == id;
    } else {
      BatchAddsItsOwn(s, most, maxQueue, id);
      var i :| 0 <= i < |most| && most[i].id == id;
      assert batch[i].id == id;
    }
  }

  /** A batch is accepted from its front until the queue is full. */
  lemma {:induction false} BatchKeeps(s: Runtime, batch: seq<Job>, maxQueue: int, maxConcurrent: nat)
    requires Inv(s, maxConcurrent) && FreshBatch(s, batch)
    ensures var s', n := SubmitAll(s, batch, maxQueue), Min(|batch|, Room(s, maxQueue));
      Inv(s', maxConcurrent) && s'.queued == s.queued + Ids(batch[..n]) && s'.submitted == s.submitted + n
  {
    if batch != [] {
      var most, last := batch[..|batch| - 1], batch[|batch| - 1];
      assert FreshBatch(s, most);
      BatchKeeps(s, most, maxQueue, maxConcurrent);
      var m, n := SubmitAll(s, most, maxQueue), Min(|most|, Room(s, maxQueue));
      if last.id in m.jobs {
        BatchAddsItsOwn(s, most, maxQueue, last.id);
        assert false;
      }
      SubmitKeeps(m, last, maxQueue, maxConcurrent);
      BatchIds(batch, n);
    }
  }

  lemma NextIsFresh(s: Runtime, batch: seq<Job>, i: nat, maxQueue: int)
    requires FreshBatch(s, batch) && i < |batch|
    ensures batch[i].id !in SubmitAll(s, batch[..i], maxQueue).jobs
  {
    assert batch[i] in batch;
    if batch[i].id in SubmitAll(s, batch[..i], maxQueue).jobs {
      BatchAddsItsOwn(s, batch[..i], maxQueue, batch[i].id);
      assert false;
    }
  }

  lemma BatchIds(batch: seq<Job>, n: nat)
    requires n < |batch|
    ensures batch[..|batch| - 1][..n] == batch[..n] && Ids(batch[..n + 1]) == Ids(batch[..n]) + [batch[n].id]
  {
  }

  lemma {:induction false} StartManyKeepsCounts(s: Runtime, k: nat)
    ensures var s' := StartMany(s, k);
      && s'.submitted == s.submitted && s'.completed == s.completed && s'.failed == s.failed
      && s'.cancelled == s.cancelled && s'.turns == s.turns
  {
    if k > 0 {
      StartManyKeepsCounts(s, k - 1);
    }
  }

  lemma DispatchKeeps(s: Runtime, maxConcurrent: nat, maxDispatch: int)
    requires Inv(s, maxConcurrent)
    ensures Inv(SortQueue(s), maxConcurrent) && Inv(Dispatch(s, maxConcurrent, maxDispatch), maxConcurrent)
    ensures DispatchCount(s, maxConcurrent, maxDispatch) <= |SortQueue(s).queued|
    ensures |s.running| + DispatchCount(s, maxConcurrent, maxDispatch) <= maxConcurrent
  {
    SortKeeps(s, maxConcurrent);
    StartManyKeeps(SortQueue(s), DispatchCount(s, maxConcurrent, maxDispatch), maxConcurrent);
  }

  lemma SameRuntime(a: Runtime, b: Runtime)
    requires a.jobs == b.jobs && a.queued == b.queued && a.running == b.running && a.turns == b.turns
    requires a.submitted == b.submitted && a.completed == b.completed && a.failed == b.failed
        && a.cancelled == b.cancelled
    ensures a == b
  {
  }

  lemma {:induction false} RemoveAbsent(ids: seq<JobId>, id: JobId)
    requires id !in ids
    ensures Remove(ids, id) == ids
  {
    if ids != [] {
      RemoveAbsent(ids[1..], id);
      assert ids == [ids[0]] + ids[1..];
    }
  }

  lemma CancelQueue(s: Runtime, id: JobId, maxConcurrent: nat)
    requires Inv(s, maxConcurrent)
    ensures id !in Remove(s.queued, id)
    ensures id !in s.queued ==> Remove(s.queued, id) == s.queued
    ensures id in s.running ==> id !in s.queued
  {
    assert Placed(s, id);
    InTurnMeans(s.jobs, s.queued, s.turns, s.submitted);
    if id in s.queued {
      RemoveMembers(s.queued, id);
    } else {
      RemoveAbsent(s.queued, id);
    }
  }

  /** After cancelling, the job is nowhere, and the rest of the queue stands as it stood. */
  lemma CancelFacts(s: Runtime, id: JobId, maxConcurrent: nat)
    requires Inv(s, maxConcurrent)
    ensures SameTables(Cancel(s, id), s.jobs - {id}, Remove(s.queued, id), s.running - {id})
    ensures id !in Remove(s.queued, id) && (id in s.jobs <==> id in s.queued || id in s.running)
    ensures Cancel(s, id).completed == s.completed && Cancel(s, id).failed == s.failed
  {
    CancelQueue(s, id, maxConcurrent);
    assert Placed(s, id);
    if id !in s.running {
      assert s.running - {id} == s.running;
    }
    if id !in s.jobs {
      assert s.jobs - {id} == s.jobs;
    }
  }

  /** A batch in the order in which it is submitted. */
  function Urgent(batch: seq<Job>): seq<Job> {
    SortBy(batch, (job: Job) => Rank(job.priority) as real)
  }

  lemma UrgentIsFresh(s: Runtime, batch: seq<Job>)
    requires FreshBatch(s, batch)
    ensures FreshBatch(s, Urgent(batch)) && |Urgent(batch)| == |batch|
  {
    SameElements(batch, Urgent(batch));
    DistinctAfterSorting(batch, Urgent(batch), (job: Job) => job.id);
  }

  /** Who stands among the first n, by ids that differ. */
  lemma FirstByIds(sorted: seq<Job>, n: nat, i: nat)
    requires DistinctBy(sorted, (job: Job) => job.id) && n <= |sorted| && i < |sorted|
    ensures sorted[i].id in Ids(sorted[..n]) <==> i < n
  {
    if i < n {
      assert Ids(sorted[..n])[i] == sorted[i].id;
    }
    if sorted[i].id in Ids(sorted[..n]) {
      var j :| 0 <= j < n && Ids(sorted[..n])[j] == sorted[i].id;
      assert j == i;
    }
  }

  lemma UrgencyOrders(batch: seq<Job>, i: nat, j: nat)
    requires i < j < |Urgent(batch)|
    ensures NoLessUrgent(Urgent(batch)[i].priority, Urgent(batch)[j].priority)
  {
    RankOrders(Urgent(batch)[i].priority, Urgent(batch)[j].priority);
  }

  /**
   Of a batch of which the first ones in order of urgency were queued, no refused job is more
   urgent than a queued one.
   */
  lemma RefusedAreLessUrgent(s: Runtime, batch: seq<Job>, n: nat)
    requires FreshBatch(s, batch) && n <= |batch| && AllPlaced(s)
    ensures n <= |Urgent(batch)|
    ensures var accepted := s.queued + Ids(Urgent(batch)[..n]);
      forall a, r :: a in batch && r in batch && a.id in accepted && r.id !in accepted ==>
          NoLessUrgent(a.priority, r.priority)
  {
    var sorted := Urgent(batch);
    UrgentIsFresh(s, batch);
    SameElements(batch, sorted);
    forall a, r | a in batch && r in batch && a.id in s.queued + Ids(sorted[..n])
        && r.id !in s.queued + Ids(sorted[..n])
      ensures NoLessUrgent(a.priority, r.priority)
    {
      assert Placed(s, a.id);
      var i: nat :| i < |sorted| && sorted[i] == a;
      var j: nat :| j < |sorted| && sorted[j] == r;
      FirstByIds(sorted, n, i);
      FirstByIds(sorted, n, j);
      UrgencyOrders(batch, i, j);
    }
  }

  lemma PrefixIsFresh(s: Runtime, batch: seq<Job>, i: nat)
    requires FreshBatch(s, batch) && i < |batch|
    ensures batch[..i + 1][..i] == batch[..i] && FreshBatch(s, batch[..i])
    ensures batch[i].id !in s.jobs && forall j :: 0 <= j < i ==> batch[..i][j].id != batch[i].id
  {
    assert batch[i] in batch;
  }

  lemma IdsGrow(jobs: seq<Job>, job: Job, ids: seq<JobId>, i: nat)
    requires i < |ids| && Ids(jobs) == ids[..i] && job.id == ids[i]
    ensures Ids(jobs + [job]) == ids[..i + 1]
  {
    assert ids[..i + 1] == ids[..i] + [ids[i]];
    assert Ids(jobs + [job]) == Ids(jobs) + [job.id];
  }

  lemma NextToStart(s: Runtime, i: nat, maxConcurrent: nat)
    requires Inv(s, maxConcurrent) && i < |s.queued| && |s.running| + i < maxConcurrent
    ensures var m := StartMany(s, i);
      && m.queued != [] && m.queued[0] == s.queued[i] && m.queued[0] in m.jobs && m.jobs[m.queued[0]].id == m.queued[0]
      && m.queued[0] in s.jobs && m.jobs[m.queued[0]].priority == s.jobs[m.queued[0]].priority
  {
    StartManyKeeps(s, i, maxConcurrent);
    var m := StartMany(s, i);
    StartKeepsPlaces(m, maxConcurrent);
    assert Placed(m, m.queued[0]);
  }

  ghost predicate SameTables(s: Runtime, jobs: map<JobId, Job>, queued: seq<JobId>, running: map<JobId, Job>) {
    s.jobs == jobs && s.queued == queued && s.running == running
  }

  /** The job, now dispatched, with the priority it has in the table. */
  ghost predicate StartedFrom(jobs: map<JobId, Job>, job: Job) {
    job.state == Dispatched && job.id in jobs && job.priority == jobs[job.id].priority
  }

  /** The dispatch loop over the sorted queue. */
  method StartLoop(count: nat, jobs0: map<JobId, Job>, queued0: seq<JobId>, running0: map<JobId, Job>,
      ghost s: Runtime, ghost maxConcurrent: nat)
      returns (dispatched: seq<Job>, jobs: map<JobId, Job>, queued: seq<JobId>, running: map<JobId, Job>)
    requires SameTables(s, jobs0, queued0, running0)
    requires Inv(s, maxConcurrent) && count <= |s.queued| && |s.running| + count <= maxConcurrent
    ensures SameTables(StartMany(s, count), jobs, queued, running)
    ensures Ids(dispatched) == queued0[..count]
    ensures forall i :: 0 <= i < |dispatched| ==> StartedFrom(s.jobs, dispatched[i])
  {
    dispatched, jobs, queued, running := [], jobs0, queued0, running0;
    for i := 0 to count
      invariant SameTables(StartMany(s, i), jobs, queued, running)
      invariant |dispatched| == i && Ids(dispatched) == queued0[..i]
      invariant forall j :: 0 <= j < i ==> StartedFrom(s.jobs, dispatched[j])
    {
      NextToStart(s, i, maxConcurrent);
      var id := queued[0];
      queued := queued[1..];
      var job := jobs[id].(state := Dispatched);
      jobs := jobs[id := job];
      running := running[id := job];
      IdsGrow(dispatched, job, queued0, i);
      dispatched := dispatched + [job];
    }
  }

  lemma DispatchKeepsCounts(s: Runtime, maxConcurrent: nat, maxDispatch: int)
    ensures var s' := Dispatch(s, maxConcurrent, maxDispatch);
      && s'.submitted == s.submitted && s'.completed == s.completed && s'.failed == s.failed
      && s'.cancelled == s.cancelled && s'.turns == s.turns
  {
    StartManyKeepsCounts(SortQueue(s), DispatchCount(s, maxConcurrent, maxDispatch));
  }

  lemma SortedTables(s: Runtime)
    ensures SameTables(SortQueue(s), s.jobs, SortBy(s.queued, Key(s.jobs)), s.running)
  {
  }

  lemma DispatchTables(s: Runtime, maxConcurrent: nat, maxDispatch: int,
                       jobs: map<JobId, Job>, queued: seq<JobId>, running: map<JobId, Job>)
    requires SameTables(StartMany(SortQueue(s), DispatchCount(s, maxConcurrent, maxDispatch)), jobs, queued, running)
    ensures SameTables(Dispatch(s, maxConcurrent, maxDispatch), jobs, queued, running)
  {
  }

  /** Dispatching, on the three tables it changes. */
  method SortAndStart(jobs0: map<JobId, Job>, queued0: seq<JobId>, running0: map<JobId, Job>,
                      maxConcurrent: nat, maxDispatch: int, ghost s: Runtime)
      returns (dispatched: seq<Job>, jobs: map<JobId, Job>, queued: seq<JobId>, running: map<JobId, Job>)
    requires SameTables(s, jobs0, queued0, running0) && Inv(s, maxConcurrent)
    ensures SameTables(Dispatch(s, maxConcurrent, maxDispatch), jobs, queued, running)
    ensures Ids(dispatched) == SortQueue(s).queued[..DispatchCount(s, maxConcurrent, maxDispatch)]
    ensures forall i :: 0 <= i < |dispatched| ==> StartedFrom(s.jobs, dispatched[i])
  {
    DispatchKeeps(s, maxConcurrent, maxDispatch);
    SortedTables(s);
    var count := CountToStart(maxConcurrent, |running0|, maxDispatch, |queued0|);
    queued := SortBy(queued0, Key(jobs0));
    dispatched, jobs, queued, running := StartLoop(count, jobs0, queued, running0, SortQueue(s), maxConcurrent);
    DispatchTables(s, maxConcurrent, maxDispatch, jobs, queued, running);
  }

  // ----- The class -------------------------------------------------------------------------------

  class UltraScaleRuntime {
    const maxConcurrent: nat
    const maxQueue: int
    var jobs: map<JobId, Job>
    var queued: seq<JobId>
    var running: map<JobId, Job>
    var totalSubmitted: nat
    var totalCompleted: nat
    var totalFailed: nat
    ghost var totalCancelled: nat
    ghost var turns: map<JobId, nat>

    ghost function View(): Runtime
      reads this
    {
      Runtime(jobs, queued, running, totalSubmitted, totalCompleted, totalFailed, totalCancelled, turns)
    }

    ghost predicate Valid()
      reads this
    {
      Inv(View(), maxConcurrent)
    }

    constructor (maxConcurrent: nat, maxQueue: int)
      ensures Valid() && View() == EMPTY && this.maxConcurrent == maxConcurrent && this.maxQueue == maxQueue
    {
      this.maxConcurrent, this.maxQueue := maxConcurrent, maxQueue;
      jobs, queued, running, turns := map[], [], map[], map[];
      totalSubmitted, totalCompleted, totalFailed, totalCancelled := 0, 0, 0, 0;
    }

    method SubmitJob(job: Job) returns (accepted: bool)
      requires Valid() && job.id !in jobs
      modifies this
      ensures Valid() && View() == Submit(old(View()), job, maxQueue)
      ensures accepted <==> |old(queued)| < maxQueue
      ensures accepted ==> jobs == old(jobs)[job.id := job.(state := Queued)] && queued == old(queued) + [job.id]
      ensures !accepted ==> jobs == old(jobs) && queued == old(queued)
      ensures totalSubmitted == old(totalSubmitted) + (if accepted then 1 else 0) && running == old(running)
    {
      SubmitKeeps(View(), job, maxQueue, maxConcurrent);
      if |queued| >= maxQueue {
        return false;
      }
      jobs := jobs[job.id := job.(state := Queued)];
      queued := queued + [job.id];
      turns := turns[job.id := totalSubmitted];
      totalSubmitted := totalSubmitted + 1;
      return true;
    }

    /** The most urgent jobs of the batch are accepted first. */
    method SubmitBatch(batch: seq<Job>) returns (accepted: nat)
      requires Valid() && FreshBatch(View(), batch)
      modifies this
      ensures Valid()
      ensures accepted == Min(|batch|, Room(old(View()), maxQueue))
      ensures View() == SubmitAll(old(View()), Urgent(batch), maxQueue)
      ensures queued == old(queued) + Ids(Urgent(batch)[..accepted])
      ensures forall a, r :: a in batch && r in batch && a.id in queued && r.id !in queued ==>
          NoLessUrgent(a.priority, r.priority)
    {
      var sorted := Urgent(batch);
      UrgentIsFresh(View(), batch);
      ghost var s := View();
      accepted := 0;
      for i := 0 to |sorted|
        invariant View() == SubmitAll(s, sorted[..i], maxQueue)
        invariant accepted == totalSubmitted - s.submitted
      {
        PrefixIsFresh(s, sorted, i);
        NextIsFresh(s, sorted, i, maxQueue);
        BatchKeeps(s, sorted[..i], maxQueue, maxConcurrent);
        var ok := SubmitJob(sorted[i]);
        if ok {
          accepted := accepted + 1;
        }
      }
      assert sorted[..|sorted|] == sorted;
      BatchKeeps(s, sorted, maxQueue, maxConcurrent);
      RefusedAreLessUrgent(s, batch, accepted);
    }

    /**
     As many jobs as the request, the queue and the concurrency limit allow. Of a job that is
     dispatched and one that stays queued, the one that stays is never the more urgent, and not
     the earlier accepted if both are equally urgent.
     */
    method DispatchJobs(maxDispatch: int) returns (dispatched: seq<Job>)
      requires Valid()
      modifies this`jobs, this`queued, this`running
      ensures Valid() && View() == Dispatch(old(View()), maxConcurrent, maxDispatch)
      ensures Ids(dispatched) == SortQueue(old(View())).queued[..DispatchCount(old(View()), maxConcurrent, maxDispatch)]
      ensures forall i :: 0 <= i < |dispatched| ==> StartedFrom(old(jobs), dispatched[i])
      ensures forall i, b :: 0 <= i < |dispatched| && b in queued ==> GoesBefore(old(jobs), turns, dispatched[i].id, b)
      ensures |running| == |old(running)| + |dispatched| && |queued| == |old(queued)| - |dispatched|
      ensures maxDispatch >= 0 ==> |running| == maxConcurrent || |dispatched| == maxDispatch || queued == []
    {
      ghost var before := View();
      DispatchIsPriorityFifo(before, maxConcurrent, maxDispatch);
      DispatchIsUrgent(before, maxConcurrent, maxDispatch);
      DispatchKeeps(before, maxConcurrent, maxDispatch);
      dispatched, jobs, queued, running := SortAndStart(jobs, queued, running, maxConcurrent, maxDispatch, before);
      DispatchKeepsCounts(before, maxConcurrent, maxDispatch);
      SameRuntime(View(), Dispatch(before, maxConcurrent, maxDispatch));
      assert |Ids(dispatched)| == |dispatched| == DispatchCount(before, maxConcurrent, maxDispatch);
      forall i | 0 <= i < |dispatched|
        ensures dispatched[i].id in SortQueue(before).queued[..|dispatched|]
      {
        assert Ids(dispatched)[i] == dispatched[i].id;
      }
    }

    method CompleteJob(id: JobId, success: bool) returns (finished: Option<Job>)
      requires Valid()
      modifies this
      ensures Valid() && View() == Finish(old(View()), id, success)
      ensures finished == if id in old(running)
          then Some(old(running)[id].(state := if success then Completed else Failed)) else None
      ensures running == old(running) - {id} && queued == old(queued)
      ensures jobs == if finished.Some? then old(jobs) - {id} else old(jobs)
      ensures totalCompleted == old(totalCompleted) + (if finished.Some? && success then 1 else 0)
      ensures totalFailed == old(totalFailed) + (if finished.Some? && !success then 1 else 0)
    {
      FinishKeeps(View(), id, success, maxConcurrent);
      if id !in running {
        return None;
      }
      var job := running[id].(state := if success then Completed else Failed);
      running := running - {id};
      if success {
        totalCompleted := totalCompleted + 1;
      } else {
        totalFailed := totalFailed + 1;
      }
      jobs := jobs - {id};
      return Some(job);
    }

    method CancelJob(id: JobId) returns (found: bool)
      requires Valid()
      modifies this
      ensures Valid() && View() == Cancel(old(View()), id)
      ensures found <==> id in old(jobs)
      ensures jobs == old(jobs) - {id} && running == old(running) - {id}
      ensures queued == Remove(old(queued), id) && id !in queued
      ensures totalCompleted == old(totalCompleted) && totalFailed == old(totalFailed)
    {
      ghost var before := View();
      CancelFacts(before, id, maxConcurrent);
      CancelKeeps(before, id, maxConcurrent);
      if id in running {
        running := running - {id};
        jobs := jobs - {id};
        totalCancelled := totalCancelled + 1;
        return true;
      }
      if id in queued {
        queued := Remove(queued, id);
        jobs := jobs - {id};
        totalCancelled := totalCancelled + 1;
        return true;
      }
      return false;
    }
  }
}

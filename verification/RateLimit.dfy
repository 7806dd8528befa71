/**
 The in-process rate limiter (gateway/rate_limit.py): per organisation, a queue of the times of
 accepted requests, pruned from the front of everything older than a second.

 The clock is read before the lock is taken, so requests may be served in another order than
 their clock readings. The model serves them in any order and says when the limit survives that.
 */
module RateLimits {
  /** How many of the times lie between `from` and `to`, both included. */
  ghost function InWindow(times: seq<real>, from: real, to: real): nat {
    if times == [] then 0
    else InWindow(times[..|times| - 1], from, to) + if from <= times[|times| - 1] <= to then 1 else 0
  }

  ghost predicate Ascending(times: seq<real>) {
    forall i, j :: 0 <= i < j < |times| ==> times[i] <= times[j]
  }

  /** The rate as a bound on whole requests. */
  function Ceiling(rate: real): int {
    -((-rate).Floor)
  }

  lemma {:induction false} AllInWindow(times: seq<real>, from: real, to: real)
    requires forall i :: 0 <= i < |times| ==> from <= times[i] <= to
    ensures InWindow(times, from, to) == |times|
  {
    if times != [] {
      AllInWindow(times[..|times| - 1], from, to);
    }
  }

  lemma {:induction false} NoneInWindow(times: seq<real>, from: real, to: real)
    requires forall i :: 0 <= i < |times| ==> !(from <= times[i] <= to)
    ensures InWindow(times, from, to) == 0
  {
    if times != [] {
      NoneInWindow(times[..|times| - 1], from, to);
    }
  }

  lemma {:induction false} WindowSplits(a: seq<real>, b: seq<real>, from: real, to: real)
    ensures InWindow(a + b, from, to) == InWindow(a, from, to) + InWindow(b, from, to)
  {
    if b == [] {
      assert a + b == a;
    } else {
      assert (a + b)[..|a + b| - 1] == a + b[..|b| - 1];
      WindowSplits(a, b[..|b| - 1], from, to);
    }
  }

  lemma {:induction false} WiderWindow(times: seq<real>, from: real, to: real, from': real, to': real)
    requires from' <= from && forall i :: 0 <= i < |times| && times[i] <= to ==> times[i] <= to'
    ensures InWindow(times, from, to) <= InWindow(times, from', to')
  {
    if times != [] {
      WiderWindow(times[..|times| - 1], from, to, from', to');
    }
  }

  // ----- The specification: decisions on the full history ----------------------------------------

  /** A request, with the time it came in and the rate then in force. */
  datatype Ask = Ask(now: real, rate: real)

  /** The acceptance times of a run that looks at the whole history for every request. */
  ghost function Accepted(asks: seq<Ask>): seq<real> {
    if asks == [] then []
    else
      var history, ask := Accepted(asks[..|asks| - 1]), asks[|asks| - 1];
      if (InWindow(history, ask.now - 1.0, ask.now) as real) < ask.rate then history + [ask.now] else history
  }

  ghost predicate InOrder(asks: seq<Ask>) {
    forall i, j :: 0 <= i < j < |asks| ==> asks[i].now <= asks[j].now
  }

  ghost predicate NoLaterThan(asks: seq<Ask>, clock: real) {
    forall i :: 0 <= i < |asks| ==> asks[i].now <= clock
  }

  lemma {:induction false} AcceptedInOrder(asks: seq<Ask>)
    requires InOrder(asks)
    ensures Ascending(Accepted(asks))
    ensures forall i :: 0 <= i < |Accepted(asks)| ==> asks != [] && Accepted(asks)[i] <= asks[|asks| - 1].now
  {
    if asks != [] {
      AcceptedInOrder(asks[..|asks| - 1]);
    }
  }

  /** No closed second holds more acceptances than the highest rate used, rounded up. */
  lemma {:induction false} NoWindowExceedsRate(asks: seq<Ask>, rate: real, from: real)
    requires InOrder(asks) && forall i :: 0 <= i < |asks| ==> asks[i].rate <= rate
    ensures InWindow(Accepted(asks), from, from + 1.0) == 0
        || InWindow(Accepted(asks), from, from + 1.0) <= Ceiling(rate)
  {
    if asks != [] {
      var rest, ask := asks[..|asks| - 1], asks[|asks| - 1];
      NoWindowExceedsRate(rest, rate, from);
      var h := Accepted(rest);
      AcceptedInOrder(rest);
      if (InWindow(h, ask.now - 1.0, ask.now) as real) < ask.rate {
        assert (h + [ask.now])[..|h|] == h;
        if from <= ask.now <= from + 1.0 {
          WiderWindow(h, from, from + 1.0, ask.now - 1.0, ask.now);
          BelowCeiling(InWindow(h, ask.now - 1.0, ask.now), rate);
        }
      }
    }
  }

  lemma BelowCeiling(n: nat, rate: real)
    requires (n as real) < rate
    ensures n + 1 <= Ceiling(rate)
  {
  }

  // ----- The implementation: a pruned queue ------------------------------------------------------

  /** Everything older than a second leaves the front of the queue. */
  function Pruned(queue: seq<real>, now: real): seq<real> {
    if queue != [] && now - queue[0] > 1.0 then Pruned(queue[1..], now) else queue
  }

  /** What a run leaves behind: all times it accepted, in the order of service, and the queue. */
  datatype Trace = Trace(history: seq<real>, queue: seq<real>)

  function Serve(t: Trace, ask: Ask): Trace {
    var q := Pruned(t.queue, ask.now);
    if |q| as real >= ask.rate then Trace(t.history, q) else Trace(t.history + [ask.now], q + [ask.now])
  }

  /** Requests in the order in which they get the lock. */
  function Served(asks: seq<Ask>): Trace {
    if asks == [] then Trace([], []) else Serve(Served(asks[..|asks| - 1]), asks[|asks| - 1])
  }

  /** The pruning loop. */
  method Prune(queue: seq<real>, now: real) returns (q: seq<real>)
    ensures q == Pruned(queue, now)
    ensures |q| <= |queue| && q == queue[|queue| - |q|..]
    ensures forall i :: 0 <= i < |queue| - |q| ==> now - queue[i] > 1.0
    ensures q != [] ==> now - q[0] <= 1.0
  {
    q := queue;
    while q != [] && now - q[0] > 1.0
      invariant |q| <= |queue| && q == queue[|queue| - |q|..] && Pruned(q, now) == Pruned(queue, now)
      invariant forall i :: 0 <= i < |queue| - |q| ==> now - queue[i] > 1.0
      decreases |q|
    {
      q := q[1..];
    }
  }

  // ----- Requests served in the order of their clock readings ------------------------------------

  /** The queue is the end of the history, and what was pruned is out of reach of every later second. */
  ghost predicate Prunes(history: seq<real>, queue: seq<real>, clock: real) {
    && |queue| <= |history| && queue == history[|history| - |queue|..]
    && forall i :: 0 <= i < |history| - |queue| ==> clock - history[i] > 1.0
  }

  lemma {:induction false} PrunedPrunes(history: seq<real>, queue: seq<real>, now: real)
    requires Prunes(history, queue, now)
    ensures Prunes(history, Pruned(queue, now), now)
    ensures Pruned(queue, now) == [] || now - Pruned(queue, now)[0] <= 1.0
    decreases |queue|
  {
    if queue != [] && now - queue[0] > 1.0 {
      assert queue[1..] == history[|history| - |queue[1..]|..];
      PrunedPrunes(history, queue[1..], now);
    }
  }

  ghost predicate CountsWindow(history: seq<real>, queue: seq<real>, now: real) {
    InWindow(history, now - 1.0, now) == |Pruned(queue, now)|
  }

  /** What pruning leaves is the part of the history that lies in the closed second. */
  lemma PrunedIsWindow(history: seq<real>, queue: seq<real>, now: real)
    requires Prunes(history, queue, now) && Ascending(history) && forall i :: 0 <= i < |history| ==> history[i] <= now
    ensures CountsWindow(history, queue, now)
  {
    PrunedPrunes(history, queue, now);
    var q := Pruned(queue, now);
    var gone, recent := history[..|history| - |q|], history[|history| - |q|..];
    assert history == gone + recent && recent == q;
    WindowSplits(gone, recent, now - 1.0, now);
    NoneInWindow(gone, now - 1.0, now);
    forall i | 0 <= i < |recent|
      ensures now - 1.0 <= recent[i] <= now
    {
      assert recent[i] == history[|history| - |q| + i] && recent[0] == history[|history| - |q|];
    }
    AllInWindow(recent, now - 1.0, now);
  }

  lemma AppendKeepsPrunes(history: seq<real>, queue: seq<real>, now: real)
    requires Prunes(history, queue, now)
    ensures Prunes(history + [now], queue + [now], now)
  {
    var h := history + [now];
    assert h[|h| - |queue + [now]|..] == history[|history| - |queue|..] + [now];
  }

  lemma LaterPrunes(history: seq<real>, queue: seq<real>, now: real, later: real)
    requires Prunes(history, queue, now) && now <= later
    ensures Prunes(history, queue, later)
  {
  }

  ghost predicate Trim(t: Trace, clock: real) {
    Prunes(t.history, t.queue, clock)
  }

  /** One request: the pruned queue decides as the full history does. */
  lemma ServeAgrees(t: Trace, ask: Ask)
    requires Trim(t, ask.now) && Ascending(t.history) && forall i :: 0 <= i < |t.history| ==> t.history[i] <= ask.now
    ensures Trim(Serve(t, ask), ask.now)
    ensures Serve(t, ask).history ==
            if (InWindow(t.history, ask.now - 1.0, ask.now) as real) < ask.rate then t.history + [ask.now]
                else t.history
  {
    var q := Pruned(t.queue, ask.now);
    PrunedIsWindow(t.history, t.queue, ask.now);
    TrimStays(t, q, ask);
  }

  lemma TrimStays(t: Trace, q: seq<real>, ask: Ask)
    requires Trim(t, ask.now) && q == Pruned(t.queue, ask.now)
    ensures Trim(Serve(t, ask), ask.now)
  {
    PrunedPrunes(t.history, t.queue, ask.now);
    if |q| as real >= ask.rate {
      assert Serve(t, ask) == Trace(t.history, q);
    } else {
      AppendKeepsPrunes(t.history, q, ask.now);
      assert Serve(t, ask) == Trace(t.history + [ask.now], q + [ask.now]);
    }
  }

  /** Served in the order of the readings, the pruned queue takes every decision as the full history would. */
  lemma {:induction false} InOrderAgrees(asks: seq<Ask>, clock: real)
    requires InOrder(asks) && NoLaterThan(asks, clock)
    ensures Served(asks).history == Accepted(asks) && Prunes(Accepted(asks), Served(asks).queue, clock)
  {
    if asks != [] {
      var rest, ask := asks[..|asks| - 1], asks[|asks| - 1];
      assert asks == rest + [ask];
      RestInOrder(rest, ask);
      InOrderAgrees(rest, ask.now);
      StepAgrees(rest, ask);
      LaterPrunes(Accepted(asks), Served(asks).queue, ask.now, clock);
    }
  }

  lemma RestInOrder(asks: seq<Ask>, ask: Ask)
    requires InOrder(asks + [ask])
    ensures InOrder(asks) && NoLaterThan(asks, ask.now)
  {
    var all := asks + [ask];
    assert all[|asks|] == ask && forall i :: 0 <= i < |asks| ==> all[i] == asks[i];
  }

  lemma StepAgrees(asks: seq<Ask>, ask: Ask)
    requires InOrder(asks) && NoLaterThan(asks, ask.now)
    requires Served(asks).history == Accepted(asks) && Prunes(Accepted(asks), Served(asks).queue, ask.now)
    ensures Served(asks + [ask]).history == Accepted(asks + [ask])
    ensures Prunes(Accepted(asks + [ask]), Served(asks + [ask]).queue, ask.now)
  {
    ServedSnoc(asks, ask);
    AcceptedSnoc(asks, ask);
    AcceptedNoLater(asks, ask.now);
    ServeAgrees(Served(asks), ask);
  }

  lemma AcceptedNoLater(asks: seq<Ask>, clock: real)
    requires InOrder(asks) && NoLaterThan(asks, clock)
    ensures Ascending(Accepted(asks)) && forall i :: 0 <= i < |Accepted(asks)| ==> Accepted(asks)[i] <= clock
  {
    AcceptedInOrder(asks);
  }

  lemma ServedSnoc(asks: seq<Ask>, ask: Ask)
    ensures Served(asks + [ask]) == Serve(Served(asks), ask)
  {
    assert (asks + [ask])[..|asks|] == asks;
  }

  lemma AcceptedSnoc(asks: seq<Ask>, ask: Ask)
    ensures
      var history := Accepted(asks);
      Accepted(asks + [ask]) ==
        if (InWindow(history, ask.now - 1.0, ask.now) as real) < ask.rate then history + [ask.now] else history
  {
    assert (asks + [ask])[..|asks|] == asks;
  }

  // ----- Requests served in any order -------------------------------------------------------------

  /** No reading is more than `lag` behind one that was served before it. */
  ghost predicate Lagging(asks: seq<Ask>, lag: real) {
    forall i, j :: 0 <= i < j < |asks| ==> asks[i].now - asks[j].now <= lag
  }

  ghost predicate AtRate(asks: seq<Ask>, rate: real) {
    forall i :: 0 <= i < |asks| ==> asks[i].rate == rate
  }

  /** The closed second from here on holds no more acceptances than the rate, rounded up. */
  ghost predicate SecondHolds(history: seq<real>, rate: real, from: real) {
    InWindow(history, from, from + 1.0) == 0 || InWindow(history, from, from + 1.0) <= Ceiling(rate)
  }

  ghost predicate LimitHolds(history: seq<real>, rate: real) {
    forall from :: SecondHolds(history, rate, from)
  }

  ghost predicate Spaced(times: seq<real>) {
    forall i, j :: 0 <= i < j < |times| ==> times[j] - times[i] > 1.0
  }

  lemma PrunedSingle(queue: seq<real>, now: real)
    requires |queue| <= 1
    ensures Pruned(queue, now) == if queue != [] && now - queue[0] > 1.0 then [] else queue
  {
  }

  /** With a rate of at most one, the queue is the last acceptance alone, so the next one must be a second later. */
  ghost predicate Alone(t: Trace, rate: real) {
    && Spaced(t.history) && (rate <= 0.0 ==> t.history == [])
    && t.queue == if t.history == [] then [] else [t.history[|t.history| - 1]]
  }

  lemma ServeKeepsAlone(t: Trace, ask: Ask)
    requires Alone(t, ask.rate) && ask.rate <= 1.0
    ensures Alone(Serve(t, ask), ask.rate)
  {
    PrunedSingle(t.queue, ask.now);
  }

  lemma {:induction false} SpacedAtLowRate(asks: seq<Ask>, rate: real)
    requires AtRate(asks, rate) && rate <= 1.0
    ensures Alone(Served(asks), rate)
  {
    if asks != [] {
      SpacedAtLowRate(asks[..|asks| - 1], rate);
      ServeKeepsAlone(Served(asks[..|asks| - 1]), asks[|asks| - 1]);
    }
  }

  lemma {:induction false} OneInWindow(times: seq<real>, from: real)
    requires Spaced(times)
    ensures InWindow(times, from, from + 1.0) <= 1
  {
    if times != [] {
      var most, last := times[..|times| - 1], times[|times| - 1];
      OneInWindow(most, from);
      if from <= last <= from + 1.0 {
        NoneInWindow(most, from, from + 1.0);
      }
    }
  }

  function Burst(n: nat, rate: real): seq<Ask> {
    seq(n, i => Ask(0.0, rate))
  }

  lemma {:induction false} BurstServed(n: nat, rate: real)
    requires n <= Ceiling(rate)
    ensures Served(Burst(n, rate)) == Trace(seq(n, i => 0.0), seq(n, i => 0.0))
  {
    if n > 0 {
      assert Burst(n, rate)[..n - 1] == Burst(n - 1, rate);
      BurstServed(n - 1, rate);
    }
  }

  lemma {:induction false} AllPruned(queue: seq<real>, now: real)
    requires forall i :: 0 <= i < |queue| ==> now - queue[i] > 1.0
    ensures Pruned(queue, now) == []
  {
    if queue != [] {
      AllPruned(queue[1..], now);
    }
  }

  /** A full burst, a request that prunes it, and one that read the clock within a second of the burst. */
  function Overtaken(rate: real, lag: real): seq<Ask>
    requires rate > 1.0
  {
    Burst(Ceiling(rate), rate) + [Ask(1.0 + lag, rate)] + [Ask(1.0, rate)]
  }

  lemma OvertakenServed(rate: real, lag: real)
    requires rate > 1.0 && 0.0 < lag <= 1.0
    ensures Served(Overtaken(rate, lag)).history == seq(Ceiling(rate), i => 0.0) + [1.0 + lag] + [1.0]
  {
    var n := Ceiling(rate);
    var burst, two := Burst(n, rate), Burst(n, rate) + [Ask(1.0 + lag, rate)];
    BurstServed(n, rate);
    assert two[..|two| - 1] == burst && Overtaken(rate, lag)[..|two|] == two;
    AllPruned(seq(n, i => 0.0), 1.0 + lag);
    assert Served(two) == Trace(seq(n, i => 0.0) + [1.0 + lag], [1.0 + lag]);
  }

  /** Any lag, however small, lets a rate above one be exceeded. */
  lemma LagBreaksLimit(rate: real, lag: real)
    requires rate > 1.0 && 0.0 < lag <= 1.0
    ensures Lagging(Overtaken(rate, lag), lag) && AtRate(Overtaken(rate, lag), rate)
    ensures InWindow(Served(Overtaken(rate, lag)).history, 0.0, 0.0 + 1.0) == Ceiling(rate) + 1
  {
    OvertakenServed(rate, lag);
    var zeros := seq(Ceiling(rate), i => 0.0);
    var two := zeros + [1.0 + lag];
    AllInWindow(zeros, 0.0, 0.0 + 1.0);
    assert two[..|two| - 1] == zeros && (two + [1.0])[..|two|] == two;
  }

  /**
   The limit survives every order of service in which no reading lags by more than `lag` exactly
   if there is no lag, or the rate is at most one request per second.
   */
  lemma LimitSurvivesIff(rate: real, lag: real)
    requires lag >= 0.0
    ensures (forall asks :: Lagging(asks, lag) && AtRate(asks, rate) ==> LimitHolds(Served(asks).history, rate))
            <==> lag == 0.0 || rate <= 1.0
  {
    if lag == 0.0 || rate <= 1.0 {
      forall asks | Lagging(asks, lag) && AtRate(asks, rate)
        ensures LimitHolds(Served(asks).history, rate)
      {
        LimitHeld(asks, rate, lag);
      }
    } else {
      var d := if lag < 1.0 then lag else 1.0;
      LagBreaksLimit(rate, d);
      var asks := Overtaken(rate, d);
      assert Lagging(asks, lag) && AtRate(asks, rate) && !SecondHolds(Served(asks).history, rate, 0.0);
    }
  }

  lemma LimitHeld(asks: seq<Ask>, rate: real, lag: real)
    requires Lagging(asks, lag) && AtRate(asks, rate) && (lag == 0.0 || rate <= 1.0)
    ensures LimitHolds(Served(asks).history, rate)
  {
    forall from
      ensures SecondHolds(Served(asks).history, rate, from)
    {
      if rate <= 1.0 {
        SpacedAtLowRate(asks, rate);
        OneInWindow(Served(asks).history, from);
      } else if asks != [] {
        InOrderAgrees(asks, asks[|asks| - 1].now);
        NoWindowExceedsRate(asks, rate, from);
      }
    }
  }

  // ----- All organisations -----------------------------------------------------------------------

  ghost function AsksOf(asked: map<string, seq<Ask>>, org: string): seq<Ask> {
    if org in asked then asked[org] else []
  }

  function QueueOf(queues: map<string, seq<real>>, org: string): seq<real> {
    if org in queues then queues[org] else []
  }

  ghost predicate FitsAt(asked: map<string, seq<Ask>>, queues: map<string, seq<real>>, org: string) {
    QueueOf(queues, org) == Served(AsksOf(asked, org)).queue
  }

  ghost predicate AllFit(asked: map<string, seq<Ask>>, queues: map<string, seq<real>>) {
    forall org {:trigger FitsAt(asked, queues, org)} :: FitsAt(asked, queues, org)
  }

  lemma OneMoreFits(asked: map<string, seq<Ask>>, queues: map<string, seq<real>>, org: string, asks: seq<Ask>)
    requires AllFit(asked, queues)
    ensures AllFit(asked[org := asks], queues[org := Served(asks).queue])
  {
    var asked', queues' := asked[org := asks], queues[org := Served(asks).queue];
    forall other
      ensures FitsAt(asked', queues', other)
    {
      assert FitsAt(asked, queues, other);
    }
  }

  /** The decision on a request that comes in order, said on the full history. */
  lemma DecidedOnHistory(asks: seq<Ask>, ask: Ask)
    requires InOrder(asks) && NoLaterThan(asks, ask.now)
    ensures CountsWindow(Accepted(asks), Served(asks).queue, ask.now)
  {
    InOrderAgrees(asks, ask.now);
    AcceptedNoLater(asks, ask.now);
    PrunedIsWindow(Accepted(asks), Served(asks).queue, ask.now);
  }

  /** The decision on one request. */
  method Decide(queue: seq<real>, rate: real, now: real, ghost asks: seq<Ask>)
      returns (q: seq<real>, allowed: bool, count: real)
    requires queue == Served(asks).queue
    ensures var t := Served(asks + [Ask(now, rate)]);
      q == t.queue && t.history == Served(asks).history + if allowed then [now] else []
    ensures allowed <==> (|Pruned(queue, now)| as real) < rate
    ensures count == |Pruned(queue, now)| as real + if allowed then 1.0 else 0.0
  {
    ServedSnoc(asks, Ask(now, rate));
    q := Prune(queue, now);
    var n := |q| as real;
    if n >= rate {
      return q, false, n;
    }
    return q + [now], true, n + 1.0;
  }

  class RateLimiter {
    var queues: map<string, seq<real>>
    ghost var asked: map<string, seq<Ask>>

    ghost predicate Valid()
      reads this
    {
      AllFit(asked, queues)
    }

    constructor ()
      ensures Valid() && asked == map[]
    {
      queues, asked := map[], map[];
    }

    /**
     Readings may come in any order. As long as they come in order, a request is refused exactly
     when the full history of the organisation has at least `rate` acceptances in the closed
     second that ends now, although only the pruned queue is kept.
     */
    method AllowRequest(org: string, rate: real, now: real) returns (allowed: bool, count: real)
      requires Valid()
      modifies this
      ensures Valid() && asked == old(asked)[org := AsksOf(old(asked), org) + [Ask(now, rate)]]
      ensures Served(AsksOf(asked, org)).history == Served(AsksOf(old(asked), org)).history + if allowed then [now]
          else []
      ensures InOrder(AsksOf(asked, org)) ==>
        (allowed <==> (InWindow(Accepted(AsksOf(old(asked), org)), now - 1.0, now) as real) < rate)
      ensures InOrder(AsksOf(asked, org)) ==>
        count == InWindow(Accepted(AsksOf(old(asked), org)), now - 1.0, now) as real + if allowed then 1.0 else 0.0
    {
      ghost var asks, ask := AsksOf(asked, org), Ask(now, rate);
      assert FitsAt(asked, queues, org);
      OneMoreFits(asked, queues, org, asks + [ask]);
      if InOrder(asks + [ask]) {
        RestInOrder(asks, ask);
        DecidedOnHistory(asks, ask);
      }
      var q;
      q, allowed, count := Decide(QueueOf(queues, org), rate, now, asks);
      queues, asked := queues[org := q], asked[org := asks + [ask]];
    }
  }
}

/**
 Joining walks, and what follows without looking at any search: cheapest walks exist, and a graph
 answers like a larger one exactly when it has a walk as cheap as every edge of the larger one.
 */
module CheapestWalks {
  import opened Walks

  ghost function Cat(v: Walk, w: Walk): Walk {
    match w
    case At(_) => v
    case Hop(p, e) => Hop(Cat(v, p), e)
  }

  lemma {:induction false} CatJoins(g: Graph, a: Node, b: Node, c: Node, v: Walk, w: Walk)
    requires Joins(g, a, b, v) && Joins(g, b, c, w)
    ensures Joins(g, a, c, Cat(v, w)) && Cat(v, w).Cost() == v.Cost() + w.Cost()
    decreases w
  {
    match w {
      case At(_) =>
      case Hop(p, e) => CatJoins(g, a, b, e.src, v, p);
    }
  }

  lemma {:induction false} CostsNothingLess(g: Graph, w: Walk)
    requires NonNegative(g) && w.In(g)
    ensures w.Cost() >= 0.0
  {
    match w {
      case At(_) =>
      case Hop(p, _) => CostsNothingLess(g, p);
    }
  }

  /** Some walk from `s` to `t` costs no more than `ms`. */
  ghost predicate Within(g: Graph, s: Node, t: Node, ms: real) {
    exists w :: Joins(g, s, t, w) && w.Cost() <= ms
  }

  lemma WithinTwice(g: Graph, a: Node, b: Node, c: Node, ms: real, ms': real)
    requires Within(g, a, b, ms) && Within(g, b, c, ms')
    ensures Within(g, a, c, ms + ms')
  {
    var v :| Joins(g, a, b, v) && v.Cost() <= ms;
    var w :| Joins(g, b, c, w) && w.Cost() <= ms';
    CatJoins(g, a, b, c, v, w);
  }

  lemma EdgeWithin(g: Graph, e: Edge)
    requires e in g
    ensures Within(g, e.src, e.dst, e.ms)
  {
    var stay := At(e.src);
    assert stay.In(g) && stay.From() == e.src && stay.To() == e.src && stay.Cost() == 0.0;
    assert Joins(g, e.src, e.dst, Hop(stay, e)) && Hop(stay, e).Cost() <= e.ms;
  }

  lemma WithinMore(g: Graph, s: Node, t: Node, ms: real, more: real)
    requires Within(g, s, t, ms) && ms <= more
    ensures Within(g, s, t, more)
  {
    var w :| Joins(g, s, t, w) && w.Cost() <= ms;
  }

  lemma StayWithin(g: Graph, s: Node)
    ensures Within(g, s, s, 0.0)
  {
    assert Joins(g, s, s, At(s));
  }

  lemma MoreEdgesWithin(g: Graph, h: Graph, s: Node, t: Node, ms: real)
    requires g <= h && Within(g, s, t, ms)
    ensures Within(h, s, t, ms)
  {
    var w :| Joins(g, s, t, w) && w.Cost() <= ms;
    FewerEdges(g, h, w);
  }

  /** A walk uses an edge, or it does not; if it does, going there once and leaving from its end is as cheap. */
  lemma {:induction false} EdgeUsedOnce(g: Graph, e: Edge, s: Node, w: Walk)
    requires NonNegative(g) && e in g && w.In(g) && w.From() == s
    ensures Within(g - {e}, s, w.To(), w.Cost())
            || exists to, on :: Within(g - {e}, s, e.src, to) && Within(g - {e}, e.dst, w.To(), on)
                && to + e.ms + on <= w.Cost()
  {
    var h := g - {e};
    match w {
      case At(_) => StayWithin(h, s);
      case Hop(p, f) =>
        EdgeUsedOnce(g, e, s, p);
        if f == e {
          StayWithin(h, e.dst);
          if to, on :| Within(h, s, e.src, to) && Within(h, e.dst, p.To(), on) && to + e.ms + on <= p.Cost() {
            WithinIsNonNegative(h, e.dst, p.To(), on);
            WithinMore(h, s, e.src, to, p.Cost());
          }
          assert Within(h, s, e.src, p.Cost()) && Within(h, e.dst, w.To(), 0.0) && p.Cost() + e.ms + 0.0 <= w.Cost();
        } else {
          EdgeWithin(h, f);
          if Within(h, s, p.To(), p.Cost()) {
            WithinTwice(h, s, p.To(), f.dst, p.Cost(), f.ms);
          } else {
            var to, on :| Within(h, s, e.src, to) && Within(h, e.dst, p.To(), on) && to + e.ms + on <= p.Cost();
            WithinTwice(h, e.dst, p.To(), f.dst, on, f.ms);
            assert to + e.ms + (on + f.ms) <= w.Cost();
          }
        }
    }
  }

  lemma WithinIsNonNegative(g: Graph, s: Node, t: Node, ms: real)
    requires NonNegative(g) && Within(g, s, t, ms)
    ensures ms >= 0.0
  {
    var w :| Joins(g, s, t, w) && w.Cost() <= ms;
    CostsNothingLess(g, w);
  }

  /** The least cost of a walk between two nodes, if there is a walk. */
  datatype Least = Least(ms: real) | Never

  ghost predicate IsLeast(g: Graph, s: Node, t: Node, least: Least) {
    match least
    case Least(ms) => Within(g, s, t, ms) && forall w :: Joins(g, s, t, w) ==> ms <= w.Cost()
    case Never => !Reachable(g, s, t)
  }

  lemma NoneBelowLeast(g: Graph, s: Node, t: Node, least: Least, ms: real)
    requires IsLeast(g, s, t, least) && Within(g, s, t, ms)
    ensures least.Least? && least.ms <= ms
  {
    var w :| Joins(g, s, t, w) && w.Cost() <= ms;
    assert Reachable(g, s, t);
  }

  lemma {:induction false} NoEdgesNoMove(w: Walk)
    requires w.In({})
    ensures w.From() == w.To() && w.Cost() == 0.0
  {
  }

  function Smaller(a: Least, b: Least): Least {
    if a.Never? || (b.Least? && b.ms < a.ms) then b else a
  }

  function Through(to: Least, ms: real, on: Least): Least {
    if to.Least? && on.Least? then Least(to.ms + ms + on.ms) else Never
  }

  lemma SmallerIsLeast(g: Graph, e: Edge, s: Node, t: Node, around: Least, to: Least, on: Least)
    requires NonNegative(g) && e in g
    requires IsLeast(g - {e}, s, t, around) && IsLeast(g - {e}, s, e.src, to) && IsLeast(g - {e}, e.dst, t, on)
    ensures IsLeast(g, s, t, Smaller(around, Through(to, e.ms, on)))
  {
    var h, least := g - {e}, Smaller(around, Through(to, e.ms, on));
    if around.Least? {
      MoreEdgesWithin(h, g, s, t, around.ms);
    }
    if to.Least? && on.Least? {
      MoreEdgesWithin(h, g, s, e.src, to.ms);
      MoreEdgesWithin(h, g, e.dst, t, on.ms);
      EdgeWithin(g, e);
      WithinTwice(g, s, e.src, e.dst, to.ms, e.ms);
      WithinTwice(g, s, e.dst, t, to.ms + e.ms, on.ms);
    }
    forall w | Joins(g, s, t, w)
      ensures least.Least? && least.ms <= w.Cost()
    {
      EdgeUsedOnce(g, e, s, w);
      if Within(h, s, t, w.Cost()) {
        NoneBelowLeast(h, s, t, around, w.Cost());
      } else {
        var a, b :| Within(h, s, e.src, a) && Within(h, e.dst, t, b) && a + e.ms + b <= w.Cost();
        NoneBelowLeast(h, s, e.src, to, a);
        NoneBelowLeast(h, e.dst, t, on, b);
      }
    }
  }

  /** A finite graph without negative latencies has a least cost between any two nodes, or no walk. */
  lemma {:induction false} LeastExists(g: Graph, s: Node, t: Node) returns (least: Least)
    requires NonNegative(g)
    ensures IsLeast(g, s, t, least)
    decreases |g|
  {
    if g == {} {
      StayWithin(g, s);
      forall w | Joins(g, s, t, w)
        ensures s == t && w.Cost() == 0.0
      {
        NoEdgesNoMove(w);
      }
      least := if s == t then Least(0.0) else Never;
    } else {
      var e :| e in g;
      var around := LeastExists(g - {e}, s, t);
      var to := LeastExists(g - {e}, s, e.src);
      var on := LeastExists(g - {e}, e.dst, t);
      SmallerIsLeast(g, e, s, t, around, to, on);
      least := Smaller(around, Through(to, e.ms, on));
    }
  }

  /** Reachable nodes have a cheapest walk. */
  lemma CheapestExists(g: Graph, s: Node, t: Node)
    requires NonNegative(g) && Reachable(g, s, t)
    ensures exists w :: Cheapest(g, s, t, w)
  {
    var least := LeastExists(g, s, t);
    var w :| Joins(g, s, t, w) && w.Cost() <= least.ms;
    assert Cheapest(g, s, t, w);
  }

  // ----- Two graphs ------------------------------------------------------------------------------

  /** Every query that both graphs answer has one least cost, and both answer the same queries. */
  ghost predicate SameAnswers(g: Graph, h: Graph) {
    && (forall s, t :: Reachable(g, s, t) <==> Reachable(h, s, t))
    && (forall s, t, w, w' :: Cheapest(g, s, t, w) && Cheapest(h, s, t, w') ==> w.Cost() == w'.Cost())
  }

  lemma {:induction false} WalkFollowed(g: Graph, h: Graph, s: Node, w: Walk)
    requires w.In(h) && w.From() == s && forall e :: e in h ==> Within(g, e.src, e.dst, e.ms)
    ensures Within(g, s, w.To(), w.Cost())
  {
    match w {
      case At(_) => StayWithin(g, s);
      case Hop(p, e) =>
        WalkFollowed(g, h, s, p);
        WithinTwice(g, s, p.To(), e.dst, p.Cost(), e.ms);
    }
  }

  /** A walk can be followed in another graph that has a walk, of whatever cost, for every edge. */
  lemma {:induction false} ReachFollowed(g: Graph, h: Graph, s: Node, w: Walk)
    requires w.In(h) && w.From() == s && forall e :: e in h ==> Reachable(g, e.src, e.dst)
    ensures Reachable(g, s, w.To())
  {
    match w {
      case At(_) => assert Joins(g, s, s, At(s));
      case Hop(p, e) =>
        ReachFollowed(g, h, s, p);
        var v :| Joins(g, s, p.To(), v);
        var u :| Joins(g, e.src, e.dst, u);
        CatJoins(g, s, p.To(), e.dst, v, u);
    }
  }

  /** A graph answers every query like a larger one exactly when no edge of the larger one beats its walks. */
  lemma SameAnswersIff(g: Graph, h: Graph)
    requires NonNegative(h) && g <= h
    ensures SameAnswers(g, h) <==> forall e :: e in h ==> Within(g, e.src, e.dst, e.ms)
  {
    if forall e :: e in h ==> Within(g, e.src, e.dst, e.ms) {
      EdgesWithinSuffice(g, h);
    }
    if SameAnswers(g, h) {
      forall e | e in h
        ensures Within(g, e.src, e.dst, e.ms)
      {
        EdgeIsMatched(g, h, e);
      }
    }
  }

  lemma EdgeIsMatched(g: Graph, h: Graph, e: Edge)
    requires NonNegative(h) && g <= h && SameAnswers(g, h) && e in h
    ensures Within(g, e.src, e.dst, e.ms)
  {
    EdgeWithin(h, e);
    var v :| Joins(h, e.src, e.dst, v) && v.Cost() <= e.ms;
    assert Reachable(h, e.src, e.dst) && Reachable(g, e.src, e.dst);
    CheapestExists(g, e.src, e.dst);
    CheapestExists(h, e.src, e.dst);
    var w :| Cheapest(g, e.src, e.dst, w);
    var w' :| Cheapest(h, e.src, e.dst, w');
  }

  lemma EdgesWithinSuffice(g: Graph, h: Graph)
    requires NonNegative(h) && g <= h && forall e :: e in h ==> Within(g, e.src, e.dst, e.ms)
    ensures SameAnswers(g, h)
  {
    forall s, t
      ensures Reachable(g, s, t) <==> Reachable(h, s, t)
    {
      if w :| Joins(g, s, t, w) {
        FewerEdges(g, h, w);
        assert Joins(h, s, t, w);
      }
      if w :| Joins(h, s, t, w) {
        WalkFollowed(g, h, s, w);
        var v :| Joins(g, s, t, v) && v.Cost() <= w.Cost();
      }
    }
    forall s, t, w, w' | Cheapest(g, s, t, w) && Cheapest(h, s, t, w')
      ensures w.Cost() == w'.Cost()
    {
      FewerEdges(g, h, w);
      WalkFollowed(g, h, s, w');
      var v :| Joins(g, s, t, v) && v.Cost() <= w'.Cost();
    }
  }

  /** Leaving a node costs at least as much as its cheapest edge. */
  lemma {:induction false} LeavingCosts(g: Graph, s: Node, ms: real, w: Walk)
    requires NonNegative(g) && w.In(g) && w.From() == s && w.To() != s
    requires forall e :: e in g && e.src == s ==> e.ms >= ms
    ensures w.Cost() >= ms
  {
    var p, e := w.prefix, w.edge;
    CostsNothingLess(g, p);
    if p.To() != s {
      LeavingCosts(g, s, ms, p);
    }
  }
}

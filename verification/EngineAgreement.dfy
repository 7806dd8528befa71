/**
 The two shortest-path engines side by side: when they hold the same links, when do they give
 the same answers?

 The infrastructure graph looks a link up in the forward direction first and ignores the
 reverse record when both are stored; the topology manager treats the two records as parallel
 edges. Storing a pair in both directions with different latencies is the only way to see
 different graphs. The answers differ only if, besides, no other route is as cheap as the
 record that is ignored.
 */
module EngineAgreement {
  import opened Options
  import opened Walks
  import opened CheapestWalks
  import I = InfrastructureGraphs
  import T = TopologyManagers

  /** Both engines hold the same link records, all of them usable, between registered nodes. */
  ghost predicate SameLinks(nodes: set<Node>, i: I.LinkTable, t: T.LinkTable) {
    && i.Keys == t.Keys
    && (forall k :: k in i ==> i[k].status == "active" && t[k].healthy && i[k].latencyMs == t[k].latencyMs)
    && (forall k :: k in i ==> k.0 in nodes && k.1 in nodes)
  }

  /** A pair stored in both directions has one latency. A pair stored once satisfies this. */
  ghost predicate OneLatencyPerPair(t: T.LinkTable) {
    forall k :: k in t && (k.1, k.0) in t ==> t[k].latencyMs == t[(k.1, k.0)].latencyMs
  }

  /** The topology manager sees every edge that the infrastructure graph sees. */
  lemma TopologySeesMore(nodes: set<Node>, i: I.LinkTable, t: T.LinkTable)
    requires SameLinks(nodes, i, t)
    ensures I.ActiveGraph(nodes, i) <= T.HealthyGraph(t)
  {
    forall e | e in I.ActiveGraph(nodes, i)
      ensures e in T.HealthyGraph(t)
    {
      if (e.src, e.dst) in i {
        assert e in T.Forward(t, t.Keys);
      } else {
        assert (e.dst, e.src) in i;
        assert e in T.Backward(t, t.Keys);
      }
    }
  }

  /** The two engines see the same graph exactly when no pair has two latencies. */
  lemma SameGraphIff(nodes: set<Node>, i: I.LinkTable, t: T.LinkTable)
    requires SameLinks(nodes, i, t)
    ensures I.ActiveGraph(nodes, i) == T.HealthyGraph(t) <==> OneLatencyPerPair(t)
  {
    I.ActiveGraphListed(nodes, i);
    TopologySeesMore(nodes, i, t);
    if OneLatencyPerPair(t) {
      forall e | e in T.HealthyGraph(t)
        ensures e in I.ActiveGraph(nodes, i)
      {
        if e in T.Forward(t, t.Keys) {
          var k :| k in t && e == Edge(k.0, k.1, t[k].latencyMs);
          assert e == I.EdgeBetween(i, k.0, k.1);
        } else {
          var k :| k in t && e == Edge(k.1, k.0, t[k].latencyMs);
          assert e == I.EdgeBetween(i, k.1, k.0);
        }
      }
    } else {
      var k :| k in t && (k.1, k.0) in t && t[k].latencyMs != t[(k.1, k.0)].latencyMs;
      var e := Edge(k.1, k.0, t[k].latencyMs);
      assert e in T.Backward(t, t.Keys);
      assert I.EdgeBetween(i, k.1, k.0) != e;
    }
  }

  // ----- Answers ---------------------------------------------------------------------------------

  /** Whatever the latencies, the engines reach the same nodes. */
  lemma ReachableAlike(nodes: set<Node>, i: I.LinkTable, t: T.LinkTable, s: Node, d: Node)
    requires SameLinks(nodes, i, t)
    ensures Reachable(I.ActiveGraph(nodes, i), s, d) <==> Reachable(T.HealthyGraph(t), s, d)
  {
    var g, h := I.ActiveGraph(nodes, i), T.HealthyGraph(t);
    TopologySeesMore(nodes, i, t);
    if w :| Joins(g, s, d, w) {
      FewerEdges(g, h, w);
      assert Joins(h, s, d, w);
    }
    if w :| Joins(h, s, d, w) {
      forall e | e in h
        ensures Reachable(g, e.src, e.dst)
      {
        EitherEnd(nodes, i, t, e);
      }
      ReachFollowed(g, h, s, w);
    }
  }

  /** An edge of the topology manager joins nodes that some record joins for the infrastructure graph. */
  lemma EitherEnd(nodes: set<Node>, i: I.LinkTable, t: T.LinkTable, e: Edge)
    requires SameLinks(nodes, i, t) && e in T.HealthyGraph(t)
    ensures Reachable(I.ActiveGraph(nodes, i), e.src, e.dst)
    ensures ((e.src, e.dst) in t && e.ms == t[(e.src, e.dst)].latencyMs)
            || ((e.dst, e.src) in t && e.ms == t[(e.dst, e.src)].latencyMs)
  {
    var g := I.ActiveGraph(nodes, i);
    assert (e.src, e.dst) in i || (e.dst, e.src) in i;
    var f := I.EdgeBetween(i, e.src, e.dst);
    I.ActiveGraphListed(nodes, i);
    EdgeWithin(g, f);
    var w :| Joins(g, f.src, f.dst, w) && w.Cost() <= f.ms;
  }

  /** Where a pair is stored in both directions, each way some route is as cheap as the record of the other way. */
  ghost predicate NoShortcut(nodes: set<Node>, i: I.LinkTable, t: T.LinkTable) {
    forall k :: k in t && (k.1, k.0) in t ==> Within(I.ActiveGraph(nodes, i), k.1, k.0, t[k].latencyMs)
  }

  lemma RecordIsEdge(nodes: set<Node>, i: I.LinkTable, t: T.LinkTable, k: (Node, Node))
    requires SameLinks(nodes, i, t) && k in t
    ensures Within(I.ActiveGraph(nodes, i), k.0, k.1, t[k].latencyMs)
    ensures (k.1, k.0) !in t ==> Within(I.ActiveGraph(nodes, i), k.1, k.0, t[k].latencyMs)
    ensures Edge(k.0, k.1, t[k].latencyMs) in T.HealthyGraph(t) && Edge(k.1, k.0, t[k].latencyMs) in T.HealthyGraph(t)
  {
    var g := I.ActiveGraph(nodes, i);
    I.ActiveGraphListed(nodes, i);
    EdgeWithin(g, I.EdgeBetween(i, k.0, k.1));
    EdgeWithin(g, I.EdgeBetween(i, k.1, k.0));
    assert Edge(k.0, k.1, t[k].latencyMs) in T.Forward(t, t.Keys);
    assert Edge(k.1, k.0, t[k].latencyMs) in T.Backward(t, t.Keys);
  }

  /** The engines answer every query with the same cost exactly when no ignored record is a shortcut. */
  lemma SameCostsIff(nodes: set<Node>, i: I.LinkTable, t: T.LinkTable)
    requires SameLinks(nodes, i, t) && T.NonNegativeLatencies(t)
    ensures SameAnswers(I.ActiveGraph(nodes, i), T.HealthyGraph(t)) <==> NoShortcut(nodes, i, t)
  {
    var g, h := I.ActiveGraph(nodes, i), T.HealthyGraph(t);
    TopologySeesMore(nodes, i, t);
    T.EveryEdgeReturns(t);
    SameAnswersIff(g, h);
    if NoShortcut(nodes, i, t) {
      forall e | e in h
        ensures Within(g, e.src, e.dst, e.ms)
      {
        EitherEnd(nodes, i, t, e);
        if (e.src, e.dst) in t && e.ms == t[(e.src, e.dst)].latencyMs {
          RecordIsEdge(nodes, i, t, (e.src, e.dst));
        } else {
          RecordIsEdge(nodes, i, t, (e.dst, e.src));
        }
      }
    }
    if forall e :: e in h ==> Within(g, e.src, e.dst, e.ms) {
      forall k | k in t && (k.1, k.0) in t
        ensures Within(g, k.1, k.0, t[k].latencyMs)
      {
        RecordIsEdge(nodes, i, t, k);
        assert Within(g, k.1, k.0, Edge(k.1, k.0, t[k].latencyMs).ms);
      }
    }
  }

  /** The topology manager may find a cheaper route, never a dearer one. */
  lemma TopologyNeverDearer(nodes: set<Node>, i: I.LinkTable, t: T.LinkTable, s: Node, d: Node, w: Walk, w': Walk)
    requires SameLinks(nodes, i, t)
    requires Cheapest(I.ActiveGraph(nodes, i), s, d, w) && Cheapest(T.HealthyGraph(t), s, d, w')
    ensures w'.Cost() <= w.Cost()
  {
    TopologySeesMore(nodes, i, t);
    FewerEdges(I.ActiveGraph(nodes, i), T.HealthyGraph(t), w);
  }

  // ----- Running both ----------------------------------------------------------------------------

  ghost predicate Linked(t: T.LinkTable, s: Node) {
    exists k :: k in t && (k.0 == s || k.1 == s)
  }

  lemma LinkedIsTouched(t: T.LinkTable, s: Node)
    requires forall k :: k in t ==> t[k].healthy
    ensures Linked(t, s) <==> T.Touched(T.HealthyGraph(t), s)
  {
    if k :| k in t && (k.0 == s || k.1 == s) {
      assert Edge(k.0, k.1, t[k].latencyMs) in T.Forward(t, t.Keys);
      assert Edge(k.1, k.0, t[k].latencyMs) in T.Backward(t, t.Keys);
    }
  }

  /** From a node without links, a walk goes nowhere; and no walk ends in another node without links. */
  lemma {:induction false} UnlinkedStays(t: T.LinkTable, w: Walk)
    requires w.In(T.HealthyGraph(t)) && w.From() != w.To()
    ensures Linked(t, w.From()) && Linked(t, w.To())
  {
    var p, e := w.prefix, w.edge;
    assert (e.src, e.dst) in t || (e.dst, e.src) in t;
    if p.From() != p.To() {
      UnlinkedStays(t, p);
    }
  }

  /**
   Both engines on the same links. A path is found by both or by neither, except for the query
   from a registered node without links to itself. Of two paths that were found the topology
   manager's is not the dearer one, and both cost the same on every query exactly when no
   ignored record is a shortcut (see SameCostsIff).
   */
  method CompareRoutes(ig: I.InfrastructureGraph, tm: T.TopologyManager, s: Node, d: Node)
      returns (path: seq<Node>, best: I.Latency, route: Option<seq<Node>>)
    requires ig.Valid() && I.NonNegativeLatencies(ig.links) && SameLinks(ig.nodes.Keys, ig.links, tm.links)
    ensures (best.Fin? <==> route.Some?) <==> !(s == d && s in ig.nodes && !Linked(tm.links, s))
    ensures best.Fin? && route.Some? ==>
      exists w, w' ::
        && Cheapest(I.ActiveGraph(ig.nodes.Keys, ig.links), s, d, w) && w.Stops() == path && w.Cost() == best.ms
        && Cheapest(T.HealthyGraph(tm.links), s, d, w') && w'.Stops() == route.value
        && w'.Cost() <= w.Cost()
        && (NoShortcut(ig.nodes.Keys, ig.links, tm.links) ==> w'.Cost() == w.Cost())
  {
    ghost var g, h := I.ActiveGraph(ig.nodes.Keys, ig.links), T.HealthyGraph(tm.links);
    ReachableAlike(ig.nodes.Keys, ig.links, tm.links, s, d);
    LinkedIsTouched(tm.links, s);
    if w :| Joins(h, s, d, w) && s != d {
      UnlinkedStays(tm.links, w);
    }
    path, best := ig.ShortestPath(s, d);
    route := tm.ShortestPath(s, d);
    assert Joins(g, s, s, At(s));
    if best.Fin? && route.Some? {
      ghost var w :| Cheapest(g, s, d, w) && w.Stops() == path && w.Cost() == best.ms;
      ghost var w' :| Cheapest(h, s, d, w') && w'.Stops() == route.value;
      TopologyNeverDearer(ig.nodes.Keys, ig.links, tm.links, s, d, w, w');
      SameCostsIff(ig.nodes.Keys, ig.links, tm.links);
    }
  }

  // ----- Inputs ----------------------------------------------------------------------------------

  /** A usable link, as each engine stores it. */
  function Stored(u: Node, v: Node, ms: real): (I.GraphLink, T.TopologyLink) {
    (I.GraphLink(u, v, ms, "active"), T.TopologyLink(u, v, ms, true))
  }

  /** Stored as 1 one way and 5 the other, the infrastructure graph goes back for 5 and the topology manager for 1. */
  lemma DearerRoute(u: Node, v: Node) returns (i: I.LinkTable, t: T.LinkTable, w: Walk, w': Walk)
    requires u != v
    ensures SameLinks({u, v}, i, t) && T.NonNegativeLatencies(t)
    ensures Cheapest(I.ActiveGraph({u, v}, i), v, u, w) && w.Cost() == 5.0
    ensures Cheapest(T.HealthyGraph(t), v, u, w') && w'.Cost() == 1.0
  {
    i := map[(u, v) := Stored(u, v, 1.0).0, (v, u) := Stored(v, u, 5.0).0];
    t := map[(u, v) := Stored(u, v, 1.0).1, (v, u) := Stored(v, u, 5.0).1];
    I.ActiveGraphListed({u, v}, i);
    T.EveryEdgeReturns(t);
    w := OneHopIsCheapest(I.ActiveGraph({u, v}, i), Edge(v, u, 5.0));
    RecordIsEdge({u, v}, i, t, (u, v));
    w' := OneHopIsCheapest(T.HealthyGraph(t), Edge(v, u, 1.0));
  }

  lemma OneHopIsCheapest(g: Graph, e: Edge) returns (w: Walk)
    requires NonNegative(g) && e in g && e.src != e.dst && forall f :: f in g && f.src == e.src ==> f.ms >= e.ms
    ensures Cheapest(g, e.src, e.dst, w) && w.Cost() == e.ms
  {
    var stay := At(e.src);
    assert stay.In(g) && stay.From() == e.src && stay.To() == e.src && stay.Cost() == 0.0;
    w := Hop(stay, e);
    forall v | Joins(g, e.src, e.dst, v)
      ensures e.ms <= v.Cost()
    {
      LeavingCosts(g, e.src, e.ms, v);
    }
  }

  /** Two latencies for a pair need not matter: a detour over a third node is as cheap as either record. */
  lemma DetourHidesShortcut(u: Node, v: Node, m: Node) returns (i: I.LinkTable, t: T.LinkTable)
    requires u != v && v != m && m != u
    ensures SameLinks({u, v, m}, i, t) && T.NonNegativeLatencies(t) && !OneLatencyPerPair(t)
    ensures SameAnswers(I.ActiveGraph({u, v, m}, i), T.HealthyGraph(t))
  {
    i := map[(u, v) := Stored(u, v, 5.0).0, (v, u) := Stored(v, u, 7.0).0,
             (u, m) := Stored(u, m, 1.0).0, (m, v) := Stored(m, v, 1.0).0];
    t := map[(u, v) := Stored(u, v, 5.0).1, (v, u) := Stored(v, u, 7.0).1,
             (u, m) := Stored(u, m, 1.0).1, (m, v) := Stored(m, v, 1.0).1];
    assert t[(u, v)].latencyMs != t[(v, u)].latencyMs;
    DetourWithin({u, v, m}, i, t, u, v, m);
    SameCostsIff({u, v, m}, i, t);
  }

  lemma DetourWithin(nodes: set<Node>, i: I.LinkTable, t: T.LinkTable, u: Node, v: Node, m: Node)
    requires SameLinks(nodes, i, t) && (m, v) in t && (v, m) !in t && (u, m) in t && (m, u) !in t && (u, v) in t
    requires t[(m, v)].latencyMs == 1.0 && t[(u, m)].latencyMs == 1.0 && t[(u, v)].latencyMs == 5.0
    ensures Within(I.ActiveGraph(nodes, i), v, u, 5.0) && Within(I.ActiveGraph(nodes, i), u, v, 7.0)
  {
    var g := I.ActiveGraph(nodes, i);
    RecordIsEdge(nodes, i, t, (m, v));
    RecordIsEdge(nodes, i, t, (u, m));
    RecordIsEdge(nodes, i, t, (u, v));
    WithinTwice(g, v, m, u, 1.0, 1.0);
    WithinMore(g, v, u, 1.0 + 1.0, 5.0);
    WithinMore(g, u, v, 5.0, 7.0);
  }
}

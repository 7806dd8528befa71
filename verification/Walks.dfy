/**
 Walks in a directed multigraph with latencies on its edges, and the part of the correctness
 argument that both shortest-path engines share.

 A search is described by the nodes it has visited, a tentative distance and a predecessor for
 every node it has reached, and (for the proof only) the walk that realises each distance.
 Neither engine recomputes anything for a visited node, so the walk of a visited node is final;
 that makes following predecessors terminate even when some latencies are zero.
 */
module Walks {
  import opened Collections
  import opened Options

  datatype Node = Node(name: string)

  datatype Edge = Edge(src: Node, dst: Node, ms: real)

  type Graph = set<Edge>

  ghost predicate NonNegative(g: Graph) {
    forall e :: e in g ==> e.ms >= 0.0
  }

  /** A walk is a start node followed by edges; consecutive edges need not be distinct. */
  datatype Walk = At(start: Node) | Hop(prefix: Walk, edge: Edge) {
    ghost function From(): Node {
      match this
      case At(s) => s
      case Hop(p, _) => p.From()
    }

    ghost function To(): Node {
      match this
      case At(s) => s
      case Hop(_, e) => e.dst
    }

    ghost function Cost(): real {
      match this
      case At(_) => 0.0
      case Hop(p, e) => p.Cost() + e.ms
    }

    /** The nodes passed, in order. */
    ghost function Stops(): seq<Node> {
      match this
      case At(s) => [s]
      case Hop(p, e) => p.Stops() + [e.dst]
    }

    ghost predicate In(g: Graph) {
      match this
      case At(_) => true
      case Hop(p, e) => e in g && e.src == p.To() && p.In(g)
    }

    /** No node is passed twice. */
    ghost predicate Simple() {
      match this
      case At(_) => true
      case Hop(p, e) => e.dst !in p.Stops() && p.Simple()
    }
  }

  ghost predicate Joins(g: Graph, s: Node, t: Node, w: Walk) {
    w.In(g) && w.From() == s && w.To() == t
  }

  ghost predicate Reachable(g: Graph, s: Node, t: Node) {
    exists w :: Joins(g, s, t, w)
  }

  /** `w` joins `s` to `t` and no walk that does so is cheaper. */
  ghost predicate Cheapest(g: Graph, s: Node, t: Node, w: Walk) {
    && Joins(g, s, t, w)
    && forall w' :: Joins(g, s, t, w') ==> w.Cost() <= w'.Cost()
  }

  lemma {:induction false} SimpleStopsDistinct(w: Walk)
    requires w.Simple()
    ensures Distinct(w.Stops())
  {
    match w {
      case At(_) =>
      case Hop(p, e) => SimpleStopsDistinct(p);
    }
  }

  lemma {:induction false} FewerEdges(g: Graph, h: Graph, w: Walk)
    requires g <= h && w.In(g)
    ensures w.In(h)
  {
    match w {
      case At(_) =>
      case Hop(p, _) => FewerEdges(g, h, p);
    }
  }

  function Reversed<T>(s: seq<T>): seq<T> {
    if s == [] then [] else [s[|s| - 1]] + Reversed(s[..|s| - 1])
  }

  lemma ReversedSnoc<T>(s: seq<T>, x: T)
    ensures Reversed(s + [x]) == [x] + Reversed(s)
  {
    assert (s + [x])[..|s|] == s;
  }

  /** Moves the last stop still to trace to the end of the path read backwards. */
  lemma TraceOneBack<T>(stops: seq<T>, left: seq<T>, path: seq<T>, v: T)
    requires stops == left + [v] + Reversed(path)
    ensures stops == left + Reversed(path + [v])
  {
    ReversedSnoc(path, v);
  }

  // ----- The state of a search -----------------------------------------------------------------

  /** A Python dictionary's `get`, for the predecessor table. */
  function Parent(prev: map<Node, Option<Node>>, v: Node): Option<Node> {
    if v in prev then prev[v] else None
  }

  /** What is known of one reached node. */
  ghost predicate Label(g: Graph, s: Node, visited: set<Node>, dist: map<Node, real>,
                        prev: map<Node, Option<Node>>, walks: map<Node, Walk>, v: Node)
    requires v in dist && v in walks
  {
    var w := walks[v];
    && Joins(g, s, v, w)
    && w.Cost() == dist[v]
    && w.Simple()
    && (forall n :: n in w.Stops() ==> n == v || n in visited)
    && match w
       case At(_) => Parent(prev, v) == None
       case Hop(p, e) => Parent(prev, v) == Some(e.src) && e.src in visited && e.src in walks && walks[e.src] == p
  }

  ghost predicate Labelled(g: Graph, s: Node, visited: set<Node>, dist: map<Node, real>,
                           prev: map<Node, Option<Node>>, walks: map<Node, Walk>)
  {
    && walks.Keys == dist.Keys
    && forall v {:trigger Label(g, s, visited, dist, prev, walks, v)} :: v in dist ==>
        Label(g, s, visited, dist, prev, walks, v)
  }

  ghost predicate Relaxed(visited: set<Node>, dist: map<Node, real>, e: Edge)
    requires visited <= dist.Keys
  {
    e.src in visited && e.dst in dist && dist[e.dst] <= dist[e.src] + e.ms
  }

  /** Nothing visited is further away than `level`, nothing unvisited is nearer. */
  ghost predicate OnItsSide(visited: set<Node>, level: real, dist: map<Node, real>, v: Node)
    requires v in dist
  {
    (v in visited ==> dist[v] <= level) && (v !in visited ==> level <= dist[v])
  }

  ghost predicate Leveled(visited: set<Node>, level: real, dist: map<Node, real>) {
    forall v {:trigger OnItsSide(visited, level, dist, v)} :: v in dist ==> OnItsSide(visited, level, dist, v)
  }

  /** Relaxed edges start in visited nodes and respect the triangle inequality. */
  ghost predicate Settled(visited: set<Node>, dist: map<Node, real>, settled: set<Edge>)
    requires visited <= dist.Keys
  {
    forall e {:trigger Relaxed(visited, dist, e)} :: e in settled ==> Relaxed(visited, dist, e)
  }

  /**
   The invariant of both searches. `level` is the distance of the node visited last and
   `settled` are the edges already relaxed.
   */
  ghost predicate Searching(g: Graph, s: Node, visited: set<Node>, level: real, dist: map<Node, real>,
                            prev: map<Node, Option<Node>>, walks: map<Node, Walk>, settled: set<Edge>)
  {
    && Labelled(g, s, visited, dist, prev, walks)
    && visited <= dist.Keys
    && s in dist && dist[s] == 0.0 && level >= 0.0
    && Leveled(visited, level, dist)
    && Settled(visited, dist, settled)
  }

  lemma StartSearching(g: Graph, s: Node, prev: map<Node, Option<Node>>)
    requires Parent(prev, s) == None
    ensures Searching(g, s, {}, 0.0, map[s := 0.0], prev, map[s := At(s)], {})
  {
  }

  lemma VisitKeepsLabelled(g: Graph, s: Node, visited: set<Node>, dist: map<Node, real>,
                           prev: map<Node, Option<Node>>, walks: map<Node, Walk>, u: Node)
    requires Labelled(g, s, visited, dist, prev, walks)
    ensures Labelled(g, s, visited + {u}, dist, prev, walks)
  {
    forall v | v in dist
      ensures Label(g, s, visited + {u}, dist, prev, walks, v)
    {
      assert Label(g, s, visited, dist, prev, walks, v);
    }
  }

  lemma VisitKeepsSettled(visited: set<Node>, dist: map<Node, real>, settled: set<Edge>, u: Node)
    requires visited <= dist.Keys && u in dist && Settled(visited, dist, settled)
    ensures Settled(visited + {u}, dist, settled)
  {
    forall e | e in settled
      ensures Relaxed(visited + {u}, dist, e)
    {
      assert Relaxed(visited, dist, e);
    }
  }

  lemma VisitRaisesLevel(visited: set<Node>, level: real, dist: map<Node, real>, u: Node)
    requires Leveled(visited, level, dist) && u in dist && u !in visited
    requires forall v :: v in dist && v !in visited ==> dist[u] <= dist[v]
    ensures level <= dist[u] && Leveled(visited + {u}, dist[u], dist)
  {
    assert OnItsSide(visited, level, dist, u);
    forall v | v in dist
      ensures OnItsSide(visited + {u}, dist[u], dist, v)
    {
      assert OnItsSide(visited, level, dist, v);
    }
  }

  /** Marking the nearest unvisited node as visited. */
  lemma VisitKeepsSearching(g: Graph, s: Node, visited: set<Node>, level: real, dist: map<Node, real>,
                            prev: map<Node, Option<Node>>, walks: map<Node, Walk>, settled: set<Edge>, u: Node)
    requires Searching(g, s, visited, level, dist, prev, walks, settled)
    requires u in dist && u !in visited
    requires forall v :: v in dist && v !in visited ==> dist[u] <= dist[v]
    ensures Searching(g, s, visited + {u}, dist[u], dist, prev, walks, settled)
  {
    VisitKeepsLabelled(g, s, visited, dist, prev, walks, u);
    VisitKeepsSettled(visited, dist, settled, u);
    VisitRaisesLevel(visited, level, dist, u);
  }

  /** Relaxing an edge that does not improve anything. */
  lemma KeepKeepsSearching(g: Graph, s: Node, visited: set<Node>, level: real, dist: map<Node, real>,
                           prev: map<Node, Option<Node>>, walks: map<Node, Walk>, settled: set<Edge>, e: Edge)
    requires Searching(g, s, visited, level, dist, prev, walks, settled)
    requires e.src in visited && e.dst in dist && dist[e.src] == level && e.ms >= 0.0
    requires e.dst in visited || dist[e.dst] <= level + e.ms
    ensures Searching(g, s, visited, level, dist, prev, walks, settled + {e})
  {
    assert OnItsSide(visited, level, dist, e.dst);
  }

  /** An improvement elsewhere leaves a label as it was. */
  lemma ImproveKeepsLabel(g: Graph, s: Node, visited: set<Node>, dist: map<Node, real>, prev: map<Node, Option<Node>>,
                          walks: map<Node, Walk>, v: Node, x: Node, d: real, u: Node, w: Walk)
    requires v in dist && v in walks && v != x && x !in visited
    requires Label(g, s, visited, dist, prev, walks, v)
    ensures Label(g, s, visited, dist[x := d], prev[x := Some(u)], walks[x := w], v)
  {
  }

  /** The label of a node just reached from a visited one. */
  lemma NewLabel(g: Graph, s: Node, visited: set<Node>, dist: map<Node, real>, prev: map<Node, Option<Node>>,
                 walks: map<Node, Walk>, e: Edge)
    requires e in g && e.src in visited && e.src in dist && e.src in walks && e.dst !in visited
    requires Label(g, s, visited, dist, prev, walks, e.src)
    ensures Label(g, s, visited, dist[e.dst := dist[e.src] + e.ms], prev[e.dst := Some(e.src)],
                  walks[e.dst := Hop(walks[e.src], e)], e.dst)
  {
  }

  lemma ImproveKeepsLabelled(g: Graph, s: Node, visited: set<Node>, dist: map<Node, real>,
                             prev: map<Node, Option<Node>>, walks: map<Node, Walk>, e: Edge)
    requires Labelled(g, s, visited, dist, prev, walks)
    requires e in g && e.src in visited && e.src in dist && e.dst !in visited
    ensures Labelled(g, s, visited, dist[e.dst := dist[e.src] + e.ms], prev[e.dst := Some(e.src)],
                     walks[e.dst := Hop(walks[e.src], e)])
  {
    var d := dist[e.src] + e.ms;
    NewLabel(g, s, visited, dist, prev, walks, e);
    forall v | v in dist && v != e.dst
      ensures Label(g, s, visited, dist[e.dst := d], prev[e.dst := Some(e.src)], walks[e.dst := Hop(walks[e.src], e)],
          v)
    {
      ImproveKeepsLabel(g, s, visited, dist, prev, walks, v, e.dst, d, e.src, Hop(walks[e.src], e));
    }
  }

  lemma ImproveKeepsSettled(visited: set<Node>, dist: map<Node, real>, settled: set<Edge>, e: Edge)
    requires visited <= dist.Keys && Settled(visited, dist, settled)
    requires e.src in visited && e.dst !in visited && (e.dst in dist ==> dist[e.src] + e.ms < dist[e.dst])
    ensures Settled(visited, dist[e.dst := dist[e.src] + e.ms], settled + {e})
  {
    forall f | f in settled
      ensures Relaxed(visited, dist[e.dst := dist[e.src] + e.ms], f)
    {
      assert Relaxed(visited, dist, f);
    }
  }

  lemma ImproveKeepsLeveled(visited: set<Node>, level: real, dist: map<Node, real>, x: Node, d: real)
    requires Leveled(visited, level, dist) && x !in visited && level <= d
    ensures Leveled(visited, level, dist[x := d])
  {
    forall v | v in dist && v != x
      ensures OnItsSide(visited, level, dist[x := d], v)
    {
      assert OnItsSide(visited, level, dist, v);
    }
  }

  /** Relaxing an edge that reaches a node for the first time, or more cheaply. */
  lemma ImproveKeepsSearching(g: Graph, s: Node, visited: set<Node>, level: real, dist: map<Node, real>,
                              prev: map<Node, Option<Node>>, walks: map<Node, Walk>, settled: set<Edge>, e: Edge)
    requires Searching(g, s, visited, level, dist, prev, walks, settled)
    requires e in g && e.src in visited && dist[e.src] == level && e.ms >= 0.0
    requires e.dst !in visited && (e.dst in dist ==> level + e.ms < dist[e.dst])
    ensures Searching(g, s, visited, level, dist[e.dst := level + e.ms], prev[e.dst := Some(e.src)],
                      walks[e.dst := Hop(walks[e.src], e)], settled + {e})
  {
    ImproveKeepsLabelled(g, s, visited, dist, prev, walks, e);
    ImproveKeepsSettled(visited, dist, settled, e);
    ImproveKeepsLeveled(visited, level, dist, e.dst, level + e.ms);
  }

  /**
   Dijkstra's argument: when every edge leaving `closed` has been relaxed and everything else
   reached is at least `bound` away, a walk either costs `bound` or ends in a node whose
   distance is no more than the walk's cost.
   */
  lemma {:induction false} WalkBound(g: Graph, s: Node, closed: set<Node>, dist: map<Node, real>, bound: real, w: Walk)
    requires NonNegative(g) && w.In(g) && w.From() == s
    requires s in dist && dist[s] <= 0.0
    requires forall e :: e in g && e.src in closed ==>
        e.src in dist && e.dst in dist && dist[e.dst] <= dist[e.src] + e.ms
    requires forall v :: v in dist && v !in closed ==> bound <= dist[v]
    ensures bound <= w.Cost() || (w.To() in dist && dist[w.To()] <= w.Cost())
  {
    match w {
      case At(_) =>
      case Hop(p, e) => WalkBound(g, s, closed, dist, bound, p);
    }
  }

  /** One step back along the predecessors: the walk of a node is that of its parent, extended. */
  lemma StepBack(g: Graph, s: Node, visited: set<Node>, dist: map<Node, real>,
                 prev: map<Node, Option<Node>>, walks: map<Node, Walk>, v: Node)
    requires Labelled(g, s, visited, dist, prev, walks) && visited <= dist.Keys && v in dist
    ensures match Parent(prev, v)
            case None => walks[v].Stops() == [v]
            case Some(u) => u in dist && walks[v].Stops() == walks[u].Stops() + [v]
  {
    assert Label(g, s, visited, dist, prev, walks, v);
  }

  lemma SettledCloses(g: Graph, closed: set<Node>, visited: set<Node>, dist: map<Node, real>, settled: set<Edge>)
    requires visited <= dist.Keys && Settled(visited, dist, settled)
    requires forall e :: e in g && e.src in closed ==> e in settled
    ensures forall e :: e in g && e.src in closed ==>
        e.src in dist && e.dst in dist && dist[e.dst] <= dist[e.src] + e.ms
  {
    forall e | e in g && e.src in closed
      ensures e.src in dist && e.dst in dist && dist[e.dst] <= dist[e.src] + e.ms
    {
      assert Relaxed(visited, dist, e);
    }
  }

  /** When everything but `t` that is nearer than `t` is closed, the walk found for `t` is cheapest. */
  lemma NearestIsCheapest(g: Graph, s: Node, closed: set<Node>, visited: set<Node>, level: real, dist: map<Node, real>,
                          prev: map<Node, Option<Node>>, walks: map<Node, Walk>, settled: set<Edge>, t: Node)
    requires NonNegative(g) && Searching(g, s, visited, level, dist, prev, walks, settled)
    requires forall e :: e in g && e.src in closed ==> e in settled
    requires t in dist && forall v :: v in dist && v !in closed ==> dist[t] <= dist[v]
    ensures Cheapest(g, s, t, walks[t]) && walks[t].Cost() == dist[t] && Distinct(walks[t].Stops())
  {
    assert Label(g, s, visited, dist, prev, walks, t);
    SimpleStopsDistinct(walks[t]);
    forall w | Joins(g, s, t, w)
      ensures walks[t].Cost() <= w.Cost()
    {
      SettledCloses(g, closed, visited, dist, settled);
      WalkBound(g, s, closed, dist, dist[t], w);
    }
  }

  /** When every reached node is closed, nothing else is reachable. */
  lemma ClosedIsEverything(g: Graph, s: Node, visited: set<Node>, level: real, dist: map<Node, real>,
                           prev: map<Node, Option<Node>>, walks: map<Node, Walk>, settled: set<Edge>, t: Node)
    requires NonNegative(g) && Searching(g, s, visited, level, dist, prev, walks, settled)
    requires visited == dist.Keys && t !in dist
    requires forall e :: e in g && e.src in visited ==> e in settled
    ensures !Reachable(g, s, t)
  {
    forall w | Joins(g, s, t, w)
      ensures false
    {
      SettledCloses(g, visited, visited, dist, settled);
      WalkBound(g, s, visited, dist, w.Cost() + 1.0, w);
    }
  }
}

/**
 The region topology manager (fabric/topology_manager.py): a table of links between regions,
 and a shortest-path search over the healthy ones that leaves outdated entries in its heap and
 skips them when they surface.

 The heap is modelled by what `heapq` guarantees: popping removes an entry of least distance.
 Which of several equally near entries comes first is left open, so the results hold for every
 tie-break, including the real one (by region id).
 */
module TopologyManagers {
  import opened Collections
  import opened Options
  import opened Walks

  datatype TopologyLink = TopologyLink(source: Node, target: Node, latencyMs: real, healthy: bool)

  type LinkTable = map<(Node, Node), TopologyLink>

  type AdjacencyLists = map<Node, seq<(Node, real)>>

  type Heap = multiset<(real, Node)>

  ghost function Forward(links: LinkTable, keys: set<(Node, Node)>): Graph {
    set k | k in keys && k in links && links[k].healthy :: Edge(k.0, k.1, links[k].latencyMs)
  }

  ghost function Backward(links: LinkTable, keys: set<(Node, Node)>): Graph {
    set k | k in keys && k in links && links[k].healthy :: Edge(k.1, k.0, links[k].latencyMs)
  }

  /** Every healthy link can be crossed both ways; two records for a pair give parallel edges. */
  ghost function HealthyGraph(links: LinkTable): Graph {
    Forward(links, links.Keys) + Backward(links, links.Keys)
  }

  ghost predicate NonNegativeLatencies(links: LinkTable) {
    forall k :: k in links ==> links[k].latencyMs >= 0.0
  }

  ghost predicate Touched(g: Graph, u: Node) {
    exists e :: e in g && e.src == u
  }

  /** `shortest_path`'s promise, stated on the link table alone. */
  ghost predicate ShortestRoute(links: LinkTable, source: Node, target: Node, path: Option<seq<Node>>) {
    var g := HealthyGraph(links);
    if Touched(g, source) && Reachable(g, source, target) then
      path.Some? && Distinct(path.value) && exists w :: Cheapest(g, source, target, w) && w.Stops() == path.value
    else
      path == None
  }

  // ----- Building the adjacency lists -----------------------------------------------------------

  /** The adjacency lists hold exactly the edges of `g`, under the nodes that `g` touches. */
  ghost predicate ListsEdges(graph: AdjacencyLists, g: Graph) {
    && (forall u :: u in graph ==> Touched(g, u))
    && (forall e :: e in g ==> e.src in graph && (e.dst, e.ms) in graph[e.src])
    && (forall u, v, ms :: u in graph && (v, ms) in graph[u] ==> Edge(u, v, ms) in g)
  }

  method AddEdge(graph0: AdjacencyLists, ghost g: Graph, u: Node, v: Node, ms: real) returns (graph: AdjacencyLists)
    requires ListsEdges(graph0, g)
    ensures ListsEdges(graph, g + {Edge(u, v, ms)})
  {
    var listed := if u in graph0 then graph0[u] else [];
    graph := graph0[u := listed + [(v, ms)]];
    forall n | n in graph
      ensures Touched(g + {Edge(u, v, ms)}, n)
    {
      if n != u {
        var e :| e in g && e.src == n;
        assert e in g + {Edge(u, v, ms)};
      } else {
        assert Edge(u, v, ms) in g + {Edge(u, v, ms)};
      }
    }
  }

  method AddBothWays(graph0: AdjacencyLists, ghost g: Graph, ms: real, u: Node, v: Node) returns (graph: AdjacencyLists)
    requires ListsEdges(graph0, g)
    ensures ListsEdges(graph, g + {Edge(u, v, ms)} + {Edge(v, u, ms)})
  {
    graph := AddEdge(graph0, g, u, v, ms);
    graph := AddEdge(graph, g + {Edge(u, v, ms)}, v, u, ms);
  }

  lemma OneMoreLink(links: LinkTable, done: set<(Node, Node)>, k: (Node, Node))
    requires k in links
    ensures links[k].healthy ==>
      Forward(links, done + {k}) + Backward(links, done + {k})
      == Forward(links, done) + Backward(links, done) + {Edge(k.0, k.1, links[k].latencyMs)}
          + {Edge(k.1, k.0, links[k].latencyMs)}
    ensures !links[k].healthy ==>
      Forward(links, done + {k}) + Backward(links, done + {k}) == Forward(links, done) + Backward(links, done)
  {
  }

  method BuildGraph(links: LinkTable) returns (graph: AdjacencyLists)
    ensures ListsEdges(graph, HealthyGraph(links))
  {
    graph := map[];
    var todo := links.Keys;
    ghost var done: set<(Node, Node)> := {};
    while todo != {}
      invariant todo <= links.Keys && done == links.Keys - todo
      invariant ListsEdges(graph, Forward(links, done) + Backward(links, done))
      decreases todo
    {
      var k :| k in todo;
      OneMoreLink(links, done, k);
      if links[k].healthy {
        graph := AddBothWays(graph, Forward(links, done) + Backward(links, done), links[k].latencyMs, k.0, k.1);
      }
      done := done + {k};
      todo := todo - {k};
    }
    assert done == links.Keys;
  }

  lemma EveryEdgeReturns(links: LinkTable)
    ensures forall e :: e in HealthyGraph(links) ==> Edge(e.dst, e.src, e.ms) in HealthyGraph(links)
    ensures NonNegativeLatencies(links) ==> NonNegative(HealthyGraph(links))
  {
    forall e | e in HealthyGraph(links)
      ensures Edge(e.dst, e.src, e.ms) in HealthyGraph(links)
    {
      if e in Forward(links, links.Keys) {
        var k :| k in links.Keys && links[k].healthy && e == Edge(k.0, k.1, links[k].latencyMs);
        assert Edge(k.1, k.0, links[k].latencyMs) in Backward(links, links.Keys);
      } else {
        var k :| k in links.Keys && links[k].healthy && e == Edge(k.1, k.0, links[k].latencyMs);
        assert Edge(k.0, k.1, links[k].latencyMs) in Forward(links, links.Keys);
      }
    }
  }

  ghost predicate ListsBothEnds(graph: AdjacencyLists, g: Graph) {
    ListsEdges(graph, g) && EndsIn(g, graph.Keys)
  }

  ghost predicate EndsIn(g: Graph, ends: set<Node>) {
    forall e :: e in g ==> e.dst in ends
  }

  /** The list holds exactly the edges that leave the node. */
  ghost predicate EdgesFrom(g: Graph, node: Node, edges: seq<(Node, real)>) {
    && (forall p :: p in edges ==> Edge(node, p.0, p.1) in g)
    && (forall e :: e in g && e.src == node ==> (e.dst, e.ms) in edges)
  }

  lemma ListedFrom(graph: AdjacencyLists, g: Graph, node: Node)
    requires ListsEdges(graph, g) && node in graph
    ensures EdgesFrom(g, node, graph[node])
  {
  }

  // ----- The heap --------------------------------------------------------------------------------

  /** A reached, unvisited node has its current distance in the heap. */
  ghost predicate Pending(heap: Heap, visited: set<Node>, dist: map<Node, real>, v: Node)
    requires v in dist
  {
    v in visited || (dist[v], v) in heap
  }

  /** A heap entry may be outdated, but never too small. */
  ghost predicate NotTooSmall(dist: map<Node, real>, entry: (real, Node)) {
    entry.1 in dist && dist[entry.1] <= entry.0
  }

  ghost predicate Covers(heap: Heap, visited: set<Node>, dist: map<Node, real>) {
    && (forall v {:trigger Pending(heap, visited, dist, v)} :: v in dist ==> Pending(heap, visited, dist, v))
    && (forall entry {:trigger NotTooSmall(dist, entry)} :: entry in heap ==> NotTooSmall(dist, entry))
  }

  /** `heapq.heappop`. */
  method PopNearest(heap: Heap) returns (top: (real, Node), rest: Heap)
    requires heap != multiset{}
    ensures top in heap && rest == heap - multiset{top}
    ensures forall entry :: entry in heap ==> top.0 <= entry.0
  {
    top :| top in heap;
    var todo := heap - multiset{top};
    while todo != multiset{}
      invariant todo <= heap && top in heap
      invariant forall entry :: entry in heap ==> entry in todo || top.0 <= entry.0
      decreases |todo|
    {
      var entry :| entry in todo;
      if entry.0 < top.0 {
        top := entry;
      }
      todo := todo - multiset{entry};
    }
    rest := heap - multiset{top};
  }

  lemma PushKeepsCovers(heap: Heap, visited: set<Node>, dist: map<Node, real>, x: Node, d: real)
    requires Covers(heap, visited, dist) && (x in dist ==> d < dist[x])
    ensures Covers(heap + multiset{(d, x)}, visited, dist[x := d])
  {
    var heap', dist' := heap + multiset{(d, x)}, dist[x := d];
    forall v | v in dist'
      ensures Pending(heap', visited, dist', v)
    {
      assert v != x ==> Pending(heap, visited, dist, v);
    }
    forall entry | entry in heap'
      ensures NotTooSmall(dist', entry)
    {
      assert entry in heap ==> NotTooSmall(dist, entry);
    }
  }

  /** Dropping an entry of a visited node loses nothing. */
  lemma DropKeepsCovers(heap: Heap, visited: set<Node>, dist: map<Node, real>, top: (real, Node))
    requires Covers(heap, visited, dist) && top in heap && top.1 in visited
    ensures Covers(heap - multiset{top}, visited, dist)
  {
    var heap' := heap - multiset{top};
    forall v | v in dist
      ensures Pending(heap', visited, dist, v)
    {
      assert Pending(heap, visited, dist, v);
    }
    forall entry | entry in heap'
      ensures NotTooSmall(dist, entry)
    {
      assert entry in heap && NotTooSmall(dist, entry);
    }
  }

  lemma VisitKeepsCovers(heap: Heap, visited: set<Node>, dist: map<Node, real>, u: Node)
    requires Covers(heap, visited, dist)
    ensures Covers(heap, visited + {u}, dist)
  {
    forall v | v in dist
      ensures Pending(heap, visited + {u}, dist, v)
    {
      assert Pending(heap, visited, dist, v);
    }
  }

  lemma EmptyHeapMeansDone(visited: set<Node>, dist: map<Node, real>)
    requires Covers(multiset{}, visited, dist) && visited <= dist.Keys
    ensures visited == dist.Keys
  {
    forall v | v in dist
      ensures v in visited
    {
      assert Pending(multiset{}, visited, dist, v);
    }
  }

  /** The top of the heap is not outdated if its node is unvisited, and then no reached node is nearer. */
  lemma TopIsNearest(heap: Heap, visited: set<Node>, dist: map<Node, real>, top: (real, Node))
    requires Covers(heap, visited, dist) && top in heap && top.1 !in visited
    requires forall entry :: entry in heap ==> top.0 <= entry.0
    ensures top.1 in dist && dist[top.1] == top.0
    ensures forall v :: v in dist && v !in visited ==> top.0 <= dist[v]
  {
    assert NotTooSmall(dist, top) && Pending(heap, visited, dist, top.1);
    forall v | v in dist && v !in visited
      ensures top.0 <= dist[v]
    {
      assert Pending(heap, visited, dist, v);
      assert (dist[v], v) in heap;
    }
  }

  // ----- The search ------------------------------------------------------------------------------

  /** Relaxes every edge that leaves the node just visited. */
  method RelaxList(ghost g: Graph, edges: seq<(Node, real)>, ghost ends: set<Node>, node: Node, d: real,
      visited: set<Node>,
                   dist0: map<Node, real>, prev0: map<Node, Option<Node>>, heap0: Heap,
                   ghost source: Node, ghost walks0: map<Node, Walk>, ghost settled0: set<Edge>)
      returns (dist: map<Node, real>, prev: map<Node, Option<Node>>, heap: Heap, ghost walks: map<Node, Walk>,
          ghost settled: set<Edge>)
    requires NonNegative(g)
    requires EdgesFrom(g, node, edges) && EndsIn(g, ends) && dist0.Keys <= ends
    requires node in visited && node in dist0 && dist0[node] == d
    requires Searching(g, source, visited, d, dist0, prev0, walks0, settled0)
    requires Covers(heap0, visited, dist0)
    ensures Searching(g, source, visited, d, dist, prev, walks, settled)
    ensures Covers(heap, visited, dist)
    ensures dist.Keys <= ends
    ensures settled0 <= settled && forall e :: e in g && e.src == node ==> e in settled
  {
    dist, prev, heap, walks, settled := dist0, prev0, heap0, walks0, settled0;
    for i := 0 to |edges|
      invariant node in dist && dist[node] == d
      invariant Searching(g, source, visited, d, dist, prev, walks, settled)
      invariant Covers(heap, visited, dist)
      invariant dist.Keys <= ends
      invariant settled0 <= settled && forall p :: p in edges[..i] ==> Edge(node, p.0, p.1) in settled
    {
      var (neighbor, weight) := edges[i];
      assert edges[i] in edges;
      ghost var e := Edge(node, neighbor, weight);
      if neighbor in visited {
        KeepKeepsSearching(g, source, visited, d, dist, prev, walks, settled, e);
        settled := settled + {e};
        continue;
      }
      var newDist := d + weight;
      if neighbor !in dist || newDist < dist[neighbor] {
        ImproveKeepsSearching(g, source, visited, d, dist, prev, walks, settled, e);
        PushKeepsCovers(heap, visited, dist, neighbor, newDist);
        walks := walks[neighbor := Hop(walks[node], e)];
        dist := dist[neighbor := newDist];
        prev := prev[neighbor := Some(node)];
        heap := heap + multiset{(newDist, neighbor)};
      } else {
        KeepKeepsSearching(g, source, visited, d, dist, prev, walks, settled, e);
      }
      settled := settled + {e};
    }
  }

  /** Follows predecessors back from the target. */
  method TracePath(target: Node, prev: map<Node, Option<Node>>, ghost g: Graph, ghost source: Node,
      ghost visited: set<Node>,
                   ghost dist: map<Node, real>, ghost walks: map<Node, Walk>) returns (path: seq<Node>)
    requires Labelled(g, source, visited, dist, prev, walks)
    requires target in dist && visited <= dist.Keys
    ensures path == walks[target].Stops()
  {
    path := [];
    var cur := Some(target);
    ghost var left := walks[target].Stops();
    while cur.Some?
      invariant if cur.Some? then cur.value in dist && left == walks[cur.value].Stops() else left == []
      invariant walks[target].Stops() == left + Reversed(path)
      decreases |left|
    {
      StepBack(g, source, visited, dist, prev, walks, cur.value);
      left := left[..|left| - 1];
      TraceOneBack(walks[target].Stops(), left, path, cur.value);
      path := path + [cur.value];
      cur := Parent(prev, cur.value);
    }
    path := Reversed(path);
  }

  /** What holds whenever the loop tests whether the heap is empty. */
  ghost predicate Progress(g: Graph, source: Node, visited: set<Node>, level: real, dist: map<Node, real>,
                           prev: map<Node, Option<Node>>, heap: Heap, walks: map<Node, Walk>, settled: set<Edge>)
  {
    && Searching(g, source, visited, level, dist, prev, walks, settled)
    && Covers(heap, visited, dist)
    && forall e :: e in g && e.src in visited ==> e in settled
  }

  /** Visits an unvisited node taken from the heap. */
  method VisitNode(ghost g: Graph, edges: seq<(Node, real)>, ghost ends: set<Node>, top: (real, Node),
      visited: set<Node>, ghost level: real,
                   dist0: map<Node, real>, prev0: map<Node, Option<Node>>, heap0: Heap,
                   ghost source: Node, ghost walks0: map<Node, Walk>, ghost settled0: set<Edge>)
      returns (dist: map<Node, real>, prev: map<Node, Option<Node>>, heap: Heap, ghost walks: map<Node, Walk>,
          ghost settled: set<Edge>)
    requires NonNegative(g) && Progress(g, source, visited, level, dist0, prev0, heap0, walks0, settled0)
    requires top in heap0 && top.1 !in visited && forall entry :: entry in heap0 ==> top.0 <= entry.0
    requires EdgesFrom(g, top.1, edges) && EndsIn(g, ends) && dist0.Keys <= ends
    ensures Progress(g, source, visited + {top.1}, top.0, dist, prev, heap, walks, settled)
    ensures dist.Keys <= ends
  {
    TopIsNearest(heap0, visited, dist0, top);
    VisitKeepsSearching(g, source, visited, level, dist0, prev0, walks0, settled0, top.1);
    VisitKeepsCovers(heap0, visited, dist0, top.1);
    DropKeepsCovers(heap0, visited + {top.1}, dist0, top);
    dist, prev, heap, walks, settled :=
      RelaxList(g, edges, ends, top.1, top.0, visited + {top.1}, dist0, prev0, heap0 - multiset{top}, source, walks0,
          settled0);
  }

  lemma StartProgress(g: Graph, source: Node)
    ensures Progress(g, source, {}, 0.0, map[source := 0.0], map[source := None], multiset{(0.0, source)},
        map[source := At(source)], {})
  {
    StartSearching(g, source, map[source := None]);
  }

  /** The target surfaces: its walk is cheapest. */
  lemma TargetFound(g: Graph, source: Node, visited: set<Node>, level: real, dist: map<Node, real>,
      prev: map<Node, Option<Node>>,
                    heap: Heap, walks: map<Node, Walk>, settled: set<Edge>, top: (real, Node))
    requires NonNegative(g) && Progress(g, source, visited, level, dist, prev, heap, walks, settled)
    requires top in heap && top.1 !in visited && forall entry :: entry in heap ==> top.0 <= entry.0
    ensures top.1 in dist && Cheapest(g, source, top.1, walks[top.1]) && Distinct(walks[top.1].Stops())
  {
    TopIsNearest(heap, visited, dist, top);
    NearestIsCheapest(g, source, visited, visited, level, dist, prev, walks, settled, top.1);
  }

  /** The heap runs dry: nothing unvisited is reachable. */
  lemma NothingLeft(g: Graph, source: Node, visited: set<Node>, level: real, dist: map<Node, real>,
      prev: map<Node, Option<Node>>,
                    walks: map<Node, Walk>, settled: set<Edge>, target: Node)
    requires NonNegative(g) && Progress(g, source, visited, level, dist, prev, multiset{}, walks, settled)
    requires target !in visited
    ensures !Reachable(g, source, target)
  {
    EmptyHeapMeansDone(visited, dist);
    ClosedIsEverything(g, source, visited, level, dist, prev, walks, settled, target);
  }

  method Search(ghost g: Graph, graph: AdjacencyLists, source: Node, target: Node) returns (path: Option<seq<Node>>)
    requires ListsBothEnds(graph, g) && NonNegative(g) && source in graph
    ensures path == None ==> !Reachable(g, source, target)
    ensures path.Some? ==> Distinct(path.value) && exists w :: Cheapest(g, source, target, w) && w.Stops() == path.value
  {
    var dist := map[source := 0.0];
    var prev: map<Node, Option<Node>> := map[source := None];
    var heap := multiset{(0.0, source)};
    var visited: set<Node> := {};
    ghost var walks, settled, level := map[source := At(source)], {}, 0.0;
    StartProgress(g, source);
    while heap != multiset{}
      invariant dist.Keys <= graph.Keys && target !in visited
      invariant Progress(g, source, visited, level, dist, prev, heap, walks, settled)
      decreases graph.Keys - visited, |heap|
    {
      var top, rest := PopNearest(heap);
      var node := top.1;
      if node in visited {
        DropKeepsCovers(heap, visited, dist, top);
        heap := rest;
        continue;
      }
      if node == target {
        TargetFound(g, source, visited, level, dist, prev, heap, walks, settled, top);
        var found := TracePath(target, prev, g, source, visited, dist, walks);
        return Some(found);
      }
      assert NotTooSmall(dist, top);
      ListedFrom(graph, g, node);
      dist, prev, heap, walks, settled :=
        VisitNode(g, graph[node], graph.Keys, top, visited, level, dist, prev, heap, source, walks, settled);
      visited, level := visited + {node}, top.0;
    }
    NothingLeft(g, source, visited, level, dist, prev, walks, settled, target);
    return None;
  }

  lemma BothEndsListed(links: LinkTable, graph: AdjacencyLists)
    requires ListsEdges(graph, HealthyGraph(links))
    ensures ListsBothEnds(graph, HealthyGraph(links))
    ensures forall u :: u in graph <==> Touched(HealthyGraph(links), u)
    ensures NonNegativeLatencies(links) ==> NonNegative(HealthyGraph(links))
  {
    EveryEdgeReturns(links);
    forall e | e in HealthyGraph(links)
      ensures e.dst in graph
    {
      assert Edge(e.dst, e.src, e.ms) in HealthyGraph(links);
    }
  }

  class TopologyManager {
    var links: LinkTable

    constructor ()
      ensures links == map[]
    {
      links := map[];
    }

    method UpdateLink(source: Node, target: Node, latencyMs: real, healthy: bool) returns (link: TopologyLink)
      modifies this
      ensures link == TopologyLink(source, target, latencyMs, healthy)
      ensures links == old(links)[(source, target) := link]
    {
      link := TopologyLink(source, target, latencyMs, healthy);
      links := links[(source, target) := link];
    }

    method RemoveLink(source: Node, target: Node)
      modifies this
      ensures links == old(links) - {(source, target)}
    {
      links := links - {(source, target)};
    }

    method ShortestPath(source: Node, target: Node) returns (path: Option<seq<Node>>)
      requires NonNegativeLatencies(links)
      ensures ShortestRoute(links, source, target, path)
    {
      var graph := BuildGraph(links);
      BothEndsListed(links, graph);
      if source !in graph {
        return None;
      }
      path := Search(HealthyGraph(links), graph, source, target);
    }
  }
}

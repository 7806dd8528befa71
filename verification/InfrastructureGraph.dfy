/**
 The infrastructure graph engine (fabric_core/infrastructure_graph.py): a mutable store of
 nodes, directed link records and an undirected adjacency index, with a shortest-path search
 that scans the unvisited nodes for the nearest one.
 */
module InfrastructureGraphs {
  import opened Collections
  import opened Options
  import opened Walks

  datatype GraphNode = GraphNode(nodeId: Node, status: string)

  datatype GraphLink = GraphLink(source: Node, target: Node, latencyMs: real, status: string)

  type LinkTable = map<(Node, Node), GraphLink>

  /** A distance, which is infinite for a node that has not been reached. */
  datatype Latency = Fin(ms: real) | Inf {
    predicate Less(other: Latency) {
      Fin? && (other.Inf? || ms < other.ms)
    }
  }

  /** The record consulted when going from `u` to `v`: the forward one if stored, else the reverse one. */
  function Lookup(links: LinkTable, u: Node, v: Node): Option<GraphLink> {
    if (u, v) in links then Some(links[(u, v)])
    else if (v, u) in links then Some(links[(v, u)])
    else None
  }

  predicate Usable(links: LinkTable, u: Node, v: Node) {
    var l := Lookup(links, u, v);
    l.Some? && l.value.status == "active"
  }

  ghost function EdgeBetween(links: LinkTable, u: Node, v: Node): Edge
    requires Usable(links, u, v)
  {
    Edge(u, v, Lookup(links, u, v).value.latencyMs)
  }

  /**
   The graph that a route may use. It says nothing about the adjacency index: registered
   endpoints and an active link record are all that counts.
   */
  ghost function ActiveGraph(nodes: set<Node>, links: LinkTable): Graph {
    set u, v | u in nodes && v in nodes && Usable(links, u, v) :: EdgeBetween(links, u, v)
  }

  ghost predicate NonNegativeLatencies(links: LinkTable) {
    forall k :: k in links ==> links[k].latencyMs >= 0.0
  }

  /** The reached part of a distance table. */
  ghost function Finite(dist: map<Node, Latency>): map<Node, real> {
    map v | v in dist && dist[v].Fin? :: dist[v].ms
  }

  /** `shortest_path`'s promise, stated on the node and link tables alone. */
  ghost predicate ShortestRoute(nodes: set<Node>, links: LinkTable, src: Node, tgt: Node, path: seq<Node>,
      dist: Latency) {
    var g := ActiveGraph(nodes, links);
    if src in nodes && tgt in nodes && Reachable(g, src, tgt) then
      dist.Fin? && Distinct(path) && exists w :: Cheapest(g, src, tgt, w) && w.Stops() == path && w.Cost() == dist.ms
    else
      path == [] && dist == Inf
  }

  /** The adjacency index is exactly the undirected shadow of the link table. */
  ghost predicate Shadow(links: LinkTable, adjacency: map<Node, set<Node>>) {
    && (forall k :: k in links ==> k.0 in adjacency && k.1 in adjacency)
    && (forall u, v :: u in adjacency ==> (v in adjacency[u] <==> (u, v) in links || (v, u) in links))
  }

  /** Removal under way: the links between `n` and `gone` are dropped. */
  ghost function WithoutLinks(links: LinkTable, n: Node, gone: set<Node>): LinkTable {
    map k | k in links && !(k.0 == n && k.1 in gone) && !(k.1 == n && k.0 in gone) :: links[k]
  }

  /** Removal under way: `n` has left the index, and the neighbours in `gone` no longer mention it. */
  ghost function WithoutMentions(adjacency: map<Node, set<Node>>, n: Node, gone: set<Node>): map<Node, set<Node>> {
    map u | u in adjacency && u != n :: if u in gone then adjacency[u] - {n} else adjacency[u]
  }

  /** No link that touches `n` is left. */
  ghost function WithoutNode(links: LinkTable, n: Node): LinkTable {
    map k | k in links && k.0 != n && k.1 != n :: links[k]
  }

  /** Visiting the indexed neighbours of `n` is enough to find every trace of it. */
  lemma RemovedEverywhere(links: LinkTable, adjacency: map<Node, set<Node>>, n: Node)
    requires Shadow(links, adjacency) && n in adjacency
    ensures WithoutLinks(links, n, adjacency[n]) == WithoutNode(links, n)
    ensures Shadow(WithoutNode(links, n), WithoutMentions(adjacency, n, adjacency[n]))
    ensures forall u :: u in adjacency && u != n ==>
        WithoutMentions(adjacency, n, adjacency[n])[u] == adjacency[u] - {n}
  {
  }

  /** The loop of `remove_node`, over the neighbours the index names. */
  method Unlink(n: Node, neighbors: set<Node>, links0: LinkTable, adjacency0: map<Node, set<Node>>)
      returns (links: LinkTable, adjacency: map<Node, set<Node>>)
    requires n !in adjacency0
    ensures links == WithoutLinks(links0, n, neighbors)
    ensures adjacency == WithoutMentions(adjacency0, n, neighbors)
  {
    links, adjacency := links0, adjacency0;
    var todo := neighbors;
    while todo != {}
      invariant todo <= neighbors
      invariant adjacency == WithoutMentions(adjacency0, n, neighbors - todo)
      invariant links == WithoutLinks(links0, n, neighbors - todo)
      decreases todo
    {
      var m :| m in todo;
      assert neighbors - (todo - {m}) == neighbors - todo + {m};
      todo := todo - {m};
      if m in adjacency {
        adjacency := adjacency[m := adjacency[m] - {n}];
      }
      links := links - {(n, m)};
      links := links - {(m, n)};
    }
    assert neighbors - todo == neighbors;
  }

  /** `g` is the active graph, said edge by edge. */
  ghost predicate Lists(g: Graph, nodes: set<Node>, links: LinkTable) {
    && (forall e :: e in g ==>
          e.src in nodes && e.dst in nodes && Usable(links, e.src, e.dst) && e == EdgeBetween(links, e.src, e.dst))
    && (forall u, v :: u in nodes && v in nodes && Usable(links, u, v) ==> EdgeBetween(links, u, v) in g)
  }

  lemma ActiveGraphListed(nodes: set<Node>, links: LinkTable)
    ensures Lists(ActiveGraph(nodes, links), nodes, links)
    ensures NonNegativeLatencies(links) ==> NonNegative(ActiveGraph(nodes, links))
  {
  }

  /** The scan for a nearest unvisited node. */
  method Nearest(unvisited: set<Node>, dist: map<Node, Latency>) returns (best: Node)
    requires unvisited != {} && unvisited <= dist.Keys
    ensures best in unvisited
    ensures forall v :: v in unvisited ==> !dist[v].Less(dist[best])
  {
    best :| best in unvisited;
    var todo := unvisited - {best};
    while todo != {}
      invariant todo <= unvisited && best in unvisited
      invariant forall v :: v in unvisited - todo ==> !dist[v].Less(dist[best])
      decreases todo
    {
      var v :| v in todo;
      todo := todo - {v};
      if dist[v].Less(dist[best]) {
        best := v;
      }
    }
  }

  /** Relaxes every edge that leaves the node just visited. */
  method RelaxNeighbors(ghost g: Graph, nodes: set<Node>, links: LinkTable, neighbors: set<Node>,
                        current: Node, unvisited: set<Node>, ghost visited: set<Node>,
                        dist0: map<Node, Latency>, prev0: map<Node, Option<Node>>,
                        ghost src: Node, ghost walks0: map<Node, Walk>, ghost settled0: set<Edge>)
      returns (dist: map<Node, Latency>, prev: map<Node, Option<Node>>, ghost walks: map<Node, Walk>,
          ghost settled: set<Edge>)
    requires Lists(g, nodes, links) && NonNegative(g)
    requires forall v :: Usable(links, current, v) ==> v in neighbors
    requires unvisited <= nodes && visited == nodes - unvisited && current in visited
    requires dist0.Keys == nodes && prev0.Keys == nodes && dist0[current].Fin?
    requires Searching(g, src, visited, dist0[current].ms, Finite(dist0), prev0, walks0, settled0)
    ensures dist.Keys == nodes && prev.Keys == nodes && dist[current] == dist0[current]
    ensures Searching(g, src, visited, dist[current].ms, Finite(dist), prev, walks, settled)
    ensures settled0 <= settled && forall e :: e in g && e.src == current ==> e in settled
  {
    ghost var level := dist0[current].ms;
    dist, prev, walks, settled := dist0, prev0, walks0, settled0;
    var todo := neighbors;
    while todo != {}
      invariant todo <= neighbors
      invariant dist.Keys == nodes && prev.Keys == nodes && dist[current] == Fin(level)
      invariant Searching(g, src, visited, level, Finite(dist), prev, walks, settled)
      invariant settled0 <= settled
      invariant forall e :: e in g && e.src == current && e.dst in neighbors - todo ==> e in settled
      decreases todo
    {
      var neighbor :| neighbor in todo;
      todo := todo - {neighbor};
      if neighbor !in unvisited {
        if neighbor in nodes && Usable(links, current, neighbor) {
          ghost var e := EdgeBetween(links, current, neighbor);
          KeepKeepsSearching(g, src, visited, level, Finite(dist), prev, walks, settled, e);
          settled := settled + {e};
        }
        continue;
      }
      var link := Lookup(links, current, neighbor);
      if link.None? || link.value.status != "active" {
        continue;
      }
      ghost var e := EdgeBetween(links, current, neighbor);
      var newDist := Fin(dist[current].ms + link.value.latencyMs);
      if newDist.Less(dist[neighbor]) {
        ImproveKeepsSearching(g, src, visited, level, Finite(dist), prev, walks, settled, e);
        assert Finite(dist[neighbor := newDist]) == Finite(dist)[neighbor := level + e.ms];
        walks, settled := walks[neighbor := Hop(walks[current], e)], settled + {e};
        dist := dist[neighbor := newDist];
        prev := prev[neighbor := Some(current)];
      } else {
        KeepKeepsSearching(g, src, visited, level, Finite(dist), prev, walks, settled, e);
        settled := settled + {e};
      }
    }
  }

  /** Follows predecessors back from the target. */
  method TracePath(tgt: Node, prev: map<Node, Option<Node>>, ghost g: Graph, ghost src: Node, ghost visited: set<Node>,
                   ghost dist: map<Node, real>, ghost walks: map<Node, Walk>) returns (path: seq<Node>)
    requires Labelled(g, src, visited, dist, prev, walks)
    requires tgt in dist && visited <= dist.Keys && dist.Keys <= prev.Keys
    ensures path == walks[tgt].Stops()
  {
    path := [];
    var node := Some(tgt);
    ghost var left := walks[tgt].Stops();
    while node.Some?
      invariant if node.Some? then node.value in dist && left == walks[node.value].Stops() else left == []
      invariant walks[tgt].Stops() == left + Reversed(path)
      decreases |left|
    {
      StepBack(g, src, visited, dist, prev, walks, node.value);
      left := left[..|left| - 1];
      TraceOneBack(walks[tgt].Stops(), left, path, node.value);
      path := path + [node.value];
      node := prev[node.value];
    }
    path := Reversed(path);
  }

  /** The search loop; it stops when the target is nearest or nothing more can be reached. */
  method Search(ghost g: Graph, nodes: set<Node>, links: LinkTable, adjacency: map<Node, set<Node>>, src: Node,
      tgt: Node)
      returns (dist: map<Node, Latency>, prev: map<Node, Option<Node>>, ghost visited: set<Node>,
          ghost walks: map<Node, Walk>)
    requires Lists(g, nodes, links) && NonNegative(g)
    requires Shadow(links, adjacency) && nodes <= adjacency.Keys
    requires src in nodes && tgt in nodes
    ensures dist.Keys == nodes && prev.Keys == nodes && visited <= Finite(dist).Keys
    ensures Labelled(g, src, visited, Finite(dist), prev, walks)
    ensures dist[tgt] == Inf ==> !Reachable(g, src, tgt)
    ensures dist[tgt].Fin? ==>
      Cheapest(g, src, tgt, walks[tgt]) && walks[tgt].Cost() == dist[tgt].ms && Distinct(walks[tgt].Stops())
  {
    dist := map n | n in nodes :: Inf;
    prev := map n | n in nodes :: None;
    dist := dist[src := Fin(0.0)];
    var unvisited := nodes;
    ghost var settled, level := {}, 0.0;
    visited, walks := {}, map[src := At(src)];
    assert Finite(dist) == map[src := 0.0];
    StartSearching(g, src, prev);
    while unvisited != {}
      invariant tgt in unvisited && unvisited <= nodes && visited == nodes - unvisited
      invariant dist.Keys == nodes && prev.Keys == nodes
      invariant Searching(g, src, visited, level, Finite(dist), prev, walks, settled)
      invariant forall e :: e in g && e.src in visited ==> e in settled
      decreases unvisited
    {
      var current := Nearest(unvisited, dist);
      if dist[current] == Inf {
        assert Finite(dist).Keys == visited;
        ClosedIsEverything(g, src, visited, level, Finite(dist), prev, walks, settled, tgt);
        return;
      }
      if current == tgt {
        NearestIsCheapest(g, src, visited, visited, level, Finite(dist), prev, walks, settled, tgt);
        return;
      }
      VisitKeepsSearching(g, src, visited, level, Finite(dist), prev, walks, settled, current);
      unvisited := unvisited - {current};
      visited := visited + {current};
      level := dist[current].ms;
      dist, prev, walks, settled :=
        RelaxNeighbors(g, nodes, links, adjacency[current], current, unvisited, visited, dist, prev, src, walks,
            settled);
    }
  }

  class InfrastructureGraph {
    var nodes: map<Node, GraphNode>
    var links: LinkTable
    var adjacency: map<Node, set<Node>>

    ghost predicate Valid()
      reads this
    {
      nodes.Keys <= adjacency.Keys && Shadow(links, adjacency)
    }

    constructor ()
      ensures Valid() && nodes == map[] && links == map[] && adjacency == map[]
    {
      nodes, links, adjacency := map[], map[], map[];
    }

    method AddNode(node: GraphNode)
      requires Valid()
      modifies this
      ensures Valid()
      ensures nodes == old(nodes)[node.nodeId := node] && links == old(links)
      ensures adjacency.Keys == old(adjacency).Keys + {node.nodeId}
    {
      nodes := nodes[node.nodeId := node];
      if node.nodeId !in adjacency {
        adjacency := adjacency[node.nodeId := {}];
      }
    }

    method AddLink(link: GraphLink)
      requires Valid()
      modifies this
      ensures Valid()
      ensures nodes == old(nodes) && links == old(links)[(link.source, link.target) := link]
      ensures adjacency.Keys == old(adjacency).Keys + {link.source, link.target}
    {
      links := links[(link.source, link.target) := link];
      var atSource := if link.source in adjacency then adjacency[link.source] else {};
      adjacency := adjacency[link.source := atSource + {link.target}];
      var atTarget := if link.target in adjacency then adjacency[link.target] else {};
      adjacency := adjacency[link.target := atTarget + {link.source}];
    }

    /** Removing a node removes every link that touches it and every mention in the index, and nothing else. */
    method RemoveNode(nodeId: Node) returns (removed: bool)
      requires Valid()
      modifies this
      ensures Valid()
      ensures removed <==> nodeId in old(nodes)
      ensures !removed ==> nodes == old(nodes) && links == old(links) && adjacency == old(adjacency)
      ensures removed ==> nodes == old(nodes) - {nodeId}
      ensures removed ==> links == WithoutNode(old(links), nodeId)
      ensures removed ==> adjacency.Keys == old(adjacency).Keys - {nodeId}
      ensures removed ==> forall u :: u in adjacency ==> adjacency[u] == old(adjacency)[u] - {nodeId}
    {
      if nodeId !in nodes {
        return false;
      }
      nodes := nodes - {nodeId};
      var neighbors := adjacency[nodeId];
      links, adjacency := Unlink(nodeId, neighbors, links, adjacency - {nodeId});
      RemovedEverywhere(old(links), old(adjacency), nodeId);
      removed := true;
    }

    method GetLink(src: Node, tgt: Node) returns (link: Option<GraphLink>)
      ensures link.Some? <==> (src, tgt) in links || (tgt, src) in links
      ensures (src, tgt) in links ==> link == Some(links[(src, tgt)])
      ensures (src, tgt) !in links && (tgt, src) in links ==> link == Some(links[(tgt, src)])
    {
      link := Lookup(links, src, tgt);
    }

    method ShortestPath(src: Node, tgt: Node) returns (path: seq<Node>, best: Latency)
      requires Valid() && NonNegativeLatencies(links)
      ensures ShortestRoute(nodes.Keys, links, src, tgt, path, best)
    {
      if src !in nodes || tgt !in nodes {
        return [], Inf;
      }
      ghost var g := ActiveGraph(nodes.Keys, links);
      ActiveGraphListed(nodes.Keys, links);
      var dist, prev, visited, walks := Search(g, nodes.Keys, links, adjacency, src, tgt);
      if dist[tgt] == Inf {
        return [], Inf;
      }
      path := TracePath(tgt, prev, g, src, visited, Finite(dist), walks);
      best := dist[tgt];
      assert Joins(g, src, tgt, walks[tgt]);
    }
  }
}

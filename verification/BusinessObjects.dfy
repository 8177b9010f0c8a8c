/** The business graph object and the resolver's search loop. */
module BusinessObjects {
  import opened Common
  import opened BusinessGraph

  class Graph {
    var nodes: map<string, Node>
    var edges: seq<Edge>

    ghost predicate Valid()
      reads this
    {
      Keyed(nodes)
    }

    constructor ()
      ensures Valid() && nodes == map[] && edges == []
    {
      nodes, edges := map[], [];
    }

    method AddNode(node: Node) returns (id: string)
      requires Valid()
      modifies this
      ensures Valid() && id == node.id
      ensures nodes == old(nodes)[node.id := node] && edges == old(edges)
    {
      nodes := nodes[node.id := node];
      id := node.id;
    }

    /** The endpoints are not checked, so the edge may dangle. */
    method AddEdge(source: string, target: string, relType: string)
      requires Valid()
      modifies this
      ensures Valid() && nodes == old(nodes)
      ensures edges == old(edges) + [Edge(source, target, relType)]
    {
      edges := edges + [Edge(source, target, relType)];
    }

    method GetConnectedNodes(id: string, d: Direction) returns (r: seq<Node>)
      ensures r == Existing(nodes, ConnectedIds(edges, id, d))
    {
      var ids := [];
      for i := 0 to |edges|
        invariant ids == ConnectedIds(edges[..i], id, d)
      {
        assert edges[..i + 1][..i] == edges[..i];
        var edge := edges[i];
        if !d.Incoming? && edge.source == id {
          ids := ids + [edge.target];
        }
        if !d.Outgoing? && edge.target == id {
          ids := ids + [edge.source];
        }
      }
      assert edges[..|edges|] == edges;
      r := [];
      for i := 0 to |ids|
        invariant r == Existing(nodes, ids[..i])
      {
        assert ids[..i + 1][..i] == ids[..i];
        if ids[i] in nodes {
          r := r + [nodes[ids[i]]];
        }
      }
      assert ids[..|ids|] == ids;
    }
  }

  predicate Matches(n: Node, target: string) { Lower(n.nodeType) == Lower(target) }

  /** The results found so far: the visited nodes of the wanted type, each once, in the order of their levels. */
  ghost predicate Collected(nodes: map<string, Node>, target: string, level: map<string, nat>, r: seq<Node>) {
    && (forall i :: 0 <= i < |r| ==>
          r[i].id in nodes && nodes[r[i].id] == r[i] && Matches(r[i], target) && r[i].id in level)
    && (forall i, j :: 0 <= i < j < |r| ==> r[i].id != r[j].id && level[r[i].id] <= level[r[j].id])
    && (forall x :: x in level && x in nodes && Matches(nodes[x], target) ==> nodes[x] in r)
  }

  lemma CollectMore(nodes: map<string, Node>, target: string, level: map<string, nat>, r: seq<Node>, x: string, l: nat)
    requires Keyed(nodes) && Collected(nodes, target, level, r) && x !in level
    requires forall y :: y in level ==> level[y] <= l
    ensures Collected(nodes, target, level[x := l],
                      if x in nodes && Matches(nodes[x], target) then r + [nodes[x]] else r)
  {
    if x in nodes && Matches(nodes[x], target) {
      var t := r + [nodes[x]];
      assert forall i :: 0 <= i < |r| ==> t[i] == r[i];
      assert t[|r|] == nodes[x];
      assert forall n :: n in r ==> n in t;
    }
  }

  /** Every reachable node of the wanted type and nothing else. */
  ghost predicate Exact(nodes: map<string, Node>, edges: seq<Edge>, start: string, target: string, r: seq<Node>) {
    forall n :: n in r <==>
      n.id in nodes && nodes[n.id] == n && Matches(n, target) && Reachable(nodes, edges, start, n.id)
  }

  /** Each node once, in the order of their distances from the start. */
  ghost predicate NearestFirst(nodes: map<string, Node>, edges: seq<Edge>, start: string, r: seq<Node>) {
    forall i, j :: 0 <= i < j < |r| ==>
      && r[i].id != r[j].id
      && (forall d, e :: Distance(nodes, edges, start, r[i].id, d) && Distance(nodes, edges, start, r[j].id, e) ==>
            d <= e)
  }

  /** The search returns every reachable node of the wanted type exactly once and nothing else, nearest
      nodes first.  It ends although the queue may hold an id many times: every round visits a new id or
      shortens the queue. */
  method ResolvePath(graph: Graph, start: string, target: string) returns (results: seq<Node>)
    requires graph.Valid()
    ensures Exact(graph.nodes, graph.edges, start, target, results)
    ensures NearestFirst(graph.nodes, graph.edges, start, results)
  {
    hide Reachable, Distance, Walk, Founded, Frontier;
    results := [];
    var visited: set<string> := {};
    var queue := [start];
    ghost var s := Search(map[], [start], [0]);
    InitInv(graph.nodes, graph.edges, start);
    ghost var all := graph.nodes.Keys + {start};
    while queue != []
      invariant Inv(graph.nodes, graph.edges, start, s)
      invariant queue == s.queue && visited == s.level.Keys && visited <= all
      invariant Collected(graph.nodes, target, s.level, results)
      decreases all - visited, |queue|
    {
      var id := queue[0];
      queue := queue[1..];
      if id in visited {
        PopKeepsInv(graph.nodes, graph.edges, start, s);
        s := Popped(s);
      } else {
        HeadIsKnown(graph.nodes, graph.edges, start, s);
        visited := visited + {id};
        var found, more := Visit(graph, start, target, id, visited, results, s);
        results := results + found;
        queue := queue + more;
        s := Visited(s, more);
      }
    }
    SearchIsExact(graph.nodes, graph.edges, start, target, s, results);
  }

  /** Visit one id: the result it contributes, if any, and the ids it appends to the queue. */
  method Visit(graph: Graph, ghost start: string, target: string, id: string, visited: set<string>,
               ghost results: seq<Node>, ghost s: Search) returns (found: seq<Node>, more: seq<string>)
    requires graph.Valid() && Inv(graph.nodes, graph.edges, start, s)
    requires s.queue != [] && s.queue[0] == id && id !in s.level && visited == s.level.Keys + {id}
    requires Collected(graph.nodes, target, s.level, results)
    ensures Inv(graph.nodes, graph.edges, start, Visited(s, more))
    ensures Collected(graph.nodes, target, Visited(s, more).level, results + found)
  {
    hide Reachable, Distance, Walk, Founded, Frontier;
    CollectMore(graph.nodes, target, s.level, results, id, s.lev[0]);
    found := if id in graph.nodes && Matches(graph.nodes[id], target) then [graph.nodes[id]] else [];
    assert results + [] == results;
    more := UnvisitedNeighbours(graph, id, visited);
    VisitKeepsInv(graph.nodes, graph.edges, start, s, more);
  }

  lemma HeadIsKnown(nodes: map<string, Node>, edges: seq<Edge>, start: string, s: Search)
    requires Inv(nodes, edges, start, s) && s.queue != []
    ensures s.queue[0] in nodes.Keys + {start}
  {
  }

  /** The ids that a visit of `id` appends to the queue. */
  method UnvisitedNeighbours(graph: Graph, id: string, visited: set<string>) returns (more: seq<string>)
    requires graph.Valid()
    ensures forall v :: v in more <==> Hop(graph.nodes, graph.edges, id, v) && v !in visited
  {
    var neighbours := graph.GetConnectedNodes(id, Both);
    NeighboursExactly(graph.nodes, graph.edges, id);
    more := [];
    for i := 0 to |neighbours|
      invariant forall v :: v in more <==> v !in visited && exists k :: 0 <= k < i && neighbours[k].id == v
    {
      if neighbours[i].id !in visited {
        more := more + [neighbours[i].id];
      }
    }
    forall v | Hop(graph.nodes, graph.edges, id, v) && v !in visited ensures v in more {
      assert graph.nodes[v] in neighbours;
    }
    forall v | v in more ensures Hop(graph.nodes, graph.edges, id, v) {
      var k :| 0 <= k < |neighbours| && neighbours[k].id == v;
      assert neighbours[k] in neighbours;
    }
  }

  lemma SearchIsExact(nodes: map<string, Node>, edges: seq<Edge>, start: string, target: string, s: Search,
                      r: seq<Node>)
    requires Keyed(nodes) && Inv(nodes, edges, start, s) && s.queue == []
    requires Collected(nodes, target, s.level, r)
    ensures Exact(nodes, edges, start, target, r) && NearestFirst(nodes, edges, start, r)
  {
    forall n ensures n in r <==>
              n.id in nodes && nodes[n.id] == n && Matches(n, target) && Reachable(nodes, edges, start, n.id)
    {
      EmptyQueueIsComplete(nodes, edges, start, s, n.id);
    }
    forall i, j, d, e | 0 <= i < j < |r| && Distance(nodes, edges, start, r[i].id, d) &&
                        Distance(nodes, edges, start, r[j].id, e)
      ensures d <= e
    {
      assert Distance(nodes, edges, start, r[i].id, s.level[r[i].id]);
      assert Distance(nodes, edges, start, r[j].id, s.level[r[j].id]);
    }
  }
}

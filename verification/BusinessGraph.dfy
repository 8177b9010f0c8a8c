/** The business graph, a mutable multigraph whose edges may dangle, and the breadth-first search that
    resolves related entities in it. */
module BusinessGraph {

  datatype Node = Node(id: string, nodeType: string, name: string)

  datatype Edge = Edge(source: string, target: string, relType: string)

  datatype Direction = Outgoing | Incoming | Both

  // ----- what the search is about --------------------------------------------------------------------

  /** Some edge joins `a` and `b`, in either direction. */
  ghost predicate Adjacent(edges: seq<Edge>, a: string, b: string) {
    exists i :: 0 <= i < |edges| && Joins(edges[i], a, b)
  }

  predicate Joins(e: Edge, a: string, b: string) {
    (e.source == a && e.target == b) || (e.target == a && e.source == b)
  }

  /** One can go from `a` to `b` by one edge, and `b` is a node of the graph. */
  ghost predicate Hop(nodes: map<string, Node>, edges: seq<Edge>, a: string, b: string) {
    b in nodes && Adjacent(edges, a, b)
  }

  /** There is a walk of `n` hops from `a` to `b`. */
  ghost predicate Walk(nodes: map<string, Node>, edges: seq<Edge>, a: string, b: string, n: nat)
    decreases n
  {
    if n == 0 then a == b else exists c :: Walk(nodes, edges, a, c, n - 1) && Hop(nodes, edges, c, b)
  }

  ghost predicate Reachable(nodes: map<string, Node>, edges: seq<Edge>, a: string, b: string) {
    exists n: nat :: Walk(nodes, edges, a, b, n)
  }

  /** `d` is the number of hops of a shortest walk from `a` to `b`. */
  ghost predicate Distance(nodes: map<string, Node>, edges: seq<Edge>, a: string, b: string, d: nat) {
    Walk(nodes, edges, a, b, d) && forall n: nat :: Walk(nodes, edges, a, b, n) ==> d <= n
  }

  // ----- neighbours ----------------------------------------------------------------------------------------

  function ConnectedIds(edges: seq<Edge>, id: string, d: Direction): seq<string>
    decreases |edges|
  {
    if edges == [] then [] else
    var e := edges[|edges|-1];
    ConnectedIds(edges[..|edges|-1], id, d) +
    (if !d.Incoming? && e.source == id then [e.target] else []) +
    (if !d.Outgoing? && e.target == id then [e.source] else [])
  }

  function Existing(nodes: map<string, Node>, ids: seq<string>): seq<Node>
    decreases |ids|
  {
    if ids == [] then [] else
    Existing(nodes, ids[..|ids|-1]) + if ids[|ids|-1] in nodes then [nodes[ids[|ids|-1]]] else []
  }

  lemma {:induction false} ConnectedIsAdjacent(edges: seq<Edge>, id: string)
    ensures forall x :: x in ConnectedIds(edges, id, Both) <==> Adjacent(edges, id, x)
    decreases |edges|
  {
    if edges != [] {
      var p, e := edges[..|edges|-1], edges[|edges|-1];
      ConnectedIsAdjacent(p, id);
      forall x ensures Adjacent(edges, id, x) <==> Adjacent(p, id, x) || Joins(e, id, x) {
        if Adjacent(p, id, x) {
          var i :| 0 <= i < |p| && Joins(p[i], id, x);
          assert Joins(edges[i], id, x);
        }
        if Joins(e, id, x) {
          assert Joins(edges[|edges|-1], id, x);
        }
      }
    }
  }

  /** The edge leads from `id` to `x` in that direction. */
  predicate Leads(e: Edge, id: string, d: Direction, x: string) {
    match d
    case Outgoing => e.source == id && e.target == x
    case Incoming => e.target == id && e.source == x
    case Both => Joins(e, id, x)
  }

  lemma {:induction false} ConnectedExactly(edges: seq<Edge>, id: string, d: Direction, x: string)
    ensures x in ConnectedIds(edges, id, d) <==> exists i :: 0 <= i < |edges| && Leads(edges[i], id, d, x)
    decreases |edges|
  {
    if edges != [] {
      var p, e := edges[..|edges|-1], edges[|edges|-1];
      ConnectedExactly(p, id, d, x);
      assert forall i :: 0 <= i < |p| ==> edges[i] == p[i];
      if Leads(e, id, d, x) {
        assert Leads(edges[|edges|-1], id, d, x);
      }
    }
  }

  lemma {:induction false} ExistingKeepsNodes(nodes: map<string, Node>, ids: seq<string>)
    ensures forall n :: n in Existing(nodes, ids) <==> exists x :: x in ids && x in nodes && nodes[x] == n
    decreases |ids|
  {
    if ids != [] {
      var p, last := ids[..|ids|-1], ids[|ids|-1];
      ExistingKeepsNodes(nodes, p);
      assert forall x :: x in ids <==> x in p || x == last;
    }
  }

  /** Nodes are stored under their own ids. */
  ghost predicate Keyed(nodes: map<string, Node>) {
    forall id :: id in nodes ==> nodes[id].id == id
  }

  lemma NeighboursExactly(nodes: map<string, Node>, edges: seq<Edge>, id: string)
    requires Keyed(nodes)
    ensures forall n :: n in Existing(nodes, ConnectedIds(edges, id, Both)) <==>
                        n.id in nodes && nodes[n.id] == n && Adjacent(edges, id, n.id)
  {
    ConnectedIsAdjacent(edges, id);
    ExistingKeepsNodes(nodes, ConnectedIds(edges, id, Both));
  }

  // ----- the state of the search ------------------------------------------------------------------------

  /** `level[x]` is the length of the walk by which the search reached a visited `x`; `queue` and `lev` are
      the pending ids and the lengths of the walks to them. */
  datatype Search = Search(level: map<string, nat>, queue: seq<string>, lev: seq<nat>)

  /** The queue is sorted by length and its lengths span at most one step. */
  ghost predicate Levelled(s: Search) {
    && |s.lev| == |s.queue|
    && (forall i, j :: 0 <= i < j < |s.lev| ==> s.lev[i] <= s.lev[j])
    && (forall i :: 0 <= i < |s.lev| ==> s.lev[i] <= s.lev[0] + 1)
    && (s.lev != [] ==> forall x :: x in s.level ==> s.level[x] <= s.lev[0])
  }

  /** Recorded lengths are lengths of walks, and of shortest walks for visited nodes. */
  ghost predicate Founded(nodes: map<string, Node>, edges: seq<Edge>, start: string, s: Search)
    requires |s.lev| == |s.queue|
  {
    && (forall x :: x in s.level ==> Distance(nodes, edges, start, x, s.level[x]) && (x == start || x in nodes))
    && (forall i :: 0 <= i < |s.queue| ==>
          Walk(nodes, edges, start, s.queue[i], s.lev[i]) && (s.queue[i] == start || s.queue[i] in nodes))
  }

  /** Some entry of the queue is pending by a walk of at most `d` hops. */
  ghost predicate Pending(s: Search, v: string, d: nat)
    requires |s.lev| == |s.queue|
  {
    exists i :: 0 <= i < |s.queue| && s.queue[i] == v && s.lev[i] <= d
  }

  /** The start is visited or pending, and so is every neighbour of a visited node, by one more hop. */
  ghost predicate Frontier(nodes: map<string, Node>, edges: seq<Edge>, start: string, s: Search)
    requires |s.lev| == |s.queue|
  {
    && (start in s.level || Pending(s, start, 0))
    && forall u, v :: u in s.level && Hop(nodes, edges, u, v) ==> v in s.level || Pending(s, v, s.level[u] + 1)
  }

  ghost predicate Inv(nodes: map<string, Node>, edges: seq<Edge>, start: string, s: Search) {
    Levelled(s) && Founded(nodes, edges, start, s) && Frontier(nodes, edges, start, s)
  }

  // ----- the head of the queue is nearest -------------------------------------------------------------------

  /** A walk from the start ends in a visited node or is at least as long as some pending one. */
  lemma {:induction false} WalkMeetsQueue(nodes: map<string, Node>, edges: seq<Edge>, start: string, s: Search,
                                          x: string, n: nat)
    requires Inv(nodes, edges, start, s) && Walk(nodes, edges, start, x, n)
    ensures x in s.level || (s.lev != [] && s.lev[0] <= n)
    decreases n
  {
    if n > 0 {
      var c :| Walk(nodes, edges, start, c, n - 1) && Hop(nodes, edges, c, x);
      WalkMeetsQueue(nodes, edges, start, s, c, n - 1);
      if c in s.level {
        assert Distance(nodes, edges, start, c, s.level[c]);
        assert x in s.level || Pending(s, x, s.level[c] + 1);
      }
    }
  }

  lemma HeadIsNearest(nodes: map<string, Node>, edges: seq<Edge>, start: string, s: Search)
    requires Inv(nodes, edges, start, s) && s.queue != [] && s.queue[0] !in s.level
    ensures Distance(nodes, edges, start, s.queue[0], s.lev[0])
  {
    forall n: nat | Walk(nodes, edges, start, s.queue[0], n) ensures s.lev[0] <= n {
      WalkMeetsQueue(nodes, edges, start, s, s.queue[0], n);
    }
  }

  /** An empty queue means that everything reachable was visited. */
  lemma EmptyQueueIsComplete(nodes: map<string, Node>, edges: seq<Edge>, start: string, s: Search, x: string)
    requires Inv(nodes, edges, start, s) && s.queue == []
    ensures x in s.level <==> Reachable(nodes, edges, start, x)
  {
    if x in s.level {
      assert Walk(nodes, edges, start, x, s.level[x]);
    }
    if Reachable(nodes, edges, start, x) {
      var n: nat :| Walk(nodes, edges, start, x, n);
      WalkMeetsQueue(nodes, edges, start, s, x, n);
    }
  }

  // ----- steps of the search ------------------------------------------------------------------------------------

  function Popped(s: Search): Search
    requires s.queue != [] && s.lev != []
  {
    Search(s.level, s.queue[1..], s.lev[1..])
  }

  /** Visit the head of the queue and append `more`, ids one step farther. */
  function Visited(s: Search, more: seq<string>): Search
    requires s.queue != [] && s.lev != []
  {
    Search(s.level[s.queue[0] := s.lev[0]], s.queue[1..] + more,
           s.lev[1..] + seq(|more|, i => s.lev[0] + 1))
  }

  lemma InitInv(nodes: map<string, Node>, edges: seq<Edge>, start: string)
    ensures Inv(nodes, edges, start, Search(map[], [start], [0]))
  {
    assert Search(map[], [start], [0]).queue[0] == start;
  }

  lemma PendingAfterPop(s: Search, t: Search, v: string, d: nat)
    requires |s.lev| == |s.queue| && s.queue != [] && |t.lev| == |t.queue|
    requires s.queue[1..] <= t.queue && s.lev[1..] <= t.lev
    requires Pending(s, v, d) && v != s.queue[0]
    ensures Pending(t, v, d)
  {
    var i :| 0 <= i < |s.queue| && s.queue[i] == v && s.lev[i] <= d;
    assert t.queue[i - 1] == s.queue[1..][i - 1] == v && t.lev[i - 1] == s.lev[1..][i - 1];
  }

  /** A queue entry for a node visited in the meantime is dropped. */
  lemma PopKeepsInv(nodes: map<string, Node>, edges: seq<Edge>, start: string, s: Search)
    requires Inv(nodes, edges, start, s) && s.queue != [] && s.queue[0] in s.level
    ensures Inv(nodes, edges, start, Popped(s))
  {
    var t := Popped(s);
    if start !in s.level {
      PendingAfterPop(s, t, start, 0);
    }
    forall u, v | u in s.level && Hop(nodes, edges, u, v) && v !in s.level ensures Pending(t, v, s.level[u] + 1) {
      PendingAfterPop(s, t, v, s.level[u] + 1);
    }
  }

  lemma VisitKeepsLevelled(s: Search, more: seq<string>)
    requires Levelled(s) && s.queue != []
    ensures Levelled(Visited(s, more))
  {
    var t := Visited(s, more);
    assert forall i :: 0 <= i < |t.lev| ==>
             t.lev[i] == if i < |s.lev| - 1 then s.lev[i + 1] else s.lev[0] + 1;
  }

  lemma VisitKeepsFounded(nodes: map<string, Node>, edges: seq<Edge>, start: string, s: Search, more: seq<string>)
    requires Inv(nodes, edges, start, s) && s.queue != [] && s.queue[0] !in s.level
    requires forall v :: v in more ==> Hop(nodes, edges, s.queue[0], v)
    ensures Founded(nodes, edges, start, Visited(s, more))
  {
    var t, x, l := Visited(s, more), s.queue[0], s.lev[0];
    HeadIsNearest(nodes, edges, start, s);
    forall i | 0 <= i < |t.queue|
      ensures Walk(nodes, edges, start, t.queue[i], t.lev[i]) && (t.queue[i] == start || t.queue[i] in nodes)
    {
      if i < |s.queue| - 1 {
        assert t.queue[i] == s.queue[i + 1] && t.lev[i] == s.lev[i + 1];
      } else {
        assert t.queue[i] == more[i - (|s.queue| - 1)] && t.queue[i] in more && t.lev[i] == l + 1;
        assert Walk(nodes, edges, start, x, t.lev[i] - 1);
      }
    }
  }

  lemma VisitKeepsFrontier(nodes: map<string, Node>, edges: seq<Edge>, start: string, s: Search, more: seq<string>)
    requires |s.lev| == |s.queue| && Frontier(nodes, edges, start, s) && s.queue != [] && s.queue[0] !in s.level
    requires forall v :: Hop(nodes, edges, s.queue[0], v) ==> v in more || v in s.level || v == s.queue[0]
    ensures Frontier(nodes, edges, start, Visited(s, more))
  {
    var t, x, l := Visited(s, more), s.queue[0], s.lev[0];
    if start !in t.level {
      PendingAfterPop(s, t, start, 0);
    }
    forall u, v | u in t.level && Hop(nodes, edges, u, v) && v !in t.level
      ensures Pending(t, v, t.level[u] + 1)
    {
      if u == x {
        var k :| 0 <= k < |more| && more[k] == v;
        assert t.queue[|s.queue| - 1 + k] == v && t.lev[|s.queue| - 1 + k] == l + 1;
      } else {
        PendingAfterPop(s, t, v, s.level[u] + 1);
      }
    }
  }

  lemma VisitKeepsInv(nodes: map<string, Node>, edges: seq<Edge>, start: string, s: Search, more: seq<string>)
    requires Inv(nodes, edges, start, s) && s.queue != [] && s.queue[0] !in s.level
    requires forall v :: v in more ==> Hop(nodes, edges, s.queue[0], v)
    requires forall v :: Hop(nodes, edges, s.queue[0], v) ==> v in more || v in s.level || v == s.queue[0]
    ensures Inv(nodes, edges, start, Visited(s, more))
  {
    VisitKeepsLevelled(s, more);
    VisitKeepsFounded(nodes, edges, start, s, more);
    VisitKeepsFrontier(nodes, edges, start, s, more);
  }
}

/** The workflow graph, the runtime state, the planner and the engine as objects. */
module WorkflowObjects {
  import opened Workflow
  import opened WorkflowCheckpoints

  class WorkflowGraph {
    var nodes: set<NodeId>
    var edges: map<NodeId, seq<Edge>>

    ghost predicate Valid()
      reads this
    {
      nodes <= edges.Keys
    }

    constructor ()
      ensures Valid() && nodes == {} && edges == map[]
    {
      nodes, edges := {}, map[];
    }

    method AddNode(n: NodeId)
      requires Valid()
      modifies this
      ensures Valid() && nodes == old(nodes) + {n}
      ensures edges == if n in old(edges) then old(edges) else old(edges)[n := []]
    {
      nodes := nodes + {n};
      if n !in edges {
        edges := edges[n := []];
      }
    }

    /** Adding an edge fails, and changes nothing, if an endpoint is not in the graph. */
    method AddEdge(source: NodeId, target: NodeId, condition: Condition) returns (ok: bool)
      requires Valid()
      modifies this
      ensures Valid() && nodes == old(nodes)
      ensures ok <==> source in nodes && target in nodes
      ensures edges == if ok then old(edges)[source := old(edges)[source] + [Edge(target, condition)]] else old(edges)
    {
      ok := source in nodes && target in nodes;
      if ok {
        edges := edges[source := edges[source] + [Edge(target, condition)]];
      }
    }

    method GetNextNode(n: NodeId, s: State) returns (r: seq<NodeId>)
      ensures r == FirstEnabled(if n in edges then edges[n] else [], s)
    {
      var outgoing := if n in edges then edges[n] else [];
      assert outgoing[0..] == outgoing;
      for i := 0 to |outgoing|
        invariant FirstEnabled(outgoing, s) == FirstEnabled(outgoing[i..], s)
      {
        assert outgoing[i..][0] == outgoing[i] && outgoing[i..][1..] == outgoing[i + 1..];
        if Enabled(outgoing[i].condition, s) {
          return [outgoing[i].target];
        }
      }
      r := [];
    }
  }

  const NODE_COUNT := 15
  const EDGE_COUNT := 18

  /** The nodes in the order in which the planner adds them. */
  function NodeAt(k: nat): NodeId {
    match k
    case 0 => START
    case 1 => OBSERVE
    case 2 => UNDERSTAND
    case 3 => CONTEXT
    case 4 => REASON
    case 5 => PLAN
    case 6 => POLICY
    case 7 => APPROVAL
    case 8 => CAPABILITY_SELECT
    case 9 => EXECUTE
    case 10 => VERIFY
    case 11 => RETRY
    case 12 => MEMORY
    case 13 => RESPONSE
    case _ => END
  }

  /** The edges in the order in which the planner adds them. */
  function EdgeAt(k: nat): (NodeId, NodeId, Condition) {
    match k
    case 0 => (START, OBSERVE, Always)
    case 1 => (OBSERVE, UNDERSTAND, Always)
    case 2 => (UNDERSTAND, CONTEXT, Always)
    case 3 => (CONTEXT, REASON, Always)
    case 4 => (REASON, PLAN, Always)
    case 5 => (PLAN, POLICY, Always)
    case 6 => (POLICY, APPROVAL, IfApprovalRequired)
    case 7 => (POLICY, CAPABILITY_SELECT, Always)
    case 8 => (APPROVAL, CAPABILITY_SELECT, IfSuccess)
    case 9 => (APPROVAL, RESPONSE, IfFailure)
    case 10 => (CAPABILITY_SELECT, EXECUTE, Always)
    case 11 => (EXECUTE, VERIFY, Always)
    case 12 => (VERIFY, RETRY, IfFailure)
    case 13 => (RETRY, EXECUTE, IfRetryAvailable)
    case 14 => (RETRY, MEMORY, IfMaxRetriesExceeded)
    case 15 => (VERIFY, MEMORY, IfSuccess)
    case 16 => (MEMORY, RESPONSE, Always)
    case _ => (RESPONSE, END, Always)
  }

  /** The edges of `n` among the first `k` that the planner adds. */
  function Added(n: NodeId, k: nat): seq<Edge> {
    if k == 0 then [] else
    Added(n, k - 1) + if EdgeAt(k - 1).0 == n then [Edge(EdgeAt(k - 1).1, EdgeAt(k - 1).2)] else []
  }

  /** Edges of other nodes change nothing. */
  lemma {:induction false} AddedStays(n: NodeId, i: nat, j: nat)
    requires i <= j && forall k :: i <= k < j ==> EdgeAt(k).0 != n
    ensures Added(n, j) == Added(n, i)
  {
    if i < j {
      AddedStays(n, i, j - 1);
    }
  }

  lemma AddedNever(n: NodeId)
    requires forall k :: 0 <= k < EDGE_COUNT ==> EdgeAt(k).0 != n
    ensures Added(n, EDGE_COUNT) == []
  {
    AddedStays(n, 0, EDGE_COUNT);
  }

  /** A node whose only edge is the one at `i`. */
  lemma AddedOnce(n: NodeId, i: nat)
    requires i < EDGE_COUNT && forall k :: 0 <= k < EDGE_COUNT ==> (EdgeAt(k).0 == n <==> k == i)
    ensures Added(n, EDGE_COUNT) == [Edge(EdgeAt(i).1, EdgeAt(i).2)]
  {
    hide EdgeAt;
    AddedStays(n, 0, i);
    AddedStays(n, i + 1, EDGE_COUNT);
  }

  /** A node whose two edges are those at `i` and `j`. */
  lemma AddedTwice(n: NodeId, i: nat, j: nat)
    requires i < j < EDGE_COUNT
    requires forall k :: 0 <= k < EDGE_COUNT ==> (EdgeAt(k).0 == n <==> k == i || k == j)
    ensures Added(n, EDGE_COUNT) == [Edge(EdgeAt(i).1, EdgeAt(i).2), Edge(EdgeAt(j).1, EdgeAt(j).2)]
  {
    hide EdgeAt;
    AddedStays(n, 0, i);
    AddedStays(n, i + 1, j);
    AddedStays(n, j + 1, EDGE_COUNT);
  }

  /** Where the edges of a node stand in the planner's order: at the first, and perhaps at the second place. */
  function Places(n: NodeId): (nat, nat) {
    match n
    case START => (0, 0) case OBSERVE => (1, 1) case UNDERSTAND => (2, 2) case CONTEXT => (3, 3)
    case REASON => (4, 4) case PLAN => (5, 5) case POLICY => (6, 7) case APPROVAL => (8, 9)
    case CAPABILITY_SELECT => (10, 10) case EXECUTE => (11, 11) case VERIFY => (12, 15)
    case RETRY => (13, 14) case MEMORY => (16, 16) case RESPONSE => (17, 17) case END => (18, 18)
  }

  lemma PlacesAreExact(n: NodeId, k: nat)
    requires k < EDGE_COUNT
    ensures EdgeAt(k).0 == n <==> k == Places(n).0 || k == Places(n).1
  {
  }

  lemma PlannedAtPlaces(n: NodeId)
    requires n != END
    ensures var (i, j) := Places(n);
            && i <= j < EDGE_COUNT
            && Planned(n) == [Edge(EdgeAt(i).1, EdgeAt(i).2)] + if i < j then [Edge(EdgeAt(j).1, EdgeAt(j).2)] else []
  {
  }

  /** Adding the planner's edges one by one leaves every node with its planned edges in their order. */
  lemma AddedIsPlanned(n: NodeId)
    ensures Added(n, EDGE_COUNT) == Planned(n)
  {
    hide EdgeAt, Added;
    forall k: nat | k < EDGE_COUNT ensures EdgeAt(k).0 == n <==> k == Places(n).0 || k == Places(n).1 {
      PlacesAreExact(n, k);
    }
    if n == END {
      AddedNever(n);
    } else {
      PlannedAtPlaces(n);
      if Places(n).0 < Places(n).1 {
        AddedTwice(n, Places(n).0, Places(n).1);
      } else {
        AddedOnce(n, Places(n).0);
      }
    }
  }

  /** The planner builds the planned graph by adding nodes and edges. */
  method BuildWorkflowGraph() returns (graph: WorkflowGraph)
    ensures fresh(graph) && graph.Valid()
    ensures IsPlanned(graph)
  {
    graph := new WorkflowGraph();
    for k := 0 to NODE_COUNT
      invariant graph.Valid() && forall i :: 0 <= i < k ==> NodeAt(i) in graph.nodes
      invariant forall n :: n in graph.edges ==> graph.edges[n] == []
    {
      graph.AddNode(NodeAt(k));
    }
    forall n: NodeId ensures n in graph.nodes && n in graph.edges {
      assert NodeAt(14 - Rank(n)) == n;
    }
    for k := 0 to EDGE_COUNT
      invariant graph.Valid() && forall n: NodeId :: n in graph.nodes
      invariant forall n: NodeId :: n in graph.edges && graph.edges[n] == Added(n, k)
    {
      var (source, target, condition) := EdgeAt(k);
      var ok := graph.AddEdge(source, target, condition);
    }
    forall n ensures graph.edges[n] == Planned(n) {
      AddedIsPlanned(n);
    }
  }

  ghost predicate IsPlanned(graph: WorkflowGraph)
    reads graph
  {
    forall n: NodeId :: n in graph.nodes && n in graph.edges && graph.edges[n] == Planned(n)
  }

  class RuntimeState {
    var current: NodeId
    var visited: seq<NodeId>
    var status: Status
    /** The pending capability, action and parameters. */
    var pending: string
    var retryCount: int
    var maxRetries: int
    var errors: nat
    /** The request, intent and plan data, which no edge condition reads. */
    var data: string
    var verified: bool
    var requiresConfirmation: bool
    var history: seq<NodeId>
    var checkpoints: map<string, Saved>

    constructor (maxRetries: int)
      ensures View() == State(INITIALIZED, 0, maxRetries, false, true, false, []) && checkpoints == map[]
      ensures current == START && visited == [] && data == ""
    {
      current, visited, status, pending, retryCount := START, [], INITIALIZED, "", 0;
      this.maxRetries, errors, data, verified, requiresConfirmation := maxRetries, 0, "", true, false;
      history, checkpoints := [], map[];
    }

    function View(): State
      reads this
    {
      State(status, retryCount, maxRetries, errors > 0, verified, requiresConfirmation, history)
    }

    function All(): Record
      reads this
    {
      Record(current, visited, status, pending, retryCount, data, requiresConfirmation,
             maxRetries, errors, verified, history)
    }

    method TransitionTo(n: NodeId, newStatus: Status)
      modifies this
      ensures View() == Transition(old(View()), n, newStatus) && current == n
      ensures status == newStatus && history == old(history) + [n]
      ensures visited == old(visited) + [old(current)]
      ensures unchanged(`checkpoints, `pending, `data, `errors)
    {
      visited := visited + [current];
      current := n;
      status := newStatus;
      history := history + [n];
    }

    /** A recorded error also counts as a retry. */
    method RecordError()
      modifies this
      ensures View() == old(View()).(hasErrors := true, retryCount := old(retryCount) + 1)
      ensures unchanged(`current, `visited, `pending, `data, `checkpoints) && errors == old(errors) + 1
    {
      errors := errors + 1;
      retryCount := retryCount + 1;
    }

    /** The snapshot holds more than restoring brings back: it also has the data and the policy decision. */
    method SaveCheckpoint(name: string)
      modifies this`checkpoints
      ensures checkpoints == old(checkpoints)[name := Taken(All())]
    {
      checkpoints :=
        checkpoints[name := Saved(current, visited, status, pending, retryCount, data, requiresConfirmation)];
    }

    method RestoreCheckpoint(name: string) returns (ok: bool)
      modifies this
      ensures ok <==> name in old(checkpoints)
      ensures All() == if ok then Restored(old(All()), old(checkpoints)[name]) else old(All())
      ensures checkpoints == old(checkpoints)
    {
      ok := name in checkpoints;
      if ok {
        var c := checkpoints[name];
        current, visited, status, pending, retryCount := c.current, c.visited, c.status, c.pending, c.retryCount;
      }
    }
  }

  class Engine {
    /** The effect of a node's handler; `h` are the decisions of the opaque handlers. */
    static method ExecuteNode(n: NodeId, state: RuntimeState, h: Handlers)
      modifies state`status, state`requiresConfirmation, state`verified, state`retryCount
      ensures state.View() == Handle(n, old(state.View()), h)
    {
      match n {
        case POLICY =>
          state.requiresConfirmation := h.confirm;
          if h.confirm {
            state.status := WAITING_APPROVAL;
          }
        case APPROVAL =>
          if state.requiresConfirmation {
            state.status := WAITING_APPROVAL;
          }
        case VERIFY =>
          state.verified := h.report(Visits(state.history, VERIFY));
        case RETRY =>
          state.retryCount := state.retryCount + 1;
        case _ =>
      }
    }

    /** One round of the engine's loop: transition, handler, next node. */
    static method Visit(graph: WorkflowGraph, current: NodeId, state: RuntimeState, h: Handlers)
      returns (paused: bool, next: NodeId)
      requires IsPlanned(graph) && current != END
      modifies state
      ensures state.View() == Handle(current, Transition(old(state.View()), current, RUNNING), h)
      ensures paused == Waits(state.View())
      ensures !paused ==> next == Next(current, state.View())
      ensures state.checkpoints ==
              if paused then old(state.checkpoints)[APPROVAL_PAUSED := Taken(state.All())] else old(state.checkpoints)
    {
      state.TransitionTo(current, RUNNING);
      ExecuteNode(current, state, h);
      paused := state.status == PAUSED || state.status == WAITING_APPROVAL;
      if paused {
        state.SaveCheckpoint(APPROVAL_PAUSED);
        return paused, current;
      }
      SomeEdgeEnabled(current, state.View());
      var target := graph.GetNextNode(current, state.View());
      next := target[0];
    }

    /** A run, on a fresh or on an earlier state; the state in which it began is saved as the initial plan. */
    static method Run(state: RuntimeState, h: Handlers)
      modifies state
      ensures state.View() == Execute(old(state.View()), h)
      ensures INITIAL_PLAN in state.checkpoints
      ensures state.checkpoints[INITIAL_PLAN] == Taken(old(state.All()).(status := RUNNING))
    {
      hide Handle, Next, Rank, Budget, Planned, IsPlanned;
      assert APPROVAL_PAUSED[0] != INITIAL_PLAN[0];
      state.status := RUNNING;
      var graph := BuildWorkflowGraph();
      state.SaveCheckpoint(INITIAL_PLAN);
      var current := OBSERVE;
      state.current := current;
      ghost var s0 := state.View();
      var paused := false;
      while current != END
        invariant IsPlanned(graph)
        invariant Walk(current, state.View(), h) == Walk(OBSERVE, s0, h)
        invariant current == END ==> !Waits(state.View())
        invariant INITIAL_PLAN in state.checkpoints
        invariant state.checkpoints[INITIAL_PLAN] == Taken(old(state.All()).(status := RUNNING))
        decreases Budget(state.View()), Rank(current)
      {
        WalkDescends(current, state.View(), h);
        paused, current := Visit(graph, current, state, h);
        if paused {
          break;
        }
      }
      if state.status != PAUSED && state.status != WAITING_APPROVAL {
        state.status := COMPLETED;
        state.TransitionTo(END, COMPLETED);
      }
    }
  }
}

/** The workflow graph, the graph that the planner builds, and whole runs of the engine over it. */
module Workflow {

  datatype NodeId =
    | START | OBSERVE | UNDERSTAND | CONTEXT | REASON | PLAN | POLICY | APPROVAL | CAPABILITY_SELECT
    | EXECUTE | VERIFY | RETRY | MEMORY | RESPONSE | END

  datatype Condition =
    | Always | IfSuccess | IfFailure | IfApprovalRequired | IfRetryAvailable | IfMaxRetriesExceeded

  datatype Edge = Edge(target: NodeId, condition: Condition)

  datatype Status = INITIALIZED | RUNNING | PAUSED | WAITING_APPROVAL | COMPLETED | FAILED | CANCELLED

  /** The part of the runtime state that the engine and the edge conditions read.  `verified` is true while
      no verification report says otherwise. */
  datatype State = State(
    status: Status,
    retryCount: int,
    maxRetries: int,
    hasErrors: bool,
    verified: bool,
    requiresConfirmation: bool,
    history: seq<NodeId>)

  /** What the opaque handlers decide: the policy decision, and the report of the k-th verification. */
  datatype Handlers = Handlers(confirm: bool, report: nat -> bool)

  predicate Enabled(c: Condition, s: State) {
    match c
    case Always => true
    case IfSuccess => s.verified && !s.hasErrors
    case IfFailure => s.hasErrors || !s.verified
    case IfApprovalRequired => s.requiresConfirmation
    case IfRetryAvailable => s.retryCount < s.maxRetries
    case IfMaxRetriesExceeded => s.retryCount >= s.maxRetries
  }

  /** The target of the first enabled edge, if any. */
  function FirstEnabled(edges: seq<Edge>, s: State): seq<NodeId> {
    if edges == [] then []
    else if Enabled(edges[0].condition, s) then [edges[0].target]
    else FirstEnabled(edges[1..], s)
  }

  /** The edges of the planned graph, in the order in which they are tried. */
  function Planned(n: NodeId): seq<Edge> {
    match n
    case START => [Edge(OBSERVE, Always)]
    case OBSERVE => [Edge(UNDERSTAND, Always)]
    case UNDERSTAND => [Edge(CONTEXT, Always)]
    case CONTEXT => [Edge(REASON, Always)]
    case REASON => [Edge(PLAN, Always)]
    case PLAN => [Edge(POLICY, Always)]
    case POLICY => [Edge(APPROVAL, IfApprovalRequired), Edge(CAPABILITY_SELECT, Always)]
    case APPROVAL => [Edge(CAPABILITY_SELECT, IfSuccess), Edge(RESPONSE, IfFailure)]
    case CAPABILITY_SELECT => [Edge(EXECUTE, Always)]
    case EXECUTE => [Edge(VERIFY, Always)]
    case VERIFY => [Edge(RETRY, IfFailure), Edge(MEMORY, IfSuccess)]
    case RETRY => [Edge(EXECUTE, IfRetryAvailable), Edge(MEMORY, IfMaxRetriesExceeded)]
    case MEMORY => [Edge(RESPONSE, Always)]
    case RESPONSE => [Edge(END, Always)]
    case END => []
  }

  function Visits(h: seq<NodeId>, n: NodeId): nat { multiset(h)[n] }

  /** What a node's handler does to this part of the state. */
  function Handle(n: NodeId, s: State, h: Handlers): State {
    match n
    case POLICY =>
      s.(requiresConfirmation := h.confirm, status := if h.confirm then WAITING_APPROVAL else s.status)
    case APPROVAL => if s.requiresConfirmation then s.(status := WAITING_APPROVAL) else s
    case VERIFY => s.(verified := h.report(Visits(s.history, VERIFY)))
    case RETRY => s.(retryCount := s.retryCount + 1)
    case _ => s
  }

  function Transition(s: State, n: NodeId, status: Status): State {
    s.(status := status, history := s.history + [n])
  }

  predicate Waits(s: State) { s.status == PAUSED || s.status == WAITING_APPROVAL }

  // ----- the walk ends ------------------------------------------------------------------------------------

  /** How often the run may still go back to EXECUTE. */
  function Budget(s: State): nat {
    if s.retryCount < s.maxRetries then s.maxRetries - s.retryCount else 0
  }

  /** The planned graph, apart from its retry edge, leads downwards. */
  function Rank(n: NodeId): nat {
    match n
    case START => 14 case OBSERVE => 13 case UNDERSTAND => 12 case CONTEXT => 11 case REASON => 10
    case PLAN => 9 case POLICY => 8 case APPROVAL => 7 case CAPABILITY_SELECT => 6 case EXECUTE => 5
    case VERIFY => 4 case RETRY => 3 case MEMORY => 2 case RESPONSE => 1 case END => 0
  }

  /** Every node but END has an enabled edge in every state. */
  lemma SomeEdgeEnabled(n: NodeId, s: State)
    requires n != END
    ensures |FirstEnabled(Planned(n), s)| == 1 && FirstEnabled(Planned(n), s) != [n]
  {
    var es := Planned(n);
    if |es| == 2 {
      assert FirstEnabled(es, s) ==
             if Enabled(es[0].condition, s) then [es[0].target] else FirstEnabled([es[1]], s);
    }
  }

  function Next(n: NodeId, s: State): NodeId
    requires n != END
  {
    SomeEdgeEnabled(n, s);
    FirstEnabled(Planned(n), s)[0]
  }

  /** Following an enabled edge uses up the retry budget or leads downwards. */
  lemma WalkDescends(n: NodeId, s: State, h: Handlers)
    requires n != END
    ensures var t := Handle(n, Transition(s, n, RUNNING), h);
            Budget(t) < Budget(s) || (Budget(t) == Budget(s) && Rank(Next(n, t)) < Rank(n))
  {
    var t := Handle(n, Transition(s, n, RUNNING), h);
    SomeEdgeEnabled(n, t);
    if n == RETRY {
      assert Planned(n)[1..] == [Edge(MEMORY, IfMaxRetriesExceeded)];
    }
  }

  /** The loop of the engine, from node `n` on. */
  function Walk(n: NodeId, s: State, h: Handlers): State
    decreases Budget(s), Rank(n)
  {
    if n == END then s else
    var t := Handle(n, Transition(s, n, RUNNING), h);
    if Waits(t) then t else
    WalkDescends(n, s, h);
    Walk(Next(n, t), t, h)
  }

  /** A whole run, on a fresh or on an earlier state. */
  function Execute(s: State, h: Handlers): State {
    var t := Walk(OBSERVE, s.(status := RUNNING), h);
    if Waits(t) then t else Transition(t, END, COMPLETED)
  }

  // ----- what every run looks like ----------------------------------------------------------------------------

  /** `a` and `b` are joined by an edge of the planned graph. */
  predicate Linked(a: NodeId, b: NodeId) {
    exists i :: 0 <= i < |Planned(a)| && Planned(a)[i].target == b
  }

  ghost predicate IsPath(h: seq<NodeId>) {
    h != [] && h[0] == OBSERVE && forall i :: 0 < i < |h| ==> PathStep(h, i)
  }

  predicate PathStep(h: seq<NodeId>, i: int)
    requires 0 < i < |h|
  {
    Linked(h[i - 1], h[i])
  }

  /** `n` may follow the history `h`. */
  ghost predicate Continues(h: seq<NodeId>, n: NodeId) {
    if h == [] then n == OBSERVE else IsPath(h) && Linked(h[|h|-1], n)
  }

  lemma NextIsLinked(n: NodeId, s: State)
    requires n != END
    ensures Linked(n, Next(n, s))
  {
    SomeEdgeEnabled(n, s);
    var es := Planned(n);
    if |es| == 2 {
      assert es[1..] == [es[1]];
      assert FirstEnabled([es[1]], s) == if Enabled(es[1].condition, s) then [es[1].target] else FirstEnabled([], s);
    }
    assert Next(n, s) == es[0].target || (|es| == 2 && Next(n, s) == es[1].target);
  }

  lemma PathGrows(h: seq<NodeId>, n: NodeId)
    requires Continues(h, n)
    ensures IsPath(h + [n])
  {
    var g := h + [n];
    forall i | 0 < i < |g| ensures PathStep(g, i) {
      if i < |h| {
        assert PathStep(h, i);
      }
    }
  }

  /** Nodes that come after the policy decision. */
  predicate AfterPolicy(n: NodeId) {
    n in {CAPABILITY_SELECT, APPROVAL, EXECUTE, VERIFY, RETRY, MEMORY, RESPONSE, END}
  }

  /** What the history holds behind `past`. */
  function Since(past: seq<NodeId>, history: seq<NodeId>): seq<NodeId>
    requires past <= history
  {
    history[|past|..]
  }

  /** Before the decision nothing after it was visited; after it, the decision was to go on. */
  ghost predicate Progress(past: seq<NodeId>, n: NodeId, s: State, h: Handlers) {
    && past <= s.history && Continues(Since(past, s.history), n) && n != START && n != APPROVAL
    && (AfterPolicy(n) ==> !h.confirm && !s.requiresConfirmation)
    && (!AfterPolicy(n) ==> forall m :: m in Since(past, s.history) ==> !AfterPolicy(m))
  }

  /** How a walk that began behind `past` ends. */
  ghost predicate EndsOrPauses(past: seq<NodeId>, t: State, h: Handlers) {
    && past <= t.history
    && var path := Since(past, t.history);
    if h.confirm then
      && t.status == WAITING_APPROVAL && IsPath(path) && path[|path|-1] == POLICY
      && forall m :: m in path ==> !AfterPolicy(m)
    else !Waits(t) && Continues(path, END)
  }

  lemma HandlersKeepHistory(n: NodeId, s: State, h: Handlers)
    ensures Handle(n, s, h).history == s.history
    ensures n != POLICY ==> Handle(n, s, h).requiresConfirmation == s.requiresConfirmation
    ensures n == POLICY ==> Handle(n, s, h).requiresConfirmation == h.confirm
    ensures n != APPROVAL && s.status == RUNNING ==>
              Handle(n, s, h).status == if n == POLICY && h.confirm then WAITING_APPROVAL else RUNNING
  {
  }

  /** One round keeps `Progress`, or pauses as it should. */
  lemma RoundKeepsProgress(past: seq<NodeId>, n: NodeId, s: State, h: Handlers)
    requires Progress(past, n, s, h) && s.status == RUNNING && n != END
    ensures var t := Handle(n, Transition(s, n, RUNNING), h);
            if Waits(t) then EndsOrPauses(past, t, h) else Progress(past, Next(n, t), t, h) && t.status == RUNNING
  {
    var t := Handle(n, Transition(s, n, RUNNING), h);
    HandlersKeepHistory(n, Transition(s, n, RUNNING), h);
    PathGrows(Since(past, s.history), n);
    assert Since(past, t.history) == Since(past, s.history) + [n];
    if !Waits(t) {
      hide Handle;
      NextIsLinked(n, t);
      PolicyGoesOn(n, t);
    }
  }

  lemma {:induction false} WalkIsPath(past: seq<NodeId>, n: NodeId, s: State, h: Handlers)
    requires Progress(past, n, s, h) && s.status == RUNNING
    ensures EndsOrPauses(past, Walk(n, s, h), h)
    decreases Budget(s), Rank(n)
  {
    if n != END {
      var t := Handle(n, Transition(s, n, RUNNING), h);
      RoundKeepsProgress(past, n, s, h);
      if !Waits(t) {
        WalkDescends(n, s, h);
        WalkIsPath(past, Next(n, t), t, h);
      }
    }
  }

  lemma PolicyGoesOn(n: NodeId, t: State)
    requires n != END && n != START
    requires n == POLICY ==> !t.requiresConfirmation
    ensures Next(n, t) != APPROVAL && Next(n, t) != START
    ensures AfterPolicy(Next(n, t)) <==> AfterPolicy(n) || n == POLICY
  {
    SomeEdgeEnabled(n, t);
    var es := Planned(n);
    if |es| == 2 {
      assert es[1..] == [es[1]];
      assert FirstEnabled([es[1]], t) == if Enabled(es[1].condition, t) then [es[1].target] else FirstEnabled([], t);
    }
  }

  /** A run ends, whatever the handlers decide.  It pauses at POLICY exactly if the policy asks for
      confirmation, having reached nothing behind it; otherwise it completes at END.  What it adds to the
      history is a path of the planned graph. */
  lemma RunsEndOrPause(s: State, h: Handlers)
    ensures var t := Execute(s, h);
            && s.history <= t.history
            && var path := Since(s.history, t.history);
            && IsPath(path)
            && (h.confirm <==> t.status == WAITING_APPROVAL)
            && (h.confirm ==> path[|path|-1] == POLICY && forall m :: m in path ==> !AfterPolicy(m))
            && (!h.confirm ==> t.status == COMPLETED && path[|path|-1] == END)
  {
    var s0 := s.(status := RUNNING);
    WalkIsPath(s.history, OBSERVE, s0, h);
    var t := Walk(OBSERVE, s0, h);
    if !h.confirm {
      PathGrows(Since(s.history, t.history), END);
      assert Since(s.history, t.history + [END]) == Since(s.history, t.history) + [END];
    }
  }

  // ----- retries -----------------------------------------------------------------------------------------------

  /** How often a run that stands at `n` may still visit EXECUTE. */
  function ExecutesLeft(n: NodeId, s: State): nat {
    if Rank(n) >= Rank(EXECUTE) then (if Budget(s) > 1 then Budget(s) else 1)
    else if Rank(n) >= Rank(RETRY) then (if Budget(s) > 1 then Budget(s) - 1 else 0)
    else 0
  }

  lemma VisitsGrow(h: seq<NodeId>, n: NodeId)
    ensures Visits(h + [n], EXECUTE) == Visits(h, EXECUTE) + if n == EXECUTE then 1 else 0
  {
  }

  lemma OneStepUsesUp(n: NodeId, s: State, h: Handlers)
    requires n != END
    ensures var t := Handle(n, Transition(s, n, RUNNING), h);
            ExecutesLeft(Next(n, t), t) + (if n == EXECUTE then 1 else 0) <= ExecutesLeft(n, s)
    ensures var t := Handle(n, Transition(s, n, RUNNING), h);
            n !in {VERIFY, POLICY, APPROVAL} || (n == VERIFY && (s.hasErrors || !t.verified)) ||
            (n == POLICY && !t.requiresConfirmation) ==>
              ExecutesLeft(Next(n, t), t) + (if n == EXECUTE then 1 else 0) == ExecutesLeft(n, s)
  {
    var t := Handle(n, Transition(s, n, RUNNING), h);
    SomeEdgeEnabled(n, t);
    var es := Planned(n);
    if |es| == 2 {
      assert es[1..] == [es[1]];
      assert FirstEnabled([es[1]], t) == if Enabled(es[1].condition, t) then [es[1].target] else FirstEnabled([], t);
    }
  }

  lemma {:induction false} WalkExecutes(n: NodeId, s: State, h: Handlers)
    requires n != APPROVAL && (h.confirm ==> !AfterPolicy(n)) && n != START
    ensures var t := Walk(n, s, h);
            && Visits(t.history, EXECUTE) <= Visits(s.history, EXECUTE) + ExecutesLeft(n, s)
            && (!h.confirm && (s.hasErrors || forall k :: !h.report(k)) ==>
                  Visits(t.history, EXECUTE) == Visits(s.history, EXECUTE) + ExecutesLeft(n, s))
    decreases Budget(s), Rank(n)
  {
    if n != END {
      var t := Handle(n, Transition(s, n, RUNNING), h);
      VisitsGrow(s.history, n);
      if !Waits(t) {
        WalkDescends(n, s, h);
        OneStepUsesUp(n, s, h);
        SomeEdgeEnabled(n, t);
        PolicyGoesOn(n, t);
        WalkExecutes(Next(n, t), t, h);
      }
    }
  }

  /** A run visits EXECUTE at most `max(1, maxRetries - retryCount)` times, and exactly that often if no
      verification ever succeeds. */
  lemma ExecutionsAreBounded(s: State, h: Handlers)
    ensures var bound := if s.maxRetries - s.retryCount > 1 then s.maxRetries - s.retryCount else 1;
            var n := Visits(Execute(s, h).history, EXECUTE) - Visits(s.history, EXECUTE);
            && n <= bound
            && (!h.confirm && (s.hasErrors || forall k :: !h.report(k)) ==> n == bound)
  {
    var s0 := s.(status := RUNNING);
    WalkExecutes(OBSERVE, s0, h);
    VisitsGrow(Walk(OBSERVE, s0, h).history, END);
  }
}

/** How often a run of the planned graph executes and retries, told from the verification reports. */
module WorkflowRetries {
  import opened Workflow

  /** The first true report is the `g`-th from now on. */
  ghost predicate FirstTrueIn(s: State, h: Handlers, g: int) {
    var v := Visits(s.history, VERIFY);
    g >= 1 && h.report(v + g) && forall k :: v < k < v + g ==> !h.report(k)
  }

  function Min(a: int, b: int): int { if a < b then a else b }

  function Max(a: int, b: int): int { if a > b then a else b }

  /** One more of them visited. */
  function One(n: NodeId, m: NodeId): int { if n == m then 1 else 0 }

  lemma VisitsAfter(h: seq<NodeId>, n: NodeId, m: NodeId)
    ensures Visits(h + [n], m) == Visits(h, m) + One(n, m)
  {
  }

  /** Where the branching nodes lead, in every state. */
  lemma BranchesLead(s: State)
    ensures Next(POLICY, s) == if s.requiresConfirmation then APPROVAL else CAPABILITY_SELECT
    ensures Next(APPROVAL, s) == if s.hasErrors || !s.verified then RESPONSE else CAPABILITY_SELECT
    ensures Next(VERIFY, s) == if s.hasErrors || !s.verified then RETRY else MEMORY
    ensures Next(RETRY, s) == if s.retryCount < s.maxRetries then EXECUTE else MEMORY
  {
    SecondTarget(POLICY, s);
    SecondTarget(APPROVAL, s);
    SecondTarget(VERIFY, s);
    SecondTarget(RETRY, s);
  }

  /** Of two edges, the second is taken if the first is not enabled. */
  lemma SecondTarget(n: NodeId, s: State)
    requires n in {POLICY, APPROVAL, VERIFY, RETRY}
    ensures |Planned(n)| == 2
    ensures Next(n, s) == Planned(n)[if Enabled(Planned(n)[0].condition, s) then 0 else 1].target
  {
    var es := Planned(n);
    SomeEdgeEnabled(n, s);
    assert es[1..] == [es[1]];
    assert FirstEnabled([es[1]], s) == if Enabled(es[1].condition, s) then [es[1].target] else FirstEnabled([], s);
  }

  /** The approval node holds the run exactly if a confirmation is required. */
  lemma ApprovalHoldsExactlyWhen(s: State, h: Handlers)
    ensures var t := Walk(APPROVAL, s, h);
            if s.requiresConfirmation then t.status == WAITING_APPROVAL && t.history == s.history + [APPROVAL]
            else |t.history| > |s.history| + 1
  {
    var t := Handle(APPROVAL, Transition(s, APPROVAL, RUNNING), h);
    if !s.requiresConfirmation {
      BranchesLead(t);
      WalkDescends(APPROVAL, s, h);
      WalkAddsHistory(Next(APPROVAL, t), t, h);
    }
  }

  lemma {:induction false} WalkAddsHistory(n: NodeId, s: State, h: Handlers)
    requires n != END
    ensures |Walk(n, s, h).history| > |s.history|
    decreases Budget(s), Rank(n)
  {
    var t := Handle(n, Transition(s, n, RUNNING), h);
    HandlersKeepHistory(n, Transition(s, n, RUNNING), h);
    if !Waits(t) && Next(n, t) != END {
      WalkDescends(n, s, h);
      WalkAddsHistory(Next(n, t), t, h);
    }
  }

  /** Where a node without approval leads. */
  lemma NextIs(n: NodeId, t: State)
    requires n != END && n != START && n != APPROVAL && !t.hasErrors && (n == POLICY ==> !t.requiresConfirmation)
    ensures var m := Next(n, t);
            && (n == VERIFY ==> m == if t.verified then MEMORY else RETRY)
            && (n == RETRY ==> m == if t.retryCount < t.maxRetries then EXECUTE else MEMORY)
            && (n == POLICY ==> m == CAPABILITY_SELECT)
            && (n == EXECUTE ==> m == VERIFY)
            && (Rank(n) > Rank(EXECUTE) ==> Rank(EXECUTE) <= Rank(m) && m != APPROVAL && m != START)
            && (Rank(n) < Rank(RETRY) ==> Rank(m) < Rank(RETRY))
  {
    SomeEdgeEnabled(n, t);
    var es := Planned(n);
    if |es| == 2 {
      assert es[1..] == [es[1]];
      assert FirstEnabled([es[1]], t) == if Enabled(es[1].condition, t) then [es[1].target] else FirstEnabled([], t);
    }
  }

  lemma HandlersGoOn(n: NodeId, s: State, h: Handlers)
    requires n != APPROVAL && !h.confirm && !s.hasErrors
    ensures var t := Handle(n, Transition(s, n, RUNNING), h);
            && !Waits(t) && !t.hasErrors && t.history == s.history + [n]
            && (n == VERIFY ==> t.verified == h.report(Visits(s.history, VERIFY) + 1))
            && (n == POLICY ==> !t.requiresConfirmation)
  {
    VisitsAfter(s.history, VERIFY, VERIFY);
    hide Visits;
  }

  lemma ReportsAhead(s: State, t: State, n: NodeId, h: Handlers, g: int)
    requires FirstTrueIn(s, h, g) && t.history == s.history + [n]
    ensures g - One(n, VERIFY) >= 1 ==> FirstTrueIn(t, h, g - One(n, VERIFY))
    ensures g == 1 <==> h.report(Visits(s.history, VERIFY) + 1)
  {
    VisitsAfter(s.history, n, VERIFY);
    var v := Visits(s.history, VERIFY);
    assert g > 1 ==> v < v + 1 < v + g;
    hide Visits;
  }

  /** One round, when the handlers neither pause nor record errors. */
  lemma RoundGoesOn(n: NodeId, s: State, h: Handlers, g: int)
    requires n != END && n != START && n != APPROVAL && !h.confirm && !s.hasErrors
    requires Rank(n) >= Rank(RETRY) ==> FirstTrueIn(s, h, g)
    ensures var t := Handle(n, Transition(s, n, RUNNING), h);
            var m, rest := Next(n, t), g - One(n, VERIFY);
            && !Waits(t) && !t.hasErrors && t.history == s.history + [n] && m != APPROVAL && m != START
            && (n == VERIFY ==> (m == MEMORY <==> g == 1))
            && (Rank(m) >= Rank(RETRY) ==> FirstTrueIn(t, h, rest))
  {
    var t := Handle(n, Transition(s, n, RUNNING), h);
    HandlersGoOn(n, s, h);
    NextIs(n, t);
    hide Next, Planned, Visits, Handle, Waits;
    if Rank(n) >= Rank(RETRY) {
      ReportsAhead(s, t, n, h, g);
      assert FirstTrueIn(s, h, g) ==> g >= 1;
    }
    hide FirstTrueIn;
  }

  lemma BudgetAfter(n: NodeId, s: State, h: Handlers)
    ensures var t := Handle(n, Transition(s, n, RUNNING), h);
            && t.maxRetries == s.maxRetries && t.retryCount == s.retryCount + One(n, RETRY)
            && Budget(t) == Budget(s) - (if n == RETRY && Budget(s) > 0 then 1 else 0)
            && (Budget(t) > 0 <==> t.retryCount < t.maxRetries)
  {
  }

  lemma WalkGoesOn(n: NodeId, s: State, h: Handlers)
    requires n != END && !Waits(Handle(n, Transition(s, n, RUNNING), h))
    ensures var t := Handle(n, Transition(s, n, RUNNING), h);
            Walk(n, s, h) == Walk(Next(n, t), t, h)
  {
    hide Handle, Next, Waits;
  }

  // ----- the path of a run ---------------------------------------------------------------------------------------

  /** `k` executions, each verified, with a retry in between. */
  function Attempts(k: nat): seq<NodeId> {
    if k <= 1 then [EXECUTE, VERIFY] else [EXECUTE, VERIFY, RETRY] + Attempts(k - 1)
  }

  /** Where a node leads, with that budget and the `g`-th report from now on the first to be true. */
  function Following(n: NodeId, budget: nat, g: int): NodeId {
    match n
    case START => OBSERVE
    case OBSERVE => UNDERSTAND
    case UNDERSTAND => CONTEXT
    case CONTEXT => REASON
    case REASON => PLAN
    case PLAN => POLICY
    case POLICY => CAPABILITY_SELECT
    case APPROVAL => CAPABILITY_SELECT
    case CAPABILITY_SELECT => EXECUTE
    case EXECUTE => VERIFY
    case VERIFY => if g == 1 then MEMORY else RETRY
    case RETRY => if budget > 1 then EXECUTE else MEMORY
    case MEMORY => RESPONSE
    case RESPONSE => END
    case END => END
  }

  /** The budget behind a node. */
  function Less(n: NodeId, budget: nat): nat { if n == RETRY && budget > 0 then budget - 1 else budget }

  /** The nodes from `n` on. */
  function Ahead(n: NodeId, budget: nat, g: int): seq<NodeId>
    decreases budget, Rank(n)
  {
    if n == END then []
    else [n] + Ahead(Following(n, budget, g), Less(n, budget), g - One(n, VERIFY))
  }

  lemma {:induction false} AheadIsAttempts(budget: nat, g: int)
    requires g >= 1
    ensures Ahead(EXECUTE, budget, g) ==
            Attempts(Min(Max(budget, 1), g)) + (if g <= Max(budget, 1) then [] else [RETRY]) + [MEMORY, RESPONSE]
    decreases budget
  {
    hide Ahead;
    OneMoreAhead(EXECUTE, budget, g);
    OneMoreAhead(VERIFY, budget, g);
    if g == 1 {
      ClosingAhead(budget, 0);
    } else {
      OneMoreAhead(RETRY, budget, g - 1);
      if budget > 1 {
        AheadIsAttempts(budget - 1, g - 1);
        MoreAttempts(Min(budget, g), if g <= budget then [] else [RETRY]);
      } else {
        ClosingAhead(Less(RETRY, budget), g - 1);
      }
    }
  }

  lemma MoreAttempts(k: nat, retry: seq<NodeId>)
    requires k > 1
    ensures Attempts(k) + retry + [MEMORY, RESPONSE] ==
            [EXECUTE] + ([VERIFY] + ([RETRY] + (Attempts(k - 1) + retry + [MEMORY, RESPONSE])))
  {
  }

  lemma OneMoreAhead(n: NodeId, budget: nat, g: int)
    requires n != END
    ensures Ahead(n, budget, g) ==
            [n] + Ahead(Following(n, budget, g), Less(n, budget), g - One(n, VERIFY))
  {
  }

  lemma ClosingAhead(budget: nat, g: int)
    ensures Ahead(MEMORY, budget, g) == [MEMORY, RESPONSE]
  {
    OneMoreAhead(MEMORY, budget, g);
    OneMoreAhead(RESPONSE, budget, g);
    assert Ahead(END, budget, g) == [];
    hide Ahead;
  }

  lemma OpeningAhead(budget: nat, g: int)
    ensures Ahead(OBSERVE, budget, g) ==
            [OBSERVE, UNDERSTAND, CONTEXT, REASON, PLAN, POLICY, CAPABILITY_SELECT] + Ahead(EXECUTE, budget, g)
  {
    hide Ahead;
    OneMoreAhead(OBSERVE, budget, g);
    OneMoreAhead(UNDERSTAND, budget, g);
    OneMoreAhead(CONTEXT, budget, g);
    OneMoreAhead(REASON, budget, g);
    OneMoreAhead(PLAN, budget, g);
    OneMoreAhead(POLICY, budget, g);
    OneMoreAhead(CAPABILITY_SELECT, budget, g);
  }

  /** Where the nodes without a branch lead. */
  lemma LinearNext(n: NodeId, t: State)
    requires n in {START, OBSERVE, UNDERSTAND, CONTEXT, REASON, PLAN, CAPABILITY_SELECT, EXECUTE, MEMORY, RESPONSE}
    ensures Next(n, t) == match n
                          case START => OBSERVE
                          case OBSERVE => UNDERSTAND
                          case UNDERSTAND => CONTEXT
                          case CONTEXT => REASON
                          case REASON => PLAN
                          case PLAN => POLICY
                          case CAPABILITY_SELECT => EXECUTE
                          case EXECUTE => VERIFY
                          case MEMORY => RESPONSE
                          case _ => END
  {
    SomeEdgeEnabled(n, t);
  }

  /** One round leads where it should. */
  lemma RoundFollows(n: NodeId, s: State, h: Handlers, g: int)
    requires n != END && n != START && n != APPROVAL && !h.confirm && !s.hasErrors
    requires Rank(n) >= Rank(RETRY) ==> FirstTrueIn(s, h, g)
    ensures var t := Handle(n, Transition(s, n, RUNNING), h);
            Next(n, t) == Following(n, Budget(s), g) && Budget(t) == Less(n, Budget(s))
  {
    var t := Handle(n, Transition(s, n, RUNNING), h);
    RoundGoesOn(n, s, h, g);
    BudgetAfter(n, s, h);
    NextIs(n, t);
    hide Next, Planned, Visits, Handle, FirstTrueIn, Budget;
    if n in {OBSERVE, UNDERSTAND, CONTEXT, REASON, PLAN, CAPABILITY_SELECT, EXECUTE, MEMORY, RESPONSE} {
      LinearNext(n, t);
    }
  }

  lemma {:induction false} WalkIsAhead(n: NodeId, s: State, h: Handlers, g: int)
    requires n != START && n != APPROVAL && !h.confirm && !s.hasErrors
    requires Rank(n) >= Rank(RETRY) ==> FirstTrueIn(s, h, g)
    ensures Walk(n, s, h).history == s.history + Ahead(n, Budget(s), g)
    decreases Budget(s), Rank(n)
  {
    hide Walk, Handle, FirstTrueIn, Ahead, Visits, Waits, Next, Budget, Following, Less, Planned, Transition;
    if n == END {
      NothingAhead(s, h, g);
    } else {
      var t, rest := Handle(n, Transition(s, n, RUNNING), h), g - One(n, VERIFY);
      RoundGoesOn(n, s, h, g);
      RoundFollows(n, s, h, g);
      OneMoreAhead(n, Budget(s), g);
      WalkDescends(n, s, h);
      WalkGoesOn(n, s, h);
      WalkIsAhead(Next(n, t), t, h, rest);
      Joined(s.history, n, Ahead(Next(n, t), Budget(t), rest));
    }
  }

  lemma Joined(a: seq<NodeId>, n: NodeId, b: seq<NodeId>)
    ensures (a + [n]) + b == a + ([n] + b)
  {
  }

  lemma NothingAhead(s: State, h: Handlers, g: int)
    ensures Walk(END, s, h).history == s.history + Ahead(END, Budget(s), g)
  {
  }

  /** A run without confirmation adds END to its walk, and completes. */
  lemma RunCompletes(s: State, h: Handlers)
    requires !h.confirm
    ensures Execute(s, h).history == Walk(OBSERVE, s.(status := RUNNING), h).history + [END]
    ensures Execute(s, h).status == COMPLETED
  {
    RunsEndOrPause(s, h);
    hide Walk, IsPath;
  }

  /** The whole path of a run without confirmation and errors whose `first`-th verification from now on is the first to
      succeed: it attempts as often as that takes or the retries allow, and closes behind the first success. */
  lemma RunIsExactly(s: State, h: Handlers, first: nat)
    requires !h.confirm && !s.hasErrors && first >= 1
    requires var v := Visits(s.history, VERIFY);
             h.report(v + first) && forall k :: v < k < v + first ==> !h.report(k)
    ensures var bound := if s.maxRetries - s.retryCount > 1 then s.maxRetries - s.retryCount else 1;
            Execute(s, h).history == s.history + (
              [OBSERVE, UNDERSTAND, CONTEXT, REASON, PLAN, POLICY, CAPABILITY_SELECT] +
              (if first <= bound then Attempts(first) else Attempts(bound) + [RETRY]) + [MEMORY, RESPONSE, END])
  {
    var s0 := s.(status := RUNNING);
    assert FirstTrueIn(s0, h, first) && Budget(s0) == Budget(s);
    hide Execute, Walk, Visits, Ahead, Attempts, FirstTrueIn;
    RunCompletes(s, h);
    WalkIsAhead(OBSERVE, s0, h, first);
    AheadIsAttempts(Budget(s), first);
    OpeningAhead(Budget(s), first);
    var front := [OBSERVE, UNDERSTAND, CONTEXT, REASON, PLAN, POLICY, CAPABILITY_SELECT];
    var attempts := Attempts(Min(Max(Budget(s), 1), first));
    Gathered(s.history, front, attempts, if first <= Max(Budget(s), 1) then [] else [RETRY]);
  }

  lemma Gathered(past: seq<NodeId>, front: seq<NodeId>, attempts: seq<NodeId>, retry: seq<NodeId>)
    ensures past + (front + (attempts + retry + [MEMORY, RESPONSE])) + [END] ==
            past + (front + (attempts + retry) + [MEMORY, RESPONSE, END])
    ensures attempts + [] == attempts
  {
  }

  lemma {:induction false} AttemptsVisit(k: nat)
    requires k >= 1
    ensures Visits(Attempts(k), EXECUTE) == k && Visits(Attempts(k), RETRY) == k - 1
  {
    if k > 1 {
      AttemptsVisit(k - 1);
      VisitsJoin([EXECUTE, VERIFY, RETRY], Attempts(k - 1), EXECUTE);
      VisitsJoin([EXECUTE, VERIFY, RETRY], Attempts(k - 1), RETRY);
    }
  }

  lemma VisitsJoin(a: seq<NodeId>, b: seq<NodeId>, m: NodeId)
    ensures Visits(a + b, m) == Visits(a, m) + Visits(b, m)
  {
  }

  lemma PathVisits(path: seq<NodeId>, m: NodeId)
    requires m == EXECUTE || m == RETRY
    ensures Visits([OBSERVE, UNDERSTAND, CONTEXT, REASON, PLAN, POLICY, CAPABILITY_SELECT] + path +
                   [MEMORY, RESPONSE, END], m) == Visits(path, m)
  {
    var front, back := [OBSERVE, UNDERSTAND, CONTEXT, REASON, PLAN, POLICY, CAPABILITY_SELECT], [MEMORY, RESPONSE, END];
    assert Visits(front, m) == 0 && Visits(back, m) == 0;
    hide Visits;
    VisitsJoin(front + path, back, m);
    VisitsJoin(front, path, m);
  }

  /** So EXECUTE is visited `first` times, and RETRY once less, as far as the retries go; and RETRY never if the first
      verification succeeds. */
  lemma ExecutesUntilVerified(s: State, h: Handlers, first: nat)
    requires !h.confirm && !s.hasErrors && first >= 1
    requires var v := Visits(s.history, VERIFY);
             h.report(v + first) && forall k :: v < k < v + first ==> !h.report(k)
    ensures var bound := if s.maxRetries - s.retryCount > 1 then s.maxRetries - s.retryCount else 1;
            var t := Execute(s, h);
            && Visits(t.history, EXECUTE) == Visits(s.history, EXECUTE) + (if first < bound then first else bound)
            && Visits(t.history, RETRY) == Visits(s.history, RETRY) + (if first - 1 < bound then first - 1 else bound)
  {
    var bound := if s.maxRetries - s.retryCount > 1 then s.maxRetries - s.retryCount else 1;
    var path := if first <= bound then Attempts(first) else Attempts(bound) + [RETRY];
    RunIsExactly(s, h, first);
    AttemptsVisit(if first <= bound then first else bound);
    VisitsAfter(Attempts(bound), RETRY, EXECUTE);
    VisitsAfter(Attempts(bound), RETRY, RETRY);
    hide Visits, Execute, Attempts;
    PathVisits(path, EXECUTE);
    PathVisits(path, RETRY);
    VisitsJoin(s.history, Execute(s, h).history[|s.history|..], EXECUTE);
    VisitsJoin(s.history, Execute(s, h).history[|s.history|..], RETRY);
    assert Execute(s, h).history[|s.history|..] ==
           [OBSERVE, UNDERSTAND, CONTEXT, REASON, PLAN, POLICY, CAPABILITY_SELECT] + path + [MEMORY, RESPONSE, END];
    assert Execute(s, h).history == s.history + Execute(s, h).history[|s.history|..];
  }
}

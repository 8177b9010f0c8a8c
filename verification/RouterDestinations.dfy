/** Where a notification ends up once the reader is done with it, told from what its payload and method say. */
module RouterDestinations {
  import opened Common
  import opened Notifications
  import opened Router
  import opened RouterConservation
  import opened RouterObjects
  import Goal

  // ----- what a notification names -------------------------------------------------------------------------

  /** The payload names the thread. */
  predicate OnThread(n: Notification, threadId: string) {
    var p := n.payload;
    || ((p.TurnStarted? || p.TurnCompleted? || p.GoalUpdated? || p.GoalCleared?) && p.threadId == threadId)
    || ((p.Direct? || p.Plain? || p.Unknown?) && p.thread == Some(threadId))
  }

  /** The payload names the turn; of an unrecognised one, a nested id counts only without one at the top. */
  predicate OnTurn(n: Notification, turnId: string) {
    var p := n.payload;
    || ((p.TurnStarted? || p.TurnCompleted?) && p.turn.id == turnId)
    || ((p.GoalUpdated? || p.Direct?) && p.turnId == Some(turnId))
    || (p.Unknown? && (p.turnId == Some(turnId) || (p.turnId.None? && p.nestedTurnId == Some(turnId))))
  }

  predicate NamesTurn(n: Notification) {
    var p := n.payload;
    || p.TurnStarted? || p.TurnCompleted?
    || ((p.GoalUpdated? || p.Direct?) && p.turnId.Some?)
    || (p.Unknown? && (p.turnId.Some? || p.nestedTurnId.Some?))
  }

  /** The completion of the login with that id. */
  predicate OnLogin(n: Notification, loginId: string) {
    && n.methodName == "account/login/completed"
    && ((n.payload.LoginCompleted? && n.payload.loginId == Some(loginId)) ||
        (n.payload.Unknown? && n.payload.login == Some(loginId)))
  }

  predicate CompletesLogin(n: Notification) {
    && n.methodName == "account/login/completed"
    && ((n.payload.LoginCompleted? && n.payload.loginId.Some?) || (n.payload.Unknown? && n.payload.login.Some?))
  }

  /** The payload tells of the goal itself. */
  predicate ChangesGoal(n: Notification) { n.payload.GoalUpdated? || n.payload.GoalCleared? }

  lemma IdsAreNamed(n: Notification, id: string)
    ensures OnThread(n, id) <==> ThreadIdOf(n) == Some(id)
    ensures OnTurn(n, id) <==> TurnIdOf(n) == Some(id)
    ensures OnLogin(n, id) <==> LoginIdOf(n) == Some(id)
    ensures NamesTurn(n) <==> TurnIdOf(n).Some?
    ensures CompletesLogin(n) <==> LoginIdOf(n).Some?
  {
  }

  /** The notification concerns goal `g`: that is the goal registered for its thread, it takes turns already or the
      notification tells of the goal itself, and a turn is named or the method is one of goals. */
  predicate Concerns(r: State, n: Notification, g: nat) {
    && !CompletesLogin(n)
    && (exists th :: th in r.goals && r.goals[th] == g && OnThread(n, th))
    && g in r.ops && (r.ops[g].routing || ChangesGoal(n))
    && (NamesTurn(n) || "thread/goal/" <= n.methodName)
  }

  /** The state once the reader is done with `n`. */
  function Handled(r: State, n: Notification): State
    requires r.reader.Idle?
  {
    Settle(Arrive(r, n))
  }

  // ----- one reader step after the other -------------------------------------------------------------------

  /** Where a notification that no goal takes and that is for no login ends up. */
  function TurnPlace(r: State, e: Entry): Place {
    match TurnIdOf(e.n)
    case None => GlobalQueue
    case Some(id) =>
      if id in r.turns.routes then Delivered(r.turns.routes[id])
      else if e.n.methodName == TURN_COMPLETED then Discarded(e.stamp)
      else Pending(TurnDesk, id)
  }

  /** The step leaves goals and the log of arrivals alone. */
  predicate SameGoals(r: State, t: State) {
    && t.arrived == r.arrived && |t.places| == |r.places|
    && t.ops == r.ops && t.goals == r.goals && t.goalQueues == r.goalQueues
  }

  /** Looking a queue up finds it, or keeps the notification as pending. */
  lemma LookUpPlaces(r: State, d: DeskName, id: string, e: Entry)
    requires e.stamp < |r.places| && r.places[e.stamp] == InReader
    ensures var t, routes := LookUp(r, d, id, e), DeskOf(r, d).routes;
            && SameGoals(r, t)
            && (if id in routes then t.places == r.places && t.reader == Putting(e, routes[id])
                else t.reader.Idle? && t.places[e.stamp] == Pending(d, id))
  {
    hide Get;
    var t := LookUp(r, d, id, e);
    if id in DeskOf(r, d).routes {
      assert t == r.(reader := Putting(e, DeskOf(r, d).routes[id]));
    } else {
      assert t.places == MoveAll(r.places, InReader, Pending(d, id));
    }
  }

  lemma AtTurnPlaces(r: State, e: Entry)
    requires r.reader == AtTurn(e) && e.stamp < |r.places| && r.places[e.stamp] == InReader
    ensures var t := StepAtTurn(r);
            && SameGoals(r, t)
            && (if TurnPlace(r, e).Delivered?
                then t.places == r.places && t.reader == Putting(e, TurnPlace(r, e).q)
                else t.reader.Idle? && t.places[e.stamp] == TurnPlace(r, e))
  {
    if TurnIdOf(e.n).Some? {
      LookUpPlaces(r, TurnDesk, TurnIdOf(e.n).value, e);
    }
    hide LookUp, TurnIdOf, MoveAll;
  }

  lemma PuttingPlaces(r: State, e: Entry, q: nat)
    requires r.reader == Putting(e, q) && e.stamp < |r.places| && r.places[e.stamp] == InReader
    ensures var t := ReaderStep(r);
            SameGoals(r, t) && t.reader.Idle? && t.places[e.stamp] == Delivered(q)
  {
  }

  lemma AtTurnSettles(r: State, e: Entry)
    requires r.reader == AtTurn(e) && e.stamp < |r.places| && r.places[e.stamp] == InReader
    ensures var t := Settle(r);
            SameGoals(r, t) && t.reader.Idle? && t.places[e.stamp] == TurnPlace(r, e)
  {
    AtTurnPlaces(r, e);
    var a := ReaderStep(r);
    assert a == StepAtTurn(r);
    if a.reader.Putting? {
      PuttingPlaces(a, e, a.reader.q);
    }
    hide ReaderStep, Settle, TurnPlace, StepAtTurn;
    SettleTwice(r);
  }

  /** The goal that takes what the reader has in hand. */
  function TakenBy(r: State, n: Notification): Option<nat> {
    if ThreadIdOf(n).None? || ThreadIdOf(n).value !in r.goals then None
    else
      var g := r.goals[ThreadIdOf(n).value];
      if g in r.ops && ForGoal(n) && Goal.Accepts(r.ops[g], n) then Some(g) else None
  }

  /** The first step of a notification that is for no login. */
  lemma ArrivalShape(r: State, n: Notification)
    requires r.reader.Idle? && LoginIdOf(n).None?
    ensures var e, th := Entry(|r.arrived|, n), ThreadIdOf(n);
            Arrive(r, n) == Arrived(r, n).(reader :=
              if th.None? then AtTurn(e)
              else AtGoal(e, if th.value in r.goals then Some(r.goals[th.value]) else None))
  {
  }

  lemma NoGoalTakes(r: State, n: Notification)
    requires r.reader.Idle? && |r.places| == |r.arrived| && LoginIdOf(n).None? && TakenBy(r, n).None?
    ensures var t := Handled(r, n);
            && SameGoals(Arrived(r, n), t) && t.reader.Idle?
            && t.places[|r.arrived|] == TurnPlace(r, Entry(|r.arrived|, n))
  {
    ArrivalShape(r, n);
    var a, e := Arrive(r, n), Entry(|r.arrived|, n);
    assert a.places[e.stamp] == InReader;
    if a.reader.AtGoal? {
      assert ReaderStep(a) == StepAtGoal(a) && StepAtGoal(a) == a.(reader := AtTurn(e));
      SettleOnce(a);
    }
    hide Arrive, ReaderStep, StepAtGoal, Settle, TurnPlace;
    AtTurnSettles(a.(reader := AtTurn(e)), e);
    SamePlace(r, a.(reader := AtTurn(e)), e);
  }

  lemma SamePlace(r: State, t: State, e: Entry)
    requires t.turns == r.turns
    ensures TurnPlace(t, e) == TurnPlace(r, e)
  {
  }

  lemma GoalStepShape(r: State, e: Entry, g: nat)
    requires r.reader == AtGoal(e, Some(g)) && e.stamp < |r.places| && r.places[e.stamp] == InReader
    requires g in r.ops && ForGoal(e.n) && Goal.Accepts(r.ops[g], e.n)
    ensures var t, op := StepAtGoal(r), Goal.Observe(r.ops[g], e.n);
            && t.reader == CheckingGoal(g) && |t.places| == |r.places| && t.places[e.stamp] == GoalQueue(g)
            && t.ops == r.ops[g := op] && t.goalQueues == r.goalQueues[g := Get(r.goalQueues, g) + [e]]
            && t.goals == r.goals && SameDesks(r, t)
  {
    hide Goal.Observe, Goal.Accepts, ForGoal;
  }

  lemma CheckingShape(r: State, g: nat)
    requires r.reader == CheckingGoal(g) && g in r.ops
    requires r.ops[g].threadId in r.goals && r.goals[r.ops[g].threadId] == g
    ensures var t := StepChecking(r);
            && t.reader.Idle? && t.places == r.places && t.ops == r.ops && t.goalQueues == r.goalQueues
            && t.goals == (if r.ops[g].finished then r.goals - {r.ops[g].threadId} else r.goals) && SameDesks(r, t)
  {
  }

  predicate SameDesks(r: State, t: State) {
    t.turns == r.turns && t.logins == r.logins && t.delivered == r.delivered && t.global == r.global
  }

  lemma ObserveKeepsThread(op: Goal.Op, n: Notification)
    ensures Goal.Observe(op, n).threadId == op.threadId
  {
  }

  /** The goal that takes a notification has observed it, has it in its queue, and keeps its route until it is over. */
  lemma GoalTakes(r: State, n: Notification, g: nat)
    requires r.reader.Idle? && |r.places| == |r.arrived| && LoginIdOf(n).None? && TakenBy(r, n) == Some(g)
    requires g in r.ops && ThreadIdOf(n) == Some(r.ops[g].threadId)
    ensures var t, e, op := Handled(r, n), Entry(|r.arrived|, n), Goal.Observe(r.ops[g], n);
            && t.reader.Idle? && |t.places| == |r.places| + 1 && t.places[|r.arrived|] == GoalQueue(g)
            && t.ops == r.ops[g := op]
            && t.goalQueues == r.goalQueues[g := Get(r.goalQueues, g) + [e]]
            && t.goals == (if op.finished then r.goals - {op.threadId} else r.goals)
            && SameDesks(r, t)
  {
    hide Settle, StepAtGoal, StepChecking, Goal.Observe, Goal.Accepts, ForGoal, Arrive;
    ArrivalShape(r, n);
    var a, e := Arrive(r, n), Entry(|r.arrived|, n);
    GoalStepShape(a, e, g);
    ObserveKeepsThread(r.ops[g], n);
    CheckingShape(StepAtGoal(a), g);
    assert ReaderStep(a) == StepAtGoal(a) && ReaderStep(ReaderStep(a)) == StepChecking(StepAtGoal(a));
    hide ReaderStep;
    SettleTwice(a);
  }

  /** A login notification goes to the queue of its login, or is kept. */
  lemma LoginTakes(r: State, n: Notification, id: string)
    requires r.reader.Idle? && |r.places| == |r.arrived| && LoginIdOf(n) == Some(id)
    ensures var t := Handled(r, n);
            && SameGoals(Arrived(r, n), t) && t.reader.Idle?
            && t.places[|r.arrived|] ==
               if id in r.logins.routes then Delivered(r.logins.routes[id]) else Pending(LoginDesk, id)
  {
    var e, t := Entry(|r.arrived|, n), Arrived(r, n);
    LookUpPlaces(t, LoginDesk, id, e);
    var a := Arrive(r, n);
    assert a == LookUp(t, LoginDesk, id, e);
    hide LookUp, Arrive;
    if a.reader.Putting? {
      PuttingPlaces(a, e, a.reader.q);
      hide ReaderStep, Settle;
      SettleTwice(a);
    }
  }

  // ----- what the payload decides ------------------------------------------------------------------------------

  lemma ConcernedGoalTakes(r: State, n: Notification, g: nat)
    requires Inv(r)
    ensures Concerns(r, n, g) <==> LoginIdOf(n).None? && TakenBy(r, n) == Some(g)
    ensures Concerns(r, n, g) ==> g in r.ops && ThreadIdOf(n) == Some(r.ops[g].threadId)
  {
    forall id ensures OnThread(n, id) <==> ThreadIdOf(n) == Some(id) {
      IdsAreNamed(n, id);
    }
    IdsAreNamed(n, "");
    hide OnThread, OnTurn, OnLogin, NamesTurn, CompletesLogin, ThreadIdOf, TurnIdOf, LoginIdOf;
  }

  /** Over every interleaving, a notification that arrives while the reader is idle ends up in the queue of a goal
      exactly if it concerns that goal: with no goal registered for its thread, never. */
  lemma ToGoalExactlyWhen(actions: seq<Action>, n: Notification, g: nat)
    requires Run(INIT, actions).reader.Idle?
    ensures var r := Run(INIT, actions);
            var t := Handled(r, n);
            && t.reader.Idle? && |t.places| == |r.arrived| + 1
            && (t.places[|r.arrived|] == GoalQueue(g) <==> Concerns(r, n, g))
  {
    Reachable(actions);
    var r := Run(INIT, actions);
    ConcernedGoalTakes(r, n, g);
    if LoginIdOf(n).Some? {
      LoginTakes(r, n, LoginIdOf(n).value);
    } else if TakenBy(r, n).Some? {
      ConcernedGoalTakes(r, n, TakenBy(r, n).value);
      GoalTakes(r, n, TakenBy(r, n).value);
    } else {
      NoGoalTakes(r, n);
    }
    hide Inv, Handled, Concerns;
  }

  /** The goal that it concerns has observed it and queued it behind what it had, and its route is gone exactly if it
      is over now; nothing else has changed. */
  lemma ConcernedGoalObserves(actions: seq<Action>, n: Notification, g: nat)
    requires Run(INIT, actions).reader.Idle? && Concerns(Run(INIT, actions), n, g)
    ensures var r := Run(INIT, actions);
            var t, op := Handled(r, n), Goal.Observe(r.ops[g], n);
            && t.ops == r.ops[g := op]
            && t.goalQueues == r.goalQueues[g := Get(r.goalQueues, g) + [Entry(|r.arrived|, n)]]
            && t.goals == (if op.finished then r.goals - {op.threadId} else r.goals)
            && SameDesks(r, t)
  {
    Reachable(actions);
    var r := Run(INIT, actions);
    ConcernedGoalTakes(r, n, g);
    hide Inv, Handled, Concerns;
    GoalTakes(r, n, g);
  }

  /** Over every interleaving, the completion of a login goes to the login's queue, or is kept for it. */
  lemma LoginDestination(actions: seq<Action>, n: Notification, id: string)
    requires Run(INIT, actions).reader.Idle? && OnLogin(n, id)
    ensures var r := Run(INIT, actions);
            var t := Handled(r, n);
            && t.ops == r.ops && t.goals == r.goals && |t.places| == |r.arrived| + 1
            && t.places[|r.arrived|] ==
               if id in r.logins.routes then Delivered(r.logins.routes[id]) else Pending(LoginDesk, id)
  {
    Reachable(actions);
    IdsAreNamed(n, id);
    LoginTakes(Run(INIT, actions), n, id);
  }

  /** Over every interleaving, what is for no login and concerns no goal goes to the queue of the turn it names; if that
      turn has none, its completion is discarded and anything else is kept for it.  What names no turn goes to the
      global queue. */
  lemma TurnDestination(actions: seq<Action>, n: Notification)
    requires Run(INIT, actions).reader.Idle?
    requires !CompletesLogin(n) && forall g :: !Concerns(Run(INIT, actions), n, g)
    ensures var r := Run(INIT, actions);
            var t, i := Handled(r, n), |r.arrived|;
            && t.ops == r.ops && t.goals == r.goals && |t.places| == i + 1
            && (!NamesTurn(n) ==> t.places[i] == GlobalQueue)
            && forall id :: OnTurn(n, id) ==>
                 t.places[i] == if id in r.turns.routes then Delivered(r.turns.routes[id])
                                else if n.methodName == "turn/completed" then Discarded(i)
                                else Pending(TurnDesk, id)
  {
    Reachable(actions);
    var r := Run(INIT, actions);
    IdsAreNamed(n, "");
    if TakenBy(r, n).Some? {
      ConcernedGoalTakes(r, n, TakenBy(r, n).value);
      assert false;
    }
    NoGoalTakes(r, n);
    forall id | OnTurn(n, id)
      ensures TurnIdOf(n) == Some(id)
    {
      IdsAreNamed(n, id);
    }
    hide Inv, Handled, Concerns, OnTurn, NamesTurn, TurnIdOf;
  }

  /** A goal is registered for a thread that has none, with a fresh operation that takes turns if it is told to, and
      activation lets it take them; where a thread has one, it keeps it. */
  lemma RegisteredGoal(r: State, threadId: string, routing: bool)
    ensures var t, g := Step(r, RegisterGoalAction(threadId, routing)), r.next;
            if threadId in r.goals then t == r else
            && t.goals == r.goals[threadId := g] && g in t.ops
            && t.ops[g].threadId == threadId && t.ops[g].routing == routing && !t.ops[g].finished
            && var u := Step(t, ActivateGoalAction(g));
               u.goals == t.goals && g in u.ops && u.ops[g] == t.ops[g].(routing := true)
  {
  }

  /** Unregistering a goal takes away the route that leads to it, if one still does, and no other. */
  lemma UnregisteredGoalHasNoRoute(r: State, g: nat)
    requires Inv(r)
    ensures var t := Step(r, UnregisterGoalAction(g));
            && (forall th :: th in t.goals <==> th in r.goals && r.goals[th] != g)
            && (forall th :: th in t.goals ==> t.goals[th] == r.goals[th])
            && t.places == r.places && t.ops == r.ops
  {
    hide Accurate, Belongs, Ordered, Accounted;
  }

  // ----- after a route is gone ---------------------------------------------------------------------------------

  /** No route leads to the queue, and the reader has nothing in hand for it. */
  ghost predicate Detached(r: State, q: nat) {
    && q < r.next
    && (forall id :: id in r.turns.routes ==> r.turns.routes[id] != q)
    && (forall id :: id in r.logins.routes ==> r.logins.routes[id] != q)
    && (r.reader.Putting? ==> r.reader.q != q)
  }

  /** What the queue has been given, and what its registration still has to replay. */
  function Given(r: State, q: nat): seq<Entry> { Get(r.delivered, q) + Get(r.replay, q) }

  /** Unregistering takes the id's route away and no other one, so no route leads to its queue any more. */
  lemma UnregisteredIdHasNoRoute(r: State, d: DeskName, id: string)
    requires Inv(r)
    ensures var t := Step(r, UnregisterAction(d, id));
            && id !in DeskOf(t, d).routes && t.places == r.places && t.reader == r.reader
            && (forall x, y :: (x, y) != (d, id) ==>
                  (y in DeskOf(t, x).routes <==> y in DeskOf(r, x).routes) &&
                  (y in DeskOf(r, x).routes ==> DeskOf(t, x).routes[y] == DeskOf(r, x).routes[y]))
            && (id in DeskOf(r, d).routes && (r.reader.Putting? ==> r.reader.q != DeskOf(r, d).routes[id]) ==>
                  Detached(t, DeskOf(r, d).routes[id]))
  {
    hide Accurate, Belongs, Ordered, Accounted;
  }

  /** Routes, queues and replays are the same. */
  predicate SameQueues(r: State, t: State) {
    && t.turns.routes == r.turns.routes && t.logins.routes == r.logins.routes
    && t.next == r.next && t.delivered == r.delivered && t.replay == r.replay
  }

  /** If the reader has something in hand for a queue, it found the queue by a route. */
  ghost predicate HandFollowsRoute(t: State) {
    t.reader.Putting? ==>
      (exists id :: id in t.turns.routes && t.turns.routes[id] == t.reader.q) ||
      (exists id :: id in t.logins.routes && t.logins.routes[id] == t.reader.q)
  }

  lemma SameQueuesKeepDetached(r: State, t: State, q: nat)
    requires Detached(r, q) && SameQueues(r, t) && (t.reader == r.reader || HandFollowsRoute(t))
    ensures Detached(t, q) && Given(t, q) == Given(r, q)
  {
  }

  lemma LookUpFollowsRoute(r: State, d: DeskName, id: string, e: Entry)
    ensures SameQueues(r, LookUp(r, d, id, e)) && HandFollowsRoute(LookUp(r, d, id, e))
  {
    hide MoveAll, Get;
    if id in DeskOf(r, d).routes {
      assert LookUp(r, d, id, e) == r.(reader := Putting(e, DeskOf(r, d).routes[id]));
    }
  }

  lemma AtTurnFollowsRoute(r: State)
    requires r.reader.AtTurn?
    ensures SameQueues(r, StepAtTurn(r)) && HandFollowsRoute(StepAtTurn(r))
  {
    if TurnIdOf(r.reader.e.n).Some? {
      LookUpFollowsRoute(r, TurnDesk, TurnIdOf(r.reader.e.n).value, r.reader.e);
    }
    hide LookUp, MoveAll, TurnIdOf;
  }

  lemma AtGoalKeepsQueues(r: State)
    requires r.reader.AtGoal?
    ensures SameQueues(r, StepAtGoal(r)) && !StepAtGoal(r).reader.Putting?
  {
    hide MoveAll, Get, Goal.Observe, Goal.Accepts, ForGoal;
  }

  lemma PuttingKeepsDetached(r: State, q: nat)
    requires Detached(r, q) && r.reader.Putting?
    ensures Detached(StepPutting(r), q) && Given(StepPutting(r), q) == Given(r, q)
  {
    hide MoveAll;
  }

  lemma ReaderKeepsDetached(r: State, q: nat)
    requires Detached(r, q)
    ensures var t := ReaderStep(r); Detached(t, q) && Given(t, q) == Given(r, q)
  {
    match r.reader
    case AtGoal(_, _) =>
      AtGoalKeepsQueues(r);
      SameQueuesKeepDetached(r, StepAtGoal(r), q);
    case AtTurn(_) =>
      AtTurnFollowsRoute(r);
      SameQueuesKeepDetached(r, StepAtTurn(r), q);
    case Putting(_, _) => PuttingKeepsDetached(r, q);
    case CheckingGoal(_) => SameQueuesKeepDetached(r, StepChecking(r), q);
    case _ =>
  }

  lemma RegisterKeepsDetached(r: State, d: DeskName, id: string, q: nat)
    requires Detached(r, q)
    ensures var t := Register(r, d, id); Detached(t, q) && Given(t, q) == Given(r, q)
  {
  }

  lemma ReplayKeepsDetached(r: State, p: nat, q: nat)
    requires Detached(r, q)
    ensures var t := ReplayOne(r, p); Detached(t, q) && Given(t, q) == Given(r, q)
  {
    var left := Get(r.replay, q);
    if left != [] {
      assert [left[0]] + left[1..] == left;
      assert (Get(r.delivered, q) + [left[0]]) + left[1..] == Get(r.delivered, q) + left;
    }
  }

  lemma ArrivalFollowsRoute(r: State, n: Notification)
    requires r.reader.Idle?
    ensures SameQueues(r, Arrive(r, n)) && HandFollowsRoute(Arrive(r, n))
  {
    var e := Entry(|r.arrived|, n);
    var t := r.(arrived := r.arrived + [n], places := r.places + [InReader], reader := AtTurn(e));
    if LoginIdOf(n).Some? {
      LookUpFollowsRoute(t, LoginDesk, LoginIdOf(n).value, e);
    }
    hide LookUp, LoginIdOf, ThreadIdOf;
  }

  lemma UnregisterKeepsDetached(r: State, d: DeskName, id: string, q: nat)
    requires Detached(r, q)
    ensures var t := Unregister(r, d, id); Detached(t, q) && Given(t, q) == Given(r, q)
  {
  }

  /** What callers and failures do to goals leaves the queues of turns and logins alone. */
  lemma GoalActionKeepsDetached(r: State, a: Action, q: nat)
    requires Detached(r, q)
    requires a.RegisterGoalAction? || a.ActivateGoalAction? || a.FinishGoalAction? || a.UnregisterGoalAction?
    ensures var t := Step(r, a); Detached(t, q) && Given(t, q) == Given(r, q)
  {
    hide Goal.Finish, Goal.NewOp;
    var t := Step(r, a);
    assert t == r.(goals := t.goals, ops := t.ops, next := t.next) && r.next <= t.next;
  }

  lemma FailureKeepsDetached(r: State, q: nat)
    requires Detached(r, q) && r.reader.Idle?
    ensures Detached(FailAll(r), q) && Given(FailAll(r), q) == Given(r, q)
  {
    hide LoseAll;
  }

  lemma StepKeepsDetached(r: State, a: Action, q: nat)
    requires Detached(r, q)
    ensures var t := Step(r, a); Detached(t, q) && Given(t, q) == Given(r, q)
  {
    hide Register, ReplayOne, Arrive, ReaderStep, Unregister, FailAll, Detached, Given;
    hide UpdateGoal, RegisterGoal, DropGoal;
    match a
    case ReaderAction => ReaderKeepsDetached(r, q);
    case RegisterAction(d, id) => RegisterKeepsDetached(r, d, id, q);
    case UnregisterAction(d, id) => UnregisterKeepsDetached(r, d, id, q);
    case ReplayAction(p) => ReplayKeepsDetached(r, p, q);
    case ArriveAction(n) =>
      if r.reader.Idle? {
        ArrivalFollowsRoute(r, n);
        SameQueuesKeepDetached(r, Arrive(r, n), q);
      }
    case FailAllAction => if r.reader.Idle? { FailureKeepsDetached(r, q); }
    case _ => GoalActionKeepsDetached(r, a, q);
  }

  /** Over every further interleaving, a queue without a route is given nothing but the rest of its replay. */
  lemma {:induction false} DetachedQueueIsClosed(r: State, actions: seq<Action>, q: nat)
    requires Detached(r, q)
    ensures Given(Run(r, actions), q) == Given(r, q) && Detached(Run(r, actions), q)
    decreases |actions|
  {
    if actions != [] {
      DetachedQueueIsClosed(r, actions[..|actions|-1], q);
      StepKeepsDetached(Run(r, actions[..|actions|-1]), actions[|actions|-1], q);
    }
  }

  /** When the transport fails, nothing is kept and no goal or login has a route; the reader takes nothing from then on,
      whatever the callers do. */
  lemma {:induction false} FailureIsFinal(r: State, actions: seq<Action>)
    requires r.reader.Idle?
    ensures var t := Step(r, FailAllAction);
            && t.goals == map[] && t.logins.routes == map[]
            && t.turns.pending == map[] && t.logins.pending == map[]
            && forall i :: 0 <= i < |t.places| ==> !t.places[i].Pending?
    ensures var z := Run(Step(r, FailAllAction), actions);
            z.reader.Dead? && z.arrived == r.arrived
    decreases |actions|
  {
    if actions != [] {
      FailureIsFinal(r, actions[..|actions|-1]);
      DeadReaderTakesNothing(Run(Step(r, FailAllAction), actions[..|actions|-1]), actions[|actions|-1]);
    }
  }

  lemma RegisterLeavesReader(r: State, d: DeskName, id: string)
    ensures Register(r, d, id).reader == r.reader && Register(r, d, id).arrived == r.arrived
  {
    hide MoveAll, Get;
  }

  lemma ReplayLeavesReader(r: State, q: nat)
    ensures ReplayOne(r, q).reader == r.reader && ReplayOne(r, q).arrived == r.arrived
  {
    hide MoveOne, Get;
  }

  lemma GoalCallersLeaveReader(r: State, a: Action)
    requires a.RegisterGoalAction? || a.ActivateGoalAction? || a.FinishGoalAction? || a.UnregisterGoalAction?
    ensures Step(r, a).reader == r.reader && Step(r, a).arrived == r.arrived
  {
    hide Goal.Finish, Goal.NewOp;
  }

  lemma DeadReaderTakesNothing(r: State, a: Action)
    requires r.reader.Dead?
    ensures Step(r, a).reader.Dead? && Step(r, a).arrived == r.arrived
  {
    hide Register, ReplayOne, RegisterGoal, UpdateGoal, DropGoal, Arrive, FailAll;
    match a
    case ReaderAction => assert ReaderStep(r) == r;
    case RegisterAction(d, id) => RegisterLeavesReader(r, d, id);
    case ReplayAction(q) => ReplayLeavesReader(r, q);
    case UnregisterAction(_, _) =>
    case ArriveAction(_) =>
    case FailAllAction =>
    case _ => GoalCallersLeaveReader(r, a);
  }
}

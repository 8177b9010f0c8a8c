/** The message router as an object.  Its methods follow the client's code and are proved to do what
    the transition system says when nothing else runs in between.  Queues are rows of a table. */
module RouterObjects {
  import opened Common
  import opened Notifications
  import opened Router
  import Goal
  import W = RouterWaiters

  /** Run the reader until it has finished the notification in its hand. */
  function Settle(r: State): State
    decreases Work(r.reader)
  {
    if Work(r.reader) == 0 then r else
    StepReducesWork(r);
    Settle(ReaderStep(r))
  }

  lemma StepReducesWork(r: State)
    requires Work(r.reader) > 0
    ensures Work(ReaderStep(r).reader) < Work(r.reader)
  {
    hide MoveAll, Get, TurnIdOf, Goal.Observe, Goal.Accepts, ForGoal;
    match r.reader
    case AtGoal(_, _) => assert Work(StepAtGoal(r).reader) < 3;
    case AtTurn(_) => assert Work(StepAtTurn(r).reader) < 2;
    case _ =>
  }

  function Work(reader: Reader): nat {
    match reader
    case AtGoal(_, _) => 3
    case AtTurn(_) => 2
    case Putting(_, _) => 1
    case CheckingGoal(_) => 1
    case _ => 0
  }

  /** A notification that is not for a login is taken into the reader's hand. */
  lemma ArriveTakes(r: State, n: Notification)
    requires r.reader.Idle? && LoginIdOf(n).None?
    ensures var a, e, th := Arrive(r, n), Entry(|r.arrived|, n), ThreadIdOf(n);
            && a == r.(arrived := r.arrived + [n], places := a.places, reader := a.reader)
            && a.reader == if th.None? then AtTurn(e)
                           else AtGoal(e, if th.value in r.goals then Some(r.goals[th.value]) else None)
  {
    hide LookUp, LoginIdOf, ThreadIdOf;
  }

  lemma SettleOnce(r: State)
    requires Work(r.reader) > 0
    ensures Settle(r) == Settle(ReaderStep(r))
  {
  }

  lemma SettleTwice(r: State)
    requires Work(r.reader) > 0 && (Work(ReaderStep(r).reader) > 0 ==> Work(ReaderStep(ReaderStep(r)).reader) == 0)
    ensures Settle(r) == if Work(ReaderStep(r).reader) > 0 then ReaderStep(ReaderStep(r)) else ReaderStep(r)
  {
    var a := ReaderStep(r);
    assert Settle(r) == Settle(a);
    assert Settle(a) == if Work(a.reader) == 0 then a else Settle(ReaderStep(a));
    if Work(a.reader) > 0 {
      assert Settle(ReaderStep(a)) == ReaderStep(a);
    }
  }

  /** A login notification goes to its queue, or is kept if there is none. */
  lemma SettleLogin(r: State, n: Notification, id: string)
    requires r.reader.Idle? && LoginIdOf(n) == Some(id)
    ensures var a := Arrive(r, n);
            if id in r.logins.routes
            then a.reader == Putting(Entry(|r.arrived|, n), r.logins.routes[id]) && a.logins == r.logins &&
                 Settle(a) == StepPutting(a) && StepPutting(a).reader.Idle?
            else a.reader.Idle? && Settle(a) == a && a.logins.routes == r.logins.routes &&
                 a.logins.pending ==
                 r.logins.pending[id := Get(r.logins.pending, id) + [Entry(|r.arrived|, n)]]
    ensures var a := Arrive(r, n);
            && a.turns == r.turns && a.goals == r.goals && a.ops == r.ops && a.goalQueues == r.goalQueues
            && a.delivered == r.delivered && a.global == r.global && a.next == r.next
            && |a.arrived| == |r.arrived| + 1
  {
  }

  lemma AcceptsWhen(op: Goal.Op, n: Notification)
    ensures Goal.Accepts(op, n) <==> op.routing || n.payload.GoalUpdated? || n.payload.GoalCleared?
  {
  }

  function ReplayAll(r: State, q: nat): State
    decreases |Get(r.replay, q)|
  {
    var left := Get(r.replay, q);
    if left == [] then r else ReplayAll(ReplayOne(r, q), q)
  }

  class MessageRouter {
    var turnRoutes: map<string, nat>
    var pendingTurns: map<string, seq<Entry>>
    var loginRoutes: map<string, nat>
    var pendingLogins: map<string, seq<Entry>>
    var goalRoutes: map<string, nat>
    var ops: map<nat, Goal.Op>
    var goalQueues: map<nat, seq<Entry>>
    var queues: map<nat, seq<Entry>>
    var global: seq<Entry>
    var next: nat
    /** The position of the next arrival. */
    var clock: nat

    /** The state of the transition system that this object is in. */
    ghost var model: State

    ghost predicate Valid()
      reads this
    {
      && model.turns == Desk(turnRoutes, pendingTurns)
      && model.logins == Desk(loginRoutes, pendingLogins)
      && model.goals == goalRoutes
      && model.ops == ops
      && model.goalQueues == goalQueues
      && model.delivered == queues
      && model.global == global
      && model.next == next
      && |model.arrived| == clock
    }

    constructor ()
      ensures Valid() && model == INIT
    {
      turnRoutes, pendingTurns, loginRoutes, pendingLogins := map[], map[], map[], map[];
      goalRoutes, ops, goalQueues, queues, global, next, clock := map[], map[], map[], map[], [], 0, 0;
      model := INIT;
    }

    /** Put the notification in the reader's hand into a queue. */
    method PutInto(q: nat, e: Entry)
      requires Valid() && model.reader == Putting(e, q)
      modifies this
      ensures Valid() && model == StepPutting(old(model))
    {
      queues := queues[q := Get(queues, q) + [e]];
      model := StepPutting(model);
    }

    /** The replay of a registering caller: `rest` goes into the new queue, oldest first. */
    method ReplayInto(q: nat, rest: seq<Entry>)
      requires Valid() && Get(model.replay, q) == rest
      modifies this
      ensures Valid() && model == ReplayAll(old(model), q)
    {
      for i := 0 to |rest|
        invariant Valid()
        invariant Get(model.replay, q) == rest[i..]
        invariant ReplayAll(model, q) == old(ReplayAll(model, q))
      {
        queues := queues[q := Get(queues, q) + [rest[i]]];
        model := ReplayOne(model, q);
      }
    }

    method RegisterTurn(id: string)
      requires Valid()
      modifies this
      ensures Valid()
      ensures model == if id in old(turnRoutes) then old(model)
                       else ReplayAll(Register(old(model), TurnDesk, id), old(next))
    {
      if id in turnRoutes {
        return;
      }
      var q := next;
      var pending := Get(pendingTurns, id);
      pendingTurns := pendingTurns - {id};
      turnRoutes := turnRoutes[id := q];
      queues, next := queues[q := []], q + 1;
      model := Register(model, TurnDesk, id);
      ReplayInto(q, pending);
    }

    method RegisterLogin(id: string)
      requires Valid()
      modifies this
      ensures Valid()
      ensures model == if id in old(loginRoutes) then old(model)
                       else ReplayAll(Register(old(model), LoginDesk, id), old(next))
    {
      if id in loginRoutes {
        return;
      }
      var q := next;
      var pending := Get(pendingLogins, id);
      pendingLogins := pendingLogins - {id};
      loginRoutes := loginRoutes[id := q];
      queues, next := queues[q := []], q + 1;
      model := Register(model, LoginDesk, id);
      ReplayInto(q, pending);
    }

    method UnregisterTurn(id: string)
      requires Valid()
      modifies this
      ensures Valid() && model == Unregister(old(model), TurnDesk, id)
    {
      turnRoutes := turnRoutes - {id};
      model := Unregister(model, TurnDesk, id);
    }

    method UnregisterLogin(id: string)
      requires Valid()
      modifies this
      ensures Valid() && model == Unregister(old(model), LoginDesk, id)
    {
      loginRoutes := loginRoutes - {id};
      model := Unregister(model, LoginDesk, id);
    }

    method RegisterGoal(threadId: string, routing: bool) returns (g: Option<nat>)
      requires Valid()
      modifies this
      ensures Valid() && model == Router.RegisterGoal(old(model), threadId, routing)
      ensures g == if threadId in old(goalRoutes) then None else Some(old(next))
    {
      if threadId in goalRoutes {
        return None;
      }
      g := Some(next);
      goalRoutes := goalRoutes[threadId := next];
      ops := ops[next := Goal.NewOp(threadId).(routing := routing)];
      next := next + 1;
      model := Router.RegisterGoal(model, threadId, routing);
    }

    method UnregisterGoal(g: nat)
      requires Valid()
      modifies this
      ensures Valid() && model == DropGoal(old(model), g)
    {
      if g in ops && ops[g].threadId in goalRoutes && goalRoutes[ops[g].threadId] == g {
        goalRoutes := goalRoutes - {ops[g].threadId};
      }
      model := DropGoal(model, g);
    }

    method RouteToLogin(n: Notification, id: string)
      requires Valid() && model.reader.Idle? && LoginIdOf(n) == Some(id)
      modifies this
      ensures Valid() && model.reader.Idle?
      ensures model == Settle(Arrive(old(model), n))
    {
      var e := Entry(clock, n);
      clock := clock + 1;
      SettleLogin(model, n, id);
      model := Arrive(model, n);
      if id in loginRoutes {
        PutInto(loginRoutes[id], e);
      } else {
        pendingLogins := pendingLogins[id := Get(pendingLogins, id) + [e]];
      }
    }

    /** Deliver one notification, as the reader thread does between two messages. */
    method RouteNotification(n: Notification)
      requires Valid() && model.reader.Idle?
      modifies this
      ensures Valid() && model.reader.Idle?
      ensures model == Settle(Arrive(old(model), n))
    {
      hide LookUp, StepAtTurn, StepAtGoal, Settle, Arrive;
      var loginId := LoginIdOf(n);
      if loginId.Some? {
        RouteToLogin(n, loginId.value);
        return;
      }
      var e := Entry(clock, n);
      clock := clock + 1;
      ArriveTakes(model, n);
      model := Arrive(model, n);
      if ThreadIdOf(n).Some? {
        var taken := OfferToGoal(ThreadIdOf(n).value, e);
        if taken {
          return;
        }
        SettleOnce(Arrive(old(model), n));
      }
      RouteToTurn(e);
    }

    /** Offer a notification to the goal operation of its thread. */
    method OfferToGoal(threadId: string, e: Entry) returns (taken: bool)
      requires Valid()
      requires model.reader == AtGoal(e, if threadId in goalRoutes then Some(goalRoutes[threadId]) else None)
      modifies this
      ensures Valid()
      ensures taken <==>
                && threadId in old(goalRoutes) && old(goalRoutes)[threadId] in old(ops)
                && (TurnIdOf(e.n).Some? || "thread/goal/" <= e.n.methodName)
                && (old(ops)[old(goalRoutes)[threadId]].routing || e.n.payload.GoalUpdated? || e.n.payload.GoalCleared?)
      ensures taken ==> model.reader.Idle? && model == Settle(old(model))
      ensures !taken ==> model.reader == AtTurn(e) && model == StepAtGoal(old(model))
    {
      hide Goal.Observe, Goal.Accepts, MoveAll, DropGoal;
      if threadId !in goalRoutes {
        model := StepAtGoal(model);
        return false;
      }
      var g := goalRoutes[threadId];
      if g !in ops {
        model := StepAtGoal(model);
        return false;
      }
      AcceptsWhen(ops[g], e.n);
      if !ForGoal(e.n) || !Goal.Accepts(ops[g], e.n) {
        model := StepAtGoal(model);
        return false;
      }
      hide StepAtGoal, StepChecking, ForGoal, Settle, ReaderStep;
      TakenByGoal(g, e);
      taken := true;
    }

    /** The goal operation observes what it accepts, and its route is given up if it has finished. */
    method TakenByGoal(g: nat, e: Entry)
      requires Valid() && model.reader == AtGoal(e, Some(g))
      requires g in ops && ForGoal(e.n) && Goal.Accepts(ops[g], e.n)
      modifies this
      ensures Valid() && model.reader.Idle? && model == Settle(old(model))
    {
      hide Goal.Observe, Goal.Accepts, MoveAll, DropGoal;
      Accept(g, e);
      CheckRoute(g);
      SettleTwice(old(model));
    }

    /** Let a goal operation observe a notification that it accepts. */
    method Accept(g: nat, e: Entry)
      requires Valid() && model.reader == AtGoal(e, Some(g))
      requires g in ops && ForGoal(e.n) && Goal.Accepts(ops[g], e.n)
      modifies this
      ensures Valid() && model == StepAtGoal(old(model)) && model.reader == CheckingGoal(g)
    {
      hide Goal.Observe, Goal.Accepts, MoveAll;
      ops := ops[g := Goal.Observe(ops[g], e.n)];
      goalQueues := goalQueues[g := Get(goalQueues, g) + [e]];
      model := StepAtGoal(model);
    }

    /** Give up the route of a goal operation that has finished. */
    method CheckRoute(g: nat)
      requires Valid() && model.reader == CheckingGoal(g) && g in ops
      modifies this
      ensures Valid() && model == StepChecking(old(model))
    {
      ghost var before := model;
      if ops[g].finished {
        UnregisterGoal(g);
      }
      model := StepChecking(before);
    }

    method RouteToTurn(e: Entry)
      requires Valid() && model.reader == AtTurn(e)
      modifies this
      ensures Valid() && model.reader.Idle?
      ensures model == Settle(old(model))
    {
      var turnId := TurnIdOf(e.n);
      if turnId.None? {
        global := global + [e];
        model := StepAtTurn(model);
      } else if turnId.value in turnRoutes {
        model := StepAtTurn(model);
        PutInto(turnRoutes[turnId.value], e);
        SettleTwice(old(model));
      } else {
        KeepOrDiscard(turnId.value, e);
      }
    }

    /** A notification of a turn without a queue: the completion of the turn discards what was kept. */
    method KeepOrDiscard(id: string, e: Entry)
      requires Valid() && model.reader == AtTurn(e) && TurnIdOf(e.n) == Some(id) && id !in turnRoutes
      modifies this
      ensures Valid() && model.reader.Idle?
      ensures model == StepAtTurn(old(model))
    {
      if e.n.methodName == TURN_COMPLETED {
        pendingTurns := pendingTurns - {id};
      } else {
        pendingTurns := pendingTurns[id := Get(pendingTurns, id) + [e]];
      }
      model := StepAtTurn(model);
    }

    /** The queues and goal operations that are given the transport failure when the reader thread ends. */
    method FailAllWaiting() returns (turnQueues: set<nat>, loginQueues: set<nat>, goals: set<nat>)
      requires Valid() && model.reader.Idle?
      modifies this
      ensures Valid() && model == FailAll(old(model))
      ensures turnQueues == old(turnRoutes).Values
      ensures loginQueues == old(loginRoutes).Values
      ensures goals == old(goalRoutes).Values
    {
      loginQueues, turnQueues, goals := loginRoutes.Values, turnRoutes.Values, goalRoutes.Values;
      loginRoutes, pendingLogins, pendingTurns, goalRoutes := map[], map[], map[], map[];
      model := FailAll(model);
    }
  }

  /** The response side of the router. */
  class ResponseWaiters {
    var waiters: map<string, nat>
    var queues: seq<seq<W.Item>>

    /** The state of the transition system that this object is in. */
    ghost var model: W.State

    ghost predicate Valid()
      reads this
    {
      model.waiters == waiters && model.queues == queues && W.Inv(model)
    }

    constructor ()
      ensures Valid() && model == W.INIT
    {
      waiters, queues, model := map[], [], W.INIT;
    }

    method CreateWaiter(id: string) returns (w: nat)
      requires Valid()
      modifies this
      ensures Valid() && model == W.Step(old(model), W.Create(id))
      ensures w == old(|queues|) && queues[w] == [] && waiters == old(waiters)[id := w]
    {
      W.StepKeepsInv(model, W.Create(id));
      model := W.Step(model, W.Create(id));
      w := |queues|;
      queues := queues + [[]];
      waiters := waiters[id := w];
    }

    method DiscardWaiter(id: string)
      requires Valid()
      modifies this
      ensures Valid() && model == W.Step(old(model), W.Discard(id))
    {
      W.StepKeepsInv(model, W.Discard(id));
      model := W.Step(model, W.Discard(id));
      waiters := waiters - {id};
    }

    /** Answer the waiter of a request, if there is one; its queue of size one is empty. */
    method RouteResponse(id: string, item: W.Item)
      requires Valid() && model.hand.Free?
      modifies this
      ensures Valid() && model.hand.Free?
      ensures model == W.Step(W.Step(old(model), W.RouteResponse(id, item)), W.Respond)
      ensures id in old(waiters) ==> queues == old(queues)[old(waiters)[id] := [item]]
      ensures id !in old(waiters) ==> queues == old(queues)
    {
      W.StepKeepsInv(model, W.RouteResponse(id, item));
      ghost var handed := W.Step(model, W.RouteResponse(id, item));
      W.StepKeepsInv(handed, W.Respond);
      if id in waiters {
        var w := waiters[id];
        waiters := waiters - {id};
        assert queues[w] == [] && [] + [item] == [item];
        queues := queues[w := [item]];
      }
      model := W.Step(handed, W.Respond);
    }

    method FailOne(w: nat)
      requires Valid() && model.hand.Failing? && w in model.hand.rest
      modifies this`queues, this`model
      ensures Valid() && model.hand == W.Failing(old(model).hand.rest - {w})
      ensures w < |old(queues)| && queues == old(queues)[w := [W.Transport]]
    {
      assert W.InHand(model, w);
      W.StepKeepsInv(model, W.FailOne(w));
      assert queues[w] == [] && [] + [W.Transport] == [W.Transport];
      queues := queues[w := [W.Transport]];
      model := W.Step(model, W.FailOne(w));
    }

    /** Put the transport failure into every waiter's queue. */
    method FailAllWaiters()
      requires Valid() && model.hand.Free?
      modifies this
      ensures Valid() && waiters == map[] && model.hand == W.Failing({})
      ensures |queues| == |old(queues)|
      ensures forall w :: 0 <= w < |queues| ==>
                queues[w] == if w in old(waiters).Values then [W.Transport] else old(queues)[w]
    {
      hide W.Inv;
      ghost var before := queues;
      var rest := waiters.Values;
      ghost var all := rest;
      W.StepKeepsInv(model, W.FailAll);
      model := W.Step(model, W.FailAll);
      waiters := map[];
      while rest != {}
        invariant Valid() && waiters == map[] && model.hand == W.Failing(rest)
        invariant rest <= all && |queues| == |before|
        invariant forall w :: 0 <= w < |queues| ==>
                    queues[w] == if w in all && w !in rest then [W.Transport] else before[w]
        decreases |rest|
      {
        var w :| w in rest;
        FailOne(w);
        rest := rest - {w};
      }
    }
  }
}

/** The operation state, the cursor and the stream as the objects they are: each method works on
    its fields in the order the client does and is proved to do what `Goal` and `GoalSystem` say. */
module GoalObjects {
  import opened Common
  import opened Notifications
  import opened Goal
  import opened GoalSystem

  lemma RecordKeepsFinished(op: Op, n: Notification)
    ensures Record(op, n).finished == op.finished
  {
  }

  class GoalOperationState {
    const threadId: string
    var logicalTurnId: Option<string>
    var currentTurnId: Option<string>
    var status: Option<GoalStatus>
    var startedTurn: Option<Turn>
    var completedTurn: Option<Turn>
    var interrupted: bool
    var interruptRequested: bool
    var cleared: bool
    var finished: bool
    var turnRoutingActive: bool
    var notifications: seq<Item>

    function View(): Op
      reads this
    {
      Op(threadId, logicalTurnId, currentTurnId, status, startedTurn, completedTurn,
         interrupted, interruptRequested, cleared, finished, turnRoutingActive)
    }

    constructor (threadId: string)
      ensures View() == NewOp(threadId) && notifications == []
    {
      this.threadId := threadId;
      logicalTurnId, currentTurnId, status, startedTurn, completedTurn := None, None, None, None, None;
      interrupted, interruptRequested, cleared, finished, turnRoutingActive := false, false, false, false, false;
      notifications := [];
    }

    /** What a notification changes before the operation is checked for its end. */
    method TakeNote(n: Notification)
      modifies this
      ensures View() == Record(old(View()), n) && notifications == old(notifications)
      ensures logicalTurnId == if n.payload.TurnStarted? && old(logicalTurnId).None? then Some(n.payload.turn.id)
                               else old(logicalTurnId)
    {
      match n.payload {
        case TurnStarted(_, turn) =>
          if logicalTurnId.None? {
            logicalTurnId := Some(turn.id);
          }
          currentTurnId := Some(turn.id);
          if startedTurn.None? {
            startedTurn := Some(turn);
          }
        case TurnCompleted(_, turn) =>
          completedTurn := Some(turn);
          if currentTurnId == Some(turn.id) {
            currentTurnId := None;
          }
        case GoalUpdated(_, newStatus, _) =>
          status := Some(newStatus);
          if newStatus == Active {
            cleared := false;
          }
        case GoalCleared(_) =>
          cleared := true;
        case _ =>
      }
    }

    method Observe(n: Notification) returns (accepted: bool)
      modifies this
      ensures accepted == old(Accepts(View(), n))
      ensures View() == Goal.Observe(old(View()), n)
      ensures notifications == old(notifications) + if accepted then [Note(n)] else []
    {
      hide Record;
      if !turnRoutingActive && !IsGoalEvent(n) {
        return false;
      }
      TakeNote(n);
      RecordKeepsFinished(old(View()), n);
      if currentTurnId.None? && completedTurn.Some? && (cleared || Terminal(status)) {
        finished := true;
      }
      notifications := notifications + [Note(n)];
      accepted := true;
    }

    method FinishGoal()
      modifies this
      ensures View() == Finish(old(View())) && notifications == old(notifications)
      ensures finished && currentTurnId.None? && unchanged(`logicalTurnId, `status, `startedTurn, `completedTurn)
      ensures unchanged(`interrupted, `interruptRequested, `cleared, `turnRoutingActive)
    {
      finished := true;
      currentTurnId := None;
    }

    /** Waits for an outstanding interrupt; `confirmed` is what the control that issued it does. */
    method ExplicitInterrupt(confirmed: bool) returns (flag: bool)
      modifies this
      ensures View() == AwaitInterrupt(old(View()), confirmed) && notifications == old(notifications)
      ensures flag == interrupted && !interruptRequested
    {
      if interruptRequested {
        interruptRequested := false;
        if confirmed {
          interrupted := true;
        }
      }
      flag := interrupted;
    }
  }

  class GoalStreamCursor {
    const state: GoalOperationState
    var started: Option<Turn>
    var lastCompleted: Option<Completion>
    var failedCompletion: Option<Completion>
    var status: Option<GoalStatus>
    var active: bool
    var cleared: bool

    function View(): Cursor
      reads this
    {
      Cursor(started, lastCompleted, failedCompletion, status, active, cleared)
    }

    constructor (state: GoalOperationState)
      ensures this.state == state && View() == NEW_CURSOR
    {
      this.state := state;
      started, lastCompleted, failedCompletion, status := None, None, None, None;
      active, cleared := false, false;
    }

    /** The logical completion made of `done`, once no interrupt is outstanding. */
    method MakeCompletion(name: string, done: Completion, id: string, confirmed: bool) returns (e: Notification)
      modifies state
      ensures state.View() == AwaitInterrupt(old(state.View()), confirmed)
      ensures state.notifications == old(state.notifications)
      ensures e == Notification(name,
                     TurnCompleted(done.threadId, LogicalTurn(done.turn, id, started, state.interrupted)))
    {
      var flag := state.ExplicitInterrupt(confirmed);
      e := Notification(name, TurnCompleted(done.threadId, LogicalTurn(done.turn, id, started, flag)));
    }

    /** The completion of a physical turn. */
    method ProcessCompleted(n: Notification, done: Completion, id: string, confirmed: bool)
      returns (events: seq<Notification>, completed: bool, raised: bool)
      requires n.payload == TurnCompleted(done.threadId, done.turn) && state.logicalTurnId == Some(id)
      modifies this, state
      ensures state.notifications == old(state.notifications)
      ensures var v := VerdictAt(View(), n);
              && View() == Advance(old(View()), n)
              && completed == v.End? && raised == v.Raise?
              && state.View() == OpAfter(old(state.View()), v, n, confirmed)
              && events == EventsAt(old(View()), n, id, state.interrupted)
    {
      hide LogicalTurn;
      events, completed, raised := [], false, false;
      active := false;
      lastCompleted := Some(done);
      if done.turn.status == Interrupted {
        var e := MakeCompletion(n.methodName,
                                if failedCompletion.Some? then failedCompletion.value else done, id, confirmed);
        events, completed := [e], true;
        return;
      }
      if done.turn.status == Failed {
        failedCompletion := Some(done);
        if cleared || Terminal(status) {
          state.FinishGoal();
          var e := MakeCompletion(n.methodName, done, id, confirmed);
          events, completed := [e], true;
        }
        return;
      }
      if status.None? && !cleared {
        raised := true;
        return;
      }
      if cleared || Terminal(status) {
        state.FinishGoal();
        var e := MakeCompletion(n.methodName,
                                if failedCompletion.Some? then failedCompletion.value else done, id, confirmed);
        events, completed := [e], true;
      }
    }

    method Process(n: Notification, confirmed: bool)
      returns (events: seq<Notification>, completed: bool, raised: bool)
      modifies this, state
      ensures state.notifications == old(state.notifications)
      ensures old(state.logicalTurnId).None? ==>
                raised && events == [] && View() == old(View()) && state.View() == old(state.View())
      ensures old(state.logicalTurnId).Some? ==>
                var v := VerdictAt(View(), n);
                && View() == Advance(old(View()), n)
                && completed == v.End? && raised == v.Raise?
                && state.View() == OpAfter(old(state.View()), v, n, confirmed)
                && events == EventsAt(old(View()), n, old(state.logicalTurnId).value, state.interrupted)
    {
      hide Relabel, LogicalTurn, AwaitInterrupt, Finish;
      events, completed, raised := [], false, false;
      if state.logicalTurnId.None? {
        raised := true;
        return;
      }
      var id := state.logicalTurnId.value;
      match n.payload {
        case TurnStarted(_, turn) =>
          active := true;
          if started.Some? {
            return;
          }
          started := Some(turn);
          events := [Relabel(n, id)];
          return;
        case TurnCompleted(threadId, turn) =>
          events, completed, raised := ProcessCompleted(n, Completion(threadId, turn), id, confirmed);
          return;
        case _ =>
      }
      events := [Relabel(n, id)];
      if n.payload.GoalUpdated? {
        status := Some(n.payload.status);
        if status == Some(Active) {
          cleared := false;
        }
        events := [];
      } else if n.payload.GoalCleared? {
        cleared := true;
        events := [];
      }
      if !active && lastCompleted.Some? && (cleared || Terminal(status)) {
        state.FinishGoal();
        var e := MakeCompletion(TURN_COMPLETED,
                                if failedCompletion.Some? then failedCompletion.value else lastCompleted.value,
                                id, confirmed);
        events, completed := events + [e], true;
      }
    }
  }

  class GoalNotificationStream {
    const state: GoalOperationState
    const cursor: GoalStreamCursor
    var pending: seq<Notification>
    var closed: bool
    /** Whether the router still holds this operation's route. */
    var registered: bool

    ghost predicate Valid()
      reads this, cursor
    {
      cursor.state == state
    }

    function View(): Stream
      reads this, state, cursor
    {
      Stream(state.View(), state.notifications, cursor.View(), pending, closed, registered)
    }

    constructor (state: GoalOperationState)
      ensures Valid() && this.state == state && fresh(cursor)
      ensures View() == Stream(state.View(), state.notifications, NEW_CURSOR, [], false, true)
    {
      this.state := state;
      cursor := new GoalStreamCursor(state);
      pending, closed, registered := [], false, true;
    }

    method Close()
      requires Valid()
      modifies this, state
      ensures Valid() && View() == CloseStream(old(View()))
      ensures !old(closed) ==>
                closed && !registered && state.finished && state.notifications == old(state.notifications) + [Closed]
    {
      if closed {
        return;
      }
      state.FinishGoal();
      state.notifications := state.notifications + [Closed];
      registered := false;
      closed := true;
    }

    /** One round of the iterator's loop. */
    method PullOne(confirmed: bool) returns (r: Option<NextResult>)
      requires Valid() && state.notifications != []
      modifies this, state, cursor
      ensures Valid()
      ensures (View(), r) == Pull(old(View()), confirmed)
    {
      var item := state.notifications[0];
      state.notifications := state.notifications[1..];
      if item.Failure? {
        Close();
        return Some(Raised);
      }
      if item.Closed? {
        Close();
        return Some(StopIteration);
      }
      var events, completed, raised := cursor.Process(item.n, confirmed);
      if raised {
        assert old(pending) + events == pending;
        Close();
        return Some(Raised);
      }
      pending := pending + events;
      if completed {
        Close();
      }
      return None;
    }

    /** The stream's iterator; a queue that runs empty would block the caller. */
    method NextEvent(confirmed: bool) returns (r: NextResult)
      requires Valid()
      modifies this, state, cursor
      ensures Valid()
      ensures (View(), r) == Next(old(View()), confirmed)
    {
      if closed {
        return StopIteration;
      }
      while pending == []
        invariant Valid()
        invariant NextLoop(View(), confirmed) == old(NextLoop(View(), confirmed))
        decreases if pending != [] then 0 else 1 + |state.notifications|
      {
        if state.notifications == [] {
          return Waiting;
        }
        var result := PullOne(confirmed);
        if result.Some? {
          return result.value;
        }
      }
      r := Event(pending[0]);
      pending := pending[1..];
    }
  }
}

/** The notification payloads of the Codex app-server protocol, cut down to the
    fields that the router and the goal stream read.  Everything else a payload
    carries travels in an uninterpreted `body`. */
module Notifications {
  import opened Common

  datatype TurnStatus = Completed | Interrupted | Failed | InProgress

  datatype GoalStatus = Active | Paused | Blocked | UsageLimited | BudgetLimited | Complete

  datatype Turn = Turn(
    id: string,
    status: TurnStatus,
    startedAt: Option<int>,
    completedAt: Option<int>,
    durationMs: Option<int>,
    body: string)

  datatype Payload =
    | TurnStarted(threadId: string, turn: Turn)
    | TurnCompleted(threadId: string, turn: Turn)
    | GoalUpdated(threadId: string, status: GoalStatus, turnId: Option<string>)
    | GoalCleared(threadId: string)
      /** A generated payload with a `turn_id` field, possibly null. */
    | Direct(thread: Option<string>, turnId: Option<string>, body: string)
      /** A generated payload without turn metadata. */
    | Plain(thread: Option<string>, body: string)
    | LoginCompleted(loginId: Option<string>)
      /** An unrecognised payload; each field is `None` unless it holds a string. */
    | Unknown(thread: Option<string>, turnId: Option<string>, nestedTurnId: Option<string>,
              login: Option<string>, body: string)

  datatype Notification = Notification(methodName: string, payload: Payload)

  const LOGIN_COMPLETED := "account/login/completed"
  const TURN_COMPLETED := "turn/completed"
  const GOAL_METHOD_PREFIX := "thread/goal/"

  predicate IsGoalEvent(n: Notification) {
    n.payload.GoalUpdated? || n.payload.GoalCleared?
  }

  predicate IsTurnBoundary(n: Notification) {
    n.payload.TurnStarted? || n.payload.TurnCompleted?
  }

  /** Neither a turn boundary nor a goal event: what a logical stream passes through. */
  predicate IsOrdinary(n: Notification) {
    !IsGoalEvent(n) && !IsTurnBoundary(n)
  }

  function TurnIdOf(n: Notification): Option<string> {
    match n.payload
    case TurnStarted(_, turn) => Some(turn.id)
    case TurnCompleted(_, turn) => Some(turn.id)
    case GoalUpdated(_, _, turnId) => turnId
    case Direct(_, turnId, _) => turnId
    case Unknown(_, turnId, nested, _, _) => if turnId.Some? then turnId else nested
    case _ => None
  }

  function ThreadIdOf(n: Notification): Option<string> {
    match n.payload
    case TurnStarted(threadId, _) => Some(threadId)
    case TurnCompleted(threadId, _) => Some(threadId)
    case GoalUpdated(threadId, _, _) => Some(threadId)
    case GoalCleared(threadId) => Some(threadId)
    case Direct(thread, _, _) => thread
    case Plain(thread, _) => thread
    case LoginCompleted(_) => None
    case Unknown(thread, _, _, _, _) => thread
  }

  function LoginIdOf(n: Notification): Option<string> {
    if n.methodName != LOGIN_COMPLETED then None else
    match n.payload
    case LoginCompleted(loginId) => loginId
    case Unknown(_, _, _, login, _) => login
    case _ => None
  }

  /** The copy of `n` whose turn metadata carries the logical operation id: it names
      the logical turn if `n` named any turn, and keeps its kind and its thread. */
  function Relabel(n: Notification, id: string): (r: Notification)
    ensures TurnIdOf(r) == if TurnIdOf(n).Some? then Some(id) else None
    ensures ThreadIdOf(r) == ThreadIdOf(n) && r.methodName == n.methodName
    ensures IsOrdinary(r) <==> IsOrdinary(n)
  {
    n.(payload :=
      match n.payload
      case TurnStarted(thread, turn) => TurnStarted(thread, turn.(id := id))
      case TurnCompleted(thread, turn) => TurnCompleted(thread, turn.(id := id))
      case GoalUpdated(thread, status, turnId) => GoalUpdated(thread, status, IfPresent(turnId, id))
      case Direct(thread, turnId, body) => Direct(thread, IfPresent(turnId, id), body)
      case Unknown(thread, turnId, nested, login, body) =>
        Unknown(thread, IfPresent(turnId, id), IfPresent(nested, id), login, body)
      case other => other)
  }

  function IfPresent(field: Option<string>, id: string): Option<string> {
    if field.Some? then Some(id) else None
  }

  /** A notification whose two ids, if it is unrecognised and has both, agree. */
  predicate NamesOneTurn(n: Notification) {
    n.payload.Unknown? && n.payload.turnId.Some? && n.payload.nestedTurnId.Some? ==>
      n.payload.turnId == n.payload.nestedTurnId
  }

  /** Relabelling changes nothing but turn ids: with the original id back, the notification is the original. */
  lemma RelabelCanBeUndone(n: Notification, id: string)
    requires NamesOneTurn(n)
    ensures if TurnIdOf(n).Some? then Relabel(Relabel(n, id), TurnIdOf(n).value) == n else Relabel(n, id) == n
  {
    match n.payload
    case Unknown(_, turnId, nested, _, _) =>
      assert turnId.None? ==> TurnIdOf(n) == nested;
    case _ =>
  }

  /** Of an unrecognised notification with two different ids, too, everything else stays. */
  lemma RelabelKeepsTheRest(n: Notification, id: string)
    requires n.payload.Unknown?
    ensures var p := Relabel(n, id).payload;
            && p.Unknown? && p.thread == n.payload.thread && p.login == n.payload.login && p.body == n.payload.body
            && p.turnId == (if n.payload.turnId.Some? then Some(id) else None)
            && p.nestedTurnId == (if n.payload.nestedTurnId.Some? then Some(id) else None)
  {
  }
}

/** One goal operation, seen twice: `Observe` folds notifications on the reader
    side and decides when the route is cut; `Advance`/`Verdict` fold the same
    notifications on the consumer side and decide when the stream ends.
    This module states both folds and proves how their verdicts are related. */
module Goal {
  import opened Common
  import opened Notifications

  predicate Terminal(status: Option<GoalStatus>) {
    status.Some? && !status.value.Active?
  }

  // ----- reader side ------------------------------------------------------

  /** The fields of the operation state that `Observe` and the controls change. */
  datatype Op = Op(
    threadId: string,
    logicalTurnId: Option<string>,
    currentTurnId: Option<string>,
    status: Option<GoalStatus>,
    startedTurn: Option<Turn>,
    completedTurn: Option<Turn>,
    interrupted: bool,
    interruptRequested: bool,
    cleared: bool,
    finished: bool,
    routing: bool)

  function NewOp(threadId: string): Op {
    Op(threadId, None, None, None, None, None, false, false, false, false, false)
  }

  predicate Accepts(op: Op, n: Notification) {
    op.routing || IsGoalEvent(n)
  }

  predicate Settled(op: Op) {
    op.currentTurnId.None? && op.completedTurn.Some? && (op.cleared || Terminal(op.status))
  }

  function Record(op: Op, n: Notification): Op {
    match n.payload
    case TurnStarted(_, turn) =>
      op.(logicalTurnId := if op.logicalTurnId.None? then Some(turn.id) else op.logicalTurnId,
          currentTurnId := Some(turn.id),
          startedTurn := if op.startedTurn.None? then Some(turn) else op.startedTurn)
    case TurnCompleted(_, turn) =>
      op.(completedTurn := Some(turn),
          currentTurnId := if op.currentTurnId == Some(turn.id) then None else op.currentTurnId)
    case GoalUpdated(_, status, _) =>
      op.(status := Some(status), cleared := op.cleared && !status.Active?)
    case GoalCleared(_) => op.(cleared := true)
    case _ => op
  }

  function Observe(op: Op, n: Notification): Op {
    if !Accepts(op, n) then op else
    var recorded := Record(op, n);
    recorded.(finished := op.finished || Settled(recorded))
  }

  function Finish(op: Op): Op { op.(finished := true, currentTurnId := None) }

  function BeginInterrupt(op: Op): Op {
    if op.finished then op else op.(interruptRequested := true)
  }

  function ConfirmInterrupt(op: Op): Op { op.(interrupted := true, interruptRequested := false) }

  function CancelInterrupt(op: Op): Op { op.(interruptRequested := false) }

  function ResolveActiveTurn(op: Op, expected: string, active: string): Op {
    if op.currentTurnId == None || op.currentTurnId == Some(expected)
    then op.(currentTurnId := Some(active))
    else op
  }

  /** Waiting for an outstanding interrupt: the control that issued it either confirms or cancels. */
  function AwaitInterrupt(op: Op, confirmed: bool): Op {
    if !op.interruptRequested then op
    else if confirmed then ConfirmInterrupt(op) else CancelInterrupt(op)
  }

  // ----- consumer side ----------------------------------------------------

  datatype Completion = Completion(threadId: string, turn: Turn)

  datatype Cursor = Cursor(
    started: Option<Turn>,
    lastCompleted: Option<Completion>,
    failed: Option<Completion>,
    status: Option<GoalStatus>,
    active: bool,
    cleared: bool)

  const NEW_CURSOR := Cursor(None, None, None, None, false, false)

  datatype Verdict = Proceed | End | Raise

  predicate Over(c: Cursor) { c.cleared || Terminal(c.status) }

  predicate Drained(c: Cursor) { !c.active && c.lastCompleted.Some? && Over(c) }

  function Advance(c: Cursor, n: Notification): Cursor {
    match n.payload
    case TurnStarted(_, turn) =>
      c.(active := true, started := if c.started.Some? then c.started else Some(turn))
    case TurnCompleted(threadId, turn) =>
      var done := Completion(threadId, turn);
      c.(active := false, lastCompleted := Some(done),
         failed := if turn.status.Failed? then Some(done) else c.failed)
    case GoalUpdated(_, status, _) =>
      c.(status := Some(status), cleared := c.cleared && !status.Active?)
    case GoalCleared(_) => c.(cleared := true)
    case _ => c
  }

  /** How the stream proceeds after `n`; `c` is the cursor already advanced over `n`. */
  function VerdictAt(c: Cursor, n: Notification): Verdict {
    match n.payload
    case TurnStarted(_, _) => Proceed
    case TurnCompleted(_, turn) =>
      if turn.status.Interrupted? then End
      else if !turn.status.Failed? && c.status.None? && !c.cleared then Raise
      else if Over(c) then End else Proceed
    case _ => if Drained(c) then End else Proceed
  }

  /** The physical completion that a logical completion is made of. */
  function Carried(c: Cursor): Option<Completion> {
    if c.failed.Some? then c.failed else c.lastCompleted
  }

  function LogicalTurn(turn: Turn, id: string, started: Option<Turn>, interrupted: bool): Turn {
    var startedAt := if started.Some? then started.value.startedAt else turn.startedAt;
    var duration :=
      if startedAt.Some? && turn.completedAt.Some? then
        var elapsed := turn.completedAt.value - startedAt.value;
        Some((if elapsed < 0 then 0 else elapsed) * 1000)
      else turn.durationMs;
    turn.(id := id, startedAt := startedAt, durationMs := duration,
          status := if interrupted then Interrupted else turn.status)
  }

  function CompletionEvent(name: string, c: Cursor, id: string, interrupted: bool): Notification
    requires c.lastCompleted.Some?
  {
    var done := Carried(c).value;
    Notification(name, TurnCompleted(done.threadId, LogicalTurn(done.turn, id, c.started, interrupted)))
  }

  /** What the consumer sees of `n` before any completion; `c` is the cursor before `n`. */
  function Passed(c: Cursor, n: Notification, id: string): seq<Notification> {
    if IsOrdinary(n) || (n.payload.TurnStarted? && c.started.None?) then [Relabel(n, id)] else []
  }

  function CompletionName(n: Notification): string {
    if n.payload.TurnCompleted? then n.methodName else TURN_COMPLETED
  }

  /** One `process` call: events handed out for `n`, given the interrupted flag read on completion. */
  function EventsAt(c: Cursor, n: Notification, id: string, interrupted: bool): seq<Notification> {
    var next := Advance(c, n);
    match VerdictAt(next, n)
    case End => Passed(c, n, id) + [CompletionEvent(CompletionName(n), next, id, interrupted)]
    case Proceed => Passed(c, n, id)
    case Raise => []
  }

  // ----- folds over a whole run -------------------------------------------

  function ObserveAll(op: Op, ns: seq<Notification>): Op
    decreases |ns|
  {
    if ns == [] then op else Observe(ObserveAll(op, ns[..|ns|-1]), ns[|ns|-1])
  }

  function AdvanceAll(c: Cursor, ns: seq<Notification>): Cursor
    decreases |ns|
  {
    if ns == [] then c else Advance(AdvanceAll(c, ns[..|ns|-1]), ns[|ns|-1])
  }

  /** The cursor, fed `ns`, has completed or raised at its last element, whatever it did before. */
  predicate EndsAt(c: Cursor, ns: seq<Notification>) {
    ns != [] && VerdictAt(AdvanceAll(c, ns), ns[|ns|-1]) != Proceed
  }

  /** The cursor, fed `ns`, completes or raises somewhere in it. */
  ghost predicate Ends(c: Cursor, ns: seq<Notification>) {
    exists k :: 0 <= k <= |ns| && EndsAt(c, ns[..k])
  }

  // ----- what the verdicts mean in terms of the history --------------------

  predicate Closes(n: Notification) {
    n.payload.GoalCleared? || (n.payload.GoalUpdated? && !n.payload.status.Active?)
  }

  predicate Reopens(n: Notification) {
    n.payload.GoalUpdated? && n.payload.status.Active?
  }

  /** The goal was closed and not reopened since. */
  ghost predicate GoalOver(ns: seq<Notification>) {
    exists i :: 0 <= i < |ns| && Closes(ns[i]) && forall j :: i < j < |ns| ==> !Reopens(ns[j])
  }

  predicate Completes(n: Notification, turn: Turn) {
    n.payload.TurnCompleted? && n.payload.turn.id == turn.id
  }

  ghost predicate StartsLast(ns: seq<Notification>, i: int)
    requires 0 <= i < |ns|
  {
    ns[i].payload.TurnStarted? && forall j :: i < j < |ns| ==> !ns[j].payload.TurnStarted?
  }

  /** The turn started at `i` was later completed under its own id. */
  ghost predicate Answered(ns: seq<Notification>, i: int)
    requires 0 <= i < |ns| && ns[i].payload.TurnStarted?
  {
    exists j :: i < j < |ns| && Completes(ns[j], ns[i].payload.turn)
  }

  /** Some turn was completed after `i`. */
  ghost predicate Followed(ns: seq<Notification>, i: int)
    requires 0 <= i < |ns|
  {
    exists j :: i < j < |ns| && ns[j].payload.TurnCompleted?
  }

  /** The latest physical turn was followed by its own completion. */
  ghost predicate RouteIdle(ns: seq<Notification>) {
    forall i :: 0 <= i < |ns| && StartsLast(ns, i) ==> Answered(ns, i)
  }

  /** The latest physical turn was followed by some completion. */
  ghost predicate StreamIdle(ns: seq<Notification>) {
    forall i :: 0 <= i < |ns| && StartsLast(ns, i) ==> Followed(ns, i)
  }

  ghost predicate HasCompletion(ns: seq<Notification>) {
    exists i :: 0 <= i < |ns| && ns[i].payload.TurnCompleted?
  }

  ghost predicate NoGoalEvent(ns: seq<Notification>) {
    forall i :: 0 <= i < |ns| ==> !IsGoalEvent(ns[i])
  }

  /** The history is one at which the reader gives up the route. */
  ghost predicate RouteDone(ns: seq<Notification>) {
    RouteIdle(ns) && HasCompletion(ns) && GoalOver(ns)
  }

  /** The history is one at which the stream ends. */
  ghost predicate StreamDone(ns: seq<Notification>) {
    || (StreamIdle(ns) && HasCompletion(ns) && GoalOver(ns))
    || (ns != [] && ns[|ns|-1].payload.TurnCompleted? &&
        (|| ns[|ns|-1].payload.turn.status.Interrupted?
         || (!ns[|ns|-1].payload.turn.status.Failed? && NoGoalEvent(ns))))
  }
}

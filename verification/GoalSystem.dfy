/** One goal operation as a transition system: the reader thread, the consumer of the stream
    and the interrupting controls take atomic steps in any order. */
module GoalSystem {
  import opened Common
  import opened Notifications
  import opened Goal
  import opened GoalAgreement
  import opened GoalStream

  /** What the operation's queue holds: a notification, a transport failure, or the sentinel
      that wakes a reader of a closed stream. */
  datatype Item = Note(n: Notification) | Failure | Closed

  /** How one call of the stream's iterator ends. */
  datatype NextResult = Event(n: Notification) | StopIteration | Raised | Waiting

  datatype Stream = Stream(
    op: Op,
    fifo: seq<Item>,
    cursor: Cursor,
    pending: seq<Notification>,
    closed: bool,
    registered: bool)

  // ----- the consumer's code ---------------------------------------------------

  function CloseStream(s: Stream): Stream {
    if s.closed then s else
    s.(op := Finish(s.op), fifo := s.fifo + [Closed], registered := false, closed := true)
  }

  /** The operation state after `process`: a goal that is over is finished before the interrupted
      flag is read, but an interrupted turn reads the flag first. */
  function OpAfter(op: Op, v: Verdict, n: Notification, confirmed: bool): Op {
    if !v.End? then op
    else if n.payload.TurnCompleted? && n.payload.turn.status.Interrupted? then AwaitInterrupt(op, confirmed)
    else AwaitInterrupt(Finish(op), confirmed)
  }

  /** One round of the loop in the iterator: take an item from the queue and process it. */
  function Pull(s: Stream, confirmed: bool): (Stream, Option<NextResult>)
    requires s.fifo != []
  {
    var rest := s.(fifo := s.fifo[1..]);
    match s.fifo[0]
    case Failure => (CloseStream(rest), Some(Raised))
    case Closed => (CloseStream(rest), Some(StopIteration))
    case Note(n) =>
      if s.op.logicalTurnId.None? then (CloseStream(rest), Some(Raised)) else
      var next := Advance(s.cursor, n);
      var v := VerdictAt(next, n);
      var op := OpAfter(s.op, v, n, confirmed);
      var events := EventsAt(s.cursor, n, s.op.logicalTurnId.value, op.interrupted);
      var processed := rest.(op := op, cursor := next, pending := s.pending + events);
      match v
      case Raise => (CloseStream(processed), Some(Raised))
      case End => (CloseStream(processed), None)
      case Proceed => (processed, None)
  }

  function NextLoop(s: Stream, confirmed: bool): (Stream, NextResult)
    decreases if s.pending != [] then 0 else 1 + |s.fifo|
  {
    if s.pending != [] then (s.(pending := s.pending[1..]), Event(s.pending[0]))
    else if s.fifo == [] then (s, Waiting)
    else
      var (t, r) := Pull(s, confirmed);
      if r.Some? then (t, r.value) else NextLoop(t, confirmed)
  }

  function Next(s: Stream, confirmed: bool): (Stream, NextResult) {
    if s.closed then (s, StopIteration) else NextLoop(s, confirmed)
  }

  // ----- the system --------------------------------------------------------------

  datatype Ending = Open | Concluded(interrupted: bool) | Aborted

  /** Where the reader thread is with respect to this operation: it looks the route up, observes under the
      operation's lock, puts the notification into the queue, and checks whether the operation has finished. */
  datatype Reader = Away | Found(n: Notification) | Observed(n: Notification) | Checking

  /** `history` is what the reader accepted, `consumed` what the stream has processed and
      `delivered` what the consumer was given. */
  datatype Sys = Sys(
    s: Stream,
    streaming: bool,
    reader: Reader,
    ending: Ending,
    ghost history: seq<Notification>,
    ghost consumed: seq<Notification>,
    ghost delivered: seq<Notification>)

  datatype Action =
    | ActivateRouting
    | LookUp(n: Notification)
    | Accept
    | Enqueue
    | CheckRoute
    | FailAll
    | OpenStream
    | Abandon
    | NextRound(confirmed: bool)
    | Close
    | Resolve(expected: string, active: string)
    | Begin
    | Confirm
    | Cancel

  ghost function Init(threadId: string): Sys {
    Sys(Stream(NewOp(threadId), [], NEW_CURSOR, [], false, true), false, Away, Open, [], [], [])
  }

  ghost function StepNext(y: Sys, confirmed: bool): Sys
    requires y.s.pending != [] || y.s.fifo != []
  {
    if y.s.pending != [] then
      y.(s := y.s.(pending := y.s.pending[1..]), delivered := y.delivered + [y.s.pending[0]])
    else
      var (t, r) := Pull(y.s, confirmed);
      var consumed := if y.s.fifo[0].Note? then y.consumed + [y.s.fifo[0].n] else y.consumed;
      var ending :=
        if !t.closed then Open else if r.None? then Concluded(t.op.interrupted) else Aborted;
      if r.None? && t.pending != [] then
        y.(s := t.(pending := t.pending[1..]), consumed := consumed, ending := ending,
           delivered := y.delivered + [t.pending[0]])
      else
        y.(s := t, consumed := consumed, ending := ending)
  }

  /** One atomic step; a step that is not enabled changes nothing. */
  ghost function Step(y: Sys, a: Action): Sys {
    var op := y.s.op;
    match a
    case ActivateRouting => y.(s := y.s.(op := op.(routing := true)))
    case LookUp(n) =>
      if y.s.registered && y.reader.Away? then y.(reader := Found(n)) else y
    case Accept =>
      if !y.reader.Found? then y
      else if Accepts(op, y.reader.n) then
        y.(s := y.s.(op := Observe(op, y.reader.n)), reader := Observed(y.reader.n),
           history := y.history + [y.reader.n])
      else y.(reader := Away)
    case Enqueue =>
      if y.reader.Observed? then y.(s := y.s.(fifo := y.s.fifo + [Note(y.reader.n)]), reader := Checking) else y
    case CheckRoute =>
      if y.reader.Checking? then
        y.(s := y.s.(registered := y.s.registered && !op.finished), reader := Away)
      else y
    case FailAll =>
      if y.s.registered && y.reader.Away? then
        y.(s := y.s.(fifo := y.s.fifo + [Failure], registered := false))
      else y
    case OpenStream =>
      if !y.s.closed && op.logicalTurnId.Some? then y.(streaming := true) else y
    case Abandon =>
      if !y.streaming && !y.s.closed then y.(s := CloseStream(y.s), ending := Aborted) else y
    case NextRound(confirmed) =>
      if y.streaming && !y.s.closed && (y.s.pending != [] || y.s.fifo != [])
      then StepNext(y, confirmed) else y
    case Close =>
      if y.streaming && !y.s.closed then y.(s := CloseStream(y.s), ending := Aborted) else y
    case Resolve(expected, active) =>
      y.(s := y.s.(op := ResolveActiveTurn(op, expected, active)))
    case Begin => y.(s := y.s.(op := BeginInterrupt(op)))
    case Confirm => y.(s := y.s.(op := ConfirmInterrupt(op)))
    case Cancel => y.(s := y.s.(op := CancelInterrupt(op)))
  }

  ghost function Run(y: Sys, actions: seq<Action>): Sys
    decreases |actions|
  {
    if actions == [] then y else Step(Run(y, actions[..|actions|-1]), actions[|actions|-1])
  }

  // ----- what the queue holds for the cursor ---------------------------------------

  /** The cursor after everything queued. */
  ghost function Ahead(c: Cursor, fifo: seq<Item>): Cursor
    decreases |fifo|
  {
    if fifo == [] then c
    else if fifo[0].Note? then Ahead(Advance(c, fifo[0].n), fifo[1..])
    else Ahead(c, fifo[1..])
  }

  /** Processing what is queued closes the stream. */
  ghost predicate EndsIn(c: Cursor, fifo: seq<Item>)
    decreases |fifo|
  {
    fifo != [] &&
    (!fifo[0].Note? ||
     (var next := Advance(c, fifo[0].n);
      VerdictAt(next, fifo[0].n) != Proceed || EndsIn(next, fifo[1..])))
  }

  lemma {:induction false} AppendAhead(c: Cursor, fifo: seq<Item>, x: Item)
    ensures Ahead(c, fifo + [x]) == (if x.Note? then Advance(Ahead(c, fifo), x.n) else Ahead(c, fifo))
    ensures EndsIn(c, fifo + [x]) <==>
              EndsIn(c, fifo) || !x.Note? || VerdictAt(Advance(Ahead(c, fifo), x.n), x.n) != Proceed
    decreases |fifo|
  {
    if fifo == [] {
      assert fifo + [x] == [x];
    } else {
      assert (fifo + [x])[0] == fifo[0] && (fifo + [x])[1..] == fifo[1..] + [x];
      AppendAhead(if fifo[0].Note? then Advance(c, fifo[0].n) else c, fifo[1..], x);
    }
  }

  ghost function Notes(fifo: seq<Item>): seq<Notification> {
    if fifo == [] then []
    else (if fifo[0].Note? then [fifo[0].n] else []) + Notes(fifo[1..])
  }

  lemma {:induction false} AppendNotes(fifo: seq<Item>, x: Item)
    ensures Notes(fifo + [x]) == Notes(fifo) + if x.Note? then [x.n] else []
  {
    if fifo == [] {
      assert fifo + [x] == [x];
    } else {
      assert (fifo + [x])[0] == fifo[0] && (fifo + [x])[1..] == fifo[1..] + [x];
      AppendNotes(fifo[1..], x);
      assert Notes(fifo + [x]) == (if fifo[0].Note? then [fifo[0].n] else []) + Notes(fifo[1..] + [x]);
    }
  }

  // ----- the invariant ----------------------------------------------------------------

  /** The reader is no further than a cursor that has processed the same notifications. */
  ghost predicate Sync(c: Cursor, op: Op) {
    && c.status == op.status && c.cleared == op.cleared
    && (c.lastCompleted.Some? <==> op.completedTurn.Some?)
    && (c.active ==> op.currentTurnId.Some?)
  }

  /** What is queued, and what the reader has accepted and is about to queue. */
  ghost function Coming(y: Sys): seq<Item> {
    y.s.fifo + if y.reader.Observed? then [Note(y.reader.n)] else []
  }

  /** Either what is coming ends the stream, or the route is still open and in step with it. */
  ghost predicate Lag(s: Stream, coming: seq<Item>) {
    EndsIn(s.cursor, coming) || (Sync(Ahead(s.cursor, coming), s.op) && !s.op.finished && s.registered)
  }

  ghost predicate NotEnded(ns: seq<Notification>) {
    forall k :: 0 <= k <= |ns| ==> !EndsAt(NEW_CURSOR, ns[..k])
  }

  function LogicalId(op: Op): string { if op.logicalTurnId.Some? then op.logicalTurnId.value else "" }

  /** An open stream has delivered exactly what it should of what it consumed. */
  ghost predicate Served(cursor: Cursor, consumed: seq<Notification>, delivered: seq<Notification>, id: string) {
    && cursor == AdvanceAll(NEW_CURSOR, consumed)
    && NotEnded(consumed)
    && delivered == Visible(consumed, id)
  }

  ghost predicate OpenInv(y: Sys) {
    && y.ending == Open
    && Lag(y.s, Coming(y))
    && y.history == y.consumed + Notes(Coming(y))
    && (if y.streaming then Served(y.s.cursor, y.consumed, y.delivered, LogicalId(y.s.op))
        else y.s.cursor == NEW_CURSOR && y.consumed == [] && y.delivered == [])
  }

  /** A stream that concluded has delivered one whole logical turn. */
  ghost predicate Whole(consumed: seq<Notification>, delivered: seq<Notification>, id: string, flag: bool) {
    && FirstEnd(consumed)
    && VerdictAt(AdvanceAll(NEW_CURSOR, consumed), consumed[|consumed|-1]).End?
    && delivered == Output(consumed, id, flag)
  }

  ghost predicate ClosedInv(y: Sys) {
    && !y.s.registered
    && y.consumed <= y.history
    && match y.ending
       case Open => false
       case Aborted =>
         if y.streaming then y.delivered == Visible(y.consumed, LogicalId(y.s.op)) else y.delivered == []
       case Concluded(flag) =>
         y.streaming && Whole(y.consumed, y.delivered, LogicalId(y.s.op), flag)
  }

  ghost predicate Inv(y: Sys) {
    && y.s.pending == []
    && (y.streaming ==> y.s.op.logicalTurnId.Some?)
    && (if y.s.closed then ClosedInv(y) else OpenInv(y))
  }

  // ----- every step keeps the invariant --------------------------------------------------

  /** Recording one more notification keeps the reader no further than the cursor, and a reader that
      is done with it implies a cursor that is. */
  lemma RecordKeepsSync(c: Cursor, op: Op, n: Notification)
    requires Sync(c, op) && !op.finished && Accepts(op, n)
    ensures Sync(Advance(c, n), Observe(op, n))
    ensures Observe(op, n).finished ==> VerdictAt(Advance(c, n), n) != Proceed
  {
    if IsTurnBoundary(n) {
      BoundarySync(c, op, n);
    } else {
      OtherSync(c, op, n);
    }
    SettledEnds(Advance(c, n), Record(op, n), n);
    hide Record, Advance, VerdictAt;
  }

  lemma BoundarySync(c: Cursor, op: Op, n: Notification)
    requires Sync(c, op) && IsTurnBoundary(n)
    ensures Sync(Advance(c, n), Record(op, n))
    ensures Advance(c, n).active <==> n.payload.TurnStarted?
  {
  }

  lemma OtherSync(c: Cursor, op: Op, n: Notification)
    requires Sync(c, op) && !IsTurnBoundary(n)
    ensures Sync(Advance(c, n), Record(op, n))
  {
  }

  /** A settled reader implies a cursor that ends at this notification, if it is no turn start. */
  lemma SettledEnds(c: Cursor, op: Op, n: Notification)
    requires Sync(c, op) && (n.payload.TurnStarted? ==> c.active)
    ensures Settled(op) ==> VerdictAt(c, n) != Proceed
  {
  }

  lemma AcceptKeepsLag(s: Stream, coming: seq<Item>, n: Notification)
    requires Lag(s, coming) && Accepts(s.op, n)
    ensures Lag(s.(op := Observe(s.op, n)), coming + [Note(n)])
  {
    AppendAhead(s.cursor, coming, Note(n));
    if !EndsIn(s.cursor, coming) {
      RecordKeepsSync(Ahead(s.cursor, coming), s.op, n);
    }
  }

  lemma ObserveKeepsId(op: Op, n: Notification)
    requires op.logicalTurnId.Some?
    ensures Observe(op, n).logicalTurnId == op.logicalTurnId
  {
  }

  lemma AcceptKeepsInv(y: Sys)
    requires Inv(y)
    ensures Inv(Step(y, Accept))
  {
    if y.reader.Found? {
      assert Coming(y) == y.s.fifo;
      if Accepts(y.s.op, y.reader.n) {
        AcceptedKeepsInv(y, y.reader.n);
      }
    }
  }

  lemma AcceptedKeepsInv(y: Sys, n: Notification)
    requires Inv(y) && y.reader == Found(n) && Accepts(y.s.op, n)
    ensures Inv(y.(s := y.s.(op := Observe(y.s.op, n)), reader := Observed(n), history := y.history + [n]))
  {
    var z := y.(s := y.s.(op := Observe(y.s.op, n)), reader := Observed(n), history := y.history + [n]);
    assert Coming(y) == y.s.fifo && Coming(z) == y.s.fifo + [Note(n)];
    if y.streaming {
      ObserveKeepsId(y.s.op, n);
    }
    hide Observe, Accepts;
    if !y.s.closed {
      AcceptKeepsLag(y.s, y.s.fifo, n);
      AppendNotes(y.s.fifo, Note(n));
      assert y.history + [n] == y.consumed + Notes(Coming(z));
    }
  }

  lemma EnqueueKeepsInv(y: Sys)
    requires Inv(y)
    ensures Inv(Step(y, Enqueue))
  {
    if y.reader.Observed? {
      var z := Step(y, Enqueue);
      assert Coming(z) == Coming(y);
    }
  }

  lemma FailKeepsInv(y: Sys)
    requires Inv(y)
    ensures Inv(Step(y, FailAll))
  {
    assert y.reader.Away? ==> Coming(y) == y.s.fifo && Coming(Step(y, FailAll)) == Step(y, FailAll).s.fifo;
    AppendAhead(y.s.cursor, y.s.fifo, Failure);
    AppendNotes(y.s.fifo, Failure);
  }

  lemma CloseKeepsInv(y: Sys, a: Action)
    requires Inv(y) && (a.Close? || a.Abandon?)
    ensures Inv(Step(y, a))
  {
  }

  lemma NotEndedStep(p: seq<Notification>, n: Notification)
    requires NotEnded(p)
    ensures VerdictAt(Advance(AdvanceAll(NEW_CURSOR, p), n), n).Proceed? ==> NotEnded(p + [n])
    ensures !VerdictAt(Advance(AdvanceAll(NEW_CURSOR, p), n), n).Proceed? ==> FirstEnd(p + [n])
  {
    var ns := p + [n];
    assert ns[..|p|] == p && ns[..|ns|] == ns;
    assert forall k :: 0 <= k <= |p| ==> ns[..k] == p[..k];
  }

  /** What one `process` call does to an open stream's deliveries. */
  lemma ServeOne(cursor: Cursor, p: seq<Notification>, delivered: seq<Notification>, id: string,
                 n: Notification, flag: bool)
    requires Served(cursor, p, delivered, id)
    ensures var events := EventsAt(cursor, n, id, flag);
            match VerdictAt(Advance(cursor, n), n)
            case Proceed => |events| <= 1 && Served(Advance(cursor, n), p + [n], delivered + events, id)
            case End => |events| == 1 && Whole(p + [n], delivered + events, id, flag)
            case Raise => events == [] && delivered == Visible(p + [n], id)
  {
    var ns := p + [n];
    assert ns[..|p|] == p;
    NotEndedStep(p, n);
    AtMostOneEvent(p, n, id, flag);
    CursorRecordsStart(p);
    OpenOutput(p, id, flag);
  }

  /** The next round of an open stream processes a notification, with verdict `v`. */
  ghost predicate Processes(y: Sys, n: Notification, v: Verdict) {
    && Inv(y) && y.streaming && !y.s.closed && y.s.fifo != []
    && y.s.fifo[0] == Note(n) && v == VerdictAt(Advance(y.s.cursor, n), n)
  }

  lemma ProceedStep(y: Sys, n: Notification, confirmed: bool, id: string)
    requires y.streaming && !y.s.closed && y.s.pending == [] && y.s.fifo != [] && y.s.fifo[0] == Note(n)
    requires VerdictAt(Advance(y.s.cursor, n), n).Proceed?
    requires y.s.op.logicalTurnId == Some(id) && y.ending == Open
    requires |EventsAt(y.s.cursor, n, id, y.s.op.interrupted)| <= 1
    ensures var z := Step(y, NextRound(confirmed));
            && z.s == y.s.(fifo := y.s.fifo[1..], cursor := Advance(y.s.cursor, n))
            && z.streaming && z.ending == Open && z.reader == y.reader
            && z.history == y.history && z.consumed == y.consumed + [n]
            && z.delivered == y.delivered + EventsAt(y.s.cursor, n, id, y.s.op.interrupted)
  {
  }

  lemma ProceedKeepsInv(y: Sys, n: Notification, confirmed: bool)
    requires Processes(y, n, Proceed)
    ensures Inv(Step(y, NextRound(confirmed)))
  {
    var id := LogicalId(y.s.op);
    ServeOne(y.s.cursor, y.consumed, y.delivered, id, n, y.s.op.interrupted);
    ProceedStep(y, n, confirmed, id);
    ProcessKeepsLag(y.s, Coming(y));
    ComingAfter(y, Step(y, NextRound(confirmed)));
    assert y.history == (y.consumed + [n]) + Notes(Coming(y)[1..]);
  }

  lemma ComingAfter(y: Sys, z: Sys)
    requires y.s.fifo != [] && z.s.fifo == y.s.fifo[1..] && z.reader == y.reader
    ensures Coming(y) != [] && Coming(y)[0] == y.s.fifo[0] && Coming(z) == Coming(y)[1..]
  {
  }

  /** Consuming the first queued notification keeps the account of what was accepted. */
  lemma ConsumeOne(y: Sys, n: Notification)
    requires OpenInv(y) && y.s.fifo != [] && y.s.fifo[0] == Note(n)
    ensures y.consumed + [n] <= y.history
  {
    assert Coming(y)[0] == Note(n);
    assert y.history == (y.consumed + [n]) + Notes(Coming(y)[1..]);
  }

  lemma EndStep(y: Sys, n: Notification, confirmed: bool, id: string, flag: bool)
    requires y.streaming && !y.s.closed && y.s.pending == [] && y.s.fifo != [] && y.s.fifo[0] == Note(n)
    requires VerdictAt(Advance(y.s.cursor, n), n).End?
    requires y.s.op.logicalTurnId == Some(id)
    requires flag == OpAfter(y.s.op, End, n, confirmed).interrupted
    requires |EventsAt(y.s.cursor, n, id, flag)| == 1
    ensures var z := Step(y, NextRound(confirmed));
            && z.s.closed && !z.s.registered && z.s.pending == [] && z.streaming
            && z.ending == Concluded(flag)
            && z.s.op.logicalTurnId == Some(id)
            && z.history == y.history && z.consumed == y.consumed + [n]
            && z.delivered == y.delivered + EventsAt(y.s.cursor, n, id, flag)
  {
  }

  lemma EndKeepsInv(y: Sys, n: Notification, confirmed: bool)
    requires Processes(y, n, End)
    ensures Inv(Step(y, NextRound(confirmed)))
  {
    var id := LogicalId(y.s.op);
    var flag := OpAfter(y.s.op, End, n, confirmed).interrupted;
    ServeOne(y.s.cursor, y.consumed, y.delivered, id, n, flag);
    EndStep(y, n, confirmed, id, flag);
    ConsumeOne(y, n);
  }

  lemma RaiseKeepsInv(y: Sys, n: Notification, confirmed: bool)
    requires Processes(y, n, Raise)
    ensures Inv(Step(y, NextRound(confirmed)))
  {
    var id := LogicalId(y.s.op);
    ServeOne(y.s.cursor, y.consumed, y.delivered, id, n, y.s.op.interrupted);
    ConsumeOne(y, n);
  }

  lemma RoundKeepsInv(y: Sys, confirmed: bool)
    requires Inv(y)
    ensures Inv(Step(y, NextRound(confirmed)))
  {
    hide Inv, Step;
    if y.streaming && !y.s.closed && y.s.fifo != [] && y.s.fifo[0].Note? {
      var n := y.s.fifo[0].n;
      match VerdictAt(Advance(y.s.cursor, n), n)
      case Proceed => ProceedKeepsInv(y, n, confirmed);
      case End => EndKeepsInv(y, n, confirmed);
      case Raise => RaiseKeepsInv(y, n, confirmed);
    } else {
      IdleRoundKeepsInv(y, confirmed);
    }
  }

  /** A round that finds no notification. */
  lemma IdleRoundKeepsInv(y: Sys, confirmed: bool)
    requires Inv(y) && !(y.streaming && !y.s.closed && y.s.fifo != [] && y.s.fifo[0].Note?)
    ensures Inv(Step(y, NextRound(confirmed)))
  {
  }

  lemma ProcessKeepsLag(s: Stream, coming: seq<Item>)
    requires Lag(s, coming) && s.fifo != [] && coming != [] && coming[0].Note?
    requires VerdictAt(Advance(s.cursor, coming[0].n), coming[0].n).Proceed?
    ensures Lag(s.(cursor := Advance(s.cursor, coming[0].n), fifo := s.fifo[1..]), coming[1..])
  {
  }

  /** A control changes nothing that the stream depends on. */
  predicate Mild(op: Op, after: Op) {
    && after.status == op.status && after.cleared == op.cleared && after.completedTurn == op.completedTurn
    && after.finished == op.finished && after.logicalTurnId == op.logicalTurnId
    && (op.currentTurnId.Some? ==> after.currentTurnId.Some?)
  }

  lemma MildKeepsInv(y: Sys, after: Op)
    requires Inv(y) && Mild(y.s.op, after)
    ensures Inv(y.(s := y.s.(op := after)))
  {
    var z := y.(s := y.s.(op := after));
    assert Coming(z) == Coming(y);
    assert Sync(Ahead(y.s.cursor, Coming(y)), y.s.op) ==> Sync(Ahead(y.s.cursor, Coming(y)), after);
    hide Served, Visible, Whole;
  }

  lemma ControlIsMild(y: Sys, a: Action)
    requires a.ActivateRouting? || a.Resolve? || a.Begin? || a.Confirm? || a.Cancel?
    ensures Mild(y.s.op, Step(y, a).s.op) && Step(y, a) == y.(s := y.s.(op := Step(y, a).s.op))
  {
  }

  lemma ControlKeepsInv(y: Sys, a: Action)
    requires Inv(y)
    requires a.ActivateRouting? || a.LookUp? || a.CheckRoute? || a.OpenStream? || a.Resolve? || a.Begin? ||
             a.Confirm? || a.Cancel?
    ensures Inv(Step(y, a))
  {
    if a.LookUp? || a.CheckRoute? || a.OpenStream? {
      PassiveKeepsInv(y, a);
    } else {
      hide Inv, Step, Mild;
      ControlIsMild(y, a);
      MildKeepsInv(y, Step(y, a).s.op);
    }
  }

  lemma PassiveKeepsInv(y: Sys, a: Action)
    requires Inv(y) && (a.LookUp? || a.CheckRoute? || a.OpenStream?)
    ensures Inv(Step(y, a))
  {
    assert Coming(Step(y, a)) == Coming(y);
  }

  lemma {:induction false} Reachable(threadId: string, actions: seq<Action>)
    ensures Inv(Run(Init(threadId), actions))
  {
    if actions == [] {
      assert NEW_CURSOR == AdvanceAll(NEW_CURSOR, []);
    } else {
      var before, a := actions[..|actions|-1], actions[|actions|-1];
      Reachable(threadId, before);
      var y := Run(Init(threadId), before);
      match a
      case Accept => AcceptKeepsInv(y);
      case Enqueue => EnqueueKeepsInv(y);
      case FailAll => FailKeepsInv(y);
      case NextRound(confirmed) => RoundKeepsInv(y, confirmed);
      case Close => CloseKeepsInv(y, a);
      case Abandon => CloseKeepsInv(y, a);
      case _ => ControlKeepsInv(y, a);
    }
  }

  // ----- whole runs ------------------------------------------------------------------------

  /** One round of an open stream either closes it, if the first queued item ends it, or moves
      the cursor past that item. */
  lemma RoundShape(y: Sys, confirmed: bool)
    requires y.streaming && y.s.op.logicalTurnId.Some?
    requires !y.s.closed && y.s.pending == [] && y.s.fifo != []
    ensures var z := Step(y, NextRound(confirmed));
            var x := y.s.fifo[0];
            if !x.Note? || VerdictAt(Advance(y.s.cursor, x.n), x.n) != Proceed then z.s.closed
            else z.streaming && !z.s.closed && z.s.fifo == y.s.fifo[1..] && z.s.cursor == Advance(y.s.cursor, x.n)
  {
  }

  /** The consumer keeps asking and nothing else happens. */
  ghost function Drain(y: Sys, confirmed: bool): Sys
    requires Inv(y)
    decreases |y.s.fifo|
  {
    if !y.streaming || y.s.closed || y.s.fifo == [] then y else
    RoundKeepsInv(y, confirmed);
    RoundShape(y, confirmed);
    var z := Step(y, NextRound(confirmed));
    if z.s.closed then z else Drain(z, confirmed)
  }

  /** What is queued closes the stream if and only if it ends it. */
  lemma {:induction false} DrainClosesExactly(y: Sys, confirmed: bool)
    requires Inv(y) && y.streaming && !y.s.closed
    ensures Drain(y, confirmed).s.closed <==> EndsIn(y.s.cursor, y.s.fifo)
    decreases |y.s.fifo|
  {
    if y.s.fifo != [] {
      RoundKeepsInv(y, confirmed);
      RoundShape(y, confirmed);
      var z := Step(y, NextRound(confirmed));
      if !z.s.closed {
        DrainClosesExactly(z, confirmed);
      }
    }
  }

  /** The reader puts what it has accepted into the queue, if it has not yet. */
  ghost function HandEmptied(y: Sys): Sys { Step(y, Enqueue) }

  /** No stranded consumer, over every interleaving: once the reader has finished the goal, or the
      route is gone for any reason, a consumer that keeps asking reaches the end of its stream
      without a further notification; it waits at most for the reader to queue the one in its hand. */
  lemma NoStrandedStream(threadId: string, actions: seq<Action>, confirmed: bool)
    requires var y := Run(Init(threadId), actions);
             y.streaming && !y.s.closed && (!y.s.registered || y.s.op.finished)
    ensures var y := HandEmptied(Run(Init(threadId), actions));
            Inv(y) && Drain(y, confirmed).s.closed
  {
    var y := Run(Init(threadId), actions);
    Reachable(threadId, actions);
    EnqueueKeepsInv(y);
    assert Coming(HandEmptied(y)) == HandEmptied(y).s.fifo;
    DrainClosesExactly(HandEmptied(y), confirmed);
  }

  /** When nothing is in the reader's hand, it waits for nothing at all. */
  lemma NoStrandedStreamAtRest(threadId: string, actions: seq<Action>, confirmed: bool)
    requires var y := Run(Init(threadId), actions);
             y.streaming && !y.s.closed && (!y.s.registered || y.s.op.finished) && !y.reader.Observed?
    ensures var y := Run(Init(threadId), actions);
            Inv(y) && Drain(y, confirmed).s.closed
  {
    Reachable(threadId, actions);
    NoStrandedStream(threadId, actions, confirmed);
  }

  // ----- the flag of a concluded stream ---------------------------------------------------------------------------

  /** A closed stream stays as it ended, and only a confirmation sets the interrupted flag of its operation. */
  lemma {:induction false} FlagAfterClosing(y: Sys, actions: seq<Action>)
    requires y.s.closed && y.s.pending == []
    ensures var z := Run(y, actions);
            && z.s.closed && z.s.pending == [] && z.ending == y.ending && z.delivered == y.delivered
            && z.s.op.interrupted == (y.s.op.interrupted || Confirm in actions)
    decreases |actions|
  {
    if actions != [] {
      var before, a := actions[..|actions|-1], actions[|actions|-1];
      FlagAfterClosing(y, before);
      assert actions == before + [a];
      ClosedStep(Run(y, before), a);
    }
  }

  lemma ClosedStep(y: Sys, a: Action)
    requires y.s.closed
    ensures var z := Step(y, a);
            && z.s.closed && z.s.pending == y.s.pending && z.ending == y.ending && z.delivered == y.delivered
            && z.s.op.interrupted == (y.s.op.interrupted || a.Confirm?)
  {
    hide Observe, Accepts, StepNext, CloseStream, ResolveActiveTurn;
    match a
    case Accept => if y.reader.Found? { ObserveKeepsFlag(y.s.op, y.reader.n); }
    case Resolve(expected, active) => ResolveKeepsFlag(y.s.op, expected, active);
    case _ =>
  }

  lemma ObserveKeepsFlag(op: Op, n: Notification)
    ensures Observe(op, n).interrupted == op.interrupted
  {
  }

  lemma ResolveKeepsFlag(op: Op, expected: string, active: string)
    ensures ResolveActiveTurn(op, expected, active).interrupted == op.interrupted
  {
  }

  /** The step that concludes a stream reports the operation's flag. */
  lemma ConclusionReportsFlag(y: Sys, a: Action)
    requires Inv(y) && !y.s.closed && Step(y, a).ending.Concluded?
    ensures Step(y, a).s.closed && Step(y, a).s.op.interrupted == Step(y, a).ending.interrupted
  {
    assert a.NextRound?;
  }

  /** Over every interleaving, the flag that a concluded stream reported is still the operation's flag later on
      exactly if it was set already or no control has confirmed an interrupt since. */
  lemma ReportedFlagStaysExactlyWhen(threadId: string, before: seq<Action>, a: Action, after: seq<Action>)
    requires !Run(Init(threadId), before).s.closed
    requires Step(Run(Init(threadId), before), a).ending.Concluded?
    ensures var y := Step(Run(Init(threadId), before), a);
            var z := Run(y, after);
            && z.ending == y.ending && z.delivered == y.delivered
            && (z.s.op.interrupted == y.ending.interrupted <==> y.ending.interrupted || Confirm !in after)
  {
    var y := Run(Init(threadId), before);
    Reachable(threadId, before);
    ConclusionReportsFlag(y, a);
    Reachable(threadId, before + [a]);
    assert (before + [a])[..|before|] == before;
    FlagAfterClosing(Step(y, a), after);
  }
}

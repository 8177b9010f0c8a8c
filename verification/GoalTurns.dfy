/** What the operation records of the turns it accepts, over every interleaving, and the logical turn that its
    consumer is given. */
module GoalTurns {
  import opened Common
  import opened Notifications
  import opened Goal
  import opened GoalAgreement
  import opened GoalStream
  import opened GoalSystem

  /** `done` is the last turn completed in `ns`, if there is one. */
  ghost predicate IsLastCompletion(ns: seq<Notification>, done: Option<Turn>) {
    match done
    case None => !HasCompletion(ns)
    case Some(turn) =>
      exists i :: 0 <= i < |ns| && ns[i].payload.TurnCompleted? && ns[i].payload.turn == turn &&
                  forall j :: i < j < |ns| ==> !ns[j].payload.TurnCompleted?
  }

  lemma LastCompletionStep(p: seq<Notification>, n: Notification, done: Option<Turn>)
    requires IsLastCompletion(p, done)
    ensures IsLastCompletion(p + [n], if n.payload.TurnCompleted? then Some(n.payload.turn) else done)
  {
    var ns := p + [n];
    assert forall j :: 0 <= j < |p| ==> ns[j] == p[j];
    assert ns[|p|] == n;
    if n.payload.TurnCompleted? {
      assert ns[|p|].payload.TurnCompleted?;
    } else if done.Some? {
      var i :| 0 <= i < |p| && p[i].payload.TurnCompleted? && p[i].payload.turn == done.value &&
               forall j :: i < j < |p| ==> !p[j].payload.TurnCompleted?;
      assert ns[i].payload.TurnCompleted?;
    }
  }

  lemma FirstStartIsUnique(ns: seq<Notification>, a: Option<Turn>, b: Option<Turn>)
    requires IsFirstStart(ns, a) && IsFirstStart(ns, b)
    ensures a == b
  {
    if a.Some? && b.Some? {
      var i :| 0 <= i < |ns| && ns[i].payload.TurnStarted? && ns[i].payload.turn == a.value &&
               forall j :: 0 <= j < i ==> !ns[j].payload.TurnStarted?;
      var k :| 0 <= k < |ns| && ns[k].payload.TurnStarted? && ns[k].payload.turn == b.value &&
               forall j :: 0 <= j < k ==> !ns[j].payload.TurnStarted?;
      assert i == k;
    }
  }

  /** The first start in a prefix is the first start. */
  lemma FirstStartInPrefix(p: seq<Notification>, ns: seq<Notification>, turn: Turn)
    requires p <= ns && IsFirstStart(p, Some(turn))
    ensures IsFirstStart(ns, Some(turn))
  {
    var i :| 0 <= i < |p| && p[i].payload.TurnStarted? && p[i].payload.turn == turn &&
             forall j :: 0 <= j < i ==> !p[j].payload.TurnStarted?;
    assert ns[i] == p[i];
  }

  // ----- what is recorded --------------------------------------------------------------------------------

  /** The operation's record of its turns is that of the history, and its id is that of the first turn. */
  ghost predicate Recorded(op: Op, history: seq<Notification>) {
    && IsFirstStart(history, op.startedTurn)
    && op.logicalTurnId == (if op.startedTurn.Some? then Some(op.startedTurn.value.id) else None)
    && IsLastCompletion(history, op.completedTurn)
  }

  lemma ObservedTurns(op: Op, n: Notification)
    requires Accepts(op, n)
    ensures var t := Observe(op, n);
            && t.startedTurn ==
               (if op.startedTurn.None? && n.payload.TurnStarted? then Some(n.payload.turn) else op.startedTurn)
            && t.logicalTurnId ==
               (if op.logicalTurnId.None? && n.payload.TurnStarted? then Some(n.payload.turn.id) else op.logicalTurnId)
            && t.completedTurn == (if n.payload.TurnCompleted? then Some(n.payload.turn) else op.completedTurn)
            && t.routing == op.routing
  {
    hide Settled;
  }

  lemma ObserveRecords(op: Op, history: seq<Notification>, n: Notification)
    requires Recorded(op, history) && Accepts(op, n)
    ensures Recorded(Observe(op, n), history + [n]) && Observe(op, n).routing == op.routing
  {
    FirstStartStep(history, n, op.startedTurn);
    LastCompletionStep(history, n, op.completedTurn);
    ObservedTurns(op, n);
    hide IsFirstStart, IsLastCompletion, Observe, Accepts;
  }

  /** The operation's turns and its routing are the same. */
  predicate SameTurns(op: Op, after: Op) {
    && after.startedTurn == op.startedTurn && after.logicalTurnId == op.logicalTurnId
    && after.completedTurn == op.completedTurn && after.routing == op.routing
  }

  lemma ClosingKeepsTurns(s: Stream)
    ensures SameTurns(s.op, CloseStream(s).op)
  {
  }

  lemma ProcessingKeepsTurns(op: Op, v: Verdict, n: Notification, confirmed: bool)
    ensures SameTurns(op, OpAfter(op, v, n, confirmed))
  {
  }

  lemma PullKeepsTurns(s: Stream, confirmed: bool)
    requires s.fifo != []
    ensures SameTurns(s.op, Pull(s, confirmed).0.op)
  {
    hide EventsAt, VerdictAt, Advance, OpAfter, CloseStream;
    var rest := s.(fifo := s.fifo[1..]);
    ClosingKeepsTurns(rest);
    if s.fifo[0].Note? && s.op.logicalTurnId.Some? {
      var n, next := s.fifo[0].n, Advance(s.cursor, s.fifo[0].n);
      var v := VerdictAt(next, n);
      ProcessingKeepsTurns(s.op, v, n, confirmed);
      var op := OpAfter(s.op, v, n, confirmed);
      var events := EventsAt(s.cursor, n, s.op.logicalTurnId.value, op.interrupted);
      ClosingKeepsTurns(rest.(op := op, cursor := next, pending := s.pending + events));
    }
  }

  lemma RoundKeepsTurns(y: Sys, confirmed: bool)
    requires y.s.pending != [] || y.s.fifo != []
    ensures StepNext(y, confirmed).history == y.history && SameTurns(y.s.op, StepNext(y, confirmed).s.op)
  {
    hide Pull;
    if y.s.pending == [] {
      PullKeepsTurns(y.s, confirmed);
    }
  }

  lemma ResolvingKeepsTurns(op: Op, expected: string, active: string)
    ensures SameTurns(op, ResolveActiveTurn(op, expected, active))
  {
  }

  /** Only what is accepted changes the record, and only activation opens the routing. */
  lemma OthersKeepRecord(y: Sys, a: Action)
    requires a.Accept? ==> !y.reader.Found? || !Accepts(y.s.op, y.reader.n)
    ensures var z := Step(y, a);
            z.history == y.history && SameTurns(y.s.op.(routing := y.s.op.routing || a.ActivateRouting?), z.s.op)
  {
    hide StepNext, Observe, Accepts, CloseStream, ResolveActiveTurn;
    ClosingKeepsTurns(y.s);
    match a
    case NextRound(confirmed) =>
      if y.s.pending != [] || y.s.fifo != [] {
        RoundKeepsTurns(y, confirmed);
      }
    case Resolve(expected, active) => ResolvingKeepsTurns(y.s.op, expected, active);
    case _ =>
  }

  lemma {:induction false} RunRecords(threadId: string, actions: seq<Action>)
    ensures var y := Run(Init(threadId), actions);
            Recorded(y.s.op, y.history) && y.s.op.routing == (ActivateRouting in actions)
    decreases |actions|
  {
    if actions != [] {
      var before, a := actions[..|actions|-1], actions[|actions|-1];
      assert actions == before + [a];
      RunRecords(threadId, before);
      var y := Run(Init(threadId), before);
      hide Observe, Accepts, IsFirstStart, IsLastCompletion;
      if a.Accept? && y.reader.Found? && Accepts(y.s.op, y.reader.n) {
        ObserveRecords(y.s.op, y.history, y.reader.n);
      } else {
        hide Step;
        OthersKeepRecord(y, a);
      }
    }
  }

  /** Over every interleaving, the logical turn has the id of the first turn that the reader accepted the start of,
      and no id while there is none. */
  lemma LogicalTurnIsTheFirst(threadId: string, actions: seq<Action>, first: Option<Turn>)
    requires IsFirstStart(Run(Init(threadId), actions).history, first)
    ensures var op := Run(Init(threadId), actions).s.op;
            && op.logicalTurnId == (if first.Some? then Some(first.value.id) else None)
            && op.startedTurn == first
  {
    RunRecords(threadId, actions);
    var y := Run(Init(threadId), actions);
    FirstStartIsUnique(y.history, first, y.s.op.startedTurn);
  }

  /** Over every interleaving, the reader accepts what it found exactly if routing was activated before or the goal
      itself changed. */
  lemma AcceptedExactlyWhen(threadId: string, actions: seq<Action>, n: Notification)
    requires Run(Init(threadId), actions).reader == Found(n)
    ensures var y := Run(Init(threadId), actions);
            var z := Step(y, Accept);
            if ActivateRouting in actions || n.payload.GoalUpdated? || n.payload.GoalCleared?
            then z.history == y.history + [n] && z.reader == Observed(n)
            else z == y.(reader := Away)
  {
    RunRecords(threadId, actions);
  }

  /** Before routing is activated, only changes of the goal are accepted, and no turn is recorded. */
  lemma {:induction false} BeforeRouting(threadId: string, actions: seq<Action>)
    requires ActivateRouting !in actions
    ensures var y := Run(Init(threadId), actions);
            && (forall n :: n in y.history ==> n.payload.GoalUpdated? || n.payload.GoalCleared?)
            && y.s.op.startedTurn.None? && y.s.op.logicalTurnId.None? && y.s.op.completedTurn.None?
    decreases |actions|
  {
    if actions != [] {
      var before, a := actions[..|actions|-1], actions[|actions|-1];
      assert actions == before + [a];
      BeforeRouting(threadId, before);
      RunRecords(threadId, before);
      var y := Run(Init(threadId), before);
      hide Recorded, Observe;
      if a.Accept? && y.reader.Found? && Accepts(y.s.op, y.reader.n) {
        ObservedTurns(y.s.op, y.reader.n);
        assert Step(y, a).history == y.history + [y.reader.n];
      } else {
        hide Step;
        OthersKeepRecord(y, a);
      }
    }
  }

  /** Only a control that knows the current turn replaces it, and then by the one it was told. */
  lemma ResolvesOnlyTheExpected(y: Sys, expected: string, active: string)
    ensures var z := Step(y, Resolve(expected, active));
            && z == y.(s := y.s.(op := y.s.op.(currentTurnId := z.s.op.currentTurnId)))
            && z.s.op.currentTurnId.Some?
            && (y.s.op.currentTurnId.Some? && y.s.op.currentTurnId.value != expected ==> z == y)
            && (y.s.op.currentTurnId.None? || y.s.op.currentTurnId.value == expected ==>
                  z.s.op.currentTurnId.value == active)
  {
  }

  // ----- the route -----------------------------------------------------------------------------------------

  /** The reader has accepted a notification and has not yet checked whether the operation has finished. */
  predicate Busy(reader: Reader) { reader.Observed? || reader.Checking? }

  ghost predicate RouteTold(y: Sys, failed: bool) {
    && (y.s.op.finished && !Busy(y.reader) ==> !y.s.registered)
    && (!y.s.registered ==> y.s.op.finished || failed)
    && (y.s.closed ==> !y.s.registered)
  }

  lemma ClosingDropsRoute(s: Stream)
    ensures !s.closed ==> CloseStream(s).op.finished && !CloseStream(s).registered && CloseStream(s).closed
    ensures s.closed ==> CloseStream(s) == s
  {
  }

  lemma GoingOnKeepsOp(op: Op, n: Notification, confirmed: bool)
    ensures OpAfter(op, Proceed, n, confirmed) == op
  {
  }

  /** One turn of the iterator's loop closes the stream, or leaves route and operation open. */
  lemma PullKeepsRoute(s: Stream, confirmed: bool)
    requires s.fifo != [] && !s.closed
    ensures var t := Pull(s, confirmed).0;
            if t.closed then t.op.finished && !t.registered
            else t.op.finished == s.op.finished && t.registered == s.registered
  {
    hide EventsAt, VerdictAt, Advance, OpAfter, CloseStream;
    var rest := s.(fifo := s.fifo[1..]);
    ClosingDropsRoute(rest);
    if s.fifo[0].Note? && s.op.logicalTurnId.Some? {
      var n, next := s.fifo[0].n, Advance(s.cursor, s.fifo[0].n);
      var v := VerdictAt(next, n);
      var op := OpAfter(s.op, v, n, confirmed);
      var events := EventsAt(s.cursor, n, s.op.logicalTurnId.value, op.interrupted);
      ClosingDropsRoute(rest.(op := op, cursor := next, pending := s.pending + events));
      GoingOnKeepsOp(s.op, n, confirmed);
    }
  }

  lemma RoundKeepsRoute(y: Sys, confirmed: bool, failed: bool)
    requires RouteTold(y, failed)
    ensures RouteTold(Step(y, NextRound(confirmed)), failed)
  {
    hide Pull;
    if y.streaming && !y.s.closed && y.s.pending == [] && y.s.fifo != [] {
      PullKeepsRoute(y.s, confirmed);
    }
  }

  lemma ReaderKeepsRoute(y: Sys, a: Action, failed: bool)
    requires RouteTold(y, failed) && (a.LookUp? || a.Accept? || a.Enqueue? || a.CheckRoute?)
    ensures RouteTold(Step(y, a), failed)
  {
    hide Record, Settled, Accepts;
  }

  lemma OthersKeepRoute(y: Sys, a: Action, failed: bool)
    requires RouteTold(y, failed) && (a.FailAll? ==> failed)
    requires !a.LookUp? && !a.Accept? && !a.Enqueue? && !a.CheckRoute? && !a.NextRound?
    ensures RouteTold(Step(y, a), failed)
  {
    hide CloseStream;
    ClosingDropsRoute(y.s);
  }

  lemma {:induction false} RunTellsRoute(threadId: string, actions: seq<Action>, failed: bool)
    requires FailAll in actions ==> failed
    ensures RouteTold(Run(Init(threadId), actions), failed)
    decreases |actions|
  {
    if actions != [] {
      var before, a := actions[..|actions|-1], actions[|actions|-1];
      assert actions == before + [a];
      RunTellsRoute(threadId, before, failed);
      var y := Run(Init(threadId), before);
      hide RouteTold, Step;
      match a
      case NextRound(confirmed) => RoundKeepsRoute(y, confirmed, failed);
      case LookUp(_) => ReaderKeepsRoute(y, a, failed);
      case Accept => ReaderKeepsRoute(y, a, failed);
      case Enqueue => ReaderKeepsRoute(y, a, failed);
      case CheckRoute => ReaderKeepsRoute(y, a, failed);
      case _ => OthersKeepRoute(y, a, failed);
    }
  }

  /** Over every interleaving, while the reader is not about to check it, the route is gone if the operation has
      finished, and only then or because the transport failed. */
  lemma RouteGoneExactlyWhen(threadId: string, actions: seq<Action>)
    requires !Busy(Run(Init(threadId), actions).reader) && FailAll !in actions
    ensures var y := Run(Init(threadId), actions);
            !y.s.registered <==> y.s.op.finished
  {
    RunTellsRoute(threadId, actions, false);
  }

  /** Without a route nothing more is accepted, whatever happens. */
  lemma {:induction false} NothingWithoutRoute(y: Sys, actions: seq<Action>)
    requires !y.s.registered && y.reader.Away?
    ensures var z := Run(y, actions);
            z.history == y.history && !z.s.registered && z.reader.Away?
    decreases |actions|
  {
    if actions != [] {
      NothingWithoutRoute(y, actions[..|actions|-1]);
      RouteStaysGone(Run(y, actions[..|actions|-1]), actions[|actions|-1]);
    }
  }

  lemma RouteStaysGone(y: Sys, a: Action)
    requires !y.s.registered && y.reader.Away?
    ensures var z := Step(y, a);
            z.history == y.history && !z.s.registered && z.reader.Away?
  {
    hide EventsAt, VerdictAt, Advance, OpAfter, Observe, Accepts, ResolveActiveTurn;
  }

  // ----- interrupts ----------------------------------------------------------------------------------------

  /** Over every interleaving, once the operation has finished and no interrupt is outstanding, none will be: nothing
      that reads the flag will have to wait. */
  lemma {:induction false} NoRequestAfterFinish(y: Sys, actions: seq<Action>)
    requires y.s.op.finished && !y.s.op.interruptRequested
    ensures var op := Run(y, actions).s.op; op.finished && !op.interruptRequested
    decreases |actions|
  {
    if actions != [] {
      NoRequestAfterFinish(y, actions[..|actions|-1]);
      StepRequestsNothing(Run(y, actions[..|actions|-1]), actions[|actions|-1]);
    }
  }

  predicate AtRest(op: Op) { op.finished && !op.interruptRequested }

  lemma ClosingIsAtRest(s: Stream)
    requires AtRest(s.op)
    ensures AtRest(CloseStream(s).op)
  {
  }

  lemma PullIsAtRest(s: Stream, confirmed: bool)
    requires s.fifo != [] && AtRest(s.op)
    ensures AtRest(Pull(s, confirmed).0.op)
  {
    hide EventsAt, VerdictAt, Advance, OpAfter, CloseStream, AtRest;
    var rest := s.(fifo := s.fifo[1..]);
    ClosingIsAtRest(rest);
    if s.fifo[0].Note? && s.op.logicalTurnId.Some? {
      var n, next := s.fifo[0].n, Advance(s.cursor, s.fifo[0].n);
      var v := VerdictAt(next, n);
      ProcessingIsAtRest(s.op, v, n, confirmed);
      var op := OpAfter(s.op, v, n, confirmed);
      var events := EventsAt(s.cursor, n, s.op.logicalTurnId.value, op.interrupted);
      ClosingIsAtRest(rest.(op := op, cursor := next, pending := s.pending + events));
    }
  }

  lemma ProcessingIsAtRest(op: Op, v: Verdict, n: Notification, confirmed: bool)
    requires AtRest(op)
    ensures AtRest(OpAfter(op, v, n, confirmed))
  {
  }

  lemma ObservingIsAtRest(op: Op, n: Notification)
    requires AtRest(op)
    ensures AtRest(Observe(op, n))
  {
    hide Settled;
  }

  lemma StepRequestsNothing(y: Sys, a: Action)
    requires AtRest(y.s.op)
    ensures AtRest(Step(y, a).s.op)
  {
    hide Pull, Observe, CloseStream, Accepts;
    ClosingIsAtRest(y.s);
    match a
    case NextRound(confirmed) => if y.s.pending == [] && y.s.fifo != [] { PullIsAtRest(y.s, confirmed); }
    case Accept => if y.reader.Found? { ObservingIsAtRest(y.s.op, y.reader.n); }
    case _ =>
  }

  // ----- what the consumer is given ----------------------------------------------------------------------

  /** Over every interleaving, a stream that concluded has given its consumer one logical turn made of a prefix of
      what the reader accepted, under the id of the first turn accepted, and nothing was left in its pending queue. */
  lemma ConcludedStreamIsWhole(threadId: string, actions: seq<Action>)
    returns (first: Turn, started: Option<Turn>, carrier: int)
    requires Run(Init(threadId), actions).ending.Concluded?
    ensures var y := Run(Init(threadId), actions);
            && y.s.closed && y.s.pending == []
            && y.consumed <= y.history && FirstEnd(y.consumed)
            && IsFirstStart(y.history, Some(first))
            && IsFirstStart(y.consumed, started) && (started.Some? ==> started.value == first)
            && |y.delivered| == |Visible(y.consumed, first.id)| + 1
            && y.delivered[..|y.delivered|-1] == Visible(y.consumed, first.id)
            && IsCarrier(y.consumed, carrier)
            && var last := y.consumed[|y.consumed|-1];
               IsLogicalCompletion(y.delivered[|y.delivered|-1],
                                   if last.payload.TurnCompleted? then last.methodName else "turn/completed",
                                   first.id, started, y.consumed[carrier], y.ending.interrupted)
  {
    Reachable(threadId, actions);
    RunRecords(threadId, actions);
    var y := Run(Init(threadId), actions);
    first := y.s.op.startedTurn.value;
    started, carrier := StreamIsOneLogicalTurn(y.consumed, first.id, y.ending.interrupted);
    if started.Some? {
      FirstStartInPrefix(y.consumed, y.history, started.value);
      FirstStartIsUnique(y.history, started, Some(first));
    }
  }

  /** Until it concludes, a stream has given its consumer every visible notification it consumed, under that id. */
  lemma UnfinishedStreamIsPrefix(threadId: string, actions: seq<Action>) returns (first: Turn)
    requires var y := Run(Init(threadId), actions); y.streaming && !y.ending.Concluded?
    ensures var y := Run(Init(threadId), actions);
            && IsFirstStart(y.history, Some(first))
            && y.consumed <= y.history
            && y.delivered == Visible(y.consumed, first.id)
  {
    Reachable(threadId, actions);
    RunRecords(threadId, actions);
    first := Run(Init(threadId), actions).s.op.startedTurn.value;
  }

  // ----- one call of the iterator ------------------------------------------------------------------------

  lemma {:induction false} RunFirst(y: Sys, a: Action, rest: seq<Action>)
    ensures Run(y, [a] + rest) == Run(Step(y, a), rest)
    decreases |rest|
  {
    var all := [a] + rest;
    if rest == [] {
      assert all == [a] && all[..0] == [];
      assert Run(y, all[..0]) == y;
    } else {
      assert all[..|all|-1] == [a] + rest[..|rest|-1] && all[|all|-1] == rest[|rest|-1];
      RunFirst(y, a, rest[..|rest|-1]);
    }
  }

  /** What the consumer is told by the rounds from `y` to `z`. */
  ghost predicate Tells(y: Sys, z: Sys, result: NextResult) {
    match result
    case Event(e) => z.delivered == y.delivered + [e]
    case Waiting => z.delivered == y.delivered && !z.s.closed && z.s.fifo == []
    case StopIteration => z.delivered == y.delivered && z.s.closed
    case Raised => z.delivered == y.delivered && z.s.closed && z.ending == Aborted
  }

  /** One processed notification leaves at most one event, and exactly one if it ends the stream. */
  lemma ProcessedEvents(y: Sys, n: Notification, v: Verdict, flag: bool)
    requires Processes(y, n, v)
    ensures var events := EventsAt(y.s.cursor, n, LogicalId(y.s.op), flag);
            |events| <= 1 && (v.End? ==> |events| == 1) && (v.Raise? ==> events == [])
  {
    ServeOne(y.s.cursor, y.consumed, y.delivered, LogicalId(y.s.op), n, flag);
  }

  /** What one turn of the iterator's loop leaves behind: an answer, or nothing or one event, and then it goes on. */
  lemma PullShape(y: Sys, confirmed: bool)
    requires Inv(y) && y.streaming && !y.s.closed && y.s.fifo != []
    ensures var (t, r) := Pull(y.s, confirmed);
            if r.Some? then t.closed && (r.value.Raised? || r.value.StopIteration?) && t.pending == []
            else |t.pending| <= 1 && (t.pending == [] ==> !t.closed && t.fifo == y.s.fifo[1..])
  {
    if y.s.fifo[0].Note? {
      var n := y.s.fifo[0].n;
      var v := VerdictAt(Advance(y.s.cursor, n), n);
      var flag := OpAfter(y.s.op, v, n, confirmed).interrupted;
      assert Processes(y, n, v);
      ProcessedEvents(y, n, v, flag);
      hide EventsAt, VerdictAt, Advance, OpAfter, Inv;
    }
  }

  /** A round does what one turn of the iterator's loop does, and hands out the event if there is one. */
  lemma RoundIsPull(y: Sys, confirmed: bool)
    requires y.streaming && !y.s.closed && y.s.pending == [] && y.s.fifo != []
    ensures var (t, r) := Pull(y.s, confirmed);
            var z := Step(y, NextRound(confirmed));
            && z.streaming
            && (if r.Some? || t.pending == [] then z.s == t && z.delivered == y.delivered
                else z.s == t.(pending := t.pending[1..]) && z.delivered == y.delivered + [t.pending[0]])
            && (r.Some? && t.closed ==> z.ending == Aborted)
  {
    var (t, r) := Pull(y.s, confirmed);
    assert r.Some? || r.None?;
    hide Pull;
  }

  /** One call of the iterator goes around its loop once, and then on. */
  lemma NextUnfolds(s: Stream, confirmed: bool)
    requires !s.closed && s.pending == [] && s.fifo != []
    ensures var (t, r) := Pull(s, confirmed);
            if r.Some? then Next(s, confirmed) == (t, r.value)
            else if t.pending != [] then Next(s, confirmed) == (t.(pending := t.pending[1..]), Event(t.pending[0]))
            else !t.closed ==> Next(s, confirmed) == Next(t, confirmed)
  {
    var (t, r) := Pull(s, confirmed);
    assert r.Some? || r.None?;
    hide Pull;
    if r.None? {
      assert NextLoop(s, confirmed) == NextLoop(t, confirmed);
    }
  }

  /** One call of the iterator on an open stream is a number of rounds with nothing in between; it hands out what they
      deliver, and without an event it raises, ends or waits on an empty queue. */
  lemma {:induction false} NextIsRounds(y: Sys, confirmed: bool) returns (rounds: seq<Action>)
    requires Inv(y) && y.streaming && !y.s.closed
    ensures forall a :: a in rounds ==> a == NextRound(confirmed)
    ensures Next(y.s, confirmed).0 == Run(y, rounds).s
    ensures Tells(y, Run(y, rounds), Next(y.s, confirmed).1)
    decreases |y.s.fifo|
  {
    rounds := [];
    if y.s.fifo != [] {
      PullShape(y, confirmed);
      RoundIsPull(y, confirmed);
      RoundKeepsInv(y, confirmed);
      assert y.s.pending == [];
      var (t, r) := Pull(y.s, confirmed);
      assert r.Some? || r.None?;
      var z := Step(y, NextRound(confirmed));
      NextUnfolds(y.s, confirmed);
      hide Step, Inv, Pull, Next;
      rounds := [NextRound(confirmed)];
      RunFirst(y, NextRound(confirmed), []);
      assert rounds + [] == rounds && Run(y, rounds) == z;
      if r.None? && t.pending == [] {
        var rest := NextIsRounds(z, confirmed);
        rounds := [NextRound(confirmed)] + rest;
        RunFirst(y, NextRound(confirmed), rest);
      }
    }
  }
}

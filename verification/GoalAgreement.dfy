/** How the reader's verdict and the consumer's verdict on one goal operation relate. */
module GoalAgreement {
  import opened Common
  import opened Notifications
  import opened Goal

  /** The operation state that a stream is opened on: routed, nothing observed. */
  function Routed(threadId: string): Op { NewOp(threadId).(routing := true) }

  // ----- the histories, one notification at a time ------------------------

  lemma GoalOverStep(p: seq<Notification>, n: Notification)
    ensures GoalOver(p + [n]) <==> Closes(n) || (GoalOver(p) && !Reopens(n))
  {
    var ns := p + [n];
    if GoalOver(ns) {
      var i :| 0 <= i < |ns| && Closes(ns[i]) && forall j :: i < j < |ns| ==> !Reopens(ns[j]);
      if i < |p| {
        assert !Reopens(ns[|p|]);
        assert forall j :: i < j < |p| ==> p[j] == ns[j];
        assert Closes(p[i]);
      }
    }
    if Closes(n) {
      assert Closes(ns[|p|]);
    } else if GoalOver(p) && !Reopens(n) {
      var i :| 0 <= i < |p| && Closes(p[i]) && forall j :: i < j < |p| ==> !Reopens(p[j]);
      assert Closes(ns[i]);
      assert forall j :: i < j < |ns| ==> !Reopens(ns[j]);
    }
  }

  lemma StartsLastStep(p: seq<Notification>, n: Notification, i: int)
    requires 0 <= i <= |p|
    ensures StartsLast(p + [n], i) <==>
            if i == |p| then n.payload.TurnStarted? else StartsLast(p, i) && !n.payload.TurnStarted?
  {
    var ns := p + [n];
    if i < |p| {
      assert ns[|p|] == n;
      assert forall j :: i < j < |p| ==> p[j] == ns[j];
    }
  }

  lemma FollowedStep(p: seq<Notification>, n: Notification, i: int)
    requires 0 <= i < |p|
    ensures Followed(p + [n], i) <==> Followed(p, i) || n.payload.TurnCompleted?
  {
    var ns := p + [n];
    assert forall j :: 0 <= j < |p| ==> ns[j] == p[j];
    assert ns[|p|] == n;
    if Followed(p, i) {
      var j :| i < j < |p| && p[j].payload.TurnCompleted?;
      assert ns[j].payload.TurnCompleted?;
    }
  }

  lemma StreamIdleStep(p: seq<Notification>, n: Notification)
    ensures StreamIdle(p + [n]) <==>
            !n.payload.TurnStarted? && (n.payload.TurnCompleted? || StreamIdle(p))
  {
    var ns := p + [n];
    forall i | 0 <= i < |p|
      ensures StartsLast(ns, i) <==> StartsLast(p, i) && !n.payload.TurnStarted?
      ensures Followed(ns, i) <==> Followed(p, i) || n.payload.TurnCompleted?
    {
      StartsLastStep(p, n, i);
      FollowedStep(p, n, i);
    }
    StartsLastStep(p, n, |p|);
  }

  lemma HasCompletionStep(p: seq<Notification>, n: Notification)
    ensures HasCompletion(p + [n]) <==> HasCompletion(p) || n.payload.TurnCompleted?
  {
    var ns := p + [n];
    assert forall i :: 0 <= i < |p| ==> ns[i] == p[i];
    assert ns[|p|] == n;
    if HasCompletion(p) {
      var i :| 0 <= i < |p| && p[i].payload.TurnCompleted?;
      assert ns[i].payload.TurnCompleted?;
    }
  }

  lemma NoGoalEventStep(p: seq<Notification>, n: Notification)
    ensures NoGoalEvent(p + [n]) <==> NoGoalEvent(p) && !IsGoalEvent(n)
  {
    var ns := p + [n];
    assert forall i :: 0 <= i < |p| ==> ns[i] == p[i];
    assert ns[|p|] == n;
  }

  // ----- the consumer ------------------------------------------------------

  /** The cursor's flags say what its history says. */
  lemma {:induction false} CursorReadsHistory(ns: seq<Notification>)
    ensures var c := AdvanceAll(NEW_CURSOR, ns);
            && (Over(c) <==> GoalOver(ns))
            && (c.active <==> !StreamIdle(ns))
            && (c.lastCompleted.Some? <==> HasCompletion(ns))
            && (c.status.None? && !c.cleared <==> NoGoalEvent(ns))
  {
    if ns != [] {
      var p, n := ns[..|ns|-1], ns[|ns|-1];
      assert ns == p + [n];
      CursorReadsHistory(p);
      GoalOverStep(p, n);
      StreamIdleStep(p, n);
      HasCompletionStep(p, n);
      NoGoalEventStep(p, n);
    }
  }

  /** The stream ends exactly where the history says it should. */
  lemma StreamEndsExactly(ns: seq<Notification>)
    ensures EndsAt(NEW_CURSOR, ns) <==> StreamDone(ns)
  {
    CursorReadsHistory(ns);
    if ns != [] {
      var p, n := ns[..|ns|-1], ns[|ns|-1];
      assert ns == p + [n];
      StreamIdleStep(p, n);
    }
  }

  // ----- the reader --------------------------------------------------------

  /** `current` names the latest started turn until that turn is answered. */
  ghost predicate CurrentIs(ns: seq<Notification>, current: Option<string>) {
    && (forall i :: 0 <= i < |ns| && StartsLast(ns, i) ==>
          current == if Answered(ns, i) then None else Some(ns[i].payload.turn.id))
    && (current.Some? ==> exists i :: 0 <= i < |ns| && StartsLast(ns, i))
  }

  lemma AnsweredStep(p: seq<Notification>, n: Notification, i: int)
    requires 0 <= i < |p| && p[i].payload.TurnStarted?
    ensures Answered(p + [n], i) <==> Answered(p, i) || Completes(n, p[i].payload.turn)
  {
    var ns := p + [n];
    assert forall j :: 0 <= j < |p| ==> ns[j] == p[j];
    assert ns[|p|] == n;
    if Answered(p, i) {
      var j :| i < j < |p| && Completes(p[j], p[i].payload.turn);
      assert Completes(ns[j], ns[i].payload.turn);
    }
    if Completes(n, p[i].payload.turn) {
      assert Completes(ns[|p|], ns[i].payload.turn);
    }
  }

  lemma CurrentAnswer(p: seq<Notification>, n: Notification, i: nat, op: Op)
    requires CurrentIs(p, op.currentTurnId) && i <= |p| && StartsLast(p + [n], i)
    requires i < |p| ==> StartsLast(p, i) && !n.payload.TurnStarted?
    ensures Record(op, n).currentTurnId ==
            if Answered(p + [n], i) then None else Some((p + [n])[i].payload.turn.id)
  {
    if i < |p| {
      AnsweredStep(p, n, i);
    }
  }

  lemma CurrentStep(p: seq<Notification>, n: Notification, op: Op)
    requires CurrentIs(p, op.currentTurnId)
    ensures CurrentIs(p + [n], Record(op, n).currentTurnId)
  {
    var ns := p + [n];
    StartsLastStep(p, n, |p|);
    forall i | 0 <= i < |p|
      ensures StartsLast(ns, i) <==> StartsLast(p, i) && !n.payload.TurnStarted?
    {
      StartsLastStep(p, n, i);
    }
    forall i | 0 <= i < |ns| && StartsLast(ns, i)
      ensures Record(op, n).currentTurnId == if Answered(ns, i) then None else Some(ns[i].payload.turn.id)
    {
      CurrentAnswer(p, n, i, op);
    }
    if op.currentTurnId.Some? && !n.payload.TurnStarted? {
      var i :| 0 <= i < |p| && StartsLast(p, i);
      assert StartsLast(ns, i);
    }
  }

  lemma ObserveAllStep(op: Op, p: seq<Notification>, n: Notification)
    ensures ObserveAll(op, p + [n]) == Observe(ObserveAll(op, p), n)
  {
    assert (p + [n])[..|p|] == p;
  }

  lemma ObserveRecords(op: Op, n: Notification)
    requires op.routing
    ensures var t := Observe(op, n);
            var c := Record(op, n);
            && t.routing && t.currentTurnId == c.currentTurnId && t.completedTurn == c.completedTurn
            && t.status == c.status && t.cleared == c.cleared
  {
  }

  lemma ClosureRecorded(op: Op, n: Notification)
    ensures var t := Record(op, n);
            && (t.cleared || Terminal(t.status) <==>
                  Closes(n) || ((op.cleared || Terminal(op.status)) && !Reopens(n)))
            && (t.completedTurn.Some? <==> op.completedTurn.Some? || n.payload.TurnCompleted?)
  {
  }

  lemma {:induction false} ObserverTracksTurn(threadId: string, ns: seq<Notification>)
    ensures var op := ObserveAll(Routed(threadId), ns);
            op.routing && CurrentIs(ns, op.currentTurnId)
  {
    if ns != [] {
      var p, n := ns[..|ns|-1], ns[|ns|-1];
      assert ns == p + [n];
      ObserverTracksTurn(threadId, p);
      var op := ObserveAll(Routed(threadId), p);
      ObserveAllStep(Routed(threadId), p, n);
      ObserveRecords(op, n);
      CurrentStep(p, n, op);
    }
  }

  lemma {:induction false} ObserverTracksGoal(threadId: string, ns: seq<Notification>)
    ensures var op := ObserveAll(Routed(threadId), ns);
            && op.routing
            && (op.completedTurn.Some? <==> HasCompletion(ns))
            && (op.cleared || Terminal(op.status) <==> GoalOver(ns))
  {
    if ns != [] {
      var p, n := ns[..|ns|-1], ns[|ns|-1];
      assert ns == p + [n];
      ObserverTracksGoal(threadId, p);
      var op := ObserveAll(Routed(threadId), p);
      ObserveAllStep(Routed(threadId), p, n);
      ObserveRecords(op, n);
      ClosureRecorded(op, n);
      HasCompletionStep(p, n);
      GoalOverStep(p, n);
    }
  }

  /** The reader is settled exactly on a finished goal. */
  lemma ObserverReadsHistory(threadId: string, ns: seq<Notification>)
    ensures Settled(ObserveAll(Routed(threadId), ns)) <==> RouteDone(ns)
  {
    ObserverTracksTurn(threadId, ns);
    ObserverTracksGoal(threadId, ns);
    assert ObserveAll(Routed(threadId), ns).currentTurnId.None? <==> RouteIdle(ns);
  }

  /** `P` holds of some prefix of `ns`. */
  ghost predicate Sometime(P: seq<Notification> -> bool, ns: seq<Notification>) {
    exists k :: 0 <= k <= |ns| && P(ns[..k])
  }

  lemma SometimeStep(P: seq<Notification> -> bool, p: seq<Notification>, n: Notification)
    ensures Sometime(P, p + [n]) <==> Sometime(P, p) || P(p + [n])
  {
    var ns := p + [n];
    assert forall k :: 0 <= k <= |p| ==> ns[..k] == p[..k];
    assert ns[..|ns|] == ns;
    if Sometime(P, p) {
      var k :| 0 <= k <= |p| && P(p[..k]);
      assert P(ns[..k]);
    }
    if P(ns) {
      assert P(ns[..|ns|]);
    }
  }

  lemma FinishedStep(op: Op, p: seq<Notification>, n: Notification)
    requires ObserveAll(op, p).routing
    ensures ObserveAll(op, p + [n]).finished <==>
            ObserveAll(op, p).finished || Settled(ObserveAll(op, p + [n]))
  {
    assert (p + [n])[..|p|] == p;
  }

  /** The reader cuts the route exactly if some prefix of what it accepted is a finished goal. */
  lemma {:induction false} RouteCutExactly(threadId: string, ns: seq<Notification>)
    ensures ObserveAll(Routed(threadId), ns).finished <==> Sometime(RouteDone, ns)
  {
    if ns == [] {
      assert forall k :: 0 <= k <= |ns| ==> !RouteDone(ns[..k]);
    } else {
      var p, n := ns[..|ns|-1], ns[|ns|-1];
      assert ns == p + [n];
      RouteCutExactly(threadId, p);
      ObserverTracksTurn(threadId, p);
      FinishedStep(Routed(threadId), p, n);
      ObserverReadsHistory(threadId, ns);
      SometimeStep(RouteDone, p, n);
    }
  }

  // ----- agreement ---------------------------------------------------------

  lemma RouteDoneIsStreamDone(ns: seq<Notification>)
    requires RouteDone(ns)
    ensures StreamDone(ns)
  {
    forall i | 0 <= i < |ns| && StartsLast(ns, i) ensures Followed(ns, i) {
      assert Answered(ns, i);
    }
  }

  /** No stranded consumer: once the reader has cut the route, what it accepted so far
      is enough to make the stream complete or raise. */
  lemma NoStrandedConsumer(threadId: string, ns: seq<Notification>)
    requires ObserveAll(Routed(threadId), ns).finished
    ensures Ends(NEW_CURSOR, ns)
  {
    RouteCutExactly(threadId, ns);
    var k :| 0 <= k <= |ns| && RouteDone(ns[..k]);
    RouteDoneIsStreamDone(ns[..k]);
    StreamEndsExactly(ns[..k]);
  }

  /** `ns` ends the stream and no shorter prefix does. */
  ghost predicate FirstEnd(ns: seq<Notification>) {
    EndsAt(NEW_CURSOR, ns) && forall k :: 0 <= k < |ns| ==> !EndsAt(NEW_CURSOR, ns[..k])
  }

  /** Where the stream ends, the route is cut as well if and only if the latest physical
      turn got its own completion and the goal is over. */
  lemma EndTogetherExactlyWhen(threadId: string, ns: seq<Notification>)
    requires FirstEnd(ns)
    ensures ObserveAll(Routed(threadId), ns).finished <==> RouteIdle(ns) && GoalOver(ns)
  {
    RouteCutExactly(threadId, ns);
    StreamEndsExactly(ns);
    assert ns[..|ns|] == ns;
    assert HasCompletion(ns) by {
      if StreamDone(ns) && !HasCompletion(ns) {
        assert ns[|ns|-1].payload.TurnCompleted?;
      }
    }
    if RouteDone(ns) {
      assert RouteDone(ns[..|ns|]);
    }
    forall k | 0 <= k < |ns| ensures !RouteDone(ns[..k]) {
      StreamEndsExactly(ns[..k]);
      if RouteDone(ns[..k]) {
        RouteDoneIsStreamDone(ns[..k]);
      }
    }
  }

  /** What the server promises: every completion belongs to the latest started turn, no turn
      is interrupted, and goal mode was announced before the first turn succeeds. */
  ghost predicate WellFormed(ns: seq<Notification>) {
    forall j :: 0 <= j < |ns| && ns[j].payload.TurnCompleted? ==>
      && !ns[j].payload.turn.status.Interrupted?
      && (!ns[j].payload.turn.status.Failed? ==> !NoGoalEvent(ns[..j]))
      && forall i :: 0 <= i < j && StartsLast(ns[..j], i) ==> Completes(ns[j], ns[i].payload.turn)
  }

  lemma FinishedHasEnded(threadId: string, ns: seq<Notification>, k: nat)
    requires k <= |ns| && ObserveAll(Routed(threadId), ns[..k]).finished
    ensures exists m :: 0 <= m <= k && EndsAt(NEW_CURSOR, ns[..m])
  {
    NoStrandedConsumer(threadId, ns[..k]);
    var m :| 0 <= m <= k && EndsAt(NEW_CURSOR, ns[..k][..m]);
    assert ns[..k][..m] == ns[..m];
  }

  lemma NotFinishedBefore(threadId: string, ns: seq<Notification>, k: nat)
    requires FirstEnd(ns) && k < |ns|
    ensures !ObserveAll(Routed(threadId), ns[..k]).finished
  {
    if ObserveAll(Routed(threadId), ns[..k]).finished {
      FinishedHasEnded(threadId, ns, k);
      assert false;
    }
  }

  lemma WellFormedIdle(ns: seq<Notification>)
    requires WellFormed(ns) && StreamIdle(ns)
    ensures RouteIdle(ns)
  {
    forall i | 0 <= i < |ns| && StartsLast(ns, i) ensures Answered(ns, i) {
      assert Followed(ns, i);
      var j :| i < j < |ns| && ns[j].payload.TurnCompleted?;
      assert StartsLast(ns[..j], i);
      assert Completes(ns[j], ns[i].payload.turn);
    }
  }

  lemma WellFormedDone(ns: seq<Notification>)
    requires WellFormed(ns) && StreamDone(ns)
    ensures StreamIdle(ns) && GoalOver(ns)
  {
    var p, n := ns[..|ns|-1], ns[|ns|-1];
    assert ns == p + [n];
    NoGoalEventStep(p, n);
  }

  /** On a well-formed run both sides finish at the same element. */
  lemma WellFormedEndsTogether(threadId: string, ns: seq<Notification>)
    requires WellFormed(ns) && FirstEnd(ns)
    ensures ObserveAll(Routed(threadId), ns).finished
    ensures forall k :: 0 <= k < |ns| ==> !ObserveAll(Routed(threadId), ns[..k]).finished
  {
    StreamEndsExactly(ns);
    WellFormedDone(ns);
    WellFormedIdle(ns);
    EndTogetherExactlyWhen(threadId, ns);
    forall k | 0 <= k < |ns| ensures !ObserveAll(Routed(threadId), ns[..k]).finished {
      NotFinishedBefore(threadId, ns, k);
    }
  }

  /** Without those promises the two sides may part: an interrupted turn ends the stream of a
      goal that is still active, and the reader keeps the route. */
  lemma InterruptedTurnEndsOnlyTheStream(threadId: string, turn: Turn)
    requires turn.status.Interrupted?
    ensures var ns := [Notification("turn/started", TurnStarted(threadId, turn)),
                       Notification(TURN_COMPLETED, TurnCompleted(threadId, turn))];
            FirstEnd(ns) && !ObserveAll(Routed(threadId), ns).finished
  {
    var s := Notification("turn/started", TurnStarted(threadId, turn));
    var e := Notification(TURN_COMPLETED, TurnCompleted(threadId, turn));
    var ns := [s, e];
    assert ns[..0] == [] && ns[..1] == [s] && [s][..0] == [];
    assert AdvanceAll(NEW_CURSOR, [s]) == Advance(NEW_CURSOR, s);
    assert AdvanceAll(NEW_CURSOR, ns) == Advance(Advance(NEW_CURSOR, s), e);
    assert !EndsAt(NEW_CURSOR, ns[..0]) && !EndsAt(NEW_CURSOR, ns[..1]);
    assert ObserveAll(Routed(threadId), [s]) == Observe(Routed(threadId), s);
  }

  /** A completion under another id than that of the turn that was started ends the stream of a cleared goal as
      well, and leaves the route. */
  lemma OtherIdEndsOnlyTheStream(threadId: string, turn: Turn, other: Turn)
    requires other.id != turn.id && other.status.Completed?
    ensures var ns := [Notification("turn/started", TurnStarted(threadId, turn)),
                       Notification("thread/goal/cleared", GoalCleared(threadId)),
                       Notification(TURN_COMPLETED, TurnCompleted(threadId, other))];
            FirstEnd(ns) && !ObserveAll(Routed(threadId), ns).finished
  {
    var s := Notification("turn/started", TurnStarted(threadId, turn));
    var g := Notification("thread/goal/cleared", GoalCleared(threadId));
    var e := Notification(TURN_COMPLETED, TurnCompleted(threadId, other));
    var ns := [s, g, e];
    assert ns[..0] == [] && ns[..1] == [s] && ns[..2] == [s, g] && [s, g][..1] == [s] && [s][..0] == [];
    assert AdvanceAll(NEW_CURSOR, [s]) == Advance(NEW_CURSOR, s);
    assert AdvanceAll(NEW_CURSOR, [s, g]) == Advance(Advance(NEW_CURSOR, s), g);
    assert AdvanceAll(NEW_CURSOR, ns) == Advance(Advance(Advance(NEW_CURSOR, s), g), e);
    assert forall k :: 0 <= k < 3 ==> !EndsAt(NEW_CURSOR, ns[..k]);
    assert ObserveAll(Routed(threadId), [s]) == Observe(Routed(threadId), s);
    assert ObserveAll(Routed(threadId), [s, g]) == Observe(Observe(Routed(threadId), s), g);
  }
}

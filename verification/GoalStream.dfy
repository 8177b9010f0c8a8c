/** The events a goal stream hands out over a whole run: one logical turn. */
module GoalStream {
  import opened Common
  import opened Notifications
  import opened Goal
  import opened GoalAgreement

  /** All events handed out while processing `ns`. */
  function Output(ns: seq<Notification>, id: string, interrupted: bool): seq<Notification>
    decreases |ns|
  {
    if ns == [] then [] else
    var p, n := ns[..|ns|-1], ns[|ns|-1];
    Output(p, id, interrupted) + EventsAt(AdvanceAll(NEW_CURSOR, p), n, id, interrupted)
  }

  // ----- the specification --------------------------------------------------

  ghost predicate HasStart(ns: seq<Notification>) {
    exists i :: 0 <= i < |ns| && ns[i].payload.TurnStarted?
  }

  /** The first turn start and every ordinary notification, once, in order, relabelled. */
  ghost function Visible(ns: seq<Notification>, id: string): seq<Notification>
    decreases |ns|
  {
    if ns == [] then [] else
    var p, n := ns[..|ns|-1], ns[|ns|-1];
    Visible(p, id) +
    if IsOrdinary(n) || (n.payload.TurnStarted? && !HasStart(p)) then [Relabel(n, id)] else []
  }

  /** One more notification shows itself if it is a payload that is neither a turn boundary nor a goal event, or the
      first start of a turn, and nothing else. */
  lemma VisibleStep(p: seq<Notification>, n: Notification, id: string)
    ensures Visible(p + [n], id) == Visible(p, id) +
            if n.payload.Direct? || n.payload.Plain? || n.payload.LoginCompleted? || n.payload.Unknown? ||
               (n.payload.TurnStarted? && forall i :: 0 <= i < |p| ==> !p[i].payload.TurnStarted?)
            then [Relabel(n, id)] else []
  {
    assert (p + [n])[..|p|] == p;
  }

  predicate FailedTurn(n: Notification) {
    n.payload.TurnCompleted? && n.payload.turn.status.Failed?
  }

  /** `i` is the latest failed physical turn if any failed, otherwise the last completed one. */
  ghost predicate IsCarrier(ns: seq<Notification>, i: int) {
    && 0 <= i < |ns| && ns[i].payload.TurnCompleted?
    && (forall j :: i < j < |ns| ==> !FailedTurn(ns[j]))
    && (!FailedTurn(ns[i]) ==>
          && (forall j :: i < j < |ns| ==> !ns[j].payload.TurnCompleted?)
          && (forall j :: 0 <= j < i ==> !FailedTurn(ns[j])))
  }

  /** `started` is the first turn started in `ns`, if there is one. */
  ghost predicate IsFirstStart(ns: seq<Notification>, started: Option<Turn>) {
    match started
    case None => !HasStart(ns)
    case Some(turn) =>
      exists i :: 0 <= i < |ns| && ns[i].payload.TurnStarted? && ns[i].payload.turn == turn &&
                  forall j :: 0 <= j < i ==> !ns[j].payload.TurnStarted?
  }

  /** The one logical completion of a goal whose first turn is `started` and whose carrying
      physical completion is `carrier`; times are seconds, the duration is milliseconds. */
  ghost predicate IsLogicalCompletion(e: Notification, name: string, id: string, started: Option<Turn>,
                                      carrier: Notification, interrupted: bool)
    requires carrier.payload.TurnCompleted?
  {
    && e.methodName == name
    && e.payload.TurnCompleted?
    && e.payload.threadId == carrier.payload.threadId
    && e.payload.turn.id == id
    && e.payload.turn.body == carrier.payload.turn.body
    && e.payload.turn.completedAt == carrier.payload.turn.completedAt
    && e.payload.turn.status == (if interrupted then Interrupted else carrier.payload.turn.status)
    && e.payload.turn.startedAt == (if started.Some? then started.value.startedAt else carrier.payload.turn.startedAt)
    && Lasts(e.payload.turn, carrier.payload.turn.durationMs)
  }

  /** The turn lasts from its start to its completion, or no time at all if it completes before it starts; if
      one of the two times is unknown, it lasts as long as reported. */
  predicate Lasts(turn: Turn, reported: Option<int>) {
    if turn.startedAt.None? || turn.completedAt.None? then turn.durationMs == reported
    else
      turn.durationMs.Some? &&
      if turn.completedAt.value < turn.startedAt.value then turn.durationMs.value == 0
      else turn.startedAt.value * 1000 + turn.durationMs.value == turn.completedAt.value * 1000
  }

  // ----- the cursor's record of the history ----------------------------------

  lemma FirstStartStep(p: seq<Notification>, n: Notification, started: Option<Turn>)
    requires IsFirstStart(p, started)
    ensures IsFirstStart(p + [n],
              if started.None? && n.payload.TurnStarted? then Some(n.payload.turn) else started)
  {
    var ns := p + [n];
    assert forall j :: 0 <= j < |p| ==> ns[j] == p[j];
    assert ns[|p|] == n;
    if started.Some? {
      var i :| 0 <= i < |p| && p[i].payload.TurnStarted? && p[i].payload.turn == started.value &&
               forall j :: 0 <= j < i ==> !p[j].payload.TurnStarted?;
      assert ns[i].payload.TurnStarted?;
    } else if n.payload.TurnStarted? {
      assert ns[|p|].payload.TurnStarted?;
    }
  }

  lemma {:induction false} CursorRecordsStart(ns: seq<Notification>)
    ensures IsFirstStart(ns, AdvanceAll(NEW_CURSOR, ns).started)
    ensures AdvanceAll(NEW_CURSOR, ns).started.Some? <==> HasStart(ns)
  {
    if ns != [] {
      var p, n := ns[..|ns|-1], ns[|ns|-1];
      assert ns == p + [n];
      CursorRecordsStart(p);
      FirstStartStep(p, n, AdvanceAll(NEW_CURSOR, p).started);
    }
  }

  lemma CarrierStep(p: seq<Notification>, n: Notification, i: int)
    requires IsCarrier(p, i)
    ensures n.payload.TurnCompleted? && (FailedTurn(n) || !FailedTurn(p[i])) ==> IsCarrier(p + [n], |p|)
    ensures !n.payload.TurnCompleted? || (FailedTurn(p[i]) && !FailedTurn(n)) ==> IsCarrier(p + [n], i)
  {
    var ns := p + [n];
    assert forall j :: 0 <= j < |p| ==> ns[j] == p[j];
    assert ns[|p|] == n;
    if !FailedTurn(p[i]) {
      assert forall j :: 0 <= j < |p| ==> !FailedTurn(p[j]);
    }
  }

  ghost predicate Carries(ns: seq<Notification>, i: int, c: Cursor) {
    && IsCarrier(ns, i)
    && (c.failed.Some? <==> FailedTurn(ns[i]))
    && Carried(c) == Some(Completion(ns[i].payload.threadId, ns[i].payload.turn))
  }

  lemma {:induction false} CursorRecordsCarrier(ns: seq<Notification>) returns (i: int)
    ensures AdvanceAll(NEW_CURSOR, ns).lastCompleted.Some? ==> Carries(ns, i, AdvanceAll(NEW_CURSOR, ns))
    ensures AdvanceAll(NEW_CURSOR, ns).lastCompleted.None? ==>
              AdvanceAll(NEW_CURSOR, ns).failed.None? && !HasCompletion(ns)
  {
    i := -1;
    if ns != [] {
      var p, n := ns[..|ns|-1], ns[|ns|-1];
      assert ns == p + [n];
      var c := AdvanceAll(NEW_CURSOR, p);
      i := CursorRecordsCarrier(p);
      HasCompletionStep(p, n);
      if c.lastCompleted.Some? {
        CarrierStep(p, n, i);
        if n.payload.TurnCompleted? && (FailedTurn(n) || !FailedTurn(p[i])) {
          i := |p|;
        }
      } else if n.payload.TurnCompleted? {
        assert forall j :: 0 <= j < |p| ==> ns[j] == p[j] && !p[j].payload.TurnCompleted?;
        i := |p|;
      }
    }
  }

  // ----- the stream ------------------------------------------------------------

  /** While the stream has not ended, the cursor is not drained: so only a turn boundary or a
      goal event can end it. */
  lemma {:induction false} OpenStreamNotDrained(ns: seq<Notification>)
    requires !EndsAt(NEW_CURSOR, ns)
    requires ns != [] ==> !Drained(AdvanceAll(NEW_CURSOR, ns[..|ns|-1]))
    ensures !Drained(AdvanceAll(NEW_CURSOR, ns))
  {
  }

  lemma {:induction false} NotDrainedBeforeEnd(ns: seq<Notification>)
    requires forall k :: 0 <= k <= |ns| ==> !EndsAt(NEW_CURSOR, ns[..k])
    ensures !Drained(AdvanceAll(NEW_CURSOR, ns))
  {
    if ns != [] {
      var p := ns[..|ns|-1];
      assert forall k :: 0 <= k <= |p| ==> p[..k] == ns[..k];
      NotDrainedBeforeEnd(p);
      assert ns[..|ns|] == ns;
      OpenStreamNotDrained(ns);
    }
  }

  /** One `process` call hands out at most one event, so a stream that closes itself in that
      call leaves nothing behind in its pending queue. */
  lemma AtMostOneEvent(ns: seq<Notification>, n: Notification, id: string, interrupted: bool)
    requires forall k :: 0 <= k <= |ns| ==> !EndsAt(NEW_CURSOR, ns[..k])
    ensures |EventsAt(AdvanceAll(NEW_CURSOR, ns), n, id, interrupted)| <= 1
    ensures VerdictAt(Advance(AdvanceAll(NEW_CURSOR, ns), n), n).End? ==>
              |EventsAt(AdvanceAll(NEW_CURSOR, ns), n, id, interrupted)| == 1 && !IsOrdinary(n)
  {
    NotDrainedBeforeEnd(ns);
  }

  lemma {:induction false} OpenOutput(ns: seq<Notification>, id: string, interrupted: bool)
    requires forall k :: 0 <= k <= |ns| ==> !EndsAt(NEW_CURSOR, ns[..k])
    ensures Output(ns, id, interrupted) == Visible(ns, id)
  {
    if ns != [] {
      var p, n := ns[..|ns|-1], ns[|ns|-1];
      assert forall k :: 0 <= k <= |p| ==> p[..k] == ns[..k];
      assert ns[..|ns|] == ns;
      OpenOutput(p, id, interrupted);
      CursorRecordsStart(p);
    }
  }

  lemma CompletionIsLogical(ns: seq<Notification>, name: string, id: string, interrupted: bool, i: int)
    requires Carries(ns, i, AdvanceAll(NEW_CURSOR, ns))
    requires AdvanceAll(NEW_CURSOR, ns).lastCompleted.Some?
    ensures var c := AdvanceAll(NEW_CURSOR, ns);
            IsLogicalCompletion(CompletionEvent(name, c, id, interrupted), name, id, c.started, ns[i], interrupted)
  {
  }

  /** The whole stream is one logical turn: the first turn start, every ordinary notification
      once and in order, then exactly one completion, which is its last event.  If the runtime
      never activated goal mode the stream raises instead of completing. */
  lemma StreamIsOneLogicalTurn(ns: seq<Notification>, id: string, interrupted: bool)
    returns (started: Option<Turn>, carrier: int)
    requires FirstEnd(ns)
    ensures var out := Output(ns, id, interrupted);
            if VerdictAt(AdvanceAll(NEW_CURSOR, ns), ns[|ns|-1]).Raise? then
              out == Visible(ns, id) && NoGoalEvent(ns)
            else
              && IsFirstStart(ns, started)
              && IsCarrier(ns, carrier)
              && |out| == |Visible(ns, id)| + 1
              && out[..|out|-1] == Visible(ns, id)
              && IsLogicalCompletion(out[|out|-1],
                                     if ns[|ns|-1].payload.TurnCompleted? then ns[|ns|-1].methodName
                                     else "turn/completed",
                                     id, started, ns[carrier], interrupted)
  {
    var p, n := ns[..|ns|-1], ns[|ns|-1];
    assert ns == p + [n];
    assert forall k :: 0 <= k <= |p| ==> p[..k] == ns[..k];
    OpenOutput(p, id, interrupted);
    AtMostOneEvent(p, n, id, interrupted);
    CursorRecordsStart(p);
    CursorRecordsStart(ns);
    CursorReadsHistory(ns);
    started := AdvanceAll(NEW_CURSOR, ns).started;
    carrier := CursorRecordsCarrier(ns);
    assert Visible(ns, id) == Visible(p, id);
    if !VerdictAt(AdvanceAll(NEW_CURSOR, ns), n).Raise? {
      CompletionIsLogical(ns, CompletionName(n), id, interrupted, carrier);
    }
  }

  /** Nothing a consumer sees before the last event completes a turn, and everything it sees
      that names a turn names the logical one. */
  lemma {:induction false} VisibleShape(ns: seq<Notification>, id: string)
    ensures forall i :: 0 <= i < |Visible(ns, id)| ==>
              var e := Visible(ns, id)[i];
              && !e.payload.TurnCompleted? && !IsGoalEvent(e)
              && (TurnIdOf(e).Some? ==> TurnIdOf(e) == Some(id))
              && (e.payload.TurnStarted? ==>
                    forall j :: 0 <= j < i ==> !Visible(ns, id)[j].payload.TurnStarted?)
    ensures (exists i :: 0 <= i < |Visible(ns, id)| && Visible(ns, id)[i].payload.TurnStarted?) ==> HasStart(ns)
  {
    if ns != [] {
      var p, n := ns[..|ns|-1], ns[|ns|-1];
      VisibleShape(p, id);
      var before, after := Visible(p, id), Visible(ns, id);
      assert forall i :: 0 <= i < |before| ==> after[i] == before[i];
      if n.payload.TurnStarted? {
        assert ns[|p|].payload.TurnStarted?;
      }
      if HasStart(p) {
        var i :| 0 <= i < |p| && p[i].payload.TurnStarted?;
        assert ns[i].payload.TurnStarted?;
      }
    }
  }
}

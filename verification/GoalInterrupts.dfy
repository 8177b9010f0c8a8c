/** When the interrupted flag that a completion reports is final. */
module GoalInterrupts {
  import opened Notifications
  import opened Goal

  /** The operation and the controls that have begun an interrupt and not resolved it. */
  datatype Controls = Controls(op: Op, outstanding: nat)

  datatype Control = Begin | Confirm | Cancel | FinishGoal | Arrive(n: Notification)

  function Step(c: Controls, a: Control): Controls {
    match a
    case Begin =>
      if c.op.finished then c else Controls(BeginInterrupt(c.op), c.outstanding + 1)
    case Confirm =>
      if c.outstanding == 0 then c else Controls(ConfirmInterrupt(c.op), c.outstanding - 1)
    case Cancel =>
      if c.outstanding == 0 then c else Controls(CancelInterrupt(c.op), c.outstanding - 1)
    case FinishGoal => c.(op := Finish(c.op))
    case Arrive(n) => c.(op := Observe(c.op, n))
  }

  lemma ObserveKeepsControls(op: Op, n: Notification)
    ensures var t := Observe(op, n);
            && t.interrupted == op.interrupted && t.interruptRequested == op.interruptRequested
            && (op.finished ==> t.finished)
  {
  }

  function Run(c: Controls, actions: seq<Control>): Controls
    decreases |actions|
  {
    if actions == [] then c else Run(Step(c, actions[0]), actions[1..])
  }

  /** Whatever happens next, the flag stays as it is. */
  ghost predicate FlagFinal(c: Controls) {
    forall actions :: Run(c, actions).op.interrupted == c.op.interrupted
  }

  lemma {:induction false} FlagKept(c: Controls, actions: seq<Control>)
    requires c.op.interrupted || (c.op.finished && c.outstanding == 0)
    ensures Run(c, actions).op.interrupted == c.op.interrupted
    decreases |actions|
  {
    if actions != [] {
      if actions[0].Arrive? {
        ObserveKeepsControls(c.op, actions[0].n);
      }
      hide Observe;
      FlagKept(Step(c, actions[0]), actions[1..]);
    }
  }

  /** The flag is final exactly if an interrupt was confirmed already, or the goal is finished and
      no control is outstanding. */
  lemma FlagFinalExactlyWhen(c: Controls)
    ensures FlagFinal(c) <==> c.op.interrupted || (c.op.finished && c.outstanding == 0)
  {
    if c.op.interrupted || (c.op.finished && c.outstanding == 0) {
      forall actions ensures Run(c, actions).op.interrupted == c.op.interrupted {
        FlagKept(c, actions);
      }
    } else if c.outstanding > 0 {
      assert Run(Step(c, Confirm), []) == Step(c, Confirm);
      assert Run(c, [Confirm]).op.interrupted;
    } else {
      var begun := Step(c, Begin);
      assert [Begin, Confirm][1..] == [Confirm];
      assert Run(Step(begun, Confirm), []) == Step(begun, Confirm);
      assert Run(begun, [Confirm]) == Step(begun, Confirm);
      assert Run(c, [Begin, Confirm]).op.interrupted;
    }
  }

  /** Controls that take turns: nobody begins an interrupt while another is outstanding. */
  predicate TakeTurns(c: Controls, actions: seq<Control>)
    decreases |actions|
  {
    actions == [] ||
    ((actions[0].Begin? ==> c.outstanding == 0) && TakeTurns(Step(c, actions[0]), actions[1..]))
  }

  lemma {:induction false} TurnsAreVisible(c: Controls, actions: seq<Control>)
    requires TakeTurns(c, actions)
    requires c.op.interruptRequested <==> c.outstanding > 0
    requires c.outstanding <= 1
    ensures var d := Run(c, actions);
            (d.op.interruptRequested <==> d.outstanding > 0) && d.outstanding <= 1
    decreases |actions|
  {
    if actions != [] {
      if actions[0].Arrive? {
        ObserveKeepsControls(c.op, actions[0].n);
      }
      hide Observe;
      TurnsAreVisible(Step(c, actions[0]), actions[1..]);
    }
  }

  /** With controls that take turns, a flag read after the goal was finished, once no request is
      pending, never changes later. */
  lemma FlagReadAfterFinishIsFinal(threadId: string, before: seq<Control>)
    requires var c := Controls(NewOp(threadId), 0);
             && TakeTurns(c, before)
             && Run(c, before).op.finished && !Run(c, before).op.interruptRequested
    ensures FlagFinal(Run(Controls(NewOp(threadId), 0), before))
  {
    var c := Controls(NewOp(threadId), 0);
    TurnsAreVisible(c, before);
    FlagFinalExactlyWhen(Run(c, before));
  }

  /** Two overlapping controls defeat the wait: cancelling one hides the other's request, so a
      reader of the finished goal sees a flag that the second confirmation then changes. */
  lemma OverlappingControlsChangeTheFlag(threadId: string)
    ensures var c := Run(Controls(NewOp(threadId), 0), [Begin, Begin, FinishGoal, Cancel]);
            c.op.finished && !c.op.interruptRequested && !FlagFinal(c)
  {
    var c0 := Controls(NewOp(threadId), 0);
    var all := [Begin, Begin, FinishGoal, Cancel];
    var c1 := Step(c0, Begin);
    var c2 := Step(c1, Begin);
    var c3 := Step(c2, FinishGoal);
    var c4 := Step(c3, Cancel);
    assert all[1..] == [Begin, FinishGoal, Cancel] && all[1..][1..] == [FinishGoal, Cancel];
    assert [FinishGoal, Cancel][1..] == [Cancel];
    assert Run(c3, [Cancel]) == Run(c4, []) == c4;
    assert Run(c2, [FinishGoal, Cancel]) == c4;
    assert Run(c1, [Begin, FinishGoal, Cancel]) == c4;
    assert Run(c0, all) == c4;
    FlagFinalExactlyWhen(c4);
  }
}

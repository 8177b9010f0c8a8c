/** Which steps a run counts as completed and which as failed, and the status it ends with, told from the adapters'
    replies and from what was dispatched and skipped. */
module PlanOutcomes {
  import opened PlanExecutor

  // ----- completed and failed --------------------------------------------------------------------------------

  /** The steps that were skipped, or dispatched with success, in that order. */
  ghost function Wins(env: nat -> Reply, trace: seq<Event>): seq<nat>
    decreases |trace|
  {
    if trace == [] then [] else
    var p, e := trace[..|trace|-1], trace[|trace|-1];
    Wins(env, p) +
    if e.Skipped? || (e.Dispatched? && env(|Dispatches(p)|).success) then [e.step] else []
  }

  /** The steps whose dispatch failed, in that order. */
  ghost function Losses(env: nat -> Reply, trace: seq<Event>): seq<nat>
    decreases |trace|
  {
    if trace == [] then [] else
    var p, e := trace[..|trace|-1], trace[|trace|-1];
    Losses(env, p) + if e.Dispatched? && !env(|Dispatches(p)|).success then [e.step] else []
  }

  /** The records agree with the replies. */
  ghost predicate Recorded(env: nat -> Reply, w: World) {
    && w.dispatches == |Dispatches(w.trace)|
    && w.e.completed == Wins(env, w.trace)
    && w.e.failed == Losses(env, w.trace)
  }

  lemma OneMore(env: nat -> Reply, trace: seq<Event>, e: Event)
    ensures var k := |Dispatches(trace)|;
            && Dispatches(trace + [e]) == Dispatches(trace) + (if e.Dispatched? then [e] else [])
            && Wins(env, trace + [e]) ==
               Wins(env, trace) + (if e.Skipped? || (e.Dispatched? && env(k).success) then [e.step] else [])
            && Losses(env, trace + [e]) ==
               Losses(env, trace) + (if e.Dispatched? && !env(k).success then [e.step] else [])
  {
    assert (trace + [e])[..|trace|] == trace;
  }

  lemma DispatchIsRecorded(s: Step, env: nat -> Reply, w: World)
    requires Recorded(env, w)
    ensures Recorded(env, Dispatch(s, env(w.dispatches), w).0)
  {
    OneMore(env, w.trace, Dispatched(w.e.index));
    hide Wins, Losses, Dispatches;
  }

  lemma RoundIsRecorded(steps: seq<Step>, owner: bool, env: nat -> Reply, w: World)
    requires Recorded(env, w) && w.e.index < |steps|
    ensures Recorded(env, Round(steps, owner, env, w).0)
  {
    hide Dispatch, Wins, Losses, Dispatches;
    if !w.e.cancelRequested && !Pauses(steps[w.e.index], owner, w.needs) {
      var e := w.e.(checkpoints := w.e.checkpoints + [Checkpoint(|w.e.checkpoints|, w.e.index)]);
      DispatchIsRecorded(steps[w.e.index], env, w.(e := e));
    }
  }

  lemma {:induction false} LoopIsRecorded(steps: seq<Step>, owner: bool, env: nat -> Reply, w: World)
    requires Recorded(env, w)
    ensures Recorded(env, Loop(steps, owner, env, w))
    decreases |steps| - w.e.index
  {
    if w.e.index < |steps| {
      hide Recorded, Dispatch, Pauses;
      RoundIsRecorded(steps, owner, env, w);
      var (v, more) := Round(steps, owner, env, w);
      if more {
        LoopIsRecorded(steps, owner, env, v);
      }
    }
  }

  lemma ExecuteIsRecorded(steps: seq<Step>, owner: bool, env: nat -> Reply, w: World)
    requires Recorded(env, w)
    ensures Recorded(env, Execute(steps, owner, env, w))
  {
    if !w.e.cancelRequested {
      LoopIsRecorded(steps, owner, env, w.(e := w.e.(status := Running)));
    }
  }

  lemma ApplyIsRecorded(steps: seq<Step>, env: nat -> Reply, w: World, c: Call)
    requires Recorded(env, w)
    ensures Recorded(env, Apply(steps, env, w, c))
  {
    hide Wins, Losses, Dispatches, Execute;
    match c
    case ExecuteCall(owner) => ExecuteIsRecorded(steps, owner, env, w);
    case ResumeCall(owner) =>
      OneMore(env, w.trace, Approved(w.e.index));
      ExecuteIsRecorded(steps, owner, env, Approve(steps, w));
    case SkipCall =>
      OneMore(env, w.trace, Skipped(w.e.index));
      ExecuteIsRecorded(steps, false, env, PassOver(steps, w));
    case CancelCall =>
  }

  /** Over every sequence of calls, the completed steps are those skipped or dispatched with success, in that order,
      and the failed ones those whose dispatch failed, in that order. */
  lemma {:induction false} RecordsAreTheReplies(steps: seq<Step>, env: nat -> Reply, needs: set<Params>,
                                                calls: seq<Call>)
    ensures var w := Run(steps, env, Begin(needs), calls);
            && w.dispatches == |Dispatches(w.trace)|
            && w.e.completed == Wins(env, w.trace) && w.e.failed == Losses(env, w.trace)
    decreases |calls|
  {
    if calls != [] {
      RecordsAreTheReplies(steps, env, needs, calls[..|calls|-1]);
      ApplyIsRecorded(steps, env, Run(steps, env, Begin(needs), calls[..|calls|-1]), calls[|calls|-1]);
    }
  }

  /** The k-th dispatch was of step `i`. */
  predicate IsDispatch(trace: seq<Event>, k: nat, i: nat) {
    k < |Dispatches(trace)| && Dispatches(trace)[k] == Dispatched(i)
  }

  ghost predicate Succeeded(env: nat -> Reply, trace: seq<Event>, i: nat) {
    exists k: nat :: IsDispatch(trace, k, i) && env(k).success
  }

  ghost predicate Failed(env: nat -> Reply, trace: seq<Event>, i: nat) {
    exists k: nat :: IsDispatch(trace, k, i) && !env(k).success
  }

  lemma IsDispatchStep(p: seq<Event>, e: Event, k: nat, i: nat)
    ensures IsDispatch(p + [e], k, i) <==> IsDispatch(p, k, i) || (k == |Dispatches(p)| && e == Dispatched(i))
  {
    AppendEvent(p, e);
  }

  lemma MoreOutcomes(env: nat -> Reply, p: seq<Event>, e: Event, i: nat)
    ensures var k := |Dispatches(p)|;
            && (Succeeded(env, p + [e], i) <==> Succeeded(env, p, i) || (e == Dispatched(i) && env(k).success))
            && (Failed(env, p + [e], i) <==> Failed(env, p, i) || (e == Dispatched(i) && !env(k).success))
  {
    forall k: nat ensures
      IsDispatch(p + [e], k, i) <==> IsDispatch(p, k, i) || (k == |Dispatches(p)| && e == Dispatched(i))
    {
      IsDispatchStep(p, e, k, i);
    }
    hide IsDispatch;
    var n := |Dispatches(p)|;
    assert e == Dispatched(i) ==> IsDispatch(p + [e], n, i);
  }

  lemma {:induction false} Members(env: nat -> Reply, trace: seq<Event>, i: nat)
    ensures i in Wins(env, trace) <==> Skipped(i) in trace || Succeeded(env, trace, i)
    ensures i in Losses(env, trace) <==> Failed(env, trace, i)
    decreases |trace|
  {
    if trace != [] {
      var p, e := trace[..|trace|-1], trace[|trace|-1];
      assert trace == p + [e];
      Members(env, p, i);
      MoreOutcomes(env, p, e, i);
      OneMore(env, p, e);
      hide Wins, Losses, Succeeded, Failed, Dispatches;
    }
  }

  // ----- a success is the last of its step -------------------------------------------------------------------

  /** Behind a successful dispatch of a step there is no other one of it. */
  ghost predicate SuccessIsLast(env: nat -> Reply, trace: seq<Event>) {
    forall k: nat, m: nat, i: nat :: k < m && IsDispatch(trace, k, i) && env(k).success ==> !IsDispatch(trace, m, i)
  }

  lemma OtherEventKeepsLast(env: nat -> Reply, p: seq<Event>, e: Event)
    requires SuccessIsLast(env, p) && !e.Dispatched?
    ensures SuccessIsLast(env, p + [e])
  {
    forall k: nat, i: nat ensures IsDispatch(p + [e], k, i) <==> IsDispatch(p, k, i) {
      IsDispatchStep(p, e, k, i);
    }
    hide IsDispatch;
  }

  lemma DispatchKeepsLast(env: nat -> Reply, p: seq<Event>, j: nat)
    requires SuccessIsLast(env, p) && !Succeeded(env, p, j)
    ensures SuccessIsLast(env, p + [Dispatched(j)])
  {
    var t := p + [Dispatched(j)];
    forall k: nat, m: nat, i: nat | k < m && IsDispatch(t, k, i) && env(k).success ensures !IsDispatch(t, m, i) {
      IsDispatchStep(p, Dispatched(j), k, i);
      IsDispatchStep(p, Dispatched(j), m, i);
      assert IsDispatch(p, m, i) ==> m < |Dispatches(p)|;
      if m == |Dispatches(p)| && i == j {
        assert IsDispatch(p, k, i);
      }
    }
  }

  /** What is left behind is not dispatched again, so a success stays the last dispatch of its step. */
  ghost predicate Told(steps: seq<Step>, env: nat -> Reply, w: World) {
    Books(steps, w.e) && Recorded(env, w) && SuccessIsLast(env, w.trace)
  }

  lemma RoundKeepsLast(steps: seq<Step>, owner: bool, env: nat -> Reply, w: World)
    requires Told(steps, env, w) && w.e.index < |steps|
    ensures SuccessIsLast(env, Round(steps, owner, env, w).0.trace)
  {
    var v := Round(steps, owner, env, w).0;
    Members(env, w.trace, w.e.index);
    if v.trace != w.trace {
      assert v.trace == w.trace + [Dispatched(w.e.index)];
      DispatchKeepsLast(env, w.trace, w.e.index);
    }
  }

  lemma BooksAre(steps: seq<Step>, e: Exec)
    requires Accounted(steps, e)
    ensures Books(steps, e)
  {
  }

  lemma {:induction false} LoopIsTold(steps: seq<Step>, owner: bool, env: nat -> Reply, w: World)
    requires Told(steps, env, w) && Accounted(steps, w.e) && Active(w.e)
    ensures Told(steps, env, Loop(steps, owner, env, w))
    decreases |steps| - w.e.index
  {
    if w.e.index < |steps| {
      hide Accounted, Recorded, SuccessIsLast, Active, Dispatch, Pauses;
      RoundKeeps(steps, owner, env, w);
      RoundIsRecorded(steps, owner, env, w);
      RoundKeepsLast(steps, owner, env, w);
      var (v, more) := Round(steps, owner, env, w);
      BooksAre(steps, v.e);
      hide Round;
      if more {
        LoopIsTold(steps, owner, env, v);
      }
    }
  }

  lemma ExecuteIsTold(steps: seq<Step>, owner: bool, env: nat -> Reply, w: World)
    requires Told(steps, env, w)
    ensures Told(steps, env, Execute(steps, owner, env, w))
  {
    if !w.e.cancelRequested {
      var s := w.(e := w.e.(status := Running));
      assert Told(steps, env, s);
      LoopIsTold(steps, owner, env, s);
      hide Accounted, SuccessIsLast, Wins, Losses, Dispatches, Loop;
    }
  }

  lemma CancelKeepsBooks(steps: seq<Step>, e: Exec)
    requires Books(steps, e)
    ensures Books(steps, RequestCancel(e))
  {
  }

  lemma ApplyIsTold(steps: seq<Step>, env: nat -> Reply, w: World, c: Call)
    requires Told(steps, env, w)
    ensures Told(steps, env, Apply(steps, env, w, c))
  {
    hide Wins, Losses, Dispatches, Execute, SuccessIsLast, Accounted;
    match c
    case ExecuteCall(owner) => ExecuteIsTold(steps, owner, env, w);
    case ResumeCall(owner) =>
      OneMore(env, w.trace, Approved(w.e.index));
      OtherEventKeepsLast(env, w.trace, Approved(w.e.index));
      ExecuteIsTold(steps, owner, env, Approve(steps, w));
    case SkipCall =>
      OneMore(env, w.trace, Skipped(w.e.index));
      OtherEventKeepsLast(env, w.trace, Skipped(w.e.index));
      PassOverKeeps(steps, w);
      ExecuteIsTold(steps, false, env, PassOver(steps, w));
    case CancelCall => CancelKeepsBooks(steps, w.e);
  }

  lemma {:induction false} RunIsTold(steps: seq<Step>, env: nat -> Reply, needs: set<Params>, calls: seq<Call>)
    ensures Told(steps, env, Run(steps, env, Begin(needs), calls))
    decreases |calls|
  {
    if calls != [] {
      hide Told;
      RunIsTold(steps, env, needs, calls[..|calls|-1]);
      ApplyIsTold(steps, env, Run(steps, env, Begin(needs), calls[..|calls|-1]), calls[|calls|-1]);
    }
  }

  /** Over every sequence of calls: a step is counted as completed exactly if it was skipped or its last dispatch
      succeeded, and as failed exactly if some dispatch of it did not. */
  lemma OutcomeIsTheReply(steps: seq<Step>, env: nat -> Reply, needs: set<Params>, calls: seq<Call>, i: nat)
    ensures var w := Run(steps, env, Begin(needs), calls);
            && (i in w.e.completed <==> Skipped(i) in w.trace || LastSucceeded(env, w.trace, i))
            && (i in w.e.failed <==> Failed(env, w.trace, i))
  {
    RunIsTold(steps, env, needs, calls);
    var w := Run(steps, env, Begin(needs), calls);
    Members(env, w.trace, i);
    hide Run, Wins, Losses, Accounted, Dispatches;
    if Succeeded(env, w.trace, i) {
      var k: nat :| IsDispatch(w.trace, k, i) && env(k).success;
      assert forall m: nat :: k < m ==> !IsDispatch(w.trace, m, i);
      assert LastSucceeded(env, w.trace, i);
    }
  }

  /** The last dispatch of the step succeeded. */
  ghost predicate LastSucceeded(env: nat -> Reply, trace: seq<Event>, i: nat) {
    exists k: nat :: IsDispatch(trace, k, i) && env(k).success && forall m: nat :: k < m ==> !IsDispatch(trace, m, i)
  }

  // ----- the status ------------------------------------------------------------------------------------------

  /** Why the loop has stopped: at the end, before a step that asks for approval, or at a step whose dispatch failed. */
  ghost predicate Stopped(steps: seq<Step>, owner: bool, env: nat -> Reply, v: World) {
    if v.e.cancelRequested then v.e.status == Cancelled || v.e.status == Cancelling || v.e.status == RolledBack
    else if v.e.index >= |steps| then v.e.status == Running
    else if Pauses(steps[v.e.index], owner, v.needs) then v.e.status == WaitingApproval
    else
      && v.e.status == RolledBack && !steps[v.e.index].continueOnFailure
      && v.dispatches > 0 && !env(v.dispatches - 1).success
      && v.trace != [] && v.trace[|v.trace|-1] == Dispatched(v.e.index)
  }

  lemma RoundStops(steps: seq<Step>, owner: bool, env: nat -> Reply, w: World)
    requires w.e.index < |steps| && (if w.e.cancelRequested then w.e.status == Cancelling else w.e.status == Running)
    ensures var (v, more) := Round(steps, owner, env, w);
            if more then (if v.e.cancelRequested then v.e.status == Cancelling else v.e.status == Running)
            else Stopped(steps, owner, env, v)
  {
  }

  lemma {:induction false} LoopStops(steps: seq<Step>, owner: bool, env: nat -> Reply, w: World)
    requires if w.e.cancelRequested then w.e.status == Cancelling else w.e.status == Running
    ensures Stopped(steps, owner, env, Loop(steps, owner, env, w))
    decreases |steps| - w.e.index
  {
    if w.e.index < |steps| {
      hide Stopped;
      RoundStops(steps, owner, env, w);
      var (v, more) := Round(steps, owner, env, w);
      if more {
        LoopStops(steps, owner, env, v);
      }
    }
  }

  /** What the status says after a call in that role: cancelled exactly if a cancellation was requested; otherwise
      completed at the end of the plan, waiting before a step that asks for approval, and else rolled back at a step
      whose dispatch, the last one, failed. */
  ghost predicate StatusTells(steps: seq<Step>, owner: bool, env: nat -> Reply, w: World) {
    if w.e.cancelRequested then w.e.status == Cancelled
    else if w.e.index >= |steps| then w.e.status == Completed
    else if Pauses(steps[w.e.index], owner, w.needs) then w.e.status == WaitingApproval
    else
      && w.e.status == RolledBack && !steps[w.e.index].continueOnFailure
      && w.dispatches > 0 && !env(w.dispatches - 1).success
      && w.trace != [] && w.trace[|w.trace|-1] == Dispatched(w.e.index)
  }

  lemma ExecuteTells(steps: seq<Step>, owner: bool, env: nat -> Reply, w: World)
    ensures StatusTells(steps, owner, env, Execute(steps, owner, env, w))
  {
    if !w.e.cancelRequested {
      LoopStops(steps, owner, env, w.(e := w.e.(status := Running)));
    }
  }

  /** The role in which a call runs the loop. */
  function Role(c: Call): bool {
    match c
    case ExecuteCall(owner) => owner
    case ResumeCall(owner) => owner
    case _ => false
  }

  /** Every call that runs the plan leaves a status that says how it ended. */
  lemma EveryCallTells(steps: seq<Step>, env: nat -> Reply, w: World, c: Call)
    requires !c.CancelCall?
    ensures StatusTells(steps, Role(c), env, Apply(steps, env, w, c))
  {
    hide Execute;
    match c
    case ExecuteCall(owner) => ExecuteTells(steps, owner, env, w);
    case ResumeCall(owner) => ExecuteTells(steps, owner, env, Approve(steps, w));
    case SkipCall => ExecuteTells(steps, false, env, PassOver(steps, w));
  }

  /** Over every sequence of calls, a run is not under way between two calls; and a request to cancel turns a run that
      waits for approval into a cancelled one and leaves any other status. */
  lemma {:induction false} RequestAtRest(steps: seq<Step>, env: nat -> Reply, needs: set<Params>, calls: seq<Call>)
    ensures var w := Run(steps, env, Begin(needs), calls);
            var v := Apply(steps, env, w, CancelCall);
            && w.e.status in {IdleStatus, Completed, WaitingApproval, RolledBack, Cancelled}
            && v.e.cancelRequested
            && v.e.status == (if w.e.status == WaitingApproval then Cancelled else w.e.status)
    decreases |calls|
  {
    if calls != [] {
      var before, c := calls[..|calls|-1], calls[|calls|-1];
      RequestAtRest(steps, env, needs, before);
      if !c.CancelCall? {
        EveryCallTells(steps, env, Run(steps, env, Begin(needs), before), c);
        hide Apply;
      }
    }
  }
}

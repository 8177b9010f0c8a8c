/** Step-by-step plan execution with approval pauses, rollback, skip, resume and cancellation. */
module PlanExecutor {

  /** The parameter dictionary of a step.  Several steps of one plan may share one dictionary. */
  class Params {
    var requiresApproval: bool

    constructor (requiresApproval: bool)
      ensures this.requiresApproval == requiresApproval
    {
      this.requiresApproval := requiresApproval;
    }
  }

  /** `params` is null for a step whose dictionary is missing or empty. */
  datatype Step = Step(action: string, continueOnFailure: bool, params: Params?)

  datatype Status =
    | IdleStatus | Running | Paused | WaitingApproval | Completed | RolledBack | Cancelling | Cancelled

  datatype Checkpoint = Checkpoint(id: nat, stepIndex: nat)

  /** What the adapters and the outside world do while a step is dispatched. */
  datatype Reply = Reply(success: bool, cancel: bool)

  datatype Exec = Exec(
    index: nat,
    status: Status,
    completed: seq<nat>,
    failed: seq<nat>,
    checkpoints: seq<Checkpoint>,
    cancelRequested: bool)

  const FRESH := Exec(0, IdleStatus, [], [], [], false)

  datatype Event = Dispatched(step: nat) | Approved(step: nat) | Skipped(step: nat)

  /** `needs` are the dictionaries that ask for approval. */
  datatype World = World(e: Exec, needs: set<Params>, trace: seq<Event>, dispatches: nat)

  // ----- the code ---------------------------------------------------------------------------------------

  function RequestCancel(e: Exec): Exec {
    e.(cancelRequested := true,
       status := match e.status
                 case Running => Cancelling
                 case WaitingApproval => Cancelled
                 case Paused => Cancelled
                 case s => s)
  }

  /** Back to the latest checkpoint. */
  function Rollback(e: Exec): Exec {
    e.(status := RolledBack,
       index := if e.checkpoints != [] then e.checkpoints[|e.checkpoints|-1].stepIndex else 0)
  }

  predicate Pauses(s: Step, owner: bool, needs: set<Params>) {
    s.params != null && s.params in needs && owner
  }

  /** What becomes of the outcome of the current step; the second result says whether the loop goes on. */
  function Outcome(s: Step, success: bool, e: Exec): (Exec, bool) {
    var i := e.index;
    if success then (e.(completed := e.completed + [i], index := i + 1), true)
    else
      var f := e.(failed := e.failed + [i]);
      if s.continueOnFailure then (f.(index := i + 1), true) else (Rollback(f), false)
  }

  /** A step that is not held back: the adapter replies, and a cancellation may arrive meanwhile. */
  function Dispatch(s: Step, reply: Reply, w: World): (World, bool) {
    var e := if reply.cancel then RequestCancel(w.e) else w.e;
    var (f, more) := Outcome(s, reply.success, e);
    (World(f, w.needs, w.trace + [Dispatched(w.e.index)], w.dispatches + 1), more)
  }

  /** One round of the step loop; the second result says whether the loop goes on. */
  function Round(steps: seq<Step>, owner: bool, env: nat -> Reply, w: World): (World, bool)
    requires w.e.index < |steps|
  {
    if w.e.cancelRequested then (w.(e := w.e.(status := Cancelled)), false)
    else
      var e := w.e.(checkpoints := w.e.checkpoints + [Checkpoint(|w.e.checkpoints|, w.e.index)]);
      var s := steps[w.e.index];
      if Pauses(s, owner, w.needs) then (w.(e := e.(status := WaitingApproval)), false)
      else Dispatch(s, env(w.dispatches), w.(e := e))
  }

  function Loop(steps: seq<Step>, owner: bool, env: nat -> Reply, w: World): World
    decreases |steps| - w.e.index
  {
    if w.e.index >= |steps| then w else
    var (v, more) := Round(steps, owner, env, w);
    if more then Loop(steps, owner, env, v) else v
  }

  function Conclude(steps: seq<Step>, e: Exec): Exec {
    if e.cancelRequested then e.(status := Cancelled)
    else if e.index >= |steps| && e.status == Running then e.(status := Completed)
    else e
  }

  function Execute(steps: seq<Step>, owner: bool, env: nat -> Reply, w: World): World {
    if w.e.cancelRequested then w.(e := w.e.(status := Cancelled)) else
    var v := Loop(steps, owner, env, w.(e := w.e.(status := Running)));
    v.(e := Conclude(steps, v.e))
  }

  /** The dictionary of the current step no longer asks for approval. */
  function Approve(steps: seq<Step>, w: World): World {
    var i := w.e.index;
    var v := w.(e := w.e.(status := Running));
    if i < |steps| && steps[i].params != null
    then v.(needs := v.needs - {steps[i].params}, trace := v.trace + [Approved(i)])
    else v
  }

  function Resume(steps: seq<Step>, owner: bool, env: nat -> Reply, w: World): World {
    if w.e.cancelRequested then w.(e := w.e.(status := Cancelled))
    else Execute(steps, owner, env, Approve(steps, w))
  }

  function PassOver(steps: seq<Step>, w: World): World {
    if w.e.index < |steps|
    then w.(e := w.e.(completed := w.e.completed + [w.e.index], index := w.e.index + 1),
            trace := w.trace + [Skipped(w.e.index)])
    else w
  }

  /** Skipping continues in the role of a customer. */
  function Skip(steps: seq<Step>, env: nat -> Reply, w: World): World {
    if w.e.cancelRequested then w.(e := w.e.(status := Cancelled))
    else Execute(steps, false, env, PassOver(steps, w))
  }

  datatype Call = ExecuteCall(owner: bool) | ResumeCall(owner: bool) | SkipCall | CancelCall

  function Apply(steps: seq<Step>, env: nat -> Reply, w: World, c: Call): World {
    match c
    case ExecuteCall(owner) => Execute(steps, owner, env, w)
    case ResumeCall(owner) => Resume(steps, owner, env, w)
    case SkipCall => Skip(steps, env, w)
    case CancelCall => w.(e := RequestCancel(w.e))
  }

  function Run(steps: seq<Step>, env: nat -> Reply, w: World, calls: seq<Call>): World
    decreases |calls|
  {
    if calls == [] then w
    else Apply(steps, env, Run(steps, env, w, calls[..|calls|-1]), calls[|calls|-1])
  }

  function Begin(needs: set<Params>): World { World(FRESH, needs, [], 0) }

  // ----- accounting ----------------------------------------------------------------------------------------

  ghost predicate Increasing(s: seq<nat>) {
    forall i, j :: 0 <= i < j < |s| ==> s[i] < s[j]
  }

  function Count(s: seq<nat>, x: nat): nat {
    multiset(s)[x]
  }

  /** Every step before the current one is accounted for exactly once, as completed (or skipped) or as a
      failure that the plan allows; no step from the current one on is. */
  ghost predicate Accounted(steps: seq<Step>, e: Exec) {
    && e.index <= |steps|
    && Increasing(e.completed)
    && (forall i :: 0 <= i < e.index ==>
          Count(e.completed, i) + (if steps[i].continueOnFailure then Count(e.failed, i) else 0) == 1)
    && (forall i :: e.index <= i < |steps| ==>
          Count(e.completed, i) == 0 && (steps[i].continueOnFailure ==> Count(e.failed, i) == 0))
    && (forall i :: i in e.completed || i in e.failed ==> i < |steps|)
    && (forall i :: i in e.completed ==> i < e.index)
    && (e.status == Completed ==> e.index == |steps|)
    && (e.status == RolledBack ==>
          && e.index < |steps| && !steps[e.index].continueOnFailure
          && e.failed != [] && e.failed[|e.failed|-1] == e.index)
  }

  lemma AppendCount(s: seq<nat>, x: nat)
    ensures forall y :: Count(s + [x], y) == Count(s, y) + if x == y then 1 else 0
  {
  }

  lemma AppendIncreasing(s: seq<nat>, x: nat)
    requires Increasing(s) && forall i :: i in s ==> i < x
    ensures Increasing(s + [x])
  {
    assert forall i :: 0 <= i < |s| ==> s[i] in s;
  }

  /** A completed step is recorded and left behind. */
  lemma CompleteKeeps(steps: seq<Step>, e: Exec, f: Exec)
    requires Accounted(steps, e) && e.index < |steps|
    requires f.index == e.index + 1 && f.completed == e.completed + [e.index] && f.failed == e.failed
    requires f.status != Completed && f.status != RolledBack
    ensures Accounted(steps, f)
  {
    AppendCount(e.completed, e.index);
    AppendIncreasing(e.completed, e.index);
  }

  /** A failure that the plan allows is recorded and left behind. */
  lemma AllowedFailureKeeps(steps: seq<Step>, e: Exec, f: Exec)
    requires Accounted(steps, e) && e.index < |steps| && steps[e.index].continueOnFailure
    requires f.index == e.index + 1 && f.completed == e.completed && f.failed == e.failed + [e.index]
    requires f.status != Completed && f.status != RolledBack
    ensures Accounted(steps, f)
  {
    AppendCount(e.failed, e.index);
  }

  /** A critical failure leaves the run at the failed step. */
  lemma CriticalFailureKeeps(steps: seq<Step>, e: Exec, f: Exec)
    requires Accounted(steps, e) && e.index < |steps| && !steps[e.index].continueOnFailure
    requires f.index == e.index && f.completed == e.completed && f.failed == e.failed + [e.index]
    requires f.status != Completed
    ensures Accounted(steps, f)
  {
    AppendCount(e.failed, e.index);
  }

  predicate Active(e: Exec) { e.status == Running || e.status == Cancelling }

  lemma RoundKeeps(steps: seq<Step>, owner: bool, env: nat -> Reply, w: World)
    requires Accounted(steps, w.e) && w.e.index < |steps| && Active(w.e)
    ensures var (v, more) := Round(steps, owner, env, w);
            && Accounted(steps, v.e)
            && (more ==> Active(v.e))
            && v.e.status != Completed
            && (v.e.status == RolledBack ==> v.e.completed == w.e.completed && v.e.index == w.e.index)
  {
    var (v, more) := Round(steps, owner, env, w);
    if !w.e.cancelRequested && !Pauses(steps[w.e.index], owner, w.needs) {
      if env(w.dispatches).success {
        CompleteKeeps(steps, w.e, v.e);
      } else if steps[w.e.index].continueOnFailure {
        AllowedFailureKeeps(steps, w.e, v.e);
      } else {
        CriticalFailureKeeps(steps, w.e, v.e);
      }
    }
  }

  lemma {:induction false} LoopKeeps(steps: seq<Step>, owner: bool, env: nat -> Reply, w: World)
    requires Accounted(steps, w.e) && Active(w.e)
    ensures var v := Loop(steps, owner, env, w);
            && Accounted(steps, v.e) && v.e.status != Completed
            && (v.e.index >= |steps| ==> Active(v.e))
    decreases |steps| - w.e.index
  {
    if w.e.index < |steps| {
      RoundKeeps(steps, owner, env, w);
      var (v, more) := Round(steps, owner, env, w);
      if more {
        LoopKeeps(steps, owner, env, v);
      }
    }
  }

  /** The accounts of a run, whatever its status. */
  ghost predicate Books(steps: seq<Step>, e: Exec) { Accounted(steps, e.(status := Running)) }

  lemma ExecuteKeeps(steps: seq<Step>, owner: bool, env: nat -> Reply, w: World)
    requires Books(steps, w.e) && !w.e.cancelRequested
    ensures Accounted(steps, Execute(steps, owner, env, w).e)
  {
    LoopKeeps(steps, owner, env, w.(e := w.e.(status := Running)));
  }

  lemma PassOverKeeps(steps: seq<Step>, w: World)
    requires Books(steps, w.e)
    ensures Books(steps, PassOver(steps, w).e)
  {
    if w.e.index < |steps| {
      CompleteKeeps(steps, w.e.(status := Running), PassOver(steps, w).e.(status := Running));
    }
  }

  lemma ApplyKeeps(steps: seq<Step>, env: nat -> Reply, w: World, c: Call)
    requires Accounted(steps, w.e)
    ensures Accounted(steps, Apply(steps, env, w, c).e)
  {
    if !c.CancelCall? && !w.e.cancelRequested {
      match c
      case ExecuteCall(owner) => ExecuteKeeps(steps, owner, env, w);
      case ResumeCall(owner) => ExecuteKeeps(steps, owner, env, Approve(steps, w));
      case SkipCall =>
        PassOverKeeps(steps, w);
        ExecuteKeeps(steps, false, env, PassOver(steps, w));
    }
  }

  /** Over every sequence of calls on one plan, every step before the current one is accounted for exactly
      once, a completed run accounts for every step, and a rolled back run stands at its failed step. */
  lemma {:induction false} EveryStepAccountedOnce(steps: seq<Step>, env: nat -> Reply, needs: set<Params>,
                                                  calls: seq<Call>)
    ensures Accounted(steps, Run(steps, env, Begin(needs), calls).e)
    decreases |calls|
  {
    if calls != [] {
      EveryStepAccountedOnce(steps, env, needs, calls[..|calls|-1]);
      ApplyKeeps(steps, env, Run(steps, env, Begin(needs), calls[..|calls|-1]), calls[|calls|-1]);
    }
  }

  /** The latest checkpoint belongs to the step that is being run, so a rollback changes no index. */
  lemma RollbackStaysAtStep(s: Step, reply: Reply, w: World)
    requires w.e.checkpoints != [] && w.e.checkpoints[|w.e.checkpoints|-1].stepIndex == w.e.index
    requires !reply.success && !s.continueOnFailure
    ensures var (v, more) := Dispatch(s, reply, w);
            !more && v.e.index == w.e.index && v.e.completed == w.e.completed && v.e.failed == w.e.failed + [w.e.index]
  {
  }

  // ----- cancellation ---------------------------------------------------------------------------------------

  /** No cancellation arrived before the latest dispatch, and one that arrived during it is remembered. */
  ghost predicate CancelSeen(env: nat -> Reply, w: World) {
    && |Dispatches(w.trace)| == w.dispatches
    && (forall k :: 0 <= k < w.dispatches - 1 ==> !env(k).cancel)
    && (w.dispatches > 0 && env(w.dispatches - 1).cancel ==> w.e.cancelRequested)
  }

  function Dispatches(trace: seq<Event>): seq<Event> {
    if trace == [] then []
    else Dispatches(trace[..|trace|-1]) + if trace[|trace|-1].Dispatched? then [trace[|trace|-1]] else []
  }

  lemma AppendEvent(trace: seq<Event>, e: Event)
    ensures Dispatches(trace + [e]) == Dispatches(trace) + if e.Dispatched? then [e] else []
  {
    assert (trace + [e])[..|trace|] == trace;
  }

  lemma DispatchRecords(s: Step, reply: Reply, w: World)
    ensures var v := Dispatch(s, reply, w).0;
            && v.trace == w.trace + [Dispatched(w.e.index)] && v.dispatches == w.dispatches + 1
            && v.e.cancelRequested == (w.e.cancelRequested || reply.cancel)
  {
  }

  lemma DispatchSeesCancel(s: Step, env: nat -> Reply, w: World)
    requires CancelSeen(env, w) && !w.e.cancelRequested
    ensures CancelSeen(env, Dispatch(s, env(w.dispatches), w).0)
  {
    DispatchRecords(s, env(w.dispatches), w);
    AppendEvent(w.trace, Dispatched(w.e.index));
    hide Dispatch, Dispatches;
    var v := Dispatch(s, env(w.dispatches), w).0;
    forall k | 0 <= k < v.dispatches - 1 ensures !env(k).cancel {
      assert k == w.dispatches - 1 || k < w.dispatches - 1;
    }
  }

  lemma RoundSeesCancel(steps: seq<Step>, owner: bool, env: nat -> Reply, w: World)
    requires CancelSeen(env, w) && w.e.index < |steps|
    ensures CancelSeen(env, Round(steps, owner, env, w).0)
  {
    if !w.e.cancelRequested && !Pauses(steps[w.e.index], owner, w.needs) {
      hide Dispatch;
      var e := w.e.(checkpoints := w.e.checkpoints + [Checkpoint(|w.e.checkpoints|, w.e.index)]);
      DispatchSeesCancel(steps[w.e.index], env, w.(e := e));
    }
  }

  lemma {:induction false} LoopSeesCancel(steps: seq<Step>, owner: bool, env: nat -> Reply, w: World)
    requires CancelSeen(env, w)
    ensures CancelSeen(env, Loop(steps, owner, env, w))
    decreases |steps| - w.e.index
  {
    if w.e.index < |steps| {
      hide CancelSeen, Dispatch, RequestCancel, Rollback, Pauses;
      RoundSeesCancel(steps, owner, env, w);
      var (v, more) := Round(steps, owner, env, w);
      if more {
        LoopSeesCancel(steps, owner, env, v);
      }
    }
  }

  lemma ExecuteSeesCancel(steps: seq<Step>, owner: bool, env: nat -> Reply, w: World)
    requires CancelSeen(env, w)
    ensures CancelSeen(env, Execute(steps, owner, env, w))
  {
    if !w.e.cancelRequested {
      LoopSeesCancel(steps, owner, env, w.(e := w.e.(status := Running)));
    }
  }

  /** Approving or passing over the current step is no dispatch. */
  lemma CallersSeeCancel(steps: seq<Step>, env: nat -> Reply, w: World)
    requires CancelSeen(env, w)
    ensures CancelSeen(env, Approve(steps, w)) && CancelSeen(env, PassOver(steps, w))
  {
    AppendEvent(w.trace, Approved(w.e.index));
    AppendEvent(w.trace, Skipped(w.e.index));
    hide Dispatches;
  }

  lemma ApplySeesCancel(steps: seq<Step>, env: nat -> Reply, w: World, c: Call)
    requires CancelSeen(env, w)
    ensures CancelSeen(env, Apply(steps, env, w, c))
  {
    hide Execute, Approve, PassOver, Dispatches;
    CallersSeeCancel(steps, env, w);
    match c
    case ExecuteCall(owner) => ExecuteSeesCancel(steps, owner, env, w);
    case ResumeCall(owner) => ExecuteSeesCancel(steps, owner, env, Approve(steps, w));
    case SkipCall => ExecuteSeesCancel(steps, false, env, PassOver(steps, w));
    case CancelCall =>
  }

  lemma {:induction false} RunSeesCancel(steps: seq<Step>, env: nat -> Reply, needs: set<Params>, calls: seq<Call>)
    ensures CancelSeen(env, Run(steps, env, Begin(needs), calls))
    decreases |calls|
  {
    if calls != [] {
      hide CancelSeen, Apply;
      RunSeesCancel(steps, env, needs, calls[..|calls|-1]);
      ApplySeesCancel(steps, env, Run(steps, env, Begin(needs), calls[..|calls|-1]), calls[|calls|-1]);
    }
  }

  /** Over every sequence of calls, a cancellation that arrives during a dispatch makes it the last one. */
  lemma CancelStopsDispatching(steps: seq<Step>, env: nat -> Reply, needs: set<Params>, calls: seq<Call>)
    ensures var w := Run(steps, env, Begin(needs), calls);
            && |Dispatches(w.trace)| == w.dispatches
            && forall k :: 0 <= k < w.dispatches && env(k).cancel ==> k == w.dispatches - 1 && w.e.cancelRequested
  {
    hide Run, Dispatches;
    RunSeesCancel(steps, env, needs, calls);
  }

  /** Once requested, a cancellation is never withdrawn: every later call dispatches nothing, changes no
      record, and all but a repeated request report that the run is cancelled. */
  lemma {:induction false} CancelIsFinal(steps: seq<Step>, env: nat -> Reply, w: World, calls: seq<Call>)
    requires w.e.cancelRequested
    ensures var v := Run(steps, env, w, calls);
            && v.e.cancelRequested && v.trace == w.trace && v.needs == w.needs
            && v.e == w.e.(status := v.e.status)
            && (calls != [] && !calls[|calls|-1].CancelCall? ==> v.e.status == Cancelled)
    decreases |calls|
  {
    if calls != [] {
      CancelIsFinal(steps, env, w, calls[..|calls|-1]);
    }
  }
}

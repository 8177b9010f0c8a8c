/** The executor state object and the executor's methods. */
module PlanObjects {
  import opened PlanExecutor

  class ExecutorState {
    var index: nat
    var status: Status
    var completed: seq<nat>
    var failed: seq<nat>
    var checkpoints: seq<Checkpoint>
    var cancelRequested: bool

    /** What has happened so far, for the specification only. */
    ghost var trace: seq<Event>
    var dispatches: nat

    constructor ()
      ensures View() == FRESH && trace == [] && dispatches == 0
    {
      index, status, completed, failed, checkpoints, cancelRequested := 0, IdleStatus, [], [], [], false;
      trace, dispatches := [], 0;
    }

    ghost function View(): Exec
      reads this
    {
      Exec(index, status, completed, failed, checkpoints, cancelRequested)
    }
  }

  /** The dictionaries of a plan. */
  ghost function Dictionaries(steps: seq<Step>): set<Params> {
    set i | 0 <= i < |steps| && steps[i].params != null :: steps[i].params
  }

  ghost function Needs(steps: seq<Step>): set<Params>
    reads Dictionaries(steps)
  {
    set p | p in Dictionaries(steps) && p.requiresApproval
  }

  ghost function WorldOf(steps: seq<Step>, state: ExecutorState): World
    reads state, Dictionaries(steps)
  {
    World(state.View(), Needs(steps), state.trace, state.dispatches)
  }

  class RollbackHandler {
    static method RollbackLatest(state: ExecutorState)
      modifies state
      ensures state.View() == Rollback(old(state.View()))
      ensures state.status == RolledBack
      ensures if old(state.checkpoints) == [] then state.index == 0
              else state.index == old(state.checkpoints)[|old(state.checkpoints)| - 1].stepIndex
      ensures state.trace == old(state.trace) && state.dispatches == old(state.dispatches)
    {
      if state.checkpoints != [] {
        state.index := state.checkpoints[|state.checkpoints|-1].stepIndex;
      } else {
        state.index := 0;
      }
      state.status := RolledBack;
    }
  }

  class PlanRunner {
    /** Run one step: pause for approval, or hand the step to the adapters. */
    static method RunStep(steps: seq<Step>, step: Step, state: ExecutorState, owner: bool, env: nat -> Reply)
      returns (success: bool)
      requires step in steps
      modifies state
      ensures unchanged(Dictionaries(steps))
      ensures if Pauses(step, owner, Needs(steps)) then
                state.View() == old(state.View()).(status := WaitingApproval) &&
                state.trace == old(state.trace) && state.dispatches == old(state.dispatches) && !success
              else
                var reply := env(old(state.dispatches));
                && success == reply.success
                && state.View() == (if reply.cancel then RequestCancel(old(state.View())) else old(state.View()))
                && state.trace == old(state.trace) + [Dispatched(old(state.index))]
                && state.dispatches == old(state.dispatches) + 1
    {
      if step.params != null && step.params.requiresApproval && owner {
        assert step.params in Dictionaries(steps);
        state.status := WaitingApproval;
        return false;
      }
      var reply := env(state.dispatches);
      state.trace := state.trace + [Dispatched(state.index)];
      state.dispatches := state.dispatches + 1;
      if reply.cancel {
        Cancel(state);
      }
      success := reply.success;
    }

    static method Cancel(state: ExecutorState)
      modifies state
      ensures state.View() == RequestCancel(old(state.View()))
      ensures state.cancelRequested
      ensures state.status == match old(state.status)
                              case Running => Cancelling
                              case WaitingApproval => Cancelled
                              case Paused => Cancelled
                              case other => other
      ensures state.trace == old(state.trace) && state.dispatches == old(state.dispatches)
    {
      state.cancelRequested := true;
      if state.status == Running {
        state.status := Cancelling;
      } else if state.status == WaitingApproval || state.status == Paused {
        state.status := Cancelled;
      }
    }

    /** One round of the step loop. */
    static method RunRound(steps: seq<Step>, state: ExecutorState, owner: bool, env: nat -> Reply) returns (more: bool)
      requires state.index < |steps| && Active(state.View())
      modifies state
      ensures unchanged(Dictionaries(steps))
      ensures (WorldOf(steps, state), more) == Round(steps, owner, env, old(WorldOf(steps, state)))
      ensures more ==> Active(state.View()) && state.index == old(state.index) + 1
    {
      if state.cancelRequested {
        state.status := Cancelled;
        return false;
      }
      var i := state.index;
      var step := steps[i];
      state.checkpoints := state.checkpoints + [Checkpoint(|state.checkpoints|, i)];
      var success := RunStep(steps, step, state, owner, env);
      if state.status == WaitingApproval {
        return false;
      }
      more := Record(steps, step, i, success, state);
    }

    /** Record the outcome of step `i` and go on, or roll back. */
    static method Record(steps: seq<Step>, step: Step, i: nat, success: bool, state: ExecutorState) returns (more: bool)
      requires i == state.index
      modifies state
      ensures unchanged(Dictionaries(steps))
      ensures (state.View(), more) == Outcome(step, success, old(state.View()))
      ensures state.completed == old(state.completed) + if success then [i] else []
      ensures state.failed == old(state.failed) + if success then [] else [i]
      ensures state.trace == old(state.trace) && state.dispatches == old(state.dispatches)
    {
      if success {
        state.completed := state.completed + [i];
        state.index := i + 1;
        return true;
      }
      state.failed := state.failed + [i];
      if step.continueOnFailure {
        state.index := i + 1;
        return true;
      }
      RollbackHandler.RollbackLatest(state);
      return false;
    }

    static method ExecutePlan(steps: seq<Step>, state: ExecutorState, owner: bool, env: nat -> Reply)
      modifies state
      ensures unchanged(Dictionaries(steps))
      ensures WorldOf(steps, state) == Execute(steps, owner, env, old(WorldOf(steps, state)))
    {
      if state.cancelRequested {
        state.status := Cancelled;
        return;
      }
      state.status := Running;
      ghost var w := WorldOf(steps, state);
      while state.index < |steps|
        invariant unchanged(Dictionaries(steps))
        invariant Active(state.View())
        invariant Loop(steps, owner, env, WorldOf(steps, state)) == Loop(steps, owner, env, w)
        decreases |steps| - state.index
      {
        var more := RunRound(steps, state, owner, env);
        if !more {
          break;
        }
      }
      if state.cancelRequested {
        state.status := Cancelled;
      } else if state.index >= |steps| && state.status == Running {
        state.status := Completed;
      }
    }

    static method ResumeExecution(steps: seq<Step>, state: ExecutorState, owner: bool, env: nat -> Reply)
      modifies state, Dictionaries(steps)
      ensures WorldOf(steps, state) == Resume(steps, owner, env, old(WorldOf(steps, state)))
    {
      if state.cancelRequested {
        state.status := Cancelled;
        return;
      }
      state.status := Running;
      if state.index < |steps| {
        var step := steps[state.index];
        if step.params != null {
          assert step.params in Dictionaries(steps);
          step.params.requiresApproval := false;
          state.trace := state.trace + [Approved(state.index)];
        }
      }
      assert WorldOf(steps, state) == Approve(steps, old(WorldOf(steps, state)));
      ExecutePlan(steps, state, owner, env);
    }

    static method SkipStep(steps: seq<Step>, state: ExecutorState, env: nat -> Reply)
      modifies state
      ensures unchanged(Dictionaries(steps))
      ensures WorldOf(steps, state) == Skip(steps, env, old(WorldOf(steps, state)))
    {
      if state.cancelRequested {
        state.status := Cancelled;
        return;
      }
      if state.index < |steps| {
        state.completed := state.completed + [state.index];
        state.trace := state.trace + [Skipped(state.index)];
        state.index := state.index + 1;
      }
      ExecutePlan(steps, state, false, env);
    }
  }
}

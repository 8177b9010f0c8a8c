/** Approval pauses of the plan executor: when a step that asks for approval may be dispatched. */
module PlanApproval {
  import opened PlanExecutor

  /** Some earlier resume approved the dictionary that step `i` uses. */
  ghost predicate ApprovedBefore(steps: seq<Step>, trace: seq<Event>, k: nat, i: nat)
    requires k <= |trace| && i < |steps|
  {
    exists m :: 0 <= m < k && trace[m].Approved? && trace[m].step < |steps| &&
                steps[trace[m].step].params == steps[i].params
  }

  /** Every dispatch of a step that asked for approval at the outset comes after such a resume, and a
      dictionary that no longer asks was approved. */
  ghost predicate Guarded(steps: seq<Step>, needs: set<Params>, w: World) {
    && w.needs <= needs
    && (forall k :: 0 <= k < |w.trace| && w.trace[k].Dispatched? ==>
          w.trace[k].step < |steps| &&
          (Pauses(steps[w.trace[k].step], true, needs) ==> ApprovedBefore(steps, w.trace, k, w.trace[k].step)))
    && (forall i :: 0 <= i < |steps| && Pauses(steps[i], true, needs) && !Pauses(steps[i], true, w.needs) ==>
          ApprovedBefore(steps, w.trace, |w.trace|, i))
  }

  lemma GuardedStep(steps: seq<Step>, needs: set<Params>, w: World, v: World, e: Event)
    requires Guarded(steps, needs, w)
    requires v.trace == w.trace + [e] && v.needs <= w.needs
    requires e.Dispatched? ==>
               e.step < |steps| && v.needs == w.needs &&
               (Pauses(steps[e.step], true, needs) ==> !Pauses(steps[e.step], true, w.needs))
    requires e.Approved? ==> e.step < |steps| && v.needs == w.needs - {steps[e.step].params}
    requires e.Skipped? ==> v.needs == w.needs
    ensures Guarded(steps, needs, v)
  {
    var n := |w.trace|;
    assert forall k :: 0 <= k < n ==> v.trace[k] == w.trace[k];
    assert v.trace[n] == e;
    forall k, i | 0 <= k <= n && 0 <= i < |steps| && ApprovedBefore(steps, w.trace, k, i)
      ensures ApprovedBefore(steps, v.trace, k, i) && ApprovedBefore(steps, v.trace, n + 1, i)
    {
      var m :| 0 <= m < k && w.trace[m].Approved? && w.trace[m].step < |steps| &&
               steps[w.trace[m].step].params == steps[i].params;
      assert v.trace[m] == w.trace[m];
    }
    forall i | 0 <= i < |steps| && Pauses(steps[i], true, needs) && !Pauses(steps[i], true, v.needs)
      ensures ApprovedBefore(steps, v.trace, n + 1, i)
    {
      if Pauses(steps[i], true, w.needs) {
        assert v.trace[n].Approved? && steps[v.trace[n].step].params == steps[i].params;
      }
    }
  }

  lemma {:induction false} LoopGuarded(steps: seq<Step>, env: nat -> Reply, needs: set<Params>, w: World)
    requires Guarded(steps, needs, w)
    ensures Guarded(steps, needs, Loop(steps, true, env, w))
    decreases |steps| - w.e.index
  {
    if w.e.index < |steps| {
      var (v, more) := Round(steps, true, env, w);
      if v.trace != w.trace {
        GuardedStep(steps, needs, w, v, Dispatched(w.e.index));
      }
      if more {
        LoopGuarded(steps, env, needs, v);
      }
    }
  }

  lemma ApplyGuarded(steps: seq<Step>, env: nat -> Reply, needs: set<Params>, w: World, c: Call)
    requires Guarded(steps, needs, w) && OwnerCall(c)
    ensures Guarded(steps, needs, Apply(steps, env, w, c))
  {
    if !w.e.cancelRequested {
      if c.ExecuteCall? {
        LoopGuarded(steps, env, needs, w.(e := w.e.(status := Running)));
      } else if c.ResumeCall? {
        var v := Approve(steps, w);
        if v.trace != w.trace {
          GuardedStep(steps, needs, w, v, Approved(w.e.index));
        }
        LoopGuarded(steps, env, needs, v.(e := v.e.(status := Running)));
      }
    }
  }

  /** Calls made as the owner, without skips. */
  predicate OwnerCall(c: Call) { c.CancelCall? || (c.ExecuteCall? && c.owner) || (c.ResumeCall? && c.owner) }

  lemma {:induction false} OwnerRunsAreGuarded(steps: seq<Step>, env: nat -> Reply, needs: set<Params>,
                                               calls: seq<Call>)
    requires forall c :: c in calls ==> OwnerCall(c)
    ensures Guarded(steps, needs, Run(steps, env, Begin(needs), calls))
    decreases |calls|
  {
    if calls != [] {
      OwnerRunsAreGuarded(steps, env, needs, calls[..|calls|-1]);
      ApplyGuarded(steps, env, needs, Run(steps, env, Begin(needs), calls[..|calls|-1]), calls[|calls|-1]);
    }
  }

  // ----- when approval is kept ----------------------------------------------------------------------------------

  /** Every dispatched step that asks for approval at the outset was resumed at itself before. */
  ghost predicate ApprovedInTime(steps: seq<Step>, needs: set<Params>, trace: seq<Event>) {
    forall k :: 0 <= k < |trace| && trace[k].Dispatched? && AsksAtFirst(steps, needs, trace[k].step) ==>
      exists m :: 0 <= m < k && trace[m] == Approved(trace[k].step)
  }

  predicate AsksAtFirst(steps: seq<Step>, needs: set<Params>, i: nat) {
    i < |steps| && Pauses(steps[i], true, needs)
  }

  /** No two steps that ask for approval share their dictionary. */
  ghost predicate SeparateApprovals(steps: seq<Step>, needs: set<Params>) {
    forall i, j :: 0 <= i < j && AsksAtFirst(steps, needs, i) && AsksAtFirst(steps, needs, j) ==>
      steps[i].params != steps[j].params
  }

  lemma GuardedIsInTime(steps: seq<Step>, needs: set<Params>, w: World)
    requires Guarded(steps, needs, w) && SeparateApprovals(steps, needs)
    ensures ApprovedInTime(steps, needs, w.trace)
  {
    forall k | 0 <= k < |w.trace| && w.trace[k].Dispatched? && AsksAtFirst(steps, needs, w.trace[k].step)
      ensures exists m :: 0 <= m < k && w.trace[m] == Approved(w.trace[k].step)
    {
      var i := w.trace[k].step;
      assert ApprovedBefore(steps, w.trace, k, i);
      var m :| 0 <= m < k && w.trace[m].Approved? && w.trace[m].step < |steps| &&
               steps[w.trace[m].step].params == steps[i].params;
      assert AsksAtFirst(steps, needs, w.trace[m].step);
      assert w.trace[m].step == i;
    }
  }

  /** In runs of the owner, if no two steps that ask for approval share their dictionary, such a step is
      dispatched only after a resume at that very step. */
  lemma ApprovedBeforeDispatched(steps: seq<Step>, env: nat -> Reply, needs: set<Params>, calls: seq<Call>)
    requires (forall c :: c in calls ==> OwnerCall(c)) && SeparateApprovals(steps, needs)
    ensures ApprovedInTime(steps, needs, Run(steps, env, Begin(needs), calls).trace)
  {
    OwnerRunsAreGuarded(steps, env, needs, calls);
    GuardedIsInTime(steps, needs, Run(steps, env, Begin(needs), calls));
  }

  function AlwaysSucceeds(k: nat): Reply { Reply(true, false) }

  /** A first execution and `k` resumes, all by the owner. */
  function Insistent(k: nat): (calls: seq<Call>)
    ensures forall c :: c in calls ==> OwnerCall(c)
  {
    if k == 0 then [ExecuteCall(true)] else Insistent(k - 1) + [ResumeCall(true)]
  }

  /** The state of a run in which everything succeeds, with respect to two steps `i` before `j` that share
      a dictionary: once `i` is left behind, `j` does not ask any more, and it was never resumed. */
  ghost predicate Passing(steps: seq<Step>, i: nat, j: nat, w: World)
    requires i < j < |steps|
  {
    && !w.e.cancelRequested && w.e.index <= |steps|
    && (w.e.index > i ==> steps[i].params !in w.needs)
    && (forall m :: 0 <= m < |w.trace| ==> w.trace[m] != Approved(j))
    && (w.e.index > j ==> Dispatched(j) in w.trace)
  }

  /** The loop has come to the end or to a step that asks. */
  predicate Stopped(steps: seq<Step>, w: World) {
    w.e.index < |steps| ==> Pauses(steps[w.e.index], true, w.needs)
  }

  lemma RoundPasses(steps: seq<Step>, i: nat, j: nat, w: World)
    requires i < j < |steps| && steps[i].params != null && steps[i].params == steps[j].params
    requires Passing(steps, i, j, w) && w.e.index < |steps|
    ensures var (v, more) := Round(steps, true, AlwaysSucceeds, w);
            && Passing(steps, i, j, v)
            && (if Pauses(steps[w.e.index], true, w.needs) then !more && Stopped(steps, v) && v.e.index == w.e.index
                else more && v.e.index == w.e.index + 1)
  {
    if !Pauses(steps[w.e.index], true, w.needs) {
      var v := Round(steps, true, AlwaysSucceeds, w).0;
      assert v.trace == w.trace + [Dispatched(w.e.index)];
      assert v.trace[|w.trace|] == Dispatched(w.e.index);
      assert forall x :: x in w.trace ==> x in v.trace;
    }
  }

  lemma {:induction false} LoopPasses(steps: seq<Step>, i: nat, j: nat, w: World)
    requires i < j < |steps| && steps[i].params != null && steps[i].params == steps[j].params
    requires Passing(steps, i, j, w)
    ensures var v := Loop(steps, true, AlwaysSucceeds, w);
            && Passing(steps, i, j, v) && Stopped(steps, v) && v.e.index >= w.e.index
            && (!Stopped(steps, w) ==> v.e.index > w.e.index)
    decreases |steps| - w.e.index
  {
    if w.e.index < |steps| {
      hide Passing, Round;
      RoundPasses(steps, i, j, w);
      var (v, more) := Round(steps, true, AlwaysSucceeds, w);
      if more {
        LoopPasses(steps, i, j, v);
      }
    }
  }

  /** A resume moves past the step at which the run stands, and never stands at `j`. */
  lemma ResumePasses(steps: seq<Step>, i: nat, j: nat, w: World)
    requires i < j < |steps| && steps[i].params != null && steps[i].params == steps[j].params
    requires Passing(steps, i, j, w) && Stopped(steps, w)
    ensures var v := Resume(steps, true, AlwaysSucceeds, w);
            && Passing(steps, i, j, v) && Stopped(steps, v)
            && (v.e.index > w.e.index || v.e.index == |steps|)
  {
    assert w.e.index != j;
    var u := Approve(steps, w);
    assert forall m :: 0 <= m < |w.trace| ==> u.trace[m] == w.trace[m];
    assert forall x :: x in w.trace ==> x in u.trace;
    assert Passing(steps, i, j, u.(e := u.e.(status := Running)));
    LoopPasses(steps, i, j, u.(e := u.e.(status := Running)));
  }

  lemma {:induction false} InsistentRunPasses(steps: seq<Step>, needs: set<Params>, i: nat, j: nat, k: nat)
    requires i < j < |steps| && steps[i].params != null && steps[i].params == steps[j].params
    ensures var w := Run(steps, AlwaysSucceeds, Begin(needs), Insistent(k));
            && Passing(steps, i, j, w) && Stopped(steps, w)
            && (w.e.index >= k || w.e.index == |steps|)
  {
    var w0 := Begin(needs);
    if k == 0 {
      assert Insistent(0)[..0] == [];
      assert Run(steps, AlwaysSucceeds, w0, []) == w0;
      LoopPasses(steps, i, j, w0.(e := w0.e.(status := Running)));
    } else {
      InsistentRunPasses(steps, needs, i, j, k - 1);
      assert Insistent(k)[..|Insistent(k)|-1] == Insistent(k - 1);
      ResumePasses(steps, i, j, Run(steps, AlwaysSucceeds, w0, Insistent(k - 1)));
    }
  }

  /** Two steps that share a dictionary which asks for approval: insisting gets the second dispatched without
      a resume of its own. */
  lemma SharingBreaksApproval(steps: seq<Step>, needs: set<Params>, i: nat, j: nat)
    requires i < j && AsksAtFirst(steps, needs, i) && AsksAtFirst(steps, needs, j)
    requires steps[i].params == steps[j].params
    ensures !ApprovedInTime(steps, needs, Run(steps, AlwaysSucceeds, Begin(needs), Insistent(|steps|)).trace)
  {
    InsistentRunPasses(steps, needs, i, j, |steps|);
    var trace := Run(steps, AlwaysSucceeds, Begin(needs), Insistent(|steps|)).trace;
    var k :| 0 <= k < |trace| && trace[k] == Dispatched(j);
    assert AsksAtFirst(steps, needs, trace[k].step);
  }

  /** What approval promises, for every adapter and every sequence of the owner's calls. */
  ghost predicate ApprovalKept(steps: seq<Step>, needs: set<Params>) {
    forall env: nat -> Reply, calls: seq<Call> :: (forall c :: c in calls ==> OwnerCall(c)) ==>
      ApprovedInTime(steps, needs, Run(steps, env, Begin(needs), calls).trace)
  }

  /** In the owner's runs, no step that asks for approval is dispatched without a resume at itself, exactly if
      no two steps that ask for approval share their dictionary. */
  lemma ApprovalKeptExactlyWhen(steps: seq<Step>, needs: set<Params>)
    ensures ApprovalKept(steps, needs) <==> SeparateApprovals(steps, needs)
  {
    if SeparateApprovals(steps, needs) {
      forall env: nat -> Reply, calls: seq<Call> | forall c :: c in calls ==> OwnerCall(c)
        ensures ApprovedInTime(steps, needs, Run(steps, env, Begin(needs), calls).trace)
      {
        ApprovedBeforeDispatched(steps, env, needs, calls);
      }
    } else {
      var i, j :| 0 <= i < j && AsksAtFirst(steps, needs, i) && AsksAtFirst(steps, needs, j) &&
                  steps[i].params == steps[j].params;
      SharingBreaksApproval(steps, needs, i, j);
    }
  }

  // ----- skips ------------------------------------------------------------------------------------------------

  /** Calls made as the owner, with skips. */
  predicate OwnerOrSkip(c: Call) { OwnerCall(c) || c.SkipCall? }

  /** Only the first step asks for approval, if any does. */
  ghost predicate OnlyFirstAsks(steps: seq<Step>, needs: set<Params>) {
    forall i :: 0 < i ==> !AsksAtFirst(steps, needs, i)
  }

  /** Behind the first step the loop dispatches nothing that asks, and it never comes back. */
  lemma {:induction false} LoopBehindFirst(steps: seq<Step>, env: nat -> Reply, needs: set<Params>, w: World)
    requires Guarded(steps, needs, w) && OnlyFirstAsks(steps, needs) && w.e.index > 0
    ensures Guarded(steps, needs, Loop(steps, false, env, w))
    decreases |steps| - w.e.index
  {
    if w.e.index < |steps| {
      assert !AsksAtFirst(steps, needs, w.e.index);
      var (v, more) := Round(steps, false, env, w);
      if v.trace != w.trace {
        GuardedStep(steps, needs, w, v, Dispatched(w.e.index));
      }
      if more {
        LoopBehindFirst(steps, env, needs, v);
      }
    }
  }

  lemma SkipGuarded(steps: seq<Step>, env: nat -> Reply, needs: set<Params>, w: World)
    requires Guarded(steps, needs, w) && OnlyFirstAsks(steps, needs)
    ensures Guarded(steps, needs, Skip(steps, env, w))
  {
    if !w.e.cancelRequested {
      var v := PassOver(steps, w);
      var u := v.(e := v.e.(status := Running));
      if v.trace != w.trace {
        GuardedStep(steps, needs, w, v, Skipped(w.e.index));
      }
      if u.e.index > 0 {
        LoopBehindFirst(steps, env, needs, u);
      }
    }
  }

  lemma {:induction false} SkippingRunsAreGuarded(steps: seq<Step>, env: nat -> Reply, needs: set<Params>,
                                                  calls: seq<Call>)
    requires (forall c :: c in calls ==> OwnerOrSkip(c)) && OnlyFirstAsks(steps, needs)
    ensures Guarded(steps, needs, Run(steps, env, Begin(needs), calls))
    decreases |calls|
  {
    if calls != [] {
      var before, c := calls[..|calls|-1], calls[|calls|-1];
      assert c in calls;
      SkippingRunsAreGuarded(steps, env, needs, before);
      var w := Run(steps, env, Begin(needs), before);
      hide Guarded;
      if c.SkipCall? {
        SkipGuarded(steps, env, needs, w);
      } else {
        ApplyGuarded(steps, env, needs, w, c);
      }
    }
  }

  /** A customer's loop in which everything succeeds dispatches every step and approves none. */
  lemma {:induction false} CustomerDispatchesAll(steps: seq<Step>, w: World, i: nat)
    requires !w.e.cancelRequested && w.e.index <= i < |steps|
    requires forall m :: 0 <= m < |w.trace| ==> !w.trace[m].Approved?
    ensures var v := Loop(steps, false, AlwaysSucceeds, w);
            Dispatched(i) in v.trace && forall m :: 0 <= m < |v.trace| ==> !v.trace[m].Approved?
    decreases |steps| - w.e.index
  {
    var (v, more) := Round(steps, false, AlwaysSucceeds, w);
    assert more && v.e.index == w.e.index + 1 && v.trace == w.trace + [Dispatched(w.e.index)];
    if i > w.e.index {
      CustomerDispatchesAll(steps, v, i);
    } else {
      assert v.trace[|w.trace|] == Dispatched(i);
      CustomerKeepsTrace(steps, v);
    }
  }

  lemma {:induction false} CustomerKeepsTrace(steps: seq<Step>, w: World)
    requires !w.e.cancelRequested
    requires forall m :: 0 <= m < |w.trace| ==> !w.trace[m].Approved?
    ensures var v := Loop(steps, false, AlwaysSucceeds, w);
            w.trace <= v.trace && forall m :: 0 <= m < |v.trace| ==> !v.trace[m].Approved?
    decreases |steps| - w.e.index
  {
    if w.e.index < |steps| {
      var (v, more) := Round(steps, false, AlwaysSucceeds, w);
      assert more && v.trace == w.trace + [Dispatched(w.e.index)];
      CustomerKeepsTrace(steps, v);
    }
  }

  lemma SkipBreaksApproval(steps: seq<Step>, needs: set<Params>, i: nat)
    requires 0 < i && AsksAtFirst(steps, needs, i)
    ensures !ApprovedInTime(steps, needs, Run(steps, AlwaysSucceeds, Begin(needs), [SkipCall]).trace)
  {
    var w0 := Begin(needs);
    assert [SkipCall][..0] == [];
    assert Run(steps, AlwaysSucceeds, w0, []) == w0;
    var v := PassOver(steps, w0);
    CustomerDispatchesAll(steps, v.(e := v.e.(status := Running)), i);
    var trace := Run(steps, AlwaysSucceeds, w0, [SkipCall]).trace;
    assert trace == Skip(steps, AlwaysSucceeds, w0).trace;
    var k :| 0 <= k < |trace| && trace[k] == Dispatched(i);
    assert AsksAtFirst(steps, needs, trace[k].step);
  }

  /** The same promise when the owner may also skip. */
  ghost predicate ApprovalKeptDespiteSkips(steps: seq<Step>, needs: set<Params>) {
    forall env: nat -> Reply, calls: seq<Call> :: (forall c :: c in calls ==> OwnerOrSkip(c)) ==>
      ApprovedInTime(steps, needs, Run(steps, env, Begin(needs), calls).trace)
  }

  /** With skips the promise is kept exactly if no step but the first asks for approval. */
  lemma SkipsKeepApprovalExactlyWhen(steps: seq<Step>, needs: set<Params>)
    ensures ApprovalKeptDespiteSkips(steps, needs) <==> OnlyFirstAsks(steps, needs)
  {
    if OnlyFirstAsks(steps, needs) {
      forall env: nat -> Reply, calls: seq<Call> | forall c :: c in calls ==> OwnerOrSkip(c)
        ensures ApprovedInTime(steps, needs, Run(steps, env, Begin(needs), calls).trace)
      {
        SkippingRunsAreGuarded(steps, env, needs, calls);
        GuardedIsInTime(steps, needs, Run(steps, env, Begin(needs), calls));
      }
    } else {
      var i :| 0 < i && AsksAtFirst(steps, needs, i);
      SkipBreaksApproval(steps, needs, i);
    }
  }

  // ----- inputs -------------------------------------------------------------------------------------------------

  /** Steps that share a dictionary share its approval: the second is dispatched without a resume of its own. */
  lemma SharedParamsShareApproval(p: Params, env: nat -> Reply)
    requires env(0) == Reply(true, false)
    ensures var s := Step("act", false, p);
            var w := Run([s, s], env, Begin({p}), [ExecuteCall(true), ResumeCall(true)]);
            w.trace == [Approved(0), Dispatched(0), Dispatched(1)]
  {
    var s := Step("act", false, p);
    var calls := [ExecuteCall(true), ResumeCall(true)];
    var w0 := Begin({p});
    assert calls[..1] == [ExecuteCall(true)] && [ExecuteCall(true)][..0] == [];
    var w1 := Execute([s, s], true, env, w0);
    assert Run([s, s], env, w0, calls[..1]) == w1;
    assert w1.trace == [] && w1.needs == {p} && w1.e.index == 0 && w1.dispatches == 0;
    var w2 := Approve([s, s], w1);
    assert w2.needs == {} && w2.trace == [Approved(0)];
    var (w3, more) := Round([s, s], true, env, w2);
    assert w3.e.index == 1 && w3.trace == [Approved(0), Dispatched(0)] && more;
    var (w4, last) := Round([s, s], true, env, w3);
    assert w4.trace == [Approved(0), Dispatched(0), Dispatched(1)];
    assert last ==> w4.e.index == 2 && Loop([s, s], true, env, w4) == w4;
    assert Loop([s, s], true, env, w3).trace == w4.trace;
    assert Loop([s, s], true, env, w2) == Loop([s, s], true, env, w3);
    assert Run([s, s], env, w0, calls) == Resume([s, s], true, env, w1);
  }

  /** A skip continues as a customer, whom no approval holds back. */
  lemma SkipBypassesApproval(p: Params, env: nat -> Reply)
    ensures var steps := [Step("first", false, null), Step("act", false, p)];
            var w := Run(steps, env, Begin({p}), [SkipCall]);
            w.trace == [Skipped(0), Dispatched(1)] && w.needs == {p}
  {
    var steps := [Step("first", false, null), Step("act", false, p)];
    var w0 := Begin({p});
    assert [SkipCall][..0] == [];
    var w1 := PassOver(steps, w0).(e := PassOver(steps, w0).e.(status := Running));
    var (w2, more) := Round(steps, false, env, w1);
    assert w2.trace == [Skipped(0), Dispatched(1)] && w2.needs == {p};
    assert more ==> w2.e.index == 2 && Loop(steps, false, env, w2) == w2;
    assert Loop(steps, false, env, w1) == w2;
    assert Run(steps, env, w0, []) == w0;
    assert Run(steps, env, w0, [SkipCall]) == Skip(steps, env, w0);
  }
}

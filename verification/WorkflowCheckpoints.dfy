/** What a checkpoint of the workflow state saves, what restoring it brings back, and when that is the same. */
module WorkflowCheckpoints {
  import opened Workflow

  const INITIAL_PLAN := "initial_plan"
  const APPROVAL_PAUSED := "approval_paused"

  /** All fields of a runtime state but its checkpoints. */
  datatype Record = Record(
    current: NodeId,
    visited: seq<NodeId>,
    status: Status,
    pending: string,
    retryCount: int,
    data: string,
    requiresConfirmation: bool,
    maxRetries: int,
    errors: nat,
    verified: bool,
    history: seq<NodeId>)

  /** What a checkpoint saves. */
  datatype Saved = Saved(
    current: NodeId,
    visited: seq<NodeId>,
    status: Status,
    pending: string,
    retryCount: int,
    data: string,
    requiresConfirmation: bool)

  function Taken(r: Record): Saved {
    Saved(r.current, r.visited, r.status, r.pending, r.retryCount, r.data, r.requiresConfirmation)
  }

  /** Restoring brings back the position, the status, the pending action and the retries, and nothing else. */
  function Restored(r: Record, c: Saved): Record {
    r.(current := c.current, visited := c.visited, status := c.status, pending := c.pending,
       retryCount := c.retryCount)
  }

  /** The part of a record that the engine and the edge conditions read. */
  function ViewOf(r: Record): State {
    State(r.status, r.retryCount, r.maxRetries, r.errors > 0, r.verified, r.requiresConfirmation, r.history)
  }

  /** Restoring a checkpoint gives back what was saved in it exactly if the data and the policy decision have not
      changed since. */
  lemma SavedIsRestoredExactlyWhen(before: Record, after: Record)
    ensures Taken(Restored(after, Taken(before))) == Taken(before) <==>
            after.data == before.data && after.requiresConfirmation == before.requiresConfirmation
  {
  }

  /** Restoring a checkpoint gives back the whole state exactly if, beside these, the errors, the verification
      report, the history and the retry limit have not changed since. */
  lemma StateIsRestoredExactlyWhen(before: Record, after: Record)
    ensures Restored(after, Taken(before)) == before <==>
            && after.data == before.data && after.requiresConfirmation == before.requiresConfirmation
            && after.errors == before.errors && after.verified == before.verified
            && after.history == before.history && after.maxRetries == before.maxRetries
  {
  }

  // ----- after a run --------------------------------------------------------------------------------------------

  /** The policy decision was taken, or is still to come. */
  predicate Decided(n: NodeId, s: State, h: Handlers) {
    n != APPROVAL && n != START &&
    (Rank(n) < Rank(POLICY) ==> s.requiresConfirmation == h.confirm && !h.confirm)
  }

  lemma RoundDecides(n: NodeId, s: State, h: Handlers)
    requires Decided(n, s, h) && s.status == RUNNING && n != END
    ensures var t := Handle(n, Transition(s, n, RUNNING), h);
            && (Waits(t) ==> t.requiresConfirmation == h.confirm)
            && (!Waits(t) ==> t.status == RUNNING && Decided(Next(n, t), t, h))
  {
    var t := Handle(n, Transition(s, n, RUNNING), h);
    if !Waits(t) {
      PolicyGoesOn(n, t);
      SomeEdgeEnabled(n, t);
    }
  }

  lemma {:induction false} WalkDecides(n: NodeId, s: State, h: Handlers)
    requires Decided(n, s, h) && s.status == RUNNING
    ensures Walk(n, s, h).requiresConfirmation == h.confirm
    decreases Budget(s), Rank(n)
  {
    if n != END {
      var t := Handle(n, Transition(s, n, RUNNING), h);
      RoundDecides(n, s, h);
      if !Waits(t) {
        WalkDescends(n, s, h);
        WalkDecides(Next(n, t), t, h);
      }
    }
  }

  /** After every run the policy decision is that of the policy handler. */
  lemma RunDecides(s: State, h: Handlers)
    ensures Execute(s, h).requiresConfirmation == h.confirm
  {
    WalkDecides(OBSERVE, s.(status := RUNNING), h);
  }

  /** Going back to the initial plan after a run brings the policy decision of that plan back exactly if the run's
      policy handler decided the same; and it never brings the whole state back, since the history stays. */
  lemma InitialPlanIsRestoredExactlyWhen(before: Record, after: Record, h: Handlers)
    requires ViewOf(after) == Execute(ViewOf(before), h)
    ensures var r := Restored(after, Taken(before.(status := RUNNING)));
            && (r.requiresConfirmation == before.requiresConfirmation <==> before.requiresConfirmation == h.confirm)
            && before.history < r.history
  {
    RunDecides(ViewOf(before), h);
    RunsEndOrPause(ViewOf(before), h);
    assert Since(before.history, after.history) != [];
  }

  /** A fresh workflow whose policy asks for confirmation: going back to its initial plan leaves it waiting for
      nothing, and still with the decision that was not in the plan. */
  lemma PolicyDecisionIsNotRestored(before: Record, after: Record, h: Handlers)
    requires ViewOf(before) == State(INITIALIZED, 0, 3, false, true, false, []) && h.confirm
    requires ViewOf(after) == Execute(ViewOf(before), h)
    ensures var saved := Taken(before.(status := RUNNING));
            var r := Restored(after, saved);
            !saved.requiresConfirmation && r.requiresConfirmation && r.status == RUNNING && r.retryCount == 0
  {
    RunDecides(ViewOf(before), h);
  }
}

/** The one-shot response queues of the router, as a transition system over the callers that create
    and discard waiters and the reader thread that answers them.  A waiter is named by the order in
    which it was created; its queue holds at most one item. */
module RouterWaiters {

  datatype Item = Result(body: string) | Error(code: int, message: string) | Transport

  datatype Hand = Free | Responding(w: nat, item: Item) | Failing(rest: set<nat>)

  datatype State = State(
    waiters: map<string, nat>,
    queues: seq<seq<Item>>,
    hand: Hand,
    /** Waiters removed by their caller, or replaced by a later waiter for the same request id. */
    abandoned: set<nat>)

  const INIT := State(map[], [], Free, {})

  datatype Action =
    | Create(id: string)
    | Discard(id: string)
    | RouteResponse(id: string, item: Item)
    | Respond
    | FailAll
    | FailOne(w: nat)

  function Remove(m: map<string, nat>, id: string): map<string, nat> { m - {id} }

  function Put(r: State, w: nat, item: Item): State
    requires w < |r.queues|
  {
    r.(queues := r.queues[w := r.queues[w] + [item]])
  }

  function Step(r: State, a: Action): State {
    match a
    case Create(id) =>
      r.(waiters := r.waiters[id := |r.queues|], queues := r.queues + [[]],
         abandoned := r.abandoned + if id in r.waiters then {r.waiters[id]} else {})
    case Discard(id) =>
      r.(waiters := Remove(r.waiters, id),
         abandoned := r.abandoned + if id in r.waiters then {r.waiters[id]} else {})
    case RouteResponse(id, item) =>
      if r.hand.Free? && id in r.waiters
      then r.(waiters := Remove(r.waiters, id), hand := Responding(r.waiters[id], item))
      else r
    case Respond =>
      if r.hand.Responding? && r.hand.w < |r.queues| then Put(r, r.hand.w, r.hand.item).(hand := Free) else r
    case FailAll =>
      if r.hand.Free? then r.(waiters := map[], hand := Failing(r.waiters.Values)) else r
    case FailOne(w) =>
      if r.hand.Failing? && w in r.hand.rest && w < |r.queues|
      then Put(r, w, Transport).(hand := Failing(r.hand.rest - {w}))
      else r
  }

  function Run(r: State, actions: seq<Action>): State
    decreases |actions|
  {
    if actions == [] then r else Step(Run(r, actions[..|actions|-1]), actions[|actions|-1])
  }

  predicate InHand(r: State, w: nat) {
    match r.hand
    case Free => false
    case Responding(x, _) => x == w
    case Failing(rest) => w in rest
  }

  /** A waiter is registered, in the reader's hand, answered or abandoned: exactly one of the four. */
  ghost predicate Inv(r: State) {
    && (forall id :: id in r.waiters ==> r.waiters[id] < |r.queues|)
    && (forall i, j :: i in r.waiters && j in r.waiters && r.waiters[i] == r.waiters[j] ==> i == j)
    && (forall w :: w in r.abandoned ==> w < |r.queues|)
    && (r.hand.Responding? ==> r.hand.w < |r.queues|)
    && (r.hand.Failing? ==> forall w :: w in r.hand.rest ==> w < |r.queues|)
    && (forall w :: 0 <= w < |r.queues| ==>
          && |r.queues[w]| <= 1
          && (w in r.waiters.Values ==> !InHand(r, w) && r.queues[w] == [] && w !in r.abandoned)
          && (InHand(r, w) ==> r.queues[w] == [] && w !in r.abandoned)
          && (r.queues[w] != [] ==> w !in r.abandoned)
          && (w in r.waiters.Values || InHand(r, w) || |r.queues[w]| == 1 || w in r.abandoned))
  }

  lemma RemoveDrops(m: map<string, nat>, id: string)
    requires id in m && forall i, j :: i in m && j in m && m[i] == m[j] ==> i == j
    ensures Remove(m, id).Values == m.Values - {m[id]}
  {
    forall w ensures w in Remove(m, id).Values <==> w in m.Values && w != m[id] {
      if w in m.Values && w != m[id] {
        var i :| i in m && m[i] == w;
        assert i in Remove(m, id) && Remove(m, id)[i] == w;
      }
    }
  }

  lemma UpdateReplaces(m: map<string, nat>, id: string, w: nat)
    requires id !in m
    ensures m[id := w].Values == m.Values + {w}
  {
    var t := m[id := w];
    assert t[id] == w;
    forall x ensures x in t.Values <==> x in m.Values || x == w {
      if x in m.Values {
        var i :| i in m && m[i] == x;
        assert i in t && t[i] == x;
      }
    }
  }

  lemma DiscardKeepsInv(r: State, id: string)
    requires Inv(r)
    ensures Inv(Step(r, Discard(id)))
  {
    if id in r.waiters {
      RemoveDrops(r.waiters, id);
    } else {
      assert Remove(r.waiters, id) == r.waiters;
    }
  }

  /** A new waiter for a request id without one. */
  function Added(r: State, id: string): State {
    r.(waiters := r.waiters[id := |r.queues|], queues := r.queues + [[]])
  }

  lemma AddKeepsInv(r: State, id: string)
    requires Inv(r) && id !in r.waiters
    ensures Inv(Added(r, id))
  {
    assert |r.queues| !in r.waiters.Values;
    UpdateReplaces(r.waiters, id, |r.queues|);
  }

  /** Creating a waiter abandons an earlier one for the same request id, like discarding it first. */
  lemma CreateKeepsInv(r: State, id: string)
    requires Inv(r)
    ensures Inv(Step(r, Create(id)))
  {
    hide Inv, Step, Added;
    DiscardKeepsInv(r, id);
    CreateIsDiscardAndAdd(r, id);
    AddKeepsInv(Step(r, Discard(id)), id);
  }

  lemma CreateIsDiscardAndAdd(r: State, id: string)
    ensures var u := Step(r, Discard(id)); id !in u.waiters && Step(r, Create(id)) == Added(u, id)
  {
    assert Remove(r.waiters, id)[id := |r.queues|] == r.waiters[id := |r.queues|];
  }

  lemma RouteKeepsInv(r: State, id: string, item: Item)
    requires Inv(r)
    ensures Inv(Step(r, RouteResponse(id, item)))
  {
    if id in r.waiters {
      RemoveDrops(r.waiters, id);
    }
  }

  lemma PutKeepsInv(r: State, a: Action)
    requires Inv(r) && (a.Respond? || a.FailAll? || a.FailOne?)
    ensures Inv(Step(r, a))
  {
  }

  lemma StepKeepsInv(r: State, a: Action)
    requires Inv(r)
    ensures Inv(Step(r, a))
  {
    match a
    case Create(id) => CreateKeepsInv(r, id);
    case Discard(id) => DiscardKeepsInv(r, id);
    case RouteResponse(id, item) => RouteKeepsInv(r, id, item);
    case _ => PutKeepsInv(r, a);
  }

  lemma {:induction false} Reachable(actions: seq<Action>)
    ensures Inv(Run(INIT, actions))
  {
    if actions != [] {
      Reachable(actions[..|actions|-1]);
      StepKeepsInv(Run(INIT, actions[..|actions|-1]), actions[|actions|-1]);
    }
  }

  /** Over every interleaving a response queue receives at most one item, so a put by the reader
      thread into a queue of size one never blocks. */
  lemma ReaderNeverBlocks(actions: seq<Action>, w: nat)
    requires w < |Run(INIT, actions).queues|
    ensures var r := Run(INIT, actions);
            |r.queues[w]| <= 1 && (InHand(r, w) ==> r.queues[w] == [])
  {
    Reachable(actions);
  }

  // ----- the end of the transport ----------------------------------------------------------------

  /** Every registered waiter of `r` has since been put into the reader's hand or answered. */
  ghost predicate Served(r: State, t: State) {
    && (t.hand.Failing? || t.hand.Free?)
    && |r.queues| <= |t.queues|
    && forall w :: 0 <= w < |r.queues| && w in r.waiters.Values ==> InHand(t, w) || |t.queues[w]| == 1
  }

  lemma StepKeepsServed(r: State, t: State, a: Action)
    requires Inv(r) && Inv(t) && t.hand.Failing? && Served(r, t)
    ensures Step(t, a).hand.Failing? && Served(r, Step(t, a))
  {
  }

  lemma {:induction false} FailureStays(r: State, actions: seq<Action>)
    requires Inv(r) && r.hand.Free?
    ensures var t := Run(Step(r, FailAll), actions);
            Inv(t) && t.hand.Failing? && Served(r, t)
  {
    if actions == [] {
      StepKeepsInv(r, FailAll);
    } else {
      var t := Run(Step(r, FailAll), actions[..|actions|-1]);
      FailureStays(r, actions[..|actions|-1]);
      StepKeepsInv(t, actions[|actions|-1]);
      StepKeepsServed(r, t, actions[|actions|-1]);
    }
  }

  /** Every waiter registered when the transport fails receives exactly one item by the time the reader
      is done; and a waiter that is never answered was abandoned by a caller. */
  lemma FailureAnswersEveryWaiter(before: seq<Action>, after: seq<Action>, w: nat)
    requires var r := Run(INIT, before);
             r.hand.Free? && w in r.waiters.Values && Run(Step(r, FailAll), after).hand == Failing({})
    ensures var t := Run(Step(Run(INIT, before), FailAll), after);
            w < |t.queues| && |t.queues[w]| == 1 && w !in t.abandoned
  {
    Reachable(before);
    FailureStays(Run(INIT, before), after);
  }

  /** A run in which no caller reuses a request id that is still waiting, and none discards. */
  predicate Careful(r: State, actions: seq<Action>)
    decreases |actions|
  {
    actions == [] ||
    (var p, a := actions[..|actions|-1], actions[|actions|-1];
     Careful(r, p) && !a.Discard? && (a.Create? ==> a.id !in Run(r, p).waiters))
  }

  /** With unique request ids, nobody is abandoned. */
  lemma {:induction false} UniqueIdsAbandonNobody(actions: seq<Action>)
    requires Careful(INIT, actions)
    ensures Run(INIT, actions).abandoned == {}
  {
    if actions != [] {
      UniqueIdsAbandonNobody(actions[..|actions|-1]);
    }
  }
}

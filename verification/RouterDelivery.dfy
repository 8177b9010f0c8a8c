/** What the router promises over every interleaving of its critical sections. */
module RouterDelivery {
  import opened Common
  import opened Notifications
  import opened Router
  import opened RouterConservation
  import Goal

  /** Every notification is in exactly one place, once, or it was discarded or lost; and it is never in
      a queue that serves another turn, login or goal. */
  lemma OneDestination(actions: seq<Action>, i: nat)
    requires i < |Run(INIT, actions).arrived|
    ensures var r := Run(INIT, actions);
            && |r.places| == |r.arrived|
            && (!Gone(r.places[i]) ==> Entry(i, r.arrived[i]) in Contents(r, r.places[i]))
            && (forall p, k :: 0 <= k < |Contents(r, p)| && Contents(r, p)[k].stamp == i ==>
                  p == r.places[i] && Contents(r, p)[k].n == r.arrived[i])
            && (forall p, k, l :: 0 <= k < l < |Contents(r, p)| ==>
                  Contents(r, p)[k].stamp != i || Contents(r, p)[l].stamp != i)
            && Belongs(r, r.places[i], r.arrived[i])
  {
    Reachable(actions);
    var r := Run(INIT, actions);
    assert Accurate(r, r.places[i]);
    forall p, k | 0 <= k < |Contents(r, p)| && Contents(r, p)[k].stamp == i
      ensures p == r.places[i] && Contents(r, p)[k].n == r.arrived[i]
    {
      assert Accurate(r, p);
    }
  }

  /** No id is registered and pending at the same time. */
  lemma RegisteredIdsHaveNothingPending(actions: seq<Action>)
    ensures var r := Run(INIT, actions);
            r.turns.routes.Keys !! r.turns.pending.Keys && r.logins.routes.Keys !! r.logins.pending.Keys
  {
    Reachable(actions);
  }

  /** Once its replay is done, a queue has received its notifications in arrival order exactly if the
      reader put nothing into it while the replay was under way. */
  lemma ArrivalOrderExactlyWhen(actions: seq<Action>, q: nat)
    requires Get(Run(INIT, actions).replay, q) == []
    ensures var r := Run(INIT, actions);
            InOrder(Get(r.delivered, q)) <==> q !in r.overtaken
  {
    Reachable(actions);
    var r := Run(INIT, actions);
    assert Get(r.delivered, q) + [] == Get(r.delivered, q);
  }

  /** The order can be lost: the replay runs outside the critical section. */
  lemma ReplayCanBeOvertaken(a: Notification, b: Notification, id: string)
    requires TurnIdOf(a) == TurnIdOf(b) == Some(id)
    requires ThreadIdOf(a).None? && ThreadIdOf(b).None? && LoginIdOf(a).None? && LoginIdOf(b).None?
    requires a.methodName != TURN_COMPLETED
    ensures var r := Run(INIT, [ArriveAction(a), ReaderAction, RegisterAction(TurnDesk, id),
                                ArriveAction(b), ReaderAction, ReaderAction, ReplayAction(0)]);
            && r.turns.routes == map[id := 0]
            && Get(r.replay, 0) == []
            && Get(r.delivered, 0) == [Entry(1, b), Entry(0, a)]
  {
    var s3 := OneReplaying(a, id);
    var before := [ArriveAction(a), ReaderAction, RegisterAction(TurnDesk, id)];
    var s6 := OnePutMeanwhile(before, s3, a, b, id);
    var all := before + [ArriveAction(b)] + [ReaderAction] + [ReaderAction];
    RunOneMore(all, ReplayAction(0));
    assert [Entry(1, b)] + [Entry(0, a)] == [Entry(1, b), Entry(0, a)];
    assert all + [ReplayAction(0)] ==
           [ArriveAction(a), ReaderAction, RegisterAction(TurnDesk, id),
            ArriveAction(b), ReaderAction, ReaderAction, ReplayAction(0)];
  }

  lemma RunOneMore(actions: seq<Action>, a: Action)
    ensures Run(INIT, actions + [a]) == Step(Run(INIT, actions), a)
  {
    assert (actions + [a])[..|actions|] == actions;
  }

  lemma RunThreeMore(actions: seq<Action>, s: State, a: Action, t: State, b: Action, u: State, c: Action, v: State)
    requires s == Run(INIT, actions) && t == Step(s, a) && u == Step(t, b) && v == Step(u, c)
    ensures Run(INIT, actions + [a] + [b] + [c]) == v
  {
    assert Run(INIT, actions + [a]) == t by { RunOneMore(actions, a); }
    assert Run(INIT, actions + [a] + [b]) == u by { RunOneMore(actions + [a], b); }
    assert Run(INIT, actions + [a] + [b] + [c]) == v by { RunOneMore(actions + [a] + [b], c); }
  }

  /** `a` arrives before its turn is registered, so the registration has to replay it. */
  lemma OneReplaying(a: Notification, id: string) returns (s: State)
    requires TurnIdOf(a) == Some(id) && ThreadIdOf(a).None? && LoginIdOf(a).None?
    requires a.methodName != TURN_COMPLETED
    ensures s == Run(INIT, [ArriveAction(a), ReaderAction, RegisterAction(TurnDesk, id)])
    ensures s.turns.routes == map[id := 0] && s.reader.Idle? && s.replay == map[0 := [Entry(0, a)]]
    ensures s.delivered == map[0 := []] && s.arrived == [a] && |s.places| == 1
  {
    var s1 := Arrive(INIT, a);
    var s2 := ReaderStep(s1);
    s := Register(s2, TurnDesk, id);
    assert [] + [Entry(0, a)] == [Entry(0, a)];
    assert s2.turns.pending == map[id := [Entry(0, a)]];
    RunThreeMore([], INIT, ArriveAction(a), s1, ReaderAction, s2, RegisterAction(TurnDesk, id), s);
    assert [] + [ArriveAction(a)] + [ReaderAction] + [RegisterAction(TurnDesk, id)] ==
           [ArriveAction(a), ReaderAction, RegisterAction(TurnDesk, id)];
  }

  lemma PutWhileReplaying(s: State, a: Notification, b: Notification, id: string)
    requires TurnIdOf(b) == Some(id) && ThreadIdOf(b).None? && LoginIdOf(b).None?
    requires s.turns.routes == map[id := 0] && s.reader.Idle? && s.replay == map[0 := [Entry(0, a)]]
    requires s.delivered == map[0 := []] && s.arrived == [a] && |s.places| == 1
    ensures var t := ReaderStep(ReaderStep(Arrive(s, b)));
            && t.turns == s.turns && t.replay == s.replay && |t.places| == 2
            && t.delivered == map[0 := [Entry(1, b)]]
  {
    assert [] + [Entry(1, b)] == [Entry(1, b)];
    assert ReaderStep(Arrive(s, b)).reader == Putting(Entry(1, b), 0);
  }

  /** `b` arrives and is put into the queue before the replay of `a`. */
  lemma OnePutMeanwhile(actions: seq<Action>, s: State, a: Notification, b: Notification, id: string) returns (t: State)
    requires s == Run(INIT, actions)
    requires TurnIdOf(b) == Some(id) && ThreadIdOf(b).None? && LoginIdOf(b).None?
    requires s.turns.routes == map[id := 0] && s.reader.Idle? && s.replay == map[0 := [Entry(0, a)]]
    requires s.delivered == map[0 := []] && s.arrived == [a] && |s.places| == 1
    ensures t == Run(INIT, actions + [ArriveAction(b)] + [ReaderAction] + [ReaderAction])
    ensures t.turns == s.turns && t.replay == s.replay && |t.places| == 2
    ensures t.delivered == map[0 := [Entry(1, b)]]
  {
    PutWhileReplaying(s, a, b, id);
    t := ReaderStep(ReaderStep(Arrive(s, b)));
    RunThreeMore(actions, s, ArriveAction(b), Arrive(s, b), ReaderAction, ReaderStep(Arrive(s, b)), ReaderAction, t);
  }

  // ----- nothing is missed while a turn is registered ---------------------------------------------

  predicate ForTurn(n: Notification, id: string) {
    TurnIdOf(n) == Some(id) && LoginIdOf(n).None?
  }

  /** What arrived for `id` from position `since` on is in the reader's hand, in the turn's queue, or
      went to the goal operation that owns the thread. */
  ghost predicate Caught(r: State, id: string, q: nat, since: nat) {
    && |r.places| == |r.arrived|
    && id in r.turns.routes && r.turns.routes[id] == q
    && (forall i :: since <= i < |r.arrived| && ForTurn(r.arrived[i], id) ==>
          r.places[i] == InReader || r.places[i] == Delivered(q) || r.places[i].GoalQueue?)
    && (r.reader.Putting? && r.reader.e.stamp >= since && ForTurn(r.reader.e.n, id) ==> r.reader.q == q)
  }

  /** What the turn's queue took over when it was registered is in the queue or still being replayed. */
  ghost predicate TakenOver(r: State, t: State, q: nat) {
    && |r.places| == |r.arrived| <= |t.arrived| == |t.places|
    && forall i :: 0 <= i < |r.places| && (r.places[i] == Replaying(q) || r.places[i] == Delivered(q)) ==>
         t.places[i] == Replaying(q) || t.places[i] == Delivered(q)
  }

  /** A notification moves only forward: from the reader to a queue or a pending list, from a pending
      list to a replay, and from a replay to that queue. */
  predicate Forward(p: Place, q: Place) {
    || p == q
    || (p.InReader? && !q.Replaying? && !q.Lost?)
    || (p.Pending? && (q.Replaying? || q.Discarded? || q.Lost?))
    || (p.Replaying? && q == Delivered(p.q))
  }

  ghost predicate AllForward(r: State, t: State) {
    && |r.places| <= |t.places|
    && forall i :: 0 <= i < |r.places| ==> Forward(r.places[i], t.places[i])
  }

  lemma ReplayMovesForward(r: State, q: nat)
    requires Inv(r)
    ensures AllForward(r, ReplayOne(r, q))
  {
    if Get(r.replay, q) != [] {
      assert Accurate(r, Replaying(q)) && Contents(r, Replaying(q)) == Get(r.replay, q);
    }
  }

  lemma LookUpMovesForward(r: State, d: DeskName, id: string, e: Entry)
    ensures AllForward(r, LookUp(r, d, id, e))
  {
  }

  lemma TurnStepMovesForward(r: State)
    requires r.reader.AtTurn?
    ensures AllForward(r, StepAtTurn(r))
  {
    if TurnIdOf(r.reader.e.n).Some? {
      LookUpMovesForward(r, TurnDesk, TurnIdOf(r.reader.e.n).value, r.reader.e);
    }
  }

  lemma GoalStepMovesForward(r: State)
    requires r.reader.AtGoal?
    ensures AllForward(r, StepAtGoal(r))
  {
  }

  lemma PutStepMovesForward(r: State)
    requires r.reader.Putting?
    ensures AllForward(r, StepPutting(r))
  {
  }

  lemma CheckingMovesForward(r: State)
    requires r.reader.CheckingGoal?
    ensures AllForward(r, StepChecking(r))
  {
  }

  lemma ReaderMovesForward(r: State)
    ensures AllForward(r, ReaderStep(r))
  {
    match r.reader
    case AtGoal(_, _) => GoalStepMovesForward(r);
    case CheckingGoal(_) => CheckingMovesForward(r);
    case AtTurn(_) => TurnStepMovesForward(r);
    case Putting(_, _) => PutStepMovesForward(r);
    case _ =>
  }

  lemma ArriveMovesForward(r: State, n: Notification)
    requires r.reader.Idle?
    ensures AllForward(r, Arrive(r, n))
  {
    var e := Entry(|r.arrived|, n);
    var t := r.(arrived := r.arrived + [n], places := r.places + [InReader], reader := AtTurn(e));
    if LoginIdOf(n).Some? {
      hide LookUp;
      LookUpMovesForward(t, LoginDesk, LoginIdOf(n).value, e);
      assert forall i :: 0 <= i < |r.places| ==> t.places[i] == r.places[i];
    }
  }

  lemma SamePlacesAreForward(r: State, t: State)
    requires t.places == r.places
    ensures AllForward(r, t)
  {
  }

  lemma RegisterMovesForward(r: State, d: DeskName, id: string)
    ensures AllForward(r, Register(r, d, id))
  {
  }

  lemma FailureMovesForward(r: State)
    requires Inv(r) && r.reader.Idle?
    ensures AllForward(r, FailAll(r))
  {
  }

  /** Over every interleaving, a notification never moves back and never changes queue. */
  lemma StepMovesForward(r: State, a: Action)
    requires Inv(r)
    ensures AllForward(r, Step(r, a))
  {
    hide AllForward, Inv;
    match a
    case ArriveAction(n) => if r.reader.Idle? { ArriveMovesForward(r, n); } else { SamePlacesAreForward(r, r); }
    case ReaderAction => ReaderMovesForward(r);
    case RegisterAction(d, id) => RegisterMovesForward(r, d, id);
    case ReplayAction(q) => ReplayMovesForward(r, q);
    case FailAllAction => if r.reader.Idle? { FailureMovesForward(r); } else { SamePlacesAreForward(r, r); }
    case _ => SamePlacesAreForward(r, Step(r, a));
  }

  /** A step that adds no arrival, keeps the turn's route, and moves nothing of the turn. */
  lemma QuietStepKeepsCaught(r: State, t: State, id: string, q: nat, since: nat)
    requires Caught(r, id, q, since)
    requires t.arrived == r.arrived && |t.places| == |r.places|
    requires id in t.turns.routes && t.turns.routes[id] == q
    requires t.reader == r.reader || !t.reader.Putting?
    requires forall i :: since <= i < |r.arrived| && ForTurn(r.arrived[i], id) ==> t.places[i] == r.places[i]
    ensures Caught(t, id, q, since)
  {
  }

  lemma LookUpKeepsCaught(r: State, d: DeskName, key: string, e: Entry, id: string, q: nat, since: nat)
    requires Caught(r, id, q, since)
    requires KeyOf(e.n, d) == Some(key) && (d.TurnDesk? ==> LoginIdOf(e.n).None?)
    requires e.stamp < |r.arrived| && r.arrived[e.stamp] == e.n
    requires forall i :: 0 <= i < |r.places| && r.places[i] == InReader ==> i == e.stamp
    ensures Caught(LookUp(r, d, key, e), id, q, since)
  {
    var t := LookUp(r, d, key, e);
    if key in DeskOf(r, d).routes {
      assert t.places == r.places && t.turns == r.turns;
    } else {
      assert !ForTurn(e.n, id);
      QuietStepKeepsCaught(r, t, id, q, since);
    }
  }

  lemma GoalStepKeepsCaught(r: State, id: string, q: nat, since: nat)
    requires Inv(r) && Caught(r, id, q, since) && r.reader.AtGoal?
    ensures Caught(StepAtGoal(r), id, q, since)
  {
  }

  lemma TurnStepKeepsCaught(r: State, id: string, q: nat, since: nat)
    requires Inv(r) && Caught(r, id, q, since) && r.reader.AtTurn?
    ensures Caught(StepAtTurn(r), id, q, since)
  {
    var e := r.reader.e;
    ReaderHoldsLatest(r, e);
    hide Sound, Contents;
    match TurnIdOf(e.n)
    case None => QuietStepKeepsCaught(r, StepAtTurn(r), id, q, since);
    case Some(key) =>
      if key !in r.turns.routes && e.n.methodName == TURN_COMPLETED {
        QuietStepKeepsCaught(r, StepAtTurn(r), id, q, since);
      } else {
        LookUpKeepsCaught(r, TurnDesk, key, e, id, q, since);
      }
  }

  lemma PutStepKeepsCaught(r: State, id: string, q: nat, since: nat)
    requires Inv(r) && Caught(r, id, q, since) && r.reader.Putting?
    ensures Caught(StepPutting(r), id, q, since)
  {
    ReaderHoldsLatest(r, r.reader.e);
  }

  lemma RegisterKeepsCaught(r: State, d: DeskName, other: string, id: string, q: nat, since: nat)
    requires Caught(r, id, q, since)
    ensures Caught(Register(r, d, other), id, q, since)
  {
    QuietStepKeepsCaught(r, Register(r, d, other), id, q, since);
  }

  lemma ReplayKeepsCaught(r: State, x: nat, id: string, q: nat, since: nat)
    requires Inv(r) && Caught(r, id, q, since)
    ensures Caught(ReplayOne(r, x), id, q, since)
  {
    if Get(r.replay, x) != [] {
      assert Accurate(r, Replaying(x)) && Contents(r, Replaying(x)) == Get(r.replay, x);
    }
  }

  lemma ArriveKeepsCaught(r: State, n: Notification, id: string, q: nat, since: nat)
    requires Inv(r) && Caught(r, id, q, since) && r.reader.Idle?
    ensures Caught(Arrive(r, n), id, q, since)
  {
    var e := Entry(|r.arrived|, n);
    var t := r.(arrived := r.arrived + [n], places := r.places + [InReader], reader := AtTurn(e));
    assert Accurate(r, InReader);
    assert Caught(t, id, q, since);
    if LoginIdOf(n).Some? {
      LookUpKeepsCaught(t, LoginDesk, LoginIdOf(n).value, e, id, q, since);
    } else {
      QuietStepKeepsCaught(t, Arrive(r, n), id, q, since);
    }
  }

  lemma ReaderKeepsCaught(r: State, id: string, q: nat, since: nat)
    requires Inv(r) && Caught(r, id, q, since)
    ensures Caught(ReaderStep(r), id, q, since)
  {
    match r.reader
    case AtGoal(_, _) => GoalStepKeepsCaught(r, id, q, since);
    case CheckingGoal(_) => QuietStepKeepsCaught(r, StepChecking(r), id, q, since);
    case AtTurn(_) => TurnStepKeepsCaught(r, id, q, since);
    case Putting(_, _) => PutStepKeepsCaught(r, id, q, since);
    case _ =>
  }

  lemma StepKeepsCaught(r: State, a: Action, id: string, q: nat, since: nat)
    requires Inv(r) && Caught(r, id, q, since)
    requires a != UnregisterAction(TurnDesk, id)
    ensures Caught(Step(r, a), id, q, since)
  {
    match a
    case ArriveAction(n) => if r.reader.Idle? { ArriveKeepsCaught(r, n, id, q, since); }
    case ReaderAction => ReaderKeepsCaught(r, id, q, since);
    case ReplayAction(x) => ReplayKeepsCaught(r, x, id, q, since);
    case RegisterAction(d, other) => RegisterKeepsCaught(r, d, other, id, q, since);
    case FailAllAction => if r.reader.Idle? { QuietStepKeepsCaught(r, FailAll(r), id, q, since); }
    case UnregisterAction(d, other) => QuietStepKeepsCaught(r, Unregister(r, d, other), id, q, since);
    case _ => GoalRoutesKeepCaught(r, a, id, q, since);
  }

  lemma GoalRoutesKeepCaught(r: State, a: Action, id: string, q: nat, since: nat)
    requires Caught(r, id, q, since)
    requires a.RegisterGoalAction? || a.ActivateGoalAction? || a.FinishGoalAction? || a.UnregisterGoalAction?
    ensures Caught(Step(r, a), id, q, since)
  {
    var t := Step(r, a);
    assert t.turns == r.turns && t.places == r.places && t.reader == r.reader && t.arrived == r.arrived;
  }

  /** From its registration until it is unregistered, a turn's queue misses nothing: whatever was pending
      for the turn and whatever arrives for it later ends up in that queue, unless the goal operation of
      its thread takes it.  Not even the turn's completion or a transport failure discards anything. */
  lemma {:induction false} RegisteredTurnMissesNothing(r: State, actions: seq<Action>, id: string)
    requires Inv(r) && id !in r.turns.routes
    requires UnregisterAction(TurnDesk, id) !in actions
    ensures var s := Register(r, TurnDesk, id);
            var t := Run(s, actions);
            && Inv(t)
            && Caught(t, id, r.next, |r.arrived|)
            && TakenOver(s, t, r.next)
            && (forall i :: 0 <= i < |r.places| && r.places[i] == Pending(TurnDesk, id) ==>
                  t.places[i] == Replaying(r.next) || t.places[i] == Delivered(r.next))
  {
    var s := Register(r, TurnDesk, id);
    RegisterKeepsInv(r, TurnDesk, id);
    RegistrationCatches(r, id);
    hide Inv, Caught, TakenOver, Register, Step;
    if actions != [] {
      var before, a := actions[..|actions|-1], actions[|actions|-1];
      RegisteredTurnMissesNothing(r, before, id);
      var t := Run(s, before);
      StepKeepsInv(t, a);
      StepKeepsCaught(t, a, id, r.next, |r.arrived|);
      StepMovesForward(t, a);
      ForwardKeepsTakenOver(s, t, Step(t, a), r.next);
    }
    PendingIsTakenOver(r, Run(s, actions), id);
  }

  lemma RegistrationCatches(r: State, id: string)
    requires Inv(r) && id !in r.turns.routes
    ensures var s := Register(r, TurnDesk, id);
            Caught(s, id, r.next, |r.arrived|) && TakenOver(s, s, r.next)
  {
    assert r.reader.Putting? ==> r.reader.e.stamp < |r.arrived|;
  }

  lemma ForwardKeepsTakenOver(s: State, t: State, u: State, q: nat)
    requires TakenOver(s, t, q) && AllForward(t, u) && Inv(u) && |t.arrived| <= |u.arrived|
    ensures TakenOver(s, u, q)
  {
  }

  lemma PendingIsTakenOver(r: State, t: State, id: string)
    requires id !in r.turns.routes && |r.places| == |r.arrived|
    requires TakenOver(Register(r, TurnDesk, id), t, r.next)
    ensures |r.places| <= |t.places|
    ensures forall i :: 0 <= i < |r.places| && r.places[i] == Pending(TurnDesk, id) ==>
              t.places[i] == Replaying(r.next) || t.places[i] == Delivered(r.next)
  {
    var s := Register(r, TurnDesk, id);
    forall i | 0 <= i < |r.places| && r.places[i] == Pending(TurnDesk, id)
      ensures t.places[i] == Replaying(r.next) || t.places[i] == Delivered(r.next)
    {
      assert s.places[i] == Replaying(r.next);
    }
  }

  /** From `r` to `t` nothing is discarded. */
  ghost predicate NothingDiscarded(r: State, t: State) {
    && |r.places| <= |t.places|
    && forall i :: 0 <= i < |r.places| && t.places[i].Discarded? ==> t.places[i] == r.places[i]
  }

  lemma SamePlacesDiscardNothing(r: State, t: State)
    requires t.places == r.places
    ensures NothingDiscarded(r, t)
  {
  }

  lemma LookUpDiscardsNothing(r: State, d: DeskName, id: string, e: Entry)
    ensures NothingDiscarded(r, LookUp(r, d, id, e))
  {
  }

  lemma ArriveDiscardsNothing(r: State, n: Notification)
    requires r.reader.Idle?
    ensures NothingDiscarded(r, Arrive(r, n))
  {
    var e := Entry(|r.arrived|, n);
    var t := r.(arrived := r.arrived + [n], places := r.places + [InReader], reader := AtTurn(e));
    if LoginIdOf(n).Some? {
      hide LookUp;
      LookUpDiscardsNothing(t, LoginDesk, LoginIdOf(n).value, e);
      assert forall i :: 0 <= i < |r.places| ==> t.places[i] == r.places[i];
    }
  }

  lemma GoalStepDiscardsNothing(r: State)
    requires r.reader.AtGoal?
    ensures NothingDiscarded(r, StepAtGoal(r))
  {
    hide Goal.Observe, Goal.Accepts;
  }

  lemma PutDiscardsNothing(r: State)
    requires r.reader.Putting?
    ensures NothingDiscarded(r, StepPutting(r))
  {
  }

  lemma CheckingDiscardsNothing(r: State)
    requires r.reader.CheckingGoal?
    ensures NothingDiscarded(r, StepChecking(r))
  {
    assert StepChecking(r).places == r.places;
  }

  lemma RegisterDiscardsNothing(r: State, d: DeskName, id: string)
    ensures NothingDiscarded(r, Register(r, d, id))
  {
  }

  lemma ReplayDiscardsNothing(r: State, q: nat)
    ensures NothingDiscarded(r, ReplayOne(r, q))
  {
  }

  lemma FailureDiscardsNothing(r: State)
    requires r.reader.Idle?
    ensures NothingDiscarded(r, FailAll(r))
  {
  }

  lemma OnlyTheTurnStepDiscards(r: State, a: Action)
    requires !(a == ReaderAction && r.reader.AtTurn?)
    ensures NothingDiscarded(r, Step(r, a))
  {
    hide NothingDiscarded;
    match a
    case ArriveAction(n) =>
      if r.reader.Idle? { ArriveDiscardsNothing(r, n); } else { SamePlacesDiscardNothing(r, r); }
    case ReaderAction =>
      match r.reader {
        case AtGoal(_, _) => GoalStepDiscardsNothing(r);
        case Putting(_, _) => PutDiscardsNothing(r);
        case CheckingGoal(_) => CheckingDiscardsNothing(r);
        case _ => SamePlacesDiscardNothing(r, r);
      }
    case RegisterAction(d, id) => RegisterDiscardsNothing(r, d, id);
    case ReplayAction(q) => ReplayDiscardsNothing(r, q);
    case FailAllAction =>
      if r.reader.Idle? { FailureDiscardsNothing(r); } else { SamePlacesDiscardNothing(r, r); }
    case _ => SamePlacesDiscardNothing(r, Step(r, a));
  }

  predicate CompletesUnrouted(r: State, e: Entry) {
    TurnIdOf(e.n).Some? && TurnIdOf(e.n).value !in r.turns.routes && e.n.methodName == TURN_COMPLETED
  }

  lemma OtherTurnStepDiscardsNothing(r: State)
    requires r.reader.AtTurn? && !CompletesUnrouted(r, r.reader.e)
    ensures NothingDiscarded(r, StepAtTurn(r))
  {
    hide LookUp;
    if TurnIdOf(r.reader.e.n).Some? {
      LookUpDiscardsNothing(r, TurnDesk, TurnIdOf(r.reader.e.n).value, r.reader.e);
    }
  }

  lemma CompletionIsTheCause(r: State, i: nat)
    requires r.reader.AtTurn? && CompletesUnrouted(r, r.reader.e) && i < |r.places|
    ensures var t := StepAtTurn(r);
            i < |t.places| && (t.places[i] == r.places[i] || t.places[i] == Discarded(r.reader.e.stamp))
  {
  }

  /** The turn step discards only by the completion of a turn without a queue. */
  lemma TurnStepDiscards(r: State, i: nat, c: nat)
    requires r.reader.AtTurn? && i < |r.places| && r.places[i] != Discarded(c)
    requires i < |StepAtTurn(r).places| && StepAtTurn(r).places[i] == Discarded(c)
    ensures r.reader.e.stamp == c && CompletesUnrouted(r, r.reader.e)
  {
    hide StepAtTurn, CompletesUnrouted;
    if CompletesUnrouted(r, r.reader.e) {
      CompletionIsTheCause(r, i);
    } else {
      OtherTurnStepDiscardsNothing(r);
    }
  }

  /** The step that discards a notification routes the completion of its turn while no queue is registered
      for that turn. */
  lemma DiscardedWithoutQueue(r: State, a: Action, i: nat, c: nat)
    requires Inv(r) && i < |r.places| && r.places[i] != Discarded(c)
    requires i < |Step(r, a).places| && Step(r, a).places[i] == Discarded(c)
    ensures a == ReaderAction && r.reader.AtTurn? && r.reader.e.stamp == c && c < |r.arrived|
    ensures r.arrived[c].methodName == TURN_COMPLETED && TurnIdOf(r.arrived[c]).Some?
    ensures TurnIdOf(r.arrived[c]).value !in r.turns.routes
  {
    if a == ReaderAction && r.reader.AtTurn? {
      ReaderHoldsLatest(r, r.reader.e);
      hide Inv, StepAtTurn;
      TurnStepDiscards(r, i, c);
    } else {
      hide Inv, Step;
      OnlyTheTurnStepDiscards(r, a);
      assert false;
    }
  }

  /** A notification is discarded only by the completion of its own turn, arriving at or after it, and lost
      only by a transport failure. */
  lemma DiscardedOnlyByCompletion(actions: seq<Action>, i: nat)
    requires i < |Run(INIT, actions).places|
    ensures var r := Run(INIT, actions);
            && |r.places| == |r.arrived|
            && (r.places[i].Lost? ==> r.reader.Dead?)
            && (r.places[i].Discarded? ==>
                  var c := r.places[i].cause;
                  && i <= c < |r.arrived| && r.arrived[c].methodName == TURN_COMPLETED
                  && TurnIdOf(r.arrived[c]).Some? && TurnIdOf(r.arrived[i]) == TurnIdOf(r.arrived[c]))
  {
    Reachable(actions);
    assert Accounted(Run(INIT, actions));
  }
}

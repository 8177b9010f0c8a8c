/** Conservation in the router: every step of every interleaving keeps each notification in
    exactly one place, and moves it only where it belongs. */
module RouterConservation {
  import opened Common
  import opened Notifications
  import opened Router
  import Goal

  // ----- moving whole places -----------------------------------------------------------------

  ghost predicate SameLog(r: State, t: State) {
    t.arrived == r.arrived && |t.places| == |r.places| == |r.arrived|
  }

  lemma MergeHolds(a: seq<Entry>, b: seq<Entry>, arrived: seq<Notification>, places: seq<Place>,
                   from: Place, to: Place)
    requires |places| == |arrived| && from != to && !Gone(from)
    requires Holds(a, arrived, places, to) && Holds(b, arrived, places, from)
    ensures Holds(a + b, arrived, MoveAll(places, from, to), to)
  {
    var s, moved := a + b, MoveAll(places, from, to);
    assert forall i, j :: 0 <= i < |a| && 0 <= j < |b| ==> a[i].stamp != b[j].stamp;
    forall i | 0 <= i < |arrived| && moved[i] == to && !Gone(to) ensures Entry(i, arrived[i]) in s {
      assert Entry(i, arrived[i]) in a || Entry(i, arrived[i]) in b;
    }
  }

  /** A step that empties `from` onto the end of `to` keeps every place accurate. */
  lemma MoveKeepsAccurate(r: State, t: State, from: Place, to: Place)
    requires SameLog(r, t) && from != to && !Gone(from)
    requires t.places == MoveAll(r.places, from, to)
    requires forall p :: Accurate(r, p)
    requires Contents(t, from) == []
    requires Contents(t, to) == if Gone(to) then [] else Contents(r, to) + Contents(r, from)
    requires forall p :: p != from && p != to ==> Contents(t, p) == Contents(r, p)
    ensures forall p :: Accurate(t, p)
  {
    forall p ensures Accurate(t, p) {
      assert Accurate(r, p) && Accurate(r, from) && Accurate(r, to);
      if p == to && !Gone(to) {
        MergeHolds(Contents(r, to), Contents(r, from), r.arrived, r.places, from, to);
      }
    }
  }

  /** A step that changes no place keeps every place accurate. */
  lemma StayKeepsAccurate(r: State, t: State)
    requires SameLog(r, t) && t.places == r.places
    requires forall p :: Accurate(r, p)
    requires forall p :: Contents(t, p) == Contents(r, p)
    ensures forall p :: Accurate(t, p)
  {
    forall p ensures Accurate(t, p) {
      assert Accurate(r, p);
    }
  }

  // ----- the reader ---------------------------------------------------------------------------

  lemma ArrivalHolds(s: seq<Entry>, arrived: seq<Notification>, places: seq<Place>, p: Place, n: Notification)
    requires |places| == |arrived| && p != InReader
    requires Holds(s, arrived, places, p)
    ensures Holds(s, arrived + [n], places + [InReader], p)
  {
  }

  /** The state in which `n` has just arrived. */
  function Arrived(r: State, n: Notification): State {
    r.(arrived := r.arrived + [n], places := r.places + [InReader], reader := AtTurn(Entry(|r.arrived|, n)))
  }

  lemma ArrivalIsHeld(r: State, n: Notification)
    requires Inv(r) && r.reader.Idle?
    ensures Sound(Arrived(r, n))
  {
    ArrivalKeepsAccurate(r, n);
    ArrivalKeepsBelonging(r, n);
    hide Accurate, Belongs, Contents;
  }

  lemma ArrivalKeepsAccurate(r: State, n: Notification)
    requires Inv(r) && r.reader.Idle?
    ensures var t := Arrived(r, n); |t.places| == |t.arrived| && forall p :: Accurate(t, p)
  {
    var t := Arrived(r, n);
    assert Accurate(r, InReader);
    forall p ensures Accurate(t, p) {
      assert Accurate(r, p);
      if p != InReader {
        assert Contents(t, p) == Contents(r, p);
        ArrivalHolds(Contents(r, p), r.arrived, r.places, p, n);
      }
    }
  }

  lemma ArrivalKeepsBelonging(r: State, n: Notification)
    requires Inv(r)
    ensures var t := Arrived(r, n);
            |t.places| == |t.arrived| && forall i :: 0 <= i < |t.places| ==> Belongs(t, t.places[i], t.arrived[i])
  {
    var t := Arrived(r, n);
    forall i | 0 <= i < |t.places| ensures Belongs(t, t.places[i], t.arrived[i]) {
      if i < |r.places| {
        assert Belongs(r, r.places[i], r.arrived[i]);
      }
    }
  }

  /** Queues keep their owner and goals their thread. */
  ghost predicate OwnersKept(r: State, t: State) {
    && (forall q :: q in r.owner ==> q in t.owner && t.owner[q] == r.owner[q])
    && (forall g :: g in r.ops ==> g in t.ops && t.ops[g].threadId == r.ops[g].threadId)
  }

  lemma MoveKeepsBelonging(r: State, t: State, from: Place, to: Place)
    requires SameLog(r, t) && OwnersKept(r, t)
    requires t.places == MoveAll(r.places, from, to)
    requires forall i :: 0 <= i < |r.places| ==> Belongs(r, r.places[i], r.arrived[i])
    requires forall i :: 0 <= i < |r.places| && r.places[i] == from ==> Belongs(t, to, r.arrived[i])
    ensures forall i :: 0 <= i < |t.places| ==> Belongs(t, t.places[i], t.arrived[i])
  {
    forall i | 0 <= i < |t.places| ensures Belongs(t, t.places[i], t.arrived[i]) {
      assert Belongs(r, r.places[i], r.arrived[i]);
    }
  }

  /** The only notification in the reader is the latest one. */
  lemma ReaderHoldsLatest(r: State, e: Entry)
    requires Sound(r) && Contents(r, InReader) == [e]
    ensures e.stamp < |r.arrived| && e.n == r.arrived[e.stamp] && r.places[e.stamp] == InReader
    ensures forall i :: 0 <= i < |r.places| && r.places[i] == InReader ==> i == e.stamp
  {
    assert Accurate(r, InReader);
    assert Contents(r, InReader)[0] == e;
    forall i | 0 <= i < |r.places| && r.places[i] == InReader ensures i == e.stamp {
      assert Entry(i, r.arrived[i]) in Contents(r, InReader);
    }
  }

  /** What is elsewhere arrived before what the reader holds. */
  lemma ElsewhereIsEarlier(r: State, e: Entry, p: Place)
    requires Sound(r) && Contents(r, InReader) == [e] && p != InReader && e.stamp == |r.arrived| - 1
    ensures forall k :: 0 <= k < |Contents(r, p)| ==> Contents(r, p)[k].stamp < e.stamp
  {
    ReaderHoldsLatest(r, e);
    assert Accurate(r, p);
  }

  lemma AppendInOrder(s: seq<Entry>, e: Entry)
    requires InOrder(s) && forall k :: 0 <= k < |s| ==> s[k].stamp < e.stamp
    ensures InOrder(s + [e])
  {
  }

  /** A move between places that are not gone keeps the account of what is. */
  lemma MoveKeepsAccount(r: State, t: State, from: Place, to: Place)
    requires SameLog(r, t) && !Gone(from) && !Gone(to)
    requires t.places == MoveAll(r.places, from, to) && (r.reader.Dead? ==> t.reader.Dead?)
    requires Accounted(r)
    ensures Accounted(t)
  {
  }

  /** A move between places that are not gone keeps everything but the hand of the reader in order. */
  lemma MoveKeepsSound(r: State, t: State, from: Place, to: Place)
    requires Sound(r) && SameLog(r, t) && OwnersKept(r, t)
    requires from != to && !Gone(from) && !Gone(to) && (r.reader.Dead? ==> t.reader.Dead?)
    requires t.places == MoveAll(r.places, from, to)
    requires Contents(t, from) == [] && Contents(t, to) == Contents(r, to) + Contents(r, from)
    requires forall p :: p != from && p != to ==> Contents(t, p) == Contents(r, p)
    requires forall i :: 0 <= i < |r.places| && r.places[i] == from ==> Belongs(t, to, r.arrived[i])
    requires Routed(t) && Ordered(t)
    ensures Sound(t)
  {
    hide Contents, Accurate, Belongs, Ordered, Routed, Accounted;
    MoveKeepsAccurate(r, t, from, to);
    MoveKeepsBelonging(r, t, from, to);
    MoveKeepsAccount(r, t, from, to);
  }

  lemma KeepPending(r: State, d: DeskName, id: string, e: Entry)
    requires Sound(r) && Contents(r, InReader) == [e] && e.stamp == |r.arrived| - 1
    requires KeyOf(e.n, d) == Some(id) && id !in DeskOf(r, d).routes
    ensures Inv(LookUp(r, d, id, e))
  {
    var t := LookUp(r, d, id, e);
    ReaderHoldsLatest(r, e);
    KeptContents(r, d, id, e);
    KeptInOrder(r, d, id, e);
    KeptRoutes(r, d, id, e);
    hide Contents, Ordered, Routed, Sound;
    MoveKeepsSound(r, t, InReader, Pending(d, id));
  }

  lemma KeptContents(r: State, d: DeskName, id: string, e: Entry)
    requires Contents(r, InReader) == [e] && id !in DeskOf(r, d).routes
    ensures var t := LookUp(r, d, id, e);
            && Contents(t, InReader) == []
            && Contents(t, Pending(d, id)) == Contents(r, Pending(d, id)) + Contents(r, InReader)
            && forall p :: p != InReader && p != Pending(d, id) ==> Contents(t, p) == Contents(r, p)
  {
  }

  lemma KeptInOrder(r: State, d: DeskName, id: string, e: Entry)
    requires Sound(r) && Contents(r, InReader) == [e] && e.stamp == |r.arrived| - 1
    requires id !in DeskOf(r, d).routes
    ensures Ordered(LookUp(r, d, id, e))
  {
    ElsewhereIsEarlier(r, e, Pending(d, id));
    AppendInOrder(Contents(r, Pending(d, id)), e);
    hide Accurate, Belongs, Routed, Accounted;
  }

  lemma KeptRoutes(r: State, d: DeskName, id: string, e: Entry)
    requires Routed(r) && id !in DeskOf(r, d).routes
    ensures var t := LookUp(r, d, id, e);
            OwnersKept(r, t) && Routed(t) && Held(t)
  {
  }

  lemma LookUpKeepsInv(r: State, d: DeskName, id: string, e: Entry)
    requires Sound(r) && Contents(r, InReader) == [e] && e.stamp == |r.arrived| - 1
    requires KeyOf(e.n, d) == Some(id)
    ensures Inv(LookUp(r, d, id, e))
  {
    if id in DeskOf(r, d).routes {
      StayKeepsAccurate(r, LookUp(r, d, id, e));
    } else {
      KeepPending(r, d, id, e);
    }
  }

  lemma ArriveKeepsInv(r: State, n: Notification)
    requires Inv(r) && r.reader.Idle?
    ensures Inv(Arrive(r, n))
  {
    var e := Entry(|r.arrived|, n);
    var t := r.(arrived := r.arrived + [n], places := r.places + [InReader], reader := AtTurn(e));
    ArrivalIsHeld(r, n);
    if LoginIdOf(n).Some? {
      hide Sound, Inv, LookUp;
      LookUpKeepsInv(t, LoginDesk, LoginIdOf(n).value, e);
    } else {
      InHandKeepsInv(t, Arrive(r, n));
    }
  }

  /** Going on to the goal or the turn routes with the latest notification in hand. */
  lemma InHandKeepsInv(r: State, t: State)
    requires Sound(r) && t == r.(reader := t.reader) && Contents(t, InReader) == Contents(r, InReader)
    requires !r.reader.Dead? && Held(t)
    ensures Inv(t)
  {
    StayKeepsAccurate(r, t);
  }

  /** A step that only touches goal routes, goal states or the reader's position. */
  lemma StayKeepsInv(r: State, t: State)
    requires Inv(r)
    requires t == r.(goals := t.goals, ops := t.ops, reader := t.reader, next := t.next)
    requires Contents(t, InReader) == Contents(r, InReader) && (r.reader.Dead? ==> t.reader.Dead?)
    requires OwnersKept(r, t) && Routed(t) && Held(t)
    ensures Inv(t)
  {
    assert forall p :: Accurate(t, p) by { StayKeepsAccurate(r, t); }
    forall i | 0 <= i < |t.places| ensures Belongs(t, t.places[i], t.arrived[i]) {
      assert Belongs(r, r.places[i], r.arrived[i]);
    }
  }

  /** Giving `g` a new state of the same thread keeps routes and the reader's knowledge. */
  lemma UpdateOpKeepsRoutes(r: State, t: State, g: nat, op: Goal.Op)
    requires Routed(r) && Held(r) && g in r.ops && op.threadId == r.ops[g].threadId
    requires t == r.(ops := r.ops[g := op], goalQueues := t.goalQueues, places := t.places)
    ensures OwnersKept(r, t) && Routed(t) && Held(t)
  {
  }

  /** `r` after goal `g` has observed what the reader holds and become `op`. */
  function Observed(r: State, g: nat, op: Goal.Op): State
    requires r.reader.AtGoal?
  {
    r.(ops := r.ops[g := op], goalQueues := r.goalQueues[g := Get(r.goalQueues, g) + [r.reader.e]],
       places := MoveAll(r.places, InReader, GoalQueue(g)), reader := CheckingGoal(g))
  }

  lemma ObserveKeepsInv(r: State, g: nat, op: Goal.Op)
    requires Inv(r) && r.reader.AtGoal? && r.reader.goal == Some(g)
    requires g in r.ops && op.threadId == r.ops[g].threadId && ForGoal(r.reader.e.n)
    ensures Inv(Observed(r, g, op))
  {
    ReaderHoldsLatest(r, r.reader.e);
    ObservedContents(r, g, op);
    UpdateOpKeepsRoutes(r, Observed(r, g, op).(reader := r.reader), g, op);
    hide Contents, Ordered, Sound;
    ObservedInOrder(r, g, op);
    MoveKeepsSound(r, Observed(r, g, op), InReader, GoalQueue(g));
  }

  lemma ObservedContents(r: State, g: nat, op: Goal.Op)
    requires r.reader.AtGoal?
    ensures var t := Observed(r, g, op);
            && Contents(t, InReader) == []
            && Contents(t, GoalQueue(g)) == Contents(r, GoalQueue(g)) + Contents(r, InReader)
            && forall p :: p != InReader && p != GoalQueue(g) ==> Contents(t, p) == Contents(r, p)
  {
  }

  lemma ObservedInOrder(r: State, g: nat, op: Goal.Op)
    requires r.reader.AtGoal? && Sound(r)
    ensures Ordered(Observed(r, g, op))
  {
  }

  lemma GoalStepKeepsInv(r: State)
    requires Inv(r) && r.reader.AtGoal?
    ensures Inv(StepAtGoal(r))
  {
    if StepAtGoal(r).reader.CheckingGoal? {
      var g := r.reader.goal.value;
      ObserveKeepsInv(r, g, Goal.Observe(r.ops[g], r.reader.e.n));
    } else {
      StayKeepsInv(r, StepAtGoal(r));
    }
  }

  lemma DropGoalKeepsInv(r: State, g: nat)
    requires Inv(r)
    ensures Inv(DropGoal(r, g))
  {
    StayKeepsInv(r, DropGoal(r, g));
  }

  lemma CheckingStepKeepsInv(r: State)
    requires Inv(r) && r.reader.CheckingGoal?
    ensures Inv(StepChecking(r))
  {
    DropGoalKeepsInv(r, r.reader.g);
    StayKeepsInv(DropGoal(r, r.reader.g), DropGoal(r, r.reader.g).(reader := Idle));
    StayKeepsInv(r, r.(reader := Idle));
  }

  lemma GlobalKeepsInv(r: State)
    requires Inv(r) && r.reader.AtTurn? && TurnIdOf(r.reader.e.n).None?
    ensures Inv(StepAtTurn(r))
  {
    var t := StepAtTurn(r);
    ReaderHoldsLatest(r, r.reader.e);
    assert forall p :: Accurate(t, p) by { MoveKeepsAccurate(r, t, InReader, GlobalQueue); }
    assert forall i :: 0 <= i < |t.places| ==> Belongs(t, t.places[i], t.arrived[i]) by {
      MoveKeepsBelonging(r, t, InReader, GlobalQueue);
    }
    assert Accounted(t) by { MoveKeepsAccount(r, t, InReader, GlobalQueue); }
  }

  /** The completion of an unregistered turn discards itself and what is pending for that turn. */
  lemma DiscardKeepsInv(r: State, id: string)
    requires Inv(r) && r.reader.AtTurn? && TurnIdOf(r.reader.e.n) == Some(id)
    requires id !in r.turns.routes && r.reader.e.n.methodName == TURN_COMPLETED
    ensures Inv(StepAtTurn(r))
  {
    ReaderHoldsLatest(r, r.reader.e);
    DiscardKeepsPlaces(r, id);
    DiscardKeepsAccount(r, id);
    DiscardKeepsRoutes(r, id);
    hide Contents, Accurate, Belongs, Accounted, Routed, Ordered;
  }

  /** The state once the completion is discarded, and nothing else yet. */
  function CompletionDropped(r: State): State
    requires r.reader.AtTurn?
  {
    r.(reader := Idle, places := MoveAll(r.places, InReader, Discarded(r.reader.e.stamp)))
  }

  lemma DiscardKeepsPlaces(r: State, id: string)
    requires Inv(r) && r.reader.AtTurn? && TurnIdOf(r.reader.e.n) == Some(id)
    requires id !in r.turns.routes && r.reader.e.n.methodName == TURN_COMPLETED
    ensures var t := StepAtTurn(r);
            && |t.places| == |t.arrived| && (forall p :: Accurate(t, p))
            && forall i :: 0 <= i < |t.places| ==> Belongs(t, t.places[i], t.arrived[i])
  {
    var mid, t, gone := CompletionDropped(r), StepAtTurn(r), Discarded(r.reader.e.stamp);
    DroppedContents(r, id);
    assert OwnersKept(r, mid) && OwnersKept(mid, t);
    hide Contents, Accurate, Routed, Ordered, Accounted;
    MoveKeepsAccurate(r, mid, InReader, gone);
    MoveKeepsBelonging(r, mid, InReader, gone);
    MoveKeepsAccurate(mid, t, Pending(TurnDesk, id), gone);
    MoveKeepsBelonging(mid, t, Pending(TurnDesk, id), gone);
  }

  lemma DroppedContents(r: State, id: string)
    requires r.reader.AtTurn? && TurnIdOf(r.reader.e.n) == Some(id)
    requires id !in r.turns.routes && r.reader.e.n.methodName == TURN_COMPLETED
    ensures var mid, t, gone := CompletionDropped(r), StepAtTurn(r), Discarded(r.reader.e.stamp);
            && t.places == MoveAll(mid.places, Pending(TurnDesk, id), gone)
            && Contents(mid, InReader) == [] && Contents(mid, gone) == []
            && (forall p :: p != InReader && p != gone ==> Contents(mid, p) == Contents(r, p))
            && Contents(t, Pending(TurnDesk, id)) == [] && Contents(t, gone) == []
            && (forall p :: p != Pending(TurnDesk, id) && p != gone ==> Contents(t, p) == Contents(mid, p))
  {
  }

  lemma DiscardKeepsAccount(r: State, id: string)
    requires Inv(r) && r.reader.AtTurn? && TurnIdOf(r.reader.e.n) == Some(id)
    requires id !in r.turns.routes && r.reader.e.n.methodName == TURN_COMPLETED
    ensures |StepAtTurn(r).places| == |StepAtTurn(r).arrived| && Accounted(StepAtTurn(r))
  {
    var t, e := StepAtTurn(r), r.reader.e;
    ReaderHoldsLatest(r, e);
    assert t.places[e.stamp] == Discarded(e.stamp);
    forall i | 0 <= i < |t.places| && t.places[i] != r.places[i]
      ensures t.places[i] == Discarded(e.stamp) && i <= e.stamp && TurnIdOf(r.arrived[i]) == Some(id)
    {
      assert Belongs(r, r.places[i], r.arrived[i]);
    }
    hide Accurate, Belongs, Routed, Ordered, Contents;
  }

  lemma DiscardKeepsRoutes(r: State, id: string)
    requires Inv(r) && r.reader.AtTurn? && TurnIdOf(r.reader.e.n) == Some(id)
    requires id !in r.turns.routes && r.reader.e.n.methodName == TURN_COMPLETED
    ensures Routed(StepAtTurn(r)) && Ordered(StepAtTurn(r)) && Held(StepAtTurn(r))
  {
  }

  lemma TurnStepKeepsInv(r: State)
    requires Inv(r) && r.reader.AtTurn?
    ensures Inv(StepAtTurn(r))
  {
    var e := r.reader.e;
    match TurnIdOf(e.n)
    case None => GlobalKeepsInv(r);
    case Some(id) =>
      if id !in r.turns.routes && e.n.methodName == TURN_COMPLETED {
        DiscardKeepsInv(r, id);
      } else {
        LookUpKeepsInv(r, TurnDesk, id, e);
      }
  }

  /** Putting the latest notification behind what a queue has, with `rest` still to be replayed. */
  lemma PutBreaksOrderExactly(had: seq<Entry>, rest: seq<Entry>, e: Entry)
    requires forall k :: 0 <= k < |had| ==> had[k].stamp < e.stamp
    requires forall k :: 0 <= k < |rest| ==> rest[k].stamp < e.stamp
    ensures InOrder((had + [e]) + rest) <==> InOrder(had + rest) && rest == []
  {
    var before, after := had + rest, (had + [e]) + rest;
    if rest != [] {
      assert after[|had|] == e && after[|had| + 1] == rest[0];
    } else {
      assert before == had && after == had + [e];
      assert forall i :: 0 <= i < |had| ==> after[i] == had[i];
      if InOrder(after) {
        assert InOrder(had);
      }
    }
  }

  lemma PutStepKeepsInv(r: State)
    requires Inv(r) && r.reader.Putting?
    ensures Inv(StepPutting(r))
  {
    var e, q := r.reader.e, r.reader.q;
    ReaderHoldsLatest(r, e);
    PutContents(r);
    PutOrder(r);
    PutRoutes(r);
    hide Contents, Ordered, Routed, Sound;
    MoveKeepsSound(r, StepPutting(r), InReader, Delivered(q));
  }

  lemma PutContents(r: State)
    requires r.reader.Putting?
    ensures var t, q := StepPutting(r), r.reader.q;
            && Contents(t, InReader) == []
            && Contents(t, Delivered(q)) == Contents(r, Delivered(q)) + Contents(r, InReader)
            && forall p :: p != InReader && p != Delivered(q) ==> Contents(t, p) == Contents(r, p)
  {
  }

  lemma PutOrder(r: State)
    requires Inv(r) && r.reader.Putting?
    ensures Ordered(StepPutting(r))
  {
    var e, q := r.reader.e, r.reader.q;
    ElsewhereIsEarlier(r, e, Delivered(q));
    ElsewhereIsEarlier(r, e, Replaying(q));
    PutBreaksOrderExactly(Contents(r, Delivered(q)), Contents(r, Replaying(q)), e);
    hide InOrder, Accurate, Belongs, Routed, Accounted;
  }

  lemma PutRoutes(r: State)
    requires Inv(r) && r.reader.Putting?
    ensures OwnersKept(r, StepPutting(r)) && Routed(StepPutting(r)) && Held(StepPutting(r))
  {
  }

  // ----- the callers ------------------------------------------------------------------------------

  lemma FreshQueueIsEmpty(r: State)
    requires Inv(r)
    ensures Contents(r, Delivered(r.next)) == [] && Contents(r, Replaying(r.next)) == []
    ensures forall i :: 0 <= i < |r.places| ==>
              r.places[i] != Delivered(r.next) && r.places[i] != Replaying(r.next)
  {
    assert Accurate(r, Delivered(r.next)) && Accurate(r, Replaying(r.next));
  }

  lemma RegisterKeepsInv(r: State, d: DeskName, id: string)
    requires Inv(r)
    ensures Inv(Register(r, d, id))
  {
    if id !in DeskOf(r, d).routes {
      FreshQueueIsEmpty(r);
      RegisteredContents(r, d, id);
      PendingBelongs(r, d, id);
      RegisterKeepsOrder(r, d, id);
      RegisterKeepsRoutes(r, d, id);
      hide Contents, Ordered, Routed, Sound, Belongs, Held;
      MoveKeepsSound(r, Register(r, d, id), Pending(d, id), Replaying(r.next));
    }
  }

  lemma RegisteredContents(r: State, d: DeskName, id: string)
    requires id !in DeskOf(r, d).routes
    requires Contents(r, Delivered(r.next)) == [] && Contents(r, Replaying(r.next)) == []
    ensures var t, q := Register(r, d, id), r.next;
            && Contents(t, Pending(d, id)) == []
            && Contents(t, Replaying(q)) == Contents(r, Replaying(q)) + Contents(r, Pending(d, id))
            && forall p :: p != Pending(d, id) && p != Replaying(q) ==> Contents(t, p) == Contents(r, p)
  {
  }

  lemma PendingBelongs(r: State, d: DeskName, id: string)
    requires Inv(r) && id !in DeskOf(r, d).routes
    ensures forall i :: 0 <= i < |r.places| && r.places[i] == Pending(d, id) ==>
              Belongs(Register(r, d, id), Replaying(r.next), r.arrived[i])
  {
    forall i | 0 <= i < |r.places| && r.places[i] == Pending(d, id)
      ensures Belongs(Register(r, d, id), Replaying(r.next), r.arrived[i])
    {
      assert Belongs(r, r.places[i], r.arrived[i]);
    }
  }

  lemma RegisterKeepsOrder(r: State, d: DeskName, id: string)
    requires Inv(r) && id !in DeskOf(r, d).routes
    ensures Ordered(Register(r, d, id))
  {
    var t := Register(r, d, id);
    var q := r.next;
    FreshQueueIsEmpty(r);
    var pending := Get(DeskOf(r, d).pending, id);
    assert InOrder(pending);
    assert [] + pending == pending;
    assert Get(r.delivered, q) + Get(r.replay, q) == [];
    forall x ensures x in t.overtaken <==> !InOrder(Get(t.delivered, x) + Get(t.replay, x)) {
      if x != q {
        assert Get(t.delivered, x) == Get(r.delivered, x) && Get(t.replay, x) == Get(r.replay, x);
      }
    }
  }

  lemma RegisterKeepsRoutes(r: State, d: DeskName, id: string)
    requires Inv(r) && id !in DeskOf(r, d).routes
    ensures OwnersKept(r, Register(r, d, id)) && Routed(Register(r, d, id)) && Held(Register(r, d, id))
  {
  }

  lemma ReplayKeepsInv(r: State, q: nat)
    requires Inv(r)
    ensures Inv(ReplayOne(r, q))
  {
    if Get(r.replay, q) != [] {
      assert Accurate(r, Replaying(q)) && Contents(r, Replaying(q)) == Get(r.replay, q);
      ReplayKeepsPlaces(r, q);
      ReplayKeepsOrder(r, q);
    }
  }

  lemma ReplayKeepsPlaces(r: State, q: nat)
    requires Inv(r) && Get(r.replay, q) != []
    ensures forall p :: Accurate(ReplayOne(r, q), p)
    ensures var t := ReplayOne(r, q);
            |t.places| == |t.arrived| && Accounted(t) &&
            forall i :: 0 <= i < |t.places| ==> Belongs(t, t.places[i], t.arrived[i])
  {
    var left, had := Get(r.replay, q), Get(r.delivered, q);
    var t := ReplayOne(r, q);
    var x := left[0];
    assert Accurate(r, Replaying(q)) && Contents(r, Replaying(q)) == left;
    assert r.places[x.stamp] == Replaying(q);
    forall p ensures Accurate(t, p) {
      assert Accurate(r, p) && Accurate(r, Delivered(q));
      if p == Replaying(q) {
        ShiftHolds(left, r.arrived, r.places, p, Delivered(q));
      } else if p == Delivered(q) {
        assert Contents(t, p) == had + [x];
        GainHolds(had, x, r.arrived, r.places, p);
      } else {
        assert Contents(t, p) == Contents(r, p);
      }
    }
    assert Belongs(r, r.places[x.stamp], r.arrived[x.stamp]);
    forall i | 0 <= i < |t.places| ensures Belongs(t, t.places[i], t.arrived[i]) {
      assert Belongs(r, r.places[i], r.arrived[i]);
    }
  }

  lemma ReplayKeepsOrder(r: State, q: nat)
    requires Inv(r) && Get(r.replay, q) != []
    ensures Ordered(ReplayOne(r, q)) && Routed(ReplayOne(r, q)) && Held(ReplayOne(r, q))
  {
    var left, had := Get(r.replay, q), Get(r.delivered, q);
    assert had + left == (had + [left[0]]) + left[1..];
    var t := ReplayOne(r, q);
    assert q < r.next;
    forall x ensures x in t.overtaken <==> !InOrder(Get(t.delivered, x) + Get(t.replay, x)) {
      if x != q {
        assert Get(t.delivered, x) == Get(r.delivered, x) && Get(t.replay, x) == Get(r.replay, x);
      }
    }
  }

  lemma ShiftHolds(s: seq<Entry>, arrived: seq<Notification>, places: seq<Place>, p: Place, to: Place)
    requires |places| == |arrived| && s != [] && p != to && !Gone(p)
    requires Holds(s, arrived, places, p)
    ensures Holds(s[1..], arrived, places[s[0].stamp := to], p)
  {
    forall i | 0 <= i < |arrived| && places[s[0].stamp := to][i] == p ensures Entry(i, arrived[i]) in s[1..] {
      assert Entry(i, arrived[i]) in s;
    }
  }

  lemma GainHolds(s: seq<Entry>, x: Entry, arrived: seq<Notification>, places: seq<Place>, p: Place)
    requires |places| == |arrived| && !Gone(p)
    requires x.stamp < |arrived| && x.n == arrived[x.stamp] && places[x.stamp] != p
    requires Holds(s, arrived, places, p)
    ensures Holds(s + [x], arrived, places[x.stamp := p], p)
  {
    forall i | 0 <= i < |arrived| && places[x.stamp := p][i] == p ensures Entry(i, arrived[i]) in s + [x] {
      assert i != x.stamp ==> Entry(i, arrived[i]) in s;
      assert (s + [x])[|s|] == x;
    }
  }

  lemma UnregisterKeepsInv(r: State, d: DeskName, id: string)
    requires Inv(r)
    ensures Inv(Unregister(r, d, id))
  {
    StayKeepsAccurate(r, Unregister(r, d, id));
  }

  lemma AddGoalKeepsInv(r: State, threadId: string, op: Goal.Op)
    requires Inv(r) && threadId !in r.goals && op.threadId == threadId
    ensures Inv(r.(goals := r.goals[threadId := r.next], ops := r.ops[r.next := op], next := r.next + 1))
  {
    var t := r.(goals := r.goals[threadId := r.next], ops := r.ops[r.next := op], next := r.next + 1);
    AddGoalKeepsRoutes(r, t, threadId, op);
    StayKeepsInv(r, t);
  }

  lemma AddGoalKeepsRoutes(r: State, t: State, threadId: string, op: Goal.Op)
    requires Routed(r) && Held(r) && threadId !in r.goals && op.threadId == threadId
    requires t == r.(goals := r.goals[threadId := r.next], ops := r.ops[r.next := op], next := r.next + 1)
    ensures OwnersKept(r, t) && Routed(t) && Held(t)
  {
  }

  lemma RegisterGoalKeepsInv(r: State, threadId: string, routing: bool)
    requires Inv(r)
    ensures Inv(RegisterGoal(r, threadId, routing))
  {
    hide Inv;
    if threadId !in r.goals {
      AddGoalKeepsInv(r, threadId, Goal.NewOp(threadId).(routing := routing));
    }
  }

  lemma UpdateGoalKeepsInv(r: State, g: nat, f: Goal.Op -> Goal.Op)
    requires Inv(r) && forall op :: f(op).threadId == op.threadId
    ensures Inv(UpdateGoal(r, g, f))
  {
    if g in r.ops {
      UpdateOpKeepsRoutes(r, UpdateGoal(r, g, f), g, f(r.ops[g]));
      StayKeepsInv(r, UpdateGoal(r, g, f));
    }
  }

  lemma FailureKeepsAccurate(r: State)
    requires Inv(r) && r.reader.Idle?
    ensures var t := FailAll(r); |t.places| == |t.arrived| && forall p :: Accurate(t, p)
  {
    var t := FailAll(r);
    forall p ensures Accurate(t, p) {
      assert Accurate(r, p);
    }
  }

  lemma FailureKeepsBelonging(r: State)
    requires Inv(r) && r.reader.Idle?
    ensures var t := FailAll(r);
            |t.places| == |t.arrived| && forall i :: 0 <= i < |t.places| ==> Belongs(t, t.places[i], t.arrived[i])
  {
    var t := FailAll(r);
    forall i | 0 <= i < |t.places| ensures Belongs(t, t.places[i], t.arrived[i]) {
      assert Belongs(r, r.places[i], r.arrived[i]);
    }
  }

  lemma FailAllKeepsInv(r: State)
    requires Inv(r) && r.reader.Idle?
    ensures Inv(FailAll(r))
  {
    FailureKeepsAccurate(r);
    FailureKeepsBelonging(r);
    hide Accurate, Belongs, Contents;
  }

  // ----- every interleaving ---------------------------------------------------------------------------

  lemma StepKeepsInv(r: State, a: Action)
    requires Inv(r)
    ensures Inv(Step(r, a))
  {
    hide Inv;
    match a
    case ArriveAction(n) => if r.reader.Idle? { ArriveKeepsInv(r, n); }
    case ReaderAction =>
      match r.reader {
       case AtGoal(_, _) => GoalStepKeepsInv(r);
       case CheckingGoal(_) => CheckingStepKeepsInv(r);
       case AtTurn(_) => TurnStepKeepsInv(r);
       case Putting(_, _) => PutStepKeepsInv(r);
       case _ =>
      }
    case RegisterAction(d, id) => RegisterKeepsInv(r, d, id);
    case ReplayAction(q) => ReplayKeepsInv(r, q);
    case UnregisterAction(d, id) => UnregisterKeepsInv(r, d, id);
    case RegisterGoalAction(threadId, routing) => RegisterGoalKeepsInv(r, threadId, routing);
    case ActivateGoalAction(g) => UpdateGoalKeepsInv(r, g, (op: Goal.Op) => op.(routing := true));
    case FinishGoalAction(g) => UpdateGoalKeepsInv(r, g, Goal.Finish);
    case UnregisterGoalAction(g) => DropGoalKeepsInv(r, g);
    case FailAllAction => if r.reader.Idle? { FailAllKeepsInv(r); }
  }

  lemma {:induction false} Reachable(actions: seq<Action>)
    ensures Inv(Run(INIT, actions))
  {
    if actions == [] {
      assert forall p :: Contents(INIT, p) == [];
    } else {
      Reachable(actions[..|actions|-1]);
      StepKeepsInv(Run(INIT, actions[..|actions|-1]), actions[|actions|-1]);
    }
  }
}

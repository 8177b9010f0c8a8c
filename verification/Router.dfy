/** The message router as a transition system.  Every step is one critical section or one queue
    operation, so the reader thread and the callers that register and unregister routes may be
    interleaved in any order.  Notifications carry the position at which they arrived. */
module Router {
  import opened Common
  import opened Notifications
  import Goal

  datatype Entry = Entry(stamp: nat, n: Notification)

  datatype DeskName = TurnDesk | LoginDesk

  /** The routes of one kind: registered queues by id, and what arrived for ids without a queue. */
  datatype Desk = Desk(routes: map<string, nat>, pending: map<string, seq<Entry>>)

  /** Where the reader thread is inside `route_notification`. */
  datatype Reader =
    | Idle
    | AtGoal(e: Entry, goal: Option<nat>)
    | CheckingGoal(g: nat)
    | AtTurn(e: Entry)
    | Putting(e: Entry, q: nat)
    | Dead

  /** Where a notification is. */
  datatype Place =
    | InReader
    | Pending(desk: DeskName, id: string)
    | Replaying(q: nat)
    | Delivered(q: nat)
    | GlobalQueue
    | GoalQueue(g: nat)
    | Discarded(cause: nat)
    | Lost

  datatype State = State(
    turns: Desk,
    logins: Desk,
    goals: map<string, nat>,
    ops: map<nat, Goal.Op>,
    goalQueues: map<nat, seq<Entry>>,
    replay: map<nat, seq<Entry>>,
    delivered: map<nat, seq<Entry>>,
    global: seq<Entry>,
    reader: Reader,
    next: nat,
    arrived: seq<Notification>,
    places: seq<Place>,
    owner: map<nat, (DeskName, string)>,
    overtaken: set<nat>)

  const INIT := State(Desk(map[], map[]), Desk(map[], map[]), map[], map[], map[], map[], map[], [],
                      Idle, 0, [], [], map[], {})

  function Get<K, V>(m: map<K, seq<V>>, k: K): seq<V> { if k in m then m[k] else [] }

  function DeskOf(r: State, d: DeskName): Desk { if d.TurnDesk? then r.turns else r.logins }

  function WithDesk(r: State, d: DeskName, desk: Desk): State {
    if d.TurnDesk? then r.(turns := desk) else r.(logins := desk)
  }

  predicate Prefix(p: string, s: string) { p <= s }

  function MoveOne(places: seq<Place>, stamp: nat, to: Place): seq<Place> {
    if stamp < |places| then places[stamp := to] else places
  }

  // ----- the reader's steps ------------------------------------------------------------

  /** Move every notification that is at `from` to `to`. */
  function MoveAll(places: seq<Place>, from: Place, to: Place): (r: seq<Place>)
    ensures |r| == |places|
    ensures forall i :: 0 <= i < |places| ==> r[i] == if places[i] == from then to else places[i]
  {
    seq(|places|, i requires 0 <= i < |places| => if places[i] == from then to else places[i])
  }

  /** A critical section that looks a queue up and keeps the notification if there is none. */
  function LookUp(r: State, d: DeskName, id: string, e: Entry): State {
    var desk := DeskOf(r, d);
    if id in desk.routes then r.(reader := Putting(e, desk.routes[id]))
    else
      WithDesk(r, d, desk.(pending := desk.pending[id := Get(desk.pending, id) + [e]]))
      .(reader := Idle, places := MoveAll(r.places, InReader, Pending(d, id)))
  }

  function Arrive(r: State, n: Notification): State
    requires r.reader.Idle?
  {
    var e := Entry(|r.arrived|, n);
    var t := r.(arrived := r.arrived + [n], places := r.places + [InReader], reader := AtTurn(e));
    if LoginIdOf(n).Some? then LookUp(t, LoginDesk, LoginIdOf(n).value, e)
    else if ThreadIdOf(n).Some? then
      var th := ThreadIdOf(n).value;
      t.(reader := AtGoal(e, if th in r.goals then Some(r.goals[th]) else None))
    else t
  }

  predicate ForGoal(n: Notification) {
    TurnIdOf(n).Some? || Prefix(GOAL_METHOD_PREFIX, n.methodName)
  }

  function StepAtGoal(r: State): State
    requires r.reader.AtGoal?
  {
    var e, goal := r.reader.e, r.reader.goal;
    if goal.Some? && goal.value in r.ops && ForGoal(e.n) && Goal.Accepts(r.ops[goal.value], e.n) then
      var g := goal.value;
      r.(ops := r.ops[g := Goal.Observe(r.ops[g], e.n)],
         goalQueues := r.goalQueues[g := Get(r.goalQueues, g) + [e]],
         places := MoveAll(r.places, InReader, GoalQueue(g)),
         reader := CheckingGoal(g))
    else r.(reader := AtTurn(e))
  }

  /** Remove the route of goal `g`, if it is still the one registered for its thread. */
  function DropGoal(r: State, g: nat): State {
    if g in r.ops && r.ops[g].threadId in r.goals && r.goals[r.ops[g].threadId] == g
    then r.(goals := r.goals - {r.ops[g].threadId})
    else r
  }

  function StepChecking(r: State): State
    requires r.reader.CheckingGoal?
  {
    var g := r.reader.g;
    (if g in r.ops && r.ops[g].finished then DropGoal(r, g) else r).(reader := Idle)
  }

  function StepAtTurn(r: State): State
    requires r.reader.AtTurn?
  {
    var e := r.reader.e;
    match TurnIdOf(e.n)
    case None =>
      r.(global := r.global + [e], reader := Idle, places := MoveAll(r.places, InReader, GlobalQueue))
    case Some(t) =>
      if t !in r.turns.routes && e.n.methodName == TURN_COMPLETED then
        r.(turns := r.turns.(pending := r.turns.pending - {t}), reader := Idle,
           places := MoveAll(MoveAll(r.places, InReader, Discarded(e.stamp)),
                             Pending(TurnDesk, t), Discarded(e.stamp)))
      else LookUp(r, TurnDesk, t, e)
  }

  function StepPutting(r: State): State
    requires r.reader.Putting?
  {
    var e, q := r.reader.e, r.reader.q;
    r.(delivered := r.delivered[q := Get(r.delivered, q) + [e]],
       places := MoveAll(r.places, InReader, Delivered(q)),
       overtaken := if Get(r.replay, q) != [] then r.overtaken + {q} else r.overtaken,
       reader := Idle)
  }

  function ReaderStep(r: State): State {
    match r.reader
    case AtGoal(_, _) => StepAtGoal(r)
    case CheckingGoal(_) => StepChecking(r)
    case AtTurn(_) => StepAtTurn(r)
    case Putting(_, _) => StepPutting(r)
    case _ => r
  }

  // ----- the callers' steps --------------------------------------------------------------

  /** The critical section of registering an id: its pending notifications become the new queue's replay. */
  function Register(r: State, d: DeskName, id: string): State {
    var desk := DeskOf(r, d);
    if id in desk.routes then r else
    var q := r.next;
    WithDesk(r, d, Desk(desk.routes[id := q], desk.pending - {id}))
    .(replay := r.replay[q := Get(desk.pending, id)],
      delivered := r.delivered[q := []],
      owner := r.owner[q := (d, id)],
      places := MoveAll(r.places, Pending(d, id), Replaying(q)),
      next := q + 1)
  }

  /** The registering caller puts the next pending notification into its queue. */
  function ReplayOne(r: State, q: nat): State {
    var left := Get(r.replay, q);
    if left == [] then r else
    r.(replay := r.replay[q := left[1..]],
       delivered := r.delivered[q := Get(r.delivered, q) + [left[0]]],
       places := MoveOne(r.places, left[0].stamp, Delivered(q)))
  }

  function Unregister(r: State, d: DeskName, id: string): State {
    var desk := DeskOf(r, d);
    WithDesk(r, d, desk.(routes := desk.routes - {id}))
  }

  function RegisterGoal(r: State, threadId: string, routing: bool): State {
    if threadId in r.goals then r else
    r.(goals := r.goals[threadId := r.next],
       ops := r.ops[r.next := Goal.NewOp(threadId).(routing := routing)],
       next := r.next + 1)
  }

  function UpdateGoal(r: State, g: nat, f: Goal.Op -> Goal.Op): State {
    if g in r.ops then r.(ops := r.ops[g := f(r.ops[g])]) else r
  }

  function LoseAll(places: seq<Place>): (r: seq<Place>)
    ensures |r| == |places|
    ensures forall i :: 0 <= i < |places| ==> r[i] == if places[i].Pending? then Lost else places[i]
  {
    seq(|places|, i requires 0 <= i < |places| => if places[i].Pending? then Lost else places[i])
  }

  function FailAll(r: State): State
    requires r.reader.Idle?
  {
    r.(turns := r.turns.(pending := map[]), logins := Desk(map[], map[]), goals := map[], reader := Dead,
       places := LoseAll(r.places))
  }

  datatype Action =
    | ArriveAction(n: Notification)
    | ReaderAction
    | RegisterAction(d: DeskName, id: string)
    | ReplayAction(q: nat)
    | UnregisterAction(d: DeskName, id: string)
    | RegisterGoalAction(threadId: string, routing: bool)
    | ActivateGoalAction(g: nat)
    | FinishGoalAction(g: nat)
    | UnregisterGoalAction(g: nat)
    | FailAllAction

  function Step(r: State, a: Action): State {
    match a
    case ArriveAction(n) => if r.reader.Idle? then Arrive(r, n) else r
    case ReaderAction => ReaderStep(r)
    case RegisterAction(d, id) => Register(r, d, id)
    case ReplayAction(q) => ReplayOne(r, q)
    case UnregisterAction(d, id) => Unregister(r, d, id)
    case RegisterGoalAction(threadId, routing) => RegisterGoal(r, threadId, routing)
    case ActivateGoalAction(g) => UpdateGoal(r, g, (op: Goal.Op) => op.(routing := true))
    case FinishGoalAction(g) => UpdateGoal(r, g, Goal.Finish)
    case UnregisterGoalAction(g) => DropGoal(r, g)
    case FailAllAction => if r.reader.Idle? then FailAll(r) else r
  }

  function Run(r: State, actions: seq<Action>): State
    decreases |actions|
  {
    if actions == [] then r else Step(Run(r, actions[..|actions|-1]), actions[|actions|-1])
  }

  // ----- the invariant -----------------------------------------------------------------------

  /** What is at a place; nothing is kept of discarded and lost notifications. */
  function Contents(r: State, p: Place): seq<Entry> {
    match p
    case InReader =>
      (match r.reader
       case AtGoal(e, _) => [e]
       case AtTurn(e) => [e]
       case Putting(e, _) => [e]
       case _ => [])
    case Pending(d, id) => Get(DeskOf(r, d).pending, id)
    case Replaying(q) => Get(r.replay, q)
    case Delivered(q) => Get(r.delivered, q)
    case GlobalQueue => r.global
    case GoalQueue(g) => Get(r.goalQueues, g)
    case Discarded(_) => []
    case Lost => []
  }

  predicate Gone(p: Place) { p.Discarded? || p.Lost? }

  ghost predicate Distinct(s: seq<Entry>) {
    forall i, j :: 0 <= i < j < |s| ==> s[i].stamp != s[j].stamp
  }

  ghost predicate InOrder(s: seq<Entry>) {
    forall i, j :: 0 <= i < j < |s| ==> s[i].stamp < s[j].stamp
  }

  /** `s` is exactly the notifications that are at `p`, each once. */
  ghost predicate Holds(s: seq<Entry>, arrived: seq<Notification>, places: seq<Place>, p: Place)
    requires |places| == |arrived|
  {
    && Distinct(s)
    && (forall k :: 0 <= k < |s| ==>
          s[k].stamp < |arrived| && s[k].n == arrived[s[k].stamp] && places[s[k].stamp] == p)
    && (!Gone(p) ==> forall i :: 0 <= i < |arrived| && places[i] == p ==> Entry(i, arrived[i]) in s)
  }

  ghost predicate Accurate(r: State, p: Place)
    requires |r.places| == |r.arrived|
  {
    Holds(Contents(r, p), r.arrived, r.places, p)
  }

  /** A notification belongs where it is. */
  ghost predicate Belongs(r: State, p: Place, n: Notification) {
    match p
    case Pending(d, id) => KeyOf(n, d) == Some(id)
    case Replaying(q) => q in r.owner && KeyOf(n, r.owner[q].0) == Some(r.owner[q].1)
    case Delivered(q) => q in r.owner && KeyOf(n, r.owner[q].0) == Some(r.owner[q].1)
    case GlobalQueue => TurnIdOf(n).None? && LoginIdOf(n).None?
    case GoalQueue(g) => g in r.ops && ThreadIdOf(n) == Some(r.ops[g].threadId) && ForGoal(n)
    case _ => true
  }

  function KeyOf(n: Notification, d: DeskName): Option<string> {
    if d.TurnDesk? then TurnIdOf(n) else LoginIdOf(n)
  }

  /** Ids with a queue have nothing pending, and a queue serves one id for ever. */
  ghost predicate DeskRouted(desk: Desk, d: DeskName, owner: map<nat, (DeskName, string)>) {
    forall id :: id in desk.routes ==>
      id !in desk.pending && desk.routes[id] in owner && owner[desk.routes[id]] == (d, id)
  }

  ghost predicate Routed(r: State) {
    && DeskRouted(r.turns, TurnDesk, r.owner)
    && DeskRouted(r.logins, LoginDesk, r.owner)
    && (forall q :: q in r.owner || q in r.delivered || q in r.replay || q in r.ops ==> q < r.next)
    && (forall th :: th in r.goals ==> r.goals[th] in r.ops && r.ops[r.goals[th]].threadId == th)
  }

  /** What the reader thread knows about the notification in its hand. */
  ghost predicate Held(r: State) {
    match r.reader
    case AtGoal(e, goal) =>
      && e.stamp == |r.arrived| - 1 && LoginIdOf(e.n).None?
      && (goal.Some? ==> goal.value in r.ops && ThreadIdOf(e.n) == Some(r.ops[goal.value].threadId))
    case AtTurn(e) => e.stamp == |r.arrived| - 1 && LoginIdOf(e.n).None?
    case Putting(e, q) =>
      e.stamp == |r.arrived| - 1 && q in r.owner && KeyOf(e.n, r.owner[q].0) == Some(r.owner[q].1)
    case _ => true
  }

  ghost predicate PendingInOrder(desk: Desk) {
    forall id :: id in desk.pending ==> InOrder(desk.pending[id])
  }

  /** A queue's deliveries and its outstanding replay are in arrival order, unless the reader
      put something into the queue while the replay was under way. */
  ghost predicate Ordered(r: State) {
    && (forall q :: q in r.overtaken <==> !InOrder(Get(r.delivered, q) + Get(r.replay, q)))
    && PendingInOrder(r.turns) && PendingInOrder(r.logins)
  }

  /** Only the completion of an unregistered turn discards what is pending for that turn, and
      only a transport failure loses anything else. */
  ghost predicate Accounted(r: State)
    requires |r.places| == |r.arrived|
  {
    forall i :: 0 <= i < |r.places| ==>
      match r.places[i]
      case Discarded(c) =>
        && i <= c < |r.arrived|
        && r.arrived[c].methodName == TURN_COMPLETED
        && TurnIdOf(r.arrived[c]).Some? && TurnIdOf(r.arrived[i]) == TurnIdOf(r.arrived[c])
        && r.places[c] == Discarded(c)
      case Lost => r.reader.Dead?
      case _ => true
  }

  ghost predicate Sound(r: State) {
    && |r.places| == |r.arrived|
    && (forall p :: Accurate(r, p))
    && (forall i :: 0 <= i < |r.places| ==> Belongs(r, r.places[i], r.arrived[i]))
    && Routed(r) && Ordered(r) && Accounted(r)
  }

  ghost predicate Inv(r: State) { Sound(r) && Held(r) }
}

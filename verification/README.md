# Verification of the agent runtime

This project models seven components of the repository and proves properties of whole runs of them.  Each component has a
specification (functions over values, named after what the code does), theorems about it, and the code's own form: classes and
loops in the order of the original, proved equal to the specification.  `Common` holds what several
modules share.  `dafny verify dfyconfig.toml` checks everything.

| component | specification and theorems | the code as objects and loops |
|---|---|---|
| goal operation of the Codex Python SDK | `Notifications`, `Goal`, `GoalAgreement`, `GoalStream`, `GoalSystem`, `GoalTurns`, `GoalInterrupts` | `GoalObjects` |
| message router of the SDK | `Router`, `RouterConservation`, `RouterDelivery`, `RouterDestinations`, `RouterWaiters` | `RouterObjects` |
| streaming ReAct parser | `ThinkTags`, `ThinkDocuments`, `ReactMachine`, `ReactConservation`, `JsonText`, `ReactStream`, `ReactStates`, `ReactInputs` | `ReactObjects` |
| relationship resolver | `BusinessGraph` | `BusinessObjects` |
| service container | `ServiceContainer` | `ServiceObjects` |
| plan executor | `PlanExecutor`, `PlanOutcomes`, `PlanApproval` | `PlanObjects` |
| workflow engine | `Workflow`, `WorkflowRetries`, `WorkflowCheckpoints` | `WorkflowObjects` |
| config flattener, Bazel checksums, pull-request watcher | `ConfigTree`, `ConfigText`, `ConfigInputs`; `BazelChecksums`, `BazelUpdate`, `BazelInputs`; `PrWatch` | `ConfigText`; `BazelMethods`; `PrWatch` |

**Goal operation.**  A goal is folded twice over one queue: by the reader, whose verdict cuts the route, and by the consumer's
cursor, whose verdict ends the stream.  Both verdicts are characterized by the history of notifications, and compared: the reader
never finishes before the consumer can end.  `GoalSystem` takes the reader's critical sections and queue operations, the consumer, the controls, failure and closing as
atomic steps in any order; its theorems hold over every interleaving.  `GoalTurns` says under which id the logical turn runs, what is
accepted, and when the route is gone.

**Router.**  Each critical section and each queue operation is one step.  Notifications carry their arrival position, and a log says
where each is; the invariant ties log and queues.  Turn and login routes are two desks of one kind.  `RouterDestinations` says from payload and
method where each arrival ends up.

**Parser.**  The character machine and the nested think stripper are functions; JSON texts are a datatype of the grammar of RFC 8259
that is rendered and scanned.  `ReactStates` says what is recognised as a prefix and which text is taken for the answer.

**Plan executor.**  Adapters are an oracle that answers each dispatch and may let a cancellation arrive meanwhile.  The parameter
dictionaries are objects, because steps may share one.

**Workflow engine.**  Handlers are opaque except for what they do to status, retry count, policy decision and verification report.

Where the code does less than its documentation or its promise, a lemma gives an input that shows it, and another the exact condition
under which the code keeps the promise:

- An interrupted turn, or a completion under another id, ends the stream and leaves the reader's route
  (`InterruptedTurnEndsOnlyTheStream`, `OtherIdEndsOnlyTheStream`; `EndTogetherExactlyWhen`).
- Two overlapping interrupt controls let the interrupted flag change after it was read, and an interrupted turn's completion reads it
  before the goal is finished (`OverlappingControlsChangeTheFlag`; `FlagFinalExactlyWhen`, `ReportedFlagStaysExactlyWhen`).  Nothing in
  the repository calls `begin_interrupt`, `confirm_interrupt`, `cancel_interrupt` or `resolve_active_turn` yet; the model lets any caller.
- `register_turn` replays outside its critical section and can be overtaken (`ReplayCanBeOvertaken`; `ArrivalOrderExactlyWhen`).
- A closed JSON blob directly followed by an opening bracket is lost, one followed by a letter a, f or t is overtaken by it, and a
  partial prefix at the end of the stream is dropped (`BlobIsOverwritten`, `BlobIsOvertaken`, `PartialPrefixIsDropped`;
  `ConservationExactlyWhen`, `HandedOutExactlyWhen`).
- An opening think tag cut by a chunk boundary outside a block is handed out as text (`CutOpeningIsHandedOut`;
  `ChunkingIndependentExactlyWhen`).
- Steps that share a dictionary share its approval, and skipping continues as a customer and so bypasses approval
  (`SharedParamsShareApproval`, `SkipBypassesApproval`; `ApprovalKeptExactlyWhen`, `SkipsKeepApprovalExactlyWhen`).
- Restoring a checkpoint does not bring back the data and the policy decision that were saved with it
  (`PolicyDecisionIsNotRestored`; `SavedIsRestoredExactlyWhen`, `InitialPlanIsRestoredExactlyWhen`).
- A nested object whose entries are all undefined is lost when flattened, and dots or equals signs in keys change the tree
  (`HollowObjectIsLost`, `DottedKeyIsSplit`, `EqualsSignIsCut`; `RoundTripExactlyWhen`).
- The checksum update leaves a checksum that is not lowercase hex in front of the one it inserts, and a second update may still remove
  blank lines (`OtherChecksumIsNotReplaced`, `SecondUpdateRemovesBlank`; `UpdateThenCheckExactlyWhen`, `UpdateAgainExactlyWhen`).

## Model

| member | source | states |
|---|---|---|
| Notifications.Relabel | LangGraph architecture/openinterpreter/sdk/python/src/openai_codex/_goal.py:196-222 | the relabelled copy names the logical turn exactly if the notification named a turn, and keeps method and thread |
| Notifications.RelabelCanBeUndone | LangGraph architecture/openinterpreter/sdk/python/src/openai_codex/_goal.py:196-222 | relabelling changes nothing but turn ids: with the original id back the notification is the original |
| Notifications.RelabelKeepsTheRest | LangGraph architecture/openinterpreter/sdk/python/src/openai_codex/_goal.py:199-206 | of an unrecognised payload only the turn ids that are strings change |
| GoalAgreement.CursorReadsHistory | LangGraph architecture/openinterpreter/sdk/python/src/openai_codex/_goal.py:265-311 | after any notifications the cursor's flags say what the history says: goal over, a turn running, a turn completed, no goal event yet |
| GoalAgreement.StreamEndsExactly | LangGraph architecture/openinterpreter/sdk/python/src/openai_codex/_goal.py:260-326 | the cursor completes or raises at an element if and only if the history up to it is one at which the stream is to end |
| GoalAgreement.ObserverReadsHistory | LangGraph architecture/openinterpreter/sdk/python/src/openai_codex/_goal.py:55-87 | the reader's finishing condition holds exactly when the latest turn got its own completion, some turn was completed and the goal is over |
| GoalAgreement.RouteCutExactly | LangGraph architecture/openinterpreter/sdk/python/src/openai_codex/_goal.py:79-84 | the operation is finished, so the route is cut, if and only if some prefix of what was accepted is such a history |
| GoalAgreement.NoStrandedConsumer | LangGraph architecture/openinterpreter/sdk/python/src/openai_codex/_goal.py:55-87 | if the reader has finished after some notifications, the cursor fed the same ones has completed or raised at or before the last |
| GoalAgreement.EndTogetherExactlyWhen | LangGraph architecture/openinterpreter/sdk/python/src/openai_codex/_goal.py:260-326 | where the stream ends first, the reader finishes too if and only if the latest turn was completed under its own id and the goal is over |
| GoalAgreement.WellFormedEndsTogether | LangGraph architecture/openinterpreter/sdk/python/src/openai_codex/_goal.py:55-87 | with matching starts and completions, goal mode active before the first success and no interrupted turn, both sides finish at the same element and not before |
| GoalAgreement.InterruptedTurnEndsOnlyTheStream | LangGraph architecture/openinterpreter/sdk/python/src/openai_codex/_goal.py:276-282 | a concrete run with an interrupted turn that ends the stream and leaves the reader's route in place |
| GoalAgreement.OtherIdEndsOnlyTheStream | LangGraph architecture/openinterpreter/sdk/python/src/openai_codex/_goal.py:289-300 | a concrete run in which a completion under another id ends the stream of a cleared goal and leaves the route |
| GoalStream.NotDrainedBeforeEnd | LangGraph architecture/openinterpreter/sdk/python/src/openai_codex/_goal.py:313-318 | a stream that has not ended is never in the state in which an ordinary notification would complete it |
| GoalStream.AtMostOneEvent | LangGraph architecture/openinterpreter/sdk/python/src/openai_codex/_goal.py:260-326 | one call of `process` on an open stream returns at most one event, and exactly one if it completes |
| GoalStream.OpenOutput | LangGraph architecture/openinterpreter/sdk/python/src/openai_codex/_goal.py:260-326 | until it ends, the stream has handed out the first turn start and every ordinary notification, once, in order, relabelled |
| GoalStream.CursorRecordsCarrier | LangGraph architecture/openinterpreter/sdk/python/src/openai_codex/_goal.py:273-300 | the completion that the cursor would use is the latest failed physical turn if any failed, otherwise the last completed one |
| GoalStream.StreamIsOneLogicalTurn | LangGraph architecture/openinterpreter/sdk/python/src/openai_codex/_goal.py:260-344 | the whole output is one logical turn: everything visible in order, then exactly one completion with the logical id, the first start, the carrier's outcome, the time from start to completion (zero if negative, the reported one if a time is unknown) and the method of the ending notification or turn/completed; or it raises because no goal event came |
| GoalStream.VisibleShape | LangGraph architecture/openinterpreter/sdk/python/src/openai_codex/_goal.py:196-222 | before its completion a stream shows no turn completion and no goal event, at most one turn start, and only the logical turn id |
| GoalStream.VisibleStep | LangGraph architecture/openinterpreter/sdk/python/src/openai_codex/_goal.py:260-312 | one more notification shows itself if and only if its payload is neither a turn boundary nor a goal event, or it is the first start of a turn |
| GoalSystem.RecordKeepsSync | LangGraph architecture/openinterpreter/sdk/python/src/openai_codex/_goal.py:55-87 | one more accepted notification keeps the reader no further than the cursor, and finishes the reader only if it also ends the cursor |
| GoalSystem.Reachable | LangGraph architecture/openinterpreter/sdk/python/src/openai_codex/_goal.py:347-396 | over every interleaving of the reader's steps (look up, observe, queue, check), the consumer and the controls: what is queued or about to be is what the reader accepted and the stream has not consumed, reader and cursor agree on it, and what was delivered is what the specification shows of what was consumed |
| GoalSystem.DrainClosesExactly | LangGraph architecture/openinterpreter/sdk/python/src/openai_codex/_goal.py:365-393 | a consumer that keeps asking closes its stream if and only if what is queued ends it |
| GoalSystem.NoStrandedStream | LangGraph architecture/openinterpreter/sdk/python/src/openai_codex/_message_router.py:199-202 | over every interleaving, once the reader has finished the goal or the route is gone, a consumer that keeps asking reaches the end without a further notification; it waits at most for the reader to queue the one it has observed |
| GoalSystem.NoStrandedStreamAtRest | LangGraph architecture/openinterpreter/sdk/python/src/openai_codex/_message_router.py:199-202 | and for nothing at all when the reader has none in hand |
| GoalTurns.ConcludedStreamIsWhole | LangGraph architecture/openinterpreter/sdk/python/src/openai_codex/_goal.py:365-393 | over every interleaving, a concluded stream delivered one logical turn of a prefix of the accepted notifications, under the id of the first turn accepted, with that turn as its start if the prefix has it, and left nothing pending |
| GoalTurns.UnfinishedStreamIsPrefix | LangGraph architecture/openinterpreter/sdk/python/src/openai_codex/_goal.py:365-375 | over every interleaving, a stream that has not concluded delivered every visible notification it consumed, under the id of the first turn accepted |
| GoalTurns.LogicalTurnIsTheFirst | LangGraph architecture/openinterpreter/sdk/python/src/openai_codex/_goal.py:63-68 | over every interleaving, the operation has the id of the first turn whose start was accepted, and that turn as its first one, and neither while there is none |
| GoalTurns.AcceptedExactlyWhen | LangGraph architecture/openinterpreter/sdk/python/src/openai_codex/_goal.py:57-62 | over every interleaving, what the reader found is accepted if and only if routing was activated before or it tells of the goal itself |
| GoalTurns.BeforeRouting | LangGraph architecture/openinterpreter/sdk/python/src/openai_codex/_goal.py:57-62 | before routing is activated only goal events are accepted and no turn is recorded |
| GoalTurns.RouteGoneExactlyWhen | LangGraph architecture/openinterpreter/sdk/python/src/openai_codex/_message_router.py:199-202 | over every interleaving without a transport failure, while the reader is not about to check it, the route is gone if and only if the operation has finished |
| GoalTurns.NothingWithoutRoute | LangGraph architecture/openinterpreter/sdk/python/src/openai_codex/_message_router.py:194-196 | without a route nothing more is accepted, whatever happens |
| GoalTurns.NoRequestAfterFinish | LangGraph architecture/openinterpreter/sdk/python/src/openai_codex/_goal.py:130-152 | over every interleaving, once the operation has finished and no interrupt is outstanding, none is requested any more |
| GoalTurns.ResolvesOnlyTheExpected | LangGraph architecture/openinterpreter/sdk/python/src/openai_codex/_goal.py:173-178 | an active turn reported by the server is adopted if and only if no turn or the expected one is current; nothing else changes |
| GoalTurns.NextIsRounds | LangGraph architecture/openinterpreter/sdk/python/src/openai_codex/_goal.py:365-385 | one call of the iterator is a number of rounds of the transition system with nothing in between, hands out what they deliver, and without an event raises, ends or waits on an empty queue |
| GoalSystem.ReportedFlagStaysExactlyWhen | LangGraph architecture/openinterpreter/sdk/python/src/openai_codex/_goal.py:137-152 | over every interleaving, the flag that a concluded stream reported is still the operation's later on if and only if it was set or no control has confirmed an interrupt since |
| GoalInterrupts.FlagFinalExactlyWhen | LangGraph architecture/openinterpreter/sdk/python/src/openai_codex/_goal.py:130-152 | no later control changes the interrupted flag if and only if it is already set, or the goal is finished and no control is outstanding |
| GoalInterrupts.FlagReadAfterFinishIsFinal | LangGraph architecture/openinterpreter/sdk/python/src/openai_codex/_goal.py:119-152 | with at most one interrupt outstanding, the flag read after `finish` once no request is pending never changes |
| GoalInterrupts.OverlappingControlsChangeTheFlag | LangGraph architecture/openinterpreter/sdk/python/src/openai_codex/_goal.py:143-152 | a concrete run in which two overlapping controls let the flag change after it was read |
| GoalObjects.GoalOperationState.TakeNote | LangGraph architecture/openinterpreter/sdk/python/src/openai_codex/_goal.py:63-78 | the fields that a notification changes before the operation is checked for its end; the logical id is that of the turn started, if there was none yet |
| GoalObjects.GoalOperationState.Observe | LangGraph architecture/openinterpreter/sdk/python/src/openai_codex/_goal.py:55-87 | the method is the reader's fold: same acceptance, same fields afterwards, and the notification is queued exactly if accepted |
| GoalObjects.GoalOperationState.FinishGoal | LangGraph architecture/openinterpreter/sdk/python/src/openai_codex/_goal.py:119-124 | finishing marks the operation finished and forgets the current turn, nothing else |
| GoalObjects.GoalOperationState.ExplicitInterrupt | LangGraph architecture/openinterpreter/sdk/python/src/openai_codex/_goal.py:148-152 | the flag is returned only when no interrupt is outstanding any more |
| GoalObjects.GoalStreamCursor.MakeCompletion | LangGraph architecture/openinterpreter/sdk/python/src/openai_codex/_goal.py:328-344 | the completion event is the logical turn made of the given physical completion with the flag read after the wait |
| GoalObjects.GoalStreamCursor.Process | LangGraph architecture/openinterpreter/sdk/python/src/openai_codex/_goal.py:260-326 | the method is the consumer's fold with its verdict, events, error and effect on the operation state |
| GoalObjects.GoalStreamCursor.ProcessCompleted | LangGraph architecture/openinterpreter/sdk/python/src/openai_codex/_goal.py:273-301 | a turn completion is handled as in the fold: interrupted, failed, goal mode missing, goal over, or going on |
| GoalObjects.GoalNotificationStream.Close | LangGraph architecture/openinterpreter/sdk/python/src/openai_codex/_goal.py:387-396 | closing finishes the operation, queues the sentinel and unregisters, once |
| GoalObjects.GoalNotificationStream.PullOne | LangGraph architecture/openinterpreter/sdk/python/src/openai_codex/_goal.py:369-374 | one round of the iterator takes one queued item and does what the transition system says, closing on completion, sentinel or error |
| GoalObjects.GoalNotificationStream.NextEvent | LangGraph architecture/openinterpreter/sdk/python/src/openai_codex/_goal.py:365-385 | the iterator step equals the transition system's: closed check first, then queue rounds until an event is pending |
| RouterConservation.MoveKeepsAccurate | LangGraph architecture/openinterpreter/sdk/python/src/openai_codex/_message_router.py:176-215 | a step that empties one place onto the end of another keeps every place holding exactly the notifications recorded for it |
| RouterConservation.MoveKeepsSound | LangGraph architecture/openinterpreter/sdk/python/src/openai_codex/_message_router.py:59-240 | a step that moves everything at one place to another where it belongs keeps the whole invariant apart from what the reader holds |
| RouterConservation.PutBreaksOrderExactly | LangGraph architecture/openinterpreter/sdk/python/src/openai_codex/_message_router.py:96-101 | a put while a replay is under way keeps arrival order if and only if nothing is left to be replayed |
| RouterConservation.DiscardKeepsInv | LangGraph architecture/openinterpreter/sdk/python/src/openai_codex/_message_router.py:207-212 | the completion of an unregistered turn discards itself and what is pending for that turn, and nothing else |
| RouterConservation.RegisterKeepsInv | LangGraph architecture/openinterpreter/sdk/python/src/openai_codex/_message_router.py:89-101 | registering moves everything pending for the id to the new queue's replay and keeps the invariant |
| RouterConservation.StepKeepsInv | LangGraph architecture/openinterpreter/sdk/python/src/openai_codex/_message_router.py:59-240 | every lock-level step keeps the invariant: every place holds exactly its notifications once, routes and pending ids are disjoint, queues are in order unless overtaken, losses are accounted for |
| RouterConservation.Reachable | LangGraph architecture/openinterpreter/sdk/python/src/openai_codex/_message_router.py:59-240 | the invariant holds after every sequence of steps in any interleaving |
| RouterDelivery.OneDestination | LangGraph architecture/openinterpreter/sdk/python/src/openai_codex/_message_router.py:176-215 | over every interleaving a notification is in exactly one place, once, and never in a queue of another turn, login or goal |
| RouterDelivery.RegisteredIdsHaveNothingPending | LangGraph architecture/openinterpreter/sdk/python/src/openai_codex/_message_router.py:89-101 | over every interleaving no turn or login id is registered and pending at the same time |
| RouterDelivery.ArrivalOrderExactlyWhen | LangGraph architecture/openinterpreter/sdk/python/src/openai_codex/_message_router.py:89-101 | a queue whose replay is done received its notifications in arrival order if and only if the reader put nothing into it during the replay |
| RouterDelivery.ReplayCanBeOvertaken | LangGraph architecture/openinterpreter/sdk/python/src/openai_codex/_message_router.py:100-101 | a concrete interleaving in which a later notification overtakes the replayed one |
| RouterDelivery.StepMovesForward | LangGraph architecture/openinterpreter/sdk/python/src/openai_codex/_message_router.py:176-215 | over every step a notification never goes back and never changes queue |
| RouterDelivery.RegisteredTurnMissesNothing | LangGraph architecture/openinterpreter/sdk/python/src/openai_codex/_message_router.py:89-107 | from its registration until it is unregistered, a turn's queue gets everything that was pending and everything that arrives for it, unless the goal operation of its thread takes it; not even completion or failure discards any of it |
| RouterDelivery.DiscardedOnlyByCompletion | LangGraph architecture/openinterpreter/sdk/python/src/openai_codex/_message_router.py:207-229 | a notification is discarded only by the completion of its own turn that arrived at or after it, and lost only by a transport failure |
| RouterDelivery.DiscardedWithoutQueue | LangGraph architecture/openinterpreter/sdk/python/src/openai_codex/_message_router.py:207-212 | the step that discards a notification routes the completion of its turn while no queue is registered for that turn |
| RouterDestinations.ToGoalExactlyWhen | LangGraph architecture/openinterpreter/sdk/python/src/openai_codex/_message_router.py:193-202 | over every interleaving, an arrival at an idle reader ends up in a goal's queue if and only if it completes no login, its payload names the thread that goal is registered for, the goal takes turns or the payload tells of the goal, and a turn is named or the method begins with thread/goal/ |
| RouterDestinations.ConcernedGoalObserves | LangGraph architecture/openinterpreter/sdk/python/src/openai_codex/_message_router.py:199-202 | that goal has then observed it and queued it last, and its route is gone if and only if it is over; nothing else has changed |
| RouterDestinations.LoginDestination | LangGraph architecture/openinterpreter/sdk/python/src/openai_codex/_message_router.py:179-189 | the completion of a login goes to the login's queue, or is kept for it |
| RouterDestinations.TurnDestination | LangGraph architecture/openinterpreter/sdk/python/src/openai_codex/_message_router.py:203-215 | what is for no login and concerns no goal goes to the queue of the turn that its payload names; without one the completion is discarded and anything else kept; what names no turn goes to the global queue |
| RouterDestinations.RegisteredGoal | LangGraph architecture/openinterpreter/sdk/python/src/openai_codex/_message_router.py:121-138 | a goal is registered for a thread without one, fresh and taking turns if told to, which activation makes it; a thread that has one keeps it |
| RouterDestinations.UnregisteredGoalHasNoRoute | LangGraph architecture/openinterpreter/sdk/python/src/openai_codex/_message_router.py:140-144 | unregistering a goal takes away the route that leads to it, if one does, and no other |
| RouterDestinations.UnregisteredIdHasNoRoute | LangGraph architecture/openinterpreter/sdk/python/src/openai_codex/_message_router.py:103-107 | an unregistered id has no route, every other id keeps its own, and no route leads to its queue any more |
| RouterDestinations.DetachedQueueIsClosed | LangGraph architecture/openinterpreter/sdk/python/src/openai_codex/_message_router.py:103-107 | over every further interleaving a queue without a route is given nothing but the rest of its replay |
| RouterDestinations.FailureIsFinal | LangGraph architecture/openinterpreter/sdk/python/src/openai_codex/_message_router.py:217-240 | when the transport fails nothing stays pending and no goal or login has a route, and nothing is taken from then on |
| RouterWaiters.StepKeepsInv | LangGraph architecture/openinterpreter/sdk/python/src/openai_codex/_message_router.py:37-49 | every step keeps each waiter in exactly one of: registered, in the reader's hand, answered, abandoned |
| RouterWaiters.Reachable | LangGraph architecture/openinterpreter/sdk/python/src/openai_codex/_message_router.py:151-174 | that holds after every sequence of create, discard, route and fail steps |
| RouterWaiters.ReaderNeverBlocks | LangGraph architecture/openinterpreter/sdk/python/src/openai_codex/_message_router.py:40-44 | over every interleaving a response queue receives at most one item and is empty when the reader is about to put one |
| RouterWaiters.FailureAnswersEveryWaiter | LangGraph architecture/openinterpreter/sdk/python/src/openai_codex/_message_router.py:217-233 | every waiter registered when the transport fails holds exactly one item when the reader is done |
| RouterWaiters.UniqueIdsAbandonNobody | LangGraph architecture/openinterpreter/sdk/python/src/openai_codex/_message_router.py:37-49 | if no request id is reused while waiting and nobody discards, no waiter is abandoned |
| RouterObjects.MessageRouter.RegisterTurn | LangGraph architecture/openinterpreter/sdk/python/src/openai_codex/_message_router.py:89-101 | registering an unknown turn is the registration step followed by the replay of all that was pending; a known one changes nothing |
| RouterObjects.MessageRouter.RegisterLogin | LangGraph architecture/openinterpreter/sdk/python/src/openai_codex/_message_router.py:59-69 | the same for a login attempt |
| RouterObjects.MessageRouter.ReplayInto | LangGraph architecture/openinterpreter/sdk/python/src/openai_codex/_message_router.py:100-101 | the replay puts what was pending into the new queue, oldest first |
| RouterObjects.MessageRouter.UnregisterTurn | LangGraph architecture/openinterpreter/sdk/python/src/openai_codex/_message_router.py:103-107 | unregistering removes the turn's route and nothing else |
| RouterObjects.MessageRouter.RegisterGoal | LangGraph architecture/openinterpreter/sdk/python/src/openai_codex/_message_router.py:121-138 | a goal route is registered unless its thread already has one |
| RouterObjects.MessageRouter.UnregisterGoal | LangGraph architecture/openinterpreter/sdk/python/src/openai_codex/_message_router.py:140-144 | a goal route is removed only if it is still the one registered for its thread |
| RouterObjects.MessageRouter.RouteNotification | LangGraph architecture/openinterpreter/sdk/python/src/openai_codex/_message_router.py:176-215 | routing one notification is the whole sequence of the reader's steps |
| RouterObjects.MessageRouter.OfferToGoal | LangGraph architecture/openinterpreter/sdk/python/src/openai_codex/_message_router.py:193-202 | the goal operation of the thread takes the notification if and only if a turn is named or the method is one of goals, and turns are routed to it or the payload tells of the goal; it loses its route if it has finished |
| RouterObjects.MessageRouter.RouteToTurn | LangGraph architecture/openinterpreter/sdk/python/src/openai_codex/_message_router.py:203-215 | without a turn id the notification goes to the global queue, else to the turn's queue, or it is kept or discarded |
| RouterObjects.MessageRouter.KeepOrDiscard | LangGraph architecture/openinterpreter/sdk/python/src/openai_codex/_message_router.py:208-214 | for a turn without a queue, a completion discards what was kept and anything else is kept |
| RouterObjects.MessageRouter.FailAllWaiting | LangGraph architecture/openinterpreter/sdk/python/src/openai_codex/_message_router.py:217-240 | failure clears routes and pending notifications as the transition system says, and names exactly the queues and operations that are told |
| RouterObjects.ResponseWaiters.CreateWaiter | LangGraph architecture/openinterpreter/sdk/python/src/openai_codex/_message_router.py:37-43 | a new empty queue is registered under the request id, replacing an earlier one |
| RouterObjects.ResponseWaiters.DiscardWaiter | LangGraph architecture/openinterpreter/sdk/python/src/openai_codex/_message_router.py:45-49 | the waiter of the request is removed if there is one |
| RouterObjects.ResponseWaiters.RouteResponse | LangGraph architecture/openinterpreter/sdk/python/src/openai_codex/_message_router.py:151-174 | the waiter of the request, if any, is removed and its queue then holds exactly the response |
| RouterObjects.ResponseWaiters.FailAllWaiters | LangGraph architecture/openinterpreter/sdk/python/src/openai_codex/_message_router.py:217-233 | every registered waiter's queue then holds exactly the failure and the others are unchanged |
| ThinkTags.StripSplits | LangGraph architecture/output_parser/cot_output_parser.py:145-176 | reading on after a text is reading from what it leaves behind, unless an opening tag is cut in two outside a block |
| ThinkTags.StraddleLengthens | LangGraph architecture/output_parser/cot_output_parser.py:145-176 | an opening tag cut in two outside a block lets more text through than stripping the whole does |
| ThinkTags.ScanKeepsValid | LangGraph architecture/output_parser/cot_output_parser.py:151-175 | the stripper is inside a block if and only if its depth is positive, and only then holds text back |
| ThinkTags.ChunkingLength | LangGraph architecture/output_parser/cot_output_parser.py:145-176 | stripping chunk by chunk equals stripping the whole text, or is strictly longer if an opening is cut |
| ThinkTags.ChunkingIndependentExactlyWhen | LangGraph architecture/output_parser/cot_output_parser.py:145-176 | the concatenated output equals the depth-counting strip of the whole text if and only if no cut goes through an opening tag outside a block |
| ThinkTags.CutOpeningIsHandedOut | LangGraph architecture/output_parser/cot_output_parser.py:145 | two concrete chunks that cut an opening tag and are handed out as text |
| ThinkTags.TagFreeHasNoStraddle | LangGraph architecture/output_parser/cot_output_parser.py:145 | a text without opening tags may be cut anywhere |
| ThinkDocuments.NestedBlocksAreStripped | LangGraph architecture/output_parser/cot_output_parser.py:145-176 | a text of properly nested think blocks is stripped to the words outside them; a block never closed hides what follows, a closing tag outside every block stays |
| ReactConservation.MatchersAgree | LangGraph architecture/output_parser/cot_output_parser.py:187-218 | when at most one matcher holds a partial match, at most one takes the character, and the others then hold nothing |
| ReactConservation.JsonStepKeeps | LangGraph architecture/output_parser/cot_output_parser.py:235-258 | inside a blob a character is added to the blob and nothing is handed out |
| ReactConservation.FeedKeeps | LangGraph architecture/output_parser/cot_output_parser.py:181-278 | one step hands out or still holds everything held or read, in order, unless a closed blob is overtaken or overwritten |
| ReactConservation.RunKeeps | LangGraph architecture/output_parser/cot_output_parser.py:181-278 | the same over any text without such a hazard |
| ReactConservation.HazardBreaks | LangGraph architecture/output_parser/cot_output_parser.py:220-229 | after such a hazard what is handed out and held is no longer the input |
| ReactConservation.ConservationExactlyWhen | LangGraph architecture/output_parser/cot_output_parser.py:181-285 | emitted text, blobs and swallowed prefixes in order, with the unfinished prefix appended, equal the input if and only if no closed blob is directly followed by an opening bracket or by a letter that may start a prefix |
| ReactConservation.HandedOutExactlyWhen | LangGraph architecture/output_parser/cot_output_parser.py:181-285 | what is handed out, with swallowed prefixes put back, is the whole input if and only if there is no such hazard and the stream does not end inside a prefix |
| ReactConservation.ShownExactlyWhen | LangGraph architecture/output_parser/cot_output_parser.py:181-285 | the consumer reads exactly the input if and only if moreover no prefix was swallowed |
| ReactInputs.BlobIsOverwritten | LangGraph architecture/output_parser/cot_output_parser.py:220-223 | a concrete input whose closed blob is lost to an opening bracket |
| ReactInputs.BlobIsOvertaken | LangGraph architecture/output_parser/cot_output_parser.py:214-218 | a concrete input whose closed blob is overtaken by a letter |
| ReactInputs.PartialPrefixIsDropped | LangGraph architecture/output_parser/cot_output_parser.py:280-285 | a concrete input that ends inside a prefix and yields nothing |
| ReactStates.StateIsDecidedByMarkers | LangGraph architecture/output_parser/cot_output_parser.py:104-113 | over every text, a swallowed prefix reads action:, finalanswer: or thought: in any case, and everything handed out is labelled as answer if and only if the last prefix before it of an answer or a thought is of an answer |
| ReactStates.StreamStateIsDecidedByMarkers | LangGraph architecture/output_parser/cot_output_parser.py:124-285 | the same over every stream of chunks |
| ReactStates.TakenExactlyWhen | LangGraph architecture/output_parser/cot_output_parser.py:95-108 | outside a blob a character is taken into a prefix if and only if it goes on with the one begun, or begins one behind a blank, a line end or at the very start |
| ReactStates.AnswerIsRecognised | LangGraph architecture/output_parser/cot_output_parser.py:95-108 | wherever a prefix may begin, a whole finalanswer: in any case is swallowed as one, and what follows is the answer |
| ReactStates.AnswerOfTheQuestion | LangGraph architecture/output_parser/cot_output_parser.py:181-278 | the events of one text with an answer |
| ReactConservation.OneMatcherAtATime | LangGraph architecture/output_parser/cot_output_parser.py:87-115 | at most one matcher ever holds a partial match, and none while a blob is held |
| ReactConservation.RunSplits | LangGraph architecture/output_parser/cot_output_parser.py:181-278 | the machine run on two texts one after the other is the machine run on their concatenation |
| JsonText.ReadsValue | LangGraph architecture/output_parser/cot_output_parser.py:239-253 | inside a bracket, a whole JSON value (sections 3 to 7 of RFC 8259) is added to the blob and leaves the bracket stack, string and escape flags as they were |
| JsonText.ScanIsExact | LangGraph architecture/output_parser/cot_output_parser.py:220-258 | entered at its opening bracket, the scanner closes exactly at the last character of an object or array text with that text collected, whatever follows |
| ReactStream.BlobIsExact | LangGraph architecture/output_parser/cot_output_parser.py:220-258 | wherever the machine is outside a blob, a whole object or array text becomes the blob, and only what a matcher held is handed out before it |
| ReactStream.ChunksRunTogether | LangGraph architecture/output_parser/cot_output_parser.py:124-278 | the outer loop over chunks is one run of the machine over the stripped chunks |
| ReactStream.EventsIndependentOfChunking | LangGraph architecture/output_parser/cot_output_parser.py:124-285 | the events depend only on the whole text as long as no cut goes through an opening tag outside a block |
| ReactStream.TagFreeEvents | LangGraph architecture/output_parser/cot_output_parser.py:124-285 | a text without opening tags may be cut anywhere and nothing is stripped from it |
| ReactObjects.Find | LangGraph architecture/output_parser/cot_output_parser.py:152-153 | the first position of a tag from an index on, or -1 if there is none |
| ReactObjects.ThinkStripper.ScanBuffer | LangGraph architecture/output_parser/cot_output_parser.py:146-176 | the scan loop returns the depth-counting strip of the buffer and leaves the depth and text held back that the specification says; it terminates |
| ReactObjects.ThinkStripper.StripChunk | LangGraph architecture/output_parser/cot_output_parser.py:145-176 | a chunk is scanned only if it has a tag or a block is open, with the result of scanning it always |
| ReactObjects.PrefixMatcher.Step | LangGraph architecture/output_parser/cot_output_parser.py:87-115 | the matcher's results, cache and last character are those of the specification for every character |
| ReactObjects.ReactParser.ScanJson | LangGraph architecture/output_parser/cot_output_parser.py:235-258 | the in-place bracket scanner does what the specification says of one character in a blob |
| ReactObjects.ReactParser.OfferAll | LangGraph architecture/output_parser/cot_output_parser.py:187-212 | the character is offered to the three matchers in turn, the first taker ending the step |
| ReactObjects.ReactParser.FeedChar | LangGraph architecture/output_parser/cot_output_parser.py:182-278 | one round of the inner loop equals one step of the machine |
| ReactObjects.ReactParser.HandleChunk | LangGraph architecture/output_parser/cot_output_parser.py:124-278 | one chunk is stripped and fed to the machine character by character |
| ReactObjects.HandleStream | LangGraph architecture/output_parser/cot_output_parser.py:124-285 | the whole generator yields the events of the specification |
| BusinessGraph.ConnectedIsAdjacent | backend/runtime/business_graph/graph.py:35-41 | in direction both, the collected ids are exactly those joined to the id by some edge |
| BusinessGraph.ConnectedExactly | backend/runtime/business_graph/graph.py:35-41 | in each direction the collected ids are exactly those that some edge leads to in it |
| BusinessGraph.NeighboursExactly | backend/runtime/business_graph/graph.py:35-43 | the connected nodes are exactly the existing nodes joined by an edge; dangling ends are left out |
| BusinessGraph.WalkMeetsQueue | backend/runtime/business_graph/resolver.py:20-32 | every walk from the start ends in a visited node or is at least as long as the head of the queue is far |
| BusinessGraph.HeadIsNearest | backend/runtime/business_graph/resolver.py:21-24 | an unvisited head of the queue is at shortest distance equal to its level |
| BusinessGraph.EmptyQueueIsComplete | backend/runtime/business_graph/resolver.py:20-34 | when the queue is empty, visited means reachable, in both directions |
| BusinessGraph.VisitKeepsInv | backend/runtime/business_graph/resolver.py:24-32 | visiting the head and queueing its unvisited neighbours keeps the search invariant, duplicates in the queue allowed |
| BusinessObjects.Graph.AddNode | backend/runtime/business_graph/graph.py:19-21 | a node is stored under its own id, replacing an earlier one |
| BusinessObjects.Graph.AddEdge | backend/runtime/business_graph/graph.py:26-33 | an edge is appended without checking its ends |
| BusinessObjects.Graph.GetConnectedNodes | backend/runtime/business_graph/graph.py:35-43 | the loop over the edges collects the existing nodes in edge order |
| BusinessObjects.UnvisitedNeighbours | backend/runtime/business_graph/resolver.py:30-32 | the ids appended to the queue are exactly the unvisited ones one hop away |
| BusinessObjects.ResolvePath | backend/runtime/business_graph/resolver.py:15-34 | the result is every reachable node of the wanted type exactly once and nothing else, in non-decreasing shortest distance; the loop ends although ids repeat in the queue |
| ServiceContainer.FailureHasChain | backend/core/services/container.py:27-42 | resolution fails only because of a dependency chain that leaves the registry or comes back to itself, and the error names its end |
| ServiceContainer.ChainCausesFailure | backend/core/services/container.py:27-42 | every such chain makes resolution fail |
| ServiceContainer.ResolvableExactlyWhen | backend/core/services/container.py:23-49 | resolution returns normally if and only if every service reachable through declared dependencies is registered and no chain of them comes back to itself |
| ServiceContainer.ErrorIsReal | backend/core/services/container.py:30-36 | a reported missing service is reachable and unregistered; a reported cycle is reachable and real |
| ServiceContainer.ResolveKeeps | backend/core/services/container.py:41-47 | resolution only appends to the log of starts and keeps it topological; after success everything reachable is up or was started |
| ServiceContainer.StartOrder | backend/core/services/container.py:41-47 | every start comes after all transitive dependencies are running or started, no service that comes up is started twice, and after success everything reachable was started or running |
| ServiceContainer.ResolvedAgainStartsNothing | backend/core/services/container.py:45-47 | once everything reachable is running, resolving again starts nothing |
| ServiceObjects.RuntimeServiceRegistry.Register | backend/core/services/registry.py:20-24 | the service is stored under its lower-case name and marked registered |
| Common.LowerSameExactlyWhen | backend/core/services/registry.py:20-34 | two names share an entry if and only if they differ at most in the case of ASCII letters |
| ServiceObjects.RuntimeServiceRegistry.Replace | backend/core/services/registry.py:50-57 | the old service is stopped, the new one stored and marked registered, all others untouched |
| ServiceObjects.RuntimeServiceRegistry.Unregister | backend/core/services/registry.py:60-68 | a stored service is removed; the result tells whether there was one |
| ServiceObjects.Container.ResolveWithDependencies | backend/core/services/container.py:23-49 | the recursive method has the specification's outcome: which services run, the log of starts, and the error or the service |
| ServiceObjects.Container.ResolveDependencies | backend/core/services/container.py:41-42 | the loop over declared dependencies stops at the first failure; the recursion ends because the path grows inside the registry |
| PlanExecutor.RoundKeeps | backend/runtime/plan_executor/executor.py:35-64 | one round of the step loop keeps the accounting; a rollback leaves index and completed steps as they were |
| PlanExecutor.LoopKeeps | backend/runtime/plan_executor/executor.py:35-64 | the loop keeps the accounting and never marks a run completed itself |
| PlanExecutor.EveryStepAccountedOnce | backend/runtime/plan_executor/executor.py:19-108 | over every sequence of execute, resume, skip and cancel calls, each step before the current one appears exactly once as completed or allowed failure, completed indices strictly increase, and completed means every step is accounted for |
| PlanOutcomes.RecordsAreTheReplies | backend/runtime/plan_executor/executor.py:53-60 | over every sequence of calls, the completed steps are those skipped or dispatched with success, in that order, and the failed ones those whose dispatch failed, in that order |
| PlanOutcomes.OutcomeIsTheReply | backend/runtime/plan_executor/executor.py:53-64 | over every sequence of calls, a step is completed if and only if it was skipped or its last dispatch succeeded, and failed if and only if some dispatch of it failed |
| PlanOutcomes.EveryCallTells | backend/runtime/plan_executor/executor.py:67-72 | after every call that runs the plan the status is cancelled if a cancellation was requested, else completed at the end of the plan, waiting before a step that asks for approval, and rolled back at a step whose dispatch, the last one, failed |
| PlanOutcomes.RequestAtRest | backend/runtime/plan_executor/executor.py:75-81 | over every sequence of calls no run is under way between two calls, and a request to cancel makes a waiting run cancelled and leaves any other status |
| PlanExecutor.CancelStopsDispatching | backend/runtime/plan_executor/executor.py:35-39 | a cancellation that arrives during a dispatch makes that dispatch the last, over every sequence of calls |
| PlanExecutor.CancelIsFinal | backend/runtime/plan_executor/executor.py:75-81 | once requested a cancellation is never withdrawn; every later call dispatches nothing and reports cancelled |
| PlanApproval.OwnerRunsAreGuarded | backend/runtime/plan_executor/step_runner.py:18-20 | in owner runs every dispatched step either asks for no approval or had its parameters approved before |
| PlanApproval.ApprovedBeforeDispatched | backend/runtime/plan_executor/step_runner.py:18-20 | in owner runs, if no two steps that ask for approval share their parameters, each of them is dispatched only after a resume at itself |
| PlanApproval.ApprovalKeptExactlyWhen | backend/runtime/plan_executor/step_runner.py:18-20 | for all adapters and all sequences of the owner's calls, no step that asks for approval is dispatched without a resume at itself, if and only if no two such steps share their parameters |
| PlanApproval.SkipsKeepApprovalExactlyWhen | backend/runtime/plan_executor/executor.py:96-108 | if the owner may also skip, that holds if and only if no step but the first asks for approval |
| PlanApproval.SharedParamsShareApproval | backend/runtime/planning.py:21-29 | a concrete run in which two steps with one parameter dictionary are dispatched after a single approval |
| PlanApproval.SkipBypassesApproval | backend/runtime/plan_executor/executor.py:96-108 | a concrete run in which skipping dispatches a step that asks for approval |
| PlanObjects.PlanRunner.RunStep | backend/runtime/plan_executor/step_runner.py:16-33 | the step pauses for approval exactly if its parameters ask for it and the role is owner; otherwise it is dispatched once |
| PlanObjects.PlanRunner.Cancel | backend/runtime/plan_executor/executor.py:75-81 | the request sets the flag and turns running into cancelling, waiting or paused into cancelled |
| PlanObjects.PlanRunner.RunRound | backend/runtime/plan_executor/executor.py:35-64 | one round of the loop does what the specification says, fields and trace |
| PlanObjects.PlanRunner.Record | backend/runtime/plan_executor/executor.py:53-64 | the step is recorded as completed if it succeeded and as failed if not, and the index moves on, or the run is rolled back |
| PlanObjects.PlanRunner.ExecutePlan | backend/runtime/plan_executor/executor.py:19-72 | the loop with its final status equals the specification |
| PlanObjects.PlanRunner.ResumeExecution | backend/runtime/plan_executor/executor.py:84-94 | resuming clears the approval flag in the current step's dictionary, for every step that shares it, and runs on |
| PlanObjects.PlanRunner.SkipStep | backend/runtime/plan_executor/executor.py:97-108 | skipping records the current step as completed and runs on as a customer |
| PlanObjects.RollbackHandler.RollbackLatest | backend/runtime/plan_executor/rollback.py:20-28 | rollback restores the index of the latest checkpoint, or 0 without one |
| Workflow.SomeEdgeEnabled | backend/runtime/graph.py:92-115 | every node but END has an enabled edge in every state, and it leads elsewhere |
| Workflow.WalkDescends | backend/runtime/engine.py:72-89 | each round uses up the retry budget or leads downwards in the planned graph, so the loop ends whatever the handlers do |
| Workflow.WalkIsPath | backend/runtime/engine.py:72-89 | a walk adds a path of the planned graph to the history; it pauses at POLICY before anything behind it exactly if confirmation is required |
| Workflow.RunsEndOrPause | backend/runtime/engine.py:68-93 | every run, on a fresh or earlier state, ends; it pauses at POLICY, having reached nothing behind it, if and only if the policy requires confirmation, and else completes at END; what it adds to the history is a path of the graph |
| Workflow.WalkExecutes | backend/runtime/engine.py:152-153 | a walk visits EXECUTE at most as often as the retry budget allows, and exactly that often if no verification succeeds |
| Workflow.ExecutionsAreBounded | backend/runtime/engine.py:72-93 | a run visits EXECUTE at most max(1, max_retries - retry_count) times, and exactly that often if no verification succeeds |
| WorkflowRetries.RunIsExactly | backend/runtime/engine.py:72-93 | without confirmation and errors, if the k-th verification of the run is the first to succeed, the run adds exactly OBSERVE to CAPABILITY_SELECT, min(bound, k) executions each verified with a retry in between (and one retry more if they all failed), then MEMORY, RESPONSE, END, with bound = max(1, max_retries - retry_count) |
| WorkflowRetries.ExecutesUntilVerified | backend/runtime/engine.py:72-93 | so EXECUTE is visited exactly min(bound, k) times and RETRY exactly min(bound, k-1) times |
| WorkflowRetries.BranchesLead | backend/runtime/graph.py:99-115 | where each of the four branching nodes leads in every state |
| WorkflowRetries.ApprovalHoldsExactlyWhen | backend/runtime/engine.py:72-89 | a walk from the approval node stays there, waiting, if and only if a confirmation is required |
| WorkflowObjects.WorkflowGraph.AddNode | backend/runtime/graph.py:67-70 | a node is added; its edges are kept if it was known and empty if not |
| WorkflowObjects.WorkflowGraph.AddEdge | backend/runtime/graph.py:72-90 | an edge is appended if both ends are nodes, and nothing changes otherwise |
| WorkflowObjects.WorkflowGraph.GetNextNode | backend/runtime/graph.py:92-97 | the loop returns the target of the first edge whose condition holds, or nothing |
| WorkflowObjects.AddedIsPlanned | backend/runtime/planner.py:44-68 | adding the planner's eighteen edges in order leaves every node with its planned edges in their order |
| WorkflowObjects.BuildWorkflowGraph | backend/runtime/planner.py:21-70 | the planner's successive calls all succeed and build the planned graph |
| WorkflowObjects.RuntimeState.TransitionTo | backend/runtime/state.py:67-78 | the old node is appended to the visited ones, the new one becomes current with its status and is appended to the history |
| WorkflowObjects.RuntimeState.RecordError | backend/runtime/state.py:80-87 | an error is recorded and counts as a retry |
| WorkflowObjects.RuntimeState.SaveCheckpoint | backend/runtime/state.py:89-112 | the named checkpoint holds the current node, visited nodes, status, pending action, retry count, data compartments and policy decision; nothing else changes |
| WorkflowObjects.RuntimeState.RestoreCheckpoint | backend/runtime/state.py:114-126 | restoring a known checkpoint brings back the current node, visited nodes, status, pending action and retry count and nothing else; an unknown one changes nothing |
| WorkflowCheckpoints.SavedIsRestoredExactlyWhen | backend/runtime/state.py:89-126 | restoring gives back what was saved if and only if data and policy decision have not changed since |
| WorkflowCheckpoints.StateIsRestoredExactlyWhen | backend/runtime/state.py:89-126 | restoring gives back the whole state if and only if moreover errors, verification report, history and retry limit have not changed |
| WorkflowCheckpoints.RunDecides | backend/runtime/engine.py:117-122 | after every run the policy decision is that of the policy handler |
| WorkflowCheckpoints.InitialPlanIsRestoredExactlyWhen | backend/runtime/engine.py:65-66 | going back to the initial plan after a run brings its policy decision back if and only if the run decided the same, and never the whole state |
| WorkflowCheckpoints.PolicyDecisionIsNotRestored | backend/runtime/state.py:114-126 | a fresh workflow, a run that asks for confirmation and a restore that leaves the decision in place although it was not in the plan |
| WorkflowObjects.Engine.ExecuteNode | backend/runtime/engine.py:105-153 | the handler's effect on status, retry count, policy and verification data is that of the specification |
| WorkflowObjects.Engine.Visit | backend/runtime/engine.py:73-89 | one round is transition, handler, and either a pause with a checkpoint or the next node |
| WorkflowObjects.Engine.Run | backend/runtime/engine.py:68-93 | the engine's loop on a freshly planned graph equals the specification's run, and the state in which it began is saved as the initial plan |
| ConfigTree.RebuildsValue | LangGraph architecture/openinterpreter/sdk/typescript/src/exec.ts:252-290 | inserting what a nested value pushes into nothing gives what is kept of the value, empty objects included |
| ConfigTree.RebuildsFields | LangGraph architecture/openinterpreter/sdk/typescript/src/exec.ts:276-289 | inserting what an object's entries push behind other entries appends what is kept of them, in order |
| ConfigTree.VanishingEmitsNothing | LangGraph architecture/openinterpreter/sdk/typescript/src/exec.ts:276-289 | a value pushes nothing if and only if it is undefined or a non-empty object all of whose entries push nothing |
| ConfigTree.PathsAreApart | LangGraph architecture/openinterpreter/sdk/typescript/src/exec.ts:276-289 | the pushed paths are distinct and none is a proper prefix of another |
| ConfigTree.KeptIsDefinedExactlyWhen | LangGraph architecture/openinterpreter/sdk/typescript/src/exec.ts:280-289 | only undefined entries are lost if and only if no nested non-empty object pushes nothing |
| ConfigText.LineRoundTrip | LangGraph architecture/openinterpreter/sdk/typescript/src/exec.ts:259-287 | a line is read back as the path and value it was written from |
| ConfigText.PlainRoundTrip | LangGraph architecture/openinterpreter/sdk/typescript/src/exec.ts:246-290 | with keys free of dots and equals signs, reading all lines back into an empty tree rebuilds what is kept of the tree |
| ConfigText.RoundTripExactlyWhen | LangGraph architecture/openinterpreter/sdk/typescript/src/exec.ts:246-290 | reading the lines back loses only undefined entries if and only if every key of a defined entry is free of dots and equals signs and no nested object is hollow |
| ConfigInputs.HollowObjectIsLost | LangGraph architecture/openinterpreter/sdk/typescript/src/exec.ts:271-282 | a concrete tree whose nested object of undefined entries leaves no line |
| ConfigInputs.DottedKeyIsSplit | LangGraph architecture/openinterpreter/sdk/typescript/src/exec.ts:283 | a concrete tree whose dotted key comes back as two keys |
| ConfigInputs.EqualsSignIsCut | LangGraph architecture/openinterpreter/sdk/typescript/src/exec.ts:287 | a concrete tree whose key with an equals sign loses its end to the value |
| ConfigText.LinesDoNotOverride | LangGraph architecture/openinterpreter/sdk/typescript/src/exec.ts:276-289 | with plain keys no line's path is another's or leads to it |
| ConfigText.Overrides.Flatten | LangGraph architecture/openinterpreter/sdk/typescript/src/exec.ts:252-290 | flattening fails exactly on an empty key, a value without TOML text or a root that is no object, and otherwise appends exactly the lines of the value |
| ConfigText.Overrides.FlattenEntries | LangGraph architecture/openinterpreter/sdk/typescript/src/exec.ts:276-289 | the loop over the entries appends the lines of all of them in order, or fails |
| ConfigText.Overrides.FlattenEntry | LangGraph architecture/openinterpreter/sdk/typescript/src/exec.ts:277-288 | an empty key fails even if its value is undefined; an undefined value is skipped; an object is flattened under its path, anything else is one line |
| BazelChecksums.SegmentsAreTheText | LangGraph architecture/openinterpreter/.github/scripts/rusty_v8_module_bazel.py:11 | cutting the text into blocks and other lines loses nothing |
| BazelChecksums.SegmentsExactly | LangGraph architecture/openinterpreter/.github/scripts/rusty_v8_module_bazel.py:11 | every block runs from its opening to the first closing line, and an opening outside every block has no closing line behind it |
| BazelChecksums.WrittenOver | LangGraph architecture/openinterpreter/.github/scripts/rusty_v8_module_bazel.py:179-187 | with a lowercase-hex checksum in the block, exactly the first one and the blank lines behind it make way for the new line, in the same indentation and the script's format |
| BazelChecksums.WrittenBehindPath | LangGraph architecture/openinterpreter/.github/scripts/rusty_v8_module_bazel.py:189-196 | without one, the new line goes behind the first path whose line ends with its comma, in its indentation, with a copy of the blank lines in front of the path |
| BazelChecksums.WritableExactlyWhen | LangGraph architecture/openinterpreter/.github/scripts/rusty_v8_module_bazel.py:179-194 | the checksum can be written if and only if the block has a lowercase-hex checksum or such a path |
| BazelUpdate.SelectedExactlyWhen | LangGraph architecture/openinterpreter/.github/scripts/rusty_v8_module_bazel.py:72-96 | a block is selected if and only if its first name field begins with the version's prefix |
| BazelChecksums.WritingKeeps | LangGraph architecture/openinterpreter/.github/scripts/rusty_v8_module_bazel.py:179-196 | writing a checksum keeps the block a block and its first name and path, and its first checksum is an earlier one if there is one, else the new one |
| BazelChecksums.WrittenIsReadExactlyWhen | LangGraph architecture/openinterpreter/.github/scripts/rusty_v8_module_bazel.py:179-196 | the written checksum is the one read back if and only if no sha256 field stands in front of it |
| BazelChecksums.WritingAgain | LangGraph architecture/openinterpreter/.github/scripts/rusty_v8_module_bazel.py:179-196 | writing the same checksum again changes nothing if and only if there was one to write over or no blank line follows the path |
| BazelUpdate.SpliceIsRenewed | LangGraph architecture/openinterpreter/.github/scripts/rusty_v8_module_bazel.py:208-217 | replacing entries by their offsets rewrites exactly the selected blocks |
| BazelUpdate.UpdateIsRenewed | LangGraph architecture/openinterpreter/.github/scripts/rusty_v8_module_bazel.py:199-217 | a successful update is the text with every selected block rewritten and every other line as it was, and is cut into the same blocks again |
| BazelUpdate.UpdateThenCheckExactlyWhen | LangGraph architecture/openinterpreter/.github/scripts/rusty_v8_module_bazel.py:166-217 | after a successful update the check finds no error if and only if in every selected block no sha256 field stands in front of the place of writing |
| BazelUpdate.UpdateThenCheck | LangGraph architecture/openinterpreter/.github/scripts/rusty_v8_module_bazel.py:166-217 | with lowercase-hex checksums in the selected blocks, the check passes after a successful update |
| BazelInputs.OtherChecksumIsNotReplaced | LangGraph architecture/openinterpreter/.github/scripts/rusty_v8_module_bazel.py:179-196 | a text with one selected block whose checksum is not lowercase hex: the update succeeds and the check then fails |
| BazelInputs.SecondUpdateRemovesBlank | LangGraph architecture/openinterpreter/.github/scripts/rusty_v8_module_bazel.py:180-196 | a text whose second update still removes a blank line |
| BazelUpdate.UpdateAgainExactlyWhen | LangGraph architecture/openinterpreter/.github/scripts/rusty_v8_module_bazel.py:199-217 | a second update succeeds and changes nothing if and only if every selected block had a lowercase-hex checksum or no blank line behind its path |
| BazelUpdate.ThirdUpdateChangesNothing | LangGraph architecture/openinterpreter/.github/scripts/rusty_v8_module_bazel.py:199-217 | a third update never changes anything |
| BazelMethods.HttpFiles | LangGraph architecture/openinterpreter/.github/scripts/rusty_v8_module_bazel.py:72-96 | the scan returns the entries of the version's blocks with their offsets, or fails if one has no path |
| BazelMethods.EntrySetErrors | LangGraph architecture/openinterpreter/.github/scripts/rusty_v8_module_bazel.py:111-138 | the problems are exactly the duplicate files, files without checksum and checksums without block; none if and only if blocks and manifest agree |
| BazelMethods.ChecksumErrors | LangGraph architecture/openinterpreter/.github/scripts/rusty_v8_module_bazel.py:141-157 | the mismatches are exactly the entries whose checksum is missing or differs; none if and only if all are right |
| BazelMethods.Check | LangGraph architecture/openinterpreter/.github/scripts/rusty_v8_module_bazel.py:166-176 | the check succeeds exactly if no problem and no mismatch exists |
| BazelMethods.UpdateText | LangGraph architecture/openinterpreter/.github/scripts/rusty_v8_module_bazel.py:199-217 | the loop over the entries returns the updated text of the specification, or fails as it does |
| PrWatch.SeenIsKnown | LangGraph architecture/openinterpreter/.codex/skills/babysit-pr/scripts/gh_pr_watch.py:561-604 | an item is in the seen sets if and only if it was offered, or seen from the beginning, and has not been pending since |
| PrWatch.SurfacedExactlyWhen | LangGraph architecture/openinterpreter/.codex/skills/babysit-pr/scripts/gh_pr_watch.py:532-605 | over any polls, an item is surfaced if and only if it is offered and was not offered before or has been pending since; and once per poll |
| PrWatch.SurfacedOnceUnlessPending | LangGraph architecture/openinterpreter/.codex/skills/babysit-pr/scripts/gh_pr_watch.py:564-591 | an item surfaced by two polls was pending in between |
| PrWatch.FirstOfferIsSurfaced | LangGraph architecture/openinterpreter/.codex/skills/babysit-pr/scripts/gh_pr_watch.py:567-599 | from a fresh state, an item is surfaced by the first poll that offers it |
| PrWatch.LastPendingExactlyWhen | LangGraph architecture/openinterpreter/.codex/skills/babysit-pr/scripts/gh_pr_watch.py:541-550 | the state of a review is that of the last one listed with its id |
| PrWatch.RetriesAreTheChancesUpToTheBudget | LangGraph architecture/openinterpreter/.codex/skills/babysit-pr/scripts/gh_pr_watch.py:739-791 | after any calls the count of a commit is the old count plus the calls that could rerun something, cut off at the budget |
| PrWatch.AllItems | LangGraph architecture/openinterpreter/.codex/skills/babysit-pr/scripts/gh_pr_watch.py:541-559 | the normalized items are exactly the published ones of the three lists |
| PrWatch.Watcher.ForgetPending | LangGraph architecture/openinterpreter/.codex/skills/babysit-pr/scripts/gh_pr_watch.py:564-565 | what is pending again is no longer seen, and nothing else is forgotten |
| PrWatch.Watcher.FetchNewReviewItems | LangGraph architecture/openinterpreter/.codex/skills/babysit-pr/scripts/gh_pr_watch.py:532-605 | the loop over all items surfaces each new one once and updates the three seen sets as the specification says |
| PrWatch.Watcher.RetryFailedNow | LangGraph architecture/openinterpreter/.codex/skills/babysit-pr/scripts/gh_pr_watch.py:739-791 | the failed runs with an id are rerun exactly if the guards and the budget allow it, and that counts as one retry |

## Left out

- GoalObjects.GoalOperationState.ExplicitInterrupt: the wait on the condition variable is one step in which the outstanding control confirms or cancels; blocking itself is not modelled.
- RouterObjects.MessageRouter.FailAllWaiting: the failure put into turn, login and goal queues is given as the sets of queues and operations that receive it, not as queue items.
- RouterObjects.MessageRouter.RouteNotification: the method runs the reader's steps without interruption; interleavings are the subject of the transition system in `Router`.
- ReactObjects.HandleStream: what `parse_action` makes of a blob (an action or the same text) is not interpreted; a recognised prefix is an event of its own, though the code yields nothing for it.
- ReactConservation.ConservationExactlyWhen: the unfinished prefix that the code drops at the end of the stream is appended; ReactConservation.HandedOutExactlyWhen counts it as lost.
- JsonText.ScanIsExact: numbers and literals are any text without quotes, brackets and braces, a superset of the grammar.
- ServiceObjects.RuntimeServiceRegistry.Unregister: the removal of a transient factory is left out, since factories are.
- WorkflowObjects.RuntimeState.SaveCheckpoint: request, intent and plan data are one opaque compartment, into which the modelled handlers write nothing; the execution id is left out.
- PlanObjects.RollbackHandler.RollbackLatest: the variant with a named checkpoint, which the executor never uses, is left out.
- ConfigText.LineRoundTrip: the TOML text of a leaf is opaque, and nothing interprets it; reading back is the insertion of dotted paths into an empty tree.
- BazelMethods.HttpFiles: the text is a list of classified lines; the regular expressions' reading of one line is not modelled, nor are fields spread over several lines, and a field's value is taken to be non-empty.
- BazelMethods.EntrySetErrors: the problems are a set; their order and wording are left out.
- PrWatch.Watcher.FetchNewReviewItems: whether an author is trusted is a flag of the item, and the sorting of the surfaced items is left out.
- PrWatch.Watcher.RetryFailedNow: one process at a time; a rerun command that fails half-way is not modelled.
- Lower-casing covers ASCII letters only (service names, node types, prefix letters).
- Login handles, thread and turn API wrappers, the asynchronous stream, timeouts and the waits for a first or active turn.
- List-shaped message contents and usage data of the parser's input, and its flag `pending_action_json`, which influences nothing.
- Transient service factories, event publishing, and what a service does when it starts, apart from whether it comes up.
- The parts of the workflow state that no edge condition reads, custom edge conditions, exceptions raised by handlers, and the reply the engine assembles at the end.  VERIFY, MEMORY and RESPONSE execute the plan again, so nothing is claimed about how often a plan's actions are performed.
- The manifest parser of the checksum script; its guarantee of 64 lowercase hex digits is the type of a checksum.
- Clocks, generated ids, the network, processes and files.

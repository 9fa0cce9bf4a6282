# A verified model of LspCpp's endpoint, framing, documents and paths

The project models the parts of the LspCpp library where concurrency, buffering and
encodings meet, and proves what the library promises about them.

* **The endpoint** (`src/jsonrpc/RemoteEndPoint.cpp`). One producer numbers frames, a
  pool parses them in any order, a reorder buffer restores arrival order, an ordered
  dispatcher runs notifications one at a time and parks requests behind them, handlers
  answer now or later. `Pipeline` is that life of a message as a step machine: every
  step is one mutex-protected block or one atomic access, and `Exec` runs an arbitrary
  list of steps, so each theorem of `EndpointTheorems` is about every interleaving,
  every handler outcome, every configuration of limits and any number of stop steps.
  `IntakeProof`, `GateProof`, `ReplyProof` and `OverloadProof` show what each step
  keeps. `Progress` adds what safety alone does not give: the session's own steps,
  however scheduled, come to an end, and only when nothing is left to do that its pools
  would still do. `Notifications`, `ReplyCauses` and `Discards` say of every run, step by
  step, which notifications are accepted and handled, which outcome put which reply on
  the wire, and what overloads discard or end; `AfterQuit` that a quitting session begins
  nothing new. `EndToEnd` puts the classification of documents in front of it all.
* **Cancellation** (`CancelRegistry`, `Recency`, `CancelHistory`, `CancelReach`): the
  registry with its pruned histories and retained cancelers, alone and over all runs.
* **Sending and stopping** (`Outgoing`, `SendSide`, `SendTheorems`, `SendRuns`, `SendEffects`): sessions, the
  output state that incoming messages carry, the send mutex, outgoing requests and the
  first part of a stop, over any number of restarts. `Shutdown` is the whole of a stop
  as far as waiting goes: the mutexes it holds and takes, and the threads it joins;
  `StopEffects` says what it has done when it returns.
* **Bytes** (`StdinReader`, `FrameFormat`, `Framing`, `HeaderBlocks`, `SessionOutput`): the buffered
  descriptor reader, the Content-Length framer on top of it, and the frame writer.
* **Documents** (`TextPosition`, `Utf8Text`, `WorkingFiles`): octet scans, their meaning
  on valid UTF-8 (section 3 of RFC 3629, section 2.1 of RFC 2781), edits and the cached
  line index.
* **Paths** (`FileUri`, `UriLaws`, `PathNormalizer`, `PathLaws`): the file URI codec
  (sections 2.1 and 2.3 of RFC 3986, section 2 of RFC 8089) and the path normaliser, POSIX
  build.

State that the library updates in place is a class here. The methods of the router, the
dispatcher, the cancellation registry and the table of outgoing requests are proved equal
to functions on values (`ensures Model() == old(...)`), and the step machines use those
same functions, so what is proved of runs is proved of the methods' effect; the one loop
that a machine takes in single steps is tied to its method by `FailingIsCompleteAll`. The
reader, the framer, the session output and the documents have contracts of their own,
stated on their abstract contents.

## What the proofs found

* *A reply can be doubled.* The request wrappers send a handler's value inside the `try`
  block whose `catch` sends an internal error. If the output's write throws after its
  bytes have left (its flush fails, say), the request is answered twice.
  `TwoRepliesExactlyWhen` makes this the only exception, `AnsweredTwice` shows that any
  running request of an open session can meet it, and `LateWriteFailureAnswersTwice`
  gives a run.
* *Parse slots leak.* A parse task destroyed unrun by a stop never returns its slot, and
  no restart resets `parse_queue_size`. `SlotsComeBackExactlyWhen` is the exact
  condition, `SlotsAreAccountedFor` the count, `StopCanLeakASlot` a run, and
  `NoGapBlocksRouting` says what is left for later sessions.
* *A stop can hang.* It holds `lifecycle_mutex` while it joins the dispatcher and the
  producer, takes `route_dispatch_mutex` and runs callbacks of pending requests. It hangs
  if a notification handler calls `isWorking` or `cancelRequest` meanwhile
  (`AskingHandlerHangs`), and always when an overload found while routing stops the
  endpoint under StopProcessing (`RoutingOverloadHangs`). `StopReturnsExactlyWhen` is the
  exact condition in every reachable state, `HangsExactlyWhen` names the steps that bring
  it about.
* *An automatic number can displace a request.* An outgoing request without an id takes
  the next number without looking whether an explicit id uses it. `DisplacesExactlyWhen`
  is the exact condition, `DisciplineDisplacesNothing` the discipline that avoids it.
* *A timeout withdraws by id.* It removes whatever request holds the id at that time.
  `TimeoutWithdrawsExactly` and `TimeoutHitsAnotherExactlyWhen` say when that is the
  waiter's own request and when it is another, `TimeoutCanWithdrawAnother` gives a run.
* *Positions past the end of their line lose their order*, because `character` is not
  clamped. `OrderKeptExactlyWhen` is the exact condition, `PastTheLineBreaksOrder` an
  example.
* *Not every path survives the URI trip.* `RoundTripExactly` says which do: absolute
  paths with one leading slash, and `//host...` with a host that is neither empty nor
  localhost. Relative and drive paths come back with a slash in front.
* *A retained entry can go too early.* Releasing the last handle of an instance removes
  its canceler even while its context is live, so a cancel that comes after an async
  handler's completion but before the end of its context reaches nobody.
  `RegisteredExactlyWhen` is the exact condition, `EarlyReleaseLosesTheEntry` a run.
* A document opened for the first time gets version 0, whatever version the client sent
  (`OpenFiles.OnOpen`).

## Model

| member | source | states |
|---|---|---|
| `Classify.RequestsSurviveParsing` | src/jsonrpc/RemoteEndPoint.cpp:1285-1467 | a frame leads to something that must be answered under an integer or string id exactly when it is a JSON-RPC 2.0 request with such an id; the id survives, and it reaches a handler exactly when its typed parser accepts it |
| `Classify.ClassifiedExactly` | src/jsonrpc/RemoteEndPoint.cpp:1285-1467 | which document becomes a request, either error reply, a cancel, a concurrent or an ordered notification, each as an equivalence over its members, the parser's outcome and the declared methods; ids survive |
| `Classify.RespondsExactly` | src/jsonrpc/RemoteEndPoint.cpp:1351-1463 | which document answers which pending outgoing request, as an equivalence |
| `Reorder.DrainTakesTheRun` | src/jsonrpc/RemoteEndPoint.cpp:484-499 | draining hands out exactly the consecutive run from the next number, in order, stops at the first missing number and leaves the rest untouched |
| `Reorder.Router.SubmitParsedMessage` | src/jsonrpc/RemoteEndPoint.cpp:441-514 | one submission: the new buffer, the ready messages and the overload verdict, for every policy; nothing once quitting |
| `Reorder.Router.TakeRun` | src/jsonrpc/RemoteEndPoint.cpp:488-498 | the loop computes the specified drain |
| `Reorder.Router.Reset` | src/jsonrpc/RemoteEndPoint.cpp:426-432 | routing resumes empty at the producer's next number |
| `Reorder.Router.Clear` | src/jsonrpc/RemoteEndPoint.cpp:434-439 | the buffer is forgotten, the position kept |
| `Dispatch.ParksExactlyBehindActive` | src/jsonrpc/RemoteEndPoint.cpp:568-571 | the gate test sends a request to the parking list if and only if an accepted notification is still queued or in flight |
| `Dispatch.ReleaseIsPrefix` | src/jsonrpc/RemoteEndPoint.cpp:643-658 | with sorted gates a release takes exactly a prefix of the parked list, in order, and keeps the rest |
| `Dispatch.NothingStranded` | src/jsonrpc/RemoteEndPoint.cpp:643-672 | each parked request's gate is queued or in flight, gates do not decrease, an idle dispatcher has nothing parked |
| `Dispatch.NotificationKeepsInv` | src/jsonrpc/RemoteEndPoint.cpp:718-761 | accepting a newer notification keeps the dispatcher invariant |
| `Dispatch.RequestKeepsInv` | src/jsonrpc/RemoteEndPoint.cpp:763-812 | routing a request keeps the dispatcher invariant |
| `Dispatch.CompleteKeepsInv` | src/jsonrpc/RemoteEndPoint.cpp:842-849 | publishing a completion keeps the invariant and releases a prefix whose gates it satisfies |
| `Dispatch.OrderedDispatcher.NotificationArrives` | src/jsonrpc/RemoteEndPoint.cpp:718-761 | the queue, gate and verdict after a notification arrives |
| `Dispatch.OrderedDispatcher.RequestArrives` | src/jsonrpc/RemoteEndPoint.cpp:763-812 | post, park or overload, and the parking list afterwards |
| `Dispatch.OrderedDispatcher.TakeNext` | src/jsonrpc/RemoteEndPoint.cpp:818-828 | the oldest queued notification goes to the handler |
| `Dispatch.OrderedDispatcher.PublishCompletion` | src/jsonrpc/RemoteEndPoint.cpp:842-849 | the erasing loop leaves the requests whose gate is not satisfied and releases the others, both in order |
| `Dispatch.OrderedDispatcher.StopDispatching` | src/jsonrpc/RemoteEndPoint.cpp:695-702 | stopping empties queue and parking list |
| `Pipeline.TwiceExactlyAfterLateFailure` | include/LibLsp/JsonRpc/RemoteEndPoint.h:644-817 | a wrapper sends two replies if and only if sending a returned value threw after its bytes left and the error reply went out |
| `HandlerWrappers.Responder.SendMessage` | src/jsonrpc/RemoteEndPoint.cpp:1236-1249 | one reply on an open session, nothing and no exception on a closed one |
| `HandlerWrappers.Responder.Answer` | include/LibLsp/JsonRpc/RemoteEndPoint.h:697-720 | what the try and catch blocks put on the session, for every handler result and every way the writes can fail |
| `ReplyCauses.EmittedExactly` | include/LibLsp/JsonRpc/RemoteEndPoint.h:697-720 | which bodies leave for which handler result and which write failures, as an equivalence: results only for values, handler errors only for error values and request errors, internal errors only for other exceptions and failed writes |
| `ReplyCauses.BodiesExactly` | include/LibLsp/JsonRpc/RemoteEndPoint.h:697-817 | the same for every outcome, also without a handler and for asynchronous handlers that throw |
| `ReplyCauses.RepliedExactlyWhen` | src/jsonrpc/RemoteEndPoint.cpp:1675-1703 | in every run a reply is on the wire if and only if some step, on an open session, finished its request with an outcome that has this body, or routed the error that parsing prepared |
| `ReplyCauses.RepliesFitTheirFrames` | src/jsonrpc/RemoteEndPoint.cpp:1512-1553 | in every run a reply to a rejected frame carries the code of the rejection, and a reply to a request comes from a step that finished that request |
| `ReplyCauses.StepHoldsRequests` | src/jsonrpc/RemoteEndPoint.cpp:763-812 | every step keeps: whatever waits for, or is with, a handler is a request |
| `HandlerWrappers.Responder.Poll` | include/LibLsp/JsonRpc/RemoteEndPoint.h:644-688 | an unfinished future is kept and sends nothing, a finished one is answered once and is done |
| `IntakeProof.StepKeepsIntake` | src/jsonrpc/RemoteEndPoint.cpp:441-548 | every step keeps: each assigned number in one place, routing in order, contents unaltered, bounds respected |
| `GateProof.StepKeepsGated` | src/jsonrpc/RemoteEndPoint.cpp:718-852 | every step keeps: notifications run in order, each posted or released request has all older notifications handled |
| `ReplyProof.StepConserves` | src/jsonrpc/RemoteEndPoint.cpp:1512-1553 | every step keeps: each routed request is in one place, plus one reply per late write failure |
| `ReplyProof.StepKeepsIds` | src/jsonrpc/RemoteEndPoint.cpp:1675-1703 | every step keeps: each reply answers a request and carries its id |
| `EndpointTheorems.EveryRunKeepsInv` | src/jsonrpc/RemoteEndPoint.cpp:1750-1789 | all of these invariants hold after every run of a session, from any starting number |
| `EndpointTheorems.RoutingIsInOrderAndComplete` | src/jsonrpc/RemoteEndPoint.cpp:441-550 | in every run routing gets start, start+1, ... without gap, repeat or inversion; each assigned number is in exactly one stage; every buffered number lies beyond the next one to route |
| `EndpointTheorems.NoGapBlocksRouting` | src/jsonrpc/RemoteEndPoint.cpp:1105-1131 | in every run, with no number in hand and no parse task outstanding the reorder buffer is empty and everything assigned is routed; non-blank buffered messages and parse slots stay within their limits, less the leaked slots |
| `EndpointTheorems.RequestsFollowOlderNotifications` | src/jsonrpc/RemoteEndPoint.cpp:718-852 | in every run ordered notifications are handled one at a time in increasing order, and a posted request has every older accepted notification handled |
| `Notifications.AcceptedExactlyWhen` | src/jsonrpc/RemoteEndPoint.cpp:718-761 | in every run a notification is accepted if and only if it was routed as an ordered one, and not while quitting, stopped or with the queue at its nonzero limit |
| `Notifications.EveryNotificationIsHandled` | src/jsonrpc/RemoteEndPoint.cpp:814-852 | once quiescent, healthy and without a limit on notifications, the handlers that have run are exactly those of all ordered notifications that arrived and were not discarded before routing, in order |
| `Notifications.EveryAcceptedIsHandled` | src/jsonrpc/RemoteEndPoint.cpp:814-852 | with a limit, exactly those of the accepted ones, in order |
| `EndpointTheorems.NoRequestIsStranded` | src/jsonrpc/RemoteEndPoint.cpp:643-672 | in every run each parked request waits for a queued or running notification, in gate order; none is parked when nothing is active |
| `EndpointTheorems.EachRequestIsInOnePlace` | src/jsonrpc/RemoteEndPoint.cpp:763-852 | in every run a routed request is exactly one of parked, being released, posted, running, awaiting its future, dropped by overload, suppressed by stopping, or answered |
| `EndpointTheorems.AtMostOneReply` | include/LibLsp/JsonRpc/RemoteEndPoint.h:644-817 | in every reachable state a request has at most one reply, carrying its id, if and only if no late write failure was answered again; never more than two |
| `EndpointTheorems.TwoRepliesExactlyWhen` | include/LibLsp/JsonRpc/RemoteEndPoint.h:644-817 | in every run a request has two replies if and only if some step of the run, with the session open, sent its handler's value with a write that threw late and then the internal error |
| `EndpointTheorems.ExactlyOneReply` | src/jsonrpc/RemoteEndPoint.cpp:1675-1703 | once quiescent, with no stop and a working output, exactly the requests that arrived and were not discarded by an overload have one reply each, and nothing else has any |
| `OverloadProof.StepKeepsBlanks` | src/jsonrpc/RemoteEndPoint.cpp:468-483 | every step keeps: a message discarded by DropNewest travels on as a placeholder and never as itself |
| `Discards.BlankedExactlyWhen` | src/jsonrpc/RemoteEndPoint.cpp:468-483 | in every run a message becomes a placeholder if and only if, under DropNewest, it found all parse slots taken or the reorder buffer at its nonzero limit |
| `Discards.DroppedExactlyWhen` | src/jsonrpc/RemoteEndPoint.cpp:780-800 | in every run a request is dropped if and only if it had to wait for a notification and found the parking list at its nonzero limit |
| `Discards.QuitExactlyWhen` | src/jsonrpc/RemoteEndPoint.cpp:220-231 | in every run the session is quitting if and only if it was told to or met an overload of any of the four kinds under StopProcessing |
| `Discards.ClosedExactlyWhen` | src/jsonrpc/RemoteEndPoint.cpp:1050-1062 | in every run the output is closed if and only if it failed or a stop deactivated or reset it |
| `Discards.ClearingClears` | src/jsonrpc/RemoteEndPoint.cpp:434-439 | clearing routing empties the reorder buffer |
| `Discards.NothingRoutedAfterClear` | src/jsonrpc/RemoteEndPoint.cpp:454-457 | once a stop has cleared routing nothing is buffered or routed in any continuation |
| `AfterQuit.NothingBeginsOnceQuitting` | src/jsonrpc/RemoteEndPoint.cpp:573-598 | in every continuation of a quitting session no request is posted, parked, started or deferred and no notification accepted; what is with the handlers only becomes less |
| `AfterQuit.StoppedQueueIsEmpty` | src/jsonrpc/RemoteEndPoint.cpp:1014-1037 | in every run, once the completion loop is stopped its queue is empty and stays so |
| `Progress.InternalStepWorks` | src/jsonrpc/RemoteEndPoint.cpp:814-852 | every step the session takes by itself strictly reduces the work left, in every state |
| `Progress.EveryScheduleEnds` | src/jsonrpc/RemoteEndPoint.cpp:814-852 | no livelock: any interleaving of the session's own steps is at most as long as the work there was |
| `Progress.HandledIsRequest` | src/jsonrpc/RemoteEndPoint.cpp:1675-1703 | in every run whatever is with a handler is a request that expects a reply |
| `Progress.StuckExactlyWhenSettled` | src/jsonrpc/RemoteEndPoint.cpp:1092-1102 | no deadlock: in every reachable state, also while stopping, the session's own steps halt if and only if nothing is left to do, or nothing but queued tasks of stopped pools |
| `Progress.StuckExactlyAtRest` | src/jsonrpc/RemoteEndPoint.cpp:643-672 | until the pools are stopped, they halt if and only if nothing is left to do |
| `Progress.CanSettle` | src/jsonrpc/RemoteEndPoint.cpp:942-999 | from every reachable state any begun schedule can be completed until the session has settled |
| `Progress.CanComeToRest` | src/jsonrpc/RemoteEndPoint.cpp:942-999 | until the pools are stopped it can be completed to rest |
| `Progress.EveryRequestIsAnswered` | src/jsonrpc/RemoteEndPoint.cpp:1512-1553 | under DropNewest, without stop or output failure, every maximal schedule ends with exactly the requests not discarded by an overload answered once |
| `Progress.NothingDiscardedWithoutLimits` | include/LibLsp/JsonRpc/RemoteEndPoint.h:33-57 | with all limits zero no run discards anything |
| `EndToEnd.EveryBodyFits` | src/jsonrpc/RemoteEndPoint.cpp:1285-1553 | in every run, at any time, each reply to a JSON-RPC request says what happened to it: method not found, invalid parameters, or the body of an outcome with which its handler finished |
| `EndToEnd.EveryDocumentIsAnswered` | src/jsonrpc/RemoteEndPoint.cpp:1285-1553 | whatever JSON documents arrive: once quiescent, without stop and with a working output, each JSON-RPC 2.0 request with an integer or string id that no overload discarded has exactly one reply, under its own id and with a body that fits, and no document that is not a request has any |
| `EndToEnd.EveryScheduleAnswersTheDocuments` | src/jsonrpc/RemoteEndPoint.cpp:1285-1553 | the same after every maximal schedule of the session's own steps, under DropNewest or without limits |
| `EndpointExamples.AnsweredTwice` | include/LibLsp/JsonRpc/RemoteEndPoint.h:699-720 | in any open session a running request whose value write fails late gets two replies |
| `EndpointExamples.LateWriteFailureAnswersTwice` | include/LibLsp/JsonRpc/RemoteEndPoint.h:699-720 | a whole run that ends with two replies to one request |
| `EndpointTheorems.SlotsAreAccountedFor` | src/jsonrpc/RemoteEndPoint.cpp:516-548 | after every run the slots in use are those of the outstanding tasks, those leaked before, and one for each task destroyed unrun |
| `EndpointTheorems.SlotsComeBackExactlyWhen` | src/jsonrpc/RemoteEndPoint.cpp:528-538 | every slot taken in a run comes back if and only if no step of the run destroys a queued parse task |
| `EndpointExamples.StopCanLeakASlot` | src/jsonrpc/RemoteEndPoint.cpp:528-538 | a run after which no task is left but a parse slot is still taken |
| `EndpointTheorems.AbandonedNeverShrinks` | src/jsonrpc/RemoteEndPoint.cpp:234-237 | no step of any run gives back the slot of an abandoned task |
| `Recency.PruneKeepsNewest` | src/jsonrpc/RemoteEndPoint.cpp:128-162 | pruning keeps exactly the newest live records and respects the limit |
| `Recency.RecordRefinesRecencyList` | src/jsonrpc/RemoteEndPoint.cpp:114-126 | recording is "move to the newest end and keep the newest": table keys are exactly the most recently recorded live ids, at most the limit, whatever stale records are queued |
| `Recency.ConsumeRefinesRemoval` | src/jsonrpc/RemoteEndPoint.cpp:279-288 | consuming an id removes it from the recency list and nothing else, leaving a stale record behind |
| `CancelRegistry.RequestCancellationRegistry.PrunePendingCancels` | src/jsonrpc/RemoteEndPoint.cpp:128-144 | the loop computes the specified pruning |
| `CancelRegistry.RequestCancellationRegistry.PruneSeenRequests` | src/jsonrpc/RemoteEndPoint.cpp:146-162 | the loop computes the specified pruning |
| `CancelRegistry.RequestCancellationRegistry.RecordPendingCancel` | src/jsonrpc/RemoteEndPoint.cpp:114-119 | the pending history gains the record and is pruned; nothing else changes |
| `CancelRegistry.RequestCancellationRegistry.RecordSeenRequest` | src/jsonrpc/RemoteEndPoint.cpp:121-126 | the seen history gains the record and is pruned; nothing else changes |
| `CancelRegistry.RequestCancellationRegistry.CancelArrives` | src/jsonrpc/RemoteEndPoint.cpp:241-259 | a cancel reaches the registered instance or is remembered if newer |
| `CancelRegistry.RequestCancellationRegistry.TakePendingCancel` | src/jsonrpc/RemoteEndPoint.cpp:279-288 | a remembered cancel is used up, and applies unless it is older than a reused id |
| `CancelRegistry.RequestCancellationRegistry.Register` | src/jsonrpc/RemoteEndPoint.cpp:276-278 | the new instance takes over the id under a fresh cookie; nothing else changes |
| `CancelRegistry.RequestCancellationRegistry.BeginRequest` | src/jsonrpc/RemoteEndPoint.cpp:265-298 | a new instance takes over its id under a fresh cookie, cancelled at once if a remembered cancel applies |
| `CancelRegistry.RequestCancellationRegistry.ContextEnds` | src/jsonrpc/RemoteEndPoint.cpp:302-318 | scope exit removes the entry only if it is this instance's and not retained |
| `CancelRegistry.RequestCancellationRegistry.RetainCancellation` | src/jsonrpc/RemoteEndPoint.cpp:321-334 | the instance now registered gains a retainer; without one nothing changes |
| `CancelRegistry.RequestCancellationRegistry.HandleReleased` | src/jsonrpc/RemoteEndPoint.cpp:336-357 | the last release removes count and entry, an earlier one only counts down |
| `CancelRegistry.RequestCancellationRegistry.CancelAll` | src/jsonrpc/RemoteEndPoint.cpp:1063-1080 | every registered instance is cancelled, everything is forgotten |
| `CancelRegistry.CancelersAreOwned` | src/jsonrpc/RemoteEndPoint.cpp:265-359 | in every run each canceler belongs to a live context or a retained instance with that many handles; with all contexts ended and handles released none is registered |
| `CancelRegistry.CleanupSparesOtherInstances` | src/jsonrpc/RemoteEndPoint.cpp:302-357 | cleaning up one instance leaves every other instance's entry, also under the same id |
| `CancelReach.CancelledExactlyWhen` | src/jsonrpc/RemoteEndPoint.cpp:241-298 | in every run an instance is cancelled if and only if a cancel of its id came while it was registered, the endpoint stopped while it was registered, or a remembered cancel applied at its start |
| `CancelReach.RegisteredExactlyWhen` | src/jsonrpc/RemoteEndPoint.cpp:265-357 | in every run an instance is registered if and only if it is the newest of its id since the last stop, its context is live or a handle is outstanding, and its last handle has not been released before |
| `CancelReach.RetainCountsHandles` | src/jsonrpc/RemoteEndPoint.cpp:321-357 | in every run the retain count of an instance started since the last stop is the number of its outstanding handles |
| `CancelReach.EarlyReleaseLosesTheEntry` | src/jsonrpc/RemoteEndPoint.cpp:340-355 | a run in which a cancel does not reach a request whose context is live |
| `CancelHistory.UnlimitedHistoryIsComplete` | src/jsonrpc/RemoteEndPoint.cpp:241-298 | with unlimited history the tables remember, for every run and id, the newest cancel still pending and whether the id was started |
| `CancelHistory.StartsCancelledExactlyWhen` | src/jsonrpc/RemoteEndPoint.cpp:265-298 | after every run a request starts cancelled if and only if some pending cancel of its id is later than it, or is pending and the id was never started |
| `CancelHistory.LaterCancelTakesEffect` | src/jsonrpc/RemoteEndPoint.cpp:279-288 | a later cancel that met no instance cancels the request at its start |
| `CancelHistory.OlderCancelSparesReuse` | src/jsonrpc/RemoteEndPoint.cpp:281-287 | cancels older than a reused id do not cancel the reuse |
| `CancelHistory.HistoriesAreRecencyLists` | src/jsonrpc/RemoteEndPoint.cpp:114-162 | in every run with distinct sequence numbers both histories hold exactly the ids of an ideal bounded recency list |
| `Outgoing.CompleteAllRunsEachOnce` | src/jsonrpc/RemoteEndPoint.cpp:926-940 | completing a list runs the callback of each listed request that has not completed once, and no other |
| `Outgoing.PendingRequests.PendingRequest` | src/jsonrpc/RemoteEndPoint.cpp:854-881 | refusal at the limit or on a used explicit id, otherwise registration under the explicit or next id |
| `Outgoing.PendingRequests.RemoveMatching` | src/jsonrpc/RemoteEndPoint.cpp:902-912 | only the expected request itself is removed |
| `Outgoing.PendingRequests.Finish` | src/jsonrpc/RemoteEndPoint.cpp:52-88 | the first completion runs the callback, later ones do nothing |
| `Outgoing.PendingRequests.FailAll` | src/jsonrpc/RemoteEndPoint.cpp:913-941 | the table is emptied and exactly the requests it held are completed |
| `SendSide.StepKeepsSessions` | src/jsonrpc/RemoteEndPoint.cpp:1038-1062 | every step keeps: only the current session has its output, and nobody holds the send mutex for a session whose output is gone |
| `SendTheorems.RepliesStayInTheirSession` | src/jsonrpc/RemoteEndPoint.cpp:1519-1524 | in every run whatever answers a message is written to the stream of the session that was current when the message was routed, through parking, pool, handler, async completion and restarts |
| `SendTheorems.StepKeepsReplies` | src/jsonrpc/RemoteEndPoint.cpp:1217-1224 | every step keeps: each carried, running or deferred message has the output state of the session it was routed in, and so has a send on its behalf |
| `SendTheorems.WritesStayInTheirSession` | src/jsonrpc/RemoteEndPoint.cpp:1217-1249 | across stops and restarts everything sent with a session's state goes to that session's stream |
| `SendTheorems.NoWriteAfterReset` | src/jsonrpc/RemoteEndPoint.cpp:1050-1062 | once a session's output is reset no later step of any run writes to it |
| `SendTheorems.StepKeepsInv` | src/jsonrpc/RemoteEndPoint.cpp:1584-1624 | every step keeps: each outgoing request is registered, under way to its callback, withdrawn, displaced, dropped or run once; the table is empty after the sweep |
| `SendTheorems.CallbackRunsAtMostOnce` | src/jsonrpc/RemoteEndPoint.cpp:600-641 | in every run a callback runs at most once |
| `SendTheorems.StopCompletesRequests` | src/jsonrpc/RemoteEndPoint.cpp:1038-1085 | whenever the endpoint is stopped, a request with an immediate callback has run it exactly once if and only if it was neither withdrawn nor displaced |
| `SendEffects.CallbackRunsExactlyWhen` | src/jsonrpc/RemoteEndPoint.cpp:600-641 | over any number of restarts: once settled a callback, deferred or not, has run once if and only if a response was routed while its request held its id and the session worked, or a stop found it registered, and no stop discarded it; otherwise not at all |
| `SendEffects.AnsweredRunsItsCallback` | src/jsonrpc/RemoteEndPoint.cpp:600-641 | in every run without a stop no callback is discarded, and at rest each callback, deferred or not, has run once if a response was routed while its request held its id, and not otherwise |
| `SendEffects.RegistersExactlyWhen` | src/jsonrpc/RemoteEndPoint.cpp:1584-1613 | a request is registered, under its explicit or the next automatic id, if and only if the session is open, the table has room and an explicit id is unused |
| `SendEffects.RequestWriteExactly` | src/jsonrpc/RemoteEndPoint.cpp:1614-1623 | a written request is on its session's stream and stays registered; a failed write takes back its own registration only |
| `SendEffects.PendingStaysBounded` | src/jsonrpc/RemoteEndPoint.cpp:861-865 | in every run no more requests are pending than the nonzero limit |
| `SendEffects.SendWritesExactly` | src/jsonrpc/RemoteEndPoint.cpp:1236-1249 | a send on an open session is written to that session's stream on behalf of what it answers; on any other it changes nothing |
| `SendRuns.QuitExactlyWhen` | src/jsonrpc/RemoteEndPoint.cpp:1038-1062 | in every run the endpoint is quitting exactly from the begin of a stop to the next start |
| `SendRuns.OpenExactlyWhen` | src/jsonrpc/RemoteEndPoint.cpp:1038-1062 | in every run a session takes messages exactly from its start until a stop deactivates it |
| `SendRuns.DroppedExactlyWhen` | src/jsonrpc/RemoteEndPoint.cpp:600-641 | in every run a deferred callback is discarded if and only if it was to be posted, or was destroyed with its pool, between the begin of a stop and the next start |
| `SendRuns.EveryMessageIsStartedOnce` | src/jsonrpc/RemoteEndPoint.cpp:573-598 | in every run each routed message, with the output state captured for it, waits, is in the handler pool, or has been given to a handler, and that once |
| `SendRuns.DeferredExactlyWhen` | src/jsonrpc/RemoteEndPoint.cpp:1026-1037 | in every run completions answer exactly the messages whose handler has deferred its answer, with the state captured for them |
| `SendRuns.RunningExactlyWhen` | src/jsonrpc/RemoteEndPoint.cpp:1675-1703 | in every run a thread has a message and its output state in its context if and only if it started its handler and has not ended since |
| `SendTheorems.DisplacesExactlyWhen` | src/jsonrpc/RemoteEndPoint.cpp:866-880 | a step displaces a request if and only if an accepted request without an id draws a number in use |
| `SendTheorems.DisciplineDisplacesNothing` | src/jsonrpc/RemoteEndPoint.cpp:866-880 | if explicit ids are strings or come from createRequest nothing is ever displaced |
| `SendTheorems.ExplicitNumbersCanBeDisplaced` | src/jsonrpc/RemoteEndPoint.cpp:866-880 | without that discipline two sends suffice to displace a request in any open, idle session |
| `SendTheorems.TimeoutWithdrawsExactly` | src/jsonrpc/RemoteEndPoint.cpp:1652-1673 | a timeout withdraws its own request if and only if that still holds its id, any other request if and only if that holds it |
| `SendTheorems.TimeoutHitsAnotherExactlyWhen` | src/jsonrpc/RemoteEndPoint.cpp:893-901 | another request is withdrawn if and only if the id is in the table and not the waiter's |
| `SendTheorems.TimeoutCanWithdrawAnother` | src/jsonrpc/RemoteEndPoint.cpp:1667-1671 | a run from any open, idle session in which a timeout withdraws a later request with the same id |
| `SendTheorems.FailingStep` | src/jsonrpc/RemoteEndPoint.cpp:926-940 | one failing step of the machine completes the next listed request and changes nothing else |
| `SendTheorems.FailingIsCompleteAll` | src/jsonrpc/RemoteEndPoint.cpp:926-940 | the failing steps of the machine together are the loop that completes all listed requests |
| `SendTheorems.SweepingWorks` | src/jsonrpc/RemoteEndPoint.cpp:1038-1081 | every step of a stop up to the end of failPendingRequests, and every step that lets go of the send mutex or route_dispatch_mutex, strictly reduces what is left of that part |
| `SendTheorems.SweepNeverHangs` | src/jsonrpc/RemoteEndPoint.cpp:1038-1081 | until the end of failPendingRequests one of these steps is enabled |
| `SendTheorems.SweepCanFinish` | src/jsonrpc/RemoteEndPoint.cpp:1038-1081 | a stop begun in any reachable state can get to the end of failPendingRequests by such steps, as far as these two mutexes go |
| `Shutdown.StopReturnsExactlyWhen` | src/jsonrpc/RemoteEndPoint.cpp:1791-1815 | in every reachable state with a stop under way it can still return if and only if no thread it waits for is waiting for lifecycle_mutex and it does not wait for a mutex of its own thread |
| `Shutdown.HungForever` | src/jsonrpc/RemoteEndPoint.cpp:695-716 | a hung stop is hung in every continuation |
| `Shutdown.HangsExactlyWhen` | src/jsonrpc/RemoteEndPoint.cpp:1823-1827 | a step hangs a stop if and only if a thread the stop waits for asks for lifecycle_mutex, or the stop begins on a routing thread or while such a thread is already asking |
| `Shutdown.AskingHandlerHangs` | src/jsonrpc/RemoteEndPoint.cpp:1630-1635 | a run: a notification handler that cancels a request, or asks whether the endpoint works, during a stop |
| `Shutdown.RoutingOverloadHangs` | src/jsonrpc/RemoteEndPoint.cpp:220-231 | a run: an overload under StopProcessing found while routing |
| `StopEffects.StopJoinsEveryThread` | src/jsonrpc/RemoteEndPoint.cpp:1791-1815 | in every run, when a stop returns, every thread of the session but its own has ended |
| `StopEffects.StopsOnce` | src/jsonrpc/RemoteEndPoint.cpp:1791-1815 | after a stop has returned no later call stops anything in any continuation |
| `StopEffects.StoppedExactlyWhen` | src/jsonrpc/RemoteEndPoint.cpp:1791-1815 | in every run the session is stopped exactly when some stop has returned |
| `SendTheorems.InactiveMeansNoNewWriter` | src/jsonrpc/RemoteEndPoint.cpp:1050-1062 | once the session is inactive no step takes the send mutex to write |
| `SessionOutput.SessionOutputState.Send` | src/jsonrpc/RemoteEndPoint.cpp:1236-1249 | a message is framed onto the session's own stream exactly when it is active, present and good |
| `SessionOutput.SessionOutputState.Close` | src/jsonrpc/RemoteEndPoint.cpp:1050-1062 | afterwards nothing can be sent |
| `SessionOutput.SendAll` | src/jsonrpc/RemoteEndPoint.cpp:1135-1141 | a peer reading the stream gets exactly the messages sent, in order |
| `StdinReader.Reader.Turn` | include/LibLsp/JsonRpc/stream.h:408-503 | one poll turn loses and repeats nothing, whether it fills the buffer or bypasses it; without a failing event and an interrupt it does not break the stream |
| `StdinReader.Reader.ReadSome` | include/LibLsp/JsonRpc/stream.h:383-506 | the octets returned followed by what is pending are what was pending; nothing is returned only at the end or on a broken stream, and a benign stream does not break |
| `StdinReader.Reader.Get` | include/LibLsp/JsonRpc/stream.h:354-362 | the next octet, or none at the end or on a broken stream; a benign stream does not break |
| `StdinReader.Reader.Read` | include/LibLsp/JsonRpc/stream.h:364-381 | the next octets in full unless the stream ends or breaks; a benign stream does not break |
| `StdinReader.Serve` | include/LibLsp/JsonRpc/stream.h:354-506 | any mix of calls and any chunking: each call gets all it asked for, and never more, unless the stream has ended or broken; all that was returned, in order, then what is pending, is what the source had; a benign stream does not break |
| `FrameFormat.ParsesWrittenLength` | src/jsonrpc/StreamMessageProducer.cpp:32-51 | the printed length of a frame is parsed back, up to INT_MAX |
| `FrameFormat.ParseHeader` | src/jsonrpc/StreamMessageProducer.cpp:191-214 | a usable Content-Length line sets the length, any other leaves it |
| `FrameFormat.ParseLine` | src/jsonrpc/StreamMessageProducer.cpp:160-172 | a line is read without its carriage return; empty lines say nothing |
| `HeaderBlocks.LengthReadExactlyWhen` | src/jsonrpc/StreamMessageProducer.cpp:32-51 | a value is read as length n if and only if it is white space, an optional sign, decimal digits for n up to INT_MAX (negative only as zero) and blanks, up to its end or a NUL |
| `HeaderBlocks.BlockAnnounces` | src/jsonrpc/StreamMessageProducer.cpp:151-176 | any lines, joined by either line break, announce what their last usable Content-Length says |
| `HeaderBlocks.BlockDelivers` | src/jsonrpc/StreamMessageProducer.cpp:216-350 | behind any header block the input is read as its last usable Content-Length says |
| `HeaderBlocks.ExtraHeadersAreIgnored` | src/jsonrpc/StreamMessageProducer.cpp:151-214 | a frame with any other header lines before or behind its Content-Length, with either line break, delivers its body and then the rest |
| `HeaderBlocks.BlockWithoutLengthIsSkipped` | src/jsonrpc/StreamMessageProducer.cpp:262-269 | a header block without Content-Length is skipped |
| `HeaderBlocks.FrameLimitExactly` | src/jsonrpc/StreamMessageProducer.cpp:272-294 | a frame is delivered exactly when there is no limit or it is not longer; otherwise skipped or final, as the overload handler says |
| `HeaderBlocks.IncompleteFrameIsNotDelivered` | src/jsonrpc/StreamMessageProducer.cpp:295-342 | input that ends inside a frame delivers the frames before it and nothing of it |
| `FrameFormat.ParseHeaderBlock` | src/jsonrpc/StreamMessageProducer.cpp:151-176 | the last usable Content-Length of the block wins |
| `FrameFormat.HeaderEndIsStable` | src/jsonrpc/StreamMessageProducer.cpp:129-149 | a header end found in part of the input is the header end of the whole input |
| `Framing.ReadHeader` | src/jsonrpc/StreamMessageProducer.cpp:232-251 | input is appended until a header end shows, losing nothing |
| `Framing.DiscardBytes` | src/jsonrpc/StreamMessageProducer.cpp:101-127 | exactly the given count is skipped, or the input ended or broke first |
| `Framing.TakeBody` | src/jsonrpc/StreamMessageProducer.cpp:262-350 | a body is delivered, skipped as oversized, or ends the session, exactly as the byte stream says |
| `Framing.Turn` | src/jsonrpc/StreamMessageProducer.cpp:226-350 | one turn takes one header and what follows it off the stream |
| `Framing.Listen` | src/jsonrpc/StreamMessageProducer.cpp:216-352 | for every chunking exactly the bodies that the bytes mean are delivered if the descriptor does not fail, no interrupt comes and nobody stops the loop, and whenever the stream is unbroken at the end; otherwise a prefix of them |
| `Framing.FramesRoundTrip` | src/jsonrpc/RemoteEndPoint.cpp:1135-1141 | for every list of bodies up to INT_MAX octets, reading what was written gives the bodies in order, oversized ones skipped or ending the session |
| `Framing.ListenToWritten` | src/jsonrpc/StreamMessageProducer.cpp:216-352 | the same end to end, through the listening loop and the buffered reader: for every chunking by a working descriptor exactly the written bodies are delivered, without condition |
| `Framing.ListenUnderStress` | src/jsonrpc/StreamMessageProducer.cpp:216-352 | with failures, interrupts at any look at the flag and stops at any look at keepRunning, a prefix of them, and all of them if none of these is to come |
| `TextPosition.GetOffsetForPosition` | src/lsp/utils.cpp:566-597 | the loops compute the specified scan, within the text for every position |
| `TextPosition.GetPositionForOffset` | src/lsp/utils.cpp:599-619 | the loop computes the specified count |
| `TextPosition.OffsetsAreMonotone` | src/lsp/utils.cpp:566-597 | ordered positions have ordered offsets if the first lies within its line |
| `TextPosition.InLineExactlyWhen` | src/lsp/utils.cpp:579-595 | a position maps to at most the end of its line if and only if it counts no more units than the line has, or the line is the last |
| `TextPosition.OrderKeptExactlyWhen` | src/lsp/utils.cpp:566-597 | no later position maps before a position if and only if it counts no more units than its line with its line feed has, or there is no text behind that line |
| `TextPosition.PastTheLineBreaksOrder` | src/lsp/utils.cpp:579-595 | two ordered positions with reversed offsets |
| `Utf8Text.OffsetIsCodePointIndex` | src/lsp/utils.cpp:566-597 | on valid UTF-8 the octet scan is a code point scan, for every position, so it never ends inside a code point |
| `Utf8Text.PositionIsUtf16` | src/lsp/utils.cpp:599-619 | at a code point boundary the reported position is the UTF-16 position |
| `Utf8Text.IndexOfBehind` | src/lsp/utils.cpp:566-619 | every boundary is found again from its UTF-16 position |
| `Utf8Text.OffsetRoundTrip` | src/lsp/utils.cpp:566-619 | boundary to position to offset gives the boundary |
| `Utf8Text.SnapsToBoundary` | src/lsp/utils.cpp:579-595 | a position within its line maps to the boundary at it, or between surrogate halves to the one behind the pair |
| `Utf8Text.WithinLineExactlyWhen` | src/lsp/utils.cpp:566-619 | some boundary of its line lies at or behind a position if and only if the text has that line and the position counts no more units than the line has |
| `Utf8Text.WithinLineIsInLine` | src/lsp/utils.cpp:566-597 | being within the line by UTF-16 units is being within it by octets |
| `WorkingFiles.BuildLineOffsets` | src/lsp/working_files.cpp:17-29 | the loop computes the line starts |
| `WorkingFiles.IndexAgreesWithScan` | src/lsp/working_files.cpp:61-73 | the index gives the line scan's result for every line, past the end too |
| `WorkingFiles.OrderlyChangesApply` | src/lsp/working_files.cpp:190-209 | ordered changes that start within their line can all be applied, each to the last result |
| `WorkingFiles.EditIsCodePointSplice` | src/lsp/working_files.cpp:196-208 | on valid UTF-8 a range change is a code point splice, and the document stays valid |
| `WorkingFiles.WholeTextReplaces` | src/lsp/working_files.cpp:194-198 | a change without a range leaves exactly its own text, whatever changes came before |
| `WorkingFiles.WorkingFile.CachedOffset` | src/lsp/working_files.cpp:61-91 | the cached offset equals the full scan for every position |
| `WorkingFiles.DefinedIsPrefix` | src/lsp/working_files.cpp:190-209 | the changes before the first reversed range are applied in full, that one is not defined, and all are defined exactly when every range runs forwards |
| `WorkingFiles.WorkingFile.ApplyChange` | src/lsp/working_files.cpp:194-209 | prefix, new text and suffix (or a whole new text), with the index rebuilt; a reversed range is reported and nothing is changed |
| `WorkingFiles.WorkingFile.ApplyChanges` | src/lsp/working_files.cpp:190-209 | the buffer is the fold of the changes up to the first that is not defined, and the index is correct |
| `WorkingFiles.OpenFiles.OnOpen` | src/lsp/working_files.cpp:145-168 | one document gets its text and a correct index, all others stay; versions as the code sets them |
| `WorkingFiles.OpenFiles.OnChange` | src/lsp/working_files.cpp:170-212 | one document is the fold of the changes up to the first that is not defined, all others stay; unknown paths change nothing |
| `WorkingFiles.OpenFiles.OnClose` | src/lsp/working_files.cpp:214-230 | exactly the named document is gone |
| `FileUri.PercentEncodeFilePath` | src/lsp/lsp.cpp:709-728 | the loop computes the specified encoding |
| `FileUri.PercentDecodeFilePath` | src/lsp/lsp.cpp:730-747 | the loop computes the specified decoding, malformed escapes kept |
| `FileUri.NormalizePathSeparators` | src/lsp/lsp.cpp:682-692 | backslashes become slashes, nothing else changes |
| `FileUri.DecodeUndoesEncode` | src/lsp/lsp.cpp:709-747 | decoding undoes encoding on every byte string |
| `UriLaws.UnreservedExactly` | src/lsp/lsp.cpp:676-680 | the unreserved octets are those of section 2.3 of RFC 3986 |
| `UriLaws.HexExactly` | src/lsp/lsp.cpp:658-674 | the hex digits and their values, in either case |
| `UriLaws.EncodesByte` | src/lsp/lsp.cpp:709-728 | unreserved octets and slashes stand for themselves, every other octet becomes an escape with upper case digits |
| `FileUri.EncodeAppend` | src/lsp/lsp.cpp:709-728 | encoding works octet by octet |
| `UriLaws.EncodedIsClean` | src/lsp/lsp.cpp:709-728 | nothing but unreserved octets, slashes and escapes comes out |
| `UriLaws.EscapesIgnoreCase` | src/lsp/lsp.cpp:730-747 | an escape decodes to its octet, whatever the case of its digits |
| `UriLaws.MalformedIsKept` | src/lsp/lsp.cpp:730-747 | without a complete escape only backslashes change |
| `UriLaws.BackslashesBecomeSlashes` | src/lsp/lsp.cpp:682-692 | no backslash is left, every other octet stays, and once is enough |
| `UriLaws.SeparatorsReadAlike` | src/lsp/lsp.cpp:730-747 | a value decodes alike with slashes and with backslashes |
| `UriLaws.BackslashOnlyFromEscape` | src/lsp/lsp.cpp:730-747 | a backslash in a decoded path comes from the escape %5C |
| `FileUri.LocalhostSurvivesEncoding` | src/lsp/lsp.cpp:636-656 | a host is localhost before encoding exactly when it is afterwards |
| `UriLaws.LocalhostExactly` | src/lsp/lsp.cpp:636-656 | an authority is the local host in any mix of cases |
| `FileUri.ReadBack` | src/lsp/lsp.cpp:749-808 | the raw path read back from every rooted path's URI |
| `FileUri.SuffixIsIgnored` | src/lsp/lsp.cpp:699-707 | a query or fragment never changes the path read from any file URI |
| `UriLaws.SchemeExactly` | src/lsp/lsp.cpp:617-634 | the file scheme is recognised in any mix of cases |
| `UriLaws.UriExactly` | src/lsp/lsp.cpp:749-768 | the URI of every path: behind `file:` if it has two leading slashes, behind `file://` if it has one, behind `file:///` otherwise, drive paths and the empty path included |
| `FileUri.RawPathOfParts` | src/lsp/lsp.cpp:770-808 | the path read from any authority and path without query and fragment: the authority is kept in front unless it is empty or the local host |
| `UriLaws.OtherSchemesPass` | src/lsp/lsp.cpp:770-776 | a URI of another scheme is returned as it is |
| `FileUri.RoundTripExactly` | src/lsp/lsp.cpp:749-808 | the trip returns the separator-normalised path if and only if it is portable |
| `PathNormalizer.LastSlash` | src/lsp/utils.cpp:471-474 | the last slash at or before a position, or none |
| `PathNormalizer.CutIsUp` | src/lsp/utils.cpp:468-476 | cutting the string behind the last-but-one slash pops the component stack, or goes up from any root |
| `PathNormalizer.Turn` | src/lsp/utils.cpp:450-491 | one turn of the loop is one visit of the stack machine |
| `PathNormalizer.RealPath` | src/lsp/utils.cpp:415-499 | the character-level loop renders what the (root, stack) machine reaches, from either root or from any absolute working directory, with the code's failure cases |
| `PathLaws.ParentUndoesComponent` | src/lsp/utils.cpp:468-476 | a component followed by ".." is nothing, wherever it stands |
| `PathLaws.ParentOfRoot` | src/lsp/utils.cpp:468-476 | from either root ".." leads to the single root |
| `PathLaws.DotsAndSlashesVanish` | src/lsp/utils.cpp:463-467 | "." and empty components are nothing |
| `PathLaws.TrailingSlashVanishes` | src/lsp/utils.cpp:493-497 | a trailing slash is nothing |
| `PathLaws.OrdinaryIsNormal` | src/lsp/utils.cpp:428-498 | a path of ordinary components under either root is its own normal form |
| `PathLaws.RootIsNormal` | src/lsp/utils.cpp:493-497 | both roots alone give the single root |
| `PathNormalizer.RelativeIsJoined` | src/lsp/utils.cpp:441-448 | from a working directory in normal form a relative path resolves like the absolute path that joins the two |
| `PathNormalizer.ResolveUndoesRender` | src/lsp/utils.cpp:428-498 | a rendered place names that place |
| `PathNormalizer.NormalizeIsIdempotent` | src/lsp/utils.cpp:428-498 | the result is "/" or ordinary components joined by single slashes behind one or two slashes, and normalising again changes nothing |

## Left out

- Transports other than the descriptor reader: TCP and WebSocket servers, process spawning, parent watching; the POSIX pipe reader repeats the descriptor reader.
- JSON parsing and the typed message classes: a document is known by the members the classification looks at, the typed parser by its outcome.
- Concurrent notifications, cancels and responses after routing in `Pipeline`: they take no part in ordering and get no reply; cancels are the subject of `CancelRegistry`, responses of `SendSide`.
- Handler code: handlers are outcomes chosen freely by the environment and always end; the text of errors and results is not kept, only its kind, number and id.
- Update in place of messages: the step machines move numbers, not objects, so aliasing of a message between queues is not captured; the queues themselves are also modelled as mutable objects.
- The window in `startProcessingMessages` between clearing `quit` and resetting routing: endpoint theorems are about one session, from the reset of routing to the stop.
- In `Pipeline` a StopProcessing overload is a step that sets `quit`; that such a stop hangs when it fires inside routing is part of `Shutdown` only.
- What a detached dispatcher or producer thread does after a stop issued from its own code; `Shutdown` covers one session, up to the return of its stop, and takes the send mutex, which its holders always let go (`SendTheorems.SweepCanFinish`), for granted.
- Writes of error replies by routing that throw: nothing in the parse pool catches them.
- The two sends of a wrapper whose first send failed are one step of `Pipeline`; losing the session between them is the case in which the second one fails at once.
- The parent chain of cancellation contexts and the reasons a monitor returns: of `src/jsonrpc/RequestCancellation.cpp` only the flag of each instance is kept.
- Back-off and wake-up timing of the completion loop; sizes of the prune queues.
- Width of counters: sequence numbers, cookies, offsets and request numbers do not wrap.
- Input state reports of the framer, other headers such as the charset, and other input streams.
- WorkingFiles.OpenFiles.OnChange: says nothing about the text from the first reversed range on, where the effect of `std::string::replace` is undefined; `OrderlyChangesApply` says when no range is reversed.
- PathNormalizer.RealPath: assumes that `getcwd` reports an absolute path name, as POSIX promises; existence checks are off.
- Windows branches of paths and URIs; `lru_cache.h`; delimited test framing, markup, path mapping and string helpers, which would only add easy members.

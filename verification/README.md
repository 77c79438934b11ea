# A verified model of the analyzer's connection, rules and caches

This Dafny project models the parts of the analyzer whose correctness is hardest to see from
the code and proves properties of them for every input, run and interleaving.

* **JSON-RPC connection** (`InFlight`, `ConnectionProtocol`, `ConnectionInvariant`,
  `ConnectionSteps`, `ConnectionRequests`, `ConnectionTheorems`, `ConnectionReuse`,
  `ConnectionShutdown`, `ConnectionAdmission`, `ConnectionHistory`). `InFlight` has the guarded
  state as a class whose methods are the locked sections, each proved equal to a function on
  values. `ConnectionProtocol` is the state machine in which callers, the reader, the handler
  goroutine and the holder of the writer token interleave at these sections. The handler and
  the preempter keep their documented contract: `Respond` is called once for a call that was
  answered asynchronously, and no notification is. Panics are outcomes of the machine, and an
  inductive invariant shows that none is reachable. `ConnectionAdmission` spells out on the fields
  what each section admits and refuses, and `ConnectionHistory` gives the events in a run that are
  the exact causes of what its states record.
* **Idle listener** (`IdleListener`). One token moves between three channels, a timer that may
  already be firing, and the goroutines that hold it.
* **Framing and messages** (`Framing`, `Messages`, `Doubles`). The header format of the Language
  Server Protocol specification 3.17 ("Base Protocol / Header Part") and the messages of
  JSON-RPC 2.0 (sections 4, 4.1 and 5), whose numeric ids pass through a 64-bit floating point
  number.
* **Rules** (`Conditions`, `RuleParser`, `RuleOrigins`, `ConditionChains`, `ConditionOrder`,
  `ConditionEvaluation`, `ConditionTraces`, `PathScope`, `WorkerPool`, `Labels`). How condition
  entries are built, ordered and evaluated, how rules are fanned out to workers and their responses
  fanned in, and how label selectors match. `RuleOrigins`, `ConditionOrder` and `ConditionTraces`
  tell on the input what the parser builds, in which order and with which results it is evaluated.
* **Language server client** (`Symbols`, `CacheUpdates`). The search for the smallest symbol at
  a location, and the accounting of cache updates across producers, workers, cancellation and
  draining.
* **Span ids** (`SpanIds`). The 64-bit counter with an odd increment.

`Wrappers`, `Sums`, `Words` and `Strings` are shared helpers. `dafny verify dfyconfig.toml`
checks the project. Rows below that only support others are marked *(supporting)*.

Some things that the code does may surprise a reader of its documentation; each is a lemma:

* Two unanswered calls may share an id (`UnansweredCallsMayShareAnId`). An arriving call shares
  its id with an unanswered one if and only if the id is free and a response to it is waiting for
  the writer or being written (`ArrivingCallSharesIff`), and the ids of unanswered calls stay
  distinct throughout a run if and only if no call arrives like that (`DistinctIffNoReuse`).
* A stream that ends between a header and its body is reported as a clean end of the stream
  (`CutStreamIsReadUpToTheCut` gives what is read and reported for every place to cut a stream).
* An integer id comes back changed exactly when a double cannot hold it, except by accident at
  the end of the 64-bit range (`IDComesBackIff`), and a request without a method is read as a
  response (`OtherwiseItIsMisread`).
* A condition stored under the path scope's own key replaces the scope
  (`ScopeKeyAsAliasEscapes`). Results stay in scope, whatever the providers do, for exactly the
  trees in which no entry after it, in the order of evaluation, has incidents that are collected
  or stored (`ScopeIsKeptIff`; `FlatListKeepsScopeIff` spells it out for one list).
* A label written with two `=` at its end is not replaced in a selector
  (`DoubleEqualsIsNotReplaced`). The evaluation library is given an expression over booleans if and
  only if every operand is a label that is written back as it was read (`BooleanIffLabelsOnly`).
  Some other selectors may have been refused before, because a selector is evaluated once when it
  is made (`engine/labels/labels.go:110-114`).
* An update sent after the cache workers have gone is never taken out again. `Stop` then waits
  forever (`StopCanWaitForever`), and so does a cancelled `Prepare` whose last update it was, in its
  own wait (`CancelledPrepareCanHang`). When workers and producers are through, these waits end if and
  only if no update was sent after the last worker had gone (`WaitsEndIffNothingTooLate`).
* A connection that shuts down with calls in flight waits for the peer's responses, without a time
  limit. `ShutdownIsNotStuck` says that this is all it waits for: in any other state a step of its own
  is possible. Own steps include what the handler, the preempter and a write in progress owe it, but a
  failing read only after the connection has closed the stream.

## Model

| member | source | states |
|---|---|---|
| InFlight.UnlockIsIdempotent | jsonrpc2_v2/conn.go:118-157 | *(supporting)* leaving the critical section a second time changes nothing and cannot panic |
| InFlight.AsyncCall.Retire | jsonrpc2_v2/conn.go:400-415 | a call is retired at most once: the double-retire panic is the negation of the precondition |
| InFlight.Connection.Unlock | jsonrpc2_v2/conn.go:118-157 | the end of a locked section closes the stream and `done` exactly as the specification function says |
| InFlight.Connection.StartReading | jsonrpc2_v2/conn.go:211-258 | the reader counts as running before the connection is handed out |
| InFlight.Connection.Close | jsonrpc2_v2/conn.go:495-501 | marks the connection as closing and closes it at once when it is idle |
| InFlight.Connection.AdmitNotification | jsonrpc2_v2/conn.go:263-309 | a notification is admitted unless the connection is shutting down with no call in flight |
| InFlight.Connection.LeaveNotification | jsonrpc2_v2/conn.go:263-309 | the notification stops counting when it has been written |
| InFlight.Connection.RegisterCall | jsonrpc2_v2/conn.go:315-374 | a call is registered under its id unless the connection is shutting down |
| InFlight.Connection.SendingFailed | jsonrpc2_v2/conn.go:340-374 | after a failed write the call is retired unless a response or the reader's end was first |
| InFlight.Connection.DeliverResponse | jsonrpc2_v2/conn.go:521-529 | a response retires the call with its id, and only that one, or changes nothing |
| InFlight.Connection.RetireAll | jsonrpc2_v2/conn.go:540-545 | retires every call in flight and no other |
| InFlight.Connection.StopReading | jsonrpc2_v2/conn.go:536-547 | after the reader's end no call is in flight |
| InFlight.Connection.Accept | jsonrpc2_v2/conn.go:575-603 | an inbound request is counted; a call is rejected when its id is in use or a shutdown has begun |
| InFlight.Connection.Enqueue | jsonrpc2_v2/conn.go:619-656 | a request joins the queue unless a shutdown has begun, and starts the handler goroutine if there is none |
| InFlight.Connection.Dequeue | jsonrpc2_v2/conn.go:660-672 | the oldest request leaves the queue, or the handler goroutine ends |
| InFlight.Connection.DropRequest | jsonrpc2_v2/conn.go:719-726 | the id is forgotten before the response is written |
| InFlight.Connection.FinishRequest | jsonrpc2_v2/conn.go:748-761 | the request stops counting; the panic is the negation of the precondition |
| InFlight.Connection.RecordWriteError | jsonrpc2_v2/conn.go:771-788 | the first write error is recorded and cancels every call whose id is known |
| ConnectionTheorems.RunKeepsInvariant | jsonrpc2_v2/conn.go:86-157 | every state of every run satisfies the invariant |
| ConnectionTheorems.NoPanic | jsonrpc2_v2/conn.go:118-157 | no step of any run panics: no double retire, no negative count, nothing in flight after `done` |
| ConnectionTheorems.CountersAndClosing | jsonrpc2_v2/conn.go:118-189 | `incoming` counts the accepted, unfinished requests and bounds `incomingByID`; the stream is closed at most once and before `done`; `done` is closed exactly when the connection is idle, shutting down and not reading |
| ConnectionTheorems.ShutdownStep | jsonrpc2_v2/conn.go:168-189 | once a shutdown has begun, no step ends it, adds a call, queues a request, starts a handler goroutine, admits a notification with no call in flight, or adds a request that is not already being rejected |
| ConnectionTheorems.ShutdownIsMonotone | jsonrpc2_v2/conn.go:168-189 | between any two points of a run after that: the shutdown goes on, the queue only loses its front, the calls in flight only leave, no handler goroutine starts, and what is new in `incomingByID` is being rejected |
| ConnectionTheorems.NoNotificationIsAdmitted | jsonrpc2_v2/conn.go:263-309 | between any two points of a run after that, as long as no call is in flight in either direction, the number of outgoing notifications does not grow |
| ConnectionTheorems.DoneIsForever | jsonrpc2_v2/conn.go:118-157 | once `done` is closed the connection stays done, idle and shutting down |
| ConnectionTheorems.DoneRetiresEveryCall | jsonrpc2_v2/conn.go:340-415 | when `done` is closed every call that was ever registered has been retired |
| ConnectionTheorems.ReturnedCallIsTracked | jsonrpc2_v2/conn.go:315-374 | a call handed to its caller is retired, or is in flight under its own id |
| ConnectionTheorems.SecondResponseChangesNothing | jsonrpc2_v2/conn.go:521-529 | a second response with the same id changes nothing |
| ConnectionTheorems.AnswersAreUnique | jsonrpc2_v2/conn.go:714-746 | every response written belongs to an inbound call and carries its id, and no call is answered twice; what has no id, such as a duplicate or a notification, is never answered |
| ConnectionTheorems.IdLeavesBeforeTheWrite | jsonrpc2_v2/conn.go:719-734 | while the response is written the call's own entry is no longer in `incomingByID` |
| ConnectionTheorems.CompletionDropsItsOwnEntry | jsonrpc2_v2/conn.go:719-726 | the entry that a completion deletes is its own |
| ConnectionTheorems.RespondFindsItsRequest | jsonrpc2_v2/conn.go:444-460 | `Respond` finds the request that it is meant for |
| ConnectionRequests.RequestsMoveOn | jsonrpc2_v2/conn.go:551-761 | *(supporting)* no step changes a request's id or rejection or makes a finished request unfinished, and only an arrival adds one |
| ConnectionReuse.SharedIdMeansForgotten | jsonrpc2_v2/conn.go:577-602 | *(supporting)* when two unanswered calls share an id, the id of one has already been forgotten |
| ConnectionReuse.UnansweredCallsMayShareAnId | jsonrpc2_v2/conn.go:577-602 | a concrete run in which they do |
| ConnectionReuse.ArrivingCallSharesIff | jsonrpc2_v2/conn.go:577-602 | an arriving call shares its id with an unanswered one if and only if the id is not in `incomingByID` and a response to it is waiting for the writer or being written |
| ConnectionReuse.DistinctIffNoReuse | jsonrpc2_v2/conn.go:719-734 | throughout a run the ids of unanswered calls are pairwise distinct if and only if no call arrives like that |
| ConnectionTheorems.HandlerOrder | jsonrpc2_v2/conn.go:619-690 | requests are handled one at a time, by the one handler goroutine there is, and in the order in which they were queued; the queue is non-empty only while that goroutine runs |
| ConnectionTheorems.WriteErrorStopsCalls | jsonrpc2_v2/conn.go:771-788 | after a write error every call whose id is known is cancelled or being rejected, so none still queued is handled |
| ConnectionShutdown.StepShrinksWork | jsonrpc2_v2/conn.go:593-597 | during a shutdown every step that is not a new input shrinks the work in flight |
| ConnectionShutdown.ShutdownIsNotStuck | jsonrpc2_v2/conn.go:118-157 | until `done` is closed a connection that is shutting down can take a step of its own, which leaves less work, if and only if it is not down to waiting for responses: reading from the open stream, every call written or given up, some call not answered, and nothing else in flight |
| ConnectionShutdown.ResponsesEndTheWait | jsonrpc2_v2/conn.go:521-547 | in such a state each awaited response takes its call out; after the last one the stream is closed, and the reader's end closes `done` |
| ConnectionAdmission.NotifyIsAdmittedIff | jsonrpc2_v2/conn.go:281-292 | `Notify` gets through unless a shutdown has begun and there is no call in flight in either direction; the whole new state |
| ConnectionAdmission.CallIsRegisteredIff | jsonrpc2_v2/conn.go:340-356 | a call waits for a response if and only if no shutdown has begun; otherwise it is retired at once |
| ConnectionAdmission.CallIsWritten | jsonrpc2_v2/conn.go:359-374 | a written call is over, one that was not is taken back, and a broken stream is recorded |
| ConnectionAdmission.FailedCallIsRetired | jsonrpc2_v2/conn.go:364-370 | a call that could not be written leaves the map and is retired |
| ConnectionAdmission.RetiredCallJustReturns | jsonrpc2_v2/conn.go:370-373 | unless a response or the reader's end was first |
| ConnectionAdmission.ResponseRetiresItsCall | jsonrpc2_v2/conn.go:521-529 | a response retires the call that waits under its id; any other one changes nothing |
| ConnectionAdmission.NotificationArrives | jsonrpc2_v2/conn.go:575-603 | an inbound notification is always counted and goes to the preempter |
| ConnectionAdmission.CallIsAccepted | jsonrpc2_v2/conn.go:577-602 | so does a call with a free id when no shutdown has begun; the whole new state |
| ConnectionAdmission.DuplicateIsRejected | jsonrpc2_v2/conn.go:582-586 | a call whose id is taken is counted, loses its id and is rejected |
| ConnectionAdmission.LateCallIsRejected | jsonrpc2_v2/conn.go:591-602 | any other call during a shutdown is counted and rejected under its own id |
| ConnectionAdmission.PreemptedIsNotQueued | jsonrpc2_v2/conn.go:605-617 | what the preempter answers or takes over does not go into the queue |
| ConnectionAdmission.RequestIsQueuedIff | jsonrpc2_v2/conn.go:619-655 | what it leaves goes to the end of the queue unless a shutdown has begun, and a handler goroutine runs |
| ConnectionAdmission.FrontIsDequeued | jsonrpc2_v2/conn.go:660-672 | the handler goroutine takes the front of the queue and ends if and only if there is none |
| ConnectionAdmission.DequeuedIsHandledIff | jsonrpc2_v2/conn.go:674-688 | a dequeued request, call or notification, is given to the handler if and only if it has not been cancelled |
| ConnectionAdmission.HandledIsAnswered | jsonrpc2_v2/conn.go:687-690 | what the handler answers is processed, what it takes over waits for `Respond` |
| ConnectionAdmission.ReaderStartsIff | jsonrpc2_v2/conn.go:211-258 | the reader starts unless the connection is already done |
| ConnectionAdmission.CancelFindsItsCall | jsonrpc2_v2/conn.go:468-477 | `Cancel` goes to the call that is known under the id, or nowhere |
| ConnectionHistory.ShutdownHasItsCauses | jsonrpc2_v2/conn.go:168-189 | in every run the three flags of a shutdown are set if and only if `Close` was called, a read has failed, or a write has |
| ConnectionHistory.ClosedAsSoonAsPossible | jsonrpc2_v2/conn.go:118-157 | the stream is closed if and only if at some point so far nothing was in flight during a shutdown, and `done` if and only if that is so now and nothing reads |
| ConnectionHistory.DeliveredIffCheckedInTime | jsonrpc2_v2/conn.go:674-688 | a request has been given to the handler if and only if a check found it not cancelled |
| ConnectionHistory.DequeuedIsDelivered | jsonrpc2_v2/conn.go:660-690 | every request that has left the queue and is past its check was given to the handler or was cancelled when it was checked |
| ConnectionHistory.CancelledHasItsCause | jsonrpc2_v2/conn.go:468-477 | a request's context is cancelled if and only if `Cancel` reached it, it has been finished, or the first write error found its id known |
| ConnectionHistory.CallIsAnsweredIff | jsonrpc2_v2/conn.go:714-734 | every inbound call that is over has had its response written, or tried to be, if and only if the response could be encoded |
| ConnectionHistory.RetiredHasItsCause | jsonrpc2_v2/conn.go:340-415 | a registered call is retired if and only if since then its response was read, its write failed, or the reader ended |
| ConnectionHistory.RegisteredCallIsSent | jsonrpc2_v2/conn.go:356-374 | the request of every registered call that has returned has been tried to be written |
| ConnectionHistory.ReturnedCallIsRetiredOrWritten | jsonrpc2_v2/conn.go:331-374 | when `Call` has returned a registered call, it is retired or its request has been written successfully |
| ConnectionHistory.NotificationIsSentIff | jsonrpc2_v2/conn.go:263-309 | every admitted notification that is over has been tried to be written if and only if it could be encoded |
| IdleListener.RunKeepsInvariant | jsonrpc2_v2/serve.go:145-292 | in every run the token is in exactly one place |
| IdleListener.NoPanic | jsonrpc2_v2/serve.go:249-292 | none of the panics is reachable, no closed channel is closed or sent on, and no channel send has to wait |
| IdleListener.OneChannelIsReady | jsonrpc2_v2/serve.go:141-153 | at most one of the selects' cases is ready at any time |
| IdleListener.OneLiveTimer | jsonrpc2_v2/serve.go:271-292 | at most one timer is live |
| IdleListener.CountIsExact | jsonrpc2_v2/serve.go:155-214 | the count is the number of accepted, unclosed connections |
| IdleListener.IdleMeansNoConnections | jsonrpc2_v2/serve.go:271-292 | while the timer runs, or after it has expired, no accepted connection is open |
| IdleListener.ClosedByOneSide | jsonrpc2_v2/serve.go:216-269 | the wrapped listener is closed by the timer, at most once, or by `Close`, but never by both |
| IdleListener.ExplicitClosesAreCounted | jsonrpc2_v2/serve.go:216-243 | until the timer's function has started, each call of `Close` has closed the wrapped listener once or is on its way to it, and afterwards none does; so one call closes it at most once |
| IdleListener.NobodyIsStuck | jsonrpc2_v2/serve.go:155-292 | while a call inside the listener has not returned or a timer is firing, a step is possible that needs no further input, and it leaves less to do |
| IdleListener.StopOutcome | jsonrpc2_v2/serve.go:185-243 | what `Accept` and `Close` do when `timer.Stop()` is in time and when it is too late |
| IdleListener.CloseAgain | jsonrpc2_v2/serve.go:216-243 | `Close` after `Close` closes the wrapped listener again; after the timer it does nothing |
| IdleListener.Listener.Accept | jsonrpc2_v2/serve.go:155-214 | the new state and the result are those of the machine run to completion |
| IdleListener.Listener.Close | jsonrpc2_v2/serve.go:216-243 | likewise; `blocked` is the wait for a timer that is already firing |
| IdleListener.Listener.ConnClosed | jsonrpc2_v2/serve.go:271-292 | likewise; the panics are the negation of the precondition |
| IdleListener.Listener.TimerExpired | jsonrpc2_v2/serve.go:249-269 | likewise; the panics are the negation of the precondition |
| ConditionChains.PathIsUnique | engine/conditions.go:302-310 | with unique `as` names an entry has at most one chain of producers, cyclic links or not |
| ConditionChains.PathIsShort | engine/conditions.go:302-310 | a chain of calls is no longer than the list, so the recursion ends |
| ConditionChains.WithoutUniqueAliasesPathsAreUnbounded | engine/conditions.go:302-310 | without unique `as` names there are chains of calls of every length |
| ConditionChains.SortedHoldsWhatReachesStart | engine/conditions.go:290-310 | the sorted list holds an entry if and only if its `from` links lead back to an unchained entry |
| ConditionChains.SortedOnce | engine/conditions.go:290-310 | it holds no entry twice |
| ConditionChains.SortedInOrder | engine/conditions.go:290-310 | every producer comes before its consumers |
| ConditionChains.SortedIsPermutation | engine/conditions.go:290-310 | it is a permutation of the list if and only if every entry's links lead back to an unchained one |
| ConditionOrder.ReachedIff | engine/conditions.go:290-310 | an entry's links lead back to an unchained one if and only if it is unchained itself, or some entry whose `as` is its `from` is reached |
| ConditionOrder.SortedInChainOrder | engine/conditions.go:290-310 | the sorted list is in the lexicographic order of the chains of producers, by positions in the list |
| ConditionChains.GatherChain | engine/conditions.go:302-310 | the recursive code terminates and gives the entries that the specification lists |
| ConditionChains.SortConditionEntries | engine/conditions.go:290-300 | likewise for the outer loop |
| ConditionEvaluation.Filtered | engine/conditions.go:363-393 | *(supporting)* filtering keeps exactly the incidents in scope |
| ConditionEvaluation.FilteredOne | engine/conditions.go:363-393 | *(supporting)* a single incident is kept if and only if it is in scope |
| ConditionEvaluation.FilteredIsPointwise | engine/conditions.go:363-393 | filtering goes incident by incident, so order and multiplicity of what is kept do not change |
| ConditionEvaluation.Context.FilterIncidents | engine/conditions.go:363-393 | filtering by included and then by excluded paths is filtering by both |
| ConditionEvaluation.Context.Evaluate | engine/conditions.go:155-255 | the loops over and/or/not trees of any depth compute the recursive meaning of the tree, including what they store for later entries |
| ConditionEvaluation.Context.EvaluateEntry | engine/conditions.go:257-276 | an entry matches if its condition matches with incidents left after filtering, flipped by `not` |
| ConditionEvaluation.Context.EvaluateAll | engine/conditions.go:155-255 | the loop of `And` and `Or`: all or some entries match, and the incidents of those not ignored are collected |
| ConditionEvaluation.ContextIsNeverMissing | engine/conditions.go:155-255 | the error "unable to find context value" does not occur |
| ConditionEvaluation.TemplatesGrow | engine/conditions.go:178-185 | evaluation never takes a stored context value away |
| ConditionEvaluation.ResultInScope | engine/conditions.go:257-288 | unless a condition is stored under the scope's key, every incident returned and every path stored is in the path scope |
| ConditionEvaluation.ScopeKeyAsAliasEscapes | engine/conditions.go:257-276 | a condition list that does use that key returns an incident outside the scope |
| ConditionTraces.AndMatchesIffAllDo | engine/conditions.go:155-201 | a successful `And` matches if and only if every entry seen in the order of evaluation does; its incidents are those in scope of its entries that are not ignored, and each entry sees what the earlier ones stored |
| ConditionTraces.OrMatchesIffSomeDoes | engine/conditions.go:207-255 | a successful `Or` matches if and only if some entry does; the rest is the same |
| ConditionTraces.SucceedsIffTraced | engine/conditions.go:155-255 | either succeeds if and only if it has entries and the evaluation of each of them does |
| ConditionTraces.ProviderEntryMatchesIff | engine/conditions.go:257-276 | an entry with a provider's condition matches if and only if the provider matches with an incident in scope, flipped by `not` |
| ConditionTraces.FlatAndMatchesIff | engine/conditions.go:155-276 | an `And` of provider conditions, told by the providers' answers, the path scope and `not` alone |
| ConditionTraces.FlatOrMatchesIff | engine/conditions.go:207-276 | likewise an `Or` |
| ConditionTraces.SingleAnswersAsItsEntry | engine/conditions.go:257-276 | *(supporting)* a rule with one entry answers as that entry |
| ConditionTraces.LastContextWins | engine/conditions.go:195-197 | in the result's context each name has the value of the last entry that gave it one |
| ConditionTraces.KeptIff | engine/conditions.go:363-393 | an incident is kept unless included paths are given and it is outside them, or excluded paths are and it is inside |
| ConditionTraces.StoredAre | engine/conditions.go:179-185 | under an entry's `as` name the paths of its incidents, one each and in order, and its context are stored, and nothing else changes |
| PathScope.ScopeIsKeptIff | engine/conditions.go:257-276 | every incident returned and every path stored is in the path scope, for all providers, scopes and files, if and only if the tree satisfies a condition on the order of its entries |
| PathScope.FlatListKeepsScopeIff | engine/conditions.go:257-288 | for one list of provider conditions: no entry stored under the scope's key comes, in the order of evaluation, before one whose incidents are collected or stored |
| PathScope.UntouchedKeyIsKept | engine/conditions.go:257-276 | *(supporting)* a tree in which no entry is stored under that key satisfies the condition |
| RuleParser.SpliceKeeps | parser/rule_parser.go:849-871 | prepending, inserting and appending keep every entry, the uniqueness of `as` names and the recorded indices in bounds |
| RuleParser.ParsedIsWhatWasBuilt | parser/rule_parser.go:691-876 | the parsed list holds exactly the entries that were built, each as often as it was built |
| RuleParser.RecordedIndexIsSafe | parser/rule_parser.go:849-871 | a recorded index, stale or not, is in bounds and at or before its consumer, which is the last consumer of its name and comes after the producer |
| RuleParser.OnlyConsumerFollowsItsProducer | parser/rule_parser.go:860-871 | the producer of a name precedes the entry that takes it and stores nothing, when there is only one such entry |
| RuleParser.ParsedIsWellFormed | parser/rule_parser.go:849-858 | at every depth of the parsed tree `as` names are unique, and no entry takes its input from itself |
| RuleParser.ParsedNeverMissesContext | parser/rule_parser.go:849-858 | evaluating what was parsed never fails for a missing context value |
| RuleParser.EvaluatedIsWhatWasBuilt | parser/rule_parser.go:691-876 | the engine evaluates exactly what was built if and only if all links lead back to an unchained entry |
| RuleParser.ParseOrderIsNotEnough | parser/rule_parser.go:860-871 | with two such entries the parser's own order may put one of them before the producer |
| RuleOrigins.ParsedIff | parser/rule_parser.go:691-876 | a list is parsed if and only if every item is a map with fields of the right types, every pair can be read, and the entries they describe have different `as` names, none of them the entry's own `from` |
| RuleOrigins.ParsedComesFromItsItems | parser/rule_parser.go:734-843 | every pair that is not skipped gives one entry, with the `from`, `as`, `ignore` and `not` of its map and the condition that the pair stands for, and there are no others |
| RuleOrigins.EntryComesFromItsItem | parser/rule_parser.go:734-843 | so each single entry has its fields from one of the maps |
| RuleOrigins.BadFieldIsReported | parser/rule_parser.go:699-733 | a field of the wrong type is reported, in this order of the fields |
| RuleOrigins.BadPairIsReported | parser/rule_parser.go:734-835 | and so is a pair that cannot be read |
| RuleOrigins.EntryIsPlaced | parser/rule_parser.go:852-871 | where an entry is put, and when its index is recorded |
| RuleOrigins.SpliceFailsIff | parser/rule_parser.go:849-854 | an entry is refused if and only if it links to itself or its `as` name has been used |
| RuleParser.SpliceEntry | parser/rule_parser.go:849-871 | the code's list operations are the specified ones |
| RuleParser.ConditionFor | parser/rule_parser.go:748-848 | the entry that one key builds, the cases in which it is skipped and those in which parsing fails |
| RuleParser.GetConditions | parser/rule_parser.go:691-876 | the loops, with their recursion into nested lists, compute the specified parse |
| WorkerPool.RunKeepsInvariant | engine/engine.go:289-374 | the WaitGroup counts exactly the rules being sent, buffered, held by workers or being collected, and every rule sent is in one place |
| WorkerPool.WaitGroupStaysPositive | engine/engine.go:296-299 | `wg.Done` never makes the WaitGroup negative |
| WorkerPool.SomethingMoves | engine/engine.go:175-214 | with at least one worker some step is possible until the run is complete |
| WorkerPool.RunsAreFinite | engine/engine.go:289-395 | in every interleaving a run of n rules takes at most 7n + 1 steps |
| WorkerPool.LongRunIsComplete | engine/engine.go:289-395 | and is complete exactly after that many |
| WorkerPool.WithoutWorkersNothingCompletes | engine/engine.go:136-160 | with no worker, a run that has rules never completes |
| WorkerPool.CompleteCollectsEachRuleOnce | engine/engine.go:289-374 | a complete run has collected every rule exactly once |
| WorkerPool.CompleteCounts | engine/engine.go:300-332 | its counters are the numbers of failed, matched and unmatched rules and add up to all rules |
| WorkerPool.CompleteProgress | engine/engine.go:333-341 | the reported progress rises by one for each rule up to the total, which is reported again at the end |
| WorkerPool.RecordedExactlyOnce | engine/engine.go:300-332 | a rule with an id of its own ends up in exactly one of errors, violations, insights and unmatched: the one its evaluation calls for, with its error or violation |
| WorkerPool.RecordedByEffort | engine/engine.go:191-208 | the same told by the rule's evaluation and effort: an error for a failure, a violation for a result with an effort other than zero, an insight for one without, and unmatched otherwise |
| WorkerPool.RecordedIffSomeRuleSays | engine/engine.go:300-332 | for every id, shared by rules or not: a rule set lists it as failed, violation, insight or unmatched if and only if it did before or some rule with that id came out so |
| WorkerPool.VerdictMeans | engine/engine.go:191-207 | when a rule's evaluation counts as failed and when as matched |
| WorkerPool.ProcessRule | engine/engine.go:191-208 | the response that a worker sends |
| WorkerPool.Collection.Count | engine/engine.go:300-332 | one counter and one record change, those of the response's verdict |
| WorkerPool.Collection.Handle | engine/engine.go:295-343 | the collector's function changes the shared variables as the specified step |
| CacheUpdates.RunKeepsInvariant | lsp/base_service_client/base_service_client.go:366-435 | cancelled or not, the WaitGroup equals the reserved unsent plus the buffered plus the in-process updates |
| CacheUpdates.WaitGroupIsNeverNegative | lsp/base_service_client/base_service_client.go:719-788 | no call of `Done`, by a producer or a worker, makes it negative |
| CacheUpdates.PreparedIsSettled | lsp/base_service_client/base_service_client.go:398-435 | a `Prepare` that got past its wait has had each of its updates processed or dropped, once |
| CacheUpdates.PreparedIsProcessed | lsp/base_service_client/base_service_client.go:398-435 | without a cancellation each of them has been processed exactly once |
| CacheUpdates.PrepareWaits | lsp/base_service_client/base_service_client.go:426-435 | without a cancellation a `Prepare` returns only after its wait |
| CacheUpdates.NotifiedIsProcessed | lsp/base_service_client/base_service_client.go:366-393 | without a cancellation a `NotifyFileChanges` that has returned has sent every update, and when the WaitGroup is at zero each has been processed exactly once |
| CacheUpdates.PrepareReserves | lsp/base_service_client/base_service_client.go:405-411 | `Prepare` reserves all its updates at once unless it finds the context cancelled |
| CacheUpdates.GivingUp | lsp/base_service_client/base_service_client.go:385-391 | after a cancellation `NotifyFileChanges` takes back one update and goes on with the next change, `Prepare` takes back all it has not sent |
| CacheUpdates.BufferIsAQueue | lsp/base_service_client/base_service_client.go:302 | *(supporting)* the buffer is first-in first-out and holds ten updates |
| CacheUpdates.ProcessedAtMostOnce | lsp/base_service_client/base_service_client.go:734-776 | no update is processed twice, or both processed and dropped |
| CacheUpdates.SomethingMoves | lsp/base_service_client/base_service_client.go:366-435 | without a cancellation something can move until every producer has returned |
| CacheUpdates.StepShrinksWork | lsp/base_service_client/base_service_client.go:366-435 | and every step shrinks the work left, so every `Prepare` returns |
| CacheUpdates.StopReturnsIffNothingIsLeft | lsp/base_service_client/base_service_client.go:350-364 | when the workers have gone and each producer has returned or waits, the WaitGroup equals what is left in the buffer, so the waits end if and only if it is empty |
| CacheUpdates.LeftIffSentTooLate | lsp/base_service_client/base_service_client.go:719-788 | in every run in which the workers have gone, whatever the producers do, something is left in the buffer if and only if an update was sent when they had already gone |
| CacheUpdates.WaitsEndIffNothingTooLate | lsp/base_service_client/base_service_client.go:350-364 | so `Stop`'s wait, and that of a `Prepare`, end if and only if none was |
| CacheUpdates.StopCanWaitForever | lsp/base_service_client/base_service_client.go:719-732 | a concrete run after which `Stop` waits forever |
| CacheUpdates.CancelledPrepareCanHang | lsp/base_service_client/base_service_client.go:411-427 | a concrete run in which a cancelled `Prepare` hangs in its own wait |
| CacheUpdates.WhatIsLeftStays | lsp/base_service_client/base_service_client.go:350-364 | once the workers have gone, no step takes out what is in the buffer or ends a wait |
| CacheUpdates.NothingMovesThen | lsp/base_service_client/base_service_client.go:350-364 | and when the producers are through as well, no step changes anything |
| CacheUpdates.Client.ReleaseRemaining | lsp/base_service_client/base_service_client.go:416-423 | a cancelled `Prepare` releases exactly what it has reserved and not sent |
| CacheUpdates.Client.ProcessUpdate | lsp/base_service_client/base_service_client.go:734-776 | *(supporting)* processing an update is the specified pair of steps |
| CacheUpdates.Client.DrainPending | lsp/base_service_client/base_service_client.go:778-788 | draining drops everything buffered, in order, and releases each update once |
| Symbols.DifferenceIsExact | lsp/base_service_client/base_service_client.go:1144-1152 | the clamped 64-bit difference of two 32-bit positions does not wrap around |
| Symbols.LengthIsPacked | lsp/base_service_client/base_service_client.go:1144-1154 | shift and bitwise or lose no bits of the two differences |
| Symbols.LengthOrdersLexicographically | lsp/base_service_client/base_service_client.go:1144-1154 | packed lengths are ordered as the pairs of line and character differences |
| Symbols.OverlapIff | lsp/base_service_client/base_service_client.go:1123-1142 | ranges overlap if and only if each starts no later than the other ends; ranges that do not end before they start, if and only if they have a position in common |
| Symbols.HitIff | lsp/base_service_client/base_service_client.go:1084-1106 | a symbol is considered if and only if the definition has a range, the two overlap, and the name matches |
| Symbols.VisitedInOrder | lsp/base_service_client/base_service_client.go:1081-1118 | a symbol is visited before its children, with its container's name, and these before what comes after it |
| Symbols.VisitedAreTheNodes | lsp/base_service_client/base_service_client.go:1081-1118 | what is visited shows exactly the nodes of the trees, with their names, kinds, tags, containers and preferred ranges |
| Symbols.PreorderIsTheTree | lsp/base_service_client/base_service_client.go:1081-1118 | the traversal visits exactly the symbols of the tree |
| Symbols.FoundIffSomeNodeHits | lsp/base_service_client/base_service_client.go:1076-1121 | a symbol is found if and only if some symbol of the tree overlaps the definition and matches |
| Symbols.FoundIsFirstSmallest | lsp/base_service_client/base_service_client.go:1076-1121 | it is the first in preorder of those whose range is shortest |
| Symbols.Search.Consider | lsp/base_service_client/base_service_client.go:1104-1113 | one comparison updates the best so far |
| Symbols.Search.Traverse | lsp/base_service_client/base_service_client.go:1081-1118 | the recursive traversal leaves the best of all it has visited |
| Symbols.FindDocumentSymbolAtLocation | lsp/base_service_client/base_service_client.go:1076-1121 | the code returns the specified symbol |
| Labels.WrittenAsReadIff | engine/labels/labels.go:35-40 | a label is written back as it was read if and only if it does not end in `=` |
| Labels.ParseInvertsAsString | engine/labels/labels.go:150-181 | reading what was written gives the label again, so no two labels are written alike |
| Labels.LabelIsSplitAtEquals | engine/labels/labels.go:150-181 | a label is read as the key before its `=` and the value after it |
| Labels.TokensOfSpaced | engine/labels/labels.go:254-264 | writing an expression's tokens with blanks and tokenizing gives the same tokens |
| Labels.ByKeyHolds | engine/labels/labels.go:129-147 | a key and value are in the map if and only if the list has that label |
| Labels.ValuesOfAre | engine/labels/labels.go:129-147 | *(supporting)* the values of a key are those that the list's valid labels give it |
| Labels.ParseLabels | engine/labels/labels.go:129-147 | the loop builds that map and reports whether a label was invalid |
| Labels.Tokenize | engine/labels/labels.go:254-264 | the loop gives the trimmed, non-empty matches |
| Labels.GetLabelsFromExpression | engine/labels/labels.go:199-213 | the labels of an expression, or an error if one is invalid |
| Labels.ReplaceMap | engine/labels/labels.go:226-241 | the replacements do not depend on the order in which the map is iterated |
| Labels.GetBooleanExpression | engine/labels/labels.go:221-252 | every token is replaced by its label's match result or stays |
| Labels.ValueIsAnsweredIff | engine/labels/labels.go:226-240 | a label `k=v` is answered "true" if and only if some listed label has the key `k` and the values listed for `k` match `v` |
| Labels.KeyIsAnsweredIff | engine/labels/labels.go:226-240 | a label `k` is, if and only if some listed label has that key |
| Labels.InvalidIsPassedOn | engine/labels/labels.go:221-225 | a selector with a token that is neither an operator nor a label is passed on as it is |
| Labels.ReplacingIsHomomorphic | engine/labels/labels.go:241-252 | operators survive in order and each label becomes its match result |
| Labels.BooleanExpressionIs | engine/labels/labels.go:221-252 | however an expression over labels is written, the result is that expression with its labels answered |
| Labels.WrittenExpressionIsRead | engine/labels/labels.go:254-264 | every expression over labels can be written so that the tokenizer reads it back |
| Labels.AnsweredIsBooleanIff | engine/labels/labels.go:241-252 | replacing leaves only booleans as operands if and only if every operand is a label that is written back as it was read |
| Labels.BooleanIffLabelsOnly | engine/labels/labels.go:221-252 | however an expression is written, what the library is given is an expression over booleans if and only if that is so |
| Labels.DoubleEqualsIsNotReplaced | engine/labels/labels.go:226-250 | a valid label with two `=` at its end holds and is not replaced |
| Labels.SelectorMeansItsExpression | engine/labels/labels.go:42-63 | without an include override a selector matches exactly when the listed labels satisfy its expression: keys present and values matched at the operands, combined by its `!`, `&&` and `||` |
| Labels.OverrideIsFirstInclude | engine/labels/labels.go:43-53 | the override is what the first valid include label of the list says |
| Labels.OverrideSays | engine/labels/labels.go:43-53 | the override is a match if and only if the first valid label with the include key has the value "always", and none if and only if it has "never" |
| Labels.Matches | engine/labels/labels.go:42-63 | the override decides, or else the library's evaluation of the boolean expression |
| Labels.SomeEvaluatorEvaluatesBooleans | engine/labels/labels.go:94-108 | what is relied on from the evaluation library can be met |
| Framing.FrameIs | jsonrpc2_v2/frame.go:166-183 | what is written, literally |
| Framing.DigitsAre | jsonrpc2_v2/frame.go:173 | *(supporting)* numbers are written with the usual decimal digits |
| Framing.LengthIsRead | jsonrpc2_v2/frame.go:131-148 | the line that names a length from 1 to 2^31-1 is read as that length |
| Framing.LineWithColon | jsonrpc2_v2/frame.go:131-151 | a line with a colon is ignored unless exactly `Content-Length` stands before its first colon |
| Framing.LineWithoutColon | jsonrpc2_v2/frame.go:131-139 | any other line ends the header when it is blank and is an error otherwise |
| Framing.MissingLengthIsReported | jsonrpc2_v2/frame.go:153-155 | a header that ends without a length is an error |
| Framing.SignedLengths | jsonrpc2_v2/frame.go:143 | *(supporting)* which texts are 32-bit numbers |
| Framing.CountIsExact | jsonrpc2_v2/frame.go:111-164 | whatever comes in, the byte count and what remains make up the input |
| Framing.RoundTripIff | jsonrpc2_v2/frame.go:111-183 | a written message is read back, with an equal count, if and only if its body has 1 to 2^31-1 bytes |
| Framing.WrongLengthIsRefused | jsonrpc2_v2/frame.go:138-150 | other lengths are refused when the length line is read |
| Framing.StreamGrows | jsonrpc2_v2/frame.go:166-183 | each write adds its message at the end of the stream |
| Framing.StreamIsReadBack | jsonrpc2_v2/frame.go:111-183 | any list of messages is read back with equal counts, followed by a clean end |
| Framing.OtherHeadersAreIgnored | jsonrpc2_v2/frame.go:151-154 | a header line with another name changes nothing but the count |
| Framing.TruncationIsNoticed | jsonrpc2_v2/frame.go:119-163 | a truncated message is never read as a message, and is a clean end exactly when nothing or a whole header is there |
| Framing.WholeEndBeforeTheCut | jsonrpc2_v2/frame.go:166-183 | *(supporting)* `Whole` is the largest number of messages that lie before the cut |
| Framing.CutStreamIsReadUpToTheCut | jsonrpc2_v2/frame.go:111-164 | from any list of messages cut anywhere, exactly the messages before the cut are read with their counts, and the end is clean if and only if the cut is between two messages or between a header and its body |
| Framing.HeaderWriter.Write | jsonrpc2_v2/frame.go:166-183 | appends the framed message and returns its length |
| Framing.HeaderReader.ParseHeader | jsonrpc2_v2/frame.go:131-154 | what one header line says, with its three errors |
| Framing.HeaderReader.ReadHeaders | jsonrpc2_v2/frame.go:117-155 | the loop over the header lines |
| Framing.HeaderReader.Read | jsonrpc2_v2/frame.go:111-164 | the code reads the specified message or fails with the specified error and count |
| Doubles.RoundedIsNearest | jsonrpc2_v2/messages.go:138-141 | the conversion of an id to a double rounds to nearest |
| Doubles.RoundedIsSameIff | jsonrpc2_v2/messages.go:138-141 | an integer survives it if and only if it has at most 53 significant bits |
| Doubles.TiesGoToEven | jsonrpc2_v2/messages.go:138-141 | halfway between two neighbours the even significand is taken |
| Messages.WireErrorSays | jsonrpc2_v2/messages.go:99-116 | an error is sent with its outermost message and the code of the wire error in it |
| Messages.WireErrorIsKept | jsonrpc2_v2/messages.go:99-107 | *(supporting)* no error and a wire error are sent as they are |
| Messages.OtherErrorIsConverted | jsonrpc2_v2/messages.go:108-116 | any other error is sent with its own message and the code of the wire error that it wraps, however deep, or zero |
| Messages.ConvertError | jsonrpc2_v2/messages.go:99-116 | the search through wrapped errors gives that wire error |
| Messages.IDComesBackIff | jsonrpc2_v2/messages.go:135-148 | an id comes back unchanged if and only if a double holds it, or it rounds to 2^63 and is what the machine makes of that |
| Messages.SmallIDsComeBack | jsonrpc2_v2/messages.go:135-148 | every integer id up to 2^53 in magnitude does, and 2^53+1 does not |
| Messages.WireFields | jsonrpc2_v2/messages.go:80-97 | the fields on the wire of a request and of a response |
| Messages.ReadFields | jsonrpc2_v2/messages.go:135-169 | what a wire form is read as: a request when it has a method, otherwise a response |
| Messages.UnreadableIsReported | jsonrpc2_v2/messages.go:128-158 | the three errors and when they are given |
| Messages.SeenIDIs | jsonrpc2_v2/messages.go:138-141 | an integer id is seen as the nearest double, with its sign |
| Messages.ArrivesIff | jsonrpc2_v2/messages.go:128-170 | *(supporting)* kind, method, params or result and error arrive if and only if a request has a method and a response an id |
| Messages.OtherwiseItIsMisread | jsonrpc2_v2/messages.go:149-158 | *(supporting)* other requests are read as empty responses or not at all |
| Messages.RequestComesBackIff | jsonrpc2_v2/messages.go:80-86 | a request arrives unchanged if and only if it has a method and an id that survives |
| Messages.ResponseComesBackIff | jsonrpc2_v2/messages.go:93-97 | a response does if and only if it has an id that survives and its error is a wire error |
| Messages.SecondPassIsIdentityIff | jsonrpc2_v2/messages.go:118-170 | what has arrived once arrives unchanged when it is passed on, unless its id rounds to 2^63 on a machine that makes of it an integer no double holds |
| Messages.OverflowIsStableInPractice | jsonrpc2_v2/messages.go:138-141 | no machine that gives the largest or the smallest integer is like that |
| Messages.DecodedIsWellFormed | jsonrpc2_v2/messages.go:128-158 | *(supporting)* which wire forms are messages |
| Messages.WireCombined.Fill | jsonrpc2_v2/messages.go:80-97 | `marshal` fills in the fields of its kind and leaves the others |
| SpanIds.OddCancels | event/export/id.go:40-49 | an odd factor can be cancelled modulo a power of two |
| SpanIds.DistinctIffOdd | event/export/id.go:40-49 | 2^64 successive values are distinct if and only if the increment is odd |
| SpanIds.NextIDIs | event/export/id.go:63-71 | the next id is the sum modulo 2^64, or the increment itself where that is zero |
| SpanIds.IdIsNotZero | event/export/id.go:63-71 | no id is zero |
| SpanIds.IdsAreDistinct | event/export/id.go:63-71 | the first 2^64-1 ids are pairwise distinct |
| SpanIds.ThenTheyRepeat | event/export/id.go:63-71 | the values have period 2^64 |
| SpanIds.UnseededGivesZero | event/export/id.go:63-68 | before seeding every addition gives zero, so the loop would not end |
| SpanIds.Generator.InitGenerator | event/export/id.go:40-49 | or-ing 1 makes the random increment odd and changes nothing else |
| SpanIds.Generator.AddUntilNonZero | event/export/id.go:63-68 | the loop makes at most two additions |
| SpanIds.Generator.NewSpanID | event/export/id.go:63-71 | the code gives the next id of the sequence |
| SpanIds.Exporter.Start | event/export/trace.go:62-73 | a start event always finds the generator seeded, inherits the parent's trace id and takes a fresh span id |

## Left out

- Labels.SelectorMeansItsExpression: selectors that are not fully parenthesised, because the evaluation library decides how operators bind.
- IdleListener.ClosedByOneSide: not that it is closed once in all, because two calls of `Close` close it twice; `ExplicitClosesAreCounted` says how often.
- SpanIds.Generator.NewSpanID: the atomic additions of several goroutines at once, which are those of one caller here; a value depends only on the number of its addition, so `DistinctIffOdd` speaks about every interleaving.
- CacheUpdates.Client.DrainPending: the loop run on its own; what is sent meanwhile is in the state machine of the same module.
- WorkerPool.RecordedExactlyOnce: of rules that share an id in one rule set, which one's error or violation is left; `RecordedIffSomeRuleSays` says where the id is listed.
- Contexts are reduced to whether they are cancelled, and errors to which kind they are; error texts, the connection's reported close error, event tracing, logging and metrics are not modelled.
- The wrap-around of the 64-bit sequence numbers of outgoing calls, and of the 32-bit counters of rules and files.
- In the connection, the return of the writer token is one step with the last action under it, and a write that fails has written nothing.
- A handler or preempter that breaks its contract: a second or concurrent `Respond`, or an asynchronous result for a notification.
- JSON text, YAML, regular expression, version and expression libraries: the models work on decoded values, on the match results of the code's own patterns and on abstract predicates.
- White space outside ASCII in header lines, and ids with a fractional part or beyond the range of a double, which the specification does not allow.
- The raw framer, and server and dialer set-up.
- In the rule parser, the `providers` and `providerConditions` maps, and what a provider makes of its condition.
- The capacity and sharing of Go slices: the splices of the parser are on values.
- In the worker pool, cancellation and several runs at once, the tagging rules that run before it, the selection of rules by labels, and how a violation is built.
- In the cache updates, what processing does with a file, and the misuse of a WaitGroup by an addition that races with a wait.
- The matching of label values with version ranges, and of symbols by name patterns, which are parameters.
- Trace ids, apart from their seeding the span ids.
- The deduplication of dependencies, progress reporters, the command line and the protocol's generated marshalling.

# Verified model of the YoMo zipper, its stream operators and its function-call bridge

YoMo connects *sources* and *stream functions* through *zippers*. A client opens a connection with a handshake, a zipper
routes every data frame to the stream functions that observe its tag, zippers pass frames on to each other in a mesh, and
an AI bridge fires a language model's tool calls as frames and collects the functions' replies. This project models the
parts of YoMo where many things happen at once or where bytes and buffers are reused, and proves what they promise.

| file | what it models |
|---|---|
| `Zipper.dfy` | all connections of one zipper as a step system: handshake, storing, indexing, registering, serving, routing passes, teardown, shutdown; any number of goroutines, any interleaving |
| `Lifecycle.dfy` | what becomes of a connection in terms of its handshake, over whole runs of that system: where frames go, what is registered, what a closed connector stops, and that nothing gets stuck |
| `Connector.dfy`, `Router.dfy`, `Register.dfy` | the three mutable tables the goroutines share, as classes; connector and router are specified by the log of the calls made on them |
| `Mesh.dfy` | frames in an arbitrary, possibly cyclic, mesh of zippers: termination, the one-hop bound, conservation of copies |
| `Metadata.dfy` | metadata merged, traced and re-encoded at every hop |
| `CountWindow.dfy` | the count window with Go's aliasing `append` on a real array; a pure loop it refines; the promised windows |
| `TimeWindow.dfy` | the time window that prunes as it goes, against a reference that filters the whole history |
| `FanIn.dfy`, `FunctionCall.dfy` | fan-out and fan-in of function calls for any number of interleaved requests |
| `ToolCalls.dfy` | assembly of streamed tool calls, and the two loops matching calls to tags |
| `Deno.dfy`, `Bytes.dfy` | the socket protocol between the Go and the TypeScript end of a Deno function |
| `Wasm.dfy` | the exchange of buffers with a wasm guest: the two-call size negotiation with a reused buffer, and the host's response |
| `Client.dfy` | a client's attempts, redirects, reconnections and handshake IDs |
| `Common.dfy` | options, sequences without repetitions |

Each mutex or `sync.Map` operation is one atomic step of a step system. A `for range` over a Go map visits its keys in an
arbitrary order, which the methods choose nondeterministically. What a network, a clock, a timer, a foreign codec or a
user's handler does is a parameter, quantified over by every theorem; a handler's answers may change from call to call.
Integer wrap-around is written out where it matters: connection IDs and reconnection counters (64 bits), lengths and
counts on the Deno socket and in wasm memory (32 bits).

## How the main results fit together

* **Zipper.** `Zipper.RunKeepsInv` carries an invariant over every run; from it follow `RegisteredIsRoutedIsConnected`,
  `RoutedIsMeant`, `RegisterHoldsLastTag`, `StoreReplacesNothing`, `PassWritesOnceToMeant`, `PassForgetsNobody`,
  `NoWriteAfterTeardown` and `RoutedFramesCarryNoDefinition`. Its agreement of router and connector is claimed while the
  connector is open: shutdown closes the connector first and releases the router later. `Lifecycle` carries the handshake
  through every run and restates the results over it (`AcceptedIsRouted`, `FrameGoesWhereMeant`,
  `RegisteredByHandshake`); `HandshakeSucceeds`, `FrameIsDelivered` and `LeavesCleanly` show that each goroutine can go
  its way to the end.
* **Mesh.** `EveryInterleavingEnds` and `WorkLeftCanProceed` together say that every run ends, and ends with nothing left
  to do; `HandledAsOftenAsPointedAt` says how often each zipper has handled each frame then, less the writes
  that failed, counting the run's steps and the places in the topology itself.
* **Count window.** `Operator.Receive` refines one step of a pure loop; `LoopHandsOutPromised` proves the pure loop's calls
  to be the promised ones; `Append` keeps every slice handed out before. The promise is the code's own: with a slide above
  one the first window is held until the first call, and the values that arrive meanwhile are skipped.
* **Time window.** `SlidingWindowWithTime` ends with exactly the calls of `NaiveCalls`, given a clock that never goes back.
* **Fan-in.** `CounterIsAddedLessReduced` ties the wait counter to the factors added and the replies reduced in the run's
  steps. Isolation between requests needs no hypothesis on replies. Counting does: the code writes a call before it
  adds to the wait group. `PanicsExactly` gives the exact condition: a reply panics if and only if its request is owed
  nothing at that moment. `EarlyReplyPanics` with `FirstCallIsExposed` exhibits such runs. `WaitEndsComplete` and `Finish`
  ask only of the request's own calls that none had more replies than were added for it, which `WaitEndsWithAllReplies`
  shows to be necessary as well.
* **Byte protocols.** The round trips are if-and-only-if: `Deno.ResponseRoundTrip`, `Deno.OpeningRoundTrip`,
  `Wasm.Instance.GetBytes` and `Wasm.ResponseRoundTrip` name exactly the inputs that survive.
* **Client.** `ConnectAndServe` yields exactly the attempts described by `IsRun`; `HandshakeIdsAreDistinct` and
  `IdRepeatsWhenCounterWraps` say when two handshake IDs can be equal.

Two remarks on documentation. The connector's interface comment says that closing it again has no effect
(core/connector.go:42-45); the code returns an error then, and so does the model. The same comment says that a newer
connection replaces an older one with the same ID; `Zipper.StoreReplacesNothing` shows that this never happens.

## Model

| member | source | states |
|---|---|---|
| Zipper.IdsRepeatExactly | core/connection.go:11-16 | two connections have the same ID exactly when their numbers agree modulo 2^64; among the first 2^64 all IDs differ |
| Zipper.LocalStep | core/server.go:162-178 | a step of one goroutine that keeps its own connection's invariant and touches no other entry of the shared tables keeps the invariant of all connections |
| Zipper.KeepAccept | core/server.go:292-308 | a new connection has its ID and its handshake's type, tags and wanted target, or else the target authentication set; it is unknown to every table |
| Zipper.KeepMayStore | core/connector.go:63-67 | being refused by a closed connector, or let through by an open one, keeps the invariant |
| Zipper.KeepStore | core/connector.go:69-69 | storing keeps the invariant, even if the connector has been closed since it was asked |
| Zipper.IndexEndsHandshake | core/server.go:234-243 | putting the definition into the metadata changes nothing the router reads, and only stream functions get a rule |
| Zipper.KeepIndex | core/server.go:310-315 | adding the route rules of a stream function keeps the invariant |
| Zipper.KeepIntercept | pkg/bridge/ai/ai.go:26-43 | the middleware starts its loop for stream functions with a definition only, with nothing registered yet |
| Zipper.KeepRegisterTag | pkg/bridge/ai/ai.go:45-59 | registering one more observed tag keeps the invariant, although it replaces the connection's earlier tag in the register |
| Zipper.KeepBlank | pkg/bridge/ai/ai.go:31-34 | blanking the definition before serving keeps the invariant and establishes the blank |
| Zipper.KeepStartPass | core/server.go:355-356 | the IDs a routing pass starts with all belong to stream functions the frame is meant for |
| Zipper.KeepMayLookup | core/connector.go:87-91 | asking whether the connector is closed, and skipping the ID if so, keeps the invariant |
| Zipper.KeepLookup | core/server.go:362-370 | looking a routed ID up gives the connection with that ID, or skips it |
| Zipper.KeepWrite | core/server.go:372-384 | a write goes to the connection looked up and to none written before in this pass |
| Zipper.KeepUnregister | pkg/bridge/ai/ai.go:35-38 | leaving the register first keeps registered functions routed |
| Zipper.KeepUnindex | core/server.go:174-176 | leaving the router before the connector keeps routed connections connected |
| Zipper.KeepMayDrop | core/connector.go:75-79 | a closed connector ends the teardown without removing |
| Zipper.KeepDrop | core/server.go:177-177 | leaving the connector last keeps the invariant |
| Zipper.KeepShutdown | core/server.go:425-442 | closing the connector, deleting its entries in any order and releasing the router keep what the invariant still claims |
| Zipper.StepKeepsInv | core/server.go:162-387 | every step of every goroutine keeps the invariant |
| Zipper.RunKeepsInv | core/server.go:162-387 | the invariant holds in every state of every run |
| Zipper.RegisteredIsRoutedIsConnected | core/server.go:162-248 | while the connector is open: registered functions are routed under their tag, routed connections are in the connector, and the factor of a tag never exceeds the number of connections an untargeted frame goes to |
| Zipper.FactorIsExact | pkg/bridge/ai/register/register.go:108-118 | while the connector is open, a tag's factor equals the number of connections an untargeted frame goes to if and only if every indexed stream function observing the tag is registered, and under this tag |
| Zipper.RoutedIsMeant | core/server.go:310-315 | while the connector is open, the router names exactly the indexed stream functions whose connection record observes the tag and has the target; `Lifecycle.AcceptedIsRouted` says the same of the handshake |
| Zipper.RegisterHoldsLastTag | pkg/bridge/ai/ai.go:26-61 | the register holds exactly the connections past a first registered tag and not yet unregistered, each under the latest of its tags only |
| Zipper.StepForward | core/server.go:162-178 | no step takes a goroutine back: what was indexed stays so or is gone, what left the router stays out |
| Zipper.RunReaches | core/server.go:362-384 | in every run, while the connector is open, every ID a pass has dealt with was written to or is gone |
| Zipper.PassForgetsNobody | core/server.go:331-387 | a pass that ends while the connector is open has written to every connection it was routed to and that is not gone |
| Zipper.StoreReplacesNothing | core/server.go:292-308 | an ID about to be stored is not in the connector |
| Zipper.PassWritesOnceToMeant | core/server.go:331-387 | in every run a routing pass writes at most once to a connection, and only to stream functions that observe the tag and match the target |
| Zipper.TeardownLasts | core/server.go:174-177 | a connection once torn down stays so, and no later pass lists its ID |
| Zipper.NoWriteAfterTeardown | core/server.go:162-178 | a pass that starts after a connection left the router never writes to it |
| Zipper.FrameMdIsBlank | core/context.go:63-67 | behind the middleware, merging and tracing leave a frame with an empty definition, whatever it arrived with |
| Zipper.RoutedFramesCarryNoDefinition | pkg/bridge/ai/ai.go:31-34 | with the middleware installed, every routing pass of every run is made with an empty function definition |
| Lifecycle.RunKeepsOrigins | core/server.go:203-248 | in every run a connection's type, tags, wanted target and definition are those its handshake and authentication gave, through every step |
| Lifecycle.AcceptedKeepsHandshake | core/server.go:292-308 | the connection accepted in a step keeps the handshake of that step |
| Lifecycle.AcceptedIsRouted | core/server.go:292-315 | while the connector is open, the router names a connection exactly between the end of its handshake and its teardown, for the tags its handshake lists and the target it wants: the handshake's if not empty, else what authentication set |
| Lifecycle.PassIsOfFrame | core/server.go:355-356 | a routing pass keeps the tag of its frame, the metadata merged from frame and connection and traced, and the router's answer |
| Lifecycle.FrameGoesWhereMeant | core/server.go:331-387 | a pass writes to no connection twice and only to those that had completed their handshake, observe the tag and want the target; once over, with the connector open, to each of these that is not gone |
| Lifecycle.RegisteredByHandshake | pkg/bridge/ai/ai.go:26-61 | once the middleware is through with a connection and until it unregisters it, it is registered exactly if it is a stream function with tags and a definition that decodes; under its last tag, with that tool |
| Lifecycle.ClosedAdmitsNobody | core/connector.go:62-72 | who asks a closed connector is refused and never gets beyond the handshake |
| Lifecycle.ClosedPassWritesNoMore | core/connector.go:86-91 | a pass that asks a closed connector writes to no further connection |
| Lifecycle.ShutdownTakesOut | core/connector.go:137-152 | what a closed connector holds, only the shutdown takes out |
| Lifecycle.ReleasedRouterNamesNobody | core/router/router.go:99-105 | after a release no frame is routed to anybody |
| Lifecycle.HandshakeSucceeds | core/server.go:203-275 | from any state with an open connector a client can connect, through registration, until it is served |
| Lifecycle.FrameIsDelivered | core/server.go:331-387 | with the invariants and an open connector, any frame that arrives can be routed to the end, to everybody the router names |
| Lifecycle.LeavesCleanly | core/server.go:174-177 | a served connection can be torn down to the end |
| Connector.TableIsLog | core/connector.go:62-99 | after any calls, the table is closed exactly when a Close was among them, and else holds under an ID exactly what it was last stored with and not removed since |
| Connector.Connector.Put | core/connector.go:62-72 | Store: refused exactly when a Close came before; the table becomes that of the log with this call |
| Connector.Connector.Delete | core/connector.go:74-84 | Remove: refused exactly when a Close came before; the table becomes that of the log with this call |
| Connector.Connector.Get | core/connector.go:86-99 | closed, or found exactly with the connection the log says is held, or missing |
| Connector.Connector.Shut | core/connector.go:137-152 | Close: closes first, then empties the table entry by entry; a second close is an error |
| Router.IndexedTags | core/router/router.go:54-61 | indexing under a list of tags adds exactly those pairs |
| Router.TableIsLog | core/router/router.go:45-105 | after any calls, the two maps say exactly what the log of Adds since the last Remove or Release says |
| Router.RouteMeaning | core/router/router.go:66-86 | the routed set is, for every log, the IDs whose live Adds include the tag and whose latest wanted target is the frame's, if it has one |
| Router.Table.AddRoute | core/router/router.go:45-64 | the maps become those of the log with this Add |
| Router.Table.RemoveRoute | core/router/router.go:88-97 | the maps become those of the log with this Remove |
| Router.Table.Clear | core/router/router.go:99-105 | the maps become those of the log with a Release |
| Router.Table.Route | core/router/router.go:66-86 | lists, without repetition and in any order, exactly the connections the log routes the frame to |
| Router.SameForever | core/router/router.go:45-105 | tables equal up to empty entries stay so under any further calls |
| Router.ConnectionLeavesNoTrace | core/router/router.go:88-97 | adding and removing a connection is unobservable by any further calls if and only if the table did not know it before |
| Router.RevealTarget | core/router/router.go:49-52 | a target left behind can always be observed |
| Register.Registry.RegisterFunction | pkg/bridge/ai/register/register.go:90-101 | replaces the connection's function, so that a connection counts for one tag only |
| Register.Registry.UnregisterFunction | pkg/bridge/ai/register/register.go:103-105 | lowers the factor of the tag the connection counted for by one, and no other |
| Register.Registry.ListToolCalls | pkg/bridge/ai/register/register.go:78-88 | a tag is listed exactly when its factor is at least one, with the tool of one of its connections |
| Register.Registry.SfnFactor | pkg/bridge/ai/register/register.go:108-118 | the number of connections registered under the tag, whatever the visiting order |
| Register.FactorsCountConnections | pkg/bridge/ai/register/register.go:108-118 | the factors of the listed tags sum to the number of registered connections |
| Mesh.NewZipper | zipper.go:65-87 | the downstream table has an entry for every mesh entry but the unnamed and the zipper's own, and no other, in any visiting order |
| Mesh.OneDownstreamPerEntry | zipper.go:65-87 | with distinct client IDs there is exactly one downstream for each such entry |
| Mesh.StepDescends | core/server.go:389-423 | every step lowers the lexicographic measure of waiting client copies, writes to do, waiting zipper copies |
| Mesh.DescentEnds | core/server.go:389-423 | the measure allows no infinite descent |
| Mesh.EveryInterleavingEnds | core/server.go:389-423 | for every topology, no infinite interleaving exists |
| Mesh.WorkLeftCanProceed | core/server.go:250-275 | a state with work left has a step |
| Mesh.FanCounts | core/server.go:405-420 | a dispatched frame makes as many copies for a zipper as downstreams point at it |
| Mesh.ClientStepKeepsInv | core/server.go:317-329 | handling a client's frame keeps the account of every frame's copies |
| Mesh.ZipperStepConserves | core/server.go:391-396 | handling an upstream zipper's frame, and writing to a downstream, make no copies |
| Mesh.StepKeepsInv | core/server.go:317-423 | every step of every zipper keeps the account of copies and hops |
| Mesh.RunKeepsInv | core/server.go:317-423 | the account of copies and hops holds in every state of every run |
| Mesh.OneHopAtMost | core/server.go:391-396 | no copy travels more than one zipper-to-zipper hop |
| Mesh.RunRecords | core/server.go:317-329 | what the state records as handled and lost is the number of such steps of the run |
| Mesh.PointingIsPlaces | zipper.go:79-86 | a zipper's downstreams pointing at another are the places of its entry in the topology that name it |
| Mesh.StuckIsQuiescent | core/server.go:250-275 | when no step is possible, nothing is waiting |
| Mesh.HandledAsOftenAsPointedAt | core/server.go:389-423 | over the run's steps and the topology itself: a zipper handles a frame at most once as entry plus once for each place in the entry's downstream list naming it; when no step is possible any more, exactly that often less the failed writes |
| Metadata.Merge | core/context.go:63-67 | the frame's metadata overlaid by the connection's pairs with a non-empty key, in any visiting order |
| Metadata.Clone | core/metadata/metadata.go:61-73 | a copy without the empty key |
| Metadata.HandleMetadata | core/server.go:348-353 | what a receiver decodes is the merged and traced metadata; undecodable metadata is an error |
| Metadata.OverlayGets | core/context.go:63-67 | key by key, the connection's value under a non-empty key, else the frame's |
| Metadata.DecodeEncodes | core/metadata/metadata.go:28-35 | metadata survives the wire, where no bytes stand for no metadata |
| Metadata.PropagateSets | pkg/trace/trace.go:95-103 | a valid trace ID and a valid span ID go under their own keys, and nothing else changes |
| Metadata.PropagateIgnoring | pkg/trace/trace.go:95-103 | tracing touches the two trace keys only |
| Metadata.TracingIsTheOnlyAddition | core/context.go:57-67 | over any number of hops, apart from the trace keys, metadata is the original overlaid by each connection in order |
| Metadata.LastSetterDecides | core/context.go:57-67 | a key has the value of the last connection on the path that sets it, else the source's |
| Metadata.TargetSurvives | core/server.go:398-403 | a target is kept over every hop on which no connection sets one |
| CountWindow.CallAtClosed | rx/stream_operator.go:708-709 | call k is caused by value number w-1+k*slide |
| CountWindow.CallsCountCallAts | rx/stream_operator.go:699-716 | the number of calls after n values counts exactly those numbers |
| CountWindow.MultipleIsMod | rx/stream_operator.go:709-709 | the slide counter test is the remainder test |
| CountWindow.ValuesConcat | rx/stream_operator.go:689-691 | an item counts exactly if it is a value, wherever it comes: errors are skipped and end nothing |
| CountWindow.ValuesOfOne | rx/stream_operator.go:689-691 | a value counts, an error does not |
| CountWindow.WindowElements | rx/stream_operator.go:693-717 | value by value: the window of call k runs on from place (k-1)*slide, skipping slide-1 values after the first w |
| CountWindow.SlideOneIsLastValues | rx/stream_operator.go:693-717 | with a slide of one each call gets exactly the last w values |
| CountWindow.Append | rx/stream_operator.go:705-705 | Go's append for every growth choice: the window slides, and every slice handed out keeps its contents though the array may be shared |
| CountWindow.LoopCounted | rx/stream_operator.go:694-716 | counters, fill level and number of calls after any values |
| CountWindow.LoopHolds | rx/stream_operator.go:694-706 | what the buffer holds after any values |
| CountWindow.LoopHandsOutPromised | rx/stream_operator.go:693-717 | call k gets the last w of the first w values followed by those from number w+slide on |
| CountWindow.Operator.Receive | rx/stream_operator.go:693-718 | the in-place loop body is one step of the pure loop and keeps every slice handed out |
| CountWindow.SlidingWindowWithCount | rx/stream_operator.go:663-725 | for every stream, sizes and handler: the calls are the promised ones, every slice handed out still shows its window at the end, values are passed on unless the handler fails, and non-positive sizes are refused |
| TimeWindow.FilterTwice | rx/stream_operator.go:739-749 | pruning by an earlier bound first changes nothing |
| TimeWindow.FilterConcat | rx/stream_operator.go:743-748 | an item is kept or thrown away by itself, in order |
| TimeWindow.FilterOfOne | rx/stream_operator.go:744-744 | it is kept exactly if its time is not before the bound |
| TimeWindow.HistoryConcat | rx/stream_operator.go:797-800 | the history is what was received, in order |
| TimeWindow.HistoryOfOne | rx/stream_operator.go:792-800 | an item adds itself with its time, an error or a timer nothing |
| TimeWindow.ReferenceCalls | rx/stream_operator.go:766-778 | the reference, event by event: a slide timer and the stop check, a window timer only as the first timer; a check calls the handler with what is not too old, unless nothing is |
| TimeWindow.LiveCheck | rx/stream_operator.go:737-749 | pruning the buffer is filtering the whole history |
| TimeWindow.LiveFeed | rx/stream_operator.go:795-801 | a value that arrives is live |
| TimeWindow.Operator.CheckBuffer | rx/stream_operator.go:737-761 | keeps and hands over exactly what is not too old; after a handler error the mutex stays held |
| TimeWindow.Feed | rx/stream_operator.go:787-803 | receiving keeps the buffer equal to what is live |
| TimeWindow.Fire | rx/stream_operator.go:766-778 | each timer calls the handler exactly when the reference does |
| TimeWindow.SlidingWindowWithTime | rx/stream_operator.go:729-808 | until the first stop or the first handler error, whatever verdicts the handler gives from call to call, the calls are those of the reference that filters the whole history, never empty, and every value is passed on |
| FunctionCall.LlmContext.ReadLLMArguments | core/serverless/context_llm.go:10-23 | stores the call even when it then fails for want of arguments |
| FunctionCall.LlmContext.WriteLLMResult | core/serverless/context_llm.go:25-38 | writes the stored call with the result, or fails if none is stored |
| FunctionCall.Answer | core/serverless/context_llm.go:10-38 | the reply of a function that reads and then writes |
| FunctionCall.ReplyIdentifiesCall | ai/function_call.go:43-59 | request, transaction and tool-call IDs, name and arguments survive firing, reading, writing and parsing |
| FunctionCall.OnlyErrorIsLost | ai/function_call.go:43-59 | a message survives encoding and decoding exactly if it carries no error, and else loses that alone |
| FanIn.OwedUpdates | pkg/bridge/ai/service.go:516-516 | what a request is owed changes by one call's account only |
| FanIn.KeepFire | pkg/bridge/ai/service.go:537-559 | a written call carries its request's ID, and nothing is promised for it yet |
| FanIn.KeepAdd | pkg/bridge/ai/service.go:515-516 | the Add raises the counter by the factor and keeps the invariant |
| FanIn.AddPromises | pkg/bridge/ai/service.go:516-516 | in every run an Add raises the counter by exactly the factor, promises exactly that to the call just written, and changes nothing else |
| FanIn.CallsAreFired | pkg/bridge/ai/service.go:537-559 | the calls of a state are those the run's steps fired, with their request, tool ID and message |
| FanIn.CounterIsAddedLessReduced | pkg/bridge/ai/service.go:510-521 | over the run's steps: a request's counter is the sum of the factors added for it less the replies reduced to its calls, and its list of replies is exactly those |
| FanIn.RequestProceeds | pkg/bridge/ai/service.go:507-521 | a request is never stuck but in a wait, and waits exactly as long as it is owed replies |
| FanIn.RepliesProceed | pkg/bridge/ai/service.go:152-184 | any call fired can be answered and any reply be reduced |
| FanIn.OneCallCompletes | pkg/bridge/ai/service.go:494-534 | a run with one call, a factor of one and one reply ends with that reply as the result |
| FanIn.ReduceMeaning | pkg/bridge/ai/service.go:152-184 | a reply changes the entry of the request that fired its call, at that call's tool ID, and counts one |
| FanIn.StepKeepsInv | pkg/bridge/ai/service.go:494-534 | every step of every request and of the reducer keeps the invariant |
| FanIn.RunKeepsInv | pkg/bridge/ai/service.go:494-534 | it holds in every state of every interleaving |
| FanIn.RepliesStayWithTheirRequest | pkg/bridge/ai/service.go:162-183 | a result map changes only by a reply to a call of its own request |
| FanIn.ResultsAreLatestReplies | pkg/bridge/ai/service.go:173-180 | a result map holds exactly the answered tool IDs, each with its latest reply |
| FanIn.CounterCountsMissingReplies | pkg/bridge/ai/service.go:510-521 | the wait counter is promised less received replies; for a request none of whose calls had more replies than were added for it, never negative, and zero exactly when all have arrived |
| FanIn.WaitEndsWithAllReplies | pkg/bridge/ai/service.go:520-521 | a wait that ends has had all replies if and only if no call of the request has had more than were added for it |
| FanIn.PanicsExactly | pkg/bridge/ai/service.go:173-183 | in every run, a step panics if and only if it reduces a reply to a call of a request that is owed nothing |
| FanIn.RunPanicsExactly | pkg/bridge/ai/service.go:173-183 | a run has panicked if and only if its last step was such a reply |
| FanIn.OrderlyNeverPanics | pkg/bridge/ai/service.go:183-183 | where all replies come after their Adds and are no more than were added, nothing has panicked |
| FanIn.WaitEndsComplete | pkg/bridge/ai/service.go:520-534 | at and after the end of a request's wait, if its own calls had no more replies than were added for them, there are results for exactly the tool IDs fired with a factor of at least one |
| FanIn.FinishedStays | pkg/bridge/ai/service.go:520-533 | while nothing panics, no step changes a request whose wait has ended, so the messages do not depend on when they are collected |
| FanIn.Finish | pkg/bridge/ai/service.go:520-534 | the messages of a finished request are one for each tool ID fired with a positive factor, with the latest reply to it |
| FanIn.EarlyReplyPanics | pkg/bridge/ai/service.go:510-516 | any run that stands between a first write and its Add can go on to a panic |
| FanIn.FirstCallIsExposed | pkg/bridge/ai/service.go:507-516 | a run stands there for every request and tool |
| FanIn.Collect | pkg/bridge/ai/service.go:523-533 | exactly one "tool" message for each entry, in any visiting order |
| ToolCalls.AbsorbStep | pkg/bridge/ai/service.go:369-389 | one delta extends the call its index names and leaves the others |
| ToolCalls.DeltasConcat | pkg/bridge/ai/service.go:357-369 | the deltas of a stream are those of its messages, in order |
| ToolCalls.DeltasOfOne | pkg/bridge/ai/service.go:365-369 | a message has its first choice's deltas, or none without a choice; the stream goes on behind it |
| ToolCalls.OfSelects | pkg/bridge/ai/service.go:371-372 | a call's fragments are exactly those with its index, in order |
| ToolCalls.FirstFragment | pkg/bridge/ai/service.go:373-388 | the first fragment gives ID, type, name and arguments |
| ToolCalls.CallExtends | pkg/bridge/ai/service.go:382-388 | a further one appends to the arguments, and replaces the name unless it has none |
| ToolCalls.FoldAssembles | pkg/bridge/ai/service.go:368-390 | after any deltas each index has the first ID and type, the last non-empty name and the concatenated arguments |
| ToolCalls.Assemble | pkg/bridge/ai/service.go:357-397 | the same over the messages of a stream; a delta without an index panics, and nothing else does |
| ToolCalls.MapToSlice | pkg/bridge/ai/service.go:642-648 | the slice writes stay in range exactly when the indexes are 0 to n-1, and then every entry is the map's |
| ToolCalls.StreamedCalls | pkg/bridge/ai/service.go:357-404 | no panic if and only if every delta has an index and the indexes are 0 to n-1; then call k is what its fragments amount to |
| ToolCalls.InterleavingIsImmaterial | pkg/bridge/ai/service.go:357-404 | streams that agree on each index's own fragments assemble to the same calls |
| ToolCalls.InterleavedStreamsAgree | pkg/bridge/ai/service.go:357-404 | such streams end in the same list, or both panic |
| ToolCalls.MatchOne | ai/openai.go:49-60 | one call is appended to exactly the tags whose tool has its name and type, or to all, in any visiting order |
| ToolCalls.HittingSelects | pkg/bridge/ai/service.go:432-438 | the calls that go to a tool stand at exactly the places with its name and type, in order |
| ToolCalls.MatchStreamed | pkg/bridge/ai/service.go:430-439 | a tag is present exactly if some call has its tool's name and type, and gets exactly those calls, with their multiplicity and order |
| ToolCalls.ConvertToInvokeResponse | ai/openai.go:12-64 | a stop in any mixture of cases gives no calls, no calls is an error; otherwise each tag gets the calls with its tool's name and type, or for "gemini_tool_calls" all |
| ToolCalls.MatchingIsDetermined | ai/openai.go:48-61 | the matching has one answer |
| ToolCalls.BothLoopsAgree | ai/openai.go:48-61 | for "tool_calls" both loops give the same, in visiting orders of their own |
| Deno.SendableReads | cli/serverless/deno/runtime.go:127-152 | a sendable write is read back and the loop goes on behind it |
| Deno.UnsendableReads | cli/serverless/deno/runtime.go:140-142 | any other write is not read back |
| Deno.ResponseRoundTrip | cli/serverless/deno/runtime.go:127-152 | the Go loop recovers exactly the writes and stops behind the terminator if and only if no write is (0, empty) and tags and lengths fit in 32 bits |
| Deno.Send | cli/serverless/deno/mod/mod.ts:20-23 | tag, length and data are appended to the stream |
| Deno.ReceiveRequest | cli/serverless/deno/mod/mod.ts:97-106 | one request is taken off the stream, or none if it is cut short |
| Deno.Respond | cli/serverless/deno/mod/mod.ts:108-113 | the writes and the terminator are appended |
| Deno.CollectOne | cli/serverless/deno/runtime.go:127-149 | one round of the response loop is one round of the parser |
| Deno.CollectResponse | cli/serverless/deno/runtime.go:126-152 | the loop computes the parser's result and leaves the stream behind the terminator |
| Deno.Session | cli/serverless/deno/runtime.go:104-154 | any number of requests in turn, with a handler that may remember: each arrives as it was and what the handler writes comes back as it was |
| Deno.SendTags | cli/serverless/deno/mod/mod.ts:92-95 | count and tags are appended |
| Deno.Accept | cli/serverless/deno/runtime.go:45-63 | reads the list with a 32-bit product as size: end of stream, out of range, or the tags |
| Deno.OpeningRoundTrip | cli/serverless/deno/runtime.go:45-63 | the tag list arrives as it was if and only if there are fewer than 2^30 tags and each fits in 32 bits |
| Bytes.U32Digits | cli/serverless/deno/runtime.go:46-46 | 32-bit numbers are little-endian: byte i has the weight 256^i |
| Wasm.DisjointMeans | cli/serverless/wasm/wazero/memory.go:24-32 | regions are disjoint exactly if they share no address |
| Wasm.PatchedAt | cli/serverless/wasm/wazero.go:298-298 | a write changes the bytes of its range to the data and no other |
| Wasm.Instance.Make | serverless/guest/memory.go:25-30 | a new slice overlaps neither the read buffer nor any slice in use, which all keep their bytes |
| Wasm.Instance.ContextData | cli/serverless/wasm/wazero.go:286-304 | the size when it exceeds the limit, otherwise the data is written if in range |
| Wasm.Instance.GetBytes | serverless/guest/memory.go:18-34 | the slice shows the host's data if and only if its length fits in 32 bits, and every slice returned earlier keeps its bytes |
| Wasm.ReadAll | serverless/guest/memory.go:18-34 | after any number of requests through the one read buffer every slice still shows its own data, unless memory ran out |
| Wasm.Instance.AllocateBuffer | cli/serverless/wasm/wazero/memory.go:11-34 | which of the writes fail, and the memory after those that do not |
| Wasm.CellsSurvive | cli/serverless/wasm/wazero/memory.go:24-32 | with disjoint regions each of the three writes survives the later ones |
| Wasm.Instance.ReadBufferFromMemory | serverless/guest/memory.go:44-52 | a new buffer in guest memory with the bytes at the pointer, or a trap exactly when the last 32-bit load leaves the memory as it is after making the buffer; everything in use keeps its bytes |
| Wasm.Instance.FillByte | serverless/guest/memory.go:47-50 | a 32-bit load and a byte store extend the filled part by one byte, though the load may see bytes already filled |
| Wasm.SendResponse | cli/serverless/wasm/wazero/memory.go:11-34 | after allocating and writing, the two cells name a buffer with the host's data, and everything else in use keeps its bytes |
| Wasm.ResponseRoundTrip | serverless/guest/memory.go:44-52 | if memory suffices for both buffers, a response arrives byte for byte if and only if three bytes of memory exist behind it, else the guest traps; everything but the two cells keeps its bytes |
| Client.DecimalIsInjective | core/client.go:194-194 | different counters have different numerals |
| Client.DecimalDenotes | core/client.go:194-194 | the numeral consists of digits, denotes its number in base ten and has no leading zero |
| Client.HandshakeIdIsInjective | core/client.go:193-195 | an ID determines its base and its number, whatever dashes the base contains |
| Client.Client.TryConnect | core/client.go:187-241 | an ID is drawn, and the counter moved, only after a successful dial; which replies become which errors |
| Client.Client.HandleConnectResult | core/client.go:113-144 | when to try again, what to return, and which address to dial next |
| Client.Client.TakeTurn | core/client.go:98-144 | one attempt agrees with the description of the run |
| Client.Client.Connect | core/client.go:98-111 | the attempts up to the first connection or failure |
| Client.Client.RunBackground | core/client.go:146-185 | the attempts after it, until the connection is closed or an attempt is final |
| Client.Client.ConnectAndServe | core/client.go:98-185 | a whole run makes exactly the attempts described, and Connect fails exactly when the run ends before any connection |
| Client.FinalTurnsAreLast | core/client.go:113-144 | no attempt follows a rejection or an unexpected reply, nor a failure handled after cancellation |
| Client.OnlyRedirectsRepeat | core/client.go:132-143 | without the reconnect option, until connected a client repeats only after a redirect, and dials its endpoint |
| Client.AddressStands | core/client.go:132-136 | the address changes by redirects only |
| Client.IdRepeatsWhenCounterWraps | core/client.go:193-195 | within a client an ID comes back exactly when a multiple of 2^64 IDs were drawn in between |
| Client.HandshakeIdsAreDistinct | core/client.go:193-195 | the IDs of all clients with different bases are pairwise distinct over all their attempts, up to 2^64 of them each |

## Left out

- QUIC, TLS, sockets, HTTP serving, language-model providers, configuration, command line, tracing back ends and logging: input and output around the modelled logic.
- y3, msgpack and JSON: foreign codecs, taken to be invertible; a failing metadata or JSON encoder is not modelled. How a function definition decodes is an arbitrary function of its text.
- The context pool, `Keys` and `Release` (core/context.go): only the metadata merge of a context is modelled.
- `Find` and `Snapshot` of the connector: read-only listings that would only add easy members.
- Zipper.RegisteredIsRoutedIsConnected: claims nothing once the connector is closed, because shutdown releases the router after closing the connector.
- The order of frames on one connection: the mesh model lets a zipper handle waiting copies in any order, which includes the real one.
- Mesh.OneDownstreamPerEntry: takes the random client IDs to be distinct, as `FanIn` takes request IDs and `Client` takes base IDs.
- Writing the same window slice from inside a handler, and cancellation of the count window's context, which only cuts the run short.
- TimeWindow.SlidingWindowWithTime: assumes a clock that never goes back, and stops at the first handler error, after which the code holds its mutex for ever.
- FanIn.CounterCountsMissingReplies: the clauses about the sign and the zero of the counter assume `OrderlyFor` of the request, because the code adds to the wait group after writing the call; the exact conditions are in `PanicsExactly` and `WaitEndsWithAllReplies`.
- The factor added for a call is a parameter of `FanIn`; `Zipper.FactorIsExact` says when the register's factor is the number of functions that get the call.
- Replies forged by a function that does not answer the call it got, and functions that never reply: the first is outside the model, the second leaves the wait unfinished in it.
- The `RunHandler` lock, `write` and `writeWithTarget` of the wasm host, and the wasmtime and wasmedge variants.
- The guest's garbage collector: a buffer handed out by `alloc` is taken to stay in use although the guest keeps only its address.
- Deno.Session: one request at a time; concurrent handlers share the socket without a lock. A read of bytes that are available gets them all, and a read of no bytes succeeds.
- Closing of the client's `done` and `reConnect` channels, `Close`, `Wait`, and the read channel shared by successive connections: only attempts and IDs are modelled.
- Client.FinalTurnsAreLast: whether the context is cancelled is an input of each attempt, not a state of the client.

# A verified model of nut_webgui

nut_webgui shows the UPS devices of Network UPS Tools daemons. Its two crates talk to `upsd` over
the text protocol of RFC 9271, keep the state of each daemon in memory, and serve it. This Dafny
project models the four engines that carry the hard guarantees and proves them for all inputs, all
runs and all interleavings.

* **Wire text** (`Escape`, `Lexer`, `Values`, `Names`, `LineParser`, `ListResponses`, `ListGrammar`,
  `ListRoundTrip`, `ListOverWire`). Wire text is a string whose characters are bytes. The loops of
  the source (escaper, unescaper, lexer, line parsers, list deserializers, type inference) are
  methods proved against functions on lexemes; about those functions stand the exact set of
  accepted messages and the round trips.
* **Framing and the connection pool** (`Framing`, `ItemPool`, `Pool`, `PoolInvariants`, `PoolRuns`,
  `PoolProgress`, `PoolObject`, `PoolRetry`, `PooledLists`). `Pool` is a transition system whose steps
  are the stretches of code between two await points: waiting for a permit, popping, checking, opening, a
  request and its reply, testing the semaphore, pushing, deallocating, leaving, closing, clearing,
  and being cancelled at any of them. Any number of tasks interleave. A request that ends in an I/O
  error, a time-out, an empty reply or a cancellation leaves its connection in an arbitrary state.
  `ItemPool` is the same pool as an object with its loops, without interleaving; `PoolObject` proves
  that each of its operations is what the transition system does when one task runs alone.
  `PoolRetry` says what follows the first attempt of a call. `PooledLists` joins the pool, the framing
  and the list parser.
* **State synchronisation** (`UpsStatus`, `UpsEvents`, `AttachedClients`, `Events`, `DaemonState`,
  `DeviceSync`, `StatusSync`, `SyncServices`, `StatusMirror`, `SyncRuns`, `SyncEvents`). `DaemonState` is the locked object with
  its methods; `SyncServices` runs the two services as interleaved steps, one step for each lock
  section, with what was read earlier carried along. Device sync sends its events under the write
  lock, status sync after releasing it. `SyncEvents` says what a listener learns from the events.
* **Topology and tokens** (`Topology`, `TopologyGraph`, `Utf8`, `Tokens`).

`dafny verify dfyconfig.toml` checks the project.

Where code and documentation or expectation differ, the model follows the code:

* a UPS name may begin with a double quote, but such a name does not survive the wire
  (`HeaderNameReadsBack`, `UpsListReadsBack` give the exact condition);
* unescaping a backslash before a byte that is not ASCII splits a character and panics in the
  source; it is an error value here, and `ExtractQuoted` says exactly when it happens,
  `UnescapeCanPanic` gives an input;
* at the end of the stream inside a list the framing loop reads nothing for ever and only the
  time-out ends it (`CutResponseIsAnswered` says exactly for which cuts);
* extracting a UPS name at the end of the input reports a missing quoted text;
* after a failing quoted text the read head may stand behind the input; nothing is claimed there;
* the framing loop knows nothing of quotes, so a quoted text that holds a line feed and `END LIST`
  cuts a list short (`ListIsTaken` gives the exact condition);
* a reply to a partial sync is stored under the variable and device that the reply names, not those
  that were asked for (`ReplyKeepsMirror`, `StrayReplyBreaksMirror`);
* a release that has passed the closed test can still push after a close and a finished clear
  (`CloseLeavesNothing` gives the exact condition, `LateReleaseRemains` the run);
* ids that differ only in name are equal to the order of devices once a maker, model or serial
  number is known, although they are not equal values (`EqualMeans`).

Clocks, the network, reverse lookups, the allocator, the liveness check, the daemon's answers and
the MAC are parameters or nondeterministic. The semaphore, mutex, read-write lock and broadcast
channel are atomic primitives.

## Model

| member | source | states |
|---|---|---|
| Escape.EscapeNutStr | nut_webgui_upsmc/src/internal/escape.rs:3-30 | the slice-copying loop yields the text with a backslash before each double quote and backslash, byte by byte |
| Escape.ExtractQuoted | nut_webgui_upsmc/src/internal/lexer.rs:98-130 | the slice-copying unescape loop succeeds exactly if every backslash stands before an ASCII byte (otherwise a slice would split a character and panic), and then yields the per-byte unescaping |
| Escape.EscapeRoundTrip | nut_webgui_upsmc/src/internal/escape.rs:3-30 | unescaping an escaped text gives it back, and an escaped text is always one that the unescape loop accepts |
| Escape.EscapesTwoBytes | nut_webgui_upsmc/src/internal/escape.rs:3-30 | escaping puts a backslash before double quotes and backslashes and changes nothing else; unescaping takes a backslash off whatever byte follows it |
| Escape.UnescapeCanPanic | nut_webgui_upsmc/src/internal/lexer.rs:98-130 | a quoted text that the lexer accepts and on which the unescape loop panics |
| Lexing.Lexer.ReadText | nut_webgui_upsmc/src/internal/lexer.rs:158-176 | a plain word ends at the first ASCII white space or at the end of the input |
| Lexing.Lexer.ReadQuotedText | nut_webgui_upsmc/src/internal/lexer.rs:179-213 | a quoted text ends at the first double quote that no backslash escapes; without one it fails |
| Lexing.Lexer.SkipWhitespaces | nut_webgui_upsmc/src/internal/lexer.rs:221-237 | skipping consumes white space only, all of it up to the next byte that is none, and no lexeme but line feeds |
| Lexing.Lexer.NextToken | nut_webgui_upsmc/src/internal/lexer.rs:244-277 | the token at the read head is the next lexeme of the input, the read head moves strictly past it, and an open quote is the one error |
| Lexing.Lexer.Peek | nut_webgui_upsmc/src/internal/lexer.rs:134-141 | peeking leaves the lexer alone and turns an unterminated quote into no token |
| Lexing.Lexer.ExtractFromToken | nut_webgui_upsmc/src/internal/lexer.rs:92-132 | the text of a token is the lexeme's text: plain words as they are, quoted ones unescaped |
| Lexing.UnterminatedIsLast | nut_webgui_upsmc/src/internal/lexer.rs:179-213 | an unterminated quote can only be the last lexeme |
| Lexing.LexQuoted | nut_webgui_upsmc/src/internal/lexer.rs:261-267 | a double quote, an escaped text and a double quote lex to exactly one quoted token, whatever follows |
| Lexing.EscapeInjective | nut_webgui_upsmc/src/internal/escape.rs:3-30 | different texts have different escaped forms |
| Values.InferType | nut_webgui_upsmc/src/value.rs:89-116 | the byte loop classifies a text as integer, float or text exactly by its shape |
| Values.InferFrom | nut_webgui_upsmc/src/value.rs:165-178 | a shaped integer that 64 bits can hold becomes that integer, a float keeps its text, everything else stays text |
| Values.InferPrintedInt | nut_webgui_upsmc/src/value.rs:165-178 | inferring the printed form of any 64-bit integer gives that integer back |
| Values.InferIntKeepsText | nut_webgui_upsmc/src/value.rs:210-218 | a text read as an integer is the printed form of that integer if and only if it does not begin with `-0` |
| Values.DigitStringInferred | nut_webgui_upsmc/src/value.rs:89-116 | a digit string becomes an integer if and only if it has no leading zero and fits 64 bits; every other one stays text |
| Values.PointTextInferred | nut_webgui_upsmc/src/value.rs:89-116 | digits, a point and digits are inferred as a float if and only if there is a digit before the point and no zero before further digits, or, behind a minus sign, a digit at all; a range bound needs a digit only |
| Values.FloatIsPointText | nut_webgui_upsmc/src/value.rs:165-178 | no other text is inferred as a float, and a float keeps its text |
| Values.PrintedValueReadsBack | nut_webgui_upsmc/src/value.rs:210-218 | printing an integer or text and inferring it again gives it back if and only if it is no text that reads as a number |
| LineParsing.ExtractName | nut_webgui_upsmc/src/internal/parser_utils.rs:88-207 | extracting a UPS, command or variable name takes one plain token and returns it exactly if the name rule accepts it; each error case is told apart |
| LineParsing.CmpLiteral | nut_webgui_upsmc/src/internal/parser_utils.rs:209-262 | a literal matches exactly one plain token with that text |
| LineParsing.EndParser | nut_webgui_upsmc/src/internal/parser_utils.rs:264-287 | a line ends with a line feed, after which all blank lines are skipped, or at the end of the input |
| LineParsing.ParseLine | nut_webgui_upsmc/src/internal/parser_utils.rs:289-501 | a line parser succeeds exactly on lines of its form and returns the captured texts; it moves the read head forward |
| ListResponses.DeserializeItems | nut_webgui_upsmc/src/response/list_enum.rs:17-49 | the lookahead loop of the UPS, ENUM, RANGE, CMD and CLIENT lists terminates and returns header and items exactly as the list grammar tells, errors included |
| ListResponses.DeserializeVariables | nut_webgui_upsmc/src/response/list_var.rs:18-49 | the loop of the VAR and RW lists yields the UPS of the header and a map that has just the names of the accepted items, each with the value of the last item of that name; its errors are those of the list |
| ListGrammar.LineAccepts | nut_webgui_upsmc/src/internal/parser_utils.rs:289-501 | a line parser accepts exactly if the lexemes up to the next line feed match its rules, and continues behind the line feeds |
| ListGrammar.ListAcceptance | nut_webgui_upsmc/src/response/list_enum.rs:17-49 | a list deserializer returns a header and items if and only if the message is a header line, one whole line for each item that repeats the names of the header, the matching footer, and no further token (an open quote counts as none) |
| ListRoundTrip.ListReadsBack | nut_webgui_upsmc/src/response/list_var.rs:18-49 | for all seven forms, printing a list of valid items as RFC 9271 section 4.2.7 tells and parsing it gives header and items back, in order |
| ListRoundTrip.HeaderNameReadsBack | nut_webgui_upsmc/src/ups_name.rs:9-22 | for every name that the name rule accepts, a list with that name in its header reads back if and only if the name does not begin with a double quote |
| ListRoundTrip.UpsListReadsBack | nut_webgui_upsmc/src/response/list_ups.rs:21-45 | LIST UPS reads back if and only if no listed name begins with a double quote |
| ListRoundTrip.VariablesReadBack | nut_webgui_upsmc/src/response/list_var.rs:18-49 | parsing a printed VAR or RW list gives its UPS and a map that has just the printed names, each with the value inferred from the last line that names it |
| ListOverWire.ListIsTaken | nut_webgui_upsmc/src/client/client_base.rs:109-130 | wherever a printed list stands in the stream, the client takes exactly that list as its reply if and only if no quoted text holds a line feed followed by `END LIST` |
| ListOverWire.ListArrives | nut_webgui_upsmc/src/client/client_base.rs:152-166 | then the reply parses to exactly the printed items |
| ListOverWire.MarkCutsList | nut_webgui_upsmc/src/client/client_base.rs:109-130 | a list of one valid item that the client does not take whole |
| Framing.Reader.ReceiveReply | nut_webgui_upsmc/src/client/client_base.rs:100-150 | receiving consumes exactly one reply, one line or everything from the first line of a list to the first line that ends it; without one it ends with the error of a failing read, or else with the time-out |
| Framing.Reader.ReadList | nut_webgui_upsmc/src/client/client_base.rs:111-122 | the framing loop with its `start_pos` reads on exactly to the first line that ends the list, also where the stream is closed or a read fails |
| Framing.ErrorLineIsProtocolError | nut_webgui_upsmc/src/client/client_base.rs:104-146 | a line is a protocol error if and only if it begins with the letters ERR; another one is a response unless it starts a list |
| Framing.ResponseIsTaken | nut_webgui_upsmc/src/client/client_base.rs:109-122 | a well-framed response is taken whole and alone, whatever precedes and follows it |
| Framing.ReplyIsResponse | nut_webgui_upsmc/src/client/client_base.rs:109-122 | on an open stream a reply ends somewhere if and only if a well-framed response does |
| Framing.CutResponseIsTakenWhole | nut_webgui_upsmc/src/client/client_base.rs:109-122 | if the daemon closes the stream inside a response, the reply, which `CutResponseIsAnswered` tells when there is, takes all that arrived |
| Framing.CutResponseIsAnswered | nut_webgui_upsmc/src/client/client_base.rs:109-122 | a response in which the daemon closes the stream yields a reply if and only if what arrived does not start a list or reaches the words that end the list in its last line; otherwise the request times out |
| Framing.CutListTimesOut | nut_webgui_upsmc/src/client/client_base.rs:109-122 | a list that is cut behind its first line: the request times out |
| Framing.KthReplyIsKthResponse | nut_webgui_upsmc/src/client/client_base.rs:93-150 | with one well-framed response for each request, the k-th request gets exactly the k-th response |
| Pool.ReplyKeepsBoundary | nut_webgui_upsmc/src/client/client_base.rs:152-166 | a reply that is not empty leaves a connection at a response boundary again, even if the stream ended |
| ItemPools.ItemPool.Get | nut_webgui_upsmc/src/internal/item_pool.rs:190-212 | `get` takes the oldest idle item unchecked or a new one, and gives its permit back if the allocator fails |
| ItemPools.ItemPool.GetChecked | nut_webgui_upsmc/src/internal/item_pool.rs:152-187 | `get_checked` returns the first idle item that passes the check, deallocates exactly those before it in order, and else opens a new one |
| ItemPools.ItemPool.Release | nut_webgui_upsmc/src/internal/item_pool.rs:232-239 | a release puts the item behind the others, or deallocates it once the pool is closed |
| ItemPools.ItemPool.Clear | nut_webgui_upsmc/src/internal/item_pool.rs:214-220 | clearing deallocates every idle item once, the latest first |
| ItemPools.ReversedIsPermutation | nut_webgui_upsmc/src/internal/item_pool.rs:214-220 | what a clear gives back to the allocator is each idle item, as often as it was idle |
| ItemPools.ItemPool.Close | nut_webgui_upsmc/src/internal/item_pool.rs:222-225 | closing closes the semaphore and clears the deque |
| PoolInvariants.StepSteps | nut_webgui_upsmc/src/client/client_pool.rs:231-276 | every step moves at most one connection, permit and lock as its kind tells; a connection whose request ended in doubt is destroyed, never put back |
| PoolInvariants.PermitsStep | nut_webgui_upsmc/src/internal/item_pool.rs:152-212 | no step creates or loses a permit |
| PoolInvariants.LocatedKept | nut_webgui_upsmc/src/internal/item_pool.rs:96-239 | every step keeps each connection in exactly one place: once in the deque, with one task, handed out, or destroyed |
| PoolInvariants.BoundaryKept | nut_webgui_upsmc/src/client/client_pool.rs:256-275 | every step keeps all usable connections at a response boundary |
| PoolInvariants.LimitStep | nut_webgui_upsmc/src/internal/item_pool.rs:134-212 | idle connections, connections that a task holds (also one under a clear) and connections being opened together never exceed the limit |
| PoolInvariants.InvStep | nut_webgui_upsmc/src/internal/item_pool.rs:96-240 | every step of any task, cancellation included, keeps all invariants of the pool |
| PoolRuns.ReachableIsSafe | nut_webgui_upsmc/src/client/client_pool.rs:231-276 | in every reachable state of any number of interleaved calls the limit holds and every idle connection is at a response boundary |
| PoolRuns.OwnResponse | nut_webgui_upsmc/src/client/client_base.rs:152-166 | in every run, a request that the daemon answers with one whole response gets exactly that response, as a protocol error if and only if it begins with ERR |
| PoolRuns.GoneForever | nut_webgui_upsmc/src/internal/item_pool.rs:104-109 | a connection that was destroyed or handed out never comes back into the pool |
| PoolRuns.ClosedForGood | nut_webgui_upsmc/src/internal/item_pool.rs:222-239 | after close no waiting task ever gets a permit and no release that has yet to test the semaphore pushes its item |
| PoolRuns.OnlyLateReleasesRemain | nut_webgui_upsmc/src/internal/item_pool.rs:214-239 | after close and a finished clear the deque holds only items whose release had passed the closed test before the close |
| PoolRuns.LateReleaseRemains | nut_webgui_upsmc/src/internal/item_pool.rs:232-239 | from every closed state that keeps the invariants and has a task about to push, whoever holds the lock, a run leads to a closed and cleared pool whose deque holds that connection |
| PoolRuns.CloseLeavesNothing | nut_webgui_upsmc/src/internal/item_pool.rs:214-239 | closing leaves the deque empty in every later cleared state if and only if no task is between the closed test and its push at the moment the semaphore closes |
| PoolRuns.ClosedPoolHoldsConnection | nut_webgui_upsmc/src/internal/item_pool.rs:232-239 | a run from the initial state that ends with a connection in the deque of a closed and cleared pool |
| PoolProgress.AtMostTwoAttempts | nut_webgui_upsmc/src/client/client_pool.rs:231-254 | in every run a pooled call makes at most two attempts, and `get_client` none |
| PoolRetry.BrokenIsRetried | nut_webgui_upsmc/src/client/client_pool.rs:231-254 | from every reachable state with an open pool and a free lock, a first attempt that ends broken is followed, by the same task alone, by a second one on another connection, which `get_checked` yields |
| PoolRetry.RetriedIffBroken | nut_webgui_upsmc/src/client/client_pool.rs:231-254 | in every reachable state, with whoever holds the lock, a second attempt can follow a first one if and only if the first ended broken and the pool is open |
| PoolRetry.SecondIsVerified | nut_webgui_upsmc/src/internal/item_pool.rs:152-187 | in every run a task comes to its second attempt on a connection that has passed a check or has just been opened |
| PoolRetry.SecondUsesAnother | nut_webgui_upsmc/src/client/client_pool.rs:256-275 | in every run the second attempt is made on another connection than the first |
| PoolRetry.AnsweredIsReturned | nut_webgui_upsmc/src/client/client_pool.rs:256-275 | an answered request, refusals included, gives connection and permit back to the pool, or the connection to the allocator once the pool is closed |
| PoolRetry.DoubtfulIsDropped | nut_webgui_upsmc/src/client/client_pool.rs:256-275 | a request that ends in doubt destroys its connection, gives the permit back, and ends the call unless it was a broken first attempt |
| PoolProgress.RunsAreFinite | nut_webgui_upsmc/src/client/client_pool.rs:231-276 | without new calls every run is finite, bounded by a rank of the state |
| PoolProgress.NotStuck | nut_webgui_upsmc/src/internal/item_pool.rs:152-220 | as long as a task is unfinished, some task can go on without a cancellation, even with a limit of one |
| PoolProgress.AllFinish | nut_webgui_upsmc/src/client/client_pool.rs:231-276 | from every reachable state all tasks can run to their end, with all permits back in the semaphore |
| PoolProgress.QuietIsFinished | nut_webgui_upsmc/src/client/client_pool.rs:231-276 | every run in which nothing can go on but new calls and cancellations has finished all tasks and has all permits back |
| PoolObject.GetAgrees | nut_webgui_upsmc/src/internal/item_pool.rs:190-212 | in every state that keeps the invariants, one task running alone takes the system through exactly what `get` does to the object, with the same result |
| PoolObject.GetCheckedAgrees | nut_webgui_upsmc/src/internal/item_pool.rs:152-187 | so it is for `get_checked` with its loop, in a retry and in `get_client`, which hands the connection out and gives the permit back; every connection that it rejects is destroyed |
| PoolObject.ReleaseAgrees | nut_webgui_upsmc/src/internal/item_pool.rs:232-239 | so it is for a release into an open or a closed pool |
| PoolObject.ClearAgrees | nut_webgui_upsmc/src/internal/item_pool.rs:214-220 | so it is for `clear`, which destroys every idle connection |
| PoolObject.CloseAgrees | nut_webgui_upsmc/src/internal/item_pool.rs:222-225 | so it is for `close` |
| PooledLists.PrintedListIsResponse | nut_webgui_upsmc/src/client/client_base.rs:109-130 | a printed list is one well-framed response if and only if no quoted text holds a line feed followed by `END LIST` |
| PooledLists.PooledListArrives | nut_webgui_upsmc/src/client/client_pool.rs:231-276 | in every run of the pool, a list request answered with a printed list gets exactly that list, which parses to the printed items |
| PooledLists.PooledListCanArrive | nut_webgui_upsmc/src/client/client_pool.rs:231-276 | such an answer is possible for every request in flight on an open stream in every reachable state, for every list without that mark |
| UpsStatuses.Iter.Next | nut_webgui_upsmc/src/ups_status.rs:208-222 | each call yields the lowest bit that is left and takes it off |
| UpsStatuses.BitsAreExact | nut_webgui_upsmc/src/ups_status.rs:208-222 | iteration yields each set bit once, in ascending order |
| UpsStatuses.New | nut_webgui_upsmc/src/ups_status.rs:9-25 | the word loop computes the specified parse |
| UpsStatuses.FlagsAreNamedWords | nut_webgui_upsmc/src/ups_status.rs:9-25 | a parsed status has exactly the flags whose names are words of the text, blind to order, repeats and other words |
| UpsStatuses.FlagWords | nut_webgui_upsmc/src/ups_status.rs:52-72 | each flag by the word of the protocol that stands for it |
| UpsStatuses.ParseIsHomomorphic | nut_webgui_upsmc/src/ups_status.rs:9-25 | parsing two texts with white space between them gives the union of their flags |
| UpsStatuses.Display | nut_webgui_upsmc/src/ups_status.rs:74-92 | printing gives the names of the set flags, one blank between each two |
| UpsStatuses.PrintedStatusReadsBack | nut_webgui_upsmc/src/ups_status.rs:74-92 | printing and parsing gives the named flags back: the whole status if and only if it has no other bits |
| UpsEvents.New | nut_webgui_upsmc/src/ups_event.rs:101-148 | an event is in the set if and only if the flag it stands for changed its way |
| UpsEvents.PairedFlags | nut_webgui_upsmc/src/ups_event.rs:105-145 | exactly twelve flags have an event for each way |
| UpsEvents.EventsAreDistinct | nut_webgui_upsmc/src/ups_event.rs:105-145 | each event tells its flag and its way |
| UpsEvents.EventsAreWords | nut_webgui_upsmc/src/ups_event.rs:101-148 | between two status texts just those events are raised whose word is in one text and not in the other, in the direction of the event |
| UpsEvents.OnMinusOff | nut_webgui_upsmc/src/ups_event.rs:101-148 | over any chain of statuses and for each paired flag, on-events minus off-events is the last bit minus the first |
| AttachedClients.Diff | nut_webgui/src/sync/sync_status.rs:372-393 | the two loops list exactly the addresses that only one side has, in order and with repeats |
| AttachedClients.Reconcile | nut_webgui/src/sync/sync_status.rs:255-296 | the swap-remove and push loops compute the specified list |
| AttachedClients.DetachTakesEach | nut_webgui/src/sync/sync_status.rs:257-269 | swap-removing by first position takes each listed address away once and leaves all other clients as they were |
| AttachedClients.ReconciledCounts | nut_webgui/src/sync/sync_status.rs:255-296 | how often each address is attached after a full sync, for any lists with any repeats |
| AttachedClients.AttachedIsReported | nut_webgui/src/sync/sync_status.rs:255-296 | after a full sync exactly the reported addresses are attached |
| AttachedClients.KeptClientsAreUnchanged | nut_webgui/src/sync/sync_status.rs:255-296 | a client that is still reported keeps its resolved name |
| AttachedClients.NewClientsAreNamed | nut_webgui/src/sync/sync_status.rs:273-290 | a client that was not attached has no name on the daemon's own machine, and otherwise the one that the lookup yields |
| AttachedClients.AttachedIsPermutation | nut_webgui/src/sync/sync_status.rs:255-296 | without duplicates the attached addresses are a permutation of the reported ones |
| Events.EventBatch.Send | nut_webgui/src/event/batch.rs:81-132 | a batch sends its non-empty parts in a fixed order up to the first failing send, wherever the receivers leave, and succeeds if and only if all are sent |
| Events.FoldBatch | nut_webgui/src/event/batch.rs:81-94 | folding the sent events over a set of names adds the new devices and then takes the removed ones away |
| SyncEvents.BatchIsTold | nut_webgui/src/event/batch.rs:81-132 | whoever collects the events of a batch has exactly the batch |
| Daemons.DaemonState.Diff | nut_webgui/src/sync/sync_device.rs:235-263 | the read lock section sorts the reported devices into new, silent and redescribed ones and lists exactly the known names that are no longer reported |
| DeviceSyncPass.PlanMeans | nut_webgui/src/sync/sync_device.rs:235-263 | the plan adds what is reported and unknown, rechecks what is known and silent, redescribes the other known devices with another description, and deletes what is no longer reported |
| Daemons.CollectPatch | nut_webgui/src/sync/sync_device.rs:265-340 | the join loops turn every finished load task into an entry, a placeholder or nothing, and fail the pass exactly if as many tasks failed as devices were reported |
| DeviceSyncPass.PassFailsIff | nut_webgui/src/sync/sync_device.rs:265-340 | a pass fails if and only if every reported device had a load task and none of them loaded its device |
| SyncRuns.LoadedPassSucceeds | nut_webgui/src/sync/sync_device.rs:107-216 | in every run, a pass in which some task loads its device, or some reported device needs none, brings the daemon online with the versions asked for; any other one takes all devices away |
| Daemons.DaemonState.ApplyPatch | nut_webgui/src/sync/sync_device.rs:112-171 | the write lock section inserts, redescribes and removes as the patch tells, goes online, and sends exactly the matching events as long as somebody receives |
| Daemons.DaemonState.ApplyFailure | nut_webgui/src/sync/sync_device.rs:173-214 | a failed pass removes all devices, goes dead, and reports each removal |
| Daemons.DaemonState.SnapshotActive | nut_webgui/src/sync/sync_status.rs:122-135 | the snapshot names exactly the devices that communicate, each once |
| Daemons.DaemonState.ApplyVars | nut_webgui/src/sync/sync_status.rs:161-193 | the write lock section of a partial sync updates the devices and collects the changes as StatusAfterReplies, ValueAfterReplies, UnansweredIsKept and LogStep tell |
| StatusSyncPass.StatusAfterReplies | nut_webgui/src/sync/sync_status.rs:161-193 | the last reply that names a device decides its status |
| StatusSyncPass.ValueAfterReplies | nut_webgui/src/sync/sync_status.rs:161-193 | the last reply that names a variable of a device decides that variable |
| StatusSyncPass.UnansweredIsKept | nut_webgui/src/sync/sync_status.rs:161-193 | what no reply names stays as it was |
| Daemons.DaemonState.ApplyPolls | nut_webgui/src/sync/sync_status.rs:238-319 | the write lock section of a full sync updates the devices as EntryAfterPolls and UnpolledIsKept tell and collects the events that ReportedClientsCrossed, CrossedClientsReported, TurnTellsStatus and UpdatedAreAnswered tell |
| StatusSyncPass.StatusOfWords | nut_webgui_upsmc/src/ups_status.rs:100-107 | the status that a variable means has exactly the flags whose words are in its text; a number means none |
| StatusSyncPass.EntryAfterPolls | nut_webgui/src/sync/sync_status.rs:238-319 | the last poll of a device decides its entry: an answered one has exactly the answered variables, commands and addresses, with kept clients unchanged; a silent one has the status NOCOMM and nothing else |
| StatusSyncPass.EntryAfterPoll | nut_webgui/src/sync/sync_status.rs:238-319 | a device polled once: its entry follows in the same way from the one it had before the sync |
| StatusSyncPass.UnpolledIsKept | nut_webgui/src/sync/sync_status.rs:238-319 | a device that is not polled stays as it was |
| SyncEvents.TurnTellsStatus | nut_webgui/src/sync/sync_status.rs:244-314 | of an answered device a change of status is told, of a silent one the status NOCOMM, even where nothing changed |
| SyncEvents.ReportedClientsCrossed | nut_webgui/src/sync/sync_status.rs:255-296 | each report of connected or disconnected clients belongs to one poll of its device and names exactly the addresses that were absent before it and are present after it, or the reverse |
| SyncEvents.CrossedClientsReported | nut_webgui/src/sync/sync_status.rs:255-296 | every address that a poll brings or takes away is reported |
| SyncEvents.UpdatedAreAnswered | nut_webgui/src/sync/sync_status.rs:298-303 | exactly the known devices that answered are reported as updated |
| DeviceSyncPass.NamesAfterPass | nut_webgui/src/sync/sync_device.rs:107-147 | after a successful pass a name is known if and only if it is reported and was known before or a load task for it did not panic |
| DeviceSyncPass.KeysAreReported | nut_webgui/src/sync/sync_device.rs:107-341 | unless a load task panics, a successful pass ends with exactly the reported names |
| DeviceSyncPass.SomeDeviceRemains | nut_webgui/src/sync/sync_device.rs:336-340 | a successful pass leaves at least one device, panics or not |
| DeviceSyncPass.EntryAfterPass | nut_webgui/src/sync/sync_device.rs:112-147 | the entry of every reported device after a pass, repeated names and panics included: what the last load task that produced something for it produced, or else the entry it had with its last new description |
| DeviceSyncPass.LoadedDeviceHolds | nut_webgui/src/sync/sync_device.rs:265-334 | a loaded device holds exactly the variables, commands, clients and status that the daemon answered |
| DeviceSyncPass.NewDeviceIsPlaceholder | nut_webgui/src/sync/sync_device.rs:275-301 | a device that was not known is a placeholder afterwards if and only if the last task that produced an entry for it failed to load it |
| SyncServices.StatusSyncKeepsKeys | nut_webgui/src/sync/sync_status.rs:138-328 | no step of the status sync changes the known names, the connection status or the versions |
| SyncServices.PlanStep | nut_webgui/src/sync/sync_device.rs:219-341 | however the services interleave, the plan of a device sync is still about the known names when it is applied |
| SyncServices.OnlineStep | nut_webgui/src/sync/sync_device.rs:107-216 | every step keeps online, having devices and knowing either version the same thing |
| SyncServices.ChannelStep | nut_webgui/src/event/batch.rs:81-132 | every step keeps the additions and removals on the channel telling exactly the known names |
| SyncRuns.ReachableIsConsistent | nut_webgui/src/sync/sync_device.rs:107-216 | in every reachable state of the two services: online if and only if there are devices and if and only if each version is set, and the fold of the channel is the set of known names |
| SyncRuns.PassEndsWithReported | nut_webgui/src/sync/sync_device.rs:107-341 | in every run, a successful pass without panics ends with exactly the reported names, whatever the status sync did meanwhile |
| SyncRuns.FailedDeviceIsPlaceholder | nut_webgui/src/sync/sync_device.rs:287-300 | the same in every run, whatever the status sync did meanwhile |
| StatusMirror.ReplyKeepsMirror | nut_webgui/src/sync/sync_status.rs:166-182 | a reply to a partial sync keeps the cached status equal to the `ups.status` variable if and only if it names that variable, or none is known, or the known one means the same status |
| StatusMirror.StrayReplyBreaksMirror | nut_webgui/src/sync/sync_status.rs:166-182 | an input for which a reply about another variable breaks the mirror |
| StatusMirror.MirrorStep | nut_webgui/src/sync/sync_status.rs:244-314 | if the daemon answers the question asked, every step of either service keeps the mirror, across full and partial sync, reload and marking dead |
| SyncRuns.RunKeepsMirror | nut_webgui/src/state.rs:149-157 | the same over every run |
| StatusMirror.LogStep | nut_webgui/src/sync/sync_status.rs:161-193 | in apply order every recorded status change starts from the status at that point, and the last one ends at the current status |
| SyncRuns.ChainIsUnbroken | nut_webgui/src/sync/sync_status.rs:238-319 | the changes recorded since a device was inserted run through its chain of statuses without a gap |
| SyncRuns.EventsAddUp | nut_webgui_upsmc/src/ups_event.rs:101-148 | in every run, for every known device and each paired flag, on-events minus off-events since its insertion is the flag now minus the flag at insertion |
| SyncEvents.ReachableIsTold | nut_webgui/src/event/batch.rs:81-132 | in every run, the events sent or about to be sent tell exactly the status changes that were applied, in order, and the last status update tells the status of the daemon |
| Topology.EqualMeans | nut_webgui/src/http/hypermedia/route/topology.rs:426-453 | the order takes two ids for equal if and only if maker, model and serial agree and, where all three are missing, daemon and name; this is coarser than equality of ids |
| Topology.CmpIsTotalPreorder | nut_webgui/src/http/hypermedia/route/topology.rs:426-453 | comparing ids is a total preorder |
| TopologyGraphs.FindIsExact | nut_webgui/src/http/hypermedia/route/topology.rs:154-160 | an ordered search finds a device if and only if there is one with an equal key, and there is at most one |
| TopologyGraphs.TopologyGraphBuilder.InsertFrom | nut_webgui/src/http/hypermedia/route/topology.rs:162-289 | entering a device adds exactly its node or alias and its edges, keeps every recorded edge resolvable, and keeps each counter equal to the tally of the power edges that lead to its node: active, degraded and failed |
| TopologyGraphs.TallyTotal | nut_webgui/src/http/hypermedia/route/topology.rs:238-273 | the total of a tally is the number of power edges to the node whose semantic type is not none |
| TopologyGraphs.SemanticTypeByWords | nut_webgui/src/http/hypermedia/route/topology.rs:200-221 | the semantic type of a node and of its data edge by the words of the status text |
| TopologyGraphs.PowerRefsAt | nut_webgui/src/http/hypermedia/route/topology.rs:238-273 | one power edge for each attached client, in order, to the daemon for a loopback address and to the client otherwise |
| TopologyGraphs.TopologyGraphBuilder.LinkClient | nut_webgui/src/http/hypermedia/route/topology.rs:238-273 | linking a client counts and records one power edge, to the daemon for a loopback address and to the client otherwise; a client keeps the name of its first link |
| TopologyGraphs.TopologyGraphBuilder.InsertAll | nut_webgui/src/http/hypermedia/route/topology.rs:81-106 | entering all daemons enters each of their devices once, in order |
| TopologyGraphs.TopologyGraphBuilder.Finish | nut_webgui/src/http/hypermedia/route/topology.rs:108-152 | finishing keeps every recorded edge once, with both ends the nodes that its links mean, orders the edges by their ends with ties in the recorded order, and numbers the nodes of each kind from 0 on in the order of their keys, changing nothing else |
| TopologyGraphs.NodeIdsAreDistinct | nut_webgui/src/http/hypermedia/route/topology.rs:154-160 | two links lead to the same node id if and only if they mean the same device in the sense of the order, the same client or the same daemon |
| TopologyGraphs.EdgesAreOrdered | nut_webgui/src/http/hypermedia/route/topology.rs:141-144 | the order of edges is strict and leaves only edges between the same two nodes unordered |
| TopologyGraphs.StableSortSorts | nut_webgui/src/http/hypermedia/route/topology.rs:141-144 | sorting by both ends keeps exactly the edges and the recorded order of those that compare as equal |
| TopologyGraphs.AliasesPartitionDevices | nut_webgui/src/http/hypermedia/route/topology.rs:180-197 | each entered device is an alias of exactly one node, and two are in the same node if and only if the order takes their ids for equal |
| TopologyGraphs.AliasesAreAll | nut_webgui/src/http/hypermedia/route/topology.rs:180-197 | there are as many aliases as entered devices |
| Utf8.DecodeOfEncode | nut_webgui/src/auth/user_session.rs:48-49 | decoding an encoded text gives it back |
| Utf8.EncodeOfDecode | nut_webgui/src/auth/user_session.rs:48-49 | accepted bytes are exactly the encoding of their text: no overlong form, surrogate or stray byte is accepted |
| Tokens.TokenReadsBack | nut_webgui/src/auth/access_token.rs:100-138 | the bytes of a token read back to it if and only if it is not issued after its expiry |
| Tokens.TokenAsBytes | nut_webgui/src/auth/access_token.rs:100-110 | appending the fields gives the bytes that the theorems about tokens speak of |
| Tokens.BuiltTokenReadsBack | nut_webgui/src/auth/access_token.rs:53-62 | every built token reads back, even where the expiry saturates |
| Tokens.BuiltTokenLives | nut_webgui/src/auth/access_token.rs:53-90 | read from its bytes, a built token has the given permissions, nonce and issue time, is active from then on for exactly its lifetime or up to the largest time, and has the rest of it left |
| Tokens.TokenLayout | nut_webgui/src/auth/access_token.rs:7-18 | where each field of a token stands in its bytes |
| Tokens.EightBytes | nut_webgui/src/auth/access_token.rs:119-122 | eight bytes are read with the lowest first |
| Tokens.AcceptedTokenReencodes | nut_webgui/src/auth/access_token.rs:112-138 | accepted bytes are the bytes of their token |
| Tokens.SessionReadsBack | nut_webgui/src/auth/user_session.rs:33-57 | a session reads back if and only if its token does and its name is not blank |
| Tokens.SessionAsBytes | nut_webgui/src/auth/user_session.rs:33-38 | so it is for a session: the token and then the name in UTF-8 |
| Tokens.AcceptedSessionReencodes | nut_webgui/src/auth/user_session.rs:40-57 | accepted bytes are the bytes of their session |
| Tokens.SignedTokenOpens | nut_webgui/src/auth/token_signer.rs:30-61 | for every key and any 32-byte MAC, a built token that is signed and opened is the same token |
| Tokens.SignedSessionOpens | nut_webgui/src/auth/token_signer.rs:30-61 | so is a session, if and only if its name is not blank and its times are in order |
| Tokens.OpensExactly | nut_webgui/src/auth/token_signer.rs:43-61 | bytes open if and only if they end with the MAC of what stands before it and that can be read |
| Tokens.OtherKeyIsRefused | nut_webgui/src/auth/token_signer.rs:43-61 | what was signed with one key is refused under another if and only if the MACs differ |
| Tokens.OpenedIsSigned | nut_webgui/src/auth/token_signer.rs:43-61 | bytes that open are exactly what signing their token or session gives |

## Left out

- HTTP routes, templates, WebSockets, TLS, signals, configuration files and the command line are I/O or wrappers.
- The browser code, the colouring of values and the validation of values that a user sets are not modelled; each claim about them is settled by one branch.
- `VarType`, the single-line responses and the commands are not modelled; they would add members like those of the list lines.
- Lexer line and column numbers are left out; a line feed resets the column differently in two places, so there is no clean claim.
- The poll interval that chooses between partial and full sync is left out: in `SyncServices` either may happen at any time.
- Time stamps (`last_modified`, `last_device_sync`) and log messages are left out.
- The details of writable variables (`load_var_detail`) are an arbitrary answer of the daemon.
- Several daemons do not share state in the sync services; the model has one.
- Values.PrintedValueReadsBack: does not cover floats, whose value and whose printing with two decimals are left out.
- Pool.Next: the drop of a guard returns its item and its permit in one step, and a reply arrives in one step; partial reads are covered by the arbitrary state that an unfinished request leaves behind.
- Values.InferFrom: a float keeps its text; the value that the text parses to is not modelled.
- Framing.Classify: the line of a protocol error is kept whole; which kind of error its text names is not modelled.
- Framing.Reader.ReceiveReply: bytes that are no UTF-8 are not told apart from others; the error that they end a read with is one of the arbitrary outcomes of a request in `Pool`.
- ItemPools.ItemPool.Get: the object does not wait for a permit and nothing interleaves; that is the subject of `Pool`, and `PoolObject.GetAgrees` connects the two.
- ItemPools.ItemPool.GetChecked: likewise, with `PoolObject.GetCheckedAgrees`.
- TopologyGraphs.TopologyGraphBuilder.Finish: addresses are numbers in the order of the addresses; the display fields of the nodes are left out.
- SyncServices.Next: all sends succeed; what happens when the receivers leave is said by `Events.EventBatch.Send`, `Daemons.DaemonState.ApplyPatch` and `ApplyFailure`.
- UpsStatuses.Parse: status text is a sequence of Unicode characters, while wire text is a sequence of bytes; for ASCII, which all flag names are, the two agree.
- UpsStatuses.Set: the 32-bit word is the set of the numbers of its bits, so that its bit operations are set operations.
- AttachedClients.Reconciled: addresses are opaque keys; their parsing and printing are not modelled.
- Daemons.DaemonState.Diff: the order in which a hash map is iterated is arbitrary, so the order of the removed names is not fixed.

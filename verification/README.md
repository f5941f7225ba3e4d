# wscrpt: verified models of its state logic

wscrpt is a terminal editor. Underneath its user interface and process plumbing
lies a layer of state logic with invariants that span many functions: the client
side of a language-server session, two bounded stores, an incremental frame
decoder, an undo log, line edits and the admission of agent events. This project
models that layer in Dafny, branch by branch, and proves what it promises.

Verify with `dafny verify dfyconfig.toml`.

## How the project is laid out

Code that changes things step by step is modelled as classes and methods with
loops; beside each stands a specification on plain values, and the promises are
lemmas about that specification over every input or every run.

- **Language-server client.** `LspProtocol` is the client as a transition
  system: API calls, the protocol thread taking one input off the queue, reader
  threads delivering messages, and the two halves of `shutdown` interleave
  freely. `LspTables`, `LspFreshness`, `LspPending`, `LspLifecycle`, `LspWire`,
  `LspRequests`, `LspAnswers` and `LspCalls` prove what every run keeps and what
  callers are told; `LspClient` is the client object whose methods
  perform exactly those transitions and which records the run it is on, so
  every theorem about runs holds of it. `BudgetedQueue` is the lock-free accounting
  of the queue, one atomic operation a step, and `EventSink` the sink that
  reports its own losses.
- **JSON.** `Json` has values, printer and parser as functions; `JsonRoundTrip`
  proves them inverse and `JsonGrammar` that the parser accepts exactly the texts
  of RFC 8259 within its limits; `JsonParser` is the parser with its advancing offset and
  `JsonWriter` the writer behind its two outputs. `CommandFrames` follows each
  client command from the length preflight to the bytes on the pipe, and
  `CommandMessages` from those bytes to the message a server reads.
- **Framing and coordinates.** `Utf8`, `Decimals`, `Framing`, `FrameHeaders`,
  `Lines`, `Coordinates`.
- **Bounded stores.** `Recency` is the shared clock that renumbers itself,
  `DocumentRegistry` and `DiagnosticCache` the two stores, `DiagnosticEstimate`
  the worklist that sizes a diagnostic.
- **Documents.** `History` is undo and redo as whole snapshots with the dirty
  flag; `Document` is the log of deltas that refines it; `FileText` goes between
  text and bytes; `LineEdits` and `Editor` indent and outdent; `Brackets` finds
  the matching bracket.
- **Agents.** `AgentContract` (paths, scopes, packets, events) and
  `AgentAdmission` (the coordinator).

## Where the code is narrower than it looks

Each of these is a lemma, with the exact condition where a promise depends on one.

- `FrameDecoder::push` is documented to return every complete message, but the
  messages decoded in the same call before a framing error are dropped, so what
  a sequence of pushes returns does depend on where the stream is cut: a frame
  and a blank line behind it return nothing in one push and the message in two
  (`Framing.PushDependsOnCut`). All messages are returned if and only if some
  number of chunks completes them all before the error shows
  (`Framing.PushReturnsAllIff`). Polling with `next_message` does not depend on
  the cut (`Framing.ChunkingIsInvisible`).
- The rope crate, with the features the repository builds it with, knows more
  line breaks than LF: VT, FF, a lone CR, NEL, LS and PS. A UTF-16 position just
  behind one of those names the same offset as the start of the next line, so it
  does not come back from its offset (`Coordinates.SeparatorIsForeign`).
  `Coordinates.PositionRoundTrip` holds if and only if the position is not such
  a one. All theorems about lines are for
  any set of further breaks.
- Opening a file and saving it unchanged keeps its bytes if and only if its line
  endings are uniform (`FileText.LoadSave`; a CR LF and an LF come back as two
  CR LF in `FileText.MixedEndingsAreLost`). Saving and opening gives the document
  back if and only if `FileText.Faithful` holds, which excludes a buffer that
  contains CR, one marked CRLF without any line break, and one without a
  byte-order mark that starts with U+FEFF (`FileText.SaveLoad`, with one of each
  in `FileText.ForgottenOnSave`).
- The registry's documentation allows equal ordinals after a clock rebase. There
  are none: renumbering keeps ordinals distinct (`Recency.RankedKeepsChrono`), so
  the tie-breaking keys never decide.
- The depth limit of the writer starts anew at a request's parameters, while the
  parser counts the message around them. A request is read back if and only if
  its parameters are printable within one level less than the parser's limit,
  every other command always (`CommandMessages.CommandIsRead`); the requests the
  client builds are a few levels deep and always read
  (`CommandMessages.FeatureIsRead`).

## Model

| member | source | states |
|---|---|---|
| LspTables.TablesAgreeOnRuns | src/lsp_client.rs:859-1039 | in every run the API table is the replay of all accepted commands and the protocol table the replay of those taken off the queue, each command fits the table it meets, and incarnations only rise |
| LspTables.QueueBridgesTables | src/lsp_client.rs:880-894 | while the protocol thread runs, the API table equals the protocol table with all still-queued commands applied in order |
| LspTables.DequeuedCommandFits | src/lsp_client.rs:2016-2070 | a dequeued request finds its exact version and incarnation, a dequeued change is newer and is written: the stale-at-admission and not-newer branches are unreachable |
| LspTables.NeverAgain | src/lsp_client.rs:870-899 | once a document has been touched, its state at that earlier point never recurs, because versions rise within an incarnation and incarnations are never reused |
| LspTables.CurrentIffUntouched | src/lsp_client.rs:2413-2441 | the delivery check passes exactly when nothing accepted since the request opened, changed or closed the document |
| LspFreshness.DeliveredResultIsFresh | src/lsp_client.rs:2398-2441 | whenever a step of any run emits a document result, the log holds its request and no open, change or close of that document after it, even across close and reopen under the same version |
| LspFreshness.DeliveredIffUntouched | src/lsp_client.rs:2268-2441 | a well-formed result for a waiting request is delivered if nothing touched the document since, and reported stale otherwise |
| LspFreshness.PublicationJudged | src/lsp_client.rs:2489-2567 | in any run a publication is stale exactly when it names another version than the document has by the commands taken off the queue; otherwise it is delivered with that state, which is the API's own exactly when nothing still queued touches the document |
| LspPending.RequestsConserved | src/lsp_client.rs:2048-2121 | each accepted feature request is in exactly one place, queued, pending or answered; none is answered twice or without having been made |
| LspPending.AnsweredOnLeaving | src/lsp_client.rs:2189-2487 | the one terminal event of a request is emitted in the very step in which it leaves the table or is refused entry, and in no other |
| LspPending.CancelledAtMostOnce | src/lsp_client.rs:2081-2100 | at most one cancel frame per request, none for an identifier never requested |
| LspPending.RoomForShutdownOnRuns | src/lsp_client.rs:2048-2121 | feature requests and initialize together never exceed 127, and at most one shutdown is ever accepted |
| LspPending.ShutdownNeverRefused | src/lsp_client.rs:2101-2120 | a dequeued shutdown always enters the pending table |
| LspPending.OneShutdown | src/lsp_client.rs:2321-2396 | the deferred shutdown that the hash table yields is the only one |
| LspLifecycle.StepMoves | src/lsp_client.rs:1401-1441 | no step leaves STOPPED or returns to STARTING, and only the publishing step reaches STOPPED |
| LspWire.LifecycleOnRuns | src/lsp_client.rs:1178-1229 | over any run STOPPED is absorbing and STARTING, once left, never returns, so READY is published at most once and never after a shutdown began |
| LspWire.WireOrderedOnRuns | src/lsp_client.rs:2101-2177 | initialize is the first frame, no command frame precedes initialized, not even a shutdown accepted before, and exit is written at most once and last |
| LspWire.ReadyMeansInitialized | src/lsp_client.rs:2321-2396 | whenever READY is visible the initialized notification has been written |
| LspWire.NotificationsReachTheWire | src/lsp_client.rs:2016-2131 | the document notifications on the wire are those accepted and dequeued, once each and in order, but for one whose own write failed |
| LspRequests.RequestsReachTheWire | src/lsp_client.rs:2048-2131 | in every run nothing is written that was not taken off the queue, each request taken off is written once or refused with an event, and only the last command's frame may be missing, its own write having failed and the loop having stopped |
| LspRequests.EntryIsWritten | src/lsp_client.rs:2048-2131 | while the loop runs each waiting request is on the wire exactly once as it was made, its cancellation exactly if one was taken off after it, and a waiting shutdown exactly if it counts as sent |
| LspAnswers.ReadiedOnRuns | src/lsp_client.rs:2321-2396 | in every run a client that has written initialized has left STARTING, READY is announced when it is entered, and never without initialized |
| LspAnswers.FeatureFails | src/lsp_client.rs:2189-2320 | an answer to a waiting feature request that is no result ends it with the server's error if it is one and as malformed otherwise, writes nothing and leaves the session running |
| LspAnswers.WorkspaceResultDelivered | src/lsp_client.rs:2321-2487 | in every run a result for a waiting workspace request is delivered: its scope is always the workspace |
| LspAnswers.ShutdownEnds | src/lsp_client.rs:2148-2396 | whatever a shutdown is answered with the loop ends, exit is written if it can be, and completion is reported only for a result to a shutdown that was sent |
| LspAnswers.InitializeOpensOrEnds | src/lsp_client.rs:2148-2396 | the answer to initialize keeps the loop running exactly if it is a result and what must be written then can be |
| LspAnswers.WhatEndsTheLoop | src/lsp_client.rs:1913-2014 | the loop ends only by a lost transport, a server gone, a forced stop, a failed write, an answer to a lifecycle request, or a shutdown without a slot |
| LspAnswers.StoppedForGood | src/lsp_client.rs:1401-1441 | once the end is published every later call is refused as stopped |
| LspCalls.CallIsHonest | src/lsp_client.rs:859-1160 | whatever is called, a granted call has queued the command its caller wanted and nothing else, and a refused one has changed nothing but a spent identifier and gives a reason that is true |
| LspCalls.ShutdownInOne | src/lsp_client.rs:1178-1229 | a shutdown that cannot be queued gives a READY client back and leaves a STARTING one shutting down |
| LspClient.Client.Session | src/lsp_client.rs:859-1273 | an object used through its methods satisfies the invariant of all runs: tables, log and queue agree, every waiting entry was requested once, frames are in order, and at most one shutdown waits |
| LspClient.Client.DidOpen | src/lsp_client.rs:859-904 | the method with its rollback performs the atomic open transition |
| LspClient.Client.DidChange | src/lsp_client.rs:971-1009 | the table advances before the send and is rolled back if it fails; net effect the atomic change transition |
| LspClient.Client.DidClose | src/lsp_client.rs:1026-1039 | the entry leaves before the send and comes back if it fails; net effect the atomic close transition |
| LspClient.Client.RequestFeature | src/lsp_client.rs:1235-1273 | a granted request is queued with the state its document has at that moment, of the version asked for, under an identifier that no accepted request and no waiting entry has; any other outcome leaves the queue and the log of accepted commands alone |
| LspClient.Client.HandleClientCommand | src/lsp_client.rs:2016-2131 | the branches of command handling perform the transition of the model on table, pending requests, wire and events |
| LspClient.Client.HandleInitializeResult | src/lsp_client.rs:2321-2396 | initialized first, then a waiting shutdown, then READY by compare-exchange |
| LspClient.Client.ReceiveAndHandle | src/lsp_client.rs:1913-2014 | one turn of the protocol loop is one step of the run the object is on; that at most one shutdown can be waiting is its invariant's, not its caller's business |
| BudgetedQueue.AccountedOnRuns | src/lsp_client.rs:606-671 | under any interleaving of senders and receiver the two counters equal what live counted envelopes and senders in mid-reservation account for, and never pass the limits |
| BudgetedQueue.QuietMeansZero | src/lsp_client.rs:579-604 | at rest with an empty channel both counters are back to zero |
| BudgetedQueue.ReleasedOnce | src/lsp_client.rs:579-604 | although every counted envelope meets its release twice, explicitly and at drop, no run subtracts it from either counter more than once; what is not yet subtracted is still due |
| BudgetedQueue.AllReleasedAtRest | src/lsp_client.rs:579-604 | at rest with an empty channel every counted envelope has been subtracted from both counters exactly as often as it was reserved, once |
| BudgetedQueue.NeverBelowZero | src/lsp_client.rs:579-637 | no subtraction of any run meets a counter smaller than its amount, so the wrapping subtraction never wraps |
| BudgetedQueue.FirstInFirstOut | src/lsp_client.rs:606-708 | in any interleaving envelopes leave the channel in the order they entered, none lost or made up |
| BudgetedQueue.ClosedForGood | src/lsp_client.rs:606-708 | once the receiver is gone nothing enters any more |
| BudgetedQueue.TooHeavyNeverStarts | src/lsp_client.rs:622-637 | no reservation goes on for a weight beyond the whole budget |
| BudgetedQueue.ReserveIsKept | src/lsp_client.rs:658-708 | no control item is refused as full while fewer than the reserve are queued, and no reserved item while at most that many are |
| BudgetedQueue.RefusedForAReason | src/lsp_client.rs:622-656 | a reservation is turned away only if the item budget is used up or the live reservations at some moment left too few bytes |
| EventSink.Sink.Emit | src/lsp_client.rs:1878-1894 | what the queue receives from one emit call for each outcome of its sends; delivered, reported and still-held events add up to the number of calls |
| EventSink.Sink.FlushDropped | src/lsp_client.rs:1896-1911 | the marker carries the whole count and clears it exactly when it got through |
| EventSink.ExplainedTotals | src/lsp_client.rs:1873-1911 | delivered plus reported equals the calls that the stream explains |
| EventSink.LossReportedInPlace | src/lsp_client.rs:1873-1911 | between two consecutively delivered events the markers sum to the number of events lost between them |
| JsonRoundTrip.ParsePrint | src/lsp_client.rs:3267-3309 | parsing the printed form of any printable value of depth at most 128 gives the value back |
| JsonRoundTrip.PrintParse | src/lsp_client.rs:3399-3652 | whatever is parsed can be printed, and that text parses to the same value |
| JsonRoundTrip.ParsedIsPrintable | src/lsp_client.rs:3414-3486 | an accepted value is within the depth limit, its numbers are in the grammar, its keys are in order |
| JsonRoundTrip.ParsedNumberIsNumber | src/lsp_client.rs:3571-3608 | the text scanned as a number is one of RFC 8259, section 6 |
| JsonRoundTrip.NumberRoundTrip | src/lsp_client.rs:3571-3608 | every number of that grammar, followed by what may follow a value, is scanned to exactly its end |
| JsonRoundTrip.StringRoundTrip | src/lsp_client.rs:3350-3373 | every string survives printing and parsing, control characters and supplementary scalars included |
| JsonRoundTrip.UnitsRoundTrip | src/lsp_client.rs:3521-3557 | every scalar written as hexadecimal UTF-16 units, a surrogate pair included, is read back as that scalar |
| JsonRoundTrip.LoneSurrogateRefused | src/lsp_client.rs:3521-3557 | half a surrogate pair is an error |
| JsonRoundTrip.PrintedInAnyOrder | src/lsp_client.rs:3459-3486 | a value printed with the members of its objects in any order, at any depth, is read as the value with ordered maps, and a repeated key anywhere is an error |
| JsonGrammar.ReadsExactly | src/lsp_client.rs:3399-3652 | the parser accepts exactly the texts of RFC 8259, whitespace and every spelling of strings included, that are no deeper than its limit and repeat no key, each as what it means |
| JsonGrammar.SpelledIsRead | src/lsp_client.rs:3488-3569 | every way RFC 8259, section 7, has of writing a string's characters is read as those characters |
| JsonGrammar.ReadIsSpelled | src/lsp_client.rs:3488-3569 | and no string is read that is not written in one of those ways |
| JsonRoundTrip.InsertSorts | src/lsp_client.rs:3459-3486 | insertion keeps the keys in order and fails exactly on a key already there |
| JsonParser.Parser.Parse | src/lsp_client.rs:3404-3412 | the parser object over its offset computes the parsing function |
| JsonParser.Parser.ReadValue | src/lsp_client.rs:3414-3438 | one value from the offset on, with the depth limit |
| JsonParser.Parser.ReadArray | src/lsp_client.rs:3440-3457 | the array loop |
| JsonParser.Parser.ReadObject | src/lsp_client.rs:3459-3486 | the object loop with its duplicate check |
| JsonParser.Parser.ReadString | src/lsp_client.rs:3488-3519 | the string loop |
| JsonParser.Parser.ReadEscape | src/lsp_client.rs:3521-3557 | the escapes |
| JsonParser.Parser.ReadHexQuad | src/lsp_client.rs:3559-3569 | four hexadecimal digits or no move |
| JsonParser.Parser.SkipSpaces | src/lsp_client.rs:3619-3623 | the whitespace loop |
| JsonParser.Parser.ReadUnicodeEscape | src/lsp_client.rs:3521-3569 | the surrogate-pair escape |
| JsonParser.Parser.ReadNumber | src/lsp_client.rs:3571-3608 | the number scanner |
| JsonWriter.Output.Push | src/lsp_client.rs:3177-3217 | a string takes everything; a byte count takes what keeps the UTF-8 length within its maximum |
| JsonWriter.Output.WriteString | src/lsp_client.rs:3350-3373 | a quoted string is taken exactly when its whole printed form fits |
| JsonWriter.Output.WriteArray | src/lsp_client.rs:3285-3294 | the loop over an array's values, with its commas |
| JsonWriter.Output.WriteObject | src/lsp_client.rs:3295-3306 | the loop over an object's entries |
| JsonWriter.Output.WriteValue | src/lsp_client.rs:3271-3309 | a value is written exactly when it is not nested too deeply and its whole printed form fits, and then as the printer prints it |
| JsonWriter.ShallowIsLevels | src/lsp_client.rs:3271-3309 | the depth check of the writer passes exactly what is nested no deeper than the limit |
| CommandFrames.CommandLength | src/lsp_client.rs:1495-1499 | the length preflight succeeds exactly when the command is writable and its text fits, and returns that text's UTF-8 length |
| CommandFrames.DidOpenLength | src/lsp_client.rs:1501-1512 | the preflight of an opening notification agrees with that of its command |
| CommandFrames.WriteCommand | src/lsp_client.rs:1533-1636 | the writer accepts a command exactly when the output holds its whole text |
| CommandFrames.Pipe.SendCommand | src/lsp_client.rs:1514-1531 | one whole frame is written when the command fits, nothing when it does not, and the second pass never fails |
| CommandMessages.CommandIsRead | src/lsp_client.rs:1533-1636 | parsing the text put together for a command gives its JSON-RPC message, member for member: for a request if and only if its parameters are printable within one level less than the parser's limit, for every other command always |
| CommandMessages.FeatureIsRead | src/lsp_client.rs:1041-1176 | every feature request the client builds is read back as its message |
| CommandFrames.SentCommandsAreRead | src/lsp_client.rs:1514-1531 | decoding everything sent yields the texts of exactly the commands that fitted, in order |
| CommandMessages.MessagesArrive | src/lsp_client.rs:1514-1531 | unframing and parsing everything sent gives the messages of exactly the commands that fitted, in order |
| DiagnosticEstimate.HeapEstimate | src/lsp_session.rs:697-777 | the worklist accepts a tree exactly when the recursive sums are within all four limits, and returns the allocation sum |
| DiagnosticEstimate.Spend | src/lsp_session.rs:718-767 | one node is paid for in full or refused |
| DiagnosticEstimate.SpendKeys | src/lsp_session.rs:760-764 | the loop over an object's keys |
| DiagnosticEstimate.AcceptedMeans | src/lsp_session.rs:697-777 | accepted means: node count, nesting, printed length and allocation sum within limits |
| DiagnosticEstimate.EstimateCovers | src/lsp_session.rs:697-795 | the estimate of a diagnostic's JSON never falls short of the capacities and places its tree owns |
| DiagnosticEstimate.RawIsPrinted | src/lsp_session.rs:711-768 | the raw byte count is the UTF-8 length of what the JSON printer emits |
| DiagnosticEstimate.NodesAreCounted | src/lsp_session.rs:815-822 | the scheduled count is the number of values in the tree |
| DiagnosticEstimate.BoundedStringLength | src/lsp_session.rs:824-838 | the bounded string length is the printed length, given up only beyond the maximum |
| DiagnosticEstimate.AddBounded | src/lsp_session.rs:797-822 | a bounded sum fails exactly beyond its limit, overflow included |
| Recency.RankedKeepsChrono | src/lsp_session.rs:359-369 | renumbering by rank keeps the order of use and makes ordinals distinct |
| Recency.Renumber | src/lsp_session.rs:664-673 | the renumbering loop gives every entry its rank |
| Recency.Allocate | src/lsp_session.rs:350-357 | the next ordinal is later than all in use; entries are renumbered only at exhaustion, and in the same order |
| Recency.Oldest | src/lsp_session.rs:635-645 | the index of a least ordinal |
| Recency.UsedItem | src/lsp_session.rs:282-294 | stamping an entry moves it to the back of the order of use and moves nothing else |
| Recency.AddedLast | src/lsp_session.rs:236-238 | a new entry is the most recent |
| Recency.RemovedItem | src/lsp_session.rs:338-348 | removing an entry leaves the order of the others |
| Recency.OldestIsFirst | src/lsp_session.rs:326-336 | the least ordinal belongs to the least recently used entry |
| Recency.ChangedItem | src/lsp_session.rs:252-279 | updating an entry in place keeps its place |
| DocumentRegistry.Registry.InsertDocument | src/lsp_session.rs:214-245 | insertion refines move-to-back LRU: refusals change nothing, at capacity the least recent document is returned as evicted, the new one is last and active |
| DocumentRegistry.Registry.MarkEditorActive | src/lsp_session.rs:282-294 | focusing a document moves it to the back |
| DocumentRegistry.Registry.UpdateDocument | src/lsp_session.rs:252-279 | an update keeps identity and recency and bumps the revision only on change |
| DocumentRegistry.Registry.RemoveByEditorId | src/lsp_session.rs:296-302 | removal by editor |
| DocumentRegistry.Registry.RemoveByUri | src/lsp_session.rs:304-310 | removal by URI |
| DocumentRegistry.Registry.RemoveLru | src/lsp_session.rs:326-336 | the head of the list is removed |
| DocumentRegistry.Registry.MarkPartial | src/lsp_session.rs:174-176 | upstream loss makes the registry partial |
| DocumentRegistry.Registry.ClearAll | src/lsp_session.rs:315-324 | clearing returns the documents and restores a complete empty view |
| DocumentRegistry.SoundOnRuns | src/lsp_session.rs:138-370 | in every history: at most 64 documents, unique editors and URIs, and the active document is the most recent |
| DocumentRegistry.AdmissionSparesActive | src/lsp_session.rs:226-238 | in every history an insertion never evicts the active document |
| DocumentRegistry.CompleteIsUnbounded | src/lsp_session.rs:24-48 | while complete, the registry holds what one without capacity would hold, in the same order |
| DocumentRegistry.PartialIff | src/lsp_session.rs:174-334 | a registry is partial from an upstream loss or an eviction on until it is cleared, and not otherwise |
| DocumentRegistry.OrderedByUse | src/lsp_session.rs:214-294 | in every history the documents stand in the order of their last insertion or focusing, so the one evicted is the one whose last use is longest ago |
| DocumentRegistry.ActiveIsLastUsed | src/lsp_session.rs:282-348 | in every history the active document is the one used last of all, while it is held |
| DocumentRegistry.DepictedOnRuns | src/lsp_session.rs:214-348 | in every history each document held is the one last inserted for its editor with all revisions since, and a complete registry holds all that were not removed |
| DocumentRegistry.RevisionTells | src/lsp_session.rs:184-348 | until the counter saturates the revision changes exactly when the documents held do |
| DocumentRegistry.RefusalIsTrue | src/lsp_session.rs:214-232 | an insertion is refused for the first reason that holds |
| DiagnosticCache.Cache.ReplaceDiagnostics | src/lsp_session.rs:500-616 | replacing refines the ideal list, keeps the byte total equal to the sum of the buckets and within budget, and reports what it dropped and evicted |
| DiagnosticCache.Cache.MakeRoom | src/lsp_session.rs:579-592 | the eviction loop ends with room, having evicted exactly the computed run; its break is unreachable |
| DiagnosticCache.EvictionsAreShortest | src/lsp_session.rs:579-592 | the evicted run of oldest buckets makes room and no shorter one does |
| DiagnosticCache.Cache.Select | src/lsp_session.rs:537-561 | the filtering loop keeps what the greedy selection keeps |
| DiagnosticCache.RetainedIsPublished | src/lsp_session.rs:537-561 | what is kept is a subsequence of the publication, bears its URI, and is within count and budget |
| DiagnosticCache.RetainedWholeIff | src/lsp_session.rs:537-572 | a publication is kept whole exactly when it is short enough, bears one URI, every part has an estimate and all fits |
| DiagnosticCache.Cache.Purge | src/lsp_session.rs:619-625 | one bucket goes, its bytes are given back |
| DiagnosticCache.Cache.MarkBucketUsed | src/lsp_session.rs:483-490 | use moves a bucket to the back |
| DiagnosticCache.Cache.RemoveLru | src/lsp_session.rs:635-653 | the head of the list is removed and its bytes are given back |
| DiagnosticCache.Cache.MarkPartial | src/lsp_session.rs:464-466 | upstream loss makes the cache partial |
| DiagnosticCache.Cache.Clear | src/lsp_session.rs:628-633 | clearing restores the complete empty view |
| DiagnosticCache.Cache.Get | src/lsp_session.rs:469-474 | reading returns the bucket's diagnostics and counts as no use |
| DiagnosticCache.CompleteIsExact | src/lsp_session.rs:500-633 | while complete, reading any URI gives its latest publication since the last clear, whole, and nothing for purged ones |
| DiagnosticCache.PartialIsHonest | src/lsp_session.rs:500-616 | a bucket is always a non-empty subsequence of the latest publication of its URI, never of an older one, and every diagnostic bears that URI |
| DiagnosticCache.FaithfulOnRuns | src/lsp_session.rs:500-633 | the invariant behind both, over every history |
| DiagnosticCache.PartialIff | src/lsp_session.rs:464-633 | a cache is partial from a loss on until it is cleared, and not otherwise: an upstream loss, a URI of no local file, diagnostics dropped or buckets evicted |
| DiagnosticCache.OrderedByUse | src/lsp_session.rs:483-617 | in every history the buckets stand in the order of their last publication or marking, so those evicted are the ones whose last use is longest ago |
| DiagnosticCache.ReportAddsUp | src/lsp_session.rs:500-617 | the report of a publication adds up: received is retained plus dropped, and the other buckets and their diagnostics are kept or evicted |
| DiagnosticCache.NoNeedlessEviction | src/lsp_session.rs:560-617 | not one bucket more gives way than the new one needs |
| DiagnosticCache.LeftOutIsUnfit | src/lsp_session.rs:500-560 | a diagnostic considered and not kept is of another file, has no estimate, or does not fit even beside the ones kept in the end |
| DiagnosticCache.BudgetCovers | src/lsp_session.rs:500-560 | so the estimate of a bucket covers its URI and all its diagnostics own, and the budget bounds what is kept |
| Utf8.DecodeEncode | src/lsp.rs:587-592 | decoding undoes encoding |
| Utf8.EncodeDecode | src/lsp.rs:587-592 | accepted bytes are the encoding of their text: no overlong or surrogate forms |
| Utf8.ValidUpToIsLongest | src/lsp.rs:587-589 | the reported offset is that of the longest well-formed prefix |
| Framing.ParseContentLength | src/lsp.rs:656-692 | the header loop computes the recursive reading of its lines |
| Framing.HeaderAccepted | src/lsp.rs:656-692 | a header is accepted with n exactly when it is ASCII, all fields, and one of them declares n, which fits a word |
| FrameHeaders.FieldsRead | src/lsp.rs:656-692 | a header of fields with names in any case, blanks around names and values, declares n exactly when one field and only one is named Content-Length and gives n in digits |
| FrameHeaders.ErrorIsFirst | src/lsp.rs:656-692 | the error reported for a header is that of its first line in error, and a header without one misses its length |
| FrameHeaders.DeclaredBody | src/lsp.rs:568-595 | behind a header that declares n a body beyond the limit is refused, a shorter one waited for, and a complete one read as the text it is the UTF-8 form of or refused if it is none's |
| Framing.FrameDecoder.NextMessage | src/lsp.rs:553-595 | after any feeds and polls of the object a poll gives the next result of the whole stream fed since it was new or cleared, and "not yet" only when every message of it has been shown |
| Framing.FrameDecoder.Push | src/lsp.rs:543-551 | pushing returns all messages now complete or the error, and after a success at most one partial frame within the limits is buffered |
| Framing.DecodeInTwo | src/lsp.rs:553-595 | decoding can be cut anywhere |
| Framing.ChunkingIsInvisible | src/lsp.rs:538-595 | for any schedule of feeding and polling the n-th result is that of the whole stream, messages and then one error for ever; once nothing is complete, everything has been shown |
| Framing.SchedulesAgree | src/lsp.rs:538-595 | two schedules of the same bytes never show different results |
| Framing.PushReturnsAllIff | src/lsp.rs:543-551 | chunk-wise pushing returns every message of the stream if and only if some number of chunks completes them all before the error shows |
| Framing.PushDependsOnCut | src/lsp.rs:543-551 | a frame and a blank line behind it: pushed at once they return nothing, pushed one after the other the message |
| Framing.FrameRoundTrip | src/lsp.rs:488-500 | an encoded frame is read back and exactly consumed if and only if it is within the decoder's limits |
| Framing.FramesRoundTrip | src/lsp.rs:488-500 | encoded frames decode to the original bodies with nothing pending |
| Framing.WaitingIsBounded | src/lsp.rs:553-585 | a buffer still waiting is at most header limit plus three plus content limit long |
| Coordinates.PositionToChar | src/lsp.rs:298-341 | the walking loop computes the conversion |
| Coordinates.OffsetAccepted | src/lsp.rs:268-292 | the only offsets in range without a position lie between CR and LF |
| Coordinates.OffsetRejected | src/lsp.rs:268-292 | an offset is rejected as out of bounds or as inside a line ending, whichever it is |
| Coordinates.Utf16IsLength | src/lsp.rs:298-341 | the columns counted are those of the text in UTF-16, surrogate pairs included |
| Coordinates.PositionAccepted | src/lsp.rs:298-341 | a position denotes an offset exactly when that offset is on its line's content at its column |
| Coordinates.PositionRejected | src/lsp.rs:298-341 | a position is rejected exactly past the last line, past the end of its line, or inside a surrogate pair, each with its own error |
| Coordinates.OffsetRoundTrip | src/lsp.rs:268-341 | every accepted offset comes back from its position |
| Coordinates.PositionRoundTrip | src/lsp.rs:268-358 | an accepted position comes back from its offset if and only if it does not stand behind a line break other than LF and CR LF |
| Coordinates.SeparatorIsForeign | src/lsp.rs:268-358 | a position behind a line separator comes back as the start of the next line |
| Coordinates.PositionRoundTripPlain | src/lsp.rs:268-358 | with LF as the only line break every accepted position comes back |
| Coordinates.OrderKept | src/lsp.rs:268-292 | one offset is before another exactly when its position is |
| History.UndoRedoMany | src/document.rs:418-440 | any number of undos followed by as many redos is the identity |
| History.UndoReaches | src/document.rs:418-428 | each undo lands on the adjacent boundary, text and state id |
| History.TypingIsOneStep | src/document.rs:400-414 | however long a run of merged edits and wherever its cursor goes, one undo goes back before all of it with the cursor of its beginning, and one redo to its end with the cursor of its end |
| History.DirtyFlagIsSound | src/document.rs:258-267 | after any operations, a buffer that is not modified shows text, line ending and BOM of the latest save, load or reload |
| History.GenerationCountsSaves | src/document.rs:593-604 | the save generation counts the successful saves of a history, around its word |
| History.SoundOnRuns | src/document.rs:357-476 | state ids rise along the history and every snapshot under the saved id has the saved text |
| History.CleanIsReachable | src/document.rs:542-591 | after a save, edits, undos and redos that stay above that depth can be undone back to a clean buffer: the save boundary is never merged away |
| Document.MergedEdit | src/document.rs:625-659 | a merged run of inserts, backspaces or deletes does to a text what the separate edits do |
| Document.Logging | src/document.rs:357-416 | pushing or merging a delta records its snapshot, ids chained |
| Document.MovingBack | src/document.rs:418-428 | moving the top delta back is an undo of snapshots |
| Document.MovingForth | src/document.rs:430-440 | moving it forth is a redo |
| Document.Document.EditRange | src/document.rs:357-416 | an edit that goes on typing where the latest one left off, by the arguments of the two calls, adds no undo step, so one undo gives text and cursor from before both; any other adds one; the snapshots are those of the history |
| Document.Document.TakeBack | src/document.rs:418-428 | undo refines undo of snapshots and returns the cursor of that boundary |
| Document.Document.TakeAgain | src/document.rs:430-440 | redo refines redo of snapshots and returns the cursor of that boundary |
| Document.Document.SetLineEnding | src/document.rs:258-263 | a changed line ending makes the buffer modified until the next save |
| Document.Document.BreakUndoGroup | src/document.rs:353-355 | closing the group changes nothing else |
| Document.Document.Save | src/document.rs:442-445 | a save writes the encoded buffer and marks it clean; a failed one only closes the undo group; without a path nothing happens |
| Document.Document.Reload | src/document.rs:459-476 | a reload is a fresh clean buffer under a new state id; a failed one changes nothing |
| Document.Document.IsModified | src/document.rs:265-267 | answers false only for what is on disk |
| FileText.LoadSave | src/document.rs:203-244 | loading and saving keeps the bytes exactly when line endings are uniform |
| FileText.MixedEndingsAreLost | src/document.rs:203-244 | a file of one CR LF and one LF is saved with a CR more |
| FileText.SaveLoad | src/document.rs:593-604 | saving and loading gives the document back exactly when the file can be opened and its contents describe the document |
| FileText.ForgottenOnSave | src/document.rs:593-604 | what the file cannot tell: CRLF without a line break, a CR in the text, a leading U+FEFF that was text |
| FileText.LinesComeBack | src/document.rs:613-623 | detection, normalization and expansion of line endings are lossless exactly on uniform text |
| FileText.LoadTells | src/document.rs:203-244 | a file is refused for its size, then for a NUL byte, then exactly when it is the UTF-8 form of no text |
| FileText.MajorityDecides | src/document.rs:613-623 | a text counts as CRLF exactly when it has such a break and no fewer of them than of bare LF |
| LineEdits.OutdentUndoesIndent | src/editor.rs:538-674 | outdenting after indenting with the same settings restores text, cursor and anchor on any buffer; only an anchor at the cursor is dropped |
| LineEdits.IndentIsWhole | src/editor.rs:538-598 | indenting puts the unit before every selected line and moves cursor and anchor to where their characters went |
| LineEdits.SelectedWhole | src/editor.rs:1161-1176 | the selected line range after indenting is the same |
| LineEdits.IndentMoves | src/editor.rs:1194-1221 | the position adjustment is the true displacement of every offset |
| LineEdits.OutdentMovesBack | src/editor.rs:1194-1221 | and its inverse when the unit is taken away |
| LineEdits.OutdentIsWhole | src/editor.rs:600-674 | outdenting any text takes away exactly the indentation that goes, and moves cursor and anchor to where what stays before them ends; an anchor that meets the cursor is dropped unless nothing went |
| LineEdits.RemovalMeans | src/editor.rs:622-638 | a line loses its first tab, or else as many of its first spaces as the width allows, and never its line break |
| LineEdits.SelectedIff | src/editor.rs:1161-1176 | the selected lines are exactly those with a character of the selection on them, or the cursor's own |
| Editor.Editor.IndentLines | src/editor.rs:538-598 | the loop over lines computes the indented view as one undo step; a read-only buffer is refused unchanged |
| Editor.Editor.OutdentLines | src/editor.rs:600-674 | the loop over lines computes the outdented view as one undo step, or none if nothing changes, and counts the lines |
| Brackets.MatchingBracketFrom | src/editor.rs:1003-1043 | the depth-counting loops find the partner of a bracket, or nothing exactly when it has none |
| Brackets.MatchingBracket | src/editor.rs:982-1001 | the bracket at the cursor is preferred to the one before it |
| Brackets.PartnerIsMutual | src/editor.rs:1003-1043 | the forward and the backward search lead back to each other |
| Brackets.PartnerIsUnique | src/editor.rs:1003-1043 | no bracket has two partners |
| AgentContract.NormalizeRelativePath | src/agent_contract.rs:607-632 | the pushing and popping loop computes the reduced path |
| AgentContract.AcceptedIff | src/agent_contract.rs:607-632 | a path is accepted exactly when it has no root and no prefix of it climbs above its start |
| AgentContract.NormalIsFixed | src/agent_contract.rs:607-632 | normal paths are fixed points of normalization |
| AgentContract.ReducedInTwo | src/agent_contract.rs:607-632 | normalizing piece by piece gives the same |
| AgentContract.NameCancels | src/agent_contract.rs:607-632 | a name and the .. right behind it cancel out anywhere in a path |
| AgentContract.DotCancels | src/agent_contract.rs:607-632 | and a dot changes nothing anywhere |
| AgentContract.PathLengthIsJoined | src/agent_contract.rs:634-636 | the length of a path is that of its names joined by slashes |
| AgentContract.NewScope | src/agent_contract.rs:131-140 | a scope is a normal path within the length limit |
| AgentContract.AllowedMeans | src/agent_contract.rs:253-272 | a path is allowed exactly when its normal form is under a writable scope and under no protected one |
| AgentContract.CoversNested | src/agent_contract.rs:151-156 | a scope covers whatever lies under it without climbing |
| AgentContract.CoversIff | src/agent_contract.rs:151-160 | a normal path is covered exactly when it is the scope followed by names |
| AgentContract.PacketAcceptedIff | src/agent_contract.rs:181-250 | which work packets are accepted, every bound and list in one formula; pushing is never granted |
| AgentContract.EventAcceptedIff | src/agent_contract.rs:332-410 | which events are well formed, in one formula |
| AgentAdmission.AgentCoordinator.StartRun | src/agent.rs:187-217 | a started run has an empty receipt and a generation other than the one before, every event of which is refused from then on; a refused start changes nothing |
| AgentAdmission.AgentCoordinator.CancelRun | src/agent.rs:220-232 | after a cancellation every event is refused for want of an active run |
| AgentAdmission.AgentCoordinator.AdmitEvent | src/agent.rs:235-303 | an event is admitted exactly when it is admissible, and then appended with its path in normal form; otherwise the first fault is reported and nothing changes |
| AgentAdmission.AgentCoordinator.AdmitAll | src/agent.rs:306-320 | a batch is admitted up to the first refusal |
| AgentAdmission.SoundOnRuns | src/agent.rs:187-303 | in every history an active run's receipt is numbered 1 to n, n at most 256, of one workspace, session and generation, stored paths normal and in scope, touched paths with edit authority |
| AgentAdmission.NeverRunClosed | src/agent.rs:236-239 | an active run is never closed, so that refusal is unreachable |
| AgentAdmission.AdmittedIff | src/agent.rs:235-303 | which events are admitted, in one formula |
| AgentAdmission.RefusalIsTrue | src/agent.rs:235-303 | in every history the reason an event is refused for holds, with the numbers it names |
| AgentAdmission.StartedIff | src/agent.rs:187-217 | which runs are started, in one formula |
| AgentAdmission.TracedOnRuns | src/agent.rs:187-303 | in every history the active run is the one last started, in the state the last event of its receipt that names one leaves it in, and a run that is over leaves its session behind |
| AgentAdmission.BatchIsHistory | src/agent.rs:306-320 | a batch is the history of its events one by one up to the first refused |
| AgentAdmission.AdmittedOnce | src/agent.rs:235-332 | no generation and sequence are ever admitted twice while the generation counter has not gone round |
| AgentAdmission.StaleStaysOut | src/agent.rs:187-261 | an event of a generation that a history has left is refused in every continuation of it, until the generation counter has gone round |
| AgentAdmission.ScriptAdmitted | src/agent.rs:591-617 | a freshly started run takes a whole scripted agent exactly when every step fits the packet and none but the last closes the run |

## Left out

- Processes, pipes, signals, timeouts and threads as system objects; atomics are sequentially consistent steps.
- Payload text in the protocol model: size checks and the verdict of the bounded queue are parameters of a call; `CommandFrames` and `BudgetedQueue` model those two by themselves. The queue-weight estimates are left out, they decide only that verdict.
- A frame write that fails part-way: a write succeeds or ends the loop.
- The guard held across insertion, enqueue and roll-back makes an API call one atomic step; `shutdown` is two, because the protocol thread can step between its exchange and its send.
- AgentAdmission.AdmittedOnce: for up to 2^64 - 1 generations; beyond that the counter returns to 1, as the source's wrapping addition does.
- AgentAdmission.StaleStaysOut: for up to 2^64 - 1 generations, for the same reason.
- EventSink.Sink.Emit: the totals hold while the receiver is connected and no more than 2^64 - 1 events were emitted, after which the count of losses may saturate.
- Document.Document.EditRange: state ids do not wrap; paths, display names, fingerprints, hard links and symbolic links are left out, and whether the file system lets a save through is a parameter. Save As, retargeting after a rename and recovered buffers are left out.
- Normalization of diagnostic URIs, decoding of file URIs and of diagnostics: which URIs are local files is a parameter of the two stores.
- Error offsets and messages of the JSON parser; only success and failure are modelled.
- The tie-breaking keys of the least-recently-used comparison, which are never consulted because ordinals are distinct.
- Timestamps and the sensitivity mark of agent events, which decide nothing; sticky notes and review packets, which are plain field checks.
- Scalar and byte offsets into a rope, whose conversion is the rope crate's.
- Moving, duplicating, deleting and commenting lines, search, wrapping, grapheme movement and the desired visual column.
- Git, the Agent Client Protocol bridges, discovery, configuration, keymaps, help and clipboard framing.

# Verified model of the Windows/WSL MCP bridge

This Dafny project models the parts of the bridge that keep protocol state while bytes are split, threads
interleave, messages are lost or a process dies, and proves what they keep. Each source file has its own modules; a
class mirrors the source's object, each of its methods is one locked region, loop or call of the source, and each is
proved to compute a function of the old state. State machines over those functions cover every interleaving and every
run, and the theorems are about the runs.

Check it with `dafny verify dfyconfig.toml` (Dafny 4.11).

## What is modelled

**Passive correlation of one stream by two nodes** (`MessageClass`, `LineFramer`, `StreamCorrelator`,
`CorrelatorSafety`, `TwoNodeRuns`, `TwoNodeAgreement`, `TwoNodeDegradation`, `TwoNodeExactness`, `TwoNodeExamples`). Two observers see the
same bytes of both directions, cut and interleaved differently, and name each request and response. The framer equals
splitting the whole stream on newlines. The ghost history of wire lines also holds the lines an observer loses. With
honest responders two nodes never give one line two different aliases, for any chunking, causal interleaving, bounds
and capacities; without loss, reuse and missing capacity everything is aliased. The source's comment that "both degrade
identically" (stream_evidence.py:30-35) is false: an over-long line that crosses an answer in flight is the
counterexample. Exactly when an observer degrades, and exactly which calls two observers treat alike, is proved for
every history, with no assumption about the endpoints; with orderly endpoints a lossy line alone decides
(`TwoNodeDegradation`).

**Recovery from a lost HTTP session** (`SessionRecovery`). Any number of threads lose one session and recover through
two locks: at most two POSTs a call, only the failed session is ever cleared, no deadlock, every call returns, and one
loss leads to exactly one `initialize` once any call has received its 404, while further calls start.

**The configuration reconciler** (`Projection`, `ProjectionSafety`, `TomlString`). A pass over a live document,
bookkeeping rows and desired entries: when a second pass has nothing to do, which edits survive, what a crash between
the document and its bookkeeping leaves.

**The persistent connector** (`ConnectorEngine`, `ConnectorRuns`, `ConnectorSafety`, `ConnectorGaps`, `ConnectorBoth`,
`ConnectorExamples`, `ConnectorStaleLoss`). Stdin writer, reconnect loop and socket readers as one machine in which
sending a request and remembering it are two steps.

**Serialized dispatch with cancellation** (`Dispatcher`, `DispatcherSafety`, `DispatcherCancellation`,
`DispatcherLeak`, `DispatcherExamples`). The reader handles a cancellation in three separately locked phases, or, for comparison, at once.

**The catalog-refresh probe** (`HarnessProbe`), its fixture against its independent checker.

**The deterministic archive** (`ArchiveNames`, `Archive`, `ArchiveExtraction`, `ArchiveRoundTrip`).

**Mirrored tool parameters** (`ToolHeaderSchema`, `HeaderCodec`, `DecimalReader`, `ToolHeaders`), **catalog epochs**
(`DeferredCatalog`) and **honest uncertainty** (`OutcomeReport`).

## What the proofs found

- The correlator's two nodes can treat a line differently: exactly when one of them has met a lossy line, reused an open
  id, left the id untracked or found it closed and the other has not (`TwoNodeExactness.TreatedAlikeExactly`). At rest
  only a reuse in flight can still tell them apart. A responder that answers unasked makes them disagree, exactly by how
  many requests with the id each has seen.
- The reconciler settles in one pass except for Codex names that cannot be read back (a dotted id opens a nested TOML
  table). A value under `mcpServers` that is no JSON object is not probed and is overwritten when its name is desired.
  An unowned entry in a DSH overlay is overwritten when its name is desired. An interrupted update is reported as drift.
  Fields of a recorded Claude server that the projection does not cover are not looked at, and go with its next update.
- The connector gives a call both its answer and an error when the answer overtakes the bookkeeping, or when the late end
  of an earlier session takes the call for lost first: exactly then. An engine swap forgets exactly the requests remembered
  between its quiescence check and the swap. An initialize line waits while the session is up exactly when the writer
  queued it late. `fail_once` gives two errors for an id that is both pending and uncertain.
- The three-phase cancellation leaves a marker behind exactly when its snapshot is late; a later request that reuses the
  id is then never written, and no other request is stopped that was not cancelled.
- The facade lets a business request through its closed gate when the request's method is that of a cancellation; the
  report is still honest, because the stop event is set before the flag is read.
- The archive builder does not check name collisions, the manifest's own name, or room for the manifest.

## Model

| member | source | states |
|---|---|---|
| MessageClass.ClassifiedMessagesCarryIds | stream_evidence.py:220-271 | every line classified as a request or a response carries a readable id, and which envelopes become which kind |
| MessageClass.DecimalInjective | stream_evidence.py:103-118 | two integers never share a canonical text |
| MessageClass.CanonicalIdsAreInjective | stream_evidence.py:103-118 | two ids get one canonical token only if they are the same typed value |
| LineFraming.SplitIsUnique | stream_evidence.py:296-348 | the reference splitting into lines and tail is the only one there is |
| LineFraming.JoinOfLines | stream_evidence.py:296-348 | lines and tail put together are the stream |
| LineFraming.LinesExtend | stream_evidence.py:296-348 | more bytes only add lines |
| LineFraming.EveryByteIsAccountedFor | stream_evidence.py:274-360 | every byte fed is message, stripped CR, terminator, oversized, buffered or in overflow |
| LineFraming.LineFramer.constructor | stream_evidence.py:286-294 | an empty framer with its bound |
| LineFraming.LineFramer.Feed | stream_evidence.py:296-348 | for every chunking the emitted items and the state are those of splitting the whole stream and dropping over-bound lines; the buffer never exceeds the bound |
| LineFraming.LineFramer.Close | stream_evidence.py:350-360 | what is left at the end is dropped and counted |
| StreamCorrelation.StatesOfLines | stream_evidence.py:468-658 | feeding lines moves each request direction's state as its own automaton does |
| StreamCorrelation.RowsOfLines | stream_evidence.py:468-658 | and yields exactly the rows of the wire history |
| StreamCorrelation.StreamCorrelator.constructor | stream_evidence.py:392-437 | both directions start with nothing seen |
| StreamCorrelation.StreamCorrelator.DegradeFlow | stream_evidence.py:464-466 | only the named direction degrades, and keeps its first reason |
| StreamCorrelation.StreamCorrelator.ProcessRequest | stream_evidence.py:511-582 | a request steps its own direction and gets the row the automaton gives it |
| StreamCorrelation.StreamCorrelator.ProcessResponse | stream_evidence.py:583-657 | a response steps the opposite direction and gets the row the automaton gives it |
| StreamCorrelation.StreamCorrelator.ProcessItem | stream_evidence.py:480-657 | one framed item, of any kind, steps both directions |
| StreamCorrelation.StreamCorrelator.Feed | stream_evidence.py:468-658 | the object's state after any chunk is a function of the history of wire lines, and its rows are that history's rows |
| CorrelatorSafety.DirectionInvariant | stream_evidence.py:541-566 | pending lists hold at most the current occurrence, tracked ids are bounded, and without loss counts are exact |
| CorrelatorSafety.NoFalsePairing | stream_evidence.py:511-657 | against a history with lost lines, a request's occurrence is its ordinal and a paired response's is the latest request's |
| CorrelatorSafety.DeadBranches | stream_evidence.py:584-640 | the branches for a missing canonical id and for two outstanding uses never run |
| CorrelatorSafety.LossAndCapacityArePermanent | stream_evidence.py:525-550 | loss is permanent and freezes the counts; at capacity the tracked ids never change |
| CorrelatorSafety.EachOccurrenceToOneRequest | stream_evidence.py:511-582 | two requests with one id never get one occurrence |
| CorrelatorSafety.ConsumedStaysConsumed | stream_evidence.py:583-657 | an occurrence once answered is never paired again |
| CorrelatorSafety.EachOccurrenceToOneResponse | stream_evidence.py:583-657 | two responses are never paired with one request |
| CorrelatorSafety.AliasNamesTheOccurrence | stream_evidence.py:128-188 | an alias is stream, sending side, id and occurrence, whichever node computes it |
| TwoNodeRuns.Replay | stream_evidence.py:468-658 | a correlator fed one node's share of any run is in the state of that node's history |
| TwoNodeRuns.SentIsTheLinesFed | stream_evidence.py:20-35 | each node's history holds, per origin, the lines of the bytes it was fed |
| TwoNodeAgreement.SolicitedTravels | stream_evidence.py:24-29 | answering only what was asked, judged where responses leave, holds where they arrive |
| TwoNodeAgreement.NoReuseTravels | stream_evidence.py:24-29 | so does never reusing an outstanding id |
| TwoNodeAgreement.PairingIsTheResponseOrdinal | stream_evidence.py:583-657 | with an honest responder a paired occurrence is the response's own ordinal, whatever the bound, capacity and interleaving |
| TwoNodeAgreement.NeverTwoAliases | stream_evidence.py:20-35 | two nodes never give one wire line two different aliases |
| TwoNodeAgreement.AliasIsFixedByTheLine | stream_evidence.py:128-188 | the only alias a line can get is read off the lines of its own origin |
| TwoNodeAgreement.EverythingIsAliased | stream_evidence.py:20-35 | without loss, reuse and hidden answers, and with capacity, exactly the requests and responses are aliased |
| TwoNodeExactness.DegradedExactly | stream_evidence.py:511-657 | over every history a direction is degraded exactly when a lossy line was met or an open id was reused |
| TwoNodeExactness.AliasedExactly | stream_evidence.py:511-657 | over every history a call gets an alias exactly when it is readable, nothing was lost before it, its id is tracked, and it opens or finds open that id |
| TwoNodeExactness.TreatedAlikeExactly | stream_evidence.py:30-35 | two nodes of any bounds and capacities treat a call alike if and only if both or neither can name it |
| TwoNodeExactness.PairedAlikeExactly | stream_evidence.py:583-657 | when both pair a response their aliases agree if and only if both have seen the same number of requests with its id |
| TwoNodeExactness.AtRestAlikeExactly | stream_evidence.py:30-35 | once everything has arrived both nodes are degraded or neither is, if and only if a line was lossy or both or neither saw an open id reused |
| TwoNodeExamples.CrossingLineIsTreatedDifferently | stream_evidence.py:30-35 | a run in which an over-long line crosses an answer: one node aliases it, the other does not |
| TwoNodeExamples.ReuseInFlightDegradesOneNodeOnly | stream_evidence.py:24-29 | a run with a reused outstanding id after which one node is degraded for good and the other is not |
| TwoNodeExamples.UnsolicitedAnswerBreaksAgreement | stream_evidence.py:24-29 | a run with an unasked answer in which one line gets two aliases |
| SessionRecovery.StreamableHttpClient.constructor | streamable_http_stdio.py:386-408 | no session, not initialized |
| SessionRecovery.StreamableHttpClient.CheckNewerSession | streamable_http_stdio.py:550-554 | tells whether a session is live that clearing after the failed one would leave in place |
| SessionRecovery.StreamableHttpClient.ClearFailedSession | streamable_http_stdio.py:555-560 | clears the session only if it is the failed one or none is initialized |
| SessionRecovery.StreamableHttpClient.GuardReinitialize | streamable_http_stdio.py:515-521 | keeps a live session and clears anything else |
| SessionRecovery.StreamableHttpClient.InstallSession | streamable_http_stdio.py:480-492 | installs the issued session id |
| SessionRecovery.AtMostTwoPosts | streamable_http_stdio.py:564-610 | no call posts more than twice, and only a retried request twice |
| SessionRecovery.OnlyTheFailedSessionIsCleared | streamable_http_stdio.py:499-560 | under every interleaving a live session is cleared only by a thread whose failed session it is |
| SessionRecovery.NoDeadlock | streamable_http_stdio.py:459-610 | some thread can go on while any is busy |
| SessionRecovery.EveryStepIsProgress | streamable_http_stdio.py:459-610 | every step but the start of a call lowers its thread's bounded rank |
| SessionRecovery.EveryCallReturns | streamable_http_stdio.py:459-610 | from any reachable state the calls under way run for boundedly many steps, and where they stop all have returned |
| SessionRecovery.SessionsAreConserved | streamable_http_stdio.py:480-560 | when no local initialize interferes, every installed session but the live one was cleared |
| SessionRecovery.LossIsNoticedExactlyWhenSeen | streamable_http_stdio.py:499-610 | in every such run the loss is noticed if and only if a first try or a notification received the 404, and is never forgotten |
| SessionRecovery.OneLossOneInitialize | streamable_http_stdio.py:499-610 | however calls start and interleave while one session is lost, at rest exactly one initialize was sent if any call received the 404, and none if none did |
| SessionRecovery.CallsInFlight | streamable_http_stdio.py:564-610 | any requests and notifications in flight on a live session are the start of such a run |
| Projection.ProjectedEnvironment.constructor | installer/projection.py:3736-3750 | an environment with its document and no rows |
| Projection.ProjectedEnvironment.Classify | installer/projection.py:3839-3882 | only what is absent is added, only what is still as recorded is replaced, only what is as wanted is kept, and only what is neither is reported |
| Projection.ProjectedEnvironment.PlanDesired | installer/projection.py:3839-3882 | sorts every desired name into add or update, conflict, drift or keep |
| Projection.ProjectedEnvironment.PlanObsolete | installer/projection.py:3884-3898 | sorts every live name no longer desired into remove or drift |
| Projection.ProjectedEnvironment.RecordName | installer/projection.py:3955-4052 | the row of one name after the pass |
| Projection.ProjectedEnvironment.Record | installer/projection.py:3955-4052 | the rows of all names after the pass |
| Projection.ProjectedEnvironment.Reconcile | installer/projection.py:3736-4110 | a pass changes document and rows exactly as decided; an unreadable document fails closed |
| ProjectionSafety.ClaudeRoundTrip | installer/projection.py:1917-1979 | a rendered Claude server reads back as the entry it was made from |
| ProjectionSafety.CodexRoundTrip | installer/projection.py:1843-1914 | a regenerated Codex document reads back whole exactly when no name is empty or dotted |
| ProjectionSafety.ProjectedIsOwned | installer/projection.py:1722-1767 | every entry the authority projects is recognised as its own when read back |
| ProjectionSafety.LiveAfter | installer/projection.py:2594-2704 | what the document shows under any name after a plan was applied |
| ProjectionSafety.SecondVerdict | installer/projection.py:3839-3898 | what a second pass decides, name by name |
| ProjectionSafety.OnePassSettlesExactlyWhenNamesReadBack | installer/projection.py:3736-4110 | after one pass a second adds and removes nothing if and only if every desired name reads back |
| ProjectionSafety.DottedIdNeverSettles | installer/projection.py:1852 | a dotted Codex id that is not live is written again in every pass |
| ProjectionSafety.UnreportedNamesConverge | installer/projection.py:3955-4000 | every desired name neither reported nor lost is live as wanted, with evidence |
| ProjectionSafety.AfterACrash | installer/projection.py:3855-3874 | after a crash between document and rows a planned name is adopted exactly when no row contradicts it |
| ProjectionSafety.CrashAdoptsAddsAndReportsUpdates | installer/projection.py:3855-3874 | an interrupted first add is adopted, an interrupted update is drift |
| ProjectionSafety.OnlyRecordedIsPlanned | installer/projection.py:3839-3898 | only absent names and recorded entries are ever planned |
| ProjectionSafety.ClaudeEditsStay | installer/projection.py:2636-2672 | in a shared document every server not recorded and every other field stay verbatim |
| ProjectionSafety.UncoveredEditIsNotSeen | installer/projection.py:1917-1979 | an edit of fields outside a server's canonical form changes no verdict |
| ProjectionSafety.RecordedServerStaysUntilReplaced | installer/projection.py:2636-2672 | a recorded server stays verbatim exactly until its entry is replaced or removed, and replacing it drops every other field |
| ProjectionSafety.ClaudeNonObjectStaysUnlessDesired | installer/projection.py:2668-2670 | a value that is no object stays exactly when its name is not desired |
| ProjectionSafety.OverlayEditsStay | installer/projection.py:2673-2690 | exactly which unrecorded overlay entries stay |
| ProjectionSafety.CodexEditsStay | installer/projection.py:2614-2636 | exactly when an unrecorded Codex entry stays |
| ProjectionSafety.AnEditOutlivesEveryRun | installer/projection.py:3839-3898 | an edited shared server keeps its value through every run of passes, crashes and edits elsewhere |
| TomlString.StringRoundTrip | installer/projection.py:1815-1840 | every string reads back as itself, whatever follows |
| TomlString.QuotedStaysOnItsLine | installer/projection.py:1815-1840 | a quoted string holds no control character, so no value opens a table |
| ConnectorEngine.Recovery.constructor | connector_engine.py:149-163 | nothing cached, nothing outstanding |
| ConnectorEngine.Recovery.HandleAgent | connector_engine.py:191-227 | the role of an Agent line, and the handshake it caches |
| ConnectorEngine.Recovery.RememberSent | connector_engine.py:229-240 | where a sent id is remembered |
| ConnectorEngine.Recovery.HandleNode | connector_engine.py:273-329 | what is absorbed, forwarded and annotated; the annotation happens once |
| ConnectorEngine.Recovery.LostRequests | connector_engine.py:331-338 | returns every outstanding id and leaves none |
| ConnectorEngine.Recovery.FailOnce | connector_engine.py:340-362 | an error for each listed id not failed before |
| ConnectorEngine.Recovery.Successor | connector_engine.py:242-252 | a replacement takes over the handshake and nothing else |
| ConnectorEngine.ErrorsPerId | connector_engine.py:340-362 | how many errors an id gets from one call |
| ConnectorEngine.FailOnceIsOnce | connector_engine.py:340-362 | at most one error an id per call if and only if no fresh id is listed twice |
| ConnectorRuns.OnlyTheHandshakeWaitsOrReplays | connector_core.py:464-498 | in every run the queue holds only initialize lines, and no business request is queued or replayed |
| ConnectorRuns.NodeLinesKeepTheirOrder | connector_core.py:500-563 | forwarded node lines keep their order with just the replayed result taken out |
| ConnectorSafety.CallsAreConserved | connector_core.py:464-686 | each call read is in exactly one place: in hand, queued, outstanding, failing, failed, answered or forgotten |
| ConnectorSafety.AtMostOneErrorPerId | connector_core.py:565-580 | with unique ids an id gets at most one error in the whole run, and none once its answer found it outstanding |
| ConnectorSafety.RequestsAreOfferedOrRefused | connector_core.py:464-498 | each request read is in hand, offered to a socket once, or refused once |
| ConnectorSafety.AtMostOneWritePerRequest | connector_core.py:464-498 | no request is written twice, and one reported as not delivered was never written |
| ConnectorSafety.NoLineIsOfferedTwice | connector_core.py:464-498 | not even with reused ids is a line written twice by the writer |
| ConnectorGaps.SwapForgetsExactly | connector_core.py:395-419 | in every run a swap forgets an id if and only if it was remembered after that swap's quiescence check and neither answered nor drained since |
| ConnectorGaps.NothingIsForgottenOtherwise | connector_core.py:395-419 | a run in which nothing is remembered during a swap forgets nothing |
| ConnectorGaps.StrandedExactlyByALateLine | connector_core.py:464-498 | one step strands a line if and only if it queues an initialize line while the session is up or about to be |
| ConnectorGaps.InitializeWaitsOnlyWhenStranded | connector_core.py:652-686 | in every run an initialize line waits at some moment while the session is up if and only if some step queued it late |
| ConnectorBoth.WrittenIsInOnePlace | connector_core.py:464-580 | a written request is unremembered, outstanding, taken for lost, answered or forgotten, and only one of these |
| ConnectorBoth.BothFollowsExactly | connector_core.py:464-580 | after an answer to a written request an error for it follows in some run if and only if it is taken for lost, or unremembered while a session may still be lost |
| ConnectorBoth.BothOnlyThen | connector_core.py:464-580 | in every run that ends with an error for a request each answer to it came in one of these moments |
| ConnectorBoth.ErrorThenAnswer | connector_core.py:565-580 | from every state with a call outstanding on one session and another session still running, some run gives the error first and then the answer |
| ConnectorExamples.AnswerThenErrorForOneCall | connector_core.py:464-482 | a run in which one call gets its answer and then an error |
| ConnectorExamples.SwapForgetsACall | connector_core.py:395-419 | a run in which an engine swap forgets a written call |
| ConnectorExamples.InitializeIsStranded | connector_core.py:652-686 | a run in which a queued initialize waits while the session is up |
| ConnectorStaleLoss.ErrorThenAnswerForOneCall | connector_core.py:565-580 | a run from the start in which the late end of an earlier session gives a call an error before its answer |
| Dispatcher.LegacyModernStdio.constructor | legacy_modern_stdio.py:442-524 | nothing queued, pending or marked |
| Dispatcher.LegacyModernStdio.Enqueue | legacy_modern_stdio.py:919-937 | a full queue refuses, otherwise the request goes to the back |
| Dispatcher.LegacyModernStdio.PurgeQueued | legacy_modern_stdio.py:966-972 | exactly the queued occurrences of the id go |
| Dispatcher.LegacyModernStdio.MarkIfLive | legacy_modern_stdio.py:1000-1005 | the third phase, on a snapshot that may be stale |
| Dispatcher.LegacyModernStdio.PopNextRequest | legacy_modern_stdio.py:1009-1032 | pops the front and marks it pending, or drops everything once stdin is closed |
| Dispatcher.LegacyModernStdio.RemoveMarker | legacy_modern_stdio.py:1291-1298 | exactly the markers of the id go |
| Dispatcher.LegacyModernStdio.CheckCancelled | legacy_modern_stdio.py:1247-1268 | a marker stops the write and is taken away |
| Dispatcher.LegacyModernStdio.FinishRequest | legacy_modern_stdio.py:1061-1073 | pending id and markers of a finished request go |
| DispatcherSafety.WritesKeepArrivalOrder | legacy_modern_stdio.py:1222-1298 | in every interleaving backend writes are in arrival order, so none is repeated |
| DispatcherSafety.RequestsAreConserved | legacy_modern_stdio.py:858-1073 | each request read is in exactly one place |
| DispatcherSafety.AtMostOneReply | legacy_modern_stdio.py:1034-1073 | at most one reply, and none beside a refusal, purge, stop or drop |
| DispatcherSafety.WrittenIsNeverDiscarded | legacy_modern_stdio.py:944-1005 | a request refused, purged, stopped or dropped is never written, before or after |
| DispatcherSafety.AtMostOneOutstanding | legacy_modern_stdio.py:1222-1298 | in every interleaving at most one written request still waits for its answer |
| DispatcherCancellation.RunKeepsMarkers | legacy_modern_stdio.py:509-518 | a marker names the request in hand or was left behind by a late third phase |
| DispatcherCancellation.AtMostOneMarker | legacy_modern_stdio.py:509-518 | with cancellations handled at once there is at most one marker, and none outlives its request |
| DispatcherCancellation.RunStaysJustified | legacy_modern_stdio.py:995-1005 | every marker and every stopped request has the id of a request cancelled after it was read |
| DispatcherCancellation.EveryRequestIsAnsweredOnce | legacy_modern_stdio.py:1062-1073 | handled at once, or with ids never reused, every request is answered once unless it was cancelled before its write or stdin closed |
| DispatcherCancellation.CancelledInTimeIsNeverWritten | legacy_modern_stdio.py:1247-1269 | under the same condition a cancellation done before the last check stops the write |
| DispatcherLeak.NewMarkerIsLeftOverExactly | legacy_modern_stdio.py:995-1005 | in every run a new marker names no request in hand if and only if the third phase's snapshot saw the id unwritten and neither a marker nor the pending request has it |
| DispatcherLeak.LeftOverExactly | legacy_modern_stdio.py:973-1073 | in every run a marker is left over if and only if such a step left it and no request with its id was taken up since |
| DispatcherLeak.StoppedForOneOfTwoReasons | legacy_modern_stdio.py:1247-1268 | every stopped request was cancelled after it was read or was taken up while such a marker had its id |
| DispatcherLeak.MetMarkerIsNeverWritten | legacy_modern_stdio.py:1247-1268 | and a request taken up while such a marker has its id is never written in any continuation |
| DispatcherExamples.MarkerOutlivesItsRequest | legacy_modern_stdio.py:973-1005 | a run in which the stale snapshot leaves a marker behind |
| DispatcherExamples.ReuseIsPoisoned | legacy_modern_stdio.py:973-1005 | and a later request with that id is stopped without a reply, though nobody cancelled it |
| HarnessProbe.ValidateEvents | installer/harness_verification.py:330-392 | the checker's single pass accepts exactly the receipts of the declarative reading |
| HarnessProbe.Fixture.constructor | installer/harness_verification.py:534-558 | a fresh fixture persists an incomplete receipt |
| HarnessProbe.Fixture.Observe | installer/harness_verification.py:564-573 | one observation with the time its bytes left, persisted at once |
| HarnessProbe.Fixture.Handle | installer/harness_verification.py:588-700 | what a message does to the evidence |
| HarnessProbe.Fixture.HandleList | installer/harness_verification.py:645-667 | the initial list, the refetch, and every other list |
| HarnessProbe.Fixture.HandleCall | installer/harness_verification.py:671-700 | the bootstrap call, the canary call, and every other call |
| HarnessProbe.EveryPersistedReceiptIsAccepted | installer/harness_verification.py:531-700 | for every message sequence and monotone clock every persisted receipt passes the checker |
| HarnessProbe.CompleteMeansRefetched | installer/harness_verification.py:645-700 | a complete receipt means a list received after the announcement was answered before the canary call arrived |
| ArchiveNames.CheckNameSet | archive_profile.py:176-205 | accepts exactly the prefix-free sets of distinct folded names, and what each refusal means |
| ArchiveNames.GoodNamesKeepApart | archive_profile.py:176-205 | which are exactly the names whose files a case-folding disk keeps apart |
| ArchiveNames.PutAllContents | archive_profile.py:464-497 | each such file then has the content written under its name |
| ArchiveNames.GoodNamesPermuted | archive_profile.py:176-205 | the verdict does not depend on the order of names |
| Archive.SortedIsUnique | archive_profile.py:252-254 | sorting by name leaves one order |
| Archive.DescribeMembers | archive_profile.py:297-320 | the manifest with its running totals, or a refusal |
| Archive.BuildArchive | archive_profile.py:279-338 | what is refused, and the archive otherwise |
| Archive.BuildIgnoresScanOrder | archive_profile.py:212-254 | the archive depends on the name-to-bytes map alone |
| ArchiveExtraction.CheckHeaders | archive_profile.py:395-416 | names, kinds and sizes in one pass |
| ArchiveExtraction.ValidateEntries | archive_profile.py:379-424 | the pre-pass accepts exactly the well-formed archives |
| ArchiveExtraction.CheckManifest | archive_profile.py:498-544 | accepts exactly the manifests that describe what was written |
| ArchiveExtraction.Workspace.WriteMembers | archive_profile.py:464-497 | writes into the partial tree alone, and fails exactly when a member cannot be read or placed |
| ArchiveExtraction.Workspace.ExtractArchive | archive_profile.py:427-578 | on success the destination is exactly the verified tree; on any failure nothing has changed |
| ArchiveRoundTrip.WritingNeverInterferes | archive_profile.py:464-497 | with accepted names only an unreadable member can stop the writing |
| ArchiveRoundTrip.AcceptedArchivesAreSound | archive_profile.py:427-578 | any accepted archive yields exactly its non-manifest members with the sizes and digests its manifest states, which names nothing else, within the bounds |
| ArchiveRoundTrip.RoundTripExactly | archive_profile.py:279-578 | extracting what was built succeeds if and only if names pass, none is the manifest's, and the manifest fits |
| ArchiveRoundTrip.RoundTripRestores | archive_profile.py:279-578 | and then gives back every file and nothing else |
| ToolHeaderSchema.ExtractBindings | streamable_http_stdio.py:969-1010 | the explicit-stack traversal accepts exactly the usable schemas and returns the annotations of the recursive reading, in its order |
| ToolHeaderSchema.Visit | streamable_http_stdio.py:991-1000 | one node's annotation is refused or recorded |
| ToolHeaderSchema.MirroredExactlyByProperties | streamable_http_stdio.py:1001-1009 | the reachable annotations are exactly those on paths of properties |
| HeaderCodec.Utf8RoundTrip | streamable_http_stdio.py:962-966 | UTF-8 gives back every string |
| HeaderCodec.Base64RoundTrip | stdio_http_facade.py:1214-1217 | Base64 gives back every byte string |
| HeaderCodec.HeaderRoundTrip | streamable_http_stdio.py:962-966 | every text survives the header, also one that looks like the wrapper |
| HeaderCodec.HeaderIsTransportable | stdio_http_facade.py:1207-1213 | what goes into a header is trimmed visible ASCII |
| HeaderCodec.HeadersAreInjective | streamable_http_stdio.py:962-966 | different values never share a header |
| DecimalReader.NumeralReadsIntegers | stdio_http_facade.py:1779-1800 | the decimal reader reads the text of every integer as that integer |
| ToolHeaders.ExtractedHeadersAreDistinct | streamable_http_stdio.py:989-997 | extracted header names differ also without regard to case |
| ToolHeaders.AdapterHeadersPass | streamable_http_stdio.py:1013-1042 | the adapter's headers always pass the facade's comparison with the same arguments |
| ToolHeaders.AcceptedHeadersCarryTheArguments | stdio_http_facade.py:1779-1800 | whatever headers pass carry exactly the body's values |
| OutcomeReport.ModernProxy.constructor | stdio_http_facade.py:1229-1241 | nothing started, nothing closing |
| OutcomeReport.ModernProxy.AdmitJob | stdio_http_facade.py:1312-1321 | the writer's last look before the first byte |
| OutcomeReport.ModernProxy.BeginClose | stdio_http_facade.py:1344-1347 | closing is announced under the same lock |
| OutcomeReport.KnownOutcomeMeansNothingWritten | stdio_http_facade.py:1300-1399 | an error with outcomeUnknown false means no byte of the request was or will be written, for a request of any method |
| OutcomeReport.HeldCanBeWritten | stdio_http_facade.py:1312-1326 | a request the writer holds can still be written unless it is stopped or the gate is closed to it, which it is not to a request with a cancellation's method |
| OutcomeReport.FlagBeforeStoppingIsNotEnough | stdio_http_facade.py:1839-1845 | reading the flag before closing, or between closing and stopping, would not be enough |
| DeferredCatalog.AddPageKeepsGood | deferred_tools.py:592-617 | paging keeps names distinct, bounded and off the library's, keeps page order, and stops within the page limit |
| DeferredCatalog.CatalogPager.constructor | deferred_tools.py:585-589 | no page taken |
| DeferredCatalog.CatalogPager.TakePage | deferred_tools.py:592-617 | one turn of the paging loop |
| DeferredCatalog.HeldCatalogIsCurrent | deferred_tools.py:577-630 | a catalog the session holds is good and saw no invalidation since its first page was asked for |
| DeferredCatalog.TakenWasCurrent | deferred_tools.py:577-630 | the copy of the catalog a request works on was the session's, and current, when the request took it |
| DeferredCatalog.ForwardedCallsWereInACurrentCatalog | deferred_tools.py:753-768 | every call forwarded was forwarded while expanded, on behalf of a request that took its copy of the catalog when it was held and current, and its name was in it |

## Left out

- Sockets, processes, signals, timeouts and HTTP parsing: a send succeeds or fails, a clock is a number.
- JSON text: a line's decoder is a parameter, other documents are values; lone surrogates, huge integers, recursion
  errors and JSON values that Python compares equal across types (1, 1.0 and true) are not distinguished.
- SHA-256 is taken as injective: a digest is the content it is of, a fingerprint is the entry it is of.
- stream_evidence.py: a request skipped for lack of capacity gets no row in the model as in the code, although the
  comment on observations says every request is reported.
- MessageClass.ClassifiedMessagesCarryIds: does not parse JSON; the envelope comes from the decoder.
- SessionRecovery: the negotiated protocol version, the server stream and session termination are not part of it.
- installer/projection.py: the official CLI adapters, enrolment, the peer mirror, dry runs, verification receipts, and
  an edit made between the reading and the applying of one pass.
- ProjectionSafety.CodexRoundTrip: does not model names with other characters than letters, digits, '.', '_' and '-',
  which no registered id has; comments and fields in documents the authority owns are lost when these are regenerated, and
  are not part of the model.
- Projection.ProjectedEnvironment.Reconcile: does not model the failure of the atomic file replacement, which restores
  the previous bytes, nor the refusal of unsupported transports before the pass.
- connector_core.py, and the loops of legacy_modern_stdio.py, streamable_http_stdio.py and deferred_tools.py in which
  threads interleave: state machines on values, one step per locked region, send or callback, rather than methods of an
  object; what the buffers and locals of a thread hold between its steps is in its program counter.
- connector_core.py: splitting node bytes into lines (the same loop as the line framer), stdout failure, which ends the
  process, and the drain at the end of input beyond its not failing anything.
- ConnectorEngine.Recovery.LostRequests: does not fix the order of the errors, which in the source follows a dictionary
  and a set; request methods are not kept, since the note on tool results they serve is switched off.
- legacy_modern_stdio.py: what the backend answers, timeouts and the projection of results; a request is answered or
  abandoned. Frames over the limit are not part of this model.
- installer/harness_verification.py: challenge validation and expiry, attestations and the negative verdict.
- HarnessProbe.ValidateEvents: does not model an observation with missing or additional JSON fields, which the source
  refuses before looking at it.
- archive_profile.py: the ZIP container and the directory walk; a scan is any list of files with distinct paths. The
  length of the manifest's text is a parameter. `str.lower` is a function parameter, and the disk's own notion of equal
  names another.
- ArchiveNames.CheckNameSet: does not say which of several clashes is reported; the source sorts names to fix it.
- deferred_tools.py: tool schemas are a flag, whitespace other than the space does not count as blank in a name, and the
  library's own directory listing is left out.
- stdio_http_facade.py: the legacy facade's sessions and event streams.
- DecimalReader.NumeralReadsIntegers: does not model decimal digits and blanks outside ASCII, nor the range of exponents.
- ConnectorBoth.BothFollowsExactly: is about business requests and answers heard past a replay; answers held back during
  a replay and the ids of initialize lines are covered by ConnectorSafety only.
- bridge_protocol.py, journal_evidence.py and journal_maintenance.py: per-field and counting facts only.
- bridge_runtime.py is not part of this model beyond the identifier pattern the names follow.

# Verified model of the FileQueue JNI agents

The agents of `ver2.0/jni` are meant to move messages from an input queue through business
work to an output queue without losing or reordering them across crashes. This project models
their protocols and codecs in Dafny and proves what they promise. `dafny verify dfyconfig.toml`
checks everything.

**The durable bundle pipeline.** `Journal` holds the journal's events, their replay and the
order in which they are legal; `Lifecycle` writes that order out as a language.
`StoreProtocol` is the store under concurrent callers and one writer thread, `Pipeline` the
state machine of reader, workers, publisher, writer, restart, process crash and power loss.
`History` says what a sequence of observations must satisfy; `PipelineInvariant` to
`PipelineGlobal` prove it is kept by each step, and `PipelineTheorems` states the results
about every run, `PipelineLoss` which messages a start discards, `PipelineAttempts` how often
work is tried, `PipelineSources` where events come from, and `PipelineProgress` that no message
gets stuck. `JournalBytes` is the file as bytes, `GroupCommit` the writer thread byte by
byte, with its progress, `GroupCommitRefines` its refinement of `StoreProtocol` on any
recovered journal, and `GroupCommitLives` one life after the other; `JournalEncoder` shows
that the encoder they assume exists. `DurableStore` and `Publisher` are the store and the publish loop as classes
and methods, `Startup` is the re-bundling against a bounded queue.

**The queue table.** `XaSlots` is the 32-slot table of `fqueue_jni.c` as a class over an array.

**The flat-JSON codec.** `JsonString` and `JsonObject` give the grammar of sections 4 and 7 of
RFC 8259 (strings only), the reader, and their agreement in both directions; `JsonParser` is
the parser class proved against the reader; `JsonEscapes` says what escapes and punctuation
mean, in characters. `FieldMap`, `Generator` and `MessageCodec` are the six-column map, the
generator and the response codec; `MapLanguage` and `Calendar` pin down the text of map lines
and rules, and dates.

**The two agents.** `Agent` is the JNI agent as a class whose calls obey a law of traces;
`AgentSocket` is the socket agent as a machine of two threads, a callback and a shutdown, whose
replies `SocketReplies` ties to the codec and `ShippedMaps` to the shipped response map files;
`AgentSocketAnswers` says that nothing goes unanswered. `Utf8` is the character set.

## What the proofs found

- A message whose XA commit took effect but whose READY was not yet durable is discarded at
  the next start. Loss is therefore possible (`LossIsPossible`) and bounded: at most one
  message per start, and never one whose READY was acknowledged. `DiscardsExactlyTheCommitting`
  gives the exact condition: a start discards a message if and only if the journal it reads
  has it as COMMITTING, without its READY.
- Recovery forces the journal only when it truncates a torn tail. After a process crash
  complete but unforced lines are read back and acted on; a power loss can then take them
  away, and publication goes back to an earlier item. `PublishedInOrderIff` gives the exact
  condition.
- At startup the recovered bundles are put on the bounded queue before the thread that empties
  it exists. `StartupGetsThroughIff` says when startup gets through; with the shipped sizes
  it hangs with more than 40000 recovered messages (`ShippedSizesHang`).
- `deQueueXA` marks a slot pending only when the library's answer fits the buffer; otherwise a
  dequeue stays outstanding that no commit or cancel can reach. `DeQueueXA` carries the exact
  condition.
- In the socket agent a RESULT can be published for a request that never got an ACK: the ACK is
  generated after the submission, from what the telecom accepted, and may not pass its map.
  `AckBeforeResultIff` says that this is the only way, `ShippedOrderIff` which acceptances cause
  it with the shipped maps, and `OddGroupBreaksTheOrder` shows one. The only telecom in the
  repository, the simulated one, causes none (`SimulatedTelecomKeepsTheOrder`).
- A worker interrupted while its RESULT is appended leaves a RETRY behind the RESULT, or on
  the last attempt a second RESULT (`InterruptedResultIff`): a restart repeats work whose
  result is already durable, or publishes the error in its place.
- A failed checkpoint makes the publisher enqueue the same item again on a later pass; the
  history records it, and `PublishedAtLeastOnce` counts it as the match of the extra copy.
- NOW14 fails its own validation from the year 10000 on (`Now14IsValidIff`).

## How to read the models

Threads are interleaved step by step; a timed wait is a free choice to stop waiting. The
native library's answers, business results and crashes are free choices; clock readings and
the draws of the random source are parameters. An interrupted wait in `append` is a crash, since
the code calls its outcome uncertain. Text is a sequence of UTF-16 code units, as in Java.

## Model

| member | source | states |
|---|---|---|
| Journal.ReplayIsView | ver2.0/jni/java/DurableStore.java:672-745 | Where replaying a journal line by line succeeds, it gives every message the state that its own events give it. |
| Journal.ReplaysIff | ver2.0/jni/java/DurableStore.java:681-744 | Replay succeeds exactly when each event finds the message it names. |
| Journal.LegalReplays | ver2.0/jni/java/DurableStore.java:681-744 | A legal journal and each of its prefixes replay without the unknown-message error of recovery. |
| Journal.AtMostOneCommitting | ver2.0/jni/java/BundleReader.java:174-248 | In a legal journal at most one message is COMMITTING at a time. |
| Journal.FactsPersist | ver2.0/jni/java/DurableStore.java:318-405 | A fact about a message that a legal journal has established (at least READY, this result, so many items published) holds in every longer prefix. |
| Lifecycle.LegalMeansLifecycle | ver2.0/jni/java/DurableStore.java:175-376 | The events of one message in a legal journal are (STAGE DISCARD)* STAGE READY, then PROCESSING and RETRY events, one RESULT, PUBLISHED 1 to n, DONE, or a beginning of that, and replay gives what that history amounts to. |
| Lifecycle.LifecycleMeansLegal | ver2.0/jni/java/DurableStore.java:175-376 | Conversely every such history is a legal journal: the language is exact. |
| Lifecycle.InterruptedResultIff | ver2.0/jni/java/BundleAgent.java:435-492 | A worker interrupted while its RESULT is appended enqueues a second event behind it, a RETRY or on the last attempt the error result: the journal still replays, but keeps to the lifecycle exactly if that line is cut off; with it a restart repeats the work, or publishes the error in place of the result. |
| StoreProtocol.MemoryRefinesReplay | ver2.0/jni/java/DurableStore.java:175-376 | Memory equals replay of the journal at every message without an operation in flight, and is behind by exactly that operation's one event at the others. |
| PipelineTheorems.StepInv | ver2.0/jni/java/BundleAgent.java:269-589 | Every step of reader, workers, publisher, journal writer, restart, process crash and power loss keeps the pipeline's invariant. |
| PipelineTheorems.ReachableInv | ver2.0/jni/java/BundleAgent.java:269-589 | The invariant holds after every run with any number of crashes and restarts. |
| PipelineTheorems.EveryJournalReplays | ver2.0/jni/java/DurableStore.java:672-745 | After any run, every prefix of the journal replays without error, each message's events in it spell one lifecycle, and at most one message is COMMITTING. |
| PipelineTheorems.SubmittedEventsPassTheGuard | ver2.0/jni/java/DurableStore.java:234-278 | Every event a thread submits names a message live in memory, and a checkpoint is the next one: the store's own argument checks never fire. |
| PipelineTheorems.MemoryFollowsTheJournal | ver2.0/jni/java/DurableStore.java:175-376 | In every reachable state memory equals replay, except one event behind where an operation is in flight or its append failed. |
| PipelineTheorems.AcknowledgedEventsSurvive | ver2.0/jni/java/DurableStore.java:428-475 | The forced part of the journal is a prefix of the journal after any continuation: crashes, power losses, journal failures and restarts included. |
| PipelineTheorems.CommittedIsLiveOrDiscarded | ver2.0/jni/java/BundleAgent.java:282-295 | An input whose XA commit took effect is in every journal a crash can leave, or a start discarded it after a restart, with its READY never acknowledged. |
| PipelineLoss.DiscardsExactlyTheCommitting | ver2.0/jni/java/BundleAgent.java:282-295 | After any run that left the process down, a start that gets through startup discards, then and in its whole life, exactly the messages that are COMMITTING in the journal it reads. |
| PipelineAttempts.AtMostFourTries | ver2.0/jni/java/BundleAgent.java:424-492 | In any run the k-th call of the business work on a message since its dispatch, without a restart in between, comes after exactly k - 1 failures, and k is at most four. |
| PipelineAttempts.WhatAFailureLeadsTo | ver2.0/jni/java/BundleAgent.java:458-482 | After any run, while the store accepts events, a failure that is the first, second or third since the dispatch submits the RETRY with the next count and the work is due again; the fourth submits the error result. |
| PipelineAttempts.WorkBegins | ver2.0/jni/java/BundleAgent.java:424-431 | After any run a message that is queued, or due again after a failure, gets its PROCESSING submitted while the store accepts events. |
| PipelineSources.EveryEventHasASource | ver2.0/jni/java/BundleAgent.java:410-508 | In any run each event of the journal came from the step that may submit it: STAGE has the bytes dequeued, RESULT the batch the work returned, or the error item of the fourth failure since the dispatch. |
| PipelineProgress.EveryMessageCanFinish | ver2.0/jni/java/BundleAgent.java:410-589 | After any run that left the agent running and its store accepting events, each message it holds can be brought durably to DONE by steps in which nothing goes wrong: no message gets stuck. |
| PipelineProgress.OnlyReasonsStop | ver2.0/jni/java/BundleAgent.java:410-589 | The agent keeps running, its reader does not stop and its store accepts events through any steps, failing work included, until a crash, a shutdown, a journal that is closed or fails, or a commit that fails. |
| PipelineTheorems.ReadyIsNeverLost | ver2.0/jni/java/BundleReader.java:174-261 | A message whose setState(READY) returned stays at READY or later in every journal a crash can leave and is never discarded. |
| PipelineTheorems.AtMostOneLossPerStart | ver2.0/jni/java/BundleAgent.java:282-295 | Over any run no more messages are discarded than the process was started times. |
| PipelineTheorems.UniqueDispatch | ver2.0/jni/java/BundleReader.java:174-261 | Two dispatches of one message have a restart between them, and no bundle holds a message twice. |
| PipelineTheorems.NothingIsForgotten | ver2.0/jni/java/BundleAgent.java:297-323 | Once startup is over every unfinished message in memory is in the reader's bundle or with the workers and the publisher; one that a thread gave up on implies that the store refuses further events. |
| PipelineTheorems.ResultNeverChanges | ver2.0/jni/java/BundleAgent.java:410-508 | After setResultPending has returned the business work never runs again, only that result is published, and every later journal holds it. |
| PipelineTheorems.PublishedAtLeastOnce | ver2.0/jni/java/BundleAgent.java:551-589 | An item is enqueued only after all earlier items of its result; a second copy has a restart or a failed checkpoint between it and the first. |
| PipelineTheorems.DoneMeansPublished | ver2.0/jni/java/BundleAgent.java:551-589 | A message that is DONE had every item of its result enqueued. |
| PipelineTheorems.PublishedInOrderIff | ver2.0/jni/java/DurableStore.java:629-669 | The items of a message are enqueued in order, without going back, in every run, if and only if no power loss takes back lines that a restart has already read. |
| PipelineTheorems.PublishedInOrderPerRun | ver2.0/jni/java/DurableStore.java:629-669 | In each run whose power losses leave the lines the last restart had read, the items of a message are enqueued in order. |
| PipelineWitness.LossIsPossible | ver2.0/jni/java/BundleAgent.java:282-295 | A concrete run in which a committed input is discarded at the next start: plain 'no loss' is false of the code. |
| PipelineWitness.ReorderingIsPossible | ver2.0/jni/java/DurableStore.java:629-669 | A concrete run in which recovery acts on an unforced PUBLISHED line, power fails, and item 0 is enqueued after item 1. |
| JournalBytes.ReadBackWritten | ver2.0/jni/java/DurableStore.java:629-745 | Encoding events as lines and recovering them gives the same events, whatever incomplete line follows. |
| JournalBytes.CutReadsPrefix | ver2.0/jni/java/DurableStore.java:629-669 | A file cut anywhere at or after its forced part reads back as a prefix of the events that contains all forced ones. |
| JournalBytes.EveryPrefixIsACut | ver2.0/jni/java/DurableStore.java:629-669 | Conversely each such prefix is what some cut leaves. |
| JournalBytes.RoundsKeep | ver2.0/jni/java/DurableStore.java:629-746 | Through any number of rounds of recover, append, force, cut, reading back succeeds and the forced events stay in place. |
| JournalEncoder.EncoderExists | ver2.0/jni/java/DurableStore.java:428-434 | The assumption on the line encoder can be met: there is an encoder of events that is decodable, nonempty and free of newlines. |
| JournalBytes.AcknowledgedAreReadBack | ver2.0/jni/java/DurableStore.java:428-475 | Events acknowledged in one round are read back, in place and in order, after it and after every later round. |
| JournalBytes.ValidLength | ver2.0/jni/java/DurableStore.java:636-655 | The backward scan finds the length up to and including the last newline. |
| JournalBytes.SplitLines | ver2.0/jni/java/DurableStore.java:672-680 | The lines of the kept part, in order, none lost. |
| JournalBytes.RecoverJournal | ver2.0/jni/java/DurableStore.java:629-745 | Recovery truncates the torn tail and returns the replay of the decoded lines, or fails exactly when a line is no event or names an unknown message. |
| GroupCommit.GroupCommitIsSound | ver2.0/jni/java/DurableStore.java:484-588 | After any run of the journal thread the file is the old file and the requests in enqueue order, a batch has 1 to 64 requests, and a caller released with success has its bytes in the forced part. |
| GroupCommit.EveryRequestIsReleased | ver2.0/jni/java/DurableStore.java:484-611 | In every endless run in which the thread is scheduled again and again while it lives, each accepted request is completed or failed after finitely many of its steps, however many requests arrive meanwhile. |
| GroupCommit.StepComesNearer | ver2.0/jni/java/DurableStore.java:484-611 | Each step of the thread releases a waiting request or lowers its distance to release; steps of other threads leave it. |
| GroupCommit.CloseReturns | ver2.0/jni/java/DurableStore.java:796-851 | Under the same scheduling, once close has set the flag the thread ends, with every request released. |
| GroupCommit.NoWaiterIsStranded | ver2.0/jni/java/DurableStore.java:590-611 | Once the thread has ended no request waits, and none is accepted or changed afterwards. |
| GroupCommit.WriterCanProceed | ver2.0/jni/java/DurableStore.java:484-588 | While a caller waits the thread has a step of its own to take, so that scheduling it is always possible. |
| GroupCommitRefines.OpenMatches | ver2.0/jni/java/DurableStore.java:117-146 | The writer opened on the bytes of any recovered journal matches the store opened on its events. |
| GroupCommitRefines.WriterRefinesStore | ver2.0/jni/java/DurableStore.java:428-611 | On any recovered journal, each act of a caller or of the byte-level writer is one guarded step of the abstract store (submit, write, force, fail, close, acknowledge) or leaves the store exactly as it is. |
| GroupCommitRefines.EveryLifeRefines | ver2.0/jni/java/DurableStore.java:428-611 | After every run of every life the file reads back as the abstract journal up to its written length, the forced bytes are its durable prefix, it begins with the recovered events, and memory follows its replay. |
| GroupCommitLives.NextLife | ver2.0/jni/java/DurableStore.java:629-669 | A file cut at or after its forced part is a valid start of the next life: it reads back, it replays, and every durable event is in place. |
| GroupCommitLives.EveryStartIsValid | ver2.0/jni/java/DurableStore.java:117-146 | Over any number of lives, each on the file the last one left, every start recovers, and the last has every event that was durable at the first start or when the first life ended, in place. |
| GroupCommitRefines.ReleasesMatchTheStore | ver2.0/jni/java/DurableStore.java:562-611 | A caller wakes up with success only when its event is durable in the abstract journal, with the failure only when the journal has failed and its event is not durable. |
| GroupCommitRefines.NoReturnIsBarred | ver2.0/jni/java/DurableStore.java:458-475 | A caller whose request was released with success can always return and update memory. |
| GroupCommitRefines.RequestFates | ver2.0/jni/java/DurableStore.java:428-475 | A released request is forced, or the journal failed with its line in the file but not forced, or without it: the three outcomes append can have. |
| DurableStoreClass.DurableStore.Stage | ver2.0/jni/java/DurableStore.java:175-232 | A known message is returned as stored and nothing is written; a new one is COMMITTING in journal and memory. |
| DurableStoreClass.DurableStore.SetState | ver2.0/jni/java/DurableStore.java:234-261 | Journal and memory take the new state together, or memory is unchanged. |
| DurableStoreClass.DurableStore.Discard | ver2.0/jni/java/DurableStore.java:263-287 | The message leaves memory and insertion order once its DISCARD is durable. |
| DurableStoreClass.DurableStore.SetRetry | ver2.0/jni/java/DurableStore.java:289-316 | The retry count grows by one with the durable RETRY event. |
| DurableStoreClass.DurableStore.SetResultPending | ver2.0/jni/java/DurableStore.java:318-356 | The result and RESULT_PENDING are in memory only when they are durable, with no item published. |
| DurableStoreClass.DurableStore.SetPublishedCount | ver2.0/jni/java/DurableStore.java:358-376 | Only the next count is accepted; memory follows the durable PUBLISHED event. |
| DurableStoreClass.DurableStore.RecoverableMessages | ver2.0/jni/java/DurableStore.java:378-392 | Exactly the messages that are COMMITTING, READY, PROCESSING or RETRY_WAIT, once each and in insertion order. |
| DurableStoreClass.DurableStore.PendingResults | ver2.0/jni/java/DurableStore.java:394-405 | Exactly the messages that are RESULT_PENDING, once each and in insertion order. |
| DurableStoreClass.SelectFinds | ver2.0/jni/java/DurableStore.java:378-405 | A scan by state finds exactly the messages in those states, once each. |
| DurableStoreClass.SelectKeepsOrder | ver2.0/jni/java/DurableStore.java:378-405 | A scan by state lists the messages in insertion order. |
| DurableStoreClass.EachFoundOnce | ver2.0/jni/java/DurableStore.java:378-405 | Every stored message is in exactly one of recoverableMessages, pendingResults and the DONE messages. |
| DurableStoreClass.WithoutCuts | ver2.0/jni/java/DurableStore.java:263-287 | Removing a key takes out its place and leaves the insertion order of the others. |
| DurableStoreClass.WithoutKeeps | ver2.0/jni/java/DurableStore.java:263-287 | Removing a key removes it alone and leaves no duplicates. |
| Publisher.PublishPayload | ver2.0/jni/java/BundleAgent.java:580-589 | Returns true exactly when the queue accepted the payload, which is then enqueued once. |
| Publisher.PublishItems | ver2.0/jni/java/BundleAgent.java:551-574 | The items from the stored count on are enqueued once each, in order; the loop gets past an item exactly if its queue accepts it and its checkpoint is forced, and succeeds exactly if it gets past all. |
| Publisher.PublishOne | ver2.0/jni/java/BundleAgent.java:551-578 | Succeeds exactly if the store accepts events, every remaining item is accepted and durably counted, and DONE is forced; the message is then DONE with every item out, and otherwise the items up to the first turn that fails are. |
| Publisher.Rebundle | ver2.0/jni/java/BundleAgent.java:301-323 | The startup bundles concatenate to the recovered list; all but the last have the configured size and none is empty. |
| Startup.StartupGetsThroughIff | ver2.0/jni/java/BundleAgent.java:301-336 | No run of startup hangs at the put of a full queue, before the dispatcher exists, if and only if the recovered messages number at most capacity times bundle size; otherwise no run ever starts the threads. |
| Startup.MoreBundlesHang | ver2.0/jni/java/BundleAgent.java:301-336 | Whenever re-bundling makes more bundles than the queue holds, a run hangs. |
| Startup.ShippedSizesHang | ver2.0/jni/java/BundleAgent.java:301-336 | With bundles of 400 and a queue of 100 startup gets through exactly with at most 40000 recovered messages. |
| XaSlots.Balanced | ver2.0/jni/native/fqueue_jni.c:282-521 | If dequeues and resolutions reach the library in alternation, dequeues minus resolutions is 1 while one is owed and 0 otherwise, per slot. |
| XaSlots.SlotTable.OpenLogger | ver2.0/jni/native/fqueue_jni.c:45-77 | Opens or keeps the one logger; the table stays valid. |
| XaSlots.SlotTable.CloseLogger | ver2.0/jni/native/fqueue_jni.c:79-108 | Refused while any queue is open, so an open slot implies an open logger. |
| XaSlots.SlotTable.OpenQueue | ver2.0/jni/native/fqueue_jni.c:110-173 | Takes the lowest free slot, or refuses without a logger, without a free slot or when the library refuses. |
| XaSlots.SlotTable.CloseQueue | ver2.0/jni/native/fqueue_jni.c:175-199 | Refused for a slot with a pending XA; otherwise only that slot is freed. |
| XaSlots.SlotTable.EnQueue | ver2.0/jni/native/fqueue_jni.c:201-280 | The call reaches the library exactly for a known mode on an open queue for which the library waits for no resolution, and the answer is the library's. |
| XaSlots.EnqueuesFallBetween | ver2.0/jni/native/fqueue_jni.c:201-280 | No enqueue reaches the library on a slot between a dequeue and its commit or cancel. |
| XaSlots.SlotTable.DeQueueXA | ver2.0/jni/native/fqueue_jni.c:282-341 | At most one dequeue is outstanding per slot and it is the pending one, if and only if the library returns no more than the buffer holds. |
| XaSlots.SlotTable.AbandonDequeue | ver2.0/jni/native/fqueue_jni.c:377-399 | A dequeue whose message object could not be built is cancelled and no longer pending. |
| XaSlots.SlotTable.Commit | ver2.0/jni/native/fqueue_jni.c:433-484 | Reaches the library only with the pending sequence number and clears the mark whatever the answer. |
| XaSlots.SlotTable.Cancel | ver2.0/jni/native/fqueue_jni.c:486-521 | Reaches the library only with the pending sequence number and clears the mark. |
| XaSlots.ServeAll | ver2.0/jni/native/fqueue_jni.c:45-521 | Any calls in any order: the table tracks the library up to the first dequeue whose answer does not fit the buffer and from that answer on no longer; until then dequeues exceed resolutions by one exactly on the pending slots. |
| XaSlots.InitializeQueues | ver2.0/jni/java/BundleAgent.java:213-267 | The input queue opened first on a fresh table gets slot 0, output 1, error 2, so message ids are stable across restarts. |
| JsonString.ReadsLiteral | ver2.0/jni/java/JsonAudit.java:66-126 | Any string literal of section 7 of RFC 8259 whose escapes and units pair all surrogates, standing in a text, is read to its value and reading stops right after its closing quote. |
| JsonString.ReadIsLiteral | ver2.0/jni/java/JsonAudit.java:66-126 | Whatever the reader accepts is such a literal, with that value. |
| JsonString.ValuesAreWellFormed | ver2.0/jni/java/JsonAudit.java:66-126 | The value of a literal is well-formed UTF-16: unpaired surrogates are never returned. |
| JsonString.Quote | ver2.0/jni/java/JsonGenerator.java:98-111 | The loop writes the escaped text between quotes. |
| JsonString.PiecesMeanText | ver2.0/jni/java/JsonGenerator.java:98-111 | What quote writes for well-formed text is a literal of the grammar whose value is the text. |
| JsonString.QuoteReadsBackIff | ver2.0/jni/java/JsonGenerator.java:98-111 | Placed anywhere in a text, a quoted string reads back to itself and stops after its closing quote if and only if it is well-formed UTF-16. |
| JsonEscapes.ShortReads | ver2.0/jni/java/JsonAudit.java:91-101 | Wherever it stands, a short escape reads as its unit, a line feed for n and a tab for t, exactly as the hexadecimal escape in its place does, with the same error or the same value. |
| JsonEscapes.ShortReadsInside | ver2.0/jni/java/JsonAudit.java:91-101 | The same behind any pieces of the string and before any rest. |
| JsonEscapes.ShortReadsInObject | ver2.0/jni/java/JsonAudit.java:91-101 | In whichever key or value of an object a short escape stands, the object is read as if the hexadecimal escape stood there. |
| JsonEscapes.HexReads | ver2.0/jni/java/JsonAudit.java:102-117 | Wherever it stands, four hexadecimal digits in upper or lower case read as the unit with that number, outside the surrogates. |
| JsonEscapes.HexPairReads | ver2.0/jni/java/JsonAudit.java:102-113 | A code point beyond 16 bits written as two escapes reads as its surrogate pair. |
| JsonEscapes.PairsArePoints | ver2.0/jni/java/JsonAudit.java:79-90 | Pairs of a high and a low surrogate are exactly the code points from 0x10000 to 0x10FFFF. |
| JsonParser.Parser.Whitespace | ver2.0/jni/java/JsonAudit.java:28-34 | Stops at the first unit that is not one of the four JSON blanks. |
| JsonParser.Parser.Take | ver2.0/jni/java/JsonAudit.java:36-43 | Skips blanks and the expected unit if it stands there. |
| JsonParser.Parser.Hex4 | ver2.0/jni/java/JsonAudit.java:51-64 | Reads four hexadecimal digits to their value, with the two errors of the source. |
| JsonParser.Parser.String | ver2.0/jni/java/JsonAudit.java:66-126 | The loop returns the value and end position that the grammar's reader gives, or its error; the position stays in the text. |
| JsonParser.Parser.Object | ver2.0/jni/java/JsonAudit.java:128-159 | The loop returns exactly the entries or the error of the object reader, terminates, and keeps the position in the text. |
| JsonParser.ParseObject | ver2.0/jni/java/JsonAudit.java:162-165 | parseObject is the object reader. |
| JsonObject.DocumentIsParsed | ver2.0/jni/java/JsonAudit.java:128-159 | A flat object with white space anywhere section 4 of RFC 8259 allows it parses to its entries in order, or to the duplicate-key error when a key repeats. |
| JsonObject.ParsedIsDocument | ver2.0/jni/java/JsonAudit.java:128-159 | Whatever parses is such an object, with these entries and distinct keys, and nothing after it. |
| JsonObject.AcceptsExactlyFlatObjects | ver2.0/jni/java/JsonAudit.java:128-165 | parseObject accepts a text if and only if it is a flat object of strings with distinct keys. |
| JsonObject.ParserClosure | ver2.0/jni/java/JsonAudit.java:128-165 | Keys and values of a parsed object are well-formed UTF-16 and keys are distinct. |
| JsonObject.RecordReadsBackIff | ver2.0/jni/java/JsonGenerator.java:113-156 | A generated record parses to the same names and values in the same order if and only if all are well-formed UTF-16 and no name repeats. |
| JsonEscapes.BlankIsSkippedIff | ver2.0/jni/java/JsonAudit.java:28-43 | Before an object space, tab, line feed and carriage return are skipped, and any other unit makes the text no object. |
| JsonEscapes.RecordLooksLike | ver2.0/jni/java/JsonGenerator.java:113-156 | A record is its fields in order as quoted name, colon and quoted value, between braces and separated by commas, with no white space. |
| TextTools.SplitJoins | ver2.0/jni/java/FieldMap.java:49-52 | split(sep, -1) loses nothing and leaves no separator in a part. |
| TextTools.SplitOfJoin | ver2.0/jni/java/FieldMap.java:118-118 | Joining and splitting at the separator gives the parts back. |
| TextTools.TrimMeans | ver2.0/jni/java/FieldMap.java:44-54 | trim() removes blanks from both ends, all of them and nothing else. |
| TextTools.ParsesDecimal | ver2.0/jni/java/FieldMap.java:56-61 | Printed numbers, with or without a sign, parse back within the range of the type and are refused beyond it. |
| TextTools.Utf8LengthAdds | ver2.0/jni/java/FieldMap.java:95-95 | UTF-8 lengths add up wherever no surrogate pair is cut. |
| Utf8.EncodesToLength | ver2.0/jni/java/FieldMap.java:95-95 | The byte count of a well-formed text is the length of its UTF-8 encoding as section 3 of RFC 3629 defines it. |
| Utf8.EncodingIsInjective | ver2.0/jni/java/Agent.java:154-158 | Different well-formed texts have different UTF-8 encodings. |
| Utf8.DecoderExists | ver2.0/jni/java/Agent.java:203-208 | The assumption on decoding can be met: there is a decoder that returns well-formed text for all bytes and undoes UTF-8. |
| TextTools.PaddedMeans | ver2.0/jni/java/JsonGenerator.java:54-54 | A zero-padded number still denotes the number. |
| TextTools.PaddedLengthIff | ver2.0/jni/java/JsonGenerator.java:54-54 | Padding gives exactly the width if and only if the number has no more digits. |
| FieldMap.EnumContains | ver2.0/jni/java/FieldMap.java:114-124 | True exactly when some trimmed item of the ENUM list is the value. |
| FieldMap.Validate | ver2.0/jni/java/FieldMap.java:86-112 | The errors appended are missing, empty, EXACT, MAX, ENUM and DATETIME14 errors, each exactly when its check fails, in that order. |
| FieldMap.AcceptsIff | ver2.0/jni/java/FieldMap.java:86-112 | No error is reported if and only if a missing value is optional, or the value is there when required, has the exact or at most the maximal bytes, is an ENUM choice and spells a real date where the map asks for it. |
| FieldMap.ErrorsMean | ver2.0/jni/java/FieldMap.java:86-112 | Each error is reported exactly for its own reason, once, in the order missing, empty, EXACT, MAX, ENUM, DATETIME14. |
| FieldMap.ValidDateTime14Iff | ver2.0/jni/java/FieldMap.java:126-142 | The accepted texts are exactly the fourteen-digit forms of real dates and times of the years 0 to 9999. |
| FieldMap.Now14IsValidIff | ver2.0/jni/java/JsonGenerator.java:76-78 | NOW14 passes DATETIME14 if and only if the year is at most 9999. |
| Calendar.RealDatesIff | ver2.0/jni/java/FieldMap.java:126-142 | The dates accepted are those whose day number, counted with the Gregorian leap years, comes before the next month begins, and whose time is within the 86400 seconds of a day. |
| Calendar.Format14IsOrdered | ver2.0/jni/java/JsonGenerator.java:76-78 | The fourteen digits read as one number are year, month, day, hour, minute and second in this order. |
| FieldMap.Load | ver2.0/jni/java/FieldMap.java:38-80 | Loading goes line by line and stops at the first line refused, with its number and reason. |
| FieldMap.LoadsIff | ver2.0/jni/java/FieldMap.java:38-80 | A map loads if and only if no line is malformed, no name repeats and there are at most 128 fields; it then holds the defined fields in file order. |
| MapLanguage.LineReadsIff | ver2.0/jni/java/FieldMap.java:43-75 | A line defines a field if and only if, trimmed, it is no comment and has six columns separated by bars that say so: name, EXACT or MAX, length from 1 to 2047, Y or N, validation, generator. |
| MapLanguage.RefusedLinesMean | ver2.0/jni/java/FieldMap.java:43-75 | A line is skipped exactly if it is blank or a comment, refused for its columns exactly if it has not five bars, for its length exactly if the third column is no number. |
| FieldMap.LoadedMapIsValid | ver2.0/jni/java/FieldMap.java:38-80 | A loaded map has distinct well-formed names, lengths 1 to 2047 and one of the three validations. |
| Generator.RandomText | ver2.0/jni/java/JsonGenerator.java:15-31 | For any prefix that fits, the result starts with it, continues in the alphabet and has exactly LENGTH bytes of UTF-8; otherwise the error of the source. |
| Generator.SequenceValue | ver2.0/jni/java/JsonGenerator.java:33-55 | Parses both forms of SEQ and returns prefix and padded number, or the error. |
| Generator.SequenceOverflowsIff | ver2.0/jni/java/JsonGenerator.java:53-53 | An accepted SEQ yields a value at an index if and only if START + STEP * (index - 1) fits a long; then all smaller indexes fit too, and index 1 always does. |
| Generator.SequenceInjectiveIff | ver2.0/jni/java/JsonGenerator.java:33-55 | Until overflow different indexes give different texts if and only if the step is positive. |
| Generator.SequenceWidthIff | ver2.0/jni/java/JsonGenerator.java:54-54 | The number part has exactly WIDTH digits if and only if the number is below ten to the WIDTH. |
| MapLanguage.StepRuleReads | ver2.0/jni/java/JsonGenerator.java:33-55 | START,STEP,WIDTH gives START + STEP * (index - 1) on WIDTH digits, or the overflow. |
| MapLanguage.PrefixRuleReads | ver2.0/jni/java/JsonGenerator.java:33-55 | PREFIX,START,WIDTH gives the prefix and START, START + 1 and so on. |
| Generator.RandomChoice | ver2.0/jni/java/JsonGenerator.java:57-66 | The value chosen is one that the field's ENUM validation accepts. |
| Generator.GenerateValue | ver2.0/jni/java/JsonGenerator.java:68-95 | Each rule gives its value or error; no value is ill-formed UTF-16. |
| MapLanguage.RulesGive | ver2.0/jni/java/JsonGenerator.java:68-82 | FIXED gives its text, EMPTY nothing, NOW14 the time, SEQ its sequence. |
| MapLanguage.RandomRulesGive | ver2.0/jni/java/JsonGenerator.java:83-95 | RANDOM_NUM, RANDOM_ALPHA and RANDOM_ALNUM with a length can give exactly the texts of that length over decimal digits, capital letters, or both. |
| Generator.ValidateObject | ver2.0/jni/java/JsonAudit.java:168-175 | The errors of all fields of the map, in map order. |
| Generator.Generate | ver2.0/jni/java/JsonGenerator.java:113-156 | A record is made exactly when every override is in the map and every field accepts its override, or its rule's value; it holds these values in map order. |
| Generator.FilledRecordPassesAudit | ver2.0/jni/java/JsonAudit.java:162-175 | A record that fills a loaded map with validated, well-formed values parses back to them and audits without error. |
| Generator.GenerateAll | ver2.0/jni/java/JsonGenerator.java:158-176 | Every record written for a map that loads parses, has the map's names in order and audits without error. |
| MessageCodec.AsciiReason | ver2.0/jni/java/MapMessageCodec.java:61-69 | One to 32 printable ASCII units: the first printable ones of the reason, or SUCCESS or AUDIT_ERROR. |
| MessageCodec.ReasonIsKept | ver2.0/jni/java/MapMessageCodec.java:61-69 | A reason of at most 32 printable ASCII units that begins with no blank is kept as it is. |
| MessageCodec.Select | ver2.0/jni/java/MapMessageCodec.java:55-56 | Exactly the offered values whose names the map has, each name once. |
| MessageCodec.MapMessageCodec.Audit | ver2.0/jni/java/MapMessageCodec.java:29-34 | The map of MSG_KIND decides; an unknown kind is an error. |
| MessageCodec.MapMessageCodec.Generate | ver2.0/jni/java/MapMessageCodec.java:35-60 | A response is made exactly when HISTORY_KEY is not blank and every field of the map accepts its offered value, or its rule's value where none is offered; it is the record of these values in map order, parses again, audits clean, and carries the request's HISTORY_KEY and the given code where the map has those fields; the sequence grows by one exactly when a HISTORY_KEY is there. |
| Agent.Agent.EnqueueWithRetry | ver2.0/jni/java/Agent.java:162-179 | Every attempt has the same bytes on the same queue, and success means the last one was accepted. |
| Agent.Agent.Quarantine | ver2.0/jni/java/Agent.java:194-200 | Commits only after the message's exact bytes were accepted by the error queue. |
| Agent.Agent.Response | ver2.0/jni/java/Agent.java:119-149 | A reply is made exactly when every field of the map accepts its value; it is the record of these values, audits clean and carries HISTORY_KEY and the code; the sequence grows by one. |
| Agent.ReplySays | ver2.0/jni/java/Agent.java:119-149 | What a reply says where its map has the field: the request's MSG_KIND and HISTORY_KEY, 0000 and 01 for a clean request and 9999 and 03 for a rejected one, the reason, and the two times. |
| Agent.Agent.Process | ver2.0/jni/java/Agent.java:203-258 | Whatever the queues answer, the calls made for a message obey the law of the trace; success means it was committed, and giving up that a shutdown was asked for or a call threw or failed. |
| Agent.Agent.Run | ver2.0/jni/java/Agent.java:270-286 | Every run of the agent, however long, leaves a lawful trace, and ends only when asked to or when a call threw or failed. |
| Agent.CommitsAfterOutput | ver2.0/jni/java/Agent.java:203-268 | Each commit is of the message last delivered, which is a health check, or whose bytes the error queue accepted just before, or whose ACK and then, if it audits clean, RESULT the output queue accepted since that delivery. |
| Agent.FailuresAreNotPassedOver | ver2.0/jni/java/Agent.java:162-179 | After a refused enqueue only a retry of the same bytes follows; after an exception or a failed commit nothing follows. |
| Agent.BusinessAtMostOnce | ver2.0/jni/java/Agent.java:238-248 | Business work comes straight after the delivery of a clean request, at most once per delivery and before any output for it: between earlier output and the work there is a successful commit. |
| Agent.OutputsAreJustified | ver2.0/jni/java/Agent.java:203-258 | Everything enqueued is the exact bytes on the error queue, only of a message that is no health check and cannot be replied to, or whose business work failed or whose reply cannot be made; or its ACK, for a clean request after business work; or its RESULT after an accepted ACK. |
| Agent.CleanIsServed | ver2.0/jni/java/Agent.java:220-258 | A clean request whose work did not fail and whose replies can be made is committed only with its ACK and then its RESULT accepted, after business work. |
| Agent.QuarantinedIsHopeless | ver2.0/jni/java/Agent.java:194-248 | Bytes reach the error queue only for a message that cannot be answered, whose business work failed since its delivery, or a reply to which cannot be made. |
| Agent.SuccessFollowsWork | ver2.0/jni/java/Agent.java:238-252 | A reply with code 0000 on the output queue follows successful business work of the same delivery. |
| SocketReplies.ShippedMakesIff | ver2.0/jni/conf/maps/ack.map:1-15 | With a shipped response map a reply is made, at every moment and counter, exactly when the request's fields, the session fields and the response fit it. |
| ShippedMaps.ShippedFilesLoad | ver2.0/jni/conf/maps/ack.map:1-15 | The lines of the two shipped response map files load, to exactly the maps these results are about. |
| SocketReplies.ShippedAckIff | ver2.0/jni/java/Agent_socket.java:135-154 | With the shipped map the ACK is made exactly when the request fits and the acceptance has no group or 01, 02 or 03 and session fields of at most 32 bytes. |
| SocketReplies.ShippedResultIff | ver2.0/jni/java/Agent_socket.java:157-168 | The same for the RESULT of a report, which also needs a code of four bytes. |
| SocketReplies.ShippedRefusalIff | ver2.0/jni/java/Agent_socket.java:128-133 | With the shipped map the refusal of a request that fails its audit is made exactly when its own fields fit. |
| SocketReplies.AckSays | ver2.0/jni/java/Agent_socket.java:135-154 | The shipped ACK says 0000 and SUCCESS exactly if the telecom answered 0000, and otherwise 9999 and whether it failed or was rejected, with its group or 03, its session, the request's kind and key, and the times. |
| SocketReplies.ResultSays | ver2.0/jni/java/Agent_socket.java:157-168 | The shipped RESULT has the report's code, group or 03, reason or DELIVERED, and session, and the request's kind and key. |
| SocketReplies.RefusalSays | ver2.0/jni/java/Agent_socket.java:128-133 | The shipped refusal says 9999, 03 and AUDIT_ERROR with the request's kind and key. |
| SocketReplies.EnumAllowsItems | ver2.0/jni/java/FieldMap.java:114-124 | An ENUM of items without blanks and commas allows exactly these items. |
| AgentSocket.StepKeeps | ver2.0/jni/java/Agent_socket.java:111-238 | Every step of the input thread, the report thread, the callback and stop keeps the invariant about lock, reports, confirmed ACKs and what the codec decides. |
| AgentSocket.AckBeforeResult | ver2.0/jni/java/Agent_socket.java:135-154 | In every interleaving each write of a RESULT, through FULL retries, reconnects and shutdown, follows a confirmed ACK of its request, unless the codec cannot make the ACK of what the telecom accepted for it. |
| AgentSocket.AckBeforeResultIff | ver2.0/jni/java/Agent_socket.java:111-238 | ACK comes before RESULT in every run if and only if there is no clean request for which the codec cannot make the ACK of something the telecom accepts but can make the RESULT of something it reports. |
| AgentSocket.ShippedOrderIff | ver2.0/jni/java/Agent_socket.java:111-238 | With the shipped maps the order holds in every run if and only if, for each clean request that can be answered and reported on, every acceptance has no group or 01, 02 or 03 and session fields of at most 32 bytes. |
| AgentSocket.SimulatedTelecomKeepsTheOrder | ver2.0/jni/java/Agent_socket.java:273-287 | With the shipped maps and the simulated telecom, which answers group 01 and the id SIM and a number, ACK comes before RESULT in every run. |
| AgentSocket.ResultWithoutAck | ver2.0/jni/java/Agent_socket.java:64-69 | The run that breaks it: submit, the ACK cannot be made, the lock is released, the report is published. |
| AgentSocket.OddGroupBreaksTheOrder | ver2.0/jni/java/Agent_socket.java:135-154 | A concrete case with the shipped maps: an acceptance with group 09 and a report with group 01. |
| AgentSocket.OneWriterAtATime | ver2.0/jni/java/Agent_socket.java:212-238 | The two threads never write to the output connection at the same time. |
| AgentSocketAnswers.EveryRequestIsAnswered | ver2.0/jni/java/Agent_socket.java:111-238 | While the agent runs each request delivered has a confirmed ACK, or is the one in hand, or the codec cannot make its ACK. |
| AgentSocketAnswers.ReportsAreConserved | ver2.0/jni/java/Agent_socket.java:157-210 | As long as the report thread lives, for each request as many RESULTs are confirmed, in its hands or queued as reports were made: none is lost and none confirmed twice. |

## Left out

- Pipeline threads as loops: `BundleReader.run`, `dispatcherLoop`, `processMessage`, `publisherLoop` and `journalWriterLoop` are steps of machines, because other threads act between any two of their lines; only the store's operations and the publish loop are also methods.
- The per-id lock stripes are modelled as one lock per message, which allows more interleavings than the 256 stripes do.
- Insertion order of the message map is modelled in the class `DurableStore`, not in the state machine, where any order of recovered messages is possible.
- JSON and Base64 encoding of journal lines: an injective, newline-free, nonempty encoder stands for Jackson and for section 4 of RFC 4648.
- PipelineTheorems.EveryJournalReplays: a thread interrupted inside `append` while the process goes on is a crash in the state machine; what an interrupted worker leaves in the journal is stated by `InterruptedResultIff`.
- JournalBytes.RecoverJournal: the refusal of a journal over 2^31 - 1 bytes is not modelled.
- Results in the old format that is not a batch: published without checkpoints.
- The native FileQueue library: an enqueue counts when its return code is positive, a commit may fail after taking effect, everything else is free.
- Statistics, logging, sleeps and backoff delays.
- JVM errors such as memory exhaustion that end a single thread.
- `auditAndDoWork` and the other business code: a result is any batch of items, or an exception.
- JsonParser.Parser.Hex4: accepts ASCII hexadecimal digits only; Character.digit also accepts other Unicode digits.
- TextTools.ParseDecimal: accepts ASCII digits only, for the same reason.
- JsonParser.ParseObject: the offsets in the error messages are not modelled; the kind of each error is, but no theorem characterises it for malformed text, except the repeated key.
- Agent.Agent.Response: the reason texts are the three constants the agent passes; limitedReason returns these unchanged.
- GroupCommit.EveryRequestIsReleased: assumes that the scheduler runs the journal thread again and again and that each write makes progress.
- Generator.Generate: the record index is an unbounded number; the counters of the source wrap after 2^63 - 1 records. Null override values are not modelled.
- MessageCodec.MapMessageCodec.Generate: the two response kinds are a datatype, so the error for any other kind does not arise.
- Agent.Agent.Run: the run is bounded by the number of answers the environment gives before it asks for a shutdown; every finite run is one of these.
- AgentSocket.AckBeforeResultIff: the number the sequence counter gives a reply is any positive long, and the telecom's copy of a request has the request's fields, as the JSON library of the source is not modelled.
- AgentSocket.OddGroupBreaksTheOrder: the input map of the case has two fields, not the fields of sms.map; `ShippedOrderIff` holds for all input maps.
- AgentSocket: the input thread is never interrupted, as nothing in the source interrupts it; connections, session errors on the input side and the error queue do not touch the output order and are not modelled.
- FQueue's Java side, the socket client, configuration loading, the simulators, the demos, the monitor and the command-line tools.

# Verification model of the BeyondKVTransfer tracing pipeline

BeyondKVTransfer wraps calls of an inference engine in probes. Each probe stamps
records and puts them into a bounded ring of its own thread; a flusher thread
drains the rings, serialises what it finds and appends it to rotating JSONL
files; a validator and an analysis layer read the files back. The promise of the
whole is that every transfer and every request leaves a consistent, complete
pair of records. This project models that pipeline in Dafny and proves what the
promise amounts to under sampling, exceptions, thread interleavings, refused
puts and file rotation.

`dafny verify dfyconfig.toml` checks everything.

## How it fits together

- **Rings and flusher.** `EmitterModel` holds the emitter's shared memory as a
  value and the atomic actions on it. `Pipeline` interleaves any number of
  producer threads with the flusher; a drain is one atomic step or the two steps
  it is made of, a copy and a swap. `FlushThreshold` is about the byte trigger.
  `EmitterClasses` has the ring, the output file and the emitter as objects whose
  methods are proved to perform those actions, and `Codecs` ties an
  uninterrupted flush to a run of the flusher's steps.
- **Transfers.** `Transfers` splits a start into enqueue and register and an end
  into unregister and enqueue, called by any threads in any order.
  `ConnectorProtocol` adds loads in per-layer buckets, saves in a list, and calls
  nested inside wrapped calls that may raise. `Cancellations` proves which
  transfers end as cancelled. `Buckets` is the bucket rule by itself. `ConnectorClasses` has the wrapper's methods, and `ConnectorRuns` shows
  that an uninterrupted method call is a run of the protocol.
- **Reading back.** `TraceFiles` lays batches of lines out over numbered files
  and reads them again; `TraceReader` is the record iterator; `Validator` is the
  orphan scan; `Pairing` is the join of starts with ends; `EndToEnd` says what
  both report about the files that a connector run leaves behind, `RequestsOnFile`
  what the validator and the lifecycle table report about the requests on them, and
  `CompleteRuns` that such runs exist.
- **Call trees.** `CallTrees` runs arbitrary trees of payload contexts,
  collectives and bracketing wrappers, with exceptions and handlers. `Scoping`
  proves what the records of such a run mean.
- **Requests.** `RequestModel` has the tracker's accesses as atomic actions,
  `RequestProbes` the tracker and the wrappers as objects, `SglangScheduler` the
  scheduler wrapper that compares running sets. `CriticalPath` rebuilds a
  request's row from its records, `LifecycleAgreement` compares that row with the
  tracker's entry, and `Reuse` compares the interval tables with a replay.

Ids, timestamps, sampling decisions, and the outcomes of wrapped calls are
parameters of every step. A missing field, an empty id string and a key that is
not set are all `None`.

## What holds, and what does not

The main results are in the table. Several promises of the code and its comments
turn out to be conditional; the model follows the code, proves the condition, and
has a run or an input on which the promise fails.

- A drain is described as protected by the interpreter lock
  (bkvt/emitter.py:65-66). It is a copy and a swap (bkvt/emitter.py:90), and with
  an atomic put exactly the records appended between the two never reach the file:
  a run that is flushed to the end loses nothing if and only if no put finds room in
  a ring between the copy and the swap of its drain
  (`Pipeline.ClosedRunLosesNothingExactly`, `Pipeline.LateHappens`). The source's
  put can lose more, see below.
- The size trigger is meant to flush early (bkvt/emitter.py:445-450). A refusal
  implies a flush already signalled or running if and only if the threshold is at
  most 256 bytes times the ring capacity (`FlushThreshold.RefusalsAreAnsweredExactly`);
  the default of 4 MiB against 4096 slots is outside that range
  (`FlushThreshold.DefaultThresholdRefusesInSilence`).
- An end is meant to be emitted only if its start was (bkvt/emitter.py:365-366).
  The id is registered even when the ring refuses the start record, so an end can
  be on record alone: exactly when the starting thread's ring was full and the
  ending thread's was not (`Transfers.EndWithoutStartExactly`,
  `Transfers.EndWithoutStartHappens`).
- File names sort in the order of writing (analysis/lib/load.py:48) if and only
  if there are at most 9999 of them (`TraceFiles.SortedNamesFollowWriting`).
- The output count is read and written back in two accesses
  (bkvt/integrations/vllm/runner_probe.py:179-181). It is the sum of the tokens
  produced if and only if no write falls between a write and its read, where every
  step produced some (`RequestModel.CountIsSumExactly`,
  `RequestModel.ConcurrentStepsLoseTokens`); `RequestModel.CountFallsShort` says
  how many are missing.
- The rebuilt row is meant to agree with the probes. A popped entry is recreated by
  a step still in flight (bkvt/integrations/vllm/scheduler_probe.py:75-82), so it
  does if and only if nothing the tracker did not know comes after the pop
  (`LifecycleAgreement.OfflineRowIsTrackerEntry`,
  `LifecycleAgreement.LateTokenDisagrees`); and an abort through the finish wrapper
  records a per-token time that no row takes up
  (`LifecycleAgreement.AgreementExactly`, `LifecycleAgreement.AbortedTpotDiffers`).

## Model

| member | source | states |
|---|---|---|
| EmitterClasses.RingBuffer.Put | bkvt/emitter.py:82-87 | a full ring refuses the record and counts it; otherwise it is appended; nothing else changes |
| EmitterClasses.RingBuffer.Drain | bkvt/emitter.py:89-91 | everything is handed over in order, the ring is empty, the drop counter stays |
| EmitterClasses.Emitter.GetBuf | bkvt/emitter.py:252-260 | a thread's ring is created and listed once, on its first record |
| EmitterClasses.Emitter.Event | bkvt/emitter.py:265-281 | the stamped record is enqueued or refused and counted, and the byte estimate and trigger move; nothing at all when disabled |
| EmitterClasses.Emitter.TransferStart | bkvt/emitter.py:304-349 | a sampled start is enqueued and its id registered as live whether or not the ring took the record |
| EmitterClasses.Emitter.TransferEnd | bkvt/emitter.py:367-397 | an end takes the id off the live map and is enqueued only if the id was there |
| EmitterClasses.Emitter.Metadata | bkvt/emitter.py:415-439 | one metadata record after the body, if enabled and sampled |
| EmitterClasses.Emitter.FlushOnce | bkvt/emitter.py:461-477 | every listed ring is emptied in turn, and what serialises is written as one batch, or nothing is written if none does |
| EmitterClasses.Emitter.FlushTurn | bkvt/emitter.py:451-457 | one turn of the loop: trigger and estimate are reset, then the rings are flushed |
| EmitterClasses.Emitter.FlusherLoop | bkvt/emitter.py:445-459 | any number of turns and the final drain leave all rings empty and everything they held in one batch on file |
| EmitterClasses.OutputFile.WriteBatch | bkvt/emitter.py:118-126 | the disk holds the layout of all batches written so far, the last file open |
| EmitterClasses.OutputFile.Rotate | bkvt/emitter.py:128-143 | the next numbered file is opened for appending and the byte count restarts |
| Codecs.FlushedIsComplete | bkvt/emitter.py:457-459 | after the flusher's loop each ring is empty with its drop count kept, and the file grew by exactly what the rings held |
| Codecs.FlushAgain | bkvt/emitter.py:461-477 | with nothing put in between, a second flush writes nothing |
| Codecs.UninterruptedFlush | bkvt/emitter.py:461-477 | the method's flush is the run of the flusher's steps in which nothing interleaves |
| Pipeline.RingConservation | bkvt/emitter.py:82-91 | at every state of every run, per thread: accepted on time = written, then in the current flush, then in the ring, in that order; refusals equal the drop counters |
| Pipeline.StepKeepsInv | bkvt/emitter.py:265-281 | each step of producers and flusher keeps conservation, the counts and the list of rings |
| Pipeline.OnTimeOrLate | bkvt/emitter.py:89-91 | every accepted record is either on time or late, and none is both |
| Pipeline.FinalDrainIsComplete | bkvt/emitter.py:451-459 | after the final drain the file holds every accepted record in its thread's order, except exactly those that arrived between a drain's copy and its swap |
| Pipeline.ClosedRunLosesNothingExactly | bkvt/emitter.py:82-91 | a run flushed to the end writes every accepted record if and only if no step of it is a put with room in a ring that a drain has copied and not yet swapped |
| Pipeline.AtomicDrainsLoseNothing | bkvt/emitter.py:65-66 | if drains are atomic, nothing is ever late |
| Pipeline.LateHappens | bkvt/emitter.py:89-91 | a run, flushed to the end, in which a copy and swap loses an accepted record |
| FlushThreshold.IdleRingsAreWithinEstimate | bkvt/emitter.py:277-281 | while the flusher is idle and unsignalled, 256 bytes times the records in the rings is within the estimate, which is below the threshold |
| FlushThreshold.PutAddsOne | bkvt/emitter.py:274-278 | a put adds at most one record to what the next flush has not been promised, and none if refused |
| FlushThreshold.TriggerPeriod | bkvt/emitter.py:274-281 | of accepted puts with no flush between them, from a fresh estimate, the trigger is set if and only if 256 bytes times their number reach the threshold, and the estimate starts over each time they do |
| FlushThreshold.RefusalsAreAnsweredExactly | bkvt/emitter.py:451-456 | a refusal always finds a flush signalled or running if and only if the threshold is at most the estimate of one full ring |
| FlushThreshold.DefaultThresholdRefusesInSilence | bkvt/config.py:74 | with the default threshold and capacity some run refuses a record while no flush is signalled or running |
| Transfers.StepKeepsInv | bkvt/emitter.py:346-397 | each half of a start or an end, by any thread, in any order of the stamps of different ids, keeps the account of what the stream holds about every id: its start, its end, and each of their fields, a cancel exactly if the end was one |
| Transfers.OrphansAreBounded | bkvt/emitter.py:346-373 | ids with a start and no terminal record number at most the live transfers, those in the middle of a call, and all refused puts together |
| Transfers.OrphansAreTheLiveTransfers | bkvt/emitter.py:346-373 | between calls and with no refusals they are exactly the live transfers |
| Transfers.EnqueuedIsWellPaired | bkvt/emitter.py:370-384 | each id opens and closes at most once, never closes earlier than it opens, and the end carries the start's direction and kind |
| Transfers.EndWithoutStartExactly | bkvt/emitter.py:346-373 | in every run an end stands on record without its start if and only if its start came when the starting thread's ring was full and its end when the ending thread's ring had room |
| Transfers.TicketsFollow | bkvt/emitter.py:346-397 | whether a start was refused, and whether an end was taken, is decided once, by the ring's room at that step of the run |
| Transfers.EndWithoutStartHappens | bkvt/emitter.py:346-373 | a run, for any capacity, in which an end stands alone |
| Streams.CountsPermute | scripts/validate_traces.py:237-245 | how often an id opens and closes does not depend on the order of records |
| Cancellations.CancelsAreRaises | bkvt/integrations/vllm/connector_wrapper.py:299-345 | in every run an id's terminal record is a cancel if and only if its own call, or the wait that popped it, raised; otherwise it is an end |
| Buckets.WaitsEmptyExactly | bkvt/integrations/vllm/connector_wrapper.py:177-187 | a sequence of waits empties all loads if and only if it names every layer with a bucket and, for an un-layered bucket, names it or contains one surplus wait |
| Buckets.WaitsTakeEachBucketOnce | bkvt/integrations/vllm/connector_wrapper.py:181-187 | no bucket is taken twice, each is taken whole, what is not taken is untouched |
| ConnectorProtocol.OwnershipHolds | bkvt/integrations/vllm/connector_wrapper.py:297-345 | in every reachable state an issued id is held in exactly one place until it is ended; live ids are held; a held id that is not live was sampled away, unless it is being registered |
| ConnectorProtocol.StepKeepsInv | bkvt/integrations/vllm/connector_wrapper.py:271-420 | each step of starts, saves, waits and returns keeps the ownership map right |
| ConnectorProtocol.QuiescentMeansNoLive | bkvt/integrations/vllm/connector_wrapper.py:316-420 | once every bucket, list and call is empty nothing is live |
| ConnectorProtocol.AtomicRunIsUndivided | bkvt/emitter.py:89-91 | connector runs with atomic drains lose nothing in the rings |
| ConnectorClasses.EndAllEndsEach | bkvt/integrations/vllm/connector_wrapper.py:335-344 | ending a bucket takes each of its ids off the live map and no other |
| ConnectorClasses.EndAllRecords | bkvt/integrations/vllm/connector_wrapper.py:335-344 | each popped entry that is live gets its own terminal record, in order, with its own stamp: a cancel without the request, or an end with it |
| ConnectorClasses.ConnectorTransferState.RememberEarliest | bkvt/integrations/vllm/connector_wrapper.py:165-169 | the first time heard of a request is the one kept |
| ConnectorClasses.ConnectorTransferState.EarliestFor | bkvt/integrations/vllm/connector_wrapper.py:171-175 | the time a request was first heard of, if it was |
| ConnectorClasses.ConnectorTransferState.AddLoad | bkvt/integrations/vllm/connector_wrapper.py:177-179 | the entry joins the end of its layer's bucket |
| ConnectorClasses.ConnectorTransferState.PopLoads | bkvt/integrations/vllm/connector_wrapper.py:181-187 | the layer's bucket, or else the un-layered one, is removed whole and returned |
| ConnectorClasses.ConnectorTransferState.PopSaves | bkvt/integrations/vllm/connector_wrapper.py:193-196 | the list is returned and left empty |
| ConnectorClasses.TracingConnectorWrapper.StartLoadKv | bkvt/integrations/vllm/connector_wrapper.py:271-314 | the call's outcome is passed on; its transfer is parked if it returns and cancelled if it raises; the earliest known time is the request's own if it was heard of, else the time read before the start |
| ConnectorClasses.TracingConnectorWrapper.WaitForLayerLoad | bkvt/integrations/vllm/connector_wrapper.py:316-345 | whatever the call does, the bucket is popped and every entry ended, or cancelled if it raised, each at its own reading of the clock; the metadata record carries the time before the call |
| ConnectorClasses.TracingConnectorWrapper.SaveKvLayer | bkvt/integrations/vllm/connector_wrapper.py:347-390 | as for loads, with the save list |
| ConnectorClasses.TracingConnectorWrapper.WaitForSave | bkvt/integrations/vllm/connector_wrapper.py:392-420 | as for waits on a layer, with the whole save list |
| ConnectorRuns.UninterruptedLoad | bkvt/integrations/vllm/connector_wrapper.py:271-314 | a load call that nothing interleaves is a run of the protocol with the same effect on emitter and buckets |
| ConnectorRuns.UninterruptedWait | bkvt/integrations/vllm/connector_wrapper.py:316-345 | and so is a wait, with its metadata record before or after the pop, and each end at its own reading of the clock, no earlier than that id's start |
| ConnectorRuns.UninterruptedSave | bkvt/integrations/vllm/connector_wrapper.py:347-390 | a save call that nothing interleaves is a run of the protocol with the same effect on emitter and save list |
| ConnectorRuns.UninterruptedWaitForSave | bkvt/integrations/vllm/connector_wrapper.py:392-420 | and so is a wait on the saves |
| ConnectorRuns.UninterruptedEnds | bkvt/integrations/vllm/connector_wrapper.py:335-344 | ending popped entries one by one is a run of the protocol |
| TraceFiles.LayoutKeepsBatches | bkvt/emitter.py:118-126 | the files in sequence hold all the batches in order, none split and none lost |
| TraceFiles.RotationIsOnTime | bkvt/emitter.py:123-126 | each closed file reached the limit with its last batch and not before, and the open file is below it |
| TraceFiles.JoinedThenEnded | bkvt/emitter.py:121 | the joined and terminated data is each line followed by a line break |
| TraceFiles.ReadBackIsExact | analysis/lib/load.py:54-61 | reading the files in sequence yields exactly the lines written, in order, whatever the limit |
| TraceFiles.StripTrims | analysis/lib/load.py:57-59 | stripping cuts the blanks at a line's ends, all of them and nothing else |
| TraceFiles.LinesAreTheText | analysis/lib/load.py:56-58 | the lines of any text, each ended, are the text, but for the form of a break and a missing last one |
| TraceFiles.LinesAreUnbroken | analysis/lib/load.py:56-58 | and none of them has a break in it |
| TraceFiles.StrippedHolds | analysis/lib/load.py:58-60 | only blank lines are dropped |
| TraceFiles.NamesAreDistinct | bkvt/emitter.py:110-116 | different sequence numbers give different names |
| TraceFiles.SortedNamesFollowWriting | analysis/lib/load.py:48 | sorted names follow the order of writing if and only if there are at most 9999 files |
| TraceReader.ReadFile | analysis/lib/load.py:57-61 | the records of the non-blank lines, up to the first that does not decode |
| TraceReader.IterRecords | analysis/lib/load.py:51-61 | the same over all files in order; reading stops where a line does not decode |
| Validator.TrackMeans | scripts/validate_traces.py:232-256 | the flags of a tracked pair say exactly which kinds of record it has, and an untracked pair has none |
| Validator.TrackFindsOrphans | scripts/validate_traces.py:263-277 | scanning the dictionaries finds exactly the pairs opened somewhere and closed nowhere |
| Validator.TrackJoins | scripts/validate_traces.py:186-256 | the state after two streams is the pointwise join of their states |
| Validator.OrphansPermute | scripts/validate_traces.py:263-277 | orphans depend neither on the order of the records nor on their split into files |
| Validator.OrphansAreExactly | scripts/validate_traces.py:263-277 | membership in the orphan set is the declarative condition, for any pair |
| Validator.ScanLine | scripts/validate_traces.py:204-256 | one line's errors, and both dictionaries after it |
| Validator.NoErrorsExactly | scripts/validate_traces.py:204-230 | there are no errors if and only if every line parses to an object of version 1 with all five envelope fields and, where schemas are used, no violation |
| Validator.MissingFieldCounts | scripts/validate_traces.py:226-230 | taking any one of the five fields away adds exactly one error |
| Validator.OtherFaultsCount | scripts/validate_traces.py:204-224 | so does another version, a violation counts where schemas are used, and a malformed line is one error |
| Validator.ErrorsSplit | scripts/validate_traces.py:204-230 | errors add up over lines |
| Validator.DecodedHolds | scripts/validate_traces.py:204-212 | the records scanned are those of the lines that parse, and no others |
| Validator.CountInTrace | scripts/validate_traces.py:265-267 | one trace's open ids are each counted once |
| Validator.CountOrphans | scripts/validate_traces.py:263-267 | the nested loops count every orphan of the dictionaries once |
| Validator.ValidateFiles | scripts/validate_traces.py:171-293 | the report's counts in terms of the lines read, orphan counts as the size of the declarative set, and exit code 0 if and only if every line is sound and, in strict mode, nothing is an orphan |
| Pairing.JoinHasExpectedRows | analysis/build_index.py:96-108 | the join has, over the starts, the number of terminal records with the id, or one if there are none |
| Pairing.OneRowPerStart | analysis/build_index.py:96-108 | where no id closes twice, one row per start |
| Pairing.PairsAreExactly | analysis/build_index.py:103-108 | the whole table: each start with each terminal record of its id as often as both occur, multiplied, a start that nothing closes alone, and nothing else |
| Pairing.PairsOfWellPaired | analysis/build_index.py:103-110 | on a well-paired stream every start has one row, joined with its own end if it has one, and no duration is negative |
| Pairing.OrphansAreOpen | analysis/build_index.py:103-108 | within one trace the validator's orphans are the started ids without a terminal record |
| Pairing.UnmatchedRowsAgainstOrphans | analysis/build_index.py:103-108 | unmatched rows are never fewer than the orphans, and equal them if and only if no open id was started twice |
| EndToEnd.OnFileIsEnqueued | bkvt/emitter.py:445-477 | under the premises the records on file are exactly the enqueued ones |
| EndToEnd.OrphansOnFileAreLive | scripts/validate_traces.py:263-267 | after any interleaved connector run under the premises, the orphans on file are exactly the live transfers |
| EndToEnd.QuiescentRunHasNoOrphans | bkvt/integrations/vllm/connector_wrapper.py:271-420 | and there are none once every bucket, list and call is empty |
| EndToEnd.PairsOnFile | analysis/build_index.py:96-113 | on the same files the pairs table has one row per start, no negative duration, as many unmatched rows as there are orphans, and only rows of transfers that the run issued and did not sample away |
| EndToEnd.PairOfTransfer | analysis/build_index.py:96-113 | each such transfer has its own row, once and no other: its start as it was called, alone if it is live, or else with its end, a cancel exactly if a call raised for it |
| EndToEnd.EnvelopeOnFile | bkvt/emitter.py:265-271 | every transfer record on file carries schema version 1 and this process's trace, node and worker |
| EndToEnd.EventIsOnFile | bkvt/emitter.py:265-276 | every record that a probe offers is on file, its own fields as they were and the envelope filled in where it was missing |
| EndToEnd.FilesAreSound | scripts/validate_traces.py:204-293 | if the probes offer only records with a stamp and a type, the files of a complete run have no errors and pass where the validator is not strict |
| RequestsOnFile.FileCarries | bkvt/emitter.py:265-281 | under the premises the request and token records on file are exactly those that the threads offered, stamped |
| RequestsOnFile.OrphanRequestsOnFile | scripts/validate_traces.py:246-277 | if those are the records of any run of the request probes, in any order, the orphan requests on file are exactly those that arrived and were never popped |
| RequestsOnFile.StrictPassesExactly | scripts/validate_traces.py:263-293 | the files of a complete run pass in strict mode if and only if no transfer is live and every request that arrived was finished or aborted |
| RequestsOnFile.RequestEnvelopeOnFile | bkvt/emitter.py:265-271 | the request and token records on file carry the envelope of this process |
| RequestsOnFile.RowOnFileAgrees | analysis/lib/critical_path.py:10-57 | and the row that the lifecycle table rebuilds from the files agrees with the tracker's entry at the pop, column by column, under exactly the conditions of `AgreementExactly` and `OfflineRowIsTrackerEntry` |
| RequestsOnFile.LifecycleOfBodies | analysis/lib/critical_path.py:17-55 | the rebuilt row does not depend on the envelope that the emitter stamps |
| CompleteRuns.CarryingRunExists | bkvt/emitter.py:265-281 | the premises of these are met too: any log of the request probes that fits into a ring is carried by some run that is complete if its records serialise |
| CompleteRuns.CompleteRunExists | bkvt/integrations/vllm/connector_wrapper.py:271-420 | the premises of these results are met by runs in which a load of any layer, or a save, is parked when its call returns and popped and ended by a wait |
| EndToEnd.FilesHoldWritten | analysis/lib/load.py:54-61 | decoding the files gives the written records in order, for any rotation limit |
| EndToEnd.FilesHoldSerialised | bkvt/emitter.py:466-473 | the lines on file are those of the written records that serialise, in order; the others are left out |
| CallTrees.ProbedThread.Run | bkvt/integrations/weight_probe_common.py:60-99 | the instrumented run ends as the program does by itself with the same effects, leaves the thread-local context as it was, and records what the lexical context says |
| CallTrees.ProbedThread.RunInContext | bkvt/integrations/weight_probe_common.py:28-40 | saving and restoring around a call makes its body see the new context and everything after it the old one |
| CallTrees.ProbedThread.RunOpener | bkvt/integrations/weight_probe_common.py:104-141 | a context around the call, and the moves recorded only if it returns |
| CallTrees.ProbedThread.RunBracketed | bkvt/integrations/weight_probe_common.py:66-99 | the call's records stand between its start and its end, which is a cancel exactly if it raised |
| CallTrees.ProbedThread.RunBracket | bkvt/integrations/sglang/hicache_probe.py:186-253 | the same with further records after the end, raised or not |
| Scoping.TraceNests | bkvt/integrations/sglang/disagg_probe.py:217-258 | a thread's transfer records are a properly nested bracket sequence, whatever is sampled |
| Scoping.SamplingRemovesPairs | bkvt/emitter.py:306-308 | sampling removes whole start-and-end pairs and nothing else |
| Scoping.TagsAreLexical | bkvt/integrations/weight_probe_common.py:43-66 | the tags on record are those of the collectives reached, each from its innermost enclosing context alone, or its default kind, or untraced |
| Scoping.CollectivesAreReached | bkvt/integrations/weight_probe_common.py:59-64 | the collectives listed are exactly the places the run reaches |
| Scoping.ReachedCallIsBracketed | bkvt/integrations/weight_probe_common.py:86-99 | every traced call that is reached is on record as a bracket around a nested stretch, closed by a cancel exactly if it raised |
| Scoping.ChildIsStretch | bkvt/integrations/weight_probe_common.py:86-99 | a reached part's records are a contiguous stretch of the whole's |
| Scoping.InnermostContextTags | bkvt/integrations/weight_probe_common.py:43-92 | a collective right inside a context is on record with that context's kind, parameter, expert, adapter and version, as an update exactly if the context is one, whatever its default and the outer contexts; the default counts only where the context has no kind |
| Scoping.DefaultTags | bkvt/integrations/weight_probe_common.py:43-66 | outside every context it is traced if and only if it has a default, and says the default's kind and nothing else |
| Scoping.ReachedCollectiveSays | bkvt/integrations/weight_probe_common.py:43-110 | the same wherever the run reaches a collective, from its innermost enclosing context |
| Scoping.ReachedOpenerMoves | bkvt/integrations/weight_probe_common.py:112-260 | a reached load, dispatch, swap or update is on record as what its body recorded in its context, then each of its moves in order if it returned, and nothing more if it raised |
| RequestProbes.RequestStateTracker.SetFirstToken | bkvt/integrations/vllm/scheduler_probe.py:75-82 | set only if absent, saying whether it was set |
| RequestProbes.RequestStateTracker.Pop | bkvt/integrations/vllm/scheduler_probe.py:93-96 | the entry is returned and forgotten |
| RequestProbes.Probes.ProcessInputs | bkvt/integrations/vllm/scheduler_probe.py:218-233 | the arrival is stored and recorded |
| RequestProbes.Probes.Schedule | bkvt/integrations/vllm/scheduler_probe.py:274-382 | admits, preempts and resumes in order, without duplicates among those added, and the decision |
| RequestProbes.Probes.ExecuteModel | bkvt/integrations/vllm/runner_probe.py:156-230 | per output: tokens are counted, then a first_token record or a sampled later one |
| RequestProbes.Probes.OutputHook | bkvt/integrations/vllm/runner_probe.py:296-310 | a first_token record for each request the runner missed |
| RequestProbes.Probes.FinishRequest | bkvt/integrations/vllm/scheduler_probe.py:434-461 | the entry is popped and one terminal record emitted with its latencies |
| RequestProbes.Probes.AbortRequest | bkvt/integrations/vllm/scheduler_probe.py:487-497 | the entry is popped and an abort emitted without token stamps |
| RequestModel.FirstTokenOnce | bkvt/integrations/vllm/runner_probe.py:184-202 | in any interleaving of both hooks, whatever the order of their stamps, between pops, at most one first_token record, exactly when the flag is gained |
| RequestProbes.Probes.ListAdmitted | bkvt/integrations/vllm/scheduler_probe.py:282-288 | the new requests, then each cached one that was not running and is not listed |
| RequestProbes.Probes.ListResumed | bkvt/integrations/vllm/scheduler_probe.py:330-334 | the listed requests, then each found one that is not listed, in whatever order the set yields them |
| RequestModel.AdmittedAreExactly | bkvt/integrations/vllm/scheduler_probe.py:274-288 | each new request and each cached one that was not running is admitted, none twice |
| RequestModel.ResumedAreExactly | bkvt/integrations/vllm/scheduler_probe.py:322-334 | each listed and each found request is resumed, none twice |
| RequestModel.OutputsAreRun | bkvt/integrations/vllm/runner_probe.py:156-230 | the runner's loop is a run of the tracker's actions in which every write is based on a standing read, and adds to each request's count exactly the tokens produced for it |
| RequestModel.AdmitsAreRun | bkvt/integrations/vllm/scheduler_probe.py:291-304 | the admit loop is a run of the tracker's actions |
| RequestModel.ScheduleIsRun | bkvt/integrations/vllm/scheduler_probe.py:274-382 | a whole scheduler call is a run of admits, moves and a decision |
| RequestModel.CallsAreRun | bkvt/integrations/vllm/scheduler_probe.py:218-497 | any sequence of whole wrapper calls is a run of the tracker's actions, each one that its call can take |
| RequestModel.CallsKeepAccount | bkvt/integrations/vllm/runner_probe.py:156-230 | over whole calls that do not end a request, its first_token records are what its flag gained, and its count grows by exactly the tokens produced for it |
| RequestModel.HooksAreRun | bkvt/integrations/vllm/runner_probe.py:296-310 | so is the output processor's loop |
| RequestModel.CountFallsShort | bkvt/integrations/vllm/runner_probe.py:179-181 | however steps interleave, the count is the tokens produced less those lost: what a write's read missed and what was written since |
| RequestModel.CountIsSum | bkvt/integrations/vllm/runner_probe.py:179-181 | the count is the sum of the tokens produced if no write of the request falls between a write and the read it is based on |
| RequestModel.CountIsSumExactly | bkvt/integrations/vllm/runner_probe.py:179-181 | and, where every counted step produced a token, only then |
| RequestModel.ConcurrentStepsLoseTokens | bkvt/integrations/vllm/runner_probe.py:179-181 | with two steps at once the count lacks exactly the tokens of the one that wrote first |
| RequestModel.ScheduleRecords | bkvt/integrations/vllm/scheduler_probe.py:291-382 | a scheduler call's records: each admit with the tracker's arrival and its own time, each preempt, each resume, in order, then the decision |
| RequestModel.AdmitsFlag | bkvt/integrations/vllm/scheduler_probe.py:291-304 | after the admit loop each admitted request has a first schedule, the earlier one if it had one, and no other entry has changed |
| RequestModel.HooksFlag | bkvt/integrations/vllm/runner_probe.py:296-310 | after the hook each request it heard of has a first token, the earlier one if it had one, and no other entry has changed |
| RequestModel.OutputRecords | bkvt/integrations/vllm/runner_probe.py:184-230 | an output is on record as the first token if there was none, or else, if sampled, as a prefill chunk or a decoded token, or not at all |
| RequestModel.AbortTells | bkvt/integrations/vllm/scheduler_probe.py:487-497 | an abort record has the arrival that the tracker held and the time of the abort |
| RequestModel.AdmittedInOrder | bkvt/integrations/vllm/scheduler_probe.py:282-288 | cached requests are admitted after the new ones, in the order in which they are listed |
| RequestModel.TerminalLatencyFits | bkvt/integrations/vllm/scheduler_probe.py:442-447 | a terminal record has a ttft exactly if both stamps are set and in order, and it is their difference; it has a per-token time exactly if a first token is set, more than one token came and the finish is later, and floored it brackets the decode time |
| RequestModel.LatencyFitsThroughout | bkvt/integrations/vllm/scheduler_probe.py:442-461 | the same for every record of every run |
| LifecycleAgreement.FlagsFollow | bkvt/integrations/vllm/scheduler_probe.py:75-82 | while a request goes on, its flags keep the first stamps that any probe offered |
| LifecycleAgreement.ServedIsLife | bkvt/integrations/vllm/scheduler_probe.py:218-497 | a request that whole wrapper calls bring in, serve and end, with any calls after that, lives a life in the sense of these results, with the same entry at the pop and the same log |
| LifecycleAgreement.ServedCount | bkvt/integrations/vllm/scheduler_probe.py:434-461 | the count on a served request's terminal record is the engine's own, or else all the tokens that the runner's calls produced for it |
| LifecycleAgreement.LifeWrites | bkvt/integrations/vllm/scheduler_probe.py:218-461 | the whole log of a request's life, steps after its end included: one arrival, one terminal record, every admit, and at most one first token before the pop and one after |
| LifecycleAgreement.RebuiltRow | analysis/lib/critical_path.py:17-55 | the row rebuilt from any life, in any order of stamps and of loaded rows |
| LifecycleAgreement.AgreementExactly | analysis/lib/critical_path.py:19-40 | column by column, the rebuilt row holds the tracker's value at the pop if and only if a condition on the life's stamps holds; the ttft also needs usable stamps, and the tpot differs from the recorded one exactly for an abort whose record has one |
| LifecycleAgreement.OfflineRowIsTrackerEntry | analysis/lib/critical_path.py:17-55 | with the request's stamps in order, any steps between and after, and any order of the loaded rows, the rebuilt stamps are the tracker's at the pop if and only if no first token and no first admit came after it, and then so is the whole row but for an abort's tpot |
| LifecycleAgreement.LateTokenDisagrees | bkvt/integrations/vllm/runner_probe.py:184-200 | a life with a step in flight at its abort, whose row has a first token and a ttft that the tracker had not |
| LifecycleAgreement.AbortedTpotDiffers | analysis/lib/critical_path.py:39 | a life aborted through the finish wrapper, whose record has a tpot and whose row has none |
| LifecycleAgreement.TokenTable | analysis/lib/critical_path.py:29-32 | the token table's earliest first_token is the least of the stamps on record |
| LifecycleAgreement.CompletedRow | analysis/lib/critical_path.py:19-40 | the rebuilt row of a request that finished |
| LifecycleAgreement.AbortedRow | analysis/lib/critical_path.py:27-40 | the rebuilt row of one that was aborted, which has to fall back for the first token and the ttft |
| LifecycleAgreement.StagesCoverLife | analysis/lib/critical_path.py:87-94 | for a finished life with all its stamps the three stages add up to its time if and only if it was scheduled by its first token |
| LifecycleAgreement.StagesOfLife | analysis/lib/critical_path.py:87-94 | for a finished life in order with nothing late, each stage is the time between the tracker's own stamps, or absent with them |
| CriticalPath.RequestLifecycle | analysis/lib/critical_path.py:10-57 | one row for each request id that occurs, and no other, rebuilt from that request's sorted records |
| CriticalPath.SortByTsSorts | analysis/lib/critical_path.py:18 | the rows handed to the reconstruction are ordered by timestamp and are the group's own |
| CriticalPath.StampedRowsFirst | analysis/lib/critical_path.py:18 | rows with a stamp come first, by their stamps, and those without come last |
| CriticalPath.TokensOfHolds | analysis/lib/critical_path.py:29-30 | the token rows used are those that name the request, and none for rows without a request |
| CriticalPath.FirstTsIsEarliest | analysis/lib/critical_path.py:141-145 | the earliest timestamp among a subtype's rows, or none if it has none |
| CriticalPath.FirstValueIsFirst | analysis/lib/critical_path.py:148-155 | the value of the first row of the subtype that has one |
| CriticalPath.Attribute | analysis/lib/critical_path.py:79-94 | one triple of stages per row |
| CriticalPath.StagesAreBetweenStamps | analysis/lib/critical_path.py:87-94 | a stage is there exactly if both of its stamps are, and is the time from the one to the other, or zero |
| CriticalPath.StampsAreRecovered | analysis/lib/critical_path.py:19-27 | arrival, schedule and finish are the first value on record or else the earliest stamp of their rows, the abort the earliest of its rows, for any records |
| CriticalPath.FirstTokenIsRecovered | analysis/lib/critical_path.py:22-32 | the first token is a finish's, or else the request table's earliest, or else the token table's |
| CriticalPath.TimesAreRecovered | analysis/lib/critical_path.py:33-40 | ttft and tpot are a finish's; without one the ttft is the difference of the row's stamps |
| CriticalPath.OutcomeIsRecovered | analysis/lib/critical_path.py:27-55 | an abort outweighs a finish in the status; the whole time runs to the finish if that is not zero, or else to the abort |
| CriticalPath.StagesCoverRequest | analysis/lib/critical_path.py:87-94 | the three stages add up to at least the request's time, and exactly to it if and only if its four stamps are in order |
| Reuse.ResidencyRefinesReplay | analysis/lib/reuse.py:22-34 | the table reports a tier at an instant if and only if the block's last event left it there and its events are not over |
| Reuse.ResidencyOfUnsorted | analysis/lib/reuse.py:28-34 | in terms of the events in any order of loading: what is reported is always the tier of a latest event, and exactly those are if and only if the events that tie for the latest agree with the one sorted last |
| Reuse.IntervalsAreDisjoint | analysis/lib/reuse.py:28-34 | intervals of one block never overlap |
| Reuse.ResidencyAddsUp | analysis/lib/reuse.py:29-32 | a block's intervals add up to its last event minus its first, less the stretches of unknown tier |
| Reuse.ReuseTelescopes | analysis/lib/reuse.py:8-19 | a block's reuse distances add up to its last hit minus its first |
| Reuse.RowsAreRepeats | analysis/lib/reuse.py:15-18 | each hit that is not the first of its block has one row, in order: the hit, the time of the one before it on the block, and the time between |
| Reuse.IntervalsAreExactly | analysis/lib/reuse.py:28-34 | each event that follows another of its block out of a known tier has one row, in order: that tier, from the one to the other |
| Reuse.HitsAreSorted | analysis/lib/reuse.py:13-16 | the hits are exactly the prefix-hit rows, in order |
| SglangScheduler.SortIds | bkvt/integrations/sglang/scheduler_probe.py:243 | the set's ids, each once, in ascending order |
| SglangScheduler.RunBatch | bkvt/integrations/sglang/scheduler_probe.py:226-315 | listed ids are used or else found by comparing running sets, and recorded in order |
| SglangScheduler.BatchReplaysExactly | bkvt/integrations/sglang/scheduler_probe.py:235-252 | a call's records replay to the running set after it if and only if the ids it used, listed or found, are right |
| SglangScheduler.ComparedIdsAreRight | bkvt/integrations/sglang/scheduler_probe.py:242-252 | with no preempted ids listed, they are right if and only if the admitted ids all run and include every newly running one; admissions found by comparison always do |
| SglangScheduler.QuietReplays | bkvt/integrations/sglang/scheduler_probe.py:169-214 | arrivals and tokens do not disturb a replay; terminal records do not either, or take out just the requests that ended if the replay heeds them |
| SglangScheduler.LeftAreExactly | bkvt/integrations/sglang/scheduler_probe.py:343-384 | the requests left after a run of the other probes are those that ran and were neither finished nor aborted |
| SglangScheduler.LogRebuildsRunningSet | bkvt/integrations/sglang/scheduler_probe.py:226-288 | if the ids the calls use are right, replaying the whole log, with whatever other probes record before, between and after, rebuilds the running set after every call: where the set changes only inside the calls, or, by a replay that heeds terminal records, where requests also leave it between calls by ending |
| SglangScheduler.ComparisonReaches | bkvt/integrations/sglang/scheduler_probe.py:242-252 | on the comparison path every call is of that kind |
| SglangScheduler.FinishRequests | bkvt/integrations/sglang/scheduler_probe.py:343-384 | of the candidates with an id the first of each id is finished, in order |
| SglangScheduler.FirstCandidateCounts | bkvt/integrations/sglang/scheduler_probe.py:343-384 | the terminal record of an id is its first candidate's: that one's outcome and count, and the stamps that the tracker held before the call |
| SglangScheduler.EachFinishesOnce | bkvt/integrations/sglang/scheduler_probe.py:343-384 | one call gives each id it names exactly one terminal record, forgets it, and leaves other ids alone |

## Left out

- Put and registration of a ring: taken as one atomic step, as is every update of the byte estimate and the drop counters. In the source an append through a reference to the old buffer that was fetched before the swap is lost as well.
- LifecycleAgreement.OfflineRowIsTrackerEntry: assumes that no record of the request is dropped; a step of the request before its arrival, a second arrival and a second terminal action of the same id are not covered.
- An admit's two accesses to the tracker are one action; between them only the arrival stamp on its record could change, which no result uses.
- Gzip, background compression and the orjson encoder: compression is the identity on content, encoding a partial function to lines.
- Output files that exist before the run, and a worker id with a dot in it, whose tail `splitext` would take for an extension (bkvt/emitter.py:112).
- Events issued after shutdown, and a flusher that does not stop within the join timeout.
- Fields of transfer records other than id, direction, payload kind, request and time: tiers, bytes, blocks, transport, wire time, sampling rate, earliest known time.
- Unwinding that is not an `Exception` in the connector; the other connector methods (prefix lookup, metadata building, polling), which only add metadata and block records.
- The validator's schema library, `--sample`, manifest warning and file discovery: schema violations of a line are a number given with it.
- Transfer records without an id in the pairing join; column selection and the wire-time column.
- Missing values and float widening of the data frames: integers with an option type; the order of groups.
- The `remote_transfer` and `metadata` stages of the attribution, where two series with different indexes are added.
- The same block id on several workers in the residency table, which groups by block id only.
- The runner's aggregate record when outputs cannot be told apart; kernel timing; request sizes and priorities.
- `weights.py`, the offload wrapper, and the allocator, radix and block-pool probes: they label or emit one record per item and hold no state.
- Classification of directions, tiers and transports, extraction of ids and sizes from engine objects, and installation of the wrappers: reflection over libraries that are not part of this model.
- Clocks, CUDA events, id generation and sampling rates; the one thing assumed of the clock is that an id's end is stamped no earlier than its start.

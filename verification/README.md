# Verification of the model-compression and monitoring service

The repository compresses ONNX models (a graph-rewriting transformer, a Pareto
search over per-operator choices, a guarantee ladder), serves and draws them, and
collects telemetry from deployed models through a client library.  This project
models five of its parts in Dafny and proves what they promise.

`dafny verify dfyconfig.toml` checks every file.

## How it is organised

**The telemetry loop.**  `Reporter` is the Node client as a class: bounded queues,
a drained batch, a durable spool, an in-memory fallback.  `Conservation` runs it
through recording, flushing, sending, crashing and restarting in any order and
accounts for every event; `Interference` drops its guards (overlapping send passes,
restarts in the millisecond of an old segment) and says exactly which runs still
account for every event.  `SpoolNames` justifies treating segment names as pairs.
`ClientTelemetry` is the ingest handler and the retention pass over the telemetry
tables; `ExactlyOnce` interleaves requests, commits, unique-key conflicts and purges
and finds exactly when a row can be inserted twice.  `ClosedLoop` joins both sides
through an arbitrary network.

**Graph rewriting.**  `OnnxGraph` gives a graph a meaning: an environment from
tensor names to values filled node by node (ONNX IR specification, section
"Graphs").  `Quantization` and `QuantizationPass` rewrite initializers behind Cast
and DequantizeLinear nodes, `Formats` reads off the rewritten graph which of them are
stored and in what format, `StorageChecks` relates them to the validator's
reconstruction, `BnFusion` folds BatchNormalization into its producer, `BnFoldList`
does so for a list of them, `BnExactness` finds where a fold is not exact,
`TreeEnsemble` prunes trees,
`LeafMerging` merges leaves and `TreeTotals` says what that does to single trees.

**Search geometry and selection.**  `Hypervolume` proves the sort-and-sweep equal to
a count of dominated unit cells, `ParetoFront` the non-dominated filter,
`TrialRebuild` that a stored configuration rebuilds the searched actions, and
`Guarantee` the ladder and what is finally served.

**Graph analysis and drawing.**  `Digraph` has paths and cycles; `TopoSort`,
`Bridging` and `Layout` are the sort, the edges drawn through dropped operators and
the placement; `ArchitectureMap` composes them.

**Model lifecycle.**  `Lifecycle` interleaves the upload handshake, the worker's
final commit, the orphan reaper and deployment requests transaction by transaction;
`ReaperSafety` finds exactly when a finished result can be overwritten.

`Collections`, `Decimals`, `Options` and `Reals` hold what several parts share.

## What the proofs found

- *The ledger horizon is exact.*  A keyed batch is inserted at most once in every
  run if and only if the ledger is kept at least as long as the accepted past plus
  the accepted future plus the longest time a request may stay open (or retention
  is off, or no item is ever accepted).  With the shipped 30 days, 5 minutes and
  35 days that is: no request stays open longer than 5 days minus 5 minutes.
- *The reaper can overwrite a finished run.*  The comment at
  `app/repositories.py:58-61` says it can never reap an in-flight job.  The age it
  compares is counted from upload, so queueing counts; cancellation is cooperative
  (`app/services/cancel.py:1-14`), so whatever follows the last poll of the deadline
  (`app/engine/adapter.py:437`) comes on top of the 900 seconds; and the scan and the
  commit are separate.  A committed result stands in every interleaving if and only
  if workers commit strictly before the horizon; as shipped, if and only if the wait
  in the queue and the work after the last poll take less than 300 seconds together.
- *Two send passes that overlap lose an in-memory batch.*  The in-memory queue is
  shifted by position (`clients/node/src/telemetry.ts:363-369`), and the startup
  recovery and `close` start a pass without looking at the flag that keeps the ticks
  apart.  A run from a fresh start, with a tick and `close`, loses an event with
  `dropped` 0.
- *A restart in the same millisecond reuses a segment name*, and the rename
  replaces the older segment without counting it.  A write is safe if and only if no
  segment of the new name that survives eviction holds an event.
- *With both allowed*, every event stays accounted for in a run if and only if, before
  each operation, what an answer is about to remove is part of what was answered and
  the name a write is about to use holds no events: both can be looked up beforehand.
- *Spool file names sort like (time, sequence) pairs if and only if* sequence numbers
  stay at or below 9999.
- *`_unique_name` looks at initializers and node names only*
  (`astra/graph/onnx_transformer.py:748-757`).  One rewrite, and a whole action list,
  leaves every tensor defined once if and only if no node makes a tensor of a name
  that is chosen; two rewrites can define one tensor twice.  A chosen name that is a
  graph input leaves every tensor defined once, but takes the input away: the caller
  can feed all inputs as before if and only if no chosen name is one of them, and one
  that is reads as the stored part.
- *Two BatchNormalization folds can add one bias name.*  `_fused_bias` is appended to
  the operator's name and not made unique (`astra/graph/onnx_transformer.py:389-393`).
  On operators that are exact sites on their own, every fold of a list finds its site
  when its turn comes if and only if no two operators without a bias have one name,
  and then the list keeps the meaning; otherwise the graph gets a second bias of that
  name and the first operator reads it too.
- *BatchNormalization fusion ignores beta and transB of Gemm, and a bias that is not
  an initializer.*  On a Gemm followed by the normalization, the output is the same
  on every input: with a fixed or absent bias, if and only if beta is 1 or no channel
  is shifted; with a bias the caller feeds, if and only if every channel has shift 0
  and either its scale is 1 or beta is 0; with transB = 0 and a square weight, if and
  only if in addition to the first condition every non-zero entry has the same scale
  in its row's channel and in its column's (or alpha is 0).
- *The 95 % accuracy threshold of the serving step never changes the choice*, since
  the candidates are already sorted by accuracy.  Whatever the gate answers, the
  served model is the original or passed the gate, if and only if a ladder ran or the
  model picked without one is the original itself.  Passing means that the gate scored
  it at least tau; a gate that fails counts as 0, so only a threshold of 0 or less lets
  it through.
- *Leaf merging is documented as working within each tree*
  (`astra/graph/onnx_transformer.py:517`); the code sorts the weights of all trees
  and targets together, and the model follows the code.  Trees keep their totals when
  leaves of different trees are equal or at least the threshold apart; however the
  leaves are spread over trees, they keep them if and only if no two distinct weights
  are closer than the threshold, when nothing is merged at all.
- *Rebuilding a trial by operator name* gives the actions the trial was measured
  with, whatever configurations translate to, if and only if operators that share a
  name are stored uncompressed.
- *An operator called `input` or `output` is drawn under the name of a synthetic
  node*; every drawn edge goes strictly deeper if and only if there is none.

## Model

| member | source | states |
|---|---|---|
| ExactlyOnce.AtMostOnceIff | app/services/client_telemetry.py:30-196 | over every run of requests, re-sends, conflicts, lost answers, clock ticks and purges no row of a keyed batch is inserted twice, if and only if the ledger horizon covers the accepted past, the accepted future and the longest open request |
| ExactlyOnce.DoubleInsert | app/services/retention.py:38-48 | with any shorter ledger horizon a concrete run inserts a row twice |
| ExactlyOnce.ShippedHorizons | app/config.py:124-128 | with 30 days, 5 minutes and 35 days: safe if and only if no request stays open longer than 5 days minus 5 minutes |
| ExactlyOnce.CommitIsFresh | app/services/client_telemetry.py:61-72 | an item that is still valid, of a batch with no ledger row, was never inserted, even when its ledger row has been purged |
| ExactlyOnce.StepKeepsInv | app/services/client_telemetry.py:44-196 | every step keeps: each keyed row ever inserted is guarded by its ledger row or is too old to be accepted again by any open request |
| ExactlyOnce.PurgeKeepsInv | app/services/retention.py:31-66 | deleting ledger and fact rows keeps that guard |
| ExactlyOnce.StoredAtMostOnce | app/services/client_telemetry.py:164-196 | the fact tables never hold a keyed row twice |
| ExactlyOnce.FreshStaysStored | app/services/client_telemetry.py:77-196 | in every run a row not yet due for retention is in the fact tables as often as it was ever inserted, and no row is there more often; without retention the tables hold all rows ever inserted, in order |
| ExactlyOnce.StepKeepsStored | app/services/retention.py:31-66 | every step, a purge included, keeps that |
| ExactlyOnce.AcknowledgedExactlyOnce | app/services/client_telemetry.py:164-196 | once a batch is acknowledged, first time or replayed, some request that carried it read the instant the answered counts belong to, and every item valid at that instant has been inserted exactly once |
| ExactlyOnce.ArrivedStays | app/services/client_telemetry.py:44-60 | a request that arrived stays on record, with its batch and the instant it read, when no step changes either |
| ExactlyOnce.RunKeepsArrivals | app/services/client_telemetry.py:44-196 | and no step does: it stays on record through every run |
| ClientTelemetry.AcceptedRowsExact | app/services/client_telemetry.py:77-160 | the rows built are exactly the items with a valid timestamp, without repetition |
| ClientTelemetry.BatchRowsExact | app/services/client_telemetry.py:77-160 | the rows of a batch are exactly its valid events, snapshots and windows, never more than the batch has |
| ClientTelemetry.TelemetryStore.BuildRows | app/services/client_telemetry.py:77-99 | one item loop builds those rows and counts accepted and dropped items |
| ClientTelemetry.TelemetryStore.IngestBatch | app/services/client_telemetry.py:44-196 | refuses exactly the batches with too many items (answered 422), replays the acknowledgement of one in the ledger and changes nothing, and else adds exactly the valid items to the fact tables, answers with their numbers per kind and the number of dropped ones, and records both under the batch id; all of it is the protocol's start, check and commit back to back |
| ClientTelemetry.InsertExact | app/services/client_telemetry.py:77-196 | the protocol's commit adds exactly the valid items, each once, behind the facts already there, and one ledger row when the batch has an id |
| ClientTelemetry.BatchCountsExact | app/services/client_telemetry.py:77-160 | the counts are the numbers of valid events, snapshots and windows; the other items are dropped |
| ClientTelemetry.TelemetryStore.DeleteExpired | app/services/retention.py:38-66 | deleting table by table leaves exactly the rows no table's cutoff reaches, as `FreshRowsExact` describes them |
| ClientTelemetry.FreshRowsExact | app/services/retention.py:38-66 | a row before the cutoff is gone, any other is there as often as before, and what is left keeps its order |
| ClientTelemetry.TelemetryStore.Purge | app/services/retention.py:31-66 | with retention enabled, facts and ledger rows before their cutoffs are gone and all others stay, facts in their order; disabled, nothing changes; returns how many went |
| ClientTelemetry.PurgeExact | app/services/retention.py:31-66 | the same of the purge in the protocol |
| Conservation.EveryEventAccounted | clients/node/src/telemetry.ts:199-442 | over every run in which a segment name is not reused after a restart and one send pass is in progress at a time: each recorded event is in exactly one of queue, in-memory batches, spool, finished, lost and wiped by a crash; at most 450 events are lost per counted drop, none when nothing was dropped |
| Conservation.StepKeepsInv | clients/node/src/telemetry.ts:199-442 | every operation keeps conservation, batch sizes, spool order and the loss bound |
| Conservation.PersistKeeps | clients/node/src/telemetry.ts:315-322 | persisting a batch stores its events and gives up exactly the evicted segments and the overflowed in-memory batch |
| Conservation.DrainedFits | clients/node/src/telemetry.ts:300-311 | a drained batch has at most 450 items |
| Conservation.SegmentsVanishOnlyWhen | clients/node/src/telemetry.ts:345-442 | a segment leaves the spool only after an ack, a permanent rejection, or eviction of the oldest when over the cap |
| Conservation.FlushDiscipline | clients/node/src/telemetry.ts:413-442 | a write evicts only oldest segments and only over the cap, and leaves at most the cap plus the new segment |
| Conservation.SpoolStaysOrdered | clients/node/src/telemetry.ts:402-425 | over every run the spool stays in strict name order |
| Conservation.PassDiscipline | clients/node/src/telemetry.ts:345-398 | a disk pass removes a prefix of the spool and stops at the first transient failure with all younger segments in place |
| Conservation.PassIsARun | clients/node/src/telemetry.ts:345-360 | that pass is the run of its single send steps |
| Conservation.MemoryPassIsARun | clients/node/src/telemetry.ts:363-369 | the in-memory half of a pass is a run of single send steps too |
| Conservation.DrainIsARun | clients/node/src/telemetry.ts:334-341 | draining everything to storage is a run of flush steps |
| Conservation.CloseIsARun | clients/node/src/telemetry.ts:464-492 | `close` is a run of these steps, so it accounts for every event, and it leaves nothing in the queues |
| Interference.AccountedIff | clients/node/src/telemetry.ts:238-371 | over every run with any number of overlapping passes and restarts at any time, every recorded event stays accounted for at every point, if and only if before each operation the guard holds: what an answer is about to remove is part of what was answered, and a write's name is free of events |
| Interference.StepLosesExactly | clients/node/src/telemetry.ts:345-425 | which events a single operation makes missing: those it takes out of storage that are neither in the batch answered nor settled before |
| Interference.StepKeepsSane | clients/node/src/telemetry.ts:345-425 | every operation keeps: no event is stored more often than recorded, segment names stay in strict order |
| Interference.SparesIff | clients/node/src/telemetry.ts:345-425 | the guard, on the queue head, the segment at the path and the name alone, holds if and only if the operation takes no event out of storage without accounting for it |
| Interference.StepKeepsTidy | clients/node/src/telemetry.ts:345-425 | every operation, lossy ones included, keeps: stored events are not settled, settled and posted ones are recorded, and a posted event that is still stored lies where its answer will remove it |
| Interference.StoreSafeIff | clients/node/src/telemetry.ts:413-425 | the rename keeps every other event if and only if no segment of that name holds one |
| Interference.WriteSafeIff | clients/node/src/telemetry.ts:413-442 | a write conserves all events, evicted ones counted, if and only if no surviving segment of the new name holds one |
| Interference.OverlapLoses | clients/node/src/telemetry.ts:238-244 | from a fresh start, two flushes to memory and two overlapping passes lose an event with `dropped` 0 |
| Interference.NameReuseLoses | clients/node/src/telemetry.ts:413-425 | from a fresh start, a write after a restart in the same millisecond replaces the older segment with `dropped` 0 |
| SpoolNames.NamesSortAsPairs | clients/node/src/telemetry.ts:402-421 | with in-range fields file names sort as (time, sequence) pairs and are equal only for equal pairs |
| SpoolNames.SerialsSortIff | clients/node/src/telemetry.ts:402-421 | file names sort as the pairs for all 13-digit times and sequence numbers up to n, if and only if n is at most 9999 |
| SpoolNames.SerialOverflowReorders | clients/node/src/telemetry.ts:402-421 | beyond that bound: sequence number 10000 sorts before 9999 |
| Reporter.AstraTelemetryReporter.constructor | clients/node/src/telemetry.ts:150-195 | a new reporter has empty queues and the spool it finds |
| Reporter.AstraTelemetryReporter.Record | clients/node/src/telemetry.ts:199-226 | recording appends, dropping and counting the oldest event at the bound |
| Reporter.AstraTelemetryReporter.TakeSnapshot | clients/node/src/telemetry.ts:271-286 | a snapshot enters the queue capped at 64 |
| Reporter.AstraTelemetryReporter.TakeWindow | clients/node/src/telemetry.ts:288-296 | a window, if there was traffic, enters the queue capped at 64 |
| Reporter.AstraTelemetryReporter.DrainToBatch | clients/node/src/telemetry.ts:300-311 | nothing when empty, else a batch with all snapshots and windows as they were and the oldest events, as many as the 450 items leave room for; the rest of the events stay |
| Reporter.AstraTelemetryReporter.PersistBatch | clients/node/src/telemetry.ts:315-322 | spool first, memory when the spool is unusable or the write failed |
| Reporter.AstraTelemetryReporter.DrainAllToStorage | clients/node/src/telemetry.ts:334-341 | terminates, empties all three queues and persists every drained batch |
| Reporter.AstraTelemetryReporter.SendPending | clients/node/src/telemetry.ts:345-371 | oldest segments first, then the in-memory queue, stopping at the first transient answer; `SendDiskExact` and `SendMemoryExact` say what each half does |
| Reporter.SendDiskExact | clients/node/src/telemetry.ts:345-360 | a pass over the spool removes exactly the segments before the first transient or missing answer, counts exactly the events of the rejected ones, and succeeds when none is left |
| Reporter.SendMemoryExact | clients/node/src/telemetry.ts:363-371 | the same of the in-memory queue |
| Reporter.AstraTelemetryReporter.Close | clients/node/src/telemetry.ts:464-492 | a last snapshot and window, everything drained to storage, then passes until one gets through or the budget is used up |
| Reporter.AstraTelemetryReporter.Write | clients/node/src/telemetry.ts:413-425 | makes room, then stores under the next name |
| Reporter.AstraTelemetryReporter.EnforceCap | clients/node/src/telemetry.ts:428-442 | evicts oldest segments until under the cap and counts them |
| Reporter.EvictionsExact | clients/node/src/telemetry.ts:428-442 | as few of the oldest segments are evicted as bring the spool under the cap, or all of them |
| Reporter.DrainShrinks | clients/node/src/telemetry.ts:300-341 | every drain leaves strictly fewer buffered items |
| ClosedLoop.EndToEnd | clients/node/src/telemetry.ts:199-442 | client, network and server together: no event is inserted twice; an event neither held, lost nor wiped is in the server's log, and in its fact tables until retention is due, or a request carrying its batch arrived at an instant for which its timestamp was invalid; losses stay within 450 per counted drop |
| ClosedLoop.NeverTooLarge | app/services/client_telemetry.py:44-60 | the shipped server never refuses a shipped reporter's batch for its number of items (422 `batch_too_large`) |
| ClosedLoop.StepKeepsInv | app/services/client_telemetry.py:44-196 | every step of the loop keeps: requests carry drained batches, rows come from drained batches, finished events were acknowledged and are stored or were invalid on arrival |
| QuantizationPass.PassMeaning | astra/graph/onnx_transformer.py:56-235 | after any list of quantization actions every original tensor evaluates, on every input, as in the original graph with each converted initializer replaced by its restored value, provided every generated name is fresh among the tensor names |
| QuantizationPass.SafeNamesStayFresh | astra/graph/onnx_transformer.py:735-757 | when no tensor name starts with an initializer's name and a storage suffix, all generated names are fresh |
| QuantizationPass.ConvertedFor | astra/graph/onnx_transformer.py:111-157 | each converted initializer is stored from its original value in the format that one action of the list asks for on behalf of the operator it names, which reads the initializer; `Formats.RestoredInFormat` says which action and which format |
| Formats.ConvertedIff | astra/graph/onnx_transformer.py:111-157 | after any action list with fresh names an initializer is converted if and only if some action for FP16, INT8 or INT4 names an operator that reads it, it is float32 and has at least 1024 bytes, and for an integer format at least two dimensions; any other is as it was |
| Formats.RestoredInFormat | astra/graph/onnx_transformer.py:111-235 | the only node that makes a converted initializer is, for FP16 or without int8 in the opset, a Cast of its float16 copy, else a DequantizeLinear of integer codes up to 127 for INT8 and 7 for INT4, with zero point 0, each entry within half a step of the original, per axis-0 slice if and only if the reader is a Conv, the rank 4, the opset at least 13 and there is more than one slice; the first action that asks decides |
| Formats.StorageInFormat | astra/graph/onnx_transformer.py:159-235 | the storage chosen for one action has that format |
| Formats.FirstOfName | astra/graph/onnx_transformer.py:702-706 | an action means the first operator of its name |
| QuantizationPass.RestoredOnce | astra/graph/onnx_transformer.py:137-235 | in the rewritten graph a converted initializer is gone and exactly one node makes it, a Cast or DequantizeLinear, however many operators share it; any other is as it was |
| QuantizationPass.PassSingleAssignment | astra/graph/onnx_transformer.py:111-235 | under fresh names the graph rewritten by a whole action list defines every tensor once |
| QuantizationPass.PassSingleAssignmentIff | astra/graph/onnx_transformer.py:111-235 | any action list leaves every tensor defined once if and only if at every conversion no node makes a tensor of a generated name |
| QuantizationPass.OnnxTransformer.constructor | astra/graph/onnx_transformer.py:56-62 | a transformer starts with nothing converted |
| QuantizationPass.OnnxTransformer.ApplyAll | astra/graph/onnx_transformer.py:56-89 | applying the quantization actions one by one is the pass that `PassMeaning`, `ConvertedIff` and `RestoredInFormat` are proved about (all of them belong to the last phase, so sorting by phase keeps their order) |
| QuantizationPass.OnnxTransformer.ApplyWeightQuantization | astra/graph/onnx_transformer.py:111-157 | one action converts, in that same pass, the eligible and not yet converted initializers of its node |
| QuantizationPass.OnnxTransformer.StoreAs | astra/graph/onnx_transformer.py:159-235 | the initializer is replaced by its storage and a restoring node in front |
| QuantizationPass.OnnxTransformer.PickName | astra/graph/onnx_transformer.py:748-757 | terminates with the candidate or its first free numbered variant |
| Quantization.StoreMeaning | astra/graph/onnx_transformer.py:159-235 | one store changes nothing but the generated names, compared with replacing the value |
| Quantization.StoreExact | astra/graph/onnx_transformer.py:159-235 | one store takes the initializer and the input of its name out, adds the parts under free names and one node in front that makes the initializer from them; all else stays |
| Quantization.StoreSingleAssignmentIff | astra/graph/onnx_transformer.py:748-757 | the rewritten graph defines every tensor once if and only if no node makes a tensor of a generated name |
| Quantization.StoreFreeInputsIff | astra/graph/onnx_transformer.py:159-235 | the caller feeds the inputs whose names were not generated, so all of them if and only if none was |
| Quantization.ClashHidesInput | astra/graph/onnx_transformer.py:159-235 | an input whose name was generated reads as the stored part, whatever is fed |
| StorageChecks.InputTaken | astra/graph/onnx_transformer.py:748-757 | a graph on which one store keeps every tensor defined once and leaves the caller nothing to feed |
| Quantization.PartNamesDistinct | astra/graph/onnx_transformer.py:748-757 | the names of one store differ from each other and from all initializers and nodes |
| Quantization.UniqueName | astra/graph/onnx_transformer.py:748-757 | a free name extending the candidate; the candidate itself when free |
| Quantization.UniqueNameIsFirst | astra/graph/onnx_transformer.py:748-757 | the candidate if free, else the variant with the least number from 2 on that is free |
| Quantization.CodeError | astra/graph/onnx_transformer.py:192-235 | the clip never binds, codes stay in range, the error is at most half a step |
| Quantization.IntStorageError | astra/graph/onnx_transformer.py:192-235 | every entry of a stored weight, per tensor or per channel, is restored within half its scale |
| StorageChecks.ReconstructionIsExact | astra/core/validation.py:326-351 | the validator reconstructs exactly what the inserted node exposes, when the storage kept its unnumbered names |
| StorageChecks.TwoStoresCollide | astra/graph/onnx_transformer.py:748-757 | a well-formed graph on which two stores define one tensor twice |
| BnFusion.FusionPreservesMeaning | astra/graph/onnx_transformer.py:336-398 | folding preserves every tensor of the graph but the raw output and the folded parameters, on every input, for any weights, statistics and other operators |
| BnFusion.ApplyPreservesMeaning | astra/graph/onnx_transformer.py:336-398 | the pass itself finds that site and so preserves the meaning |
| BnFusion.ApplyBnFusion | astra/graph/onnx_transformer.py:336-398 | the pass, including every case in which it leaves the graph alone |
| BnFusion.ChannelExactIff | astra/graph/onnx_transformer.py:368-393 | the folded channel equals the normalized one if and only if beta is 1 or the shift is 0 |
| BnFusion.DynamicBiasIff | astra/graph/onnx_transformer.py:381-388 | leaving the bias unfolded is exact on a channel for every input and every bias, if and only if its shift is 0 and either its scale is 1 or beta is 0 |
| BnFusion.FusedOutput | astra/graph/onnx_transformer.py:358-393 | the operator on folded parameters gives the normalization of its original output |
| BnFusion.RawOutputGone | astra/graph/onnx_transformer.py:395-396 | after the fold nothing defines the operator's raw output, so another reader would break |
| BnFoldList.FusedCases | astra/graph/onnx_transformer.py:336-398 | on any graph the pass leaves it alone unless the operator found by name is a BatchNormalization behind a Conv or Gemm, raises when a statistic is no initializer, leaves a weight of another rank alone, and else folds |
| BnFoldList.FoldListPreservesMeaning | astra/graph/onnx_transformer.py:56-89 | a list of folds on exact sites with distinct new bias names succeeds and preserves every tensor but the raw outputs and the folded parameters, on every input |
| BnFoldList.FoldsAtTurnIff | astra/graph/onnx_transformer.py:389-393 | for operators that are exact sites on their own, every fold of the list finds its site when its turn comes if and only if no two operators without a bias would get one bias name |
| BnFoldList.ClashOverwrites | astra/graph/onnx_transformer.py:389-393 | otherwise the second fold brings a second bias of that name, and the first operator reads it |
| BnFoldList.FoldKeepsSingleAssignment | astra/graph/onnx_transformer.py:395-396 | a fold leaves every tensor defined once and the caller's inputs as they were |
| BnFoldList.ApplyAll | astra/graph/onnx_transformer.py:56-89 | the loop over the folds, ended by one that raises |
| BnExactness.GemmCoefficientIff | astra/graph/onnx_transformer.py:368-396 | on the graph of a Gemm and its normalization with a fixed or absent bias, the pass preserves the output on every well-shaped input if and only if beta is 1 or no channel is shifted |
| BnExactness.GemmFedBiasIff | astra/graph/onnx_transformer.py:381-396 | with a bias fed by the caller, on every well-shaped input and bias: if and only if every channel has shift 0 and either its scale is 1 or beta is 0 |
| BnExactness.UntransposedIff | astra/graph/onnx_transformer.py:371-374 | with transB = 0 and a square weight, on every well-shaped input: if and only if alpha is 0 or every non-zero entry has one scale in its row's and its column's channel, and beta is 1 or no channel is shifted |
| BnExactness.CoefficientIff | astra/graph/onnx_transformer.py:368-393 | the folded operator gives the normalized output for all receptive fields of the weight's width if and only if beta is 1 or no channel is shifted |
| BnExactness.PassFoldsChain | astra/graph/onnx_transformer.py:336-398 | the pass folds these graphs whatever the coefficient, the bias and transB |
| TreeEnsemble.PruningIsExact | astra/graph/onnx_transformer.py:402-488 | on every input each target and class of the pruned ensemble is the original's sum over the kept trees, and the difference is the sum over the dropped ones |
| TreeEnsemble.PruningClosed | astra/graph/onnx_transformer.py:402-488 | the arrays stay parallel, mention exactly the kept trees, and no dropped tree has a smaller id; at least one tree is kept |
| TreeEnsemble.KeptShare | astra/graph/onnx_transformer.py:421-427 | the trees kept are the share that is not pruned, rounded down, where that is at least one tree, and one tree otherwise |
| TreeEnsemble.EnsembleNode.ApplyTreePruning | astra/graph/onnx_transformer.py:402-459 | the attribute-by-attribute rewrite in place is that pruning |
| TreeEnsemble.EnsembleNode.FilterNodes | astra/graph/onnx_transformer.py:433-442 | all node attributes are filtered by one mask |
| TreeEnsemble.FilterColumn | astra/graph/onnx_transformer.py:461-488 | keeps the masked positions in order; leaves an absent attribute or one of another length alone |
| TreeEnsemble.FilteredExact | astra/graph/onnx_transformer.py:461-488 | a filtered list has exactly the masked positions, in order |
| LeafMerging.MergeLeaves | astra/graph/onnx_transformer.py:514-544 | terminates; the sorted leaves are replaced group by group; the total is kept, no leaf moves by the threshold, no two leaves change order |
| LeafMerging.ApplyLeafMerging | astra/graph/onnx_transformer.py:514-544 | one attribute with the threshold the pass computes and any sorting order and square root: empty stays empty, the total is kept, no leaf moves by the threshold |
| LeafMerging.MergingIsSound | astra/graph/onnx_transformer.py:530-541 | those properties hold of any order `argsort` may return |
| LeafMerging.SmoothTotal | astra/graph/onnx_transformer.py:532-541 | replacing greedy groups by their means keeps the sum |
| LeafMerging.SmoothMoves | astra/graph/onnx_transformer.py:534-540 | no value moves by the threshold or more |
| LeafMerging.SmoothOrder | astra/graph/onnx_transformer.py:534-540 | order is kept and equal values stay equal, so ties never depend on the sort |
| LeafMerging.SmoothExact | astra/graph/onnx_transformer.py:530-541 | the sorted leaves are cut into groups, each of them as long as its values stay closer than the threshold to its first, and every member of a group ends at the group's mean |
| TreeTotals.TreeTotalsKeptIff | astra/graph/onnx_transformer.py:517-541 | for every assignment of leaves to trees every tree keeps its total, if and only if no two distinct weights are closer than the threshold |
| TreeTotals.TreeKept | astra/graph/onnx_transformer.py:517-541 | a tree keeps its total when leaves of different trees are equal or at least the threshold apart |
| TreeTotals.TwoTreesShare | astra/graph/onnx_transformer.py:517-541 | two one-leaf trees closer than the threshold both end at their mean, so the lower one gains |
| TreeTotals.CloseTreesShare | astra/graph/onnx_transformer.py:529-541 | and so it is under the threshold the pass computes |
| Hypervolume.DominatedHv | astra/search/pareto_search.py:92-121 | clip, filter, sort and sweep together compute the number of dominated unit cells of the reference box |
| Hypervolume.Sweep | astra/search/pareto_search.py:111-121 | the sweep over any sorted list, dominated or tied points included, computes that number |
| Hypervolume.AreaStep | astra/search/pareto_search.py:111-121 | one column adds the height above the lowest point to its left |
| Hypervolume.ParetoFilter | astra/search/pareto_search.py:82-89 | the nested loop keeps exactly the points no other point dominates |
| Hypervolume.KeptUnbeaten | astra/search/pareto_search.py:82-89 | a point is kept if and only if no other point is at most as large in both coordinates |
| Hypervolume.FilterKeepsCells | astra/search/pareto_search.py:82-89 | filtering changes no dominated cell |
| Hypervolume.FilterLeavesStaircase | astra/search/pareto_search.py:82-89 | no kept point dominates another |
| Hypervolume.ClipKeepsCells | astra/search/pareto_search.py:99 | clipping to the box changes no dominated cell |
| Hypervolume.ReorderKeepsCells | astra/search/pareto_search.py:112 | any sort order gives the same cells |
| Hypervolume.AddingNeverLowers | astra/search/pareto_search.py:92-121 | adding a point never lowers the value |
| Hypervolume.AddingRaisesIff | astra/search/pareto_search.py:92-121 | it raises it if and only if the point covers a cell nothing covered |
| ParetoFront.ComputeParetoFront | astra/search/pareto_search.py:498-512 | the double loop computes the front |
| ParetoFront.FrontExact | astra/search/pareto_search.py:498-512 | the front holds every non-dominated trial as often as it occurs, and no dominated one |
| ParetoFront.FrontUnbeaten | astra/search/pareto_search.py:498-512 | a trial is on the front if and only if every trial at least as accurate and no larger is exactly as accurate and as large |
| ParetoFront.FrontOrder | astra/search/pareto_search.py:498-512 | in input order |
| ParetoFront.FrontCovers | astra/search/pareto_search.py:498-512 | every trial is weakly dominated by a member of the front |
| TrialRebuild.RebuildMatchesTrial | astra/sdk.py:324-343 | for distinct operator names the actions rebuilt from a stored configuration are those the search applied, in order |
| TrialRebuild.Objective | astra/search/pareto_search.py:324-367 | one evaluation applies the actions of the final choices and stores one entry per name, repeated names included |
| TrialRebuild.AppliedExact | astra/search/pareto_search.py:357-365 | the actions are, operator by operator, the translation of the choice made last for its name, nothing when that choice is FP32 without pruning, fusion or rank |
| TrialRebuild.RecordExact | astra/search/pareto_search.py:324-367 | the record of a name holds the precision name, ratio and flag of the choice made last for it |
| TrialRebuild.Reconstruct | astra/sdk.py:324-343 | the rebuild loop, including unknown operators and precisions |
| TrialRebuild.RebuiltExact | astra/sdk.py:324-343 | without an error the rebuilt actions are, entry by entry, the translation of what is stored for the last operator of that name, nothing without such an operator or without compression |
| TrialRebuild.RebuiltRaisesIff | astra/sdk.py:333-339 | it raises if and only if an entry of a known operator has an unknown precision name |
| TrialRebuild.SharedNamesIff | astra/sdk.py:324-343 | for every translation the rebuilt list is the applied one, if and only if operators that share a name are stored uncompressed |
| TrialRebuild.RebuildMatchesIff | astra/sdk.py:324-343 | the same over any operator list the rebuild may find, such as the uncapped one: if and only if every compressed operator is the only searched one of its name and the one found under it |
| TrialRebuild.FinalIsLast | astra/search/pareto_search.py:324-367 | of operators sharing a name the last decides what is stored and applied |
| TrialRebuild.ChosenKeys | astra/search/pareto_search.py:324-367 | the record has exactly the operators' names, once each |
| Guarantee.GuaranteeCompress | astra/core/guarantee.py:382-460 | tries the rungs in the caller's order and returns the first that builds, passes the gate and is strictly smaller, else the original; every report says why a rung was passed over; for a positive tau a model other than the original was scored by the gate at least tau, and that score is recorded |
| Guarantee.LadderGuarantee | astra/core/guarantee.py:382-460 | for tau at most 1: fidelity at least tau, and strictly smaller unless it is the original; unless it is the original the gate scored it at least tau, or tau is not positive and the gate failed |
| Guarantee.PickCandidate | app/engine/adapter.py:313-318 | the candidate chosen is the most accurate one |
| Guarantee.Serve | app/engine/adapter.py:311-350 | what is served for every outcome of ladder, front, rebuild and gate, a failing gate counting as 0 |
| Guarantee.ServedIsCertified | app/engine/adapter.py:311-350 | after a ladder the served model is the original or was scored at least tau by the gate, with that score on record when tau is positive, and is no larger than the ladder's model |
| Guarantee.CertifiedIff | app/engine/adapter.py:311-350 | for every gate the served model is the original or was scored at least tau (a failing gate counting as 0), if and only if a ladder ran or the model picked without one is the original |
| TopoSort.TopologicalSort | astra/graph/onnx_analyzer.py:376-398 | terminates on every graph; emits each operator at most once, after all its predecessors, and leaves out only operators that wait for one left out |
| TopoSort.CompleteIffAcyclic | astra/graph/onnx_analyzer.py:376-398 | every operator is emitted if and only if the graph is acyclic; all edges point forward |
| TopoSort.SortedForward | astra/graph/onnx_analyzer.py:376-398 | edges among emitted operators point forward, on cyclic graphs too |
| TopoSort.Relax | astra/graph/onnx_analyzer.py:389-396 | emitting one operator keeps: degrees count unemitted predecessors, the queue holds exactly the ready ones |
| TopoSort.CountInDegrees | astra/graph/onnx_analyzer.py:381-385 | degrees count incoming edges |
| TopoSort.BuildAdjacency | astra/graph/onnx_analyzer.py:353-374 | an operator's list holds, once each, the operators that read a tensor it was the last to produce |
| Bridging.ArchitectureMapper.EdgePairs | app/services/mappers/architecture_mapper.py:102-127 | the edge (a, b) is drawn exactly once if and only if a path from a to b passes dropped operators only |
| Bridging.ArchitectureMapper.KeptSuccessors | app/services/mappers/architecture_mapper.py:105-117 | terminates on every graph; on an acyclic one the memoised answer is the set of kept operators reached through dropped ones, and the memo stays right |
| Bridging.TargetsAreUnion | app/services/mappers/architecture_mapper.py:105-117 | that set is the union over the successors |
| Bridging.BridgedForward | app/services/mappers/architecture_mapper.py:119-131 | drawn edges follow the topological order |
| Layout.ComputeLayout | app/services/mappers/layout.py:24-65 | every operator is placed in its slot of its level, its depth is its longest path from a source, no two share a place |
| Layout.Depths | app/services/mappers/layout.py:31-39 | each depth is one above the deepest predecessor, 0 for a source |
| Layout.DepthIsLongest | app/services/mappers/layout.py:36-39 | which is the length of the longest path |
| Layout.PlaceInjective | app/services/mappers/layout.py:46-65 | row and grid slots of one level never coincide |
| Layout.RowSymmetric | app/services/mappers/layout.py:49-54 | rows are symmetric about 0 and rounding to three decimals changes nothing |
| Layout.GridExact | app/services/mappers/layout.py:55-65 | a level of more than 4 is a grid with the fewest columns that make a square large enough and as many rows as that takes, filled row by row, centred both ways, exact at three decimals |
| Layout.LevelInOrder | app/services/mappers/layout.py:41-48 | the members of a level come in the topological order |
| Layout.WrapEdges | app/services/mappers/architecture_mapper.py:133-211 | every source is fed by the input and every sink feeds the output |
| Layout.EdgesDeepenIff | app/services/mappers/architecture_mapper.py:203-211 | every final edge strictly increases the shown depth if and only if no operator is called "input" or "output" |
| Layout.DrawNodes | app/services/mappers/architecture_mapper.py:139-206 | the input is shown at 0, operators one below their layout depth, the output below all |
| Layout.OnInputOutputPath | app/services/mappers/architecture_mapper.py:203-211 | every kept operator lies on a path from input to output |
| ArchitectureMap.MapArchitecture | app/services/mappers/architecture_mapper.py:75-218 | for every acyclic graph and every choice of kept operators: drawn edges are exactly the bridges, once each, plus the wrapping; depths are longest paths; places are distinct; every kept operator lies on a path from input to output; and edges strictly deepen if and only if no kept operator is called "input" or "output" |
| ArchitectureMap.LayoutInput | app/services/mappers/architecture_mapper.py:119-131 | the bridged edges meet what the layout needs |
| Lifecycle.BusyIffStreaming | app/routers/models.py:199-252 | over every interleaving a model reads analyzing or optimizing if and only if its run is still streaming, and no handshake finalizes over a worker |
| Lifecycle.StepKeepsInv | app/services/jobs.py:303-398 | every transaction of handshake, worker, reaper and deployments keeps the invariant behind it |
| Lifecycle.NobodyOverwrites | app/routers/models.py:238-252 | the last branch of the handshake is never reached while a result could be lost |
| Lifecycle.BadgesNeedNoHealing | app/repositories.py:29-50 | the deploy reconciler finds nothing to repair in any reachable state |
| Lifecycle.DeployedIffServed | app/routers/deployments.py:129-269 | in every interleaving a model has the deployed flag if and only if some deployment serves it |
| Lifecycle.StepKeepsBadges | app/routers/deployments.py:129-269 | every transaction keeps that |
| Lifecycle.Registry.IngestionComplete | app/routers/models.py:199-252 | the handshake without interference is the protocol's four transactions back to back |
| Lifecycle.Handshake | app/routers/models.py:199-252 | one request alone ends with its first transaction unless the model is being analyzed, with the guarded update if its run still streams, and otherwise refreshes and finalizes |
| Lifecycle.Registry.OnSuccess | app/services/jobs.py:303-345 | the worker's success commit: the run is completed; a model still busy returns to draft with the result, no run and the artifact, any other takes the artifact alone; all else stays |
| Lifecycle.Registry.OnFailure | app/services/jobs.py:369-389 | the worker's failure commit: the run is failed; its model, unless deployed, is failed too and names no run; all else stays |
| Lifecycle.Registry.ReconcileOrphanedRuns | app/repositories.py:52-92 | fails exactly the streaming runs past the horizon and releases exactly the models still naming them |
| Lifecycle.Registry.ReconcileDeployStatus | app/repositories.py:29-50 | flips exactly the draft models that are deployed |
| Lifecycle.Registry.CreateDeployment | app/routers/deployments.py:129-180 | refuses a model without a servable artifact and changes nothing; else the deployment serves the model, which is marked deployed, and all else stays |
| Lifecycle.Registry.DeleteDeployment | app/routers/deployments.py:242-269 | removes the deployment; with the last one of its model the flag goes, and a deployed model is a draft again |
| ReaperSafety.FinishedStandsIff | app/repositories.py:52-92 | a committed result is never overwritten, in any interleaving, if and only if workers commit before the horizon |
| ReaperSafety.Overwrites | app/repositories.py:52-92 | otherwise a concrete run overwrites it |
| ReaperSafety.ShippedReaper | app/services/queue.py:157-166 | with the shipped 900 and 300 seconds: if and only if the queue wait and the work after the last poll of the deadline take less than 300 seconds together |
| ReaperSafety.NothingStuck | app/repositories.py:52-92 | after a reaper pass no model is busy with a run past the horizon |

## Left out

- Channel pruning, low-rank factorisation, coefficient and leaf quantization, feature and support-vector pruning, depth limiting: lossy rewrites whose promise is only measured, or unreachable from the search.
- Convolution geometry: a Conv is one weighted sum per output channel over receptive fields that are an arbitrary function of its input; activations are kept channel by channel.
- Floating-point rounding: weights, statistics and scores are reals, `1/sqrt` and rounding to float16 arbitrary functions; the hypervolume works on an integer grid.
- Optuna's own hypervolume, its sampler, the surrogate, onnxruntime sessions and latency measurement: fidelity, sizes, trial choices, builders and gates are arbitrary functions.
- Opset conversion and shape inference: which operators exist at the model's opset is given.
- Graph initializers are a map, since their names are distinct; inputs fed to a model exclude initializers, as `astra/core/guarantee.py:463-476` does.
- `base_values` and post-transforms of tree ensembles; evaluation is by a bounded number of branches, for every bound.
- LeafMerging.MergeLeaves: takes any positive threshold and any sorting order; `ApplyLeafMerging` computes the threshold with an arbitrary square root, and `leaf_weights` goes through the same method.
- QuantizationPass.OnnxTransformer.ApplyAll: the quantization actions of `apply`; its folds are `BnFoldList.ApplyAll`, opset conversion, shape inference and the lossy action kinds are left out.
- BnFoldList.ClashOverwrites: initializers are a map, so the second bias replaces the first where the code would append a second entry of one name.
- BnExactness.UntransposedIff: a weight with as many rows as columns; otherwise the element-wise product stretches or fails in NumPy, which is not modelled.
- Conservation.EveryEventAccounted: guarded by: an in-memory batch is sent and answered in one step, a segment still holds what was read from it when its answer comes, every leftover segment is named before the first name a restarted process can give, the clock never runs back, names are pairs of any size. `Interference` lifts the first three, `SpoolNames.SerialsSortIff` settles the last.
- TrialRebuild.RebuildMatchesTrial: the translation of one configuration into actions is an arbitrary function, the tables of `astra/core/compression_actions.py` are not modelled; `approx_rank` is never set by the search and is excluded.
- Per-minute rollups, drift checks, `last_event_at`, alerts and activity rows, and the retention of the last two.
- Reporter.AstraTelemetryReporter.Close: called once; the flag that makes a second call do nothing, the timers and the waiting between passes are left out.
- ClientTelemetry.TelemetryStore.Purge: leaves out the alert and activity tables and the rollback after a database error; timestamps are instants compared as such; the code compares their stored ISO strings, of one format.
- ClosedLoop.NeverTooLarge: the 8 MB guard on the request body (413, `app/middleware.py:56-66`), which 450 items of long strings can exceed; the reporter then drops the batch for good, since 413 is not among the codes it retries.
- ClosedLoop.EndToEnd: a batch id has one content, and ids are never reused across reporters.
- Corrupt or partially written spool segments (rename is taken as atomic), several processes sharing one spool, and the reporter's cadence counters; snapshots and windows are followed into the drained batch, but not accounted one by one over a run.
- Lifecycle.Registry.DeleteDeployment: its two commits are one step; pausing, resuming, renaming and key rotation change no field of the invariant.
- Lifecycle.StepKeepsInv: a worker makes at most one final commit; dashboards, deletion and renaming of models are left out.
- Layer kinds, widths, descriptions and colours of the drawing: the set of kept operators is arbitrary.
- FastAPI and SQLModel plumbing, authentication, storage back ends, streaming of progress, migrations, scripts and the command line.

# Proofs about the weight-transfer engines, checkpoint layouts and evaluation helpers

This project models the parts of the repository whose correctness is an argument rather than a
lookup, and proves what those parts are for. `dafny verify dfyconfig.toml` checks all of it.

**Weight transfer.** Rank 0 packs a stream of named tensors into fixed-size byte buckets and ships
them with two alternating buffers. `Packing` holds the bytes: tensors, bucket metadata as an ordered
dictionary, writing into and reading from a buffer. `BucketPacking` says what the buckets guarantee and
`BucketSender` is the packing loop itself on two arrays. The two engines are transition systems in which
every rank's coroutine, every byte of a pending copy and every completion is a step of its own, so a
theorem about reachable states is a theorem about every interleaving. `NixlChain` is the NIXL engine: a
chain in which a rank announces one bucket while it pulls the next one and yields from the first.
`BroadcastEngine` is the NCCL engine: a broadcast in a background thread that overlaps filling and
yielding. Both follow one abstract plan of the buckets (`BucketPlan`), so the inductive invariants
(`NixlInvariant`, `BroadcastInvariant`) and their preservation never look into how a bucket is laid out.
`NixlTopology` and `NixlAgent` are the chain's construction and its message queues.

`NixlTheorems` and `BroadcastTheorems` hold the results, the two `Outcome` modules how every maximal run ends,
and the two `Termination` modules the bound on every run.

**Checkpoint layouts.** `PipelineShards` is the search for a pipeline split, `LayerPartition` the ranges of
layers and file numbers, `LayerNumbers`, `StateDictMerge` and `MergedEntries` the merging of a rank's model
chunks, `WeightIndex` the saved index per rank and gathered, `QkvLayout` and `GateUp` the fused projections,
`MoeCheckpoint` and `MoeSplit` the stacking of experts.

**Data and evaluation.** `DataProto` and `ProtoChunks` are the batch container, `DynamicBatching` the quota
batches and the scatter of hidden states, `Calibration` the two calibration scores over the reals,
`ZoomBox` the bounding-box enlargement over the reals, `BoxedParser` the two brace matchers. `Greedy` is the
one argument why an in-order greedy cutting is minimal; buckets and batches both use it. `Sequences`,
`Shapes`, `Numpy`, `Arithmetic` and `Wrappers` hold what the others share.

Failures of the original (an assertion, a KeyError, an IndexError, a ValueError) are values here: `None`, or a
named outcome. Code that changes things step by step is a method with its loops, proved equal to a function,
and the properties are proved of that function.

Where the code does not do what its surroundings promise, the exact condition is proved instead, and an input
that fails it is named:

- `build_topology` gives lists of the wrong length unless there are at least two rollout workers
  (`NixlTopology.AcceptedIffTwoRollouts`).
- A bucket with a repeated name reads back short, because its metadata is a dictionary
  (`BucketPacking.StreamSurvives`; `RepeatedName`).
- A weight larger than a bucket stops rank 0 and leaves every receiver waiting. The broadcast engine's receivers have
  then yielded every bucket of the weights before it, the chain's ranks all but the last of those buckets
  (`BroadcastOutcome.OversizeStarves`, `NixlOutcome.OversizeStarves`).
- `get_dynamic_pipeline_shards` can find no split at all although there are enough layers; `Succeeds` is the
  condition. Five layers on four ranks fail, and no fewer layers or ranks do (`PipelineShards.FiveOnFour`).
- A model chunk without layers still takes up one layer number (`LayerNumbers.AdvancesByLayers`; `LayerlessChunk`).
- `chunk` with padding enabled raises when rounding up the piece size leaves fewer pieces than asked for
  (`ProtoChunks.Chunk`; `FiveRowsInFour`), and concatenating the split of an empty container raises
  (`ProtoChunks.SplitRestores`).
- Splitting a merged expert checkpoint restores it only if it held no stacked tensor beforehand
  (`MoeSplit.SplitUndoesMerge`; `StackedBefore`), and merging a split one only if it held nothing but stacked tensors of
  the configured number of experts (`MoeSplit.MergeUndoesSplit`).
- `extract_boxed_content` returns the text after the box when the box is empty
  (`BoxedParser.MatchersAgree`; `EmptyBox`).

## Model

| member | source | states |
|---|---|---|
| `NixlTheorems.ChainDelivery` | verl/verl/checkpoint_engine/nixl_checkpoint_engine.py:364-522 | in every reachable state of every interleaving, what a rollout rank has yielded is a prefix of what rank 0 sends, although whole buffers with stale tails are copied byte by byte |
| `NixlTheorems.ChainComplete` | verl/verl/checkpoint_engine/nixl_checkpoint_engine.py:437-516 | and a rollout rank that is done has yielded all of it |
| `NixlTheorems.BufferExclusion` | verl/verl/checkpoint_engine/nixl_checkpoint_engine.py:387-434 | no step of any rank changes a buffer that is announced, being read by the next rank, or being yielded from |
| `NixlTheorems.OneOutstanding` | verl/verl/checkpoint_engine/nixl_checkpoint_engine.py:150-168 | between neighbours announcements, messages, running reads and notifications add up to the one outstanding operation; a notification carries its key, a forwarded message the forwarder's own key and descriptors |
| `NixlTheorems.OnlyOversizeFails` | verl/verl/checkpoint_engine/nixl_checkpoint_engine.py:413-415 | the notify-key assertion never fails; the only failure is rank 0 meeting a weight larger than a bucket |
| `NixlTheorems.BoundedLag` | verl/verl/checkpoint_engine/nixl_checkpoint_engine.py:461-516 | a rank is at most two completely received buckets ahead of the next one, rank 0 at most one announcement |
| `NixlTheorems.YieldOverlaps` | verl/verl/checkpoint_engine/nixl_checkpoint_engine.py:461-481 | while a rank yields a bucket, that bucket is on offer to the next rank and the read of the following one has begun; nothing can hold the yielding up |
| `NixlTheorems.FillOverlaps` | verl/verl/checkpoint_engine/nixl_checkpoint_engine.py:387-424 | while rank 0 fills a bucket, the one it announced before is still outstanding: it waits only when the new one is full or the stream over |
| `NixlTheorems.StuckNotWaiting` | verl/verl/checkpoint_engine/nixl_checkpoint_engine.py:484-487 | in a state where nothing can move, no rank is waiting for a notification (by induction towards the end of the chain) |
| `NixlTheorems.ChainProgress` | verl/verl/checkpoint_engine/nixl_checkpoint_engine.py:387-516 | no deadlock: when every weight fits, a run that cannot be extended has every rank done and the whole stream yielded |
| `NixlOutcome.FailsIffOversize` | verl/verl/checkpoint_engine/nixl_checkpoint_engine.py:387-434 | a run that cannot be extended ends with rank 0 failed if and only if some weight is larger than a bucket |
| `NixlOutcome.FailsAtFirstOversize` | verl/verl/checkpoint_engine/nixl_checkpoint_engine.py:392-415 | rank 0 fails at the first such weight, having announced exactly the buckets of the weights before it |
| `NixlOutcome.OversizeStarves` | verl/verl/checkpoint_engine/nixl_checkpoint_engine.py:461-495 | every rollout rank is then left waiting for metadata, with all of those buckets but the last yielded |
| `NixlTermination.ChainTerminates` | verl/verl/checkpoint_engine/nixl_checkpoint_engine.py:387-516 | every run is finite, with a bound that depends only on the stream and the number of ranks |
| `NixlTermination.StepWork` | verl/verl/checkpoint_engine/nixl_checkpoint_engine.py:387-516 | every enabled step of a rank or of the network strictly uses up work |
| `NixlPreservation.StepKeeps` | verl/verl/checkpoint_engine/nixl_checkpoint_engine.py:364-522 | the chain's invariant (each rank's local state, each pair of neighbours) survives every step |
| `NixlPreservation.RunKeeps` | verl/verl/checkpoint_engine/nixl_checkpoint_engine.py:364-522 | and hence every run |
| `NixlTopology.AcceptedIffTwoRollouts` | verl/verl/checkpoint_engine/nixl_checkpoint_engine.py:282-299 | the argument lists pass the caller's length assertions exactly when there are at least two rollout workers |
| `NixlTopology.TrainersLinked` | verl/verl/checkpoint_engine/nixl_checkpoint_engine.py:284-290 | trainer 0 is rank 0, linked only to the first rollout worker; other trainers are linked to nobody; all are given one rank more than rollout workers as world size and pass their own assertions |
| `NixlTopology.RolloutsLinked` | verl/verl/checkpoint_engine/nixl_checkpoint_engine.py:292-325 | rollout worker i is rank i + 1 of one rank more than rollout workers, its predecessor and successor are the chain's neighbours, and its assertions hold |
| `NixlAgent.Agent.ReadMessage` | verl/verl/checkpoint_engine/nixl_checkpoint_engine.py:122-126 | the receive loop ends in the state, and returns the message, that the reading function describes |
| `NixlAgent.ReadTakesFirst` | verl/verl/checkpoint_engine/nixl_checkpoint_engine.py:122-126 | one read takes exactly the first pending message of its sender, nothing of any other sender, and blocks only if that sender never sends again |
| `NixlAgent.NothingLostOrCrossed` | verl/verl/checkpoint_engine/nixl_checkpoint_engine.py:118-126 | for any arrival order and any calls, what was returned for a sender followed by what is pending for it is what it sent |
| `BroadcastTheorems.BroadcastDelivery` | verl/verl/checkpoint_engine/nccl_checkpoint_engine.py:298-356 | however fills, yields and broadcasts overlap, every receiver has yielded a prefix of the stream, and all of it once done |
| `BroadcastTheorems.SenderExclusion` | verl/verl/checkpoint_engine/nccl_checkpoint_engine.py:242-293 | rank 0's own step leaves the buffer of an operation it has not awaited unchanged |
| `BroadcastTheorems.ReceiverExclusion` | verl/verl/checkpoint_engine/nccl_checkpoint_engine.py:324-356 | no step of anybody changes the buffer a receiver is yielding from |
| `BroadcastTheorems.OnlyOversizeFails` | verl/verl/checkpoint_engine/nccl_checkpoint_engine.py:268-270 | rank 0 fails only on a weight larger than a bucket |
| `BroadcastTheorems.YieldOverlaps` | verl/verl/checkpoint_engine/nccl_checkpoint_engine.py:324-343 | while a receiver yields a bucket that is not the last, its next receive is under way; nothing can hold the yielding up |
| `BroadcastTheorems.FillOverlaps` | verl/verl/checkpoint_engine/nccl_checkpoint_engine.py:242-279 | while rank 0 fills a bucket, the broadcast it started before has not been awaited |
| `BroadcastTheorems.BroadcastProgress` | verl/verl/checkpoint_engine/nccl_checkpoint_engine.py:221-356 | no deadlock: when every weight fits, a run that cannot be extended is finished everywhere with the whole stream yielded |
| `BroadcastOutcome.FailsIffOversize` | verl/verl/checkpoint_engine/nccl_checkpoint_engine.py:242-294 | a run that cannot be extended ends with rank 0 failed if and only if some weight is larger than a bucket |
| `BroadcastOutcome.FailsAtFirstOversize` | verl/verl/checkpoint_engine/nccl_checkpoint_engine.py:247-270 | rank 0 fails at the first such weight, having started exactly the broadcasts of the buckets before it |
| `BroadcastOutcome.OversizeStarves` | verl/verl/checkpoint_engine/nccl_checkpoint_engine.py:324-349 | every receiver is then left waiting for a broadcast, with all of those buckets yielded |
| `BroadcastTermination.BroadcastTerminates` | verl/verl/checkpoint_engine/nccl_checkpoint_engine.py:221-356 | every run of the broadcast engine is finite, with a bound from the stream and the number of receivers |
| `BroadcastPreservation.StepKeeps` | verl/verl/checkpoint_engine/nccl_checkpoint_engine.py:221-356 | the broadcast engine's invariant survives every step of rank 0, of a receiver and of a running broadcast |
| `BucketSender.Engine.SendWeights` | verl/verl/checkpoint_engine/nccl_checkpoint_engine.py:242-294 | announces, each with a buffer image it can be read from, exactly the buckets of the longest prefix without an oversize weight; fails naming the first oversize weight if there is one; only the final announcement is marked last |
| `BucketSender.Engine.ReadBucket` | verl/verl/checkpoint_engine/nccl_checkpoint_engine.py:336-340 | from an announced image the receiver reads back the bucket's readable weights |
| `BucketSender.ReadsBucket` | verl/verl/checkpoint_engine/nccl_checkpoint_engine.py:336-340 | every metadata entry of a bucket lies inside the buffer and reads back its own tensor |
| `BucketPacking.BucketsPartition` | verl/verl/checkpoint_engine/nccl_checkpoint_engine.py:242-279 | the buckets, concatenated, are the stream |
| `BucketPacking.BucketsFull` | verl/verl/checkpoint_engine/nccl_checkpoint_engine.py:247-266 | when every weight fits, no bucket overflows and no bucket but the last is empty |
| `BucketPacking.BucketsGreedy` | verl/verl/checkpoint_engine/nccl_checkpoint_engine.py:247-266 | a bucket is announced only when the next weight does not fit it any more |
| `BucketPacking.BucketsMinimal` | verl/verl/checkpoint_engine/nccl_checkpoint_engine.py:247-266 | no in-order cutting of the stream into buckets that fit has fewer buckets |
| `BucketPacking.OffsetsAligned` | verl/verl/checkpoint_engine/nccl_checkpoint_engine.py:272-279 | offsets are multiples of the item size |
| `BucketPacking.SlicesDisjoint` | verl/verl/checkpoint_engine/nccl_checkpoint_engine.py:272-279 | two tensors of a bucket never overlap, also when a name is stored twice |
| `BucketPacking.ReadableExactly` | verl/verl/checkpoint_engine/nccl_checkpoint_engine.py:272-277 | a bucket reads back as packed exactly when no name occurs twice in it; otherwise fewer tensors come out |
| `BucketPacking.ReadableIsLast` | verl/verl/checkpoint_engine/nccl_checkpoint_engine.py:272-277 | what is read from a bucket under a name is the last weight packed under it |
| `BucketPacking.StreamSurvives` | verl/verl/checkpoint_engine/nccl_checkpoint_engine.py:272-277 | receivers get the stream back if and only if no bucket holds the same name twice |
| `BucketPacking.DistinctSurvives` | verl/verl/checkpoint_engine/nccl_checkpoint_engine.py:242-279 | a stream of distinct names is always delivered unchanged |
| `BucketPacking.RepeatedName` | verl/verl/checkpoint_engine/nccl_checkpoint_engine.py:272-277 | two one-byte weights of one name in a two-byte bucket: only the second comes out |
| `Greedy.CutMinimal` | verl/verl/checkpoint_engine/nccl_checkpoint_engine.py:247-266 | extending a piece while the result is acceptable is minimal among all in-order cuttings, for any condition inherited by consecutive parts |
| `PipelineShards.GetDynamicPipelineShards` | verl/verl/model_merger/megatron_model_merger.py:57-98 | the outcome for every pair of integers: which error, or which list; from three ranks on the list is the one whose middle size is the rounded-up average, and there is one exactly when that size leaves two layers for the ends |
| `PipelineShards.SortedHead` | verl/verl/model_merger/megatron_model_merger.py:81-96 | the head of the sorted search is the accepted strategy with the least middle size, which is the rounded-up average |
| `PipelineShards.ShardsOptimal` | verl/verl/model_merger/megatron_model_merger.py:64-98 | a returned list has one positive entry per rank, sums to the layers, and any other list of that length and sum has an entry at least as large as its largest |
| `PipelineShards.ShardsShape` | verl/verl/model_merger/megatron_model_merger.py:84-96 | from three ranks on every inner rank gets the rounded-up average and the two ends share the rest evenly, an odd layer going to the last rank |
| `PipelineShards.FiveOnFour` | verl/verl/model_merger/megatron_model_merger.py:96 | five layers on four ranks have no strategy, so taking the first one raises; with fewer layers or fewer ranks there always is one |
| `LayerPartition.LayersPartitioned` | verl/scripts/converter_hf_to_mcore.py:547-550 | for any list of sizes every layer number below the total is in one rank's range and in no other |
| `StateDictMerge.MergeStateDicts` | verl/verl/model_merger/megatron_model_merger.py:358-420 | the loops over a rank's chunks fail exactly when some entry cannot be converted, and otherwise give the renumbered dictionary, with fused tensors in pieces and without extra state and a tied output layer |
| `StateDictMerge.MergesExactly` | verl/verl/model_merger/megatron_model_merger.py:369-412 | the conversion succeeds exactly when no key is refused, every fused QKV tensor has a multiple of (query heads + 2 key-value heads) rows and every fused MLP tensor at least two |
| `MergedEntries.QkvLands` | verl/verl/model_merger/megatron_model_merger.py:405-408 | an attention tensor that packs q, k and v leaves exactly q, k and v under the query, key and value keys of its global layer |
| `MergedEntries.GateUpLands` | verl/verl/model_merger/megatron_model_merger.py:409-412 | a tensor that is gate over up leaves gate under the gate key and up under the up key of its global layer |
| `MergedEntries.WholeLands` | verl/verl/model_merger/megatron_model_merger.py:403-404 | a tensor that is not fused is found unchanged under its own key, of its global layer or outside the layers |
| `MergedEntries.OutputLands` | verl/verl/model_merger/megatron_model_merger.py:372-374 | an output layer that is not tied is found unchanged under its own key |
| `MergedEntries.KeysExactly` | verl/verl/model_merger/megatron_model_merger.py:369-412 | the dictionary has these keys and no others: extra state and a tied output layer leave none |
| `StateDictMerge.LocalsUnique` | verl/verl/model_merger/megatron_model_merger.py:369-412 | distinct parameters of a chunk never end up under the same key, whatever is skipped or split |
| `StateDictMerge.RankFillsRange` | verl/verl/model_merger/megatron_model_merger.py:358-420 | if a rank's chunks hold its share of layers, the merged dictionary has a key of layer g exactly when g is in the rank's range |
| `StateDictMerge.RanksShareNoLayer` | verl/verl/model_merger/megatron_model_merger.py:361-363 | no layer key is in the merged dictionaries of two ranks |
| `LayerNumbers.AdvancesByLayers` | verl/verl/model_merger/megatron_model_merger.py:366-382 | the numbering advances by a chunk's layers if and only if the chunk has any |
| `LayerNumbers.LayerlessChunk` | verl/verl/model_merger/megatron_model_merger.py:418 | a chunk with one parameter outside the layers moves the next chunk's first layer to 1 |
| `LayerNumbers.ChunksFillRange` | verl/verl/model_merger/megatron_model_merger.py:366-418 | the layer numbers among the keys of the merged dictionary are exactly those of the rank's range |
| `LayerNumbers.NothingOverwritten` | verl/verl/model_merger/megatron_model_merger.py:379-385 | every layer parameter of every chunk ends up under its global number with its own tensor |
| `Numpy.ArraySplitFlattens` | verl/verl/model_merger/megatron_model_merger.py:439-445 | the key pieces hold the keys in order, once |
| `Numpy.PieceSizes` | verl/verl/model_merger/megatron_model_merger.py:440 | the pieces differ by at most one key, the larger ones first |
| `LayerPartition.FilesCovered` | verl/verl/model_merger/megatron_model_merger.py:429-453 | the file numbers of all ranks are exactly those below saves per layer times layers |
| `LayerPartition.FilesOnce` | verl/verl/model_merger/megatron_model_merger.py:449-453 | no two pieces of any ranks share a file |
| `WeightIndex.SaveIndex` | verl/verl/model_merger/megatron_model_merger.py:435-457 | every key of a rank is listed under the file of the one piece that holds it, and nothing else is listed; the keys go in order over one file per layer below 30 layers and two from 30 on, none left without a key if there are enough |
| `WeightIndex.GatherIndexes` | verl/verl/model_merger/megatron_model_merger.py:463-465 | the nested comprehension gathers all ranks' entries, later ranks winning |
| `WeightIndex.GatheredKeeps` | verl/verl/model_merger/megatron_model_merger.py:465 | a key listed by several ranks gets the file of the last of them |
| `WeightIndex.LayerKeyListedOnce` | verl/verl/model_merger/megatron_model_merger.py:449-465 | the gathered index lists a layer key under the file of the one piece of the one rank that holds it |
| `WeightIndex.IndexHasAllLayers` | verl/verl/model_merger/megatron_model_merger.py:428-465 | the gathered index has entries of layer g exactly when g is a layer of the model |
| `QkvLayout.SplitTensors` | verl/verl/model_merger/megatron_model_merger.py:330-354 | the list-building loop computes the split function, errors included |
| `QkvLayout.QkvRoundTrip` | verl/scripts/converter_hf_to_mcore.py:155-160 | splitting the group-interleaved rows gives back q, k and v, for all head counts with kv heads dividing heads and any head size |
| `QkvLayout.PackedRow` | verl/scripts/converter_hf_to_mcore.py:155-160 | where every row of the packed tensor comes from: group by group, its queries, its keys, its values |
| `QkvLayout.SplitsExactly` | verl/verl/model_merger/megatron_model_merger.py:330-354 | a QKV tensor can be split if and only if the key-value heads divide the heads and heads + 2 key-value heads divide its rows |
| `QkvLayout.PackUndoesSplit` | verl/verl/model_merger/megatron_model_merger.py:330-354 | conversely to the round trip, packing what any tensor was split into gives the tensor back |
| `QkvLayout.MergeAcrossTp` | verl/scripts/legacy_model_merger.py:530-558 | the nested loops over shards and chunks compute the merge function, errors included |
| `QkvLayout.TpMergeIsWholeSplit` | verl/scripts/legacy_model_merger.py:530-558 | merging equal contiguous shards is splitting their concatenation, when the shard count divides the kv heads |
| `QkvLayout.TpRoundTrip` | verl/scripts/legacy_model_merger.py:530-558 | sharding the converter's tensor and merging restores the three projections |
| `GateUp.MergeGateUp` | verl/scripts/legacy_model_merger.py:519-529 | the loop over the shards computes the concatenated halves, errors included |
| `GateUp.HalveUndoesConcat` | verl/scripts/converter_hf_to_mcore.py:188 | chunk(2) undoes the converter's gate/up concatenation |
| `GateUp.HalvesExactly` | verl/verl/model_merger/megatron_model_merger.py:320-329 | a tensor can be halved exactly when it has two rows; the parts are its rows in order and an odd row goes to the gate |
| `GateUp.GateUpRoundTrip` | verl/scripts/legacy_model_merger.py:519-529 | merging per-rank [gate_i; up_i] shards restores the full gate and the full up projection |
| `MoeCheckpoint.Merge` | verl/scripts/veomni/moe_merge.py:88-110 | the stacking loops succeed exactly when every expert of every visited layer is there with equal shapes, and give the merged dictionary |
| `MoeCheckpoint.IndexStack` | verl/scripts/veomni/moe_merge.py:95-110 | indexing a stacked tensor gives back the tensor that was stacked, as row-major data |
| `MoeCheckpoint.StackedElement` | verl/scripts/veomni/moe_merge.py:95-110 | where a stack has each element of each tensor, row-major |
| `MoeCheckpoint.StackIndex` | verl/scripts/veomni/moe_split.py:78-83 | stacking all slices of a tensor gives the tensor back |
| `MoeSplit.Split` | verl/scripts/veomni/moe_split.py:73-83 | the unstacking loops succeed exactly when every stacked tensor has a slice per expert, and give the split dictionary |
| `MoeSplit.SplitUndoesMerge` | verl/scripts/veomni/moe_split.py:73-83 | split after merge is the original dictionary if and only if that held no stacked tensor in the visited layers, dense first layers included |
| `MoeSplit.MergeUndoesSplit` | verl/scripts/veomni/moe_merge.py:88-110 | merge after split is the original dictionary if and only if every visited place held a stacked tensor of just that many experts and no expert beside it, and no dense layer before them a stacked tensor |
| `MoeSplit.StackedBefore` | verl/scripts/veomni/moe_split.py:78-83 | a dense layer with a stacked tensor of its own: merging changes nothing, splitting takes it apart |
| `MoeSplit.MergeKeepsOthers` | verl/scripts/veomni/moe_merge.py:88-110 | the merge neither adds, removes nor changes any key other than the experts it stacks and the stacked keys |
| `MoeSplit.SplitKeepsOthers` | verl/scripts/veomni/moe_split.py:73-83 | the split neither adds, removes nor changes any key other than the stacked tensors and the experts it takes from them |
| `DataProto.ListOfDictToDictOfList` | verl/verl/protocol.py:201-210 | empty for no dictionaries; fails exactly when some dictionary has a key the first lacks, else lists every key's arrays in order |
| `DataProto.Concat` | verl/verl/protocol.py:927-972 | concatenates tensor and array columns, and raises, as the concatenation function says |
| `DataProto.ConcatExactly` | verl/verl/protocol.py:927-972 | concatenation succeeds exactly when no container has an array the first lacks, the batches have the same columns and every array as many entries in all as the batches have rows; each column then holds the entries of all containers in order |
| `DataProto.ConcatSnoc` | verl/verl/protocol.py:927-972 | one more container of the same schema adds its rows at the end of every column, tensor and array columns alike |
| `DataProto.SlicesRestore` | verl/verl/protocol.py:686-731 | the slices between any cut points concatenate to the container |
| `ProtoChunks.PadToDivisor` | verl/verl/protocol.py:73-98 | the loop ends with the least padding that makes the length divisible, and row i of the result is row i mod n of the original in every column |
| `ProtoChunks.UnpadRestores` | verl/verl/protocol.py:101-105 | unpadding what was padded gives the container back |
| `ProtoChunks.Chunk` | verl/verl/protocol.py:875-914 | when it returns and when it raises, with padding enabled or not, for empty containers too; the chunks cut all columns at the same rows |
| `ProtoChunks.ChunkableExactly` | verl/verl/protocol.py:884-905 | a batch of n rows is cut into the chunks asked for if and only if they divide n or padding is enabled, and all chunks but one, at the rounded-up size, have fewer than n rows |
| `ProtoChunks.ChunksHaveRows` | verl/verl/protocol.py:889-914 | how many rows each chunk has: with a batch the rounded-up size and the rest last, without one sizes that differ by at most one |
| `ProtoChunks.FiveRowsInFour` | verl/verl/protocol.py:889-905 | five rows cannot be chunked into four even with padding enabled |
| `ProtoChunks.ChunksRestore` | verl/verl/protocol.py:875-914 | whenever chunk returns, concatenating its chunks gives the container back |
| `ProtoChunks.DividingChunks` | verl/verl/protocol.py:884-887 | a chunk count that divides a non-zero length always works and cuts equal chunks |
| `ProtoChunks.SplitRestores` | verl/verl/protocol.py:916-925 | a non-empty container is the concatenation of its split, for any split size; an empty one is not |
| `ProtoChunks.SplitRows` | verl/verl/protocol.py:916-925 | every piece of a split but the last has the size asked for, and the last has some rows |
| `ProtoChunks.Get` | verl/verl/protocol.py:1223-1239 | a future yields the concatenated outputs or the chunk its dispatch selects, and raises when these cannot be concatenated or chunked |
| `ProtoChunks.FuturesRestore` | verl/verl/protocol.py:1208-1239 | whenever what a future holds can be chunked, all its chunks can be fetched and together are what it holds |
| `DynamicBatching.CreateDynamicBatches` | scripts/eval/3_reproduce_hidden_states_extraction.py:229-255 | the loop computes the greedy cutting by quota and size, with its running total |
| `DynamicBatching.BatchesSound` | scripts/eval/3_reproduce_hidden_states_extraction.py:229-255 | the batches concatenate to the given order, none is empty, each is one sample or within size and quota, and then its token count is within the quota too |
| `DynamicBatching.BatchesGreedy` | scripts/eval/3_reproduce_hidden_states_extraction.py:244-250 | a batch is closed only when the next sample would break one of the limits |
| `DynamicBatching.BatchesMinimal` | scripts/eval/3_reproduce_hidden_states_extraction.py:244-250 | no in-order cutting into such batches has fewer |
| `DynamicBatching.SeqQuota` | scripts/eval/3_reproduce_hidden_states_extraction.py:223-227 | a sequence's quota is never below its length |
| `DynamicBatching.QuotaGrows` | scripts/eval/3_reproduce_hidden_states_extraction.py:223-227 | the quota is the length up to 4000 tokens, one and a half times the length at 8000, twice at 12000; it is strictly increasing, and from 4000 on so is the quota per token |
| `DynamicBatching.LastColumn` | scripts/eval/3_reproduce_hidden_states_extraction.py:299-323 | the position read for a sample holds its own last token, with mask 1, whatever the padding |
| `DynamicBatching.RowHoldsSample` | scripts/eval/3_reproduce_hidden_states_extraction.py:301-307 | a padded row is padding with mask 0 and then the sample with mask 1 |
| `DynamicBatching.StateOfSample` | scripts/eval/3_reproduce_hidden_states_extraction.py:319-323 | for a causal model that ignores masked cells, the state read for a sample is what the model makes of the sample alone, whatever shares its batch |
| `DynamicBatching.LastTokenStates` | scripts/eval/3_reproduce_hidden_states_extraction.py:319-323 | if states depend on their own cell only, slot i ends up with the state of sample i's last token, attended to |
| `DynamicBatching.ExtractHiddenStates` | scripts/eval/3_reproduce_hidden_states_extraction.py:279-328 | every sample is in one batch and its slot ends up holding the state its own batch gave it; fails exactly when a batch holds no token; without empty samples and for a causal model that ignores masked cells, slot i holds what the model makes of sample i alone |
| `Calibration.ComputeEce` | scripts/eval/metric_utils.py:44-66 | the loop over the bins computes the binned sum on the masked samples, None when there is none |
| `Calibration.ExactlyOneBin` | scripts/eval/metric_utils.py:57-60 | a confidence in [0, 1] is in exactly one bin |
| `Calibration.LastBinEnds` | scripts/eval/metric_utils.py:57-60 | of the confidences from 1 on exactly those below 1.000001 are in the last bin |
| `Calibration.SelectParts` | scripts/eval/metric_utils.py:44-53 | selecting by a mask is selecting in each part of the samples, in order |
| `Calibration.SelectsPositive` | scripts/eval/metric_utils.py:44-53 | a sample counts exactly when its mask entry is positive; without a mask all do |
| `Calibration.EceOfOneBin` | scripts/eval/metric_utils.py:54-66 | when all samples are in one bin, the ECE is the gap of their means |
| `Calibration.EceAddsUp` | scripts/eval/metric_utils.py:54-66 | two groups of samples that share no bin contribute to the ECE independently, weighted by their sizes |
| `Calibration.EceOfApart` | scripts/eval/metric_utils.py:54-66 | when no two samples share a bin, the ECE is the mean absolute error |
| `Calibration.EceBounds` | scripts/eval/metric_utils.py:54-66 | the gap of the means is at most the ECE, and the ECE at most the mean absolute error |
| `Calibration.EceRefines` | scripts/eval/metric_utils.py:54-66 | dividing every bin into k never lowers the ECE |
| `Calibration.EceSquaredBelowBrier` | scripts/eval/metric_utils.py:69-95 | under any mask both scores exist together and the squared ECE is at most the Brier score |
| `Calibration.BrierOfEqual` | scripts/eval/metric_utils.py:94-95 | samples of equal squared error have it as their score |
| `Calibration.BrierAddsUp` | scripts/eval/metric_utils.py:94-95 | the score of two groups is the mean of their scores weighted by their sizes |
| `ZoomBox.Validate` | verl/verl/tools/image_zoom_in_tool.py:181-203 | holds exactly for boxes with an area and an aspect ratio of at most 100 either way |
| `ZoomBox.MaybeResizeBbox` | verl/verl/tools/image_zoom_in_tool.py:205-297 | the step-by-step code returns the box that one factor (the least of three limits) and one clamped placement describe, or None in the described cases |
| `ZoomBox.TargetSize` | verl/verl/tools/image_zoom_in_tool.py:242-257 | scaling up and then down twice is scaling by the least of the three factors, and fits the image |
| `ZoomBox.ScaleLimits` | verl/verl/tools/image_zoom_in_tool.py:242-257 | the enlarged sides are at least the requested ones, fit the image, and stop at the first limit met |
| `ZoomBox.ShapeKept` | verl/verl/tools/image_zoom_in_tool.py:248-257 | the enlarged box has the aspect ratio of the request |
| `ZoomBox.ReturnedBox` | verl/verl/tools/image_zoom_in_tool.py:205-297 | any returned box contains the clamped request, lies in the image, has floored sides of at least 28 and an aspect ratio of at most 100 |
| `ZoomBox.ClampMeets` | verl/verl/tools/image_zoom_in_tool.py:220-223 | clamping keeps exactly what lies in both the request and the image |
| `ZoomBox.GoodIsKept` | verl/verl/tools/image_zoom_in_tool.py:220-233 | a well-proportioned request inside the image, of at least 28 on both sides, is returned as it is |
| `ZoomBox.LargeIsKept` | verl/verl/tools/image_zoom_in_tool.py:223-233 | a valid request of at least 28 on both sides is returned clamped and is never refused for its floored sides |
| `ZoomBox.SmallIsEnlarged` | verl/verl/tools/image_zoom_in_tool.py:235-279 | a small request that is served comes back as the smallest pixel box around its enlargement: same shape, same centre unless a border of the image stops it, grown until the short side has 28 or a side of the image is reached |
| `ZoomBox.SmallIsServed` | verl/verl/tools/image_zoom_in_tool.py:232-297 | a small request whose enlarged box fits the image is never refused when its aspect ratio is at most 99 |
| `ZoomBox.SmallRefusedExactly` | verl/verl/tools/image_zoom_in_tool.py:232-297 | a small request is refused if and only if its enlarged box covers too few pixels along one axis, or over a hundred times as many along one as along the other |
| `ZoomBox.RefusedForShape` | verl/verl/tools/image_zoom_in_tool.py:242-297 | when the box fits at full scale, only that proportion can refuse it |
| `ZoomBox.NarrowImageRefuses` | verl/verl/tools/image_zoom_in_tool.py:287-295 | an image with a side below 28 serves no request |
| `BoxedParser.LastBoxedOnlyString` | scripts/eval/math_dapo.py:61-88 | the scanning loop finds the brace at which the last box closes |
| `BoxedParser.BoxContent` | scripts/eval/math_dapo.py:61-103 | the balanced content of the last box comes out, whatever surrounds it |
| `BoxedParser.OnlyBoxContent` | scripts/eval/math_dapo.py:61-103 | conversely whatever comes out is the balanced content of the last box |
| `BoxedParser.FoundIsBoxed` | scripts/eval/math_dapo.py:91-103 | the assertions of remove_boxed never fail on what last_boxed_only_string returns |
| `BoxedParser.ExtractBoxedContent` | scripts/eval/2_budget_eval.py:227-258 | the loop and its fallback terminators compute the extraction function |
| `BoxedParser.StripsEnds` | scripts/eval/2_budget_eval.py:254-257 | stripping takes white space off both ends, nothing else, and leaves none there |
| `BoxedParser.MatchersAgree` | scripts/eval/2_budget_eval.py:227-258 | on the last box of a string, what remove_boxed takes out of last_boxed_only_string's answer, stripped, is what the second matcher returns for the text after its opening; on the empty box the second returns the text from the brace on |
| `BoxedParser.EmptyBox` | scripts/eval/2_budget_eval.py:245-258 | the empty box followed by a letter: nothing for the first matcher, the brace and the letter for the second |
| `BoxedParser.ClosesUnlessNever` | scripts/eval/2_budget_eval.py:235-243 | the scan finds no closing brace exactly when no brace closes the box |
| `BoxedParser.MatchersOnOpenBox` | scripts/eval/2_budget_eval.py:245-258 | on a last box that is never closed the first matcher finds nothing and the second uses its fallback terminators |

## Left out

- `verl/verl/checkpoint_engine/hccl_checkpoint_engine.py`: the same algorithm as the NCCL engine on another device.
- Sockets, Ray, CUDA and NPU synchronisation, memory registration and RDMA: what remains of them is a message appended to a queue, a read that moves bytes in any order and then notifies its source, and a broadcast.
- The rebinding of `remote_name` in `get_notification`: on the chain only the next agent notifies, so each rank has one notification queue.
- The NCCL collective: rank 0's call returns once every receiver holds all bytes; a library that returns earlier after buffering the data is not modelled. Published metadata is assumed to reach every receiver in order.
- One transfer per run: mailboxes and buffers start empty; trainers with rank -1, which only consume the weights, are not states of the systems.
- A consumer that keeps a yielded tensor after asking for the next bucket sees the buffer change under it; yielded tensors are values here.
- dtype casts and the weights' element types: tensors are opaque bytes with one common item size.
- Floating-point rounding: `Calibration`, `ZoomBox` and `DynamicBatching` compute over the reals.
- `torch.chunk`, `torch.cat`, `torch.stack`, `TensorDict.chunk` and `np.array_split` have their documented meaning; into how many pieces `TensorDict.chunk` cuts an empty batch is a parameter.
- `DataProto` meta_info and its metrics, reordering, repeating and unfolding; `DataProtoFuture` over TensorDicts.
- The order inside `sorted` beyond its first element in `get_dynamic_pipeline_shards`; the sorted order of `extract_hidden_states_dynamic` is a parameter, of which only "each sample once" is used.
- The model's forward pass is a parameter that returns one hidden state per input cell.
- Parameter-name mapping and LoRA: state-dictionary keys carry the mapped name, and their layer, expert and piece as fields. Where the text of a key has the expert's number is not part of this model.
- With one process, saving goes through the base class and writes no index of this kind.
- Expert checkpoints whose configuration counts experts under another attribute: the merge accepts them and the split does not read that attribute.
- White space of `strip()` is a parameter; answer normalisation, symbolic grading and evaluation are not modelled.
- `_compute_sara_risk`: one expression.
- Trainers, tokenizers, probes, data preprocessing, the viewer and configuration.

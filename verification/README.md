# Verified models of the evaluation, reward, checkpoint and batch code

Each Dafny module models one component of the repository and proves what that component is for.

- **Attention masks** (`AttentionFlow`, `AttentionMasks`, `TokenRegions`, `DivergenceMetrics`). A transformer is an unknown
  function per layer and position from the old state and the map of old states at the allowed keys. Claims about masks hold
  for every such function, every depth and every state type; "can depend" is shown by a concrete model. Region masks come
  from the delimiter search, and are then cut and narrowed in place.
- **Checkpoints** (`Sequences`, `Resharding`, `TensorMerge`, `LayerMerge`, `CheckpointRoundTrip`, `HfToMcore`). Sharding over
  tensor, pipeline and virtual-pipeline ranks, the merger's loops, and when one undoes the other; and the FSDP merger over
  whole dictionaries (`FsdpMerge`).
- **Batches** (`Tables`, `TableConcat`, `Dispatch`, `ColumnChunks`, `BatchFolding`, `TableOps`, `DataProtos`,
  `WholeRows`, `TornRows`, `SharedBatches`). Parallel tensor and object columns; every row operation, computed per library
  as the source does, is shown to be one selection of row numbers. From that follow dispatch transparency and the alignment
  of every batch after any sequence of operations. The class `DataProto` updates containers that several objects may share.
  `WholeRows` says exactly when a union keeps rows whole, `TornRows` has the runs in which it does not, and `SharedBatches`
  traces rows through any sequence of calls.
- **Lookup-table analyser** (`PythonAst`, `DerivedNames`, `LookupTable`). The taint fixpoint and the chain counter over a
  small syntax tree, and how the third version refines the second.
- **Container pool** (`PoolNames`, `ContainerPool`). A transition system of any number of calls, one shared-state access per
  step, with subprocesses that may succeed, fail, raise, or raise after having made the container, and with other workers
  making containers at any time.
- **Resumable scoring** (`ResumableScoring`). Attempts that may be killed after any step and resume from the file.

`Options` and `Arithmetic` hold shared helpers. `dafny verify dfyconfig.toml` checks the whole project.

## Where the code does not do what it says

- `train/verl/utils/cot_masking_origin.py:7` says that a response without delimiter is all chain of thought; the code
  (lines 166-177) makes it all answer, as the function's own docstring says. The model follows the code.
- The delimiter search (`train/verl/utils/cot_masking_origin.py:133-149`) also finds a delimiter quoted in the prompt; then
  prompt and answer overlap (`RegionsDisjointIff`).
- Rows are padded on the right and the response is counted from the padded end, so padding moves the prompt mask
  (`PromptMaskIsPromptIffUnpadded`).
- Truncation can leave no answer token (`TruncationKeepsAnswerIff`); via_cot then falls back to the chain of thought
  (`CutPreservesStatesIff`).
- `eval/evaluate_hacking_ratio.py:378` says that preemption loses fewer than save_freq samples; it can lose exactly
  save_freq (`LossIsFreqIff`).
- Samples without a uid all get the uid "" (`eval/evaluate_hacking_ratio.py:76`); a resumed evaluation then drops samples
  (`ResumingCountsAllIff`).
- `train/verl/protocol.py:1030` says that without split keys all keys are repeated; with object columns the code raises
  instead (`UnfoldOkIff`).
- `union` (`train/verl/protocol.py:108-122`) compares the number of rows and the shared columns only. After a pop and a
  reorder the two parts unite without an error to rows that never were (`SuccessfulUnionTears`), exactly when the parts
  took different rows (`UnionKeepsRowsIff`); a uid in both parts prevents it (`UnionForcesSameRows`). A union that fails on
  the uid has already added its tensors (`FailingUnionTears`).
- Narrowing the prompt to the hint sentence leaves the format instructions behind it in no region
  (`eval/faithfulness_metrics_clean_qwen.py:1235-1278`), so the hint can reach the answer past the chain of thought
  (`HintLeaksPastCotIff`).
- `fold_batch_dim` regroups the object columns of its own argument (`FoldSparesItsArgumentIff`).
- Whether a container exists is decided by a substring test, so "...-10" vouches for "...-1" in pools of more than ten
  containers (`CreatedNamesExistIff`), and in general an index is unsafe when its tenfold is in the pool (`SafeIndexIff`);
  the default is 64, while comments speak of 32.
- `get_dynamic_pipeline_shards` indexes an empty list when the layers per rank, rounded up, leave the first and last rank
  fewer than two layers together (`SomeStrategyIff`): five layers on four ranks, for instance.
- A file that could not be read once (`eval/evaluate_hacking_ratio.py:293`, "starting fresh") is overwritten by the next
  save, and samples that were saved before can be lost (`FailedReadLosesIff`).
- Automatic padding pads the caller's own batch and does not undo it (`train/verl/single_controller/base/decorator.py:124`),
  so a second call on the same batch returns the outputs of the pad rows too (`SecondCallIsTransparentIff`, `CallTwice`).
- The FSDP merger says that it infers a mesh over all ranks when the first tensor is plain
  (`train/scripts/legacy_model_merger.py:274`); the mesh it makes has one rank, so it reads one file, and plain copies are
  stacked when it reads several (`FsdpMergeRestoresModelIff`).

## Model

| member | source | states |
|---|---|---|
| `AttentionFlow.SealedRunsAgree` | eval/faithfulness_metrics_clean.py:213-254 | Two runs of any model, under masks that agree on a set of queries and let it see only itself and a border, give equal states on that set at every depth whenever embeddings agree inside it and border states agree at every layer |
| `AttentionFlow.NoFlowNoInfluence` | eval/faithfulness_metrics_clean.py:213-254 | If no differing embedding can flow to q along allowed edges within the depth, no model can tell the two inputs apart at q |
| `AttentionFlow.SpreadingComputesFlows` | eval/faithfulness_metrics_clean.py:213-254 | One concrete model computes exactly the flow relation of a mask, so allowed flow is real influence |
| `AttentionFlow.DependsIffFlows` | eval/faithfulness_metrics_clean.py:213-254 | Some model lets q depend on a set of positions if and only if one of them flows to q within the depth |
| `AttentionMasks.CotMediatesAnswer` | eval/faithfulness_metrics_clean.py:77-113 | Under via_cot the prompt reaches the answer only through positions in neither region: equal answer embeddings and equal such states at all layers force equal answer states, for every model, depth and region masks (fallback included) |
| `AttentionMasks.AnswerDependsOnPromptIffBridged` | eval/faithfulness_metrics_clean.py:100-113 | Exact: an answer state can depend on prompt embeddings if and only if there are two layers and a position outside both regions between a prompt token and the answer token |
| `AttentionMasks.AnswerDependsPastCotIff` | eval/faithfulness_metrics_clean.py:77-113 | Exact, with the chain of thought blocked as keys too: an answer token outside the prompt can depend on the prompt past the chain of thought if and only if there are two layers and a position outside prompt, chain of thought and answer between a prompt token and the answer token |
| `AttentionMasks.UnbridgedPromptIsSealed` | eval/faithfulness_metrics_clean.py:100-113 | Without such a position no prompt token flows to the answer token, nor to anything it can see, at any depth |
| `AttentionMasks.NoPromptDefinitionsAgree` | eval/faithfulness_metrics_pytorch.py:324-330 | Both definitions of no_prompt give equal states at every non-prompt position at every depth, and those states ignore prompt embeddings |
| `AttentionMasks.NoCotDefinitionsAgree` | eval/faithfulness_metrics_pytorch.py:332-338 | The same for no_cot and the chain of thought |
| `AttentionMasks.DefinitionsShareRow` | eval/faithfulness_metrics_pytorch.py:316-338 | Exactly which mask rows the two definitions share, for no_prompt, no_cot and via_cot |
| `AttentionMasks.ViaCotMatchesFullBeforeAnswer` | eval/faithfulness_metrics_clean.py:100-113 | via_cot and full give equal states at every depth before the first effective-answer token |
| `AttentionMasks.CutPreservesStatesIff` | eval/faithfulness_metrics_clean.py:1222-1236 | Cutting the answer mask leaves the states before the cut unchanged for all models, depths and masks, except exactly for via_cot when the cut removes the last answer token and the fallback starts to block a chain-of-thought token that follows a prompt token |
| `AttentionMasks.CutPreservesStates` | eval/faithfulness_metrics_clean.py:1222-1236 | The preserving direction for every state type |
| `DivergenceMetrics.FirstTermVanishes` | eval/faithfulness_metrics_clean.py:285-298 | Where the states before a token agree, marking that token as answer adds nothing to the next-token-shifted sum |
| `DivergenceMetrics.DirectEffectSkipsFirstToken` | eval/faithfulness_metrics_clean.py:443-478 | The direct-effect sum is the same with and without the first answer token, for every model, depth and divergence that is zero on equal states |
| `DivergenceMetrics.OneTokenAnswerHasNoDirectEffect` | eval/faithfulness_metrics_clean.py:443-478 | A one-token answer scores exactly zero direct effect, whatever the model |
| `DivergenceMetrics.CutCommutesWithModel` | eval/faithfulness_metrics_clean.py:257-300 | Cutting the answer before or after the model runs gives the same metric over the kept tokens, for every pair of masks and unconditionally: where states do change, both metrics are NaN |
| `TokenRegions.FindFirstSubsequence` | eval/faithfulness_metrics_clean.py:1058-1069 | Returns the first match at or after the start, or none when no position matches |
| `TokenRegions.FindLastSubsequence` | train/verl/utils/cot_masking_origin.py:20-47 | Returns the last match, or -1 when there is none (also for a pattern longer than the tokens) |
| `TokenRegions.FindRegions` | train/verl/utils/cot_masking_origin.py:124-179 | The three region masks are those of the last delimiter anywhere in the row; no match makes the whole response the answer |
| `TokenRegions.RegionsDisjointIff` | train/verl/utils/cot_masking_origin.py:124-179 | Prompt and answer masks are disjoint exactly when the last delimiter does not end inside the prompt short of its last token |
| `TokenRegions.ResponseDependsOnPromptIff` | eval/faithfulness_metrics_clean.py:1206-1217 | End to end: a response token after the delimiter can depend on the prompt if and only if there are two layers, a non-empty prompt and a delimiter inside the response; without a delimiter it is cut off altogether |
| `TokenRegions.PromptMaskIsPromptIffUnpadded` | eval/faithfulness_metrics_clean.py:1148-1217 | The prompt mask marks exactly the prompt if and only if the row is not padded, because the response is counted back from the padded end |
| `TokenRegions.TruncateAtAssert` | eval/faithfulness_metrics_clean.py:1222-1236 | In place on all rows: each row is cleared from the first match at or after its first answer token, other rows and unmatched rows stay, and the count is the number of rows cut |
| `TokenRegions.TruncationKeepsAnswerIff` | eval/faithfulness_metrics_clean.py:1227-1235 | Some answer token survives exactly when the pattern does not match at the first answer token |
| `TokenRegions.NarrowToHint` | eval/faithfulness_metrics_clean_qwen.py:1239-1278 | In place on all rows: each row becomes its narrowed form, and the count is the number of rows whose hint was found |
| `TokenRegions.NarrowedRowIsHintSentence` | eval/faithfulness_metrics_clean_qwen.py:1250-1278 | A narrowed row is the prompt mask cut to one interval from the first hint match; no separator match starts inside it past the prefix; it ends at a separator or with the prompt |
| `TokenRegions.NarrowingOpensEdges` | eval/faithfulness_metrics_clean_qwen.py:100-140 | Narrowing the prompt mask never blocks an edge that was open, under any mask |
| `TokenRegions.HintLeaksPastCotIff` | eval/faithfulness_metrics_clean_qwen.py:1235-1278 | End to end: after narrowing, an answer token behind a delimiter in the response can depend on the hint past the chain of thought if and only if there are two layers and the hint sentence is found, not empty, and ends before the prompt does |
| `Resharding.MergeGroups` | train/scripts/legacy_model_merger.py:540-558 | The nested loops over shards and groups return exactly the q, k and v slices of all groups in order |
| `Resharding.ShapeIsRecovered` | train/scripts/legacy_model_merger.py:535-549 | The row counts the merger derives from a shard's size are those it was packed with |
| `Resharding.UnpackPack` | train/scripts/converter_hf_to_mcore.py:155-161 | Unpacking the group-interleaved rows gives back q, k and v |
| `Resharding.QkvRoundTrip` | train/scripts/legacy_model_merger.py:530-558 | Packing, cutting into tp equal shards and unpacking returns q, k, v for every group count, row counts and tp |
| `Resharding.PackShardAndMerge` | train/scripts/legacy_model_merger.py:530-558 | The converter's packing followed by the merger's own code is the identity on q, k, v, for every head count, head size and tp dividing the key-value heads, and never fails |
| `TensorMerge.MergeAcrossTp` | train/scripts/legacy_model_merger.py:511-565 | The dispatch on parameter names, in the source's order, merges each class as specified |
| `TensorMerge.MergeGateUp` | train/scripts/legacy_model_merger.py:519-529 | The loop fails exactly when some shard has a single row, and otherwise returns the joined first halves and the joined second halves, where an odd shard's first half takes the extra row |
| `TensorMerge.GateUpRoundTripIff` | train/scripts/legacy_model_merger.py:519-529 | Merging recovers gate and up if and only if on every rank the gate slice has as many rows as the up slice, or one more, and the rank holds more or fewer than one row |
| `TensorMerge.ColumnRoundTrip` | train/scripts/legacy_model_merger.py:561-565 | Cutting a matrix by columns and concatenating along dimension 1 is the identity |
| `TensorMerge.MergeUndoesSharding` | train/scripts/legacy_model_merger.py:511-565 | For every parameter class and admissible tp size, merging the shards gives the parameter back |
| `FsdpMerge.LoadShards` | train/scripts/legacy_model_merger.py:318-332 | Whatever order the loader threads finish in, the list holds every shard at its own rank |
| `FsdpMerge.MergeKey` | train/scripts/legacy_model_merger.py:338-377 | Gathering one key over the ranks fails exactly when a rank lacks it, the distributed pieces disagree on their placement or do not have exactly one, or that one cannot be merged; otherwise it yields the merge in rank order, and plain pieces are stacked |
| `FsdpMerge.LoadAndMerge` | train/scripts/legacy_model_merger.py:318-379 | Loading in any order and merging every key gives the dictionary of merged keys, or fails when some key does |
| `FsdpMerge.EvenShardsJoinBack` | train/scripts/legacy_model_merger.py:313-314 | Shards over any number of ranks, later ones shorter or empty, concatenate back |
| `FsdpMerge.ColumnShardsJoinBack` | train/scripts/legacy_model_merger.py:313-314 | Column shards over any number of ranks, also of unequal width, concatenate back along dimension 1 |
| `FsdpMerge.KeyRestoredIff` | train/scripts/legacy_model_merger.py:362-377 | One tensor comes back from the parts read exactly when all its row or column shards are read (or it has only one row or column), it is replicated as a distributed tensor, or it is a plain copy read once |
| `FsdpMerge.FsdpMergeRestoresModelIff` | train/scripts/legacy_model_merger.py:271-379 | The whole FSDP merge gives the model back exactly when every tensor survives the number of files read: a plain first tensor makes the merger read rank 0 alone, and plain copies read from several ranks are stacked |
| `LayerMerge.AddStage` | train/scripts/legacy_model_merger.py:618-652 | The key loop of a stage adds exactly its renumbered entries and reports its largest local layer number |
| `LayerMerge.MergeStateDicts` | train/scripts/legacy_model_merger.py:609-659 | The nested loops over virtual stages and pipeline ranks return the left-to-right merge of the renumbered, tensor-merged stages |
| `LayerMerge.OffsetAtLeastStart` | train/scripts/legacy_model_merger.py:617-657 | `layers_cum` never falls below the first layer of the stage, and equals it exactly when no earlier stage is empty |
| `LayerMerge.EmptyStageDisplacesLayers` | train/scripts/legacy_model_merger.py:655-657 | An empty stage before one with layers makes the merged dictionary differ from the model |
| `LayerMerge.CutThenMergeIsIdentityIff` | train/scripts/legacy_model_merger.py:609-659 | Cutting a model into stages and merging them is the identity if and only if no empty stage comes before one with layers |
| `CheckpointRoundTrip.StageIsRecovered` | train/scripts/legacy_model_merger.py:618-652 | Merging across tensor ranks turns the shards of a stage, whatever they hold under skipped names, into the stage of the unsharded model |
| `CheckpointRoundTrip.MergingAllShardsRestoresModelIff` | train/scripts/legacy_model_merger.py:609-659 | Whole checkpoint, with `extra_state` entries and tied output-layer copies in any shard: sharding over pipeline, virtual-pipeline and tensor ranks followed by the merge gives back all entries that are not skipped if and only if no empty stage comes before one with layers, and the whole model exactly when besides nothing is skipped |
| `HfToMcore.DynamicPipelineShards` | train/verl/model_merger/megatron_model_merger.py:57-98 | Which error each input raises, the crash in closed form: three or more ranks p, enough layers, and `ceil(layers/p)*(p-2)+2 > layers`; otherwise positive sizes that sum to the layers, and for three or more ranks the most even strategy, the first of equals |
| `HfToMcore.SomeStrategyIff` | train/verl/model_merger/megatron_model_merger.py:81-96 | Some middle size is usable if and only if `ceil(layers/p)*(p-2)+2 <= layers` |
| `HfToMcore.BestMiddle` | train/verl/model_merger/megatron_model_merger.py:81-96 | The search returns the first of the most even feasible strategies, or none when there is none |
| `HfToMcore.FeasibleIff` | train/verl/model_merger/megatron_model_merger.py:83-87 | A middle size is usable exactly when the outer ranks are left between two layers and twice the middle size |
| `HfToMcore.FiveLayersOnFourRanksHaveNoStrategy` | train/verl/model_merger/megatron_model_merger.py:95-96 | Five layers on four ranks have no strategy, although there are more layers than ranks (the source then indexes an empty list) |
| `HfToMcore.EveryLayerHasOneRank` | train/scripts/converter_hf_to_mcore.py:548-550 | The ranges cut by the cumulative sizes give every layer to exactly one rank |
| `HfToMcore.DealtLayersMergeBack` | train/scripts/converter_hf_to_mcore.py:548-550 | Layers dealt out with positive sizes are merged back to the model they came from |
| `HfToMcore.CopyExperts` | train/scripts/converter_hf_to_mcore.py:391-406 | The copy loop writes exactly the rank's experts into its local slots and counts their elements |
| `HfToMcore.OwnerIsUnique` | train/scripts/converter_hf_to_mcore.py:179-192 | No expert lies in the ranges of two ranks |
| `HfToMcore.EveryExpertIsOwnedIff` | train/scripts/converter_hf_to_mcore.py:179-192 | Every expert is copied by some rank if and only if ep divides the expert count |
| `HfToMcore.NumelCheckPassesIff` | train/scripts/converter_hf_to_mcore.py:420-423 | With the correction `w2*3*E//ep*(ep-1)` the element-count assertion holds if and only if ep divides the expert count |
| `Tables.SelectTwice` | train/verl/protocol.py:646-684 | Selecting rows of a selection is one selection by the composed row numbers |
| `Tables.SliceAnyIsSelect` | train/verl/protocol.py:686-730 | A slice with any bounds and step, missing or negative, takes the same rows of every tensor and object column |
| `Tables.StridedAt` | train/verl/protocol.py:718-730 | Row i of a strided slice is row lo + i * step, for exactly the rows before the end bound |
| `Tables.RepeatedRowAt` | train/verl/protocol.py:1065-1111 | Row i of the input fills the rows from the sum of the counts before it |
| `Tables.SampleLevelRepeatIsSelect` | train/verl/protocol.py:1065-1111 | Per-row repetition takes the same rows of every column |
| `Tables.TileIsPick` | train/verl/protocol.py:1000-1018 | The tensor tiling (expand and flatten) and the array tiling (index modulo length) agree and pick by tiled row numbers |
| `Tables.RepeatIsSelect` | train/verl/protocol.py:982-1024 | Interleaved and tiled repetition take the same rows of every column |
| `Tables.InterleavedIsSampleLevel` | train/verl/protocol.py:982-1024 | Interleaved repetition by r, where entry k is row k divided by r, is per-row repetition with all counts r |
| `Tables.InterleavedRow` | train/verl/protocol.py:982-1024 | Interleaved with r copies: row i*r+j is row i, in every column |
| `Tables.TiledRow` | train/verl/protocol.py:982-1024 | Tiled over n rows: row j*n+i is row i, in every column |
| `TableConcat.ListOfDictToDictOfList` | train/verl/protocol.py:201-210 | Fails exactly when a dictionary has a key the first lacks; otherwise each key of the first lists the values of the dictionaries that have it, in order |
| `TableConcat.ConcatAll` | train/verl/protocol.py:927-972 | The method computes the specified concatenation or its error |
| `TableConcat.ConcatOkIff` | train/verl/protocol.py:927-972 | Concatenation succeeds exactly when the parts agree on tensor columns and on object columns, where a part without rows may lack object columns; the result is then aligned |
| `TableConcat.ConcatenatedRow` | train/verl/protocol.py:927-972 | Row i of part p is, in every column, row i after all rows of the earlier parts |
| `TableConcat.ConcatSelects` | train/verl/protocol.py:927-972 | Selections of one batch concatenate to the selection by the concatenated row numbers |
| `Dispatch.PadToDivisor` | train/verl/protocol.py:73-98 | The least pad that makes n divide the size; row i of the padded batch is row i mod len in every column; an empty batch is returned as it is |
| `Dispatch.TakeSlices` | train/verl/protocol.py:86-92 | The pad loop terminates and its slices join to the batch wrapped around itself |
| `Dispatch.ChunkIsSelect` | train/verl/protocol.py:875-914 | Chunk i takes the same rows of tensors (cut evenly) and objects (cut at running totals) |
| `Dispatch.ChunksJoinBack` | train/verl/protocol.py:875-914 | Concatenating the chunks gives the batch back |
| `Dispatch.SplitsJoinBack` | train/verl/protocol.py:916-925 | Splits are full except perhaps the last, never empty, and concatenate back |
| `Dispatch.WorkersCommuteWithChunks` | train/verl/protocol.py:875-914 | A row-wise worker's outputs on the n chunks are the n chunks of its output on the batch |
| `Dispatch.PaddingIsInvisible` | train/verl/protocol.py:73-105 | Any rows appended after the batch's own disappear without trace after chunking, row-wise work, concatenation and unpadding |
| `Dispatch.CallOnWorkers` | train/verl/trainer/main_generation.py:121-127 | Dispatch transparency: on a non-empty batch pad, chunk into n, row-wise work per chunk, concat and unpad equals one worker on the whole batch, for every n |
| `Dispatch.PaddingIsSelect` | train/verl/protocol.py:860-873 | Padding appends copies of the first or last whole row |
| `Dispatch.AutoPaddingIsTransparent` | train/verl/single_controller/base/decorator.py:106-131 | The automatic form (pad by the last row, then select the first rows of the result) is transparent for a batch it has not padded before |
| `Dispatch.SecondCallIsTransparentIff` | train/verl/single_controller/base/decorator.py:112-125 | The argument stays padded, so a second call returns what the first did if and only if n divides the batch's own size |
| `DataProtos.CallWithAutoPadding` | train/verl/single_controller/ray/base.py:48-65 | On the object: the result is what one worker computes on the batch as it was, and the batch keeps the pad rows |
| `DataProtos.CallTwice` | train/verl/single_controller/base/decorator.py:112-125 | Two calls on one batch agree exactly when n divides its size; otherwise the first result cannot be united with the batch it came from |
| `Dispatch.FuturesChainCalls` | train/verl/protocol.py:1203-1239 | The i-th chunked future of a call fetches the i-th chunk of that call's whole result, and the worker's own output when both calls use the same number of workers |
| `Dispatch.FetchedIff` | train/verl/protocol.py:1223-1239 | Fetching a future succeeds exactly when the outputs agree on their columns and, for a chunk, have rows that the number of chunks divides |
| `Dispatch.FetchedRow` | train/verl/protocol.py:1223-1239 | What is fetched has the rows of one chunk, or all; and row k of output p is in it, whole, at its place among all rows in order, counted from the first row of the chunk |
| `ColumnChunks.UnfoldOkIff` | train/verl/protocol.py:1026-1063 | Without split keys the operation fails exactly on batches with object columns; with them it succeeds exactly when n divides every split width; the result is aligned |
| `ColumnChunks.UnfoldedRow` | train/verl/protocol.py:1026-1063 | Row i*n+j holds piece j of row i in every split column and all of row i in every other column |
| `ColumnChunks.SubRowsJoinBack` | train/verl/protocol.py:1033-1040 | Joining the n sub-rows of a split column restores its row |
| `BatchFolding.FoldThenUnfold` | train/verl/protocol.py:213-249 | Unfolding a folded batch gives the batch back |
| `BatchFolding.UnfoldThenFold` | train/verl/protocol.py:213-249 | Folding an unfolded batch gives the groups back |
| `BatchFolding.FoldedRow` | train/verl/protocol.py:213-230 | Entry j of group i is row i*m+j in every column |
| `BatchFolding.FoldBatchDim` | train/verl/protocol.py:213-230 | In place: the folded batch shares the dictionary of object columns with its argument, whose tensors keep their rows; the argument stays aligned exactly when it had no object columns or the size does not change |
| `TableOps.RowsMoveTogether` | train/verl/protocol.py:646-1111 | Every row-moving operation is one selection of whole rows |
| `TableOps.ProgramsKeepRowsTogether` | train/verl/protocol.py:646-1111 | After any program of union, pop, rename, column selection, row selection, slice, padding, chunk, repeat and concat, all columns have one entry per row and all columns that were in the batch from start to end took the same original rows (columns united in on the way are not traced: see `WholeRows.UnionKeepsRowsIff`) |
| `TableOps.TraceKeepsTensor` | train/verl/protocol.py:646-809 | A tensor that no operation of the program drops or renames is traced to itself |
| `TableOps.TraceKeepsRows` | train/verl/protocol.py:646-1111 | Without concatenation every row of the result is traced to an original row |
| `DataProtos.AddColumns` | train/verl/protocol.py:108-122 | The union loop succeeds exactly when shared columns are equal; when it stops it has added only columns of the other batch and changed none |
| `DataProtos.RemoveKeys` | train/verl/protocol.py:732-763 | Popping succeeds exactly when every key is there and none is named twice, and then splits the columns |
| `DataProtos.DataProto.UnionWith` | train/verl/protocol.py:792-809 | In-place union on the shared containers: succeeds exactly when sizes match and no column conflicts; even a failing union keeps the batch aligned and every old column |
| `DataProtos.DataProto.PopKeys` | train/verl/protocol.py:732-763 | In-place pop: the popped and the remaining columns together are the old batch, and the popped ones make a batch on containers of its own when there is a tensor among them; a failing pop leaves every column it does not name |
| `DataProtos.DataProto.RenameTo` | train/verl/protocol.py:765-789 | In-place rename of one tensor; a missing key changes nothing |
| `DataProtos.DataProto.Reorder` | train/verl/protocol.py:974-980 | Reorders every column by the same indices, negative ones from the end, on new containers; out-of-range indices change nothing |
| `DataProtos.DataProto.PadRows` | train/verl/protocol.py:860-873 | Pads on new containers; a batch without rows cannot be padded and stays |
| `DataProtos.DataProto.SelectColumns` | train/verl/protocol.py:611-644 | A new object that shares every container it does not narrow; a missing tensor is an error, a missing object column is not |
| `DataProtos.DataProto.Build` | train/verl/protocol.py:646-1111 | A new batch on new containers by row selection, slice, padding, chunk or repetition, or an error exactly when the operation raises |
| `DataProtos.DataProto.ConcatWith` | train/verl/protocol.py:927-972 | A new batch on new containers that is the concatenation, or an error exactly when concatenation raises |
| `WholeRows.SameRowsUnite` | train/verl/protocol.py:792-809 | Two batches of one origin that took the same rows of it unite, when they unite, to whole rows of it |
| `WholeRows.UnionForcesSameRows` | train/verl/protocol.py:108-122 | The guard: when both batches carry a column whose original entries are distinct, such as a uid, their union succeeds only if both took the same rows |
| `WholeRows.UnionKeepsRowsIff` | train/verl/protocol.py:108-122 | Exact: batches that took rows A and B of one original unite to whole rows, for every original and every choice of columns, if and only if A and B are the same rows or differ in number |
| `TornRows.PopReorderUnite` | train/verl/protocol.py:732-809 | On the object: pop a tensor, reorder the rest and unite the two; all three succeed exactly when the key is there and the indices are as many as the rows and in range, and the tensor is left in the old order |
| `TornRows.ReunitedIsWholeIff` | train/verl/protocol.py:792-809 | With two tensors of distinct entries, the rows after that are whole if and only if the reordering changed nothing |
| `TornRows.SuccessfulUnionTears` | train/verl/protocol.py:792-809 | A run on two rows in which pop, reorder and union succeed and no row of the result is a row of the batch |
| `TornRows.ReplaceByReordered` | train/verl/protocol.py:792-809 | On the object: select a tensor, reorder the selection, pop the tensor and unite; the union fails exactly when the order changed a shared object column, but the reordered tensor is in the batch either way |
| `TornRows.FailingUnionTears` | train/verl/protocol.py:792-809 | A run in which the uid makes the union fail, and still no row is left whole |
| `SharedBatches.PerformOne` | train/verl/protocol.py:611-1111 | One call on one of many batches that share containers does what the operation does, keeps every container of every batch following the original, and keeps rows whole if its guard held: a successful union of batches that both carry the uid, a renaming that leaves the fixed names alone, a concatenation of tensors with fixed names, and any other call |
| `SharedBatches.PerformAll` | train/verl/protocol.py:611-1111 | Any sequence of union, pop, rename, reorder, padding, select, slice, chunk, repeat and concat on batches that share containers, also failing ones, keeps every container aligned and following the original; and all rows stay whole as long as the guard of every call holds, which it does throughout for calls that need none |
| `SharedBatches.PerformFromOne` | train/verl/protocol.py:611-1111 | Whatever is done to one batch and to the batches made from it, pops included, all stay aligned; and if the guards held and the uids are distinct, every row of each of them is, in all its columns at once, a whole row of the batch they come from |
| `DerivedNames.CollectDerived` | train/custom_code_reward_hacking_v3.py:275-304 | The nested fixpoint loop terminates and returns exactly the names reachable from `lines` through chains of assignments |
| `DerivedNames.DerivedIsClosed` | train/custom_code_reward_hacking_v3.py:275-304 | That set is closed under assignments that read `lines` or a member |
| `DerivedNames.DerivedIsLeast` | train/custom_code_reward_hacking_v3.py:275-304 | It lies inside every closed set |
| `DerivedNames.DerivedIgnoresStatementOrder` | train/custom_code_reward_hacking_v3.py:289-303 | Two bodies with the same assignments in any order and number derive the same names |
| `DerivedNames.CollectDirectlyDerived` | train/custom_code_reward_hacking_v2.py:265-290 | The one-pass loop of v2 returns the names bound by an assignment that reads `lines` |
| `DerivedNames.OnePassIsFixpointIffClosed` | train/custom_code_reward_hacking_v2.py:265-290 | One pass finds a subset of the fixpoint, and all of it exactly when it is already closed |
| `LookupTable.CountIfChain` | train/custom_code_reward_hacking_v3.py:345-366 | The chain loop counts the lookup branches, and lookups plus others add up to the branches plus a final else |
| `LookupTable.Classify` | train/custom_code_reward_hacking_v3.py:369-403 | The method computes the v3 verdict and the number of lookup branches |
| `LookupTable.ClassifyTopLevel` | train/custom_code_reward_hacking_v2.py:331-362 | The method computes the v2 verdict |
| `LookupTable.V3CountsAtLeastV2` | train/custom_code_reward_hacking_v3.py:389-398 | On every body v3 counts at least as many lookups as v2 |
| `LookupTable.V2DetectionImpliesV3` | train/custom_code_reward_hacking_v3.py:400-402 | Whatever v2 detects, v3 detects, at every threshold |
| `LookupTable.AllCountedAreLookupsIff` | train/custom_code_reward_hacking_v3.py:389-403 | Everything counted is a lookup exactly when every statement is a chain of lookup branches without a final else |
| `LookupTable.PureVerdictIff` | train/custom_code_reward_hacking_v3.py:400-403 | A pure verdict means enough branches and a body of lookup chains throughout, and then no name is derived |
| `LookupTable.V3KeepsPureVerdictIff` | train/custom_code_reward_hacking_v2.py:331-362 | v3 keeps a pure verdict of v2 exactly when no chain hides a final else or a non-lookup elif |
| `LookupTable.FinalElseIsInvisibleToV2` | train/custom_code_reward_hacking_v2.py:331-362 | Three lookups, the last with an else, are pure for v2 and hybrid for v3 |
| `PoolNames.NameInName` | train/custom_code_reward_udocker_persistent.py:83-83 | One pool name occurs in another exactly when its index is written as a prefix of the other's |
| `PoolNames.DecimalIsInjective` | train/custom_code_reward_udocker_persistent.py:83-83 | Different indexes have different names |
| `PoolNames.PrefixIsTenth` | train/custom_code_reward_udocker_persistent.py:83-83 | A number written as the beginning of another is that number or at most a tenth of it; zero begins nothing else |
| `PoolNames.ListedIndex` | train/custom_code_reward_udocker_persistent.py:117-131 | The listing vouches for an index that does not exist only through an existing one at least ten times as large |
| `ContainerPool.ReachableInv` | train/custom_code_reward_udocker_persistent.py:74-166 | Every reachable state, in every interleaving, owns the lock once, accounts for all permits, hands tickets out in order and vouches only for created containers |
| `ContainerPool.PoolIsSafe` | train/custom_code_reward_udocker_persistent.py:273-301 | At most POOL_SIZE executions at once, at most one call inside the lock, never both held by one call, and every running call has a created container |
| `ContainerPool.TicketsGoRound` | train/custom_code_reward_udocker_persistent.py:152-166 | No ticket is lost or doubled: in every POOL_SIZE consecutive tickets each container is given out exactly once |
| `ContainerPool.NeverStuck` | train/custom_code_reward_udocker_persistent.py:74-166 | While a call is unfinished some unfinished call can step, even if every subprocess fails: no deadlock |
| `ContainerPool.RunsAreBounded` | train/custom_code_reward_udocker_persistent.py:74-166 | Whatever the scheduler does, calls take at most 14 steps each, so with NeverStuck every run can only end with all calls finished |
| `ContainerPool.RunsOnlyAdd` | train/custom_code_reward_udocker_persistent.py:85-92 | Along every run the created set, the existing containers and the issued tickets only grow, so the check without the lock stays right |
| `ContainerPool.CreatedIsListed` | train/custom_code_reward_udocker_persistent.py:74-145 | In a pool of any size a created index exists, or an existing one at least ten times as large vouched for it |
| `ContainerPool.TenfoldIsMistaken` | train/custom_code_reward_udocker_persistent.py:111-131 | A concrete run for every index whose tenfold is in the pool: the index is recorded as created while only its tenfold exists |
| `ContainerPool.SafeIndexIff` | train/custom_code_reward_udocker_persistent.py:74-145 | An index is safe in every run if and only if it is zero or its tenfold is no index of the pool |
| `ContainerPool.CreatedNamesExistIff` | train/custom_code_reward_udocker_persistent.py:74-145 | Every created name is an existing container in every run if and only if POOL_SIZE is at most ten |
| `ContainerPool.RunningContainersExist` | train/custom_code_reward_udocker_persistent.py:273-301 | In a pool of any size every call with a safe index runs in an existing container |
| `ResumableScoring.Evaluate` | eval/evaluate_hacking_ratio.py:342-396 | The scoring loop, killed after any number of steps or not at all, leaves exactly the specified file, finishes exactly when its budget suffices, and has scored exactly the specified number of samples |
| `ResumableScoring.ByUidOfDistinct` | eval/evaluate_hacking_ratio.py:283-292 | Loading a file with distinct uids keeps it as it is, in order |
| `ResumableScoring.AttemptAppends` | eval/evaluate_hacking_ratio.py:346-388 | An attempt that can read the file only appends, keeps uids distinct, and what it added is not left to do |
| `ResumableScoring.FinishedCoversAll` | eval/evaluate_hacking_ratio.py:346-388 | A finished attempt leaves exactly the old uids and those of its samples |
| `ResumableScoring.NothingSavedIsLost` | eval/evaluate_hacking_ratio.py:283-388 | Over any sequence of attempts, each killed anywhere, every uid is saved at most once and no saved analysis is lost or changed |
| `ResumableScoring.EnoughAttemptsComplete` | eval/evaluate_hacking_ratio.py:342-396 | If each attempt gets one round done, one attempt per round leaves every sample in the file exactly once |
| `ResumableScoring.AttemptSavesIff` | eval/evaluate_hacking_ratio.py:380-388 | An unfinished attempt changes the file exactly when its budget exceeds save_freq steps; killed earlier each time, no progress is ever made |
| `ResumableScoring.LossIsFreqIff` | eval/evaluate_hacking_ratio.py:378-391 | A killed attempt loses at most save_freq scored samples, and exactly save_freq if and only if it is killed after the last score of a round and before its save |
| `ResumableScoring.FailedReadLosesIff` | eval/evaluate_hacking_ratio.py:283-295 | After a failed read some saved uid is lost if and only if the kill comes after the first save, before the end, and before the new scores reach every sample the file held |
| `ResumableScoring.FailedReadLosesEarlierScoresIff` | eval/evaluate_hacking_ratio.py:283-295 | For a file with the first k samples: a uid is lost if and only if `save_freq < budget <= steps for all samples` and the samples kept by then are fewer than k |
| `ResumableScoring.ResumingCountsAllIff` | eval/evaluate_hacking_ratio.py:346-388 | Resuming yields one analysis per sample, wherever it is killed and however often it saves, if and only if no two samples share a uid |

## Left out

- Numbers: states, divergences and tensor elements are abstract values; softmax, rounding, dtypes and the NaN of a query
  with no allowed key are not modelled, and a blocked key contributes nothing.
- The batch dimension of masks and metrics: one row at a time, except where the source loops over rows in place.
- JS divergence, entropy, negative log-likelihood and gradient metrics: they use the same shift and masks on other numbers.
- Tokenizers and chat templates: tokens and delimiters are sequences of integers.
- TensorMerge.MergeAcrossTp: takes shards whose sizes fit their class, because torch raises on others; MergeGateUp has the
  error for single rows.
- Resharding.PackShardAndMerge: rows are the unit, so the hidden dimension and the bias packing (the same code on one
  column) are one element type.
- LayerMerge.MergeStateDicts: parameter names are a layer number and a name; the string mapping from Megatron to Hugging
  Face names and the key check are not modelled, and q, k, v or gate, up stay one entry.
- HfToMcore.CopyExperts: experts of equal size; the other copies of a layer (attention, norms, shared experts) are
  straight-line and left out.
- FSDP with tensor parallelism, which the source refuses; conversion to bfloat16, LoRA adapters, uploads, configuration files.
- FsdpMerge.FsdpMergeRestoresModelIff: the first key in sorted order is a parameter, and with two mesh dimensions the files
  are those of the first data-parallel group, the only ones read.
- DataProto without a tensor batch, `meta_info` and its merging, metrics, devices, serialisation and the data loader.
- Element shapes: a column is a sequence of values, so mismatched trailing shapes are not modelled; NaN is equal to itself
  in both unions, although the tensor union would call it different.
- TableOps.ProgramsKeepRowsTogether: chunking an empty batch counts as failing, and so does one repetition count that does
  not fit a batch without any column, for which the source makes an empty batch.
- Dispatch.FetchedIff: chunking an empty result counts as failing.
- DataProtos.DataProto.RenameTo: one key; several keys at once are taken by tensordict as one nested key.
- DataProtos.DataProto.PopKeys: without a popped tensor it returns the columns alone, since the object made of them has no
  tensor batch.
- TableOps.ProgramsKeepRowsTogether: the columns of a batch that is united in are not traced; SharedBatches.PerformAll traces
  those of batches with the same origin.
- SharedBatches.PerformAll: concat takes two batches at a time.
- BatchFolding.FoldBatchDim: `unfold_batch_dim` also changes the batch dimensions of its argument's tensors, which is left
  out.
- Chunks of unequal size under automatic padding: `torch.chunk` may return fewer chunks than asked.
- Parsing Python and finding solve(): the analyser starts from the body of solve().
- `scripts/utils/patch_lookup_table_metrics.py`: its copy of the analyser is the one modelled, its statistics are sums.
- ContainerPool.CreatedNamesExistIff: a listing is taken to show exactly the names of existing pool containers; containers
  do not disappear while workers run; the tool reports a taken name only when it is taken.
- ContainerPool.NeverStuck: every subprocess ends, as its timeout makes it.
- Files, timeouts and program output of the executed code, and the reward values.
- ResumableScoring.Evaluate: writing the file is one atomic step (write and rename); loading the model and generating
  responses happen before the first step; the statistics stored beside the analyses are sums.
- Scripts, plotting, data conversion, training loop and viewers.

# MinVIS tracking core in Dafny

This project models the discrete bookkeeping of MinVIS's
`VideoMaskFormer_frame` model (`minvis/video_maskformer_model.py`). That is
the code that windows a video, runs the recurrent query tracker, and chains
per-frame instance queries into tracks. It also decodes the top-K video
predictions and filters the training targets. Tensors are Dafny sequences. A
per-frame tensor whose contents never matter is an abstract type (`State`,
`FrameEmbeds`, `MaskFeatures`, ...). Every learned layer, head and numeric
routine is a function-valued parameter or field about which nothing is
assumed, unless a validity predicate says otherwise.

The model has six modules:

- `WindowPartition`: the chunk arithmetic of `run_window_inference`. It
  covers the number of iterations, the chunk bounds, and how chunks cover the
  frames.
- `QueryTracker`: `QueryTracker.forward`, `prediction` and `_set_aux_loss`.
  The per-frame, per-layer recurrence is proved against a recursive trace
  (`Trace`). The module also proves that a run seeded with an exported
  embedding continues the single-pass recurrence.
- `WindowInference`: `run_window_inference` as a loop over chunks. Its
  contract says the windowed result equals one pass of the tracker over the
  whole clip.
- `TrackChaining`: `post_processing_` and `match_from_embds_`.
  - The history is seeded with three copies of frame 0.
  - Each later frame is matched against the last three history entries,
    weighted 0.1, 0.3 and 0.6.
  - One permutation reorders that frame's logits, masks, embeddings and
    scores.
  - The assignment solver is a parameter that returns a permutation.
- `InferenceVideo`: the top-K decoding of `inference_video`. The score rows
  have the width of the tracker's classifier (`class_num`, 25 by default),
  while the label table and the query recovery `k // C` use the dataset's
  `num_classes`. The model keeps the two counts apart. When they are equal,
  flat index `k` is label `k % C` of query `k / C`. The out-of-range cases of
  the tensor indexing are modelled as errors.
- `PrepareTargets`: `prepare_targets`. The padded mask buffer is written in
  place (`array4<bool>`), the id matrix is built frame by frame, and
  instances that are absent in every frame are filtered out.

`Wrappers` holds the small helpers the modules share: `Option`, `Result`,
Python's `s[-1]`, `s[:-1]` and clamped slicing, the axis swap, advanced
indexing `x[indices]` and per-entry maps.

Some inputs make the program raise. For some of these, the model puts the
condition in a `requires`. Examples:

- a non-empty clip, for `torch.cat` in `run_window_inference`;
- a positive window size, for its `//` and `%`;
- at least one frame in `QueryTracker.forward`, for `torch.stack`;
- at least one frame in `post_processing_`, for `pred_logits[0]`;
- masks that fit the padded buffer in `prepare_targets`.

Other inputs that raise are modelled as an `Err` result. Examples: a top-K
request larger than the score table, and a selected index past the label
table. For every other input, the model returns what the program returns,
given the values of the function parameters (heads, softmax, solver,
per-slot mean, ...). That includes empty lists for zero queries, and the
mismatched labels described under "## Findings".

## Model

| member | source | states |
|---|---|---|
| WindowPartition.NumChunks | minvis/video_maskformer_model.py:446-448 | the chunk count is the least `k` whose chunk start `k*w` reaches `n` |
| WindowPartition.ChunkStartIsProduct | minvis/video_maskformer_model.py:451 | chunk `i` starts at frame `i*w` |
| WindowPartition.NumChunksFormula | minvis/video_maskformer_model.py:446-448 | the number of iterations is `n / w`, plus one when `n % w != 0`, i.e. `ceil(n/w)` |
| WindowPartition.StartMono | minvis/video_maskformer_model.py:451-452 | chunk starts increase with the index, by at least `w` per chunk, so chunks are disjoint |
| WindowPartition.ChunkShape | minvis/video_maskformer_model.py:450-454 | every chunk is non-empty and inside the clip; every chunk but the last has exactly `w` frames and ends where the next starts; the last ends at `n` |
| WindowPartition.ChunkOfFrame | minvis/video_maskformer_model.py:450-454 | every frame `f < n` lies in chunk `f / w` and in no other chunk, so the chunks cover `0..n-1` exactly |
| QueryTracker.DecoderLayer | minvis/video_maskformer_model.py:641-657 | one decoder layer `j`: cross-attention to the frame's embeddings, then self-attention, then the feed-forward layer (the states LayerOutputs lists) |
| QueryTracker.InitialState | minvis/video_maskformer_model.py:628-631 | the entry state: the learned `query_feat` table without a seed, `frame_proj` of the seed with one (used by Forward and SeedState) |
| QueryTracker.NextState | minvis/video_maskformer_model.py:659-661 | the state handed to the next frame: `frame_proj` of the frame's last-layer output, detach being value identity (see StateAfterPrefix) |
| QueryTracker.StateAfter | minvis/video_maskformer_model.py:637-661 | the state after a run of frames: NextState folded over the frames (see TraceAppend and StateAfterPrefix) |
| QueryTracker.LayerOutputs | minvis/video_maskformer_model.py:640-658 | one output per layer; layer 0 reads the frame's entry state |
| QueryTracker.LayerOutputsChain | minvis/video_maskformer_model.py:640-658 | layer `j` is cross-attend, then self-attend, then FFN, applied to layer `j-1`'s output |
| QueryTracker.Trace | minvis/video_maskformer_model.py:637-664 | the kept grid has one row per frame and `numLayers` states per row |
| QueryTracker.ProjectMaskFeatures | minvis/video_maskformer_model.py:622-623 | the 1×1 projection is applied to each frame's mask features |
| QueryTracker.Prediction | minvis/video_maskformer_model.py:689-697 | entry `(l, t)` of the class and mask predictions is the head applied to layer `l`'s state of frame `t` (with frame `t`'s mask features) |
| QueryTracker.SetAuxLoss | minvis/video_maskformer_model.py:681-687 | the `zip` of the two lists without their last layer: `L-1` entries, entry `j` pairing layer `j`'s class and mask predictions |
| QueryTracker.LastLayer | minvis/video_maskformer_model.py:674 | `outputs[:, -1]`: each frame's last-layer state |
| QueryTracker.GridOutput | minvis/video_maskformer_model.py:666-675 | one logit, mask and embedding per frame, and `L-1` auxiliary outputs |
| QueryTracker.TrackerOutput | minvis/video_maskformer_model.py:621-678 | the tracker's result has one entry per frame and `L-1` auxiliary outputs |
| QueryTracker.TrackerOutputAt | minvis/video_maskformer_model.py:637-675 | frame `t`'s exported embedding is layer `L-1` of the trace; its logits and masks are the heads on that state; auxiliary output `j` holds the heads on layer `j` |
| QueryTracker.GridOutputSlice | minvis/video_maskformer_model.py:666-675 | the heads act frame by frame: the output of frames `a..b` of the grid is frames `a..b` of the whole output |
| QueryTracker.DecodeFrame | minvis/video_maskformer_model.py:639-658 | the inner layer loop yields the list of per-layer outputs of the frame |
| QueryTracker.RunFrames | minvis/video_maskformer_model.py:637-664 | the frame loop, with detach and `frame_proj` between frames, yields the recursive trace |
| QueryTracker.Forward | minvis/video_maskformer_model.py:621-678 | the method's result is the tracker output of the frames from the initial state (learned table, or `frame_proj` of the seed) |
| QueryTracker.TraceAppend | minvis/video_maskformer_model.py:637-663 | running `a + b` is running `a` and then running `b` from the state `a` ends in |
| QueryTracker.SeedContinuesRecurrence | minvis/video_maskformer_model.py:628-674 | `frame_proj` of the last exported embedding is the state the frame loop would hand to the next frame (detach keeps values) |
| QueryTracker.TracePrefix | minvis/video_maskformer_model.py:637-663 | the trace of the first `b` frames is the first `b` rows of the whole trace |
| QueryTracker.StateAfterPrefix | minvis/video_maskformer_model.py:659-661 | after `a` frames the state is `frame_proj` of frame `a-1`'s last-layer state |
| QueryTracker.TraceSuffix | minvis/video_maskformer_model.py:637-663 | frames `a..b` run from the state reached after frame `a-1` give rows `a..b` of the whole trace |
| QueryTracker.SeedState | minvis/video_maskformer_model.py:628-674 | seeding with frame `a-1`'s exported embedding gives the state the single pass has before frame `a` |
| QueryTracker.ResumeFromSeed | minvis/video_maskformer_model.py:621-678 | a run over frames `a..b` seeded with frame `a-1`'s exported embedding produces frames `a..b` of the single pass |
| WindowInference.Concat | minvis/video_maskformer_model.py:475-477 | `torch.cat(..., dim=2)` of the chunk outputs along time (its meaning is ConcatWindowOutputs) |
| WindowInference.LastEmbedding | minvis/video_maskformer_model.py:462 | `out_list[-1]['pred_embds']` at its last frame, the next chunk's seed (see WindowOutputsStep) |
| WindowInference.ChunkFeatures | minvis/video_maskformer_model.py:454 | the features of `images_tensor[start_idx:end_idx]`, clamped at the clip's end (see ChunkFeaturesSlice) |
| WindowInference.Slice | minvis/video_maskformer_model.py:475-477 | a slice along time keeps the three per-frame lists aligned |
| WindowInference.Features | minvis/video_maskformer_model.py:454-457 | the feature provider is applied to each frame |
| WindowInference.RunChunk | minvis/video_maskformer_model.py:458-462 | a chunk's kept tracker output has one entry per frame |
| WindowInference.WindowOutputs | minvis/video_maskformer_model.py:449-468 | `out_list` after `k` iterations holds `k` chunk outputs |
| WindowInference.ChunkFeaturesSlice | minvis/video_maskformer_model.py:451-454 | chunk `i`'s frames are the frames from `i*w` up to the clamped chunk end |
| WindowInference.FeaturesOfSlice | minvis/video_maskformer_model.py:454 | running the provider on a slice equals slicing the per-frame features |
| WindowInference.WindowOutputsStep | minvis/video_maskformer_model.py:458-468 | one iteration appends the chunk run seeded with the previous chunk's last embedding (none for chunk 0) |
| WindowInference.NumIterations | minvis/video_maskformer_model.py:446-448 | the computed `iters` is the chunk count |
| WindowInference.ChunkBounds | minvis/video_maskformer_model.py:451-452 | `start_idx` and `end_idx` are the starts of chunks `i` and `i+1` |
| WindowInference.ProcessChunk | minvis/video_maskformer_model.py:454-462 | one chunk through provider and tracker is the tracker runner on the chunk's features |
| WindowInference.WindowStep | minvis/video_maskformer_model.py:450-468 | one loop iteration extends `out_list` as the recursive definition says |
| WindowInference.RunWindowInference | minvis/video_maskformer_model.py:431-478 | the concatenation of the chunk outputs equals one tracker pass over the whole clip |
| WindowInference.TrackerRuns | minvis/video_maskformer_model.py:621-678 | the tracker accepts every run of frames and returns one entry per frame |
| WindowInference.ChunkMatchesSinglePass | minvis/video_maskformer_model.py:458-462 | frames `a..b` run on their own, seeded from the single pass at frame `a-1`, give frames `a..b` of the single pass |
| WindowInference.TrackerResumes | minvis/video_maskformer_model.py:458-462 | the tracker can be resumed from a seed at any frame |
| WindowInference.NewChunkIsSlice | minvis/video_maskformer_model.py:458-468 | if chunk `k-2` equals its slice of the single pass, so does chunk `k-1` |
| WindowInference.ChunkIsSlice | minvis/video_maskformer_model.py:450-468 | chunk `i`'s output is frames `i*w .. min((i+1)*w, n)` of the single pass |
| WindowInference.AppendSlices | minvis/video_maskformer_model.py:475-477 | concatenating two adjacent time slices gives the joined slice |
| WindowInference.ConcatWindowOutputs | minvis/video_maskformer_model.py:474-477 | concatenating the first `k` chunk outputs gives the single pass up to chunk `k-1`'s end, so global frame `i*w+j` is frame `j` of chunk `i` |
| WindowInference.SliceAll | minvis/video_maskformer_model.py:475-477 | the full slice is the whole output |
| WindowInference.WindowedEqualsSinglePass | minvis/video_maskformer_model.py:446-477 | for any resumable runner, the concatenated windowed outputs have `n` frames and equal the single pass |
| WindowInference.WindowedTrackerEqualsSinglePass | minvis/video_maskformer_model.py:446-477 | windowed tracking equals single-pass tracking over all frames |
| Wrappers.Transpose | minvis/video_maskformer_model.py:389-396 | the axis swap has swapped sizes and entry `(j, i)` equal to entry `(i, j)` of the input |
| Wrappers.TransposeTwice | minvis/video_maskformer_model.py:395-421 | swapping the axes twice restores the input |
| Wrappers.Reorder | minvis/video_maskformer_model.py:415-418 | advanced indexing `x[indices]`: output slot `r` holds input row `indices[r]` |
| TrackChaining.Identity | minvis/video_maskformer_model.py:406-407 | frame 0 is kept as is: the identity permutation |
| TrackChaining.ImageCard | minvis/video_maskformer_model.py:345-346 | a list of distinct indices hits as many values as it has entries |
| TrackChaining.PermutationIsOnto | minvis/video_maskformer_model.py:345-346 | a permutation of `0..n-1` hits every query index |
| TrackChaining.Inverse | minvis/video_maskformer_model.py:345-346 | the inverse has the same length, and `p[Inverse(p)[j]] == j` |
| TrackChaining.ReorderRoundTrip | minvis/video_maskformer_model.py:415-418 | reordering by a permutation and then by its inverse (either way round) gives the input back, so nothing is lost or duplicated |
| Wrappers.Map | minvis/video_maskformer_model.py:394 | the per-query score is computed for each query |
| TrackChaining.MatchFromEmbds | minvis/video_maskformer_model.py:325-348 | `match_from_embds_` without scores: the solver applied to the transposed weighted cost (see MatchCost and MatchIsPermutation) |
| TrackChaining.CostMatrix | minvis/video_maskformer_model.py:333-334 | entry `(r, k)` is `1 - cos(current r, target k)` |
| TrackChaining.AddScaled | minvis/video_maskformer_model.py:336 | `C + cost * weight`, entry by entry |
| TrackChaining.WeightedCost | minvis/video_maskformer_model.py:329-336 | the accumulated cost has one row per current query and one column per target query |
| TrackChaining.MatchCost | minvis/video_maskformer_model.py:325-348 | with three targets, the cost is `0.1*(1-cos t0) + 0.3*(1-cos t1) + 0.6*(1-cos t2)` entry by entry, and the solver receives its transpose |
| TrackChaining.MatchIsPermutation | minvis/video_maskformer_model.py:345-348 | the returned indices are a permutation of the current queries |
| TrackChaining.Anchor | minvis/video_maskformer_model.py:406-409 | frame 0 as it is, with its embeddings and scores three times in the history (see AnchorFrame) |
| TrackChaining.Targets | minvis/video_maskformer_model.py:413 | `out_embds[-3:]`, the matcher's three targets (see MatcherTargets) |
| TrackChaining.Append | minvis/video_maskformer_model.py:415-418 | one frame's logits, masks, embeddings and scores, all reordered by the same indices, appended (see ChainFrame) |
| TrackChaining.AppendShaped | minvis/video_maskformer_model.py:415-418 | appending a frame reordered by a permutation of its `q` queries adds one output frame and one history entry, every row still with `q` entries |
| TrackChaining.Chain | minvis/video_maskformer_model.py:402-418 | after `k` frames there are `k` output frames and `k+2` history entries, every one with `q` queries |
| TrackChaining.FramePermutation | minvis/video_maskformer_model.py:413 | frame `i`'s matching indices are a permutation of `0..q-1` |
| TrackChaining.ChainStep | minvis/video_maskformer_model.py:411-418 | iteration `k-1` appends frame `k-1` reordered by the indices matched against the current history |
| TrackChaining.PrefixTrans | minvis/video_maskformer_model.py:402-418 | an earlier state of the lists is a prefix of every later state (transitivity) |
| TrackChaining.ChainGrows | minvis/video_maskformer_model.py:415-418 | each iteration only appends: the previous lists are a prefix of the new ones |
| TrackChaining.GrowingPrefix | minvis/video_maskformer_model.py:411-418 | a sequence of states that only append is prefix-ordered from any step to any later step |
| TrackChaining.ChainAtGrows | minvis/video_maskformer_model.py:415-418 | ChainGrows, for the chain as a total function of the frame count |
| TrackChaining.ChainPrefix | minvis/video_maskformer_model.py:411-418 | the lists after `j` frames are a prefix of the lists after `k >= j` frames |
| TrackChaining.AnchorFrame | minvis/video_maskformer_model.py:406-409 | output frame 0 is input frame 0, unpermuted; the history starts with three copies of frame 0's embeddings and scores |
| TrackChaining.HistoryWindow | minvis/video_maskformer_model.py:408-417 | the last three entries of a history seeded with three equal entries are the embeddings of output frames `i-3`, `i-2`, `i-1` (clamped at 0) |
| TrackChaining.MatcherTargets | minvis/video_maskformer_model.py:406-417 | for frame `i >= 1` the matcher receives exactly three targets, oldest to newest: output frames `max(i-3,0)`, `max(i-2,0)`, `i-1` |
| TrackChaining.ChainFrame | minvis/video_maskformer_model.py:411-418 | for frame `i >= 1` one permutation reorders logits, masks, embeddings and scores alike |
| TrackChaining.OutputPermutation | minvis/video_maskformer_model.py:406-418 | every output frame has a permutation (the identity for frame 0) |
| TrackChaining.OutputIsReordering | minvis/video_maskformer_model.py:406-418 | every output frame is a reordering of its input frame: every query appears, the inverse permutation restores the input, and the score list stays the score of the reordered logits |
| TrackChaining.ChainNext | minvis/video_maskformer_model.py:411-418 | one loop iteration takes the appended lists from frame `i` to frame `i+1` of the chain |
| TrackChaining.PostProcessing | minvis/video_maskformer_model.py:388-429 | after `T` frames of chaining over the transposed inputs, output slot `r`'s logits are the mean over time of track `r`'s `T` chained logit rows (`sum(out_logits)/len(out_logits)`), one slot per query; the chained masks are stacked back as `q t` |
| InferenceVideo.Flatten | minvis/video_maskformer_model.py:515 | `flatten(0, 1)`: the rows one after the other (see FlattenLength and FlattenAt) |
| InferenceVideo.FlattenLength | minvis/video_maskformer_model.py:513-515 | the flat table has one entry per cell |
| InferenceVideo.FlattenAt | minvis/video_maskformer_model.py:513-517 | flat index `q*C + c` holds cell `(q, c)` |
| InferenceVideo.FlattenIndex | minvis/video_maskformer_model.py:515-517 | flat index `k` holds cell `(k / C, k % C)` |
| InferenceVideo.LabelRows | minvis/video_maskformer_model.py:513 | the label table has `numQueries` rows of `0..C-1` |
| InferenceVideo.LabelTable | minvis/video_maskformer_model.py:513 | the label table has `num_queries * num_classes` entries |
| InferenceVideo.LabelTableAt | minvis/video_maskformer_model.py:513-516 | the label at flat index `k` is `k % C` |
| InferenceVideo.ClassScores | minvis/video_maskformer_model.py:512 | each query's scores are its softmax without the no-object class |
| InferenceVideo.QueryBelow | minvis/video_maskformer_model.py:517 | an index into a table of `n` rows of `C` maps to a row below `n` |
| InferenceVideo.QueryOf | minvis/video_maskformer_model.py:517 | `topk_indices // C`, entry by entry |
| InferenceVideo.QueriesBelow | minvis/video_maskformer_model.py:517-518 | every selected query index is a valid row of `pred_masks` |
| InferenceVideo.ScoreAt | minvis/video_maskformer_model.py:512-515 | flat score `k` of rows of `C` classes is query `k / C`'s softmax at class `k % C` |
| InferenceVideo.Selected | minvis/video_maskformer_model.py:515 | `topk` picks `max_num` distinct indices into the flat scores whenever the table holds that many |
| InferenceVideo.InferenceVideo | minvis/video_maskformer_model.py:507-546 | the decoding with both class counts, its `topk`, label and mask lookups failing as PyTorch indexing fails (its meaning is Outcome and DecodeEntry) |
| InferenceVideo.IndicesWithin | minvis/video_maskformer_model.py:515-518 | with no more queries than `num_queries` and no more tracker classes than `num_classes`, every selected index lies in the label table and selects a predicted query |
| InferenceVideo.OkEntry | minvis/video_maskformer_model.py:515-533 | entry `j` of a result is the score, label and rendered mask found at selected index `k`, every lookup within range |
| InferenceVideo.Outcome | minvis/video_maskformer_model.py:507-546 | zero queries gives empty lists; any result has `image_size = (output_height, output_width)` and three lists of `max_num` entries; asking for more than the score table holds is an error; otherwise, with no more queries than `num_queries` and no more tracker classes than `num_classes`, the result exists |
| InferenceVideo.DecodeEntry | minvis/video_maskformer_model.py:512-533 | entry `j` comes from flat index `k`: score `softmax(pred_cls[k / W])[k % W]` for the tracker's width `W`, label `k % C` and the mask of query `k / C` for the dataset's `C`, with `k / C` below both query counts |
| InferenceVideo.InferenceVideoMatched | minvis/video_maskformer_model.py:507-546 | the decoding with one class count: with no more queries than `num_queries`, it succeeds exactly when there are no queries or `max_num` is within the score table |
| InferenceVideo.MatchedEntry | minvis/video_maskformer_model.py:512-518 | with one class count, each entry's label is a real class `c`, and its score and its mask belong to one query `q`, the score being `q`'s softmax at `c` |
| InferenceVideo.MismatchedClassCounts | minvis/video_maskformer_model.py:512-518 | with 25 tracker classes and 40 dataset classes, a top-20 entry is scored as class 5 of query 1, labelled 30 and given query 0's mask |
| InferenceVideo.FewerClassesFail | minvis/video_maskformer_model.py:513-516 | with 25 tracker classes and 10 dataset classes, the best index lies past the label table and decoding fails |
| PrepareTargets.IdColumns | minvis/video_maskformer_model.py:493 | column `f` is frame `f`'s id list |
| PrepareTargets.IdMatrix | minvis/video_maskformer_model.py:496 | `torch.cat(gt_ids_per_video, dim=1)`: the id columns side by side (see IdColumn) |
| PrepareTargets.Keep | minvis/video_maskformer_model.py:497 | `valid_idx[i]` holds iff instance `i` has an id other than -1 in some frame |
| PrepareTargets.KeptIndices | minvis/video_maskformer_model.py:497-502 | kept positions are in range, flagged and strictly increasing |
| PrepareTargets.Filter | minvis/video_maskformer_model.py:499-502 | boolean-mask indexing keeps one entry per kept position: entry `j` is the entry at the `j`-th kept position |
| PrepareTargets.KeptIndicesComplete | minvis/video_maskformer_model.py:497-502 | a position is kept exactly when its flag is set |
| PrepareTargets.IdColumn | minvis/video_maskformer_model.py:493-496 | entry `(i, f)` of the id matrix is frame `f`'s id of instance `i` |
| PrepareTargets.Aligned | minvis/video_maskformer_model.py:496-503 | labels, ids and masks have one entry per kept instance, in the original order; entry `j` of each is the `j`-th kept instance; the label comes from the last frame's classes |
| PrepareTargets.KeptIff | minvis/video_maskformer_model.py:496-497 | an instance is kept iff some frame's id differs from -1 |
| PrepareTargets.MaskPadding | minvis/video_maskformer_model.py:485-502 | a kept mask equals the frame's annotation inside its `h×w` region and is zero everywhere else, including frame slots past the video's length |
| PrepareTargets.WriteRow | minvis/video_maskformer_model.py:494 | writes one mask row into the buffer and leaves every other cell unchanged |
| PrepareTargets.WriteInstance | minvis/video_maskformer_model.py:494 | writes one instance's `h×w` mask into frame `f` and leaves every other cell unchanged |
| PrepareTargets.WriteFrame | minvis/video_maskformer_model.py:494 | `buf[:, f, :h, :w] = gt_masks`: frame `f`'s region is written and every other cell is unchanged |
| PrepareTargets.MaskTensor | minvis/video_maskformer_model.py:485-494 | the zeroed `n × num_frames × h_pad × w_pad` buffer after every frame's masks are written (see MaskPadding and ContentsIsMaskTensor) |
| PrepareTargets.VideoTarget | minvis/video_maskformer_model.py:484-503 | one video's labels, ids and masks, filtered by `valid_idx` (see Aligned, KeptIff and MaskPadding) |
| PrepareTargets.ContentsIsMaskTensor | minvis/video_maskformer_model.py:485-494 | a buffer holding every padded pixel reads back as the padded mask tensor |
| PrepareTargets.PrepareVideo | minvis/video_maskformer_model.py:484-503 | building one video's target in place (zeroed buffer, per-frame writes, id columns, filtering) gives the specified target |
| PrepareTargets.BatchTargets | minvis/video_maskformer_model.py:482-504 | one target per video |
| PrepareTargets.BatchTargetsAt | minvis/video_maskformer_model.py:483-503 | entry `v` of the batch's targets is video `v`'s target |
| PrepareTargets.PrepareTargets | minvis/video_maskformer_model.py:480-505 | the outer loop appends the videos' targets in order |

## Findings

| source | as written | input that shows it | evidently intended | confidence | as-written member | corrected member |
|---|---|---|---|---|---|---|
| minvis/video_maskformer_model.py:103-110 | The tracker's classifier has `class_num + 1` outputs, and `class_num` is fixed at 25 (lines 109 and 608). `inference_video` builds its label table and recovers the query with `sem_seg_head.num_classes` (lines 513 and 517). | With 40 dataset classes and two queries whose scores grow with the flat index, the top 20 are indices 49 down to 30. Index 30 is scored as class 5 of query 1, but is labelled 30 and given query 0's mask. With 10 dataset classes, index 24 lies past the 10-entry label table and the lookup raises. | The classifier scores exactly `num_classes` classes, so that each entry's score, label and mask come from one (query, class) pair. | not executed | InferenceVideo.MismatchedClassCounts | InferenceVideo.MatchedEntry |

## Left out

- Learned layers and heads (attention, FFN, LayerNorm, MLP, linear heads, the 1×1 convolution, the einsum mask product) are function-valued fields of `QueryTracker.Tracker`. They are unconstrained; the positional encodings (`query_embed`, `frame_pos_embed`) are folded into them.
- The batch dimension is part of the abstract `State`; `permute` and `reshape` calls that only relabel axes are not modelled as separate steps.
- Floating point: cosine normalisation and the cosine itself are a parameter; the cost uses exact reals.
- Floating point: softmax, `torch.max` of scores, the average of one query slot's logits over time, bilinear interpolation, cropping and `> 0` thresholding are parameters (`softmax`, `scoreOf`, `meanOf`, `render`). Which slot's rows are averaged is modelled.
- The assignment solver (`linear_sum_assignment`) is the `solve` field of `TrackChaining.Matcher`. It is assumed only to return a permutation of `0..q-1` for a square cost matrix; optimality is not modelled.
- `InferenceVideo.InferenceVideo`: the tracker's class count is a parameter (`trackerClasses`). The model does not fix it at 25; `MismatchedClassCounts` instantiates it with 25.
- `InferenceVideo.InferenceVideo`: `topk` is a parameter assumed to return `max_num` distinct in-range indices. Which indices it picks, and their order (`sorted=False`), are not modelled.
- The backbone and segmentation head are one per-frame `provider` function. The windowed result equals a single pass because this provider sees each frame on its own (evaluation mode).
- `run_window_inference` deletes fields and auxiliary outputs; the model keeps only the logits, masks and embeddings that are concatenated, and omits memory and device handling (`del`, `.to(device)`, `.cpu()`, `.detach()` other than as value identity, `.float()` on the masks).
- The `c t q` layout of `pred_embds` is taken as frame-major `T×q`, after the `einops` rearrangement.
- `WindowInference.LastEmbedding` returns `None` for an empty chunk. That case never arises, because chunks are never empty.
- `WindowInference.RunWindowInference` requires at least one image, because `torch.cat` of an empty list raises. It and `WindowInference.NumIterations` require a positive window size, because `//` by zero raises.
- `QueryTracker.Forward` requires at least one frame, because `torch.stack` of an empty `outputs` list raises.
- `TrackChaining.PostProcessing` requires at least one frame, because `pred_logits[0]` raises otherwise.
- Dead code is not modelled: `match_from_embds`, `post_processing` (their call is commented out), and the `scores` branch of `match_from_embds_` (never reached, since no scores are passed).
- `from_config`, the criterion and loss plumbing, `frame_decoder_loss_reshape` and the training `forward` wiring are not part of this model.
- `PrepareTargets.PrepareVideo`: the requirements rule out inputs on which PyTorch would raise or broadcast:
  - frames with different instance counts;
  - more frames than `num_frames`;
  - masks larger than the padded image;
  - a last frame whose class list has the wrong length.

  Broadcasting a single-instance mask is not modelled.

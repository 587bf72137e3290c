/**
 * Windowed inference (VideoMaskFormer_frame.run_window_inference): the clip
 * is cut into chunks of `windowSize` frames, each chunk goes through the
 * frame feature provider and the query tracker, chunk i > 0 being seeded with
 * the last exported embedding of chunk i-1, and the kept outputs of all
 * chunks are concatenated along time.
 *
 * The windowing is stated for any `Runner` (a function from a run of frames
 * and an optional seed to per-frame outputs); the tracker is one such runner,
 * and the lemma `TrackerResumes` shows it can be resumed from a seed, which
 * is what makes the windowed result equal a single pass over the clip.
 */
module WindowInference {
  import opened Wrappers
  import opened QueryTracker
  import opened WindowPartition

  /** One input frame. */
  type Image(!new)

  /** What the backbone and segmentation head give for one frame. */
  datatype FrameFeatures = FrameFeatures(embeds: FrameEmbeds, maskFeatures: MaskFeatures)

  /** The fields kept from a chunk's tracker output; the auxiliary outputs are dropped. */
  datatype ChunkOutput = ChunkOutput(predLogits: seq<ClassLogits>, predMasks: seq<MaskLogits>, predEmbds: seq<State>)

  predicate HasFrames(o: ChunkOutput, n: int)
  {
    |o.predLogits| == |o.predMasks| == |o.predEmbds| == n
  }

  function Kept(o: TrackOutput): ChunkOutput
  {
    ChunkOutput(o.predLogits, o.predMasks, o.predEmbds)
  }

  /** `torch.cat(..., dim=2)` of two outputs: frames of `a`, then frames of `b`. */
  function Append(a: ChunkOutput, b: ChunkOutput): ChunkOutput
  {
    ChunkOutput(a.predLogits + b.predLogits, a.predMasks + b.predMasks, a.predEmbds + b.predEmbds)
  }

  /** Frames a .. b-1 of an output. */
  function Slice(o: ChunkOutput, a: nat, b: nat): (r: ChunkOutput)
    requires a <= b && HasFrames(o, |o.predEmbds|) && b <= |o.predEmbds|
    ensures HasFrames(r, b - a)
  {
    ChunkOutput(o.predLogits[a..b], o.predMasks[a..b], o.predEmbds[a..b])
  }

  /** The concatenation of all chunk outputs along time. */
  function Concat(cs: seq<ChunkOutput>): ChunkOutput
    decreases |cs|
  {
    if cs == [] then ChunkOutput([], [], [])
    else Append(Concat(cs[..|cs| - 1]), Last(cs))
  }

  /**
   * `out_list[-1]['pred_embds']` at its last frame, the seed of the next
   * chunk.  Chunks are never empty (ChunkShape), so the None case is not
   * reached in WindowOutputs.
   */
  function LastEmbedding(o: ChunkOutput): Option<State>
  {
    if |o.predEmbds| == 0 then None else Some(Last(o.predEmbds))
  }

  /** The feature provider run on every frame. */
  function Features(provider: Image -> FrameFeatures, images: seq<Image>): (r: seq<FrameFeatures>)
    ensures |r| == |images|
    ensures forall t :: 0 <= t < |images| ==> r[t] == provider(images[t])
  {
    seq(|images|, t requires 0 <= t < |images| => provider(images[t]))
  }

  function Embeds(fs: seq<FrameFeatures>): (r: seq<FrameEmbeds>)
    ensures |r| == |fs|
    ensures forall t :: 0 <= t < |fs| ==> r[t] == fs[t].embeds
  {
    seq(|fs|, t requires 0 <= t < |fs| => fs[t].embeds)
  }

  function MaskFeaturesOf(fs: seq<FrameFeatures>): (r: seq<MaskFeatures>)
    ensures |r| == |fs|
    ensures forall t :: 0 <= t < |fs| ==> r[t] == fs[t].maskFeatures
  {
    seq(|fs|, t requires 0 <= t < |fs| => fs[t].maskFeatures)
  }

  /** The tracker on the frames `fs`, keeping logits, masks and embeddings. */
  function RunChunk(tr: Tracker, fs: seq<FrameFeatures>, seed: Option<State>): (o: ChunkOutput)
    requires tr.Valid()
    ensures HasFrames(o, |fs|)
  {
    Kept(TrackerOutput(tr, Embeds(fs), MaskFeaturesOf(fs), seed))
  }

  /**
   * Something that, like the tracker, turns the features of a run of frames
   * and an optional seed embedding into per-frame outputs.
   */
  type Runner = (seq<FrameFeatures>, Option<State>) --> ChunkOutput

  /** The runner accepts every input and gives one output frame per input frame. */
  ghost predicate Runs(run: Runner)
  {
    forall xs, seed :: run.requires(xs, seed) && HasFrames(run(xs, seed), |xs|)
  }

  /** The seed a run of frames starting at frame a takes from the whole clip's output. */
  function SeedAt(whole: ChunkOutput, a: nat): Option<State>
    requires a <= |whole.predEmbds|
  {
    if a == 0 then None else Some(whole.predEmbds[a - 1])
  }

  /**
   * The runner can be resumed at frame a of `fs`: frames a .. b-1 run on
   * their own, seeded with the embedding the single pass exported for frame
   * a-1, give frames a .. b-1 of the single pass.
   */
  ghost predicate ResumesAt(run: Runner, fs: seq<FrameFeatures>, a: nat, b: nat)
    requires Runs(run) && a <= b <= |fs|
  {
    run(fs[a..b], SeedAt(run(fs, None), a)) == Slice(run(fs, None), a, b)
  }

  /** The runner can be resumed anywhere in `fs`. */
  ghost predicate Resumes(run: Runner, fs: seq<FrameFeatures>)
    requires Runs(run)
  {
    forall a: nat, b: nat | a <= b <= |fs| :: ResumesAt(run, fs, a, b)
  }

  /** The tracker as a runner. */
  function TrackerRunner(tr: Tracker): Runner
    requires tr.Valid()
  {
    (xs: seq<FrameFeatures>, seed: Option<State>) requires tr.Valid() => RunChunk(tr, xs, seed)
  }

  /** The tracker accepts every run of frames and gives one output frame per input frame. */
  lemma TrackerRuns(tr: Tracker)
    requires tr.Valid()
    ensures Runs(TrackerRunner(tr))
  {
  }

  /** `images_tensor[i*w : (i+1)*w]`, clamped to the clip as Python clamps it. */
  function ChunkFeatures(fs: seq<FrameFeatures>, i: nat, w: nat): seq<FrameFeatures>
  {
    PySlice(fs, ChunkStart(i, w), ChunkStart(i + 1, w))
  }

  /**
   * The kept outputs of chunks 0 .. k-1: chunk 0 starts from the learned
   * queries, chunk i > 0 from the last exported embedding of chunk i-1.
   */
  function WindowOutputs(run: Runner, fs: seq<FrameFeatures>, w: nat, k: nat): (r: seq<ChunkOutput>)
    requires Runs(run)
    ensures |r| == k
    decreases k
  {
    if k == 0 then []
    else
      var prev := WindowOutputs(run, fs, w, k - 1);
      var seed := if k == 1 then None else LastEmbedding(prev[k - 2]);
      prev + [run(ChunkFeatures(fs, k - 1, w), seed)]
  }

  /** The frames of chunk i are frames ChunkStart(i) .. ChunkEnd(i)-1 of the clip. */
  lemma ChunkFeaturesSlice(fs: seq<FrameFeatures>, i: nat, w: nat)
    requires w > 0 && i < NumChunks(|fs|, w)
    ensures ChunkStart(i, w) < ChunkEnd(i, |fs|, w) <= |fs|
    ensures ChunkFeatures(fs, i, w) == fs[ChunkStart(i, w)..ChunkEnd(i, |fs|, w)]
  {
    ChunkShape(|fs|, w, i);
  }

  /** Running the provider on a slice of the frames is slicing its results. */
  lemma FeaturesOfSlice(provider: Image -> FrameFeatures, images: seq<Image>, a: nat, b: nat)
    requires a <= b
    ensures Features(provider, PySlice(images, a, b)) == PySlice(Features(provider, images), a, b)
  {
  }

  /** The windowed run grows by one chunk output, seeded from the previous chunk. */
  lemma WindowOutputsStep(run: Runner, fs: seq<FrameFeatures>, w: nat, i: nat, prev: seq<ChunkOutput>, o: ChunkOutput)
    requires Runs(run) && prev == WindowOutputs(run, fs, w, i)
    requires o == run(ChunkFeatures(fs, i, w), if i == 0 then None else LastEmbedding(prev[i - 1]))
    ensures prev + [o] == WindowOutputs(run, fs, w, i + 1)
  {
  }

  /** `iters`: `len(images_tensor) // window_size`, plus one for a partial last chunk. */
  method NumIterations(n: nat, windowSize: nat) returns (iters: nat)
    requires windowSize > 0
    ensures iters == NumChunks(n, windowSize)
  {
    iters := n / windowSize;
    if n % windowSize != 0 {
      iters := iters + 1;
    }
    NumChunksFormula(n, windowSize);
  }

  /** `start_idx` and `end_idx` of chunk i: `i * window_size` and `(i + 1) * window_size`. */
  method ChunkBounds(i: nat, windowSize: nat) returns (startIdx: nat, endIdx: nat)
    ensures startIdx == ChunkStart(i, windowSize) && endIdx == ChunkStart(i + 1, windowSize)
  {
    startIdx := i * windowSize;
    endIdx := (i + 1) * windowSize;
    ChunkStartIsProduct(i, windowSize);
    ChunkStartIsProduct(i + 1, windowSize);
  }

  /** One pass of the loop body: backbone and segmentation head on the chunk, then the tracker. */
  method ProcessChunk(tr: Tracker, provider: Image -> FrameFeatures, chunk: seq<Image>, seed: Option<State>)
    returns (o: ChunkOutput)
    requires tr.Valid() && |chunk| >= 1
    ensures o == TrackerRunner(tr)(Features(provider, chunk), seed)
  {
    var feats := Features(provider, chunk);
    var trackOut := Forward(tr, Embeds(feats), MaskFeaturesOf(feats), seed);
    o := Kept(trackOut);
  }

  /**
   * The body of the loop of run_window_inference for chunk i: slice the
   * frames, run the backbone and the tracker, seeded from the previous chunk.
   * The result is the next entry of the windowed run.
   */
  method WindowStep(tr: Tracker, provider: Image -> FrameFeatures, images: seq<Image>, windowSize: nat, i: nat,
                    outList: seq<ChunkOutput>)
    returns (o: ChunkOutput)
    requires tr.Valid() && windowSize > 0 && i < NumChunks(|images|, windowSize)
    requires Runs(TrackerRunner(tr))
    requires outList == WindowOutputs(TrackerRunner(tr), Features(provider, images), windowSize, i)
    ensures outList + [o] == WindowOutputs(TrackerRunner(tr), Features(provider, images), windowSize, i + 1)
  {
    ghost var fs := Features(provider, images);
    ghost var run := TrackerRunner(tr);
    var startIdx, endIdx := ChunkBounds(i, windowSize);
    var chunk := PySlice(images, startIdx, endIdx);
    ghost var cf := ChunkFeatures(fs, i, windowSize);
    ChunkFeaturesSlice(fs, i, windowSize);
    FeaturesOfSlice(provider, images, startIdx, endIdx);
    assert Features(provider, chunk) == cf;
    var seed := if i == 0 then None else LastEmbedding(outList[i - 1]);
    o := ProcessChunk(tr, provider, chunk, seed);
    assert o == run(cf, seed);
    WindowOutputsStep(run, fs, windowSize, i, outList, o);
  }

  /**
   * run_window_inference.  The output is the concatenation of the chunk
   * outputs and equals the tracker run once over the whole clip.
   */
  method RunWindowInference(tr: Tracker, provider: Image -> FrameFeatures, images: seq<Image>, windowSize: nat)
    returns (out: ChunkOutput)
    requires tr.Valid() && windowSize > 0 && |images| >= 1
    ensures out == Concat(WindowOutputs(TrackerRunner(tr), Features(provider, images), windowSize, NumChunks(|images|, windowSize)))
    ensures out == RunChunk(tr, Features(provider, images), None)
  {
    TrackerRuns(tr);
    var iters := NumIterations(|images|, windowSize);
    var outList: seq<ChunkOutput> := [];
    for i := 0 to iters
      invariant outList == WindowOutputs(TrackerRunner(tr), Features(provider, images), windowSize, i)
    {
      var o := WindowStep(tr, provider, images, windowSize, i, outList);
      outList := outList + [o];
    }
    out := Concat(outList);
    WindowedTrackerEqualsSinglePass(tr, Features(provider, images), windowSize);
  }

  /**
   * A chunk a .. b-1 run on its own, seeded with the single pass's exported
   * embedding of frame a-1 (or unseeded when a = 0), gives frames a .. b-1
   * of the single pass.
   */
  lemma ChunkMatchesSinglePass(tr: Tracker, fs: seq<FrameFeatures>, a: nat, b: nat)
    requires tr.Valid() && a <= b <= |fs|
    ensures RunChunk(tr, fs[a..b], SeedAt(RunChunk(tr, fs, None), a)) == Slice(RunChunk(tr, fs, None), a, b)
  {
    var es, ms := Embeds(fs), MaskFeaturesOf(fs);
    assert Embeds(fs[a..b]) == es[a..b];
    assert MaskFeaturesOf(fs[a..b]) == ms[a..b];
    ResumeFromSeed(tr, es, ms, a, b, SeedAt(RunChunk(tr, fs, None), a));
  }

  /** The tracker is a runner that can be resumed on every clip. */
  lemma TrackerResumes(tr: Tracker, fs: seq<FrameFeatures>)
    requires tr.Valid()
    ensures Runs(TrackerRunner(tr)) && Resumes(TrackerRunner(tr), fs)
  {
    var run := TrackerRunner(tr);
    forall a: nat, b: nat | a <= b <= |fs|
      ensures ResumesAt(run, fs, a, b)
    {
      ChunkMatchesSinglePass(tr, fs, a, b);
    }
  }

  /**
   * Once chunks 0 .. k-2 are slices of the single pass, so is chunk k-1:
   * its seed is the single pass's embedding of the frame before it.
   */
  lemma NewChunkIsSlice(run: Runner, fs: seq<FrameFeatures>, w: nat, k: nat)
    requires Runs(run) && Resumes(run, fs) && w > 0 && 0 < k <= NumChunks(|fs|, w)
    requires k > 1 ==>
               && ChunkStart(k - 2, w) < ChunkEnd(k - 2, |fs|, w) <= |fs|
               && WindowOutputs(run, fs, w, k - 1)[k - 2] == Slice(run(fs, None), ChunkStart(k - 2, w), ChunkEnd(k - 2, |fs|, w))
    ensures ChunkStart(k - 1, w) < ChunkEnd(k - 1, |fs|, w) <= |fs|
    ensures WindowOutputs(run, fs, w, k)[k - 1] == Slice(run(fs, None), ChunkStart(k - 1, w), ChunkEnd(k - 1, |fs|, w))
  {
    ChunkFeaturesSlice(fs, k - 1, w);
    var a, b := ChunkStart(k - 1, w), ChunkEnd(k - 1, |fs|, w);
    if k > 1 {
      ChunkShape(|fs|, w, k - 2);
    }
    assert ResumesAt(run, fs, a, b);
  }

  /** Chunk i of the windowed run is frames ChunkStart(i) .. ChunkEnd(i)-1 of the single pass. */
  lemma {:induction false} ChunkIsSlice(run: Runner, fs: seq<FrameFeatures>, w: nat, k: nat, i: nat)
    requires Runs(run) && Resumes(run, fs) && w > 0 && i < k <= NumChunks(|fs|, w)
    ensures ChunkStart(i, w) < ChunkEnd(i, |fs|, w) <= |fs|
    ensures WindowOutputs(run, fs, w, k)[i] == Slice(run(fs, None), ChunkStart(i, w), ChunkEnd(i, |fs|, w))
    decreases k
  {
    if i == k - 1 {
      if k > 1 {
        ChunkIsSlice(run, fs, w, k - 1, k - 2);
      }
      NewChunkIsSlice(run, fs, w, k);
    } else {
      ChunkIsSlice(run, fs, w, k - 1, i);
      assert WindowOutputs(run, fs, w, k)[i] == WindowOutputs(run, fs, w, k - 1)[i];
    }
  }

  /** Two adjacent slices of an output, appended, are the slice spanning both. */
  lemma AppendSlices(o: ChunkOutput, a: nat, m: nat, e: nat)
    requires HasFrames(o, |o.predEmbds|) && a <= m <= e <= |o.predEmbds|
    ensures Append(Slice(o, a, m), Slice(o, m, e)) == Slice(o, a, e)
  {
    assert o.predLogits[a..m] + o.predLogits[m..e] == o.predLogits[a..e];
    assert o.predMasks[a..m] + o.predMasks[m..e] == o.predMasks[a..e];
    assert o.predEmbds[a..m] + o.predEmbds[m..e] == o.predEmbds[a..e];
  }

  /** The concatenation of chunks 0 .. k-1 is the single pass up to the end of chunk k-1. */
  lemma {:induction false} ConcatWindowOutputs(run: Runner, fs: seq<FrameFeatures>, w: nat, k: nat)
    requires Runs(run) && Resumes(run, fs) && w > 0 && 0 < k <= NumChunks(|fs|, w)
    ensures ChunkEnd(k - 1, |fs|, w) <= |fs|
    ensures Concat(WindowOutputs(run, fs, w, k)) == Slice(run(fs, None), 0, ChunkEnd(k - 1, |fs|, w))
    decreases k
  {
    var r := WindowOutputs(run, fs, w, k);
    var sp := run(fs, None);
    ChunkShape(|fs|, w, k - 1);
    ChunkIsSlice(run, fs, w, k, k - 1);
    var m, e := ChunkStart(k - 1, w), ChunkEnd(k - 1, |fs|, w);
    assert r[k - 1] == Slice(sp, m, e);
    assert r[..k - 1] == WindowOutputs(run, fs, w, k - 1);
    assert Concat(r) == Append(Concat(WindowOutputs(run, fs, w, k - 1)), Slice(sp, m, e));
    if k == 1 {
      AppendSlices(sp, 0, 0, e);
    } else {
      ConcatWindowOutputs(run, fs, w, k - 1);
      ChunkShape(|fs|, w, k - 2);
      AppendSlices(sp, 0, m, e);
    }
  }

  /** The slice of all frames is the whole output. */
  lemma SliceAll(o: ChunkOutput)
    requires HasFrames(o, |o.predEmbds|)
    ensures Slice(o, 0, |o.predEmbds|) == o
  {
    assert o.predLogits[0..|o.predEmbds|] == o.predLogits;
    assert o.predMasks[0..|o.predEmbds|] == o.predMasks;
    assert o.predEmbds[0..|o.predEmbds|] == o.predEmbds;
  }

  /** Windowed inference over all chunks equals the runner applied once to the whole clip. */
  lemma WindowedEqualsSinglePass(run: Runner, fs: seq<FrameFeatures>, w: nat)
    requires Runs(run) && Resumes(run, fs) && w > 0 && |fs| >= 1
    ensures Concat(WindowOutputs(run, fs, w, NumChunks(|fs|, w))) == run(fs, None)
  {
    var k := NumChunks(|fs|, w);
    ChunkShape(|fs|, w, k - 1);
    ConcatWindowOutputs(run, fs, w, k);
    SliceAll(run(fs, None));
  }

  /** The windowed tracker equals the tracker run once over the whole clip. */
  lemma WindowedTrackerEqualsSinglePass(tr: Tracker, fs: seq<FrameFeatures>, w: nat)
    requires tr.Valid() && w > 0 && |fs| >= 1
    ensures Concat(WindowOutputs(TrackerRunner(tr), fs, w, NumChunks(|fs|, w))) == RunChunk(tr, fs, None)
  {
    TrackerResumes(tr, fs);
    WindowedEqualsSinglePass(TrackerRunner(tr), fs, w);
  }
}

/**
 * The recurrent query tracker of MinVIS (class QueryTracker).
 *
 * The tracker keeps one query state per clip.  For every frame, in order, the
 * state goes through `numLayers` decoder layers (cross-attend to the frame's
 * embeddings, then self-attend, then feed-forward); every layer's output is
 * kept.  The last layer's output is projected by `frameProj` to become the
 * state the next frame starts from.  All layers and heads are learned tensor
 * functions; here they are fields of `Tracker` about which nothing is assumed.
 */
module QueryTracker {
  import opened Wrappers

  /** The query state of one frame: a (queries, batch, channels) tensor. */
  type State(!new)
  /** The frame-level decoder's per-query embeddings of one frame. */
  type FrameEmbeds(!new)
  /** The per-pixel mask features of one frame. */
  type MaskFeatures(!new)
  /** Class logits (queries x (classes + 1)) predicted from one state. */
  type ClassLogits(!new)
  /** Mask logits (queries x height x width) predicted from one state. */
  type MaskLogits(!new)

  /**
   * The tracker's learned parameters.  `crossAttend`, `selfAttend` and `ffn`
   * take the layer index; the positional encodings (query_embed,
   * frame_pos_embed) are constants folded into them.  `classHead` and
   * `maskHead` include the shared decoder norm; `maskHead` is the MLP followed
   * by the inner product with the projected mask features.
   */
  datatype Tracker = Tracker(
    numLayers: nat,
    detachFrameConnection: bool,
    queryFeat: State,
    crossAttend: (nat, State, FrameEmbeds) -> State,
    selfAttend: (nat, State) -> State,
    ffn: (nat, State) -> State,
    frameProj: State -> State,
    classHead: State -> ClassLogits,
    maskHead: (State, MaskFeatures) -> MaskLogits,
    maskFeatureProj: MaskFeatures -> MaskFeatures)
  {
    /** QueryTracker.forward stacks the per-layer outputs with `torch.stack`, so at least one layer is needed. */
    predicate Valid()
    {
      numLayers >= 1
    }
  }

  /** The auxiliary (deep supervision) prediction of one intermediate layer, over all frames. */
  datatype AuxOutput = AuxOutput(predLogits: seq<ClassLogits>, predMasks: seq<MaskLogits>)

  /** The tracker's result; every sequence is indexed by frame. */
  datatype TrackOutput = TrackOutput(
    predLogits: seq<ClassLogits>,
    predMasks: seq<MaskLogits>,
    auxOutputs: seq<AuxOutput>,
    predEmbds: seq<State>)

  /** One decoder layer: cross-attention, then self-attention, then feed-forward. */
  function DecoderLayer(tr: Tracker, j: nat, s: State, e: FrameEmbeds): State
  {
    tr.ffn(j, tr.selfAttend(j, tr.crossAttend(j, s, e)))
  }

  /** The outputs of decoder layers 0 .. k-1 on one frame, entered with state `s`. */
  function LayerOutputs(tr: Tracker, s: State, e: FrameEmbeds, k: nat): (r: seq<State>)
    ensures |r| == k
    ensures k > 0 ==> r[0] == DecoderLayer(tr, 0, s, e)
    decreases k
  {
    if k == 0 then []
    else
      var prev := LayerOutputs(tr, s, e, k - 1);
      prev + [DecoderLayer(tr, k - 1, if k == 1 then s else prev[k - 2], e)]
  }

  /** Layer j > 0 takes the output of layer j-1: the layers are chained in order. */
  lemma {:induction false} LayerOutputsChain(tr: Tracker, s: State, e: FrameEmbeds, k: nat, j: nat)
    requires 1 <= j < k
    ensures LayerOutputs(tr, s, e, k)[j] == DecoderLayer(tr, j, LayerOutputs(tr, s, e, k)[j - 1], e)
    decreases k
  {
    if j < k - 1 {
      LayerOutputsChain(tr, s, e, k - 1, j);
      var r, prev := LayerOutputs(tr, s, e, k), LayerOutputs(tr, s, e, k - 1);
      assert r[j] == prev[j] && r[j - 1] == prev[j - 1];
    }
  }

  function FrameOutputs(tr: Tracker, s: State, e: FrameEmbeds): seq<State>
  {
    LayerOutputs(tr, s, e, tr.numLayers)
  }

  /** Cutting the gradient connection: the value is unchanged. */
  function Detach(s: State): State
  {
    s
  }

  /** The state handed to the next frame: the projected last-layer output. */
  function NextState(tr: Tracker, s: State, e: FrameEmbeds): State
    requires tr.Valid()
  {
    tr.frameProj(Last(FrameOutputs(tr, s, e)))
  }

  /** The state the tracker holds after the frames `es`, starting from `s`. */
  function StateAfter(tr: Tracker, s: State, es: seq<FrameEmbeds>): State
    requires tr.Valid()
    decreases |es|
  {
    if es == [] then s
    else NextState(tr, StateAfter(tr, s, es[..|es| - 1]), Last(es))
  }

  /** The frame x layer grid of states kept by the tracker. */
  function Trace(tr: Tracker, s: State, es: seq<FrameEmbeds>): (g: seq<seq<State>>)
    requires tr.Valid()
    ensures |g| == |es|
    ensures forall t :: 0 <= t < |g| ==> |g[t]| == tr.numLayers
    decreases |es|
  {
    if es == [] then []
    else
      var prefix := es[..|es| - 1];
      Trace(tr, s, prefix) + [FrameOutputs(tr, StateAfter(tr, s, prefix), Last(es))]
  }

  /** The state before the first frame: the learned table, or the projected seed. */
  function InitialState(tr: Tracker, initQuery: Option<State>): State
  {
    match initQuery
    case None => tr.queryFeat
    case Some(q) => tr.frameProj(q)
  }

  function ProjectMaskFeatures(tr: Tracker, mfs: seq<MaskFeatures>): (r: seq<MaskFeatures>)
    ensures |r| == |mfs|
    ensures forall t :: 0 <= t < |mfs| ==> r[t] == tr.maskFeatureProj(mfs[t])
  {
    seq(|mfs|, t requires 0 <= t < |mfs| => tr.maskFeatureProj(mfs[t]))
  }

  /**
   * The prediction heads applied to every (frame, layer) state; the results
   * are indexed [layer][frame], as QueryTracker.prediction's (L, B, q, T, ...) tensors.
   */
  function Prediction(tr: Tracker, g: seq<seq<State>>, mfs: seq<MaskFeatures>)
    : (r: (seq<seq<ClassLogits>>, seq<seq<MaskLogits>>))
    requires |mfs| == |g|
    requires forall t :: 0 <= t < |g| ==> |g[t]| == tr.numLayers
    ensures |r.0| == |r.1| == tr.numLayers
    ensures forall l :: 0 <= l < tr.numLayers ==> |r.0[l]| == |r.1[l]| == |g|
    ensures forall l, t :: 0 <= l < tr.numLayers && 0 <= t < |g| ==>
              r.0[l][t] == tr.classHead(g[t][l]) && r.1[l][t] == tr.maskHead(g[t][l], mfs[t])
  {
    (seq(tr.numLayers, l requires 0 <= l < tr.numLayers =>
       seq(|g|, t requires 0 <= t < |g| => tr.classHead(g[t][l]))),
     seq(tr.numLayers, l requires 0 <= l < tr.numLayers =>
       seq(|g|, t requires 0 <= t < |g| => tr.maskHead(g[t][l], mfs[t]))))
  }

  /** Deep supervision: the predictions of every layer but the last, paired in layer order. */
  function SetAuxLoss(classes: seq<seq<ClassLogits>>, masks: seq<seq<MaskLogits>>): (r: seq<AuxOutput>)
    ensures |r| == Min(|DropLast(classes)|, |DropLast(masks)|)
    ensures |classes| == |masks| >= 1 ==> |r| == |classes| - 1
    ensures forall j :: 0 <= j < |r| ==> r[j] == AuxOutput(classes[j], masks[j])
  {
    var n := Min(|DropLast(classes)|, |DropLast(masks)|);
    seq(n, j requires 0 <= j < n => AuxOutput(classes[j], masks[j]))
  }

  /** The last-layer state of every frame (the exported `pred_embds`). */
  function LastLayer(g: seq<seq<State>>): (r: seq<State>)
    requires forall t :: 0 <= t < |g| ==> |g[t]| > 0
    ensures |r| == |g|
    ensures forall t :: 0 <= t < |g| ==> r[t] == Last(g[t])
  {
    seq(|g|, t requires 0 <= t < |g| => Last(g[t]))
  }

  /** The tracker's result for a frame x layer grid `g` and projected mask features `pmfs`. */
  function GridOutput(tr: Tracker, g: seq<seq<State>>, pmfs: seq<MaskFeatures>): (out: TrackOutput)
    requires tr.Valid() && |pmfs| == |g|
    requires forall t :: 0 <= t < |g| ==> |g[t]| == tr.numLayers
    ensures |out.predLogits| == |out.predMasks| == |out.predEmbds| == |g|
    ensures |out.auxOutputs| == tr.numLayers - 1
  {
    var p := Prediction(tr, g, pmfs);
    TrackOutput(p.0[tr.numLayers - 1], p.1[tr.numLayers - 1], SetAuxLoss(p.0, p.1), LastLayer(g))
  }

  /**
   * What QueryTracker.forward returns for frames `es` with mask features `mfs`,
   * starting from the learned queries or from the projected seed.
   */
  function TrackerOutput(tr: Tracker, es: seq<FrameEmbeds>, mfs: seq<MaskFeatures>, initQuery: Option<State>)
    : (out: TrackOutput)
    requires tr.Valid() && |mfs| == |es|
    ensures |out.predLogits| == |out.predMasks| == |out.predEmbds| == |es|
    ensures |out.auxOutputs| == tr.numLayers - 1
  {
    GridOutput(tr, Trace(tr, InitialState(tr, initQuery), es), ProjectMaskFeatures(tr, mfs))
  }

  /**
   * Frame t of the tracker's result: the final predictions and the exported
   * embedding come from the last layer, the auxiliary output j from layer j,
   * for every layer but the last.
   */
  lemma TrackerOutputAt(tr: Tracker, es: seq<FrameEmbeds>, mfs: seq<MaskFeatures>, initQuery: Option<State>, t: nat)
    requires tr.Valid() && |mfs| == |es| && t < |es|
    ensures var out := TrackerOutput(tr, es, mfs, initQuery);
            var g := Trace(tr, InitialState(tr, initQuery), es);
            var L := tr.numLayers;
            && out.predEmbds[t] == g[t][L - 1]
            && out.predLogits[t] == tr.classHead(g[t][L - 1])
            && out.predMasks[t] == tr.maskHead(g[t][L - 1], tr.maskFeatureProj(mfs[t]))
            && (forall j :: 0 <= j < L - 1 ==>
                  && |out.auxOutputs[j].predLogits| == |out.auxOutputs[j].predMasks| == |es|
                  && out.auxOutputs[j].predLogits[t] == tr.classHead(g[t][j])
                  && out.auxOutputs[j].predMasks[t] == tr.maskHead(g[t][j], tr.maskFeatureProj(mfs[t])))
  {
  }

  /**
   * The per-frame outputs of a grid depend only on that frame's row and mask
   * features: the outputs of rows a .. b-1 are frames a .. b-1 of the outputs.
   */
  lemma GridOutputSlice(tr: Tracker, g: seq<seq<State>>, pmfs: seq<MaskFeatures>, a: nat, b: nat)
    requires tr.Valid() && |pmfs| == |g| && a <= b <= |g|
    requires forall t :: 0 <= t < |g| ==> |g[t]| == tr.numLayers
    ensures var whole := GridOutput(tr, g, pmfs);
            var part := GridOutput(tr, g[a..b], pmfs[a..b]);
            && part.predLogits == whole.predLogits[a..b]
            && part.predMasks == whole.predMasks[a..b]
            && part.predEmbds == whole.predEmbds[a..b]
  {
    var whole := GridOutput(tr, g, pmfs);
    var part := GridOutput(tr, g[a..b], pmfs[a..b]);
    forall t | 0 <= t < b - a
      ensures part.predLogits[t] == whole.predLogits[a + t]
      ensures part.predMasks[t] == whole.predMasks[a + t]
      ensures part.predEmbds[t] == whole.predEmbds[a + t]
    {
      assert g[a..b][t] == g[a + t];
    }
  }

  /** The layer loop of one frame: every layer's output, in order. */
  method DecodeFrame(tr: Tracker, entry: State, e: FrameEmbeds) returns (msOutput: seq<State>)
    ensures msOutput == FrameOutputs(tr, entry, e)
  {
    var output := entry;
    msOutput := [];
    var j := 0;
    while j < tr.numLayers
      invariant 0 <= j <= tr.numLayers
      invariant msOutput == LayerOutputs(tr, entry, e, j)
      invariant output == if j == 0 then entry else msOutput[j - 1]
    {
      output := tr.crossAttend(j, output, e);
      output := tr.selfAttend(j, output);
      output := tr.ffn(j, output);
      msOutput := msOutput + [output];
      j := j + 1;
    }
  }

  /**
   * The frame loop of QueryTracker.forward: every frame goes through the
   * decoder layers, and the projected last-layer output (detached or not:
   * the value is the same) is the state the next frame starts from.
   */
  method RunFrames(tr: Tracker, s0: State, frameEmbeds: seq<FrameEmbeds>) returns (outputs: seq<seq<State>>)
    requires tr.Valid()
    ensures outputs == Trace(tr, s0, frameEmbeds)
  {
    var output := s0;
    outputs := [];
    var i := 0;
    while i < |frameEmbeds|
      invariant 0 <= i <= |frameEmbeds|
      invariant outputs == Trace(tr, s0, frameEmbeds[..i])
      invariant output == StateAfter(tr, s0, frameEmbeds[..i])
    {
      var msOutput := DecodeFrame(tr, output, frameEmbeds[i]);
      output := Last(msOutput);
      if tr.detachFrameConnection {
        output := Detach(output);
      }
      output := tr.frameProj(output);
      outputs := outputs + [msOutput];
      assert frameEmbeds[..i + 1][..i] == frameEmbeds[..i];
      i := i + 1;
    }
    assert frameEmbeds[..i] == frameEmbeds;
  }

  /**
   * QueryTracker.forward: project the mask features, start from the learned
   * queries or the projected seed, run the frame loop, then apply the
   * prediction heads to every (frame, layer) state.
   */
  method Forward(tr: Tracker, frameEmbeds: seq<FrameEmbeds>, maskFeatures: seq<MaskFeatures>,
                 initQuery: Option<State>)
    returns (out: TrackOutput)
    requires tr.Valid()
    requires |frameEmbeds| >= 1 && |maskFeatures| == |frameEmbeds|
    ensures out == TrackerOutput(tr, frameEmbeds, maskFeatures, initQuery)
  {
    var projected := ProjectMaskFeatures(tr, maskFeatures);
    var s0 := if initQuery.None? then tr.queryFeat else tr.frameProj(initQuery.value);
    assert s0 == InitialState(tr, initQuery);
    var outputs := RunFrames(tr, s0, frameEmbeds);
    out := GridOutput(tr, outputs, projected);
  }

  /**
   * Running the tracker over `a + b` is running it over `a`, then over `b`
   * from the state `a` left behind.
   */
  lemma {:induction false} TraceAppend(tr: Tracker, s: State, a: seq<FrameEmbeds>, b: seq<FrameEmbeds>)
    requires tr.Valid()
    ensures Trace(tr, s, a + b) == Trace(tr, s, a) + Trace(tr, StateAfter(tr, s, a), b)
    ensures StateAfter(tr, s, a + b) == StateAfter(tr, StateAfter(tr, s, a), b)
    decreases |b|
  {
    if b == [] {
      assert a + b == a;
    } else {
      var b' := b[..|b| - 1];
      assert (a + b)[..|a + b| - 1] == a + b';
      assert Last(a + b) == Last(b);
      TraceAppend(tr, s, a, b');
    }
  }

  /**
   * The exported embedding of the last frame, projected by `frameProj`, is the
   * state the frame loop itself hands on: seeding the next chunk with it
   * continues the recurrence.
   */
  lemma SeedContinuesRecurrence(tr: Tracker, es: seq<FrameEmbeds>, mfs: seq<MaskFeatures>, initQuery: Option<State>)
    requires tr.Valid() && |es| >= 1 && |mfs| == |es|
    ensures InitialState(tr, Some(Last(TrackerOutput(tr, es, mfs, initQuery).predEmbds)))
            == StateAfter(tr, InitialState(tr, initQuery), es)
  {
  }

  /** The grid of the first b frames is the first b rows of the grid: later frames do not change earlier rows. */
  lemma TracePrefix(tr: Tracker, s: State, es: seq<FrameEmbeds>, b: nat)
    requires tr.Valid() && b <= |es|
    ensures Trace(tr, s, es[..b]) == Trace(tr, s, es)[..b]
  {
    TraceAppend(tr, s, es[..b], es[b..]);
    assert es[..b] + es[b..] == es;
  }

  /** The state after the first a frames is the projected last-layer state of frame a-1. */
  lemma StateAfterPrefix(tr: Tracker, s: State, es: seq<FrameEmbeds>, a: nat)
    requires tr.Valid() && 0 < a <= |es|
    ensures StateAfter(tr, s, es[..a]) == tr.frameProj(Trace(tr, s, es)[a - 1][tr.numLayers - 1])
  {
    TraceAppend(tr, s, es[..a], es[a..]);
    assert es[..a] + es[a..] == es;
    assert es[..a][..a - 1] == es[..a - 1];
  }

  /**
   * Running the tracker on frames a .. b-1 alone, from the state a single
   * pass had reached after frame a-1, reproduces rows a .. b-1 of that pass.
   */
  lemma TraceSuffix(tr: Tracker, s: State, es: seq<FrameEmbeds>, a: nat, b: nat)
    requires tr.Valid() && a <= b <= |es|
    ensures Trace(tr, StateAfter(tr, s, es[..a]), es[a..b]) == Trace(tr, s, es)[a..b]
  {
    TracePrefix(tr, s, es, b);
    TraceAppend(tr, s, es[..a], es[a..b]);
    assert es[..a] + es[a..b] == es[..b];
    var g := Trace(tr, s, es);
    assert g[a..b] == g[..b][a..];
  }

  /** The seed taken from frame a-1 of a single pass starts the tracker in the state that pass had reached. */
  lemma SeedState(tr: Tracker, es: seq<FrameEmbeds>, mfs: seq<MaskFeatures>, a: nat, seed: Option<State>)
    requires tr.Valid() && |mfs| == |es| && a <= |es|
    requires a == 0 ==> seed == None
    requires a > 0 ==> seed == Some(TrackerOutput(tr, es, mfs, None).predEmbds[a - 1])
    ensures InitialState(tr, seed) == StateAfter(tr, tr.queryFeat, es[..a])
  {
    if a > 0 {
      StateAfterPrefix(tr, tr.queryFeat, es, a);
      TrackerOutputAt(tr, es, mfs, None, a - 1);
    } else {
      assert es[..a] == [];
    }
  }

  /**
   * Frames a .. b-1 run on their own, seeded (when a > 0) with the exported
   * embedding of frame a-1 of a single pass over `es`, give frames a .. b-1
   * of that single pass.
   */
  lemma ResumeFromSeed(tr: Tracker, es: seq<FrameEmbeds>, mfs: seq<MaskFeatures>, a: nat, b: nat, seed: Option<State>)
    requires tr.Valid() && |mfs| == |es| && a <= b <= |es|
    requires a == 0 ==> seed == None
    requires a > 0 ==> seed == Some(TrackerOutput(tr, es, mfs, None).predEmbds[a - 1])
    ensures var whole := TrackerOutput(tr, es, mfs, None);
            var part := TrackerOutput(tr, es[a..b], mfs[a..b], seed);
            && part.predLogits == whole.predLogits[a..b]
            && part.predMasks == whole.predMasks[a..b]
            && part.predEmbds == whole.predEmbds[a..b]
  {
    SeedState(tr, es, mfs, a, seed);
    TraceSuffix(tr, tr.queryFeat, es, a, b);
    var g := Trace(tr, tr.queryFeat, es);
    var pm := ProjectMaskFeatures(tr, mfs);
    assert ProjectMaskFeatures(tr, mfs[a..b]) == pm[a..b];
    assert TrackerOutput(tr, es[a..b], mfs[a..b], seed) == GridOutput(tr, g[a..b], pm[a..b]);
    GridOutputSlice(tr, g, pm, a, b);
  }
}

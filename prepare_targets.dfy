/**
 * Training targets of a video (`prepare_targets`).  Each video carries one
 * annotation record per frame, all listing the same instances in the same
 * order.  The per-frame ids are gathered into an instance-by-frame id matrix,
 * the per-frame masks are written into a zero-filled buffer padded to the
 * batch's image size, and an instance is kept exactly when it is present (its
 * id is not -1) in at least one frame.  The same keep-mask filters labels,
 * ids and masks, so the three stay aligned.
 */
module PrepareTargets {
  import opened Wrappers

  /** The annotations of one frame: one id, class and `height`×`width` mask per instance. */
  datatype FrameTargets<C> = FrameTargets(
    height: nat,
    width: nat,
    gtIds: seq<int>,
    gtClasses: seq<C>,
    gtMasks: seq<seq<seq<bool>>>)

  /** The target of one video: per kept instance its label, its id in every frame and its padded masks. */
  datatype VideoTargets<C> = VideoTargets(
    labels: seq<C>,
    ids: seq<seq<int>>,
    masks: seq<seq<seq<seq<bool>>>>)

  /** The id that marks an instance as absent from a frame. */
  const Absent: int := -1

  /** A mask of `h` rows of `w` pixels. */
  predicate IsMask(mask: seq<seq<bool>>, h: nat, w: nat)
  {
    |mask| == h && IsRect(mask, w)
  }

  /** One frame holds `n` masks of its own `height`×`width` size. */
  predicate MasksFit<C>(fr: FrameTargets<C>, n: nat)
  {
    && |fr.gtMasks| == n
    && (forall i :: 0 <= i < n ==> IsMask(fr.gtMasks[i], fr.height, fr.width))
  }

  /** One frame's annotations describe `n` instances and fit in the padded `hPad`×`wPad` buffer. */
  predicate FrameFits<C>(fr: FrameTargets<C>, n: nat, hPad: nat, wPad: nat)
  {
    && |fr.gtIds| == n
    && MasksFit(fr, n)
    && fr.height <= hPad && fr.width <= wPad
  }

  /**
   * What the computation demands of a video: at least one frame (the instance
   * count is read from frame 0 and the labels from the last frame), no more
   * frames than the buffer has, the same `n` instances in every frame (the ids
   * are concatenated column by column), masks that fit the padded size, and
   * one class per instance in the last frame.
   */
  predicate WellFormed<C>(frames: seq<FrameTargets<C>>, numFrames: nat, hPad: nat, wPad: nat)
  {
    && 1 <= |frames| <= numFrames
    && (forall f :: 0 <= f < |frames| ==> FrameFits(frames[f], |frames[0].gtIds|, hPad, wPad))
    && |Last(frames).gtClasses| == |frames[0].gtIds|
  }

  /** The per-frame id columns, in frame order. */
  function IdColumns<C>(frames: seq<FrameTargets<C>>): (r: seq<seq<int>>)
    ensures |r| == |frames|
    ensures forall f :: 0 <= f < |frames| ==> r[f] == frames[f].gtIds
  {
    seq(|frames|, f requires 0 <= f < |frames| => frames[f].gtIds)
  }

  /** The instance-by-frame id matrix: the columns concatenated side by side. */
  function IdMatrix<C>(frames: seq<FrameTargets<C>>, n: nat): seq<seq<int>>
    requires IsRect(IdColumns(frames), n)
  {
    Transpose(IdColumns(frames), n)
  }

  /** An instance is present in some frame. */
  predicate AnyPresent(row: seq<int>)
  {
    exists f :: 0 <= f < |row| && row[f] != Absent
  }

  /** `valid_idx`: the per-instance keep-mask. */
  function Keep(ids: seq<seq<int>>): (r: seq<bool>)
    ensures |r| == |ids|
    ensures forall i :: 0 <= i < |ids| ==> (r[i] <==> AnyPresent(ids[i]))
  {
    Map(AnyPresent, ids)
  }

  /** The positions whose flag is set, in increasing order. */
  function KeptIndices(keep: seq<bool>): (r: seq<nat>)
    ensures forall j :: 0 <= j < |r| ==> r[j] < |keep| && keep[r[j]]
    ensures forall j, j' :: 0 <= j < j' < |r| ==> r[j] < r[j']
  {
    if |keep| == 0 then []
    else
      var rest := KeptIndices(DropLast(keep));
      if Last(keep) then rest + [|keep| - 1] else rest
  }

  /** Boolean-mask indexing `xs[keep]`: entry `j` is the entry at the `j`-th kept position. */
  function Filter<T>(xs: seq<T>, keep: seq<bool>): (r: seq<T>)
    requires |keep| == |xs|
    ensures |r| == |KeptIndices(keep)|
    ensures forall j :: 0 <= j < |r| ==> r[j] == xs[KeptIndices(keep)[j]]
  {
    if |xs| == 0 then []
    else
      var rest := Filter(DropLast(xs), DropLast(keep));
      if Last(keep) then rest + [Last(xs)] else rest
  }

  /** The pixel `(y, x)` of instance `i` in one frame's padded mask: the annotation inside the frame's region, zero elsewhere. */
  function MaskPixel<C>(fr: FrameTargets<C>, i: nat, y: nat, x: nat): bool
    requires i < |fr.gtMasks| && IsMask(fr.gtMasks[i], fr.height, fr.width)
  {
    y < fr.height && x < fr.width && fr.gtMasks[i][y][x]
  }

  /** The pixel `(y, x)` of instance `i` in frame slot `f` of the buffer: zero in slots past the video's last frame. */
  function PaddedPixel<C>(frames: seq<FrameTargets<C>>, n: nat, i: nat, f: nat, y: nat, x: nat): bool
    requires forall g :: 0 <= g < |frames| ==> MasksFit(frames[g], n)
    requires i < n
  {
    if f < |frames| then
      assert MasksFit(frames[f], n);
      MaskPixel(frames[f], i, y, x)
    else
      false
  }

  /** The padded `n`×`numFrames`×`hPad`×`wPad` mask tensor. */
  function MaskTensor<C>(frames: seq<FrameTargets<C>>, numFrames: nat, hPad: nat, wPad: nat): seq<seq<seq<seq<bool>>>>
    requires WellFormed(frames, numFrames, hPad, wPad)
  {
    var n := |frames[0].gtIds|;
    seq(n, i requires 0 <= i < n =>
      seq(numFrames, f requires 0 <= f < numFrames =>
        seq(hPad, y requires 0 <= y < hPad =>
          seq(wPad, x requires 0 <= x < wPad => PaddedPixel(frames, n, i, f, y, x)))))
  }

  /** The target prepare_targets builds for one video: its labels, its id matrix and its padded mask tensor. */
  function VideoTarget<C>(frames: seq<FrameTargets<C>>, numFrames: nat, hPad: nat, wPad: nat): VideoTargets<C>
    requires WellFormed(frames, numFrames, hPad, wPad)
  {
    var n := |frames[0].gtIds|;
    var ids := IdMatrix(frames, n);
    var keep := Keep(ids);
    VideoTargets(
      Filter(Last(frames).gtClasses, keep),
      Filter(ids, keep),
      Filter(MaskTensor(frames, numFrames, hPad, wPad), keep))
  }

  // ---------------------------------------------------------------------------
  // Boolean-mask indexing
  // ---------------------------------------------------------------------------

  /** A position is kept exactly when its flag is set. */
  lemma {:induction false} KeptIndicesComplete(keep: seq<bool>)
    ensures forall i :: 0 <= i < |keep| ==> (keep[i] <==> i in KeptIndices(keep))
  {
    if |keep| > 0 {
      KeptIndicesComplete(DropLast(keep));
      forall i | 0 <= i < |keep| - 1
        ensures keep[i] <==> i in KeptIndices(keep)
      {
        assert keep[i] == DropLast(keep)[i];
      }
    }
  }

  // ---------------------------------------------------------------------------
  // Properties of the target
  // ---------------------------------------------------------------------------

  /** Column `f` of the id matrix is frame `f`'s id list. */
  lemma IdColumn<C>(frames: seq<FrameTargets<C>>, numFrames: nat, hPad: nat, wPad: nat, i: nat, f: nat)
    requires WellFormed(frames, numFrames, hPad, wPad)
    requires i < |frames[0].gtIds| && f < |frames|
    ensures |IdMatrix(frames, |frames[0].gtIds|)| == |frames[0].gtIds|
    ensures |IdMatrix(frames, |frames[0].gtIds|)[i]| == |frames|
    ensures IdMatrix(frames, |frames[0].gtIds|)[i][f] == frames[f].gtIds[i]
  {
  }

  /**
   * The three lists have one entry per kept instance, and entry `j` of each
   * describes the same instance: the `j`-th kept one, in the original order.
   * Its label comes from the last frame, its id row from every frame, and its
   * masks are the padded masks of that instance.
   */
  lemma Aligned<C>(frames: seq<FrameTargets<C>>, numFrames: nat, hPad: nat, wPad: nat)
    requires WellFormed(frames, numFrames, hPad, wPad)
    ensures var t := VideoTarget(frames, numFrames, hPad, wPad);
            var n := |frames[0].gtIds|;
            var kept := KeptIndices(Keep(IdMatrix(frames, n)));
            && |t.labels| == |t.ids| == |t.masks| == |kept|
            && (forall j, j' :: 0 <= j < j' < |kept| ==> kept[j] < kept[j'])
            && (forall j :: 0 <= j < |kept| ==>
                  && kept[j] < n
                  && t.labels[j] == Last(frames).gtClasses[kept[j]]
                  && |t.ids[j]| == |frames|
                  && (forall f :: 0 <= f < |frames| ==> t.ids[j][f] == frames[f].gtIds[kept[j]])
                  && t.masks[j] == MaskTensor(frames, numFrames, hPad, wPad)[kept[j]])
  {
  }

  /** Instance `i` is kept exactly when its id differs from -1 in at least one frame. */
  lemma KeptIff<C>(frames: seq<FrameTargets<C>>, numFrames: nat, hPad: nat, wPad: nat, i: nat)
    requires WellFormed(frames, numFrames, hPad, wPad)
    requires i < |frames[0].gtIds|
    ensures i in KeptIndices(Keep(IdMatrix(frames, |frames[0].gtIds|)))
      <==> exists f :: 0 <= f < |frames| && frames[f].gtIds[i] != Absent
  {
    var n := |frames[0].gtIds|;
    var ids := IdMatrix(frames, n);
    KeptIndicesComplete(Keep(ids));
    if AnyPresent(ids[i]) {
      var f :| 0 <= f < |ids[i]| && ids[i][f] != Absent;
      assert frames[f].gtIds[i] != Absent;
    }
    if exists f :: 0 <= f < |frames| && frames[f].gtIds[i] != Absent {
      var f :| 0 <= f < |frames| && frames[f].gtIds[i] != Absent;
      assert ids[i][f] != Absent;
    }
  }

  /**
   * Every kept mask is the padded annotation: inside frame `f`'s `h`×`w`
   * region it is the frame's mask, and every other pixel (outside the region
   * or in a frame slot past the video's length) is zero.
   */
  lemma MaskPadding<C>(frames: seq<FrameTargets<C>>, numFrames: nat, hPad: nat, wPad: nat, j: nat, f: nat, y: nat, x: nat)
    requires WellFormed(frames, numFrames, hPad, wPad)
    requires j < |KeptIndices(Keep(IdMatrix(frames, |frames[0].gtIds|)))|
    requires f < numFrames && y < hPad && x < wPad
    ensures var t := VideoTarget(frames, numFrames, hPad, wPad);
            var i := KeptIndices(Keep(IdMatrix(frames, |frames[0].gtIds|)))[j];
            && |t.masks[j]| == numFrames && |t.masks[j][f]| == hPad && |t.masks[j][f][y]| == wPad
            && i < |frames[0].gtIds|
            && t.masks[j][f][y][x] == (f < |frames| && y < frames[f].height && x < frames[f].width
                                       && frames[f].gtMasks[i][y][x])
  {
    Aligned(frames, numFrames, hPad, wPad);
  }

  // ---------------------------------------------------------------------------
  // The imperative computation
  // ---------------------------------------------------------------------------

  /** `buf[i, f, y, :w] = row`. */
  method WriteRow(buf: array4<bool>, i: nat, f: nat, y: nat, row: seq<bool>)
    requires i < buf.Length0 && f < buf.Length1 && y < buf.Length2 && |row| <= buf.Length3
    modifies buf
    ensures forall i', g, y', x :: 0 <= i' < buf.Length0 && 0 <= g < buf.Length1 && 0 <= y' < buf.Length2 && 0 <= x < buf.Length3 ==>
              buf[i', g, y', x] == if i' == i && g == f && y' == y && x < |row| then row[x] else old(buf[i', g, y', x])
  {
    for x := 0 to |row|
      invariant forall i', g, y', x' :: 0 <= i' < buf.Length0 && 0 <= g < buf.Length1 && 0 <= y' < buf.Length2 && 0 <= x' < buf.Length3 ==>
                  buf[i', g, y', x'] == if i' == i && g == f && y' == y && x' < x then row[x'] else old(buf[i', g, y', x'])
    {
      buf[i, f, y, x] := row[x];
    }
  }

  /** `buf[i, f, :h, :w] = mask` for an `h`×`w` mask. */
  method WriteInstance(buf: array4<bool>, i: nat, f: nat, mask: seq<seq<bool>>, h: nat, w: nat)
    requires i < buf.Length0 && f < buf.Length1 && h <= buf.Length2 && w <= buf.Length3
    requires IsMask(mask, h, w)
    modifies buf
    ensures forall i', g, y, x :: 0 <= i' < buf.Length0 && 0 <= g < buf.Length1 && 0 <= y < buf.Length2 && 0 <= x < buf.Length3 ==>
              buf[i', g, y, x] == if i' == i && g == f && y < h && x < w then mask[y][x] else old(buf[i', g, y, x])
  {
    for y := 0 to h
      invariant forall i', g, y', x :: 0 <= i' < buf.Length0 && 0 <= g < buf.Length1 && 0 <= y' < buf.Length2 && 0 <= x < buf.Length3 ==>
                  buf[i', g, y', x] == if i' == i && g == f && y' < y && x < w then mask[y'][x] else old(buf[i', g, y', x])
    {
      WriteRow(buf, i, f, y, mask[y]);
    }
  }

  /** `buf[:, f, :h, :w] = gt_masks` for one frame. */
  method WriteFrame<C>(buf: array4<bool>, f: nat, fr: FrameTargets<C>)
    requires f < buf.Length1 && FrameFits(fr, buf.Length0, buf.Length2, buf.Length3)
    modifies buf
    ensures forall i, g, y, x :: 0 <= i < buf.Length0 && 0 <= g < buf.Length1 && 0 <= y < buf.Length2 && 0 <= x < buf.Length3 ==>
              buf[i, g, y, x] == if g == f && y < fr.height && x < fr.width then fr.gtMasks[i][y][x] else old(buf[i, g, y, x])
  {
    for i := 0 to buf.Length0
      invariant forall i', g, y, x :: 0 <= i' < buf.Length0 && 0 <= g < buf.Length1 && 0 <= y < buf.Length2 && 0 <= x < buf.Length3 ==>
                  buf[i', g, y, x] == if i' < i && g == f && y < fr.height && x < fr.width then fr.gtMasks[i'][y][x] else old(buf[i', g, y, x])
    {
      WriteInstance(buf, i, f, fr.gtMasks[i], fr.height, fr.width);
    }
  }

  /** The buffer's contents as nested sequences. */
  function Contents(buf: array4<bool>): seq<seq<seq<seq<bool>>>>
    reads buf
  {
    seq(buf.Length0, i requires 0 <= i < buf.Length0 reads buf =>
      seq(buf.Length1, f requires 0 <= f < buf.Length1 reads buf =>
        seq(buf.Length2, y requires 0 <= y < buf.Length2 reads buf =>
          seq(buf.Length3, x requires 0 <= x < buf.Length3 reads buf => buf[i, f, y, x]))))
  }

  /** A buffer holding every padded pixel reads back as the mask tensor. */
  lemma ContentsIsMaskTensor<C>(buf: array4<bool>, frames: seq<FrameTargets<C>>, numFrames: nat, hPad: nat, wPad: nat)
    requires WellFormed(frames, numFrames, hPad, wPad)
    requires buf.Length0 == |frames[0].gtIds| && buf.Length1 == numFrames && buf.Length2 == hPad && buf.Length3 == wPad
    requires forall i, f, y, x :: 0 <= i < buf.Length0 && 0 <= f < numFrames && 0 <= y < hPad && 0 <= x < wPad ==>
               buf[i, f, y, x] == PaddedPixel(frames, buf.Length0, i, f, y, x)
    ensures Contents(buf) == MaskTensor(frames, numFrames, hPad, wPad)
  {
    var c := Contents(buf);
    var m := MaskTensor(frames, numFrames, hPad, wPad);
    forall i | 0 <= i < buf.Length0
      ensures c[i] == m[i]
    {
      forall f | 0 <= f < numFrames
        ensures c[i][f] == m[i][f]
      {
        forall y | 0 <= y < hPad
          ensures c[i][f][y] == m[i][f][y]
        {
        }
      }
    }
  }

  /** The target of one video, built as prepare_targets builds it: ids appended frame by frame, masks written in place. */
  method PrepareVideo<C>(frames: seq<FrameTargets<C>>, numFrames: nat, hPad: nat, wPad: nat) returns (t: VideoTargets<C>)
    requires WellFormed(frames, numFrames, hPad, wPad)
    ensures t == VideoTarget(frames, numFrames, hPad, wPad)
  {
    var n := |frames[0].gtIds|;
    var buf := new bool[n, numFrames, hPad, wPad]((i, f, y, x) => false);
    var columns: seq<seq<int>> := [];
    for f := 0 to |frames|
      invariant columns == IdColumns(frames[..f])
      invariant forall i, g, y, x :: 0 <= i < n && 0 <= g < numFrames && 0 <= y < hPad && 0 <= x < wPad ==>
                  buf[i, g, y, x] == (g < f && PaddedPixel(frames, n, i, g, y, x))
    {
      columns := columns + [frames[f].gtIds];
      WriteFrame(buf, f, frames[f]);
    }
    assert frames[..|frames|] == frames;
    var ids := Transpose(columns, n);
    var keep := Keep(ids);
    ContentsIsMaskTensor(buf, frames, numFrames, hPad, wPad);
    t := VideoTargets(Filter(Last(frames).gtClasses, keep), Filter(ids, keep), Filter(Contents(buf), keep));
  }

  /** Every video of a batch is well formed. */
  predicate BatchWellFormed<C>(videos: seq<seq<FrameTargets<C>>>, numFrames: nat, hPad: nat, wPad: nat)
  {
    forall v :: 0 <= v < |videos| ==> WellFormed(videos[v], numFrames, hPad, wPad)
  }

  /** The targets of the first `k` videos of a batch, one per video and in order. */
  function BatchTargets<C>(videos: seq<seq<FrameTargets<C>>>, k: nat, numFrames: nat, hPad: nat, wPad: nat): (r: seq<VideoTargets<C>>)
    requires BatchWellFormed(videos, numFrames, hPad, wPad) && k <= |videos|
    ensures |r| == k
  {
    if k == 0 then []
    else BatchTargets(videos, k - 1, numFrames, hPad, wPad) + [VideoTarget(videos[k - 1], numFrames, hPad, wPad)]
  }

  /** Entry `v` of the batch's targets is video `v`'s target. */
  lemma {:induction false} BatchTargetsAt<C>(videos: seq<seq<FrameTargets<C>>>, k: nat, numFrames: nat, hPad: nat, wPad: nat, v: nat)
    requires BatchWellFormed(videos, numFrames, hPad, wPad)
    requires v < k <= |videos|
    ensures WellFormed(videos[v], numFrames, hPad, wPad)
    ensures BatchTargets(videos, k, numFrames, hPad, wPad)[v] == VideoTarget(videos[v], numFrames, hPad, wPad)
  {
    if v < k - 1 {
      BatchTargetsAt(videos, k - 1, numFrames, hPad, wPad, v);
    }
  }

  /** `prepare_targets`: the videos are processed one after the other and their targets appended. */
  method PrepareTargets<C>(videos: seq<seq<FrameTargets<C>>>, numFrames: nat, hPad: nat, wPad: nat) returns (targets: seq<VideoTargets<C>>)
    requires BatchWellFormed(videos, numFrames, hPad, wPad)
    ensures targets == BatchTargets(videos, |videos|, numFrames, hPad, wPad)
  {
    targets := [];
    for v := 0 to |videos|
      invariant targets == BatchTargets(videos, v, numFrames, hPad, wPad)
    {
      var t := PrepareVideo(videos[v], numFrames, hPad, wPad);
      targets := targets + [t];
    }
  }
}

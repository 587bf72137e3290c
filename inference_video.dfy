/**
 * Video-level decoding (VideoMaskFormer_frame.inference_video): the class
 * scores of all (query, class) pairs are flattened, the `maxNum` best pairs
 * are taken, and every selected flat index is decoded back into its query
 * (which picks the mask) and its class (the label).
 *
 * Two class counts meet here.  The score rows come from the tracker's
 * classifier, which has `trackerClasses` + 1 outputs (`class_num`, fixed at
 * 25 where VideoMaskFormer_frame builds its QueryTracker); the label table
 * and the `//` that recovers the query use the dataset's `numClasses`
 * (`sem_seg_head.num_classes`).  The two agree only when the dataset has 25
 * classes; `MismatchedClassCounts` and `FewerClassesFail` show what happens
 * otherwise, and `InferenceVideoMatched` is the decoding with one count.
 *
 * The softmax of one query's logits, `topk` and the per-mask resize and
 * threshold pipeline are parameters; only the index bookkeeping around them
 * is modelled.
 */
module InferenceVideo {
  import opened Wrappers

  /** The `video_output` dictionary. */
  datatype VideoOutput<S, B> = VideoOutput(
    imageSize: (nat, nat),
    predScores: seq<S>,
    predLabels: seq<nat>,
    predMasks: seq<B>)

  /** `m.flatten(0, 1)`: the rows of `m`, one after the other. */
  function Flatten<T>(m: seq<seq<T>>): seq<T>
    decreases |m|
  {
    if m == [] then [] else Flatten(DropLast(m)) + Last(m)
  }

  lemma {:induction false} FlattenLength<T>(m: seq<seq<T>>, cols: nat)
    requires IsRect(m, cols)
    ensures |Flatten(m)| == |m| * cols
    decreases |m|
  {
    if m != [] {
      FlattenLength(DropLast(m), cols);
      assert |m| * cols == (|m| - 1) * cols + cols;
    }
  }

  /** Entry (q, c) of a matrix with `cols` columns sits at flat index q * cols + c. */
  lemma {:induction false} FlattenAt<T>(m: seq<seq<T>>, cols: nat, q: nat, c: nat, k: nat)
    requires IsRect(m, cols) && q < |m| && c < cols && k == q * cols + c
    ensures k < |Flatten(m)| && Flatten(m)[k] == m[q][c]
    decreases |m|
  {
    var front := DropLast(m);
    FlattenLength(front, cols);
    if q < |m| - 1 {
      FlattenAt(front, cols, q, c, k);
    }
  }

  /** Flat index k of a matrix with `cols` columns is entry (k / cols, k % cols). */
  lemma FlattenIndex<T>(m: seq<seq<T>>, cols: nat, k: nat)
    requires IsRect(m, cols) && cols > 0 && k < |m| * cols
    ensures k / cols < |m| && k % cols < cols && k < |Flatten(m)|
    ensures Flatten(m)[k] == m[k / cols][k % cols]
  {
    DivMod(k, cols);
    QueryBelow(k, |m|, cols);
    FlattenAt(m, cols, k / cols, k % cols, k);
  }

  /**
   * `torch.arange(C).unsqueeze(0).repeat(numQueries, 1).flatten(0, 1)`: the
   * class of every flat (query, class) index.
   */
  function LabelTable(numQueries: nat, numClasses: nat): (r: seq<nat>)
    ensures |r| == numQueries * numClasses
  {
    FlattenLength(LabelRows(numQueries, numClasses), numClasses);
    Flatten(LabelRows(numQueries, numClasses))
  }

  /** `numQueries` copies of the class range 0 .. C-1. */
  function LabelRows(numQueries: nat, numClasses: nat): (m: seq<seq<nat>>)
    ensures |m| == numQueries && IsRect(m, numClasses)
    ensures forall q, c :: 0 <= q < numQueries && 0 <= c < numClasses ==> m[q][c] == c
  {
    seq(numQueries, q => seq(numClasses, c requires 0 <= c < numClasses => c as nat))
  }

  /** The label table holds the class part k % C of every flat index k. */
  lemma LabelTableAt(numQueries: nat, numClasses: nat, k: nat)
    requires k < numQueries * numClasses
    ensures |LabelTable(numQueries, numClasses)| == numQueries * numClasses
    ensures LabelTable(numQueries, numClasses)[k] == k % numClasses
  {
    var m := LabelRows(numQueries, numClasses);
    QueryBelow(k, numQueries, numClasses);
    FlattenLength(m, numClasses);
    DivMod(k, numClasses);
    var q, c := k / numClasses, k % numClasses;
    FlattenAt(m, numClasses, q, c, k);
    assert m[q][c] == c;
  }

  /** `topk` returns k distinct indices into its input, for every k up to its length. */
  ghost predicate TopKValid<S(!new)>(topk: (seq<S>, nat) -> seq<nat>)
  {
    forall s, k: nat :: k <= |s| ==>
      var idx := topk(s, k);
      && |idx| == k
      && (forall j :: 0 <= j < k ==> idx[j] < |s|)
      && (forall i, j :: 0 <= i < j < k ==> idx[i] != idx[j])
  }

  /** `F.softmax(pred_cls, dim=-1)[:, :-1]`: every class but the last ("no object"). */
  function ClassScores<L, S>(softmax: L -> seq<S>, predCls: seq<L>): (r: seq<seq<S>>)
    ensures |r| == |predCls|
    ensures forall q :: 0 <= q < |predCls| ==> r[q] == DropLast(softmax(predCls[q]))
  {
    Map(row => DropLast(softmax(row)), predCls)
  }

  lemma DivMod(k: nat, cols: nat)
    requires cols > 0
    ensures k == (k / cols) * cols + k % cols && k % cols < cols
  {
  }

  /** An index below n * C belongs to one of the n queries. */
  lemma QueryBelow(k: nat, n: nat, numClasses: nat)
    requires k < n * numClasses
    ensures numClasses > 0 && 0 <= k / numClasses < n
  {
    if k / numClasses >= n {
      MulMono(n, k / numClasses, numClasses);
    }
  }

  /** The queries the flat indices select: `topk_indices // C`. */
  function QueryOf(idx: seq<nat>, numClasses: nat): (r: seq<nat>)
    requires |idx| > 0 ==> numClasses > 0
    ensures |r| == |idx|
    ensures forall j :: 0 <= j < |idx| ==> r[j] == idx[j] / numClasses
  {
    seq(|idx|, j requires 0 <= j < |idx| => idx[j] / numClasses)
  }

  /** Indices into the scores of n queries select queries below n. */
  lemma QueriesBelow(idx: seq<nat>, n: nat, numClasses: nat)
    requires forall j :: 0 <= j < |idx| ==> idx[j] < n * numClasses
    ensures |idx| > 0 ==> numClasses > 0
    ensures forall j :: 0 <= j < |idx| ==> idx[j] / numClasses < n
  {
    forall j | 0 <= j < |idx|
      ensures numClasses > 0 && idx[j] / numClasses < n
    {
      QueryBelow(idx[j], n, numClasses);
    }
    if |idx| > 0 {
      QueryBelow(idx[0], n, numClasses);
    }
  }

  /** Flat score k is the softmax of query k / C at class k % C, C being the row width less one. */
  lemma ScoreAt<L, S>(softmax: L -> seq<S>, predCls: seq<L>, width: nat, k: nat)
    requires forall q :: 0 <= q < |predCls| ==> |softmax(predCls[q])| == width + 1
    requires k < |predCls| * width
    ensures width > 0 && k / width < |predCls| && k % width < width
    ensures k < |Flatten(ClassScores(softmax, predCls))|
    ensures Flatten(ClassScores(softmax, predCls))[k] == softmax(predCls[k / width])[k % width]
  {
    QueryBelow(k, |predCls|, width);
    DivMod(k, width);
    var q, c := k / width, k % width;
    var scores := ClassScores(softmax, predCls);
    assert IsRect(scores, width) by {
      forall i | 0 <= i < |scores|
        ensures |scores[i]| == width
      {
        assert scores[i] == DropLast(softmax(predCls[i]));
      }
    }
    FlattenIndex(scores, width, k);
    var row := softmax(predCls[q]);
    assert scores[q] == DropLast(row);
    assert DropLast(row)[c] == row[c];
  }

  /** The flat (query, class) indices `topk` picks: `maxNum` distinct indices into the flat scores. */
  function Selected<L, S(!new)>(softmax: L -> seq<S>, topk: (seq<S>, nat) -> seq<nat>, predCls: seq<L>, maxNum: nat)
    : (idx: seq<nat>)
    ensures var flat := Flatten(ClassScores(softmax, predCls));
            TopKValid(topk) && maxNum <= |flat| ==>
              && |idx| == maxNum
              && (forall j :: 0 <= j < maxNum ==> idx[j] < |flat|)
              && (forall i, j :: 0 <= i < j < maxNum ==> idx[i] != idx[j])
  {
    topk(Flatten(ClassScores(softmax, predCls)), maxNum)
  }

  /**
   * inference_video: with no queries the three lists are empty; otherwise
   * `topk` picks `maxNum` flat indices of the (query, class) scores, whose
   * rows hold `trackerClasses` classes, and every index gives a score, a
   * label (looked up in the label table built for `numQueries` queries of
   * `numClasses` classes) and the rendered mask of query index / `numClasses`.
   * `topk` fails when asked for more entries than there are, the label lookup
   * when an index lies past the table, and the mask lookup when the query
   * lies past the predicted masks.
   */
  function InferenceVideo<L, M, S(!new), B>(
    softmax: L -> seq<S>, topk: (seq<S>, nat) -> seq<nat>,
    render: (M, (nat, nat), (nat, nat), (nat, nat)) -> B,
    numQueries: nat, numClasses: nat, trackerClasses: nat,
    predCls: seq<L>, predMasks: seq<M>, imgSize: (nat, nat), outH: nat, outW: nat, firstResize: (nat, nat),
    maxNum: nat)
    : Result<VideoOutput<S, B>, string>
    requires TopKValid(topk) && |predMasks| == |predCls|
    requires forall q :: 0 <= q < |predCls| ==> |softmax(predCls[q])| == trackerClasses + 1
  {
    if |predCls| > 0 then
      var scores := ClassScores(softmax, predCls);
      var flat := Flatten(scores);
      var labels := LabelTable(numQueries, numClasses);
      if maxNum > |flat| then Err("selected index k out of range")
      else
        var idx := Selected(softmax, topk, predCls, maxNum);
        if exists j :: 0 <= j < |idx| && idx[j] >= |labels| then Err("index out of bounds")
        else
          QueriesBelow(idx, numQueries, numClasses);
          var queries := QueryOf(idx, numClasses);
          if exists j :: 0 <= j < |queries| && queries[j] >= |predMasks| then Err("index out of bounds")
          else
            Ok(VideoOutput((outH, outW),
                           Reorder(flat, idx),
                           Reorder(labels, idx),
                           Map(mask => render(mask, firstResize, imgSize, (outH, outW)), Reorder(predMasks, queries))))
    else
      Ok(VideoOutput((outH, outW), [], [], []))
  }

  /**
   * Indices into the scores of n queries of `trackerClasses` classes, with no
   * more queries than `numQueries` and no more classes than `numClasses`, lie
   * in the label table and select predicted queries.
   */
  lemma IndicesWithin(idx: seq<nat>, n: nat, numQueries: nat, numClasses: nat, trackerClasses: nat)
    requires n <= numQueries && trackerClasses <= numClasses
    requires forall j :: 0 <= j < |idx| ==> idx[j] < n * trackerClasses
    ensures forall j :: 0 <= j < |idx| ==> idx[j] < numQueries * numClasses && idx[j] / numClasses < n
  {
    MulMono(trackerClasses, numClasses, n);
    MulMono(n, numQueries, numClasses);
    forall j | 0 <= j < |idx|
      ensures idx[j] < numQueries * numClasses && idx[j] / numClasses < n
    {
      QueryBelow(idx[j], n, numClasses);
    }
  }

  /**
   * With no queries the three lists are empty.  When the result exists, its
   * image size is the output size and the three lists have `maxNum` entries
   * each; asking for more entries than there are (query, class) scores fails,
   * and with no more queries than the label table was built for and no more
   * tracker classes than dataset classes any request within that count
   * succeeds.
   */
  lemma Outcome<L, M, S(!new), B>(
    softmax: L -> seq<S>, topk: (seq<S>, nat) -> seq<nat>,
    render: (M, (nat, nat), (nat, nat), (nat, nat)) -> B,
    numQueries: nat, numClasses: nat, trackerClasses: nat,
    predCls: seq<L>, predMasks: seq<M>, imgSize: (nat, nat), outH: nat, outW: nat, firstResize: (nat, nat),
    maxNum: nat)
    requires TopKValid(topk) && |predMasks| == |predCls|
    requires forall q :: 0 <= q < |predCls| ==> |softmax(predCls[q])| == trackerClasses + 1
    ensures var r := InferenceVideo(softmax, topk, render, numQueries, numClasses, trackerClasses, predCls, predMasks,
                                    imgSize, outH, outW, firstResize, maxNum);
            && (|predCls| == 0 ==> r == Ok(VideoOutput((outH, outW), [], [], [])))
            && (r.Ok? ==> r.value.imageSize == (outH, outW))
            && (r.Ok? && |predCls| > 0 ==>
                  |r.value.predScores| == |r.value.predLabels| == |r.value.predMasks| == maxNum)
            && (|predCls| > 0 && maxNum > |predCls| * trackerClasses ==> r.Err?)
            && (|predCls| <= numQueries && trackerClasses <= numClasses && maxNum <= |predCls| * trackerClasses ==> r.Ok?)
  {
    var n := |predCls|;
    if n > 0 {
      var scores := ClassScores(softmax, predCls);
      FlattenLength(scores, trackerClasses);
      if n <= numQueries && trackerClasses <= numClasses && maxNum <= n * trackerClasses {
        IndicesWithin(Selected(softmax, topk, predCls, maxNum), n, numQueries, numClasses, trackerClasses);
      }
    }
  }

  /**
   * Entry j of a successful result decodes the j-th selected flat index k
   * twice: its score is the softmax of query k / `trackerClasses` at class
   * k % `trackerClasses` (a real class, never the "no object" one), while
   * its label is k % `numClasses` and its mask the rendered mask of query
   * k / `numClasses`, a query below both the predicted and the configured
   * query counts.
   */
  lemma DecodeEntry<L, M, S(!new), B>(
    softmax: L -> seq<S>, topk: (seq<S>, nat) -> seq<nat>,
    render: (M, (nat, nat), (nat, nat), (nat, nat)) -> B,
    numQueries: nat, numClasses: nat, trackerClasses: nat,
    predCls: seq<L>, predMasks: seq<M>, imgSize: (nat, nat), outH: nat, outW: nat, firstResize: (nat, nat),
    maxNum: nat, j: nat)
    requires TopKValid(topk) && |predMasks| == |predCls|
    requires forall q :: 0 <= q < |predCls| ==> |softmax(predCls[q])| == trackerClasses + 1
    requires InferenceVideo(softmax, topk, render, numQueries, numClasses, trackerClasses, predCls, predMasks,
                            imgSize, outH, outW, firstResize, maxNum).Ok?
    requires |predCls| > 0 && j < maxNum
    ensures var out := InferenceVideo(softmax, topk, render, numQueries, numClasses, trackerClasses, predCls,
                                      predMasks, imgSize, outH, outW, firstResize, maxNum).value;
            var k := Selected(softmax, topk, predCls, maxNum)[j];
            && trackerClasses > 0 && numClasses > 0 && |Selected(softmax, topk, predCls, maxNum)| == maxNum
            && k / trackerClasses < |predCls| && k % trackerClasses < trackerClasses
            && k / numClasses < |predCls| && k / numClasses < numQueries && k % numClasses < numClasses
            && out.predLabels[j] == k % numClasses
            && out.predScores[j] == softmax(predCls[k / trackerClasses])[k % trackerClasses]
            && out.predMasks[j] == render(predMasks[k / numClasses], firstResize, imgSize, (outH, outW))
  {
    OkEntry(softmax, topk, render, numQueries, numClasses, trackerClasses, predCls, predMasks, imgSize,
            outH, outW, firstResize, maxNum, j);
    FlattenLength(ClassScores(softmax, predCls), trackerClasses);
    var k := Selected(softmax, topk, predCls, maxNum)[j];
    ScoreAt(softmax, predCls, trackerClasses, k);
    QueryBelow(k, numQueries, numClasses);
    LabelTableAt(numQueries, numClasses, k);
  }

  /**
   * Entry j of a successful result looks flat index k = `Selected(...)[j]`
   * up in the flat scores, in the label table and, through query
   * k / `numClasses`, in the predicted masks, every lookup within range.
   */
  lemma OkEntry<L, M, S(!new), B>(
    softmax: L -> seq<S>, topk: (seq<S>, nat) -> seq<nat>,
    render: (M, (nat, nat), (nat, nat), (nat, nat)) -> B,
    numQueries: nat, numClasses: nat, trackerClasses: nat,
    predCls: seq<L>, predMasks: seq<M>, imgSize: (nat, nat), outH: nat, outW: nat, firstResize: (nat, nat),
    maxNum: nat, j: nat)
    requires TopKValid(topk) && |predMasks| == |predCls|
    requires forall q :: 0 <= q < |predCls| ==> |softmax(predCls[q])| == trackerClasses + 1
    requires InferenceVideo(softmax, topk, render, numQueries, numClasses, trackerClasses, predCls, predMasks,
                            imgSize, outH, outW, firstResize, maxNum).Ok?
    requires |predCls| > 0 && j < maxNum
    ensures var out := InferenceVideo(softmax, topk, render, numQueries, numClasses, trackerClasses, predCls,
                                      predMasks, imgSize, outH, outW, firstResize, maxNum).value;
            var flat := Flatten(ClassScores(softmax, predCls));
            var labels := LabelTable(numQueries, numClasses);
            var idx := Selected(softmax, topk, predCls, maxNum);
            && |idx| == maxNum && idx[j] < |flat| && idx[j] < |labels| && numClasses > 0
            && idx[j] / numClasses < |predMasks|
            && |out.predScores| == |out.predLabels| == |out.predMasks| == maxNum
            && out.predScores[j] == flat[idx[j]]
            && out.predLabels[j] == labels[idx[j]]
            && out.predMasks[j] == render(predMasks[idx[j] / numClasses], firstResize, imgSize, (outH, outW))
  {
    var idx := Selected(softmax, topk, predCls, maxNum);
    QueriesBelow(idx, numQueries, numClasses);
    var queries := QueryOf(idx, numClasses);
    assert queries[j] < |predMasks|;
  }

  /**
   * The decoding with a single class count: the tracker's classifier scores
   * exactly the dataset's `numClasses` classes.  With no more queries than
   * the label table was built for, it succeeds exactly when there are no
   * queries or `maxNum` is within the number of (query, class) scores.
   */
  function InferenceVideoMatched<L, M, S(!new), B>(
    softmax: L -> seq<S>, topk: (seq<S>, nat) -> seq<nat>,
    render: (M, (nat, nat), (nat, nat), (nat, nat)) -> B,
    numQueries: nat, numClasses: nat,
    predCls: seq<L>, predMasks: seq<M>, imgSize: (nat, nat), outH: nat, outW: nat, firstResize: (nat, nat),
    maxNum: nat)
    : (r: Result<VideoOutput<S, B>, string>)
    requires TopKValid(topk) && |predMasks| == |predCls|
    requires forall q :: 0 <= q < |predCls| ==> |softmax(predCls[q])| == numClasses + 1
    ensures |predCls| <= numQueries ==> (r.Ok? <==> |predCls| == 0 || maxNum <= |predCls| * numClasses)
  {
    Outcome(softmax, topk, render, numQueries, numClasses, numClasses, predCls, predMasks, imgSize,
            outH, outW, firstResize, maxNum);
    InferenceVideo(softmax, topk, render, numQueries, numClasses, numClasses, predCls, predMasks, imgSize,
                   outH, outW, firstResize, maxNum)
  }

  /**
   * With a single class count every entry is one (query, class) pair: its
   * label is a real class c, and its score and its mask both belong to the
   * same predicted query q, the score being that query's softmax at c.
   */
  lemma MatchedEntry<L, M, S(!new), B>(
    softmax: L -> seq<S>, topk: (seq<S>, nat) -> seq<nat>,
    render: (M, (nat, nat), (nat, nat), (nat, nat)) -> B,
    numQueries: nat, numClasses: nat,
    predCls: seq<L>, predMasks: seq<M>, imgSize: (nat, nat), outH: nat, outW: nat, firstResize: (nat, nat),
    maxNum: nat, j: nat)
    requires TopKValid(topk) && |predMasks| == |predCls|
    requires forall q :: 0 <= q < |predCls| ==> |softmax(predCls[q])| == numClasses + 1
    requires InferenceVideoMatched(softmax, topk, render, numQueries, numClasses, predCls, predMasks,
                                   imgSize, outH, outW, firstResize, maxNum).Ok?
    requires |predCls| > 0 && j < maxNum
    ensures var out := InferenceVideoMatched(softmax, topk, render, numQueries, numClasses, predCls, predMasks,
                                             imgSize, outH, outW, firstResize, maxNum).value;
            j < |out.predLabels| && j < |out.predScores| && j < |out.predMasks|
            && var c := out.predLabels[j];
            exists q :: 0 <= q < |predCls| && c < numClasses
              && out.predScores[j] == softmax(predCls[q])[c]
              && out.predMasks[j] == render(predMasks[q], firstResize, imgSize, (outH, outW))
  {
    Outcome(softmax, topk, render, numQueries, numClasses, numClasses, predCls, predMasks, imgSize,
            outH, outW, firstResize, maxNum);
    DecodeEntry(softmax, topk, render, numQueries, numClasses, numClasses, predCls, predMasks, imgSize,
                outH, outW, firstResize, maxNum, j);
    var k := Selected(softmax, topk, predCls, maxNum)[j];
    assert 0 <= k / numClasses < |predCls|;
  }

  // ---------------------------------------------------------------------
  // The two class counts apart

  /** A `topk` for increasing scores: the last k indices, largest first. */
  function Descending(s: seq<int>, k: nat): (idx: seq<nat>)
    ensures |idx| == k
    ensures forall j :: 0 <= j < k ==> idx[j] == if j < |s| then |s| - 1 - j else 0
  {
    seq(k, j => if j < |s| then |s| - 1 - j else 0)
  }

  lemma DescendingIsTopK()
    ensures TopKValid(Descending)
  {
    forall s: seq<int>, k: nat | k <= |s|
      ensures var idx := Descending(s, k);
              && |idx| == k
              && (forall j :: 0 <= j < k ==> idx[j] < |s|)
              && (forall i, j :: 0 <= i < j < k ==> idx[i] != idx[j])
    {
    }
  }

  /**
   * The tracker's 25 classes against a 40-class dataset, two queries whose
   * score of class c is 100 * query + c.  The 20 best scores are flat
   * indices 49 down to 30; entry 19, index 30, is scored as class 5 of
   * query 1 (score 105) but is labelled 30, a class the tracker does not
   * have, and is given the mask of query 0.
   */
  lemma MismatchedClassCounts()
    ensures var r := InferenceVideo((row: int) => seq(26, c => 100 * row + c), Descending,
                                    (m: int, a: (nat, nat), b: (nat, nat), c: (nat, nat)) => m,
                                    2, 40, 25, [0, 1], [0, 1], (1, 1), 1, 1, (1, 1), 20);
            && r.Ok?
            && r.value.predScores[19] == 105
            && r.value.predLabels[19] == 30
            && r.value.predMasks[19] == 0
  {
    var softmax := (row: int) => seq(26, c => 100 * row + c);
    var render := (m: int, a: (nat, nat), b: (nat, nat), c: (nat, nat)) => m;
    DescendingIsTopK();
    Outcome(softmax, Descending, render, 2, 40, 25, [0, 1], [0, 1], (1, 1), 1, 1, (1, 1), 20);
    DecodeEntry(softmax, Descending, render, 2, 40, 25, [0, 1], [0, 1], (1, 1), 1, 1, (1, 1), 20, 19);
    FlattenLength(ClassScores(softmax, [0, 1]), 25);
    assert Selected(softmax, Descending, [0, 1], 20)[19] == 30;
  }

  /**
   * The tracker's 25 classes against a 10-class dataset with one query: the
   * best score, flat index 24, lies past the 10-entry label table, and the
   * lookup fails.
   */
  lemma FewerClassesFail()
    ensures InferenceVideo((row: int) => seq(26, c => c), Descending,
                           (m: int, a: (nat, nat), b: (nat, nat), c: (nat, nat)) => m,
                           1, 10, 25, [0], [0], (1, 1), 1, 1, (1, 1), 1).Err?
  {
    var softmax := (row: int) => seq(26, c => c);
    DescendingIsTopK();
    FlattenLength(ClassScores(softmax, [0]), 25);
    assert Selected(softmax, Descending, [0], 1)[0] == 24;
  }
}

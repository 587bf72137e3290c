/**
 * Cross-frame track chaining (VideoMaskFormer_frame.post_processing_ and
 * match_from_embds_).  Frame 0 is the anchor; every later frame's queries are
 * matched against the last three entries of a history of already aligned
 * embeddings, and the permutation found reorders that frame's class logits,
 * masks, embeddings and scores alike.
 *
 * Per-query rows are type parameters (`L` class logits, `M` a mask, `E` an
 * embedding, `S` a score), so that nothing but reordering can happen to them.
 * The cosine similarity of two embeddings, the score of a logit row, the time
 * average of the logits and the assignment solver are parameters.
 */
module TrackChaining {
  import opened Wrappers

  /** A cost matrix, as a list of rows. */
  type Matrix = seq<seq<real>>

  // ---------------------------------------------------------------------
  // Permutations

  /** `p` lists every one of 0 .. n-1, each once. */
  predicate IsPermutation(p: seq<nat>, n: nat)
  {
    && |p| == n
    && (forall r :: 0 <= r < n ==> p[r] < n)
    && (forall r, s :: 0 <= r < s < n ==> p[r] != p[s])
  }

  function Identity(n: nat): (p: seq<nat>)
    ensures IsPermutation(p, n)
    ensures forall k :: 0 <= k < n ==> p[k] == k
  {
    seq(n, k requires 0 <= k < n => k)
  }

  /** The position of `j` in `p`. */
  function IndexOf(p: seq<nat>, j: nat): (k: nat)
    requires j in p
    ensures k < |p| && p[k] == j
  {
    if p[0] == j then 0 else 1 + IndexOf(p[1..], j)
  }

  /** The values p[0] .. p[n-1]. */
  function Image(p: seq<nat>, n: nat): set<nat>
    requires n <= |p|
  {
    set r | 0 <= r < n :: p[r]
  }

  lemma {:induction false} ImageCard(p: seq<nat>, n: nat)
    requires n <= |p|
    requires forall r, s :: 0 <= r < s < n ==> p[r] != p[s]
    ensures |Image(p, n)| == n
  {
    if n > 0 {
      ImageCard(p, n - 1);
      assert Image(p, n) == Image(p, n - 1) + {p[n - 1]};
      assert p[n - 1] !in Image(p, n - 1);
    }
  }

  lemma SubsetOfSameSize<T>(a: set<T>, b: set<T>)
    requires a <= b && |a| == |b|
    ensures a == b
  {
    assert a * b == a;
    assert a + b == b;
    assert |b - a| == 0;
  }

  /** A list of n distinct values below n holds every value below n. */
  lemma PermutationIsOnto(p: seq<nat>, n: nat)
    requires IsPermutation(p, n)
    ensures forall j :: 0 <= j < n ==> j in p
  {
    var id := Identity(n);
    ImageCard(p, n);
    ImageCard(id, n);
    forall v | v in Image(p, n)
      ensures v in Image(id, n)
    {
      var r :| 0 <= r < n && p[r] == v;
      assert id[v] == v;
    }
    SubsetOfSameSize(Image(p, n), Image(id, n));
    forall j | 0 <= j < n
      ensures j in p
    {
      assert id[j] == j;
      assert j in Image(p, n);
      var r :| 0 <= r < n && p[r] == j;
    }
  }

  /** The inverse permutation: slot j holds the position of j in `p`. */
  function Inverse(p: seq<nat>): (q: seq<nat>)
    requires forall j :: 0 <= j < |p| ==> j in p
    ensures |q| == |p|
    ensures forall j :: 0 <= j < |p| ==> q[j] < |p| && p[q[j]] == j
  {
    seq(|p|, j requires 0 <= j < |p| => IndexOf(p, j))
  }

  /**
   * Reordering by a permutation loses nothing: reordering back by the
   * inverse gives the original rows, and reordering by the inverse first
   * and then by `p` does too.
   */
  lemma ReorderRoundTrip<T>(xs: seq<T>, p: seq<nat>)
    requires IsPermutation(p, |xs|)
    ensures forall j :: 0 <= j < |xs| ==> j in p
    ensures Reorder(Reorder(xs, p), Inverse(p)) == xs
    ensures Reorder(Reorder(xs, Inverse(p)), p) == xs
  {
    PermutationIsOnto(p, |xs|);
    var q := Inverse(p);
    forall k | 0 <= k < |xs|
      ensures q[p[k]] == k
    {
      assert p[q[p[k]]] == p[k];
    }
  }

  // ---------------------------------------------------------------------
  // match_from_embds_

  /**
   * The cosine similarity of two (normalised) embeddings and the assignment
   * solver; `solve` is given the target x current cost matrix and returns,
   * for every target row, the current query assigned to it.
   */
  datatype Matcher<!E> = Matcher(cosine: (E, E) -> real, solve: Matrix -> seq<nat>)
  {
    /** linear_sum_assignment on a square matrix pairs every row with a distinct column. */
    ghost predicate Valid()
    {
      forall m: Matrix {:trigger solve(m)} :: IsRect(m, |m|) ==> IsPermutation(solve(m), |m|)
    }
  }

  /** The weights of the three history entries, oldest first. */
  const Weights: seq<real> := [0.1, 0.3, 0.6]

  /** `1 - cos_sim`: row r is current query r, column k is target query k. */
  function CostMatrix<E>(cosine: (E, E) -> real, cur: seq<E>, tgt: seq<E>): (c: Matrix)
    ensures |c| == |cur| && IsRect(c, |tgt|)
    ensures forall r, k :: 0 <= r < |cur| && 0 <= k < |tgt| ==> c[r][k] == 1.0 - cosine(cur[r], tgt[k])
  {
    seq(|cur|, r requires 0 <= r < |cur| => seq(|tgt|, k requires 0 <= k < |tgt| => 1.0 - cosine(cur[r], tgt[k])))
  }

  function Zeros(rows: nat, cols: nat): (c: Matrix)
    ensures |c| == rows && IsRect(c, cols)
    ensures forall r, k :: 0 <= r < rows && 0 <= k < cols ==> c[r][k] == 0.0
  {
    seq(rows, r => seq(cols, k => 0.0))
  }

  /** `acc + cost * w`, entry by entry. */
  function AddScaled(acc: Matrix, cost: Matrix, w: real, cols: nat): (c: Matrix)
    requires |cost| == |acc| && IsRect(acc, cols) && IsRect(cost, cols)
    ensures |c| == |acc| && IsRect(c, cols)
    ensures forall r, k :: 0 <= r < |acc| && 0 <= k < cols ==> c[r][k] == acc[r][k] + cost[r][k] * w
  {
    seq(|acc|, r requires 0 <= r < |acc| => seq(cols, k requires 0 <= k < cols => acc[r][k] + cost[r][k] * w))
  }

  /**
   * The cost accumulated over the first `k` pairs of `zip(weights, tgts)`,
   * starting from `C = 0`.
   */
  function WeightedCost<E>(cosine: (E, E) -> real, cur: seq<E>, tgts: seq<seq<E>>, k: nat): (c: Matrix)
    requires k <= |Weights| && k <= |tgts| && IsRect(tgts, |cur|)
    ensures |c| == |cur| && IsRect(c, |cur|)
    decreases k
  {
    if k == 0 then Zeros(|cur|, |cur|)
    else AddScaled(WeightedCost(cosine, cur, tgts, k - 1), CostMatrix(cosine, cur, tgts[k - 1]), Weights[k - 1], |cur|)
  }

  /** match_from_embds_ without scores: solve the transposed weighted cost. */
  function MatchFromEmbds<E>(m: Matcher<E>, tgts: seq<seq<E>>, cur: seq<E>): seq<nat>
    requires IsRect(tgts, |cur|)
  {
    m.solve(Transpose(WeightedCost(m.cosine, cur, tgts, Min(|Weights|, |tgts|)), |cur|))
  }

  /**
   * With three history entries, the cost of pairing current query r with
   * target query k weighs the oldest entry 0.1, the middle one 0.3 and the
   * newest 0.6; the solver sees this matrix transposed.
   */
  lemma MatchCost<E>(m: Matcher<E>, tgts: seq<seq<E>>, cur: seq<E>, r: nat, k: nat)
    requires |tgts| == 3 && IsRect(tgts, |cur|) && r < |cur| && k < |cur|
    ensures var c := WeightedCost(m.cosine, cur, tgts, Min(|Weights|, |tgts|));
            && MatchFromEmbds(m, tgts, cur) == m.solve(Transpose(c, |cur|))
            && c[r][k] == 0.1 * (1.0 - m.cosine(cur[r], tgts[0][k]))
                        + 0.3 * (1.0 - m.cosine(cur[r], tgts[1][k]))
                        + 0.6 * (1.0 - m.cosine(cur[r], tgts[2][k]))
  {
    var c0 := WeightedCost(m.cosine, cur, tgts, 0);
    var c1 := WeightedCost(m.cosine, cur, tgts, 1);
    var c2 := WeightedCost(m.cosine, cur, tgts, 2);
    var c3 := WeightedCost(m.cosine, cur, tgts, 3);
    assert c1[r][k] == c0[r][k] + (1.0 - m.cosine(cur[r], tgts[0][k])) * 0.1;
    assert c2[r][k] == c1[r][k] + (1.0 - m.cosine(cur[r], tgts[1][k])) * 0.3;
    assert c3[r][k] == c2[r][k] + (1.0 - m.cosine(cur[r], tgts[2][k])) * 0.6;
  }

  /** For square inputs the matcher returns a permutation of the current queries. */
  lemma MatchIsPermutation<E>(m: Matcher<E>, tgts: seq<seq<E>>, cur: seq<E>)
    requires m.Valid() && IsRect(tgts, |cur|)
    ensures IsPermutation(MatchFromEmbds(m, tgts, cur), |cur|)
  {
    var t := Transpose(WeightedCost(m.cosine, cur, tgts, Min(|Weights|, |tgts|)), |cur|);
    assert IsRect(t, |t|);
  }

  // ---------------------------------------------------------------------
  // post_processing_

  /** The lists `out_logits`, `out_masks`, `out_embds` and `out_scores`. */
  datatype Chained<L, M, E, S> = Chained(
    logits: seq<seq<L>>,
    masks: seq<seq<M>>,
    embds: seq<seq<E>>,
    scores: seq<seq<S>>)

  /** Frame-major inputs: `T` frames, each with the same `q` queries. */
  predicate Frames<L, M, E>(logits: seq<seq<L>>, masks: seq<seq<M>>, embds: seq<seq<E>>, q: nat)
  {
    && |logits| == |masks| == |embds|
    && IsRect(logits, q) && IsRect(masks, q) && IsRect(embds, q)
  }

  /** The lists after k frames of q queries: k output frames, a history of k + 2 entries, every row with q entries. */
  predicate Shaped<L, M, E, S>(c: Chained<L, M, E, S>, q: nat, k: nat)
  {
    && |c.logits| == |c.masks| == k && |c.embds| == |c.scores| == k + 2
    && IsRect(c.logits, q) && IsRect(c.masks, q) && IsRect(c.embds, q) && IsRect(c.scores, q)
  }

  /** `out_embds[-3:]`: the last three history entries, oldest first. */
  function Targets<L, M, E, S>(c: Chained<L, M, E, S>): seq<seq<E>>
    requires |c.embds| >= 3
  {
    c.embds[|c.embds| - 3..]
  }

  /** Frame 0 as it is, its embeddings and scores three times in the history. */
  function Anchor<L, M, E, S>(scoreOf: L -> S, l: seq<L>, ms: seq<M>, e: seq<E>): Chained<L, M, E, S>
  {
    var s := Map(scoreOf, l);
    Chained([l], [ms], [e, e, e], [s, s, s])
  }

  /** Append one frame's rows, all reordered by `p`. */
  function Append<L, M, E, S>(c: Chained<L, M, E, S>, p: seq<nat>, scoreOf: L -> S, l: seq<L>, ms: seq<M>, e: seq<E>)
    : Chained<L, M, E, S>
    requires forall r :: 0 <= r < |p| ==> p[r] < |l| && p[r] < |ms| && p[r] < |e|
  {
    Chained(c.logits + [Reorder(l, p)], c.masks + [Reorder(ms, p)],
            c.embds + [Reorder(e, p)], c.scores + [Reorder(Map(scoreOf, l), p)])
  }

  /**
   * The lists after frames 0 .. k-1: the anchor, then every later frame
   * reordered by the match of its embeddings against the last three
   * history entries.
   */
  function Chain<L, M, E, S>(m: Matcher<E>, scoreOf: L -> S,
                             logits: seq<seq<L>>, masks: seq<seq<M>>, embds: seq<seq<E>>, q: nat, k: nat)
    : (c: Chained<L, M, E, S>)
    requires m.Valid() && Frames(logits, masks, embds, q) && 1 <= k <= |logits|
    ensures Shaped(c, q, k)
    decreases k
  {
    if k == 1 then Anchor(scoreOf, logits[0], masks[0], embds[0])
    else
      var c := Chain(m, scoreOf, logits, masks, embds, q, k - 1);
      var p := MatchFromEmbds(m, Targets(c), embds[k - 1]);
      MatchIsPermutation(m, Targets(c), embds[k - 1]);
      AppendShaped(c, p, scoreOf, logits[k - 1], masks[k - 1], embds[k - 1], q, k - 1);
      Append(c, p, scoreOf, logits[k - 1], masks[k - 1], embds[k - 1])
  }

  /** Appending a frame reordered by a permutation of its q queries keeps every row at q entries. */
  lemma AppendShaped<L, M, E, S>(c: Chained<L, M, E, S>, p: seq<nat>, scoreOf: L -> S,
                                 l: seq<L>, ms: seq<M>, e: seq<E>, q: nat, k: nat)
    requires Shaped(c, q, k) && IsPermutation(p, q) && |l| == |ms| == |e| == q
    ensures Shaped(Append(c, p, scoreOf, l, ms, e), q, k + 1)
  {
  }

  /** The permutation frame i >= 1 is reordered by: the match against the history before it. */
  function FramePermutation<L, M, E, S>(m: Matcher<E>, scoreOf: L -> S,
                                        logits: seq<seq<L>>, masks: seq<seq<M>>, embds: seq<seq<E>>, q: nat, i: nat)
    : (p: seq<nat>)
    requires m.Valid() && Frames(logits, masks, embds, q) && 1 <= i < |logits|
    ensures IsPermutation(p, q)
  {
    var c := Chain(m, scoreOf, logits, masks, embds, q, i);
    MatchIsPermutation(m, Targets(c), embds[i]);
    MatchFromEmbds(m, Targets(c), embds[i])
  }

  /** Frame k-1 > 0 is appended to the lists of the frames before it, reordered by its permutation. */
  lemma ChainStep<L, M, E, S>(m: Matcher<E>, scoreOf: L -> S,
                              logits: seq<seq<L>>, masks: seq<seq<M>>, embds: seq<seq<E>>, q: nat, k: nat)
    requires m.Valid() && Frames(logits, masks, embds, q) && 2 <= k <= |logits|
    ensures Chain(m, scoreOf, logits, masks, embds, q, k)
         == Append(Chain(m, scoreOf, logits, masks, embds, q, k - 1),
                   FramePermutation(m, scoreOf, logits, masks, embds, q, k - 1),
                   scoreOf, logits[k - 1], masks[k - 1], embds[k - 1])
  {
  }

  /** The lists `a` are the first j frames of the lists `b`. */
  ghost predicate IsPrefix<L, M, E, S>(a: Chained<L, M, E, S>, b: Chained<L, M, E, S>, j: nat)
  {
    && j <= |b.logits| && j <= |b.masks| && j + 2 <= |b.embds| && j + 2 <= |b.scores|
    && a.logits == b.logits[..j] && a.masks == b.masks[..j]
    && a.embds == b.embds[..j + 2] && a.scores == b.scores[..j + 2]
  }

  lemma PrefixTrans<L, M, E, S>(a: Chained<L, M, E, S>, b: Chained<L, M, E, S>, c: Chained<L, M, E, S>, j: nat, k: nat)
    requires j <= k && IsPrefix(a, b, j) && IsPrefix(b, c, k)
    ensures IsPrefix(a, c, j)
  {
    assert c.logits[..k][..j] == c.logits[..j] && c.masks[..k][..j] == c.masks[..j];
    assert c.embds[..k + 2][..j + 2] == c.embds[..j + 2] && c.scores[..k + 2][..j + 2] == c.scores[..j + 2];
  }

  /** Frame k-1 only appends to the lists of the frames before it. */
  lemma ChainGrows<L, M, E, S>(m: Matcher<E>, scoreOf: L -> S,
                               logits: seq<seq<L>>, masks: seq<seq<M>>, embds: seq<seq<E>>, q: nat, k: nat)
    requires m.Valid() && Frames(logits, masks, embds, q) && 2 <= k <= |logits|
    ensures IsPrefix(Chain(m, scoreOf, logits, masks, embds, q, k - 1), Chain(m, scoreOf, logits, masks, embds, q, k), k - 1)
  {
    var c := Chain(m, scoreOf, logits, masks, embds, q, k - 1);
    var ck := Chain(m, scoreOf, logits, masks, embds, q, k);
    assert ck.logits[..k - 1] == c.logits;
  }

  /** If every step only appends, the lists after j steps are a prefix of those after k. */
  lemma {:induction false} GrowingPrefix<L, M, E, S>(ch: nat -> Chained<L, M, E, S>, j: nat, k: nat)
    requires j <= k && |ch(j).logits| == |ch(j).masks| == j && |ch(j).embds| == |ch(j).scores| == j + 2
    requires forall i :: j <= i < k ==> IsPrefix(ch(i), ch(i + 1), i)
    ensures IsPrefix(ch(j), ch(k), j)
    decreases k
  {
    if j == k {
      var cj := ch(j);
      assert cj.logits[..j] == cj.logits && cj.masks[..j] == cj.masks;
      assert cj.embds[..j + 2] == cj.embds && cj.scores[..j + 2] == cj.scores;
    } else {
      GrowingPrefix(ch, j, k - 1);
      PrefixTrans(ch(j), ch(k - 1), ch(k), j, k - 1);
    }
  }

  /** Chain as a total function of the number of frames (the anchor alone outside 1 .. T). */
  ghost function ChainAt<L, M, E, S>(m: Matcher<E>, scoreOf: L -> S,
                                     logits: seq<seq<L>>, masks: seq<seq<M>>, embds: seq<seq<E>>, q: nat)
    : nat -> Chained<L, M, E, S>
    requires |logits| >= 1 && Frames(logits, masks, embds, q)
  {
    k => if m.Valid() && 1 <= k <= |logits| then Chain(m, scoreOf, logits, masks, embds, q, k)
         else Anchor(scoreOf, logits[0], masks[0], embds[0])
  }

  /** Processing more frames only appends: the lists after j frames are a prefix of those after k. */
  lemma ChainPrefix<L, M, E, S>(m: Matcher<E>, scoreOf: L -> S,
                                logits: seq<seq<L>>, masks: seq<seq<M>>, embds: seq<seq<E>>,
                                q: nat, j: nat, k: nat)
    requires m.Valid() && Frames(logits, masks, embds, q) && 1 <= j <= k <= |logits|
    ensures IsPrefix(Chain(m, scoreOf, logits, masks, embds, q, j), Chain(m, scoreOf, logits, masks, embds, q, k), j)
  {
    var ch := ChainAt(m, scoreOf, logits, masks, embds, q);
    forall i | j <= i < k
      ensures IsPrefix(ch(i), ch(i + 1), i)
    {
      ChainAtGrows(m, scoreOf, logits, masks, embds, q, i);
    }
    GrowingPrefix(ch, j, k);
  }

  /** ChainGrows, stated for the total function ChainAt. */
  lemma ChainAtGrows<L, M, E, S>(m: Matcher<E>, scoreOf: L -> S,
                                 logits: seq<seq<L>>, masks: seq<seq<M>>, embds: seq<seq<E>>, q: nat, i: nat)
    requires m.Valid() && Frames(logits, masks, embds, q) && 1 <= i < |logits|
    ensures var ch := ChainAt(m, scoreOf, logits, masks, embds, q);
            IsPrefix(ch(i), ch(i + 1), i)
  {
    ChainGrows(m, scoreOf, logits, masks, embds, q, i + 1);
  }

  /**
   * Output frame 0 is input frame 0, unpermuted, and the history starts with
   * three copies of its embeddings and scores.
   */
  lemma AnchorFrame<L, M, E, S>(m: Matcher<E>, scoreOf: L -> S,
                                logits: seq<seq<L>>, masks: seq<seq<M>>, embds: seq<seq<E>>, q: nat, k: nat)
    requires m.Valid() && Frames(logits, masks, embds, q) && 1 <= k <= |logits|
    ensures var c := Chain(m, scoreOf, logits, masks, embds, q, k);
            && c.logits[0] == logits[0] && c.masks[0] == masks[0]
            && c.embds[0] == c.embds[1] == c.embds[2] == embds[0]
            && c.scores[0] == c.scores[1] == c.scores[2] == Map(scoreOf, logits[0])
  {
    ChainPrefix(m, scoreOf, logits, masks, embds, q, 1, k);
    var c := Chain(m, scoreOf, logits, masks, embds, q, k);
    assert c.logits[0] == c.logits[..1][0] && c.masks[0] == c.masks[..1][0];
    assert c.embds[0] == c.embds[..3][0] && c.embds[1] == c.embds[..3][1] && c.embds[2] == c.embds[..3][2];
    assert c.scores[0] == c.scores[..3][0] && c.scores[1] == c.scores[..3][1] && c.scores[2] == c.scores[..3][2];
  }

  /**
   * Frame i >= 1 is matched against the output embeddings of frames i-3,
   * i-2 and i-1, oldest first, where a frame before 0 stands for frame 0
   * (the seeded copies); the history entry of output frame j is entry j+2.
   */
  lemma MatcherTargets<L, M, E, S>(m: Matcher<E>, scoreOf: L -> S,
                                   logits: seq<seq<L>>, masks: seq<seq<M>>, embds: seq<seq<E>>, q: nat, k: nat, i: nat)
    requires m.Valid() && Frames(logits, masks, embds, q) && 1 <= i < k <= |logits|
    ensures var c := Chain(m, scoreOf, logits, masks, embds, q, k);
            var tgts := Targets(Chain(m, scoreOf, logits, masks, embds, q, i));
            && |tgts| == |Weights|
            && tgts == [c.embds[Max(i - 3, 0) + 2], c.embds[Max(i - 2, 0) + 2], c.embds[i - 1 + 2]]
  {
    ChainPrefix(m, scoreOf, logits, masks, embds, q, i, k);
    AnchorFrame(m, scoreOf, logits, masks, embds, q, k);
    HistoryWindow(Chain(m, scoreOf, logits, masks, embds, q, i), Chain(m, scoreOf, logits, masks, embds, q, k), i);
  }

  /** The last three entries of a history of i + 2 entries that begins with three equal ones. */
  lemma HistoryWindow<L, M, E, S>(ci: Chained<L, M, E, S>, c: Chained<L, M, E, S>, i: nat)
    requires 1 <= i && IsPrefix(ci, c, i) && |ci.embds| == i + 2 && c.embds[0] == c.embds[1] == c.embds[2]
    ensures Targets(ci) == [c.embds[Max(i - 3, 0) + 2], c.embds[Max(i - 2, 0) + 2], c.embds[i - 1 + 2]]
  {
    assert ci.embds[i - 1] == c.embds[i - 1] && ci.embds[i] == c.embds[i] && ci.embds[i + 1] == c.embds[i + 1];
  }

  /**
   * Frame i >= 1 of the output: one permutation of the q queries, the one
   * matched for that frame, reorders its logits, masks, embeddings and
   * scores alike, so slot r holds input query p[r] in all four lists.
   */
  lemma ChainFrame<L, M, E, S>(m: Matcher<E>, scoreOf: L -> S,
                               logits: seq<seq<L>>, masks: seq<seq<M>>, embds: seq<seq<E>>,
                               q: nat, k: nat, i: nat)
    requires m.Valid() && Frames(logits, masks, embds, q) && 1 <= i < k <= |logits|
    ensures var c := Chain(m, scoreOf, logits, masks, embds, q, k);
            var p := FramePermutation(m, scoreOf, logits, masks, embds, q, i);
            && IsPermutation(p, q)
            && c.logits[i] == Reorder(logits[i], p)
            && c.masks[i] == Reorder(masks[i], p)
            && c.embds[i + 2] == Reorder(embds[i], p)
            && c.scores[i + 2] == Reorder(Map(scoreOf, logits[i]), p)
  {
    ChainStep(m, scoreOf, logits, masks, embds, q, i + 1);
    ChainPrefix(m, scoreOf, logits, masks, embds, q, i + 1, k);
    var c1 := Chain(m, scoreOf, logits, masks, embds, q, i + 1);
    var c := Chain(m, scoreOf, logits, masks, embds, q, k);
    assert c.logits[i] == c1.logits[i] && c.masks[i] == c1.masks[i];
    assert c.embds[i + 2] == c1.embds[i + 2] && c.scores[i + 2] == c1.scores[i + 2];
  }

  /**
   * The permutation an output frame was reordered by: the identity for the
   * anchor frame, the matched one for every later frame.
   */
  function OutputPermutation<L, M, E, S>(m: Matcher<E>, scoreOf: L -> S,
                                         logits: seq<seq<L>>, masks: seq<seq<M>>, embds: seq<seq<E>>, q: nat, i: nat)
    : (p: seq<nat>)
    requires m.Valid() && Frames(logits, masks, embds, q) && i < |logits|
    ensures IsPermutation(p, q)
  {
    if i == 0 then Identity(q) else FramePermutation(m, scoreOf, logits, masks, embds, q, i)
  }

  /**
   * Every output frame is a reordering of the input frame: its logits and
   * masks are the input's reordered by a permutation, and reordering them
   * by the inverse gives the input back; the kept score of every query is the
   * score of the logits in the same slot.
   */
  lemma OutputIsReordering<L, M, E, S>(m: Matcher<E>, scoreOf: L -> S,
                                       logits: seq<seq<L>>, masks: seq<seq<M>>, embds: seq<seq<E>>,
                                       q: nat, k: nat, i: nat)
    requires m.Valid() && Frames(logits, masks, embds, q) && i < k <= |logits|
    ensures var c := Chain(m, scoreOf, logits, masks, embds, q, k);
            var p := OutputPermutation(m, scoreOf, logits, masks, embds, q, i);
            && (forall j :: 0 <= j < q ==> j in p)
            && c.logits[i] == Reorder(logits[i], p)
            && c.masks[i] == Reorder(masks[i], p)
            && Reorder(c.logits[i], Inverse(p)) == logits[i]
            && Reorder(c.masks[i], Inverse(p)) == masks[i]
            && c.scores[i + 2] == Map(scoreOf, c.logits[i])
  {
    var p := OutputPermutation(m, scoreOf, logits, masks, embds, q, i);
    if i == 0 {
      AnchorFrame(m, scoreOf, logits, masks, embds, q, k);
      assert Reorder(logits[0], p) == logits[0];
      assert Reorder(masks[0], p) == masks[0];
    } else {
      ChainFrame(m, scoreOf, logits, masks, embds, q, k, i);
      MapReorder(scoreOf, logits[i], p);
    }
    ReorderRoundTrip(logits[i], p);
    ReorderRoundTrip(masks[i], p);
  }

  /** The result of post_processing_: time-averaged logits and masks stacked query-major. */
  datatype PostOutput<L, M> = PostOutput(predLogits: seq<L>, predMasks: seq<seq<M>>)

  /** One iteration of the frame loop of post_processing_. */
  method ChainNext<L, M, E, S>(m: Matcher<E>, scoreOf: L -> S,
                               logits: seq<seq<L>>, masks: seq<seq<M>>, embds: seq<seq<E>>, scores: seq<seq<S>>,
                               q: nat, i: nat,
                               outLogits: seq<seq<L>>, outMasks: seq<seq<M>>, outEmbds: seq<seq<E>>, outScores: seq<seq<S>>)
    returns (outLogits': seq<seq<L>>, outMasks': seq<seq<M>>, outEmbds': seq<seq<E>>, outScores': seq<seq<S>>)
    requires m.Valid() && Frames(logits, masks, embds, q) && 1 <= i < |logits|
    requires |scores| == |logits| && scores[i] == Map(scoreOf, logits[i])
    requires Chained(outLogits, outMasks, outEmbds, outScores) == Chain(m, scoreOf, logits, masks, embds, q, i)
    ensures Chained(outLogits', outMasks', outEmbds', outScores') == Chain(m, scoreOf, logits, masks, embds, q, i + 1)
  {
    ChainStep(m, scoreOf, logits, masks, embds, q, i + 1);
    var indices := MatchFromEmbds(m, outEmbds[|outEmbds| - 3..], embds[i]);
    assert indices == FramePermutation(m, scoreOf, logits, masks, embds, q, i);
    outLogits' := outLogits + [Reorder(logits[i], indices)];
    outMasks' := outMasks + [Reorder(masks[i], indices)];
    outEmbds' := outEmbds + [Reorder(embds[i], indices)];
    outScores' := outScores + [Reorder(scores[i], indices)];
  }

  /**
   * post_processing_: `predLogits` and `predMasks` come query-major (q x T)
   * and are turned frame-major; `predEmbds` is frame-major.  The chained
   * logits are averaged over time slot by slot (`sum(out_logits) /
   * len(out_logits)`): query slot r's output is `meanOf` of the T logit rows
   * of track r.  The chained masks are stacked back query-major.
   */
  method PostProcessing<L, M, E, S>(m: Matcher<E>, scoreOf: L -> S, meanOf: seq<L> -> L,
                                    predLogits: seq<seq<L>>, predMasks: seq<seq<M>>, predEmbds: seq<seq<E>>)
    returns (out: PostOutput<L, M>)
    requires m.Valid() && |predEmbds| >= 1
    requires |predMasks| == |predLogits| && IsRect(predLogits, |predEmbds|) && IsRect(predMasks, |predEmbds|)
    requires IsRect(predEmbds, |predLogits|)
    ensures var T, q := |predEmbds|, |predLogits|;
            var c := Chain(m, scoreOf, Transpose(predLogits, T), Transpose(predMasks, T), predEmbds, q, T);
            out == PostOutput(Map(meanOf, Transpose(c.logits, q)), Transpose(c.masks, q))
  {
    var T, q := |predEmbds|, |predLogits|;
    var logits := Transpose(predLogits, T);
    var masks := Transpose(predMasks, T);
    var scores := Map(s => Map(scoreOf, s), logits);
    var outLogits := [logits[0]];
    var outMasks := [masks[0]];
    var outEmbds := [predEmbds[0], predEmbds[0], predEmbds[0]];
    var outScores := [scores[0], scores[0], scores[0]];
    for i := 1 to T
      invariant Chained(outLogits, outMasks, outEmbds, outScores) == Chain(m, scoreOf, logits, masks, predEmbds, q, i)
    {
      outLogits, outMasks, outEmbds, outScores :=
        ChainNext(m, scoreOf, logits, masks, predEmbds, scores, q, i, outLogits, outMasks, outEmbds, outScores);
    }
    out := PostOutput(Map(meanOf, Transpose(outLogits, q)), Transpose(outMasks, q));
  }
}

/**
 * How run_window_inference cuts a clip of `n` frames into chunks of
 * `w` frames: chunk i is the Python slice [i*w : (i+1)*w], which stops at
 * the end of the clip.  Chunk starts and the chunk count are defined by
 * recursion (so that the proofs about chunks stay linear) and then shown
 * equal to run_window_inference's products and its `//`, `%` formula.
 */
module WindowPartition {
  import opened Wrappers

  /** The first frame of chunk i: `i * w`. */
  function ChunkStart(i: nat, w: nat): nat
    decreases i
  {
    if i == 0 then 0 else ChunkStart(i - 1, w) + w
  }

  /** The end of the slice [i*w : (i+1)*w], clamped to the clip as Python clamps it. */
  function ChunkEnd(i: nat, n: nat, w: nat): nat
  {
    Min(ChunkStart(i + 1, w), n)
  }

  /** The number of chunks: the fewest chunks of `w` frames that reach frame n. */
  function NumChunks(n: nat, w: nat): (k: nat)
    requires w > 0
    ensures ChunkStart(k, w) >= n
    ensures k > 0 ==> ChunkStart(k - 1, w) < n
    decreases n
  {
    if n == 0 then 0
    else if n <= w then 1
    else 1 + NumChunks(n - w, w)
  }

  lemma {:induction false} ChunkStartIsProduct(i: nat, w: nat)
    ensures ChunkStart(i, w) == i * w
    decreases i
  {
    if i > 0 {
      ChunkStartIsProduct(i - 1, w);
      assert i * w == (i - 1) * w + w;
    }
  }

  /** Euclidean division is unique: `q` and `r` are `n // w` and `n % w`. */
  lemma DivUnique(n: int, w: int, q: int, r: int)
    requires w > 0 && n == q * w + r && 0 <= r < w
    ensures n / w == q && n % w == r
  {
    var q', r' := n / w, n % w;
    assert n == q' * w + r';
    assert (q' + 1) * w == q' * w + w;
    assert (q + 1) * w == q * w + w;
    if q' < q {
      MulMono(q' + 1, q, w);
    } else if q' > q {
      MulMono(q + 1, q', w);
    }
  }

  /** Taking `w` frames off the clip lowers `n // w` by one and leaves `n % w` unchanged. */
  lemma DivModSub(n: nat, w: nat)
    requires 0 < w <= n
    ensures (n - w) / w == n / w - 1 && (n - w) % w == n % w
  {
    var q, r := (n - w) / w, (n - w) % w;
    assert n - w == q * w + r && 0 <= r < w;
    assert n == (q + 1) * w + r;
    DivUnique(n, w, q + 1, r);
  }

  /** run_window_inference's count: `n // w`, plus one when `n % w != 0`. */
  lemma {:induction false} NumChunksFormula(n: nat, w: nat)
    requires w > 0
    ensures NumChunks(n, w) == n / w + (if n % w != 0 then 1 else 0)
    decreases n
  {
    if n == 0 {
    } else if n < w {
      DivUnique(n, w, 0, n);
    } else if n == w {
      DivUnique(n, w, 1, 0);
    } else {
      NumChunksFormula(n - w, w);
      DivModSub(n, w);
    }
  }

  /** Later chunks start later, by at least `w` frames per chunk. */
  lemma {:induction false} StartMono(i: nat, j: nat, w: nat)
    requires i <= j
    ensures ChunkStart(i, w) <= ChunkStart(j, w)
    ensures i < j ==> ChunkStart(i, w) + w <= ChunkStart(j, w)
    decreases j
  {
    if i < j {
      StartMono(i, j - 1, w);
    }
  }

  /**
   * Every chunk is a non-empty range inside the clip; every chunk but the
   * last holds exactly `w` frames, the last one ends at the end of the clip,
   * and each chunk starts where the previous one ended.
   */
  lemma {:induction false} ChunkShape(n: nat, w: nat, i: nat)
    requires w > 0 && i < NumChunks(n, w)
    ensures ChunkStart(i, w) < ChunkEnd(i, n, w) <= n
    ensures i + 1 < NumChunks(n, w) ==> ChunkEnd(i, n, w) - ChunkStart(i, w) == w
    ensures i + 1 == NumChunks(n, w) ==> ChunkEnd(i, n, w) == n
    ensures i + 1 < NumChunks(n, w) ==> ChunkEnd(i, n, w) == ChunkStart(i + 1, w)
  {
    var k := NumChunks(n, w);
    StartMono(i, k - 1, w);
    if i + 1 < k {
      StartMono(i + 1, k - 1, w);
    }
  }

  /** Frame f lies in chunk f / w and in no other: the chunks are disjoint and cover the clip. */
  lemma {:induction false} ChunkOfFrame(n: nat, w: nat, f: nat)
    requires w > 0 && f < n
    ensures f / w < NumChunks(n, w)
    ensures ChunkStart(f / w, w) <= f < ChunkEnd(f / w, n, w)
    ensures forall i :: 0 <= i < NumChunks(n, w) && ChunkStart(i, w) <= f < ChunkEnd(i, n, w) ==> i == f / w
  {
    var k := NumChunks(n, w);
    var c := f / w;
    assert f == c * w + f % w;
    ChunkStartIsProduct(c, w);
    ChunkStartIsProduct(c + 1, w);
    assert (c + 1) * w == c * w + w;
    if c >= k {
      StartMono(k, c, w);
      assert false;
    }
    forall i | 0 <= i < k && ChunkStart(i, w) <= f < ChunkEnd(i, n, w)
      ensures i == c
    {
      if i < c {
        StartMono(i + 1, c, w);
      } else if i > c {
        StartMono(c + 1, i, w);
      }
    }
  }
}

/** Small helpers shared by the modules of this model. */
module Wrappers {

  /** Presence or absence of a value, as Python's `None` default arguments. */
  datatype Option<T> = None | Some(value: T)

  /** A value, or the exception Python or PyTorch would raise instead of returning one. */
  datatype Result<T, E> = Ok(value: T) | Err(error: E)

  function Last<T>(s: seq<T>): T
    requires |s| > 0
  {
    s[|s| - 1]
  }

  /** Python's `s[:-1]`: everything but the last element, and empty for an empty list. */
  function DropLast<T>(s: seq<T>): seq<T>
  {
    if |s| == 0 then [] else s[..|s| - 1]
  }

  /** Python's `s[a:b]` for 0 <= a <= b: both bounds are clamped to the length of `s`. */
  function PySlice<T>(s: seq<T>, a: nat, b: nat): seq<T>
    requires a <= b
  {
    if b <= |s| then s[a..b] else if a <= |s| then s[a..] else []
  }

  function Min(a: int, b: int): int
  {
    if a <= b then a else b
  }

  function Max(a: int, b: int): int
  {
    if a >= b then a else b
  }

  /** Multiplying by a natural number keeps the order. */
  lemma MulMono(a: int, b: int, w: nat)
    requires a <= b
    ensures a * w <= b * w
  {
    assert b * w - a * w == (b - a) * w;
  }

  // ---------------------------------------------------------------------
  // Lists and matrices

  /** Every row of `m` has `cols` entries. */
  predicate IsRect<T>(m: seq<seq<T>>, cols: nat)
  {
    forall i :: 0 <= i < |m| ==> |m[i]| == cols
  }

  /** `m.transpose(0, 1)` (and the `einops` swaps of the first two axes). */
  function Transpose<T>(m: seq<seq<T>>, cols: nat): (r: seq<seq<T>>)
    requires IsRect(m, cols)
    ensures |r| == cols && IsRect(r, |m|)
    ensures forall j, i :: 0 <= j < cols && 0 <= i < |m| ==> r[j][i] == m[i][j]
  {
    seq(cols, j requires 0 <= j < cols => seq(|m|, i requires 0 <= i < |m| => m[i][j]))
  }

  /** Transposing twice gives the matrix back. */
  lemma TransposeTwice<T>(m: seq<seq<T>>, cols: nat)
    requires IsRect(m, cols)
    ensures Transpose(Transpose(m, cols), |m|) == m
  {
    var r := Transpose(Transpose(m, cols), |m|);
    forall i | 0 <= i < |m|
      ensures r[i] == m[i]
    {
    }
  }

  /** `xs[p]`: slot r of the result holds row p[r] of `xs`. */
  function Reorder<T>(xs: seq<T>, p: seq<nat>): (r: seq<T>)
    requires forall k :: 0 <= k < |p| ==> p[k] < |xs|
    ensures |r| == |p|
    ensures forall k :: 0 <= k < |p| ==> r[k] == xs[p[k]]
  {
    seq(|p|, k requires 0 <= k < |p| => xs[p[k]])
  }

  /** `[f(x) for x in xs]`. */
  function Map<T, U>(f: T -> U, xs: seq<T>): (r: seq<U>)
    ensures |r| == |xs|
    ensures forall k :: 0 <= k < |xs| ==> r[k] == f(xs[k])
  {
    seq(|xs|, k requires 0 <= k < |xs| => f(xs[k]))
  }

  /** A per-row map commutes with reordering. */
  lemma MapReorder<T, U>(f: T -> U, xs: seq<T>, p: seq<nat>)
    requires forall k :: 0 <= k < |p| ==> p[k] < |xs|
    ensures Map(f, Reorder(xs, p)) == Reorder(Map(f, xs), p)
  {
  }
}

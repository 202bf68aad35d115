/**
 * Row-major addressing of an n-dimensional box of any rank: the position of a
 * multi-index, the multi-index at a position, and that each undoes the other.
 */
module RowMajor {

  function Prod(s: seq<nat>): nat
  {
    if s == [] then 1 else Prod(s[..|s| - 1]) * s[|s| - 1]
  }

  ghost predicate InBox(dims: seq<nat>, idx: seq<nat>)
  {
    |idx| == |dims| && forall d :: 0 <= d < |dims| ==> idx[d] < dims[d]
  }

  /** Row-major position: the last index varies fastest. */
  function Flat(dims: seq<nat>, idx: seq<nat>): nat
    requires |idx| == |dims|
  {
    if dims == [] then 0
    else Flat(dims[..|dims| - 1], idx[..|dims| - 1]) * dims[|dims| - 1] + idx[|dims| - 1]
  }

  /** The multi-index at position `k`. */
  function Unflat(dims: seq<nat>, k: nat): (idx: seq<nat>)
    requires k < Prod(dims)
    ensures InBox(dims, idx)
    ensures Flat(dims, idx) == k
  {
    if dims == [] then []
    else
      var last := dims[|dims| - 1];
      SplitPosition(Prod(dims[..|dims| - 1]), last, k);
      var front := Unflat(dims[..|dims| - 1], k / last);
      var idx := front + [k % last];
      assert idx[..|dims| - 1] == front;
      idx
  }

  lemma SplitPosition(rows: nat, width: nat, k: nat)
    requires k < rows * width
    ensures width > 0 && k / width < rows && k == (k / width) * width + k % width
  {
    if rows <= k / width {
      MulMonotone(rows, k / width, width);
      assert false;
    }
  }

  lemma MulMonotone(a: nat, b: nat, width: nat)
    requires a <= b
    ensures a * width <= b * width
  {
  }

  /** A column of an existing row lies below the end of the rows. */
  lemma RowColumnBound(row: nat, rows: nat, width: nat, column: nat)
    requires row < rows && column < width
    ensures row * width + column < rows * width
  {
    MulMonotone(row + 1, rows, width);
  }

  /** Two positions written as row times width plus column agree only when both parts do. */
  lemma RowColumnUnique(width: nat, r1: nat, c1: nat, r2: nat, c2: nat)
    requires c1 < width && c2 < width
    ensures r1 * width + c1 == r2 * width + c2 <==> r1 == r2 && c1 == c2
  {
    if r1 < r2 {
      assert (r1 + 1) * width <= r2 * width;
    } else if r2 < r1 {
      assert (r2 + 1) * width <= r1 * width;
    }
  }

  lemma {:induction false} FlatBound(dims: seq<nat>, idx: seq<nat>)
    requires InBox(dims, idx)
    ensures Flat(dims, idx) < Prod(dims)
  {
    if dims != [] {
      var n := |dims| - 1;
      FlatBound(dims[..n], idx[..n]);
      RowColumnBound(Flat(dims[..n], idx[..n]), Prod(dims[..n]), dims[n], idx[n]);
    }
  }

  lemma {:induction false} FlatInjective(dims: seq<nat>, a: seq<nat>, b: seq<nat>)
    requires InBox(dims, a) && InBox(dims, b) && Flat(dims, a) == Flat(dims, b)
    ensures a == b
  {
    if dims != [] {
      var n := |dims| - 1;
      RowColumnUnique(dims[n], Flat(dims[..n], a[..n]), a[n], Flat(dims[..n], b[..n]), b[n]);
      FlatInjective(dims[..n], a[..n], b[..n]);
      assert a == a[..n] + [a[n]] && b == b[..n] + [b[n]];
    }
  }

  /** Addressing round trip: the multi-index found at the position of `idx` is `idx`. */
  lemma UnflatFlat(dims: seq<nat>, idx: seq<nat>)
    requires InBox(dims, idx)
    ensures Flat(dims, idx) < Prod(dims)
    ensures Unflat(dims, Flat(dims, idx)) == idx
  {
    FlatBound(dims, idx);
    FlatInjective(dims, Unflat(dims, Flat(dims, idx)), idx);
  }

  lemma {:induction false} ProdSplit(a: seq<nat>, b: seq<nat>)
    ensures Prod(a + b) == Prod(a) * Prod(b)
  {
    if b == [] {
      assert a + b == a;
    } else {
      var n := |b| - 1;
      assert (a + b)[..|a + b| - 1] == a + b[..n];
      ProdSplit(a, b[..n]);
      Associate(Prod(a), Prod(b[..n]), b[n]);
    }
  }

  lemma Associate(x: nat, y: nat, z: nat)
    ensures (x * y) * z == x * (y * z)
  {
  }
}

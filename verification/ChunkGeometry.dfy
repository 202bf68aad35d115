/**
 * What scattering a chunk means in dataset coordinates: the chunk at `off` holds
 * the box [off, off + cdims). The reader's 64-bit coordinate sums agree with that
 * box for well-formed offsets, and this module says exactly when.
 */
module ChunkGeometry {
  import opened Words
  import opened RowMajor
  import opened ChunkScatter

  /** Dataset index `m` lies in the box of the chunk at `off`. */
  ghost predicate InChunk(l: Layout, off: seq<nat>, m: seq<nat>)
    requires |m| == |off| == |l.cdims|
  {
    forall d :: 0 <= d < |m| ==> off[d] <= m[d] < off[d] + l.cdims[d]
  }

  /** Box coordinates of `m` relative to the chunk. */
  ghost function Relative(l: Layout, off: seq<nat>, m: seq<nat>): (c: seq<nat>)
    requires |m| == |off| == |l.cdims| && InChunk(l, off, m)
    ensures InBox(l.cdims, c)
  {
    seq(|m|, d requires 0 <= d < |m| => m[d] - off[d])
  }

  /** The 64-bit sum of offset and index wraps along dimension `d` (the last is never summed). */
  predicate Wraps(l: Layout, off: seq<nat>, d: nat)
    requires |off| == |l.cdims| && d < |off|
  {
    d + 1 < |off| && off[d] + l.cdims[d] > U64
  }

  /** The chunk box is disjoint from the dataset along dimension `d`. */
  predicate Misses(l: Layout, off: seq<nat>, d: nat)
    requires |off| == |l.cdims| == |l.dims| && d < |off|
  {
    l.dims[d] == 0 || l.cdims[d] == 0 || (off[d] >= l.dims[d] && !Wraps(l, off, d))
  }

  /** No coordinate sum wraps, or the chunk supplies nothing at all. */
  ghost predicate WellPlaced(l: Layout, off: seq<nat>)
    requires l.Valid() && ValidOffset(l, off)
  {
    || (forall d :: 0 <= d < |off| ==> !Wraps(l, off, d))
    || (exists d :: 0 <= d < |off| && Misses(l, off, d))
  }

  /** The reader copies exactly the elements of chunk box and dataset. */
  ghost predicate CoversBox(l: Layout, off: seq<nat>)
    requires l.Valid() && ValidOffset(l, off)
  {
    forall x: nat :: x < Prod(l.dims) ==> (Covers(l, off, x) <==> InChunk(l, off, Unflat(l.dims, x)))
  }

  lemma {:induction false} CoordPlain(l: Layout, off: seq<nat>, m: seq<nat>, d: nat)
    requires l.Valid() && ValidOffset(l, off) && InBox(l.dims, m) && d < |m| && !Wraps(l, off, d)
    ensures 0 <= Coord(l, off, m, d) < l.cdims[d] <==> off[d] <= m[d] < off[d] + l.cdims[d]
    ensures off[d] <= m[d] ==> Coord(l, off, m, d) == m[d] - off[d]
  {
  }

  /** Without wrap-around, the reader copies exactly the chunk box... */
  lemma {:induction false} PlainCover(l: Layout, off: seq<nat>, x: nat)
    requires l.Valid() && ValidOffset(l, off) && x < Prod(l.dims)
    requires forall d :: 0 <= d < |off| ==> !Wraps(l, off, d)
    ensures Covers(l, off, x) <==> InChunk(l, off, Unflat(l.dims, x))
  {
    var m := Unflat(l.dims, x);
    forall d | 0 <= d < |m|
      ensures 0 <= Coord(l, off, m, d) < l.cdims[d] <==> off[d] <= m[d] < off[d] + l.cdims[d]
    {
      CoordPlain(l, off, m, d);
    }
  }

  /** ...and chunk coordinates are plain differences. */
  lemma {:induction false} PlainIndex(l: Layout, off: seq<nat>, x: nat)
    requires l.Valid() && ValidOffset(l, off) && x < Prod(l.dims) && Covers(l, off, x)
    requires forall d :: 0 <= d < |off| ==> !Wraps(l, off, d)
    ensures InChunk(l, off, Unflat(l.dims, x))
    ensures ChunkIndex(l, off, x) == Relative(l, off, Unflat(l.dims, x))
  {
    PlainCover(l, off, x);
    var m, i, r := Unflat(l.dims, x), ChunkIndex(l, off, x), Relative(l, off, Unflat(l.dims, x));
    forall d | 0 <= d < |i| ensures i[d] == r[d] {
      CoordPlain(l, off, m, d);
    }
    assert i == r;
  }

  lemma {:induction false} MissedElement(l: Layout, off: seq<nat>, d: nat, x: nat)
    requires l.Valid() && ValidOffset(l, off) && d < |off| && Misses(l, off, d) && x < Prod(l.dims)
    ensures !Covers(l, off, x) && !InChunk(l, off, Unflat(l.dims, x))
  {
    var m := Unflat(l.dims, x);
    assert m[d] < l.dims[d];
    assert !(0 <= Coord(l, off, m, d) < l.cdims[d]);
  }

  /** A corner of the wrapped box: the chunk covers it although it lies outside the box. */
  ghost function WrapCorner(l: Layout, off: seq<nat>): (m: seq<nat>)
    requires |off| == |l.cdims| == |l.dims| && forall d :: 0 <= d < |off| ==> !Misses(l, off, d)
    ensures InBox(l.dims, m)
  {
    assert forall d :: 0 <= d < |off| ==> 0 < l.dims[d] && (Wraps(l, off, d) || off[d] < l.dims[d]) by {
      forall d | 0 <= d < |off| ensures 0 < l.dims[d] && (Wraps(l, off, d) || off[d] < l.dims[d]) {
        assert !Misses(l, off, d);
      }
    }
    seq(|off|, d requires 0 <= d < |off| => if Wraps(l, off, d) then 0 else off[d])
  }

  lemma {:induction false} WrapCornerCovered(l: Layout, off: seq<nat>, bad: nat)
    requires l.Valid() && ValidOffset(l, off) && forall d :: 0 <= d < |off| ==> !Misses(l, off, d)
    requires bad < |off| && Wraps(l, off, bad)
    ensures !CoversBox(l, off)
  {
    var m := WrapCorner(l, off);
    UnflatFlat(l.dims, m);
    var x := Flat(l.dims, m);
    forall d | 0 <= d < |m| ensures 0 <= Coord(l, off, m, d) < l.cdims[d] {
      assert !Misses(l, off, d);
    }
    assert Covers(l, off, x);
    assert !(off[bad] <= m[bad]);
    assert !InChunk(l, off, Unflat(l.dims, x));
  }

  /**
   * The reader copies exactly chunk box and dataset for the offsets that are
   * well placed, and for no others.
   */
  lemma {:induction false} CoversBoxIffWellPlaced(l: Layout, off: seq<nat>)
    requires l.Valid() && ValidOffset(l, off)
    ensures CoversBox(l, off) <==> WellPlaced(l, off)
  {
    if WellPlaced(l, off) {
      forall x: nat | x < Prod(l.dims)
        ensures Covers(l, off, x) <==> InChunk(l, off, Unflat(l.dims, x))
      {
        if d :| 0 <= d < |off| && Misses(l, off, d) {
          MissedElement(l, off, d, x);
        } else {
          PlainCover(l, off, x);
        }
      }
    } else {
      var bad :| 0 <= bad < |off| && Wraps(l, off, bad);
      WrapCornerCovered(l, off, bad);
    }
  }

  /** A chunk whose first coordinate is the largest 64-bit value lands on row 0. */
  lemma {:induction false} WrappedOffsetLandsOnRowZero()
    ensures var l, off := Layout([2, 1], [2, 1], 1), [U64 - 1, 0];
            && l.Valid() && ValidOffset(l, off) && Prod(l.dims) == 2
            && Covers(l, off, 0) && !InChunk(l, off, Unflat(l.dims, 0))
  {
    var l, off := Layout([2, 1], [2, 1], 1), [U64 - 1, 0];
    assert [2, 1][..1] == [2] && [2][..0] == [];
    assert Prod([2]) == 2;
    var m := Unflat(l.dims, 0);
    assert Flat([2], m[..1]) == m[0];
    assert Coord(l, off, m, 0) == 1 && Coord(l, off, m, 1) == 0;
  }

  /** A whole chunk against a whole dataset always fits: the copy never fails. */
  lemma {:induction false} WellSizedFits(l: Layout, off: seq<nat>, csize: nat, outBytes: nat)
    requires l.Valid() && ValidOffset(l, off)
    requires csize == Bytes(Prod(l.cdims), l.esz) && outBytes == Bytes(Prod(l.dims), l.esz)
    ensures AllFit(l, off, csize, outBytes)
  {
    forall x: nat | x < Prod(l.dims) ensures Fits(l, off, csize, outBytes, x) {
      if Covers(l, off, x) { CoveredFits(l, off, x); }
    }
  }

  lemma {:induction false} CoveredFits(l: Layout, off: seq<nat>, x: nat)
    requires l.Valid() && ValidOffset(l, off) && x < Prod(l.dims) && Covers(l, off, x)
    ensures Bytes(Source(l, off, x) + 1, l.esz) <= Bytes(Prod(l.cdims), l.esz)
    ensures Bytes(x + 1, l.esz) <= Bytes(Prod(l.dims), l.esz)
  {
    FlatBound(l.cdims, ChunkIndex(l, off, x));
    MulMonotone(Source(l, off, x) + 1, Prod(l.cdims), l.esz);
    MulMonotone(x + 1, Prod(l.dims), l.esz);
  }

  lemma {:induction false} BytePosition(x: nat, n: nat, e: nat, b: nat)
    requires x < n && b < e
    ensures Bytes(x, e) + b < Bytes(n, e)
    ensures (Bytes(x, e) + b) / e == x && (Bytes(x, e) + b) % e == b
  {
    RowColumnBound(x, n, e, b);
    var k := Bytes(x, e) + b;
    DivMod(k, e);
    RowColumnUnique(e, k / e, k % e, x, b);
  }

  /** Output byte `b` of element `m` is supplied exactly when `m` is in the box, from `m - off`. */
  lemma {:induction false} LandsPointwise(l: Layout, off: seq<nat>, m: seq<nat>, b: nat)
    requires l.Valid() && ValidOffset(l, off) && InBox(l.dims, m) && b < l.esz
    requires forall d :: 0 <= d < |off| ==> !Wraps(l, off, d)
    ensures Lands(l, off, Bytes(Flat(l.dims, m), l.esz) + b) <==> InChunk(l, off, m)
    ensures InChunk(l, off, m) ==>
            SourceByte(l, off, Bytes(Flat(l.dims, m), l.esz) + b)
            == Bytes(Flat(l.cdims, Relative(l, off, m)), l.esz) + b
  {
    BoxElement(l, off, m);
    FlatBound(l.dims, m);
    BytePosition(Flat(l.dims, m), Prod(l.dims), l.esz, b);
  }

  lemma {:induction false} BoxElement(l: Layout, off: seq<nat>, m: seq<nat>)
    requires l.Valid() && ValidOffset(l, off) && InBox(l.dims, m)
    requires forall d :: 0 <= d < |off| ==> !Wraps(l, off, d)
    ensures Flat(l.dims, m) < Prod(l.dims)
    ensures Covers(l, off, Flat(l.dims, m)) <==> InChunk(l, off, m)
    ensures InChunk(l, off, m) ==> Source(l, off, Flat(l.dims, m)) == Flat(l.cdims, Relative(l, off, m))
  {
    UnflatFlat(l.dims, m);
    PlainCover(l, off, Flat(l.dims, m));
    if InChunk(l, off, m) { PlainIndex(l, off, Flat(l.dims, m)); }
  }

  /**
   * Element by element: after scattering a whole chunk, byte `b` of the element
   * at `m` is that of the chunk element at `m - off` when `m` is in the box, and
   * what it was otherwise.
   */
  lemma {:induction false} ScatteredPointwise(l: Layout, off: seq<nat>, chunk: seq<byte>, before: seq<byte>, m: seq<nat>, b: nat)
    requires l.Valid() && ValidOffset(l, off) && InBox(l.dims, m) && b < l.esz
    requires |chunk| == Bytes(Prod(l.cdims), l.esz) && |before| == Bytes(Prod(l.dims), l.esz)
    requires forall d :: 0 <= d < |off| ==> !Wraps(l, off, d)
    ensures Bytes(Flat(l.dims, m), l.esz) + b < |before|
    ensures InChunk(l, off, m) ==> Bytes(Flat(l.cdims, Relative(l, off, m)), l.esz) + b < |chunk|
    ensures Scattered(l, off, chunk, before)[Bytes(Flat(l.dims, m), l.esz) + b] ==
            if InChunk(l, off, m) then chunk[Bytes(Flat(l.cdims, Relative(l, off, m)), l.esz) + b]
            else before[Bytes(Flat(l.dims, m), l.esz) + b]
  {
    FlatBound(l.dims, m);
    BytePosition(Flat(l.dims, m), Prod(l.dims), l.esz, b);
    LandsPointwise(l, off, m, b);
    if InChunk(l, off, m) {
      FlatBound(l.cdims, Relative(l, off, m));
      BytePosition(Flat(l.cdims, Relative(l, off, m)), Prod(l.cdims), l.esz, b);
    }
  }
}

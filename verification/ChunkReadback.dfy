/**
 * The point of the chunk reader: a dataset stored as the regular grid of chunks
 * is read back byte for byte, whatever the order of the chunks in the index and
 * whatever the padding of the chunks that hang over the dataset edge.
 */
module ChunkReadback {
  import opened Words
  import opened RowMajor
  import opened ChunkScatter
  import opened ChunkGeometry
  import opened ChunkTree

  /** Offset of the grid chunk that holds index `m`. */
  ghost function GridOffset(l: Layout, m: seq<nat>): (off: seq<nat>)
    requires InBox(l.dims, m) && |l.cdims| == |l.dims|
    requires forall d :: 0 <= d < |l.cdims| ==> l.cdims[d] > 0
    ensures |off| == |m|
  {
    seq(|m|, d requires 0 <= d < |m| => m[d] - m[d] % l.cdims[d])
  }

  /** Chunk `c` stores, for each dataset element in its box, that element of `data`. */
  ghost predicate Holds(l: Layout, c: Chunk, data: seq<byte>)
    requires l.Valid() && ValidOffset(l, c.off) && |data| == Bytes(Prod(l.dims), l.esz)
  {
    && |c.data| == Bytes(Prod(l.cdims), l.esz)
    && (forall d :: 0 <= d < |c.off| ==> !Wraps(l, c.off, d))
    && forall k :: 0 <= k < |data| && Lands(l, c.off, k) && SourceByte(l, c.off, k) < |c.data| ==>
         c.data[SourceByte(l, c.off, k)] == data[k]
  }

  /** Index `m` lies in some listed chunk. */
  ghost predicate InSome(l: Layout, cs: seq<Chunk>, m: seq<nat>)
    requires l.Valid() && ChunksValid(l, cs) && |m| == |l.dims|
  {
    exists i :: 0 <= i < |cs| && InChunk(l, cs[i].off, m)
  }

  ghost predicate Tiled(l: Layout, cs: seq<Chunk>)
    requires l.Valid() && ChunksValid(l, cs)
  {
    forall m :: InBox(l.dims, m) ==> InSome(l, cs, m)
  }

  /** The grid chunk of `m` contains `m`. */
  lemma {:induction false} GridChunkContains(l: Layout, m: seq<nat>)
    requires InBox(l.dims, m) && |l.cdims| == |l.dims|
    requires forall d :: 0 <= d < |l.cdims| ==> l.cdims[d] > 0
    ensures InChunk(l, GridOffset(l, m), m)
  {
    var off := GridOffset(l, m);
    forall d | 0 <= d < |m| ensures off[d] <= m[d] < off[d] + l.cdims[d] {
      assert m[d] % l.cdims[d] < l.cdims[d];
    }
  }

  /** An index that lists every grid chunk tiles the dataset. */
  lemma {:induction false} GridTiles(l: Layout, cs: seq<Chunk>)
    requires l.Valid() && ChunksValid(l, cs) && forall d :: 0 <= d < |l.cdims| ==> l.cdims[d] > 0
    requires forall m :: InBox(l.dims, m) ==> exists i :: 0 <= i < |cs| && cs[i].off == GridOffset(l, m)
    ensures Tiled(l, cs)
  {
    forall m | InBox(l.dims, m) ensures InSome(l, cs, m) {
      GridChunkContains(l, m);
      var i :| 0 <= i < |cs| && cs[i].off == GridOffset(l, m);
    }
  }

  lemma {:induction false} SourceInChunk(l: Layout, off: seq<nat>, k: nat)
    requires l.Valid() && ValidOffset(l, off) && Lands(l, off, k)
    ensures SourceByte(l, off, k) < Bytes(Prod(l.cdims), l.esz)
  {
    FlatBound(l.cdims, ChunkIndex(l, off, k / l.esz));
    RowColumnBound(Source(l, off, k / l.esz), Prod(l.cdims), l.esz, k % l.esz);
  }

  lemma {:induction false} ByteSupplied(l: Layout, c: Chunk, k: nat, x: nat)
    requires l.Valid() && ValidOffset(l, c.off) && |c.data| == Bytes(Prod(l.cdims), l.esz)
    requires forall d :: 0 <= d < |c.off| ==> !Wraps(l, c.off, d)
    requires l.esz > 0 && x == k / l.esz && x < Prod(l.dims) && InChunk(l, c.off, Unflat(l.dims, x))
    ensures Supplies(l, c.off, c.data, k)
  {
    PlainCover(l, c.off, x);
    SourceInChunk(l, c.off, k);
  }

  lemma {:induction false} TiledByte(l: Layout, cs: seq<Chunk>, data: seq<byte>, k: nat) returns (i: nat)
    requires l.Valid() && ChunksValid(l, cs) && Tiled(l, cs)
    requires k < |data| == Bytes(Prod(l.dims), l.esz)
    requires forall i :: 0 <= i < |cs| ==> Holds(l, cs[i], data)
    ensures i < |cs| && Supplies(l, cs[i].off, cs[i].data, k)
  {
    ScaleRange(k, l.esz, 0, Prod(l.dims));
    var x := k / l.esz;
    assert InSome(l, cs, Unflat(l.dims, x));
    i :| 0 <= i < |cs| && InChunk(l, cs[i].off, Unflat(l.dims, x));
    assert Holds(l, cs[i], data);
    ByteSupplied(l, cs[i], k, x);
  }

  /** Reading back a tiled dataset gives the dataset, over any initial buffer. */
  lemma {:induction false} ReadsBack(l: Layout, cs: seq<Chunk>, data: seq<byte>, before: seq<byte>)
    requires l.Valid() && ChunksValid(l, cs) && Tiled(l, cs)
    requires |before| == |data| == Bytes(Prod(l.dims), l.esz)
    requires forall i :: 0 <= i < |cs| ==> Holds(l, cs[i], data)
    ensures ScatterAll(l, cs, before) == data
  {
    forall k | 0 <= k < |data| ensures ScatterAll(l, cs, before)[k] == data[k] {
      var some := TiledByte(l, cs, data, k);
      LastChunkWins(l, cs, before, k);
      assert Holds(l, cs[LastSupplier(l, cs, k)], data);
    }
  }
}

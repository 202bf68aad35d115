/**
 * Reading one dataset: path, header, the cases that are passed over, and the bytes, whether they are
 * stored in one piece or as chunks. A dataset that is stored as chunks tiling it is read back from the
 * bytes of its file.
 */
module Dataset {
  import opened Words
  import opened H5File
  import opened RowMajor
  import opened ChunkScatter
  import opened ChunkTree
  import opened ChunkReadback
  import opened PathText
  import ChunkGeometry
  import LittleEndian
  import H5Bytes
  import OH = ObjectHeaders
  import GS = GroupSearch
  import GF = GroupFormat
  import HF = HeaderFormat
  import CF = ChunkFormat

  datatype Reading = Contents(bytes: seq<byte>) | Skipped | Failure | OutOfBounds

  /** Largest chunked dataset that is reassembled. */
  const LIMIT := 0x1000_0000
  const BLOCK := 8192

  // ------------------------------------------------------------------- headers hold machine words

  ghost predicate LayoutOk(d: OH.DataLayout) {
    match d
    case Compact(at, size) => at < U64 && size < U64
    case Contiguous(addr, size) => addr < U64
    case Chunked(cdims, esize, btree) => esize < U32 && forall d :: 0 <= d < |cdims| ==> cdims[d] < U32
    case OtherClass(_) => true
  }

  /** Dims are 64-bit, sizes and chunk dims 32-bit numbers. */
  ghost predicate HeaderOk(h: OH.Info) {
    && (h.space.Some? ==> forall d :: 0 <= d < |h.space.value| ==> h.space.value[d] < U64)
    && (h.dtype.Some? ==> h.dtype.value.1 < U32)
    && (h.layout.Some? ==> LayoutOk(h.layout.value))
  }

  lemma {:induction false} ValuesSmall(f: File, at: nat, n: nat, width: nat)
    requires OH.ReadValues(f, at, n, width).Some?
    ensures forall i :: 0 <= i < n ==> OH.ReadValues(f, at, n, width).value[i] < LittleEndian.Pow256(width)
    decreases n
  {
    if n > 0 { ValuesSmall(f, at + width, n - 1, width); }
  }

  lemma {:induction false} SpaceOk(f: File, h: OH.Info, at: nat)
    requires f.Valid() && HeaderOk(h) && OH.ApplySpace(f, h, at).Some?
    ensures HeaderOk(OH.ApplySpace(f, h, at).value)
  {
    var b := f.Read(at, 8).value;
    ValuesSmall(f, at + 8, b[1], f.lsize);
    LittleEndian.Pow256Monotone(f.lsize, 8);
    LittleEndian.Widths();
  }

  lemma {:induction false} ReadLayoutOk(f: File, at: nat, code: nat)
    requires f.Valid() && OH.ReadLayout(f, at, code).Some?
    ensures LayoutOk(OH.ReadLayout(f, at, code).value)
  {
    LittleEndian.Pow256Monotone(f.osize, 8);
    LittleEndian.Widths();
    if code == 2 {
      var stored := f.Read((at + 2) % U64, 1).value[0];
      ValuesSmall(f, at + 3 + f.osize, stored, 4);
    }
  }

  lemma {:induction false} ApplyOk(f: File, h: OH.Info, m: OH.Msg)
    requires f.Valid() && HeaderOk(h) && OH.Apply(f, h, m).Some?
    ensures HeaderOk(OH.Apply(f, h, m).value)
  {
    match m.kind
    case 0x01 => SpaceOk(f, h, m.at);
    case 0x03 => LittleEndian.Widths();
    case 0x08 => ReadLayoutOk(f, m.at, f.Read(m.at, 2).value[1]);
    case _ =>
  }

  lemma {:induction false} AllApplyOk(f: File, h: OH.Info, ms: seq<OH.Msg>)
    requires f.Valid() && HeaderOk(h) && OH.ApplyAll(f, h, ms).Some?
    ensures HeaderOk(OH.ApplyAll(f, h, ms).value)
    decreases |ms|
  {
    if ms != [] {
      ApplyOk(f, h, ms[0]);
      AllApplyOk(f, OH.Apply(f, h, ms[0]).value, ms[1..]);
    }
  }

  // ------------------------------------------------------------------------------ what is stored

  function LayoutOf(h: OH.Info): Layout
    requires h.space.Some? && h.layout.Some? && h.layout.value.Chunked?
  {
    Layout(h.space.value, h.layout.value.cdims, h.layout.value.esize)
  }

  /** The reader handles the dataset of this header. */
  predicate InScope(h: OH.Info) {
    h.space.Some? && h.dtype.Some? && h.layout.Some? && !h.external && !h.filters && h.dtype.value.0 != 9
  }

  /** File `f` stores `data` under this header as chunks: the index lists chunks that hold it and tile it. */
  ghost predicate StoredAsChunks(f: File, h: OH.Info, cs: seq<Chunk>, data: seq<byte>) {
    && InScope(h) && h.layout.value.Chunked? && h.layout.value.esize == h.dtype.value.1
    && !f.Undefined(h.layout.value.btree) && 0 < |data| <= LIMIT
    && var l := LayoutOf(h);
       && l.Valid() && l.Countable() && |data| == Bytes(Prod(l.dims), l.esz)
       && Chunks(f, |l.dims|, h.layout.value.btree, 0) == Some(cs)
       && ChunksValid(l, cs) && Tiled(l, cs) && forall i :: 0 <= i < |cs| ==> Holds(l, cs[i], data)
  }

  lemma {:induction false} StoredFits(l: Layout, cs: seq<Chunk>, data: seq<byte>)
    requires l.Valid() && ChunksValid(l, cs) && |data| == Bytes(Prod(l.dims), l.esz)
    requires forall i :: 0 <= i < |cs| ==> Holds(l, cs[i], data)
    ensures AllChunksFit(l, cs, |data|)
  {
    forall i | 0 <= i < |cs| ensures AllFit(l, cs[i].off, |cs[i].data|, |data|) {
      assert Holds(l, cs[i], data);
      ChunkGeometry.WellSizedFits(l, cs[i].off, |cs[i].data|, |data|);
    }
  }

  /** A walk over stored chunks succeeds and leaves the data. */
  lemma {:induction false} WalkReadsBack(l: Layout, cs: seq<Chunk>, data: seq<byte>, before: seq<byte>, after: seq<byte>, o: Outcome)
    requires l.Valid() && l.Countable() && ChunksValid(l, cs) && Tiled(l, cs)
    requires |before| == |data| == Bytes(Prod(l.dims), l.esz)
    requires forall i :: 0 <= i < |cs| ==> Holds(l, cs[i], data)
    requires Walked(l, Some(cs), before, after, o)
    ensures o == Done && after == data
  {
    StoredFits(l, cs, data);
    ReadsBack(l, cs, data, before);
  }

  /** The buffer before any chunk. */
  function Zeros(n: nat): (r: seq<byte>)
    ensures |r| == n
  {
    seq(n, _ => 0)
  }

  function SizeOf(h: OH.Info): nat
    requires h.space.Some? && h.dtype.Some?
  {
    Bytes(Prod(h.space.value), h.dtype.value.1) % U64
  }

  /** The reader reassembles this dataset; the others are passed over. */
  predicate Reassembles(f: File, h: OH.Info)
    requires InScope(h) && h.layout.value.Chunked?
  {
    && |h.layout.value.cdims| == |h.space.value| && !f.Undefined(h.layout.value.btree)
    && 0 < SizeOf(h) <= LIMIT
  }

  /** All listed chunks over zeros, if the index and the chunks can be read and fit. */
  ghost function Reassembled(f: File, h: OH.Info): Reading
    requires f.Valid() && InScope(h) && h.layout.value.Chunked? && LayoutOf(h).Valid()
  {
    var l := LayoutOf(h);
    var cs := Chunks(f, |l.dims|, h.layout.value.btree, 0);
    if cs.None? then Failure
    else
      ChunksAreValid(f, l, h.layout.value.btree, 0);
      if AllChunksFit(l, cs.value, SizeOf(h)) then Contents(ScatterAll(l, cs.value, Zeros(SizeOf(h)))) else Failure
  }

  /** A byte that no chunk supplies is zero. */
  lemma {:induction false} UnstoredIsZero(l: Layout, cs: seq<Chunk>, n: nat, k: nat)
    requires l.Valid() && ChunksValid(l, cs) && k < n
    requires forall i :: 0 <= i < |cs| ==> !Supplies(l, cs[i].off, cs[i].data, k)
    ensures ScatterAll(l, cs, Zeros(n))[k] == 0
  {
    LastChunkWins(l, cs, Zeros(n), k);
  }

  // ------------------------------------------------------------------------------------------ code

  /** Number of elements, as the wrapped product of the dims. */
  method ElementCount(dims: seq<nat>) returns (n: nat)
    ensures n == Prod(dims) % U64
  {
    n := 1;
    assert dims[..0] == [];
    for d := 0 to |dims|
      invariant n == Prod(dims[..d]) % U64
    {
      assert dims[..d + 1][..d] == dims[..d];
      WrapMul(Prod(dims[..d]), dims[d]);
      n := n * dims[d] % U64;
    }
    assert dims[..|dims|] == dims;
  }

  /** Reads a piece of the file block by block: all of it, or nothing. */
  method ReadBlocks(f: File, src: nat, n: nat) returns (r: Option<seq<byte>>)
    requires f.Valid() && src < U64
    ensures r == f.Read(src, n)
  {
    var out: seq<byte>, left: nat, at: nat := [], n, src;
    while left > 0
      invariant |out| + left == n && (|out| > 0 ==> at == src + |out| <= |f.bytes| && out == f.bytes[src..at])
      invariant out == [] ==> at == src
    {
      var want := Min(left, BLOCK);
      var b := f.Read(at, want);
      if b.None? { return None; }
      assert f.bytes[src..at + want] == f.bytes[src..at] + b.value by {
        if out == [] { assert f.bytes[src..at] == []; }
      }
      out, left, at := out + b.value, left - want, (at + want) % U64;
    }
    return Some(out);
  }

  method ReadChunks(f: File, h: OH.Info, nbytes: nat) returns (r: Reading)
    requires f.Valid() && HeaderOk(h) && InScope(h) && h.layout.value.Chunked?
    requires nbytes == SizeOf(h)
    ensures forall cs, data :: StoredAsChunks(f, h, cs, data) ==> r == Contents(data)
    ensures !Reassembles(f, h) ==> r == Skipped
    ensures Reassembles(f, h) ==> LayoutOf(h).Valid() && (LayoutOf(h).Countable() ==> r == Reassembled(f, h))
  {
    var d := h.layout.value;
    if |d.cdims| != |h.space.value| || f.Undefined(d.btree) { return Skipped; }
    ghost var l := LayoutOf(h);
    assert l.Valid();
    if nbytes == 0 || nbytes > LIMIT {
      forall cs, data | StoredAsChunks(f, h, cs, data) ensures false { SameSize(f, h, cs, data); }
      return Skipped;
    }
    var out := new byte[nbytes](_ => 0);
    ghost var before := out[..];
    assert before == Zeros(nbytes);
    var o := ReadChunked(f, LayoutOf(h), d.btree, out);
    forall cs, data | StoredAsChunks(f, h, cs, data) ensures o == Done && out[..] == data {
      SameSize(f, h, cs, data);
      WalkReadsBack(l, cs, data, before, out[..], o);
    }
    match o {
      case Done => r := Contents(out[..]);
      case Rejected => r := Failure;
      case Overrun => r := OutOfBounds;
    }
  }

  lemma {:induction false} SameSize(f: File, h: OH.Info, cs: seq<Chunk>, data: seq<byte>)
    requires StoredAsChunks(f, h, cs, data)
    ensures SizeOf(h) == |data|
  {
    Small(|data|);
  }

  /** The bytes of a dataset that is stored in one piece. */
  function Piece(f: File, h: OH.Info): Option<seq<byte>>
    requires InScope(h) && (h.layout.value.Contiguous? || h.layout.value.Compact?)
  {
    if h.layout.value.Contiguous? then f.Read(h.layout.value.addr, SizeOf(h))
    else f.Read(h.layout.value.at, Min(SizeOf(h), h.layout.value.size))
  }

  /** What reading gives, layout by layout. */
  ghost predicate ReadAs(f: File, h: OH.Info, r: Reading)
    requires f.Valid() && InScope(h)
  {
    match h.layout.value
    case Chunked(_, _, _) =>
      && (!Reassembles(f, h) ==> r == Skipped)
      && (Reassembles(f, h) ==> LayoutOf(h).Valid() && (LayoutOf(h).Countable() ==> r == Reassembled(f, h)))
    case Contiguous(addr, _) =>
      r == if f.Undefined(addr) then Skipped else if Piece(f, h).None? then Failure else Contents(Piece(f, h).value)
    case Compact(_, _) => r == if Piece(f, h).None? then Failure else Contents(Piece(f, h).value)
    case OtherClass(_) => r == Skipped
  }

  /** Reads the dataset of a header. */
  method ReadDataset(f: File, h: OH.Info) returns (r: Reading)
    requires f.Valid() && HeaderOk(h)
    ensures forall cs, data :: StoredAsChunks(f, h, cs, data) ==> r == Contents(data)
    ensures forall t, data :: IndexStores(f, h, t, data) ==> r == Contents(data)
    ensures h.layout.None? || h.dtype.None? || h.space.None? ==> r == Failure
    ensures h.layout.Some? && h.dtype.Some? && h.space.Some? && !InScope(h) ==> r == Skipped
    ensures InScope(h) ==> ReadAs(f, h, r)
  {
    forall t, data | IndexStores(f, h, t, data) ensures exists cs :: StoredAsChunks(f, h, cs, data) {
      IndexStored(f, h, t, data);
    }
    if h.layout.None? || h.dtype.None? || h.space.None? { return Failure; }
    if h.external || h.layout.value == OH.OtherClass(3) || h.filters || h.dtype.value.0 == 9 { return Skipped; }
    var nelem := ElementCount(h.space.value);
    WrapMul(Prod(h.space.value), h.dtype.value.1);
    var nbytes := nelem * h.dtype.value.1 % U64;
    match h.layout.value {
      case Chunked(_, _, _) =>
        r := ReadChunks(f, h, nbytes);
      case Contiguous(addr, _) =>
        if f.Undefined(addr) { return Skipped; }
        var b := ReadBlocks(f, addr, nbytes);
        r := if b.None? then Failure else Contents(b.value);
      case Compact(at, size) =>
        var b := ReadBlocks(f, at, Min(nbytes, size));
        r := if b.None? then Failure else Contents(b.value);
      case OtherClass(_) =>
        r := Skipped;
    }
  }

  /** The dataset at a path of the file: the object there has a header under which `data` is stored as chunks. */
  ghost predicate StoredAt(f: File, root: nat, path: seq<byte>, cs: seq<Chunk>, data: seq<byte>)
    requires f.Valid()
  {
    var o := OH.Follow(f, root, Tokens(Kept(path)));
    o.At? && OH.HeaderOf(f, o.oh).Some? && StoredAsChunks(f, OH.HeaderOf(f, o.oh).value, cs, data)
  }

  // ------------------------------------------------------------------------ the file as written

  /** A group on the way to an object: its header, its heap, its index. */
  datatype Hop = Hop(header: HF.Header, heap: GF.Heap, group: GF.Group)

  /** What the messages of a header say. */
  ghost function Says(f: File, at: nat, hd: HF.Header): OH.Info { HF.NotedAll(OH.EMPTY, HF.PlainsAt(f, at, hd)) }

  /** File `f` has the group `hop` at `oh`. */
  ghost predicate HopAt(f: File, oh: nat, hop: Hop) {
    && HF.HeaderAt(f, oh, hop.header)
    && var h := Says(f, oh, hop.header);
       && h.stab.Some? && GF.HeapAt(f, h.stab.value.1, hop.heap)
       && GF.GroupAt(f, h.stab.value.0, hop.heap, hop.group) && GF.Shallow(hop.group, 0)
  }

  /** File `f` has groups that lead from `oh` by the names to `target`, and no soft link on the way. */
  ghost predicate Route(f: File, oh: nat, hops: seq<Hop>, names: seq<seq<byte>>, target: nat)
    decreases |hops|
  {
    if hops == [] || names == [] then hops == [] && names == [] && oh == target
    else
      var hit := GS.FirstHit(GF.ListOf(hops[0].group), names[0]);
      HopAt(f, oh, hops[0]) && hit.Found? && hit.ctype != 2 && Route(f, hit.oh, hops[1..], names[1..], target)
  }

  lemma {:induction false} HopFollowed(f: File, oh: nat, hop: Hop, name: seq<byte>)
    requires f.Valid() && HopAt(f, oh, hop)
    requires
      var hit := GS.FirstHit(GF.ListOf(hop.group), name);
      hit.Found? && hit.ctype != 2
    ensures OH.Step(f, oh, name) == OH.At(GS.FirstHit(GF.ListOf(hop.group), name).oh)
  {
    HF.HeaderRead(f, oh, hop.header);
    var h := Says(f, oh, hop.header);
    GF.GroupRead(f, h.stab.value.0, h.stab.value.1, hop.heap, hop.group, 0);
  }

  lemma {:induction false} RouteFollowed(f: File, oh: nat, hops: seq<Hop>, names: seq<seq<byte>>, target: nat)
    requires f.Valid() && Route(f, oh, hops, names, target)
    ensures OH.Follow(f, oh, names) == OH.At(target)
    decreases |hops|
  {
    if hops != [] {
      HopFollowed(f, oh, hops[0], names[0]);
      RouteFollowed(f, GS.FirstHit(GF.ListOf(hops[0].group), names[0]).oh, hops[1..], names[1..], target);
    }
  }

  /** The index `t` is written where the header says, and its chunks tile the dataset and hold `data`. */
  ghost predicate IndexStores(f: File, h: OH.Info, t: CF.Index, data: seq<byte>) {
    && InScope(h) && h.layout.value.Chunked? && h.layout.value.esize == h.dtype.value.1 && 0 < |data| <= 256 * 1024 * 1024
    && CF.Written(f, |h.space.value|, h.layout.value.btree, t) && CF.Shallow(t, 0)
    && var l, cs := LayoutOf(h), CF.ListOf(|h.space.value|, t);
       && l.Valid() && l.Countable() && |data| == Bytes(Prod(l.dims), l.esz)
       && ChunksValid(l, cs) && Tiled(l, cs) && forall i :: 0 <= i < |cs| ==> Holds(l, cs[i], data)
  }

  lemma {:induction false} IndexStored(f: File, h: OH.Info, t: CF.Index, data: seq<byte>)
    requires f.Valid() && IndexStores(f, h, t, data)
    ensures StoredAsChunks(f, h, CF.ListOf(|h.space.value|, t), data)
  {
    CF.IndexRead(f, |h.space.value|, h.layout.value.btree, t, 0);
    H5Bytes.AddressDefined(f, h.layout.value.btree);
  }

  /**
   * File `f` as written: groups that lead to the object at the path, its header, and a chunk index with
   * the data. No part of the reader is used to say so.
   */
  ghost predicate WrittenAt(f: File, root: nat, path: seq<byte>, hops: seq<Hop>, oh: nat, hd: HF.Header, t: CF.Index,
                            data: seq<byte>)
  {
    Route(f, root, hops, Tokens(Kept(path)), oh) && HF.HeaderAt(f, oh, hd) && IndexStores(f, Says(f, oh, hd), t, data)
  }

  lemma {:induction false} WrittenIsStored(f: File, root: nat, path: seq<byte>, hops: seq<Hop>, oh: nat, hd: HF.Header,
                                           t: CF.Index, data: seq<byte>)
    requires f.Valid() && WrittenAt(f, root, path, hops, oh, hd, t, data)
    ensures StoredAt(f, root, path, CF.ListOf(|Says(f, oh, hd).space.value|, t), data)
  {
    RouteFollowed(f, root, hops, Tokens(Kept(path)), oh);
    HF.HeaderRead(f, oh, hd);
    IndexStored(f, Says(f, oh, hd), t, data);
  }

  /** A dataset written as chunks under a path is what reading that path gives, byte for byte. */
  method OneDataset(f: File, root: nat, path: seq<byte>) returns (r: Reading)
    requires f.Valid()
    ensures forall cs, data :: StoredAt(f, root, path, cs, data) ==> r == Contents(data)
    ensures forall hops, oh, hd, t, data :: WrittenAt(f, root, path, hops, oh, hd, t, data) ==> r == Contents(data)
    ensures
      var o := OH.Follow(f, root, Tokens(Kept(path)));
      (o.SoftLink? ==> r == Skipped) && (!o.SoftLink? && !o.At? ==> r == Failure)
  {
    forall hops, oh, hd, t, data | WrittenAt(f, root, path, hops, oh, hd, t, data)
      ensures exists cs :: StoredAt(f, root, path, cs, data)
    {
      WrittenIsStored(f, root, path, hops, oh, hd, t, data);
    }
    r := ReadPath(f, root, path);
  }

  method ReadPath(f: File, root: nat, path: seq<byte>) returns (r: Reading)
    requires f.Valid()
    ensures forall cs, data :: StoredAt(f, root, path, cs, data) ==> r == Contents(data)
    ensures
      var o := OH.Follow(f, root, Tokens(Kept(path)));
      (o.SoftLink? ==> r == Skipped) && (!o.SoftLink? && !o.At? ==> r == Failure)
  {
    var o := OH.Resolve(f, root, path);
    if o.SoftLink? { return Skipped; }
    if !o.At? { return Failure; }
    var h := OH.ReadHeader(f, o.oh);
    if h.None? { return Failure; }
    AllApplyOk(f, OH.EMPTY, OH.HeaderMessages(f, o.oh).value);
    r := ReadDataset(f, h.value);
  }
}

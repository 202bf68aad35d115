/**
 * Reassembling a chunked dataset: the walk of the version 1 chunk B-tree and the
 * scatter of every chunk it finds, on any file bytes.
 */
module ChunkTree {
  import opened Words
  import opened LittleEndian
  import opened H5File
  import opened RowMajor
  import opened ChunkScatter

  /** One stored chunk: its element offsets in the dataset and its bytes. */
  datatype Chunk = Chunk(off: seq<nat>, data: seq<byte>)

  /** Deepest node the walk enters. */
  const MAX_DEPTH := 24

  function KeySize(rank: nat): nat { 8 + 8 * (rank + 1) }

  function EntryAt(f: File, rank: nat, addr: nat, i: nat): nat {
    (addr + 8 + 2 * f.osize + i * (KeySize(rank) + f.osize)) % U64
  }

  /** Element offsets stored in a chunk key. */
  function KeyOffsets(rank: nat, key: seq<byte>): (off: seq<nat>)
    requires |key| == KeySize(rank)
    ensures |off| == rank && forall d :: 0 <= d < rank ==> off[d] < U64
  {
    Widths();
    seq(rank, d requires 0 <= d < rank => Value(key[8 + 8 * d..16 + 8 * d]))
  }

  /**
   * Every chunk reachable from the node at `addr` within the depth limit, in
   * left-to-right order; `None` if any node, key or chunk cannot be read.
   */
  ghost function Chunks(f: File, rank: nat, addr: nat, depth: nat): Option<seq<Chunk>>
    decreases MAX_DEPTH + 1 - depth, 1, 0
  {
    if depth > MAX_DEPTH || f.Undefined(addr) then Some([])
    else
      match f.Read(addr, 8)
      case None => None
      case Some(hdr) =>
        if hdr[..4] != TREE then None
        else ChunksFrom(f, rank, addr, depth, hdr[5], Value(hdr[6..8]), 0)
  }

  /** The chunks below entries `i` and later of one node. */
  ghost function ChunksFrom(f: File, rank: nat, addr: nat, depth: nat, level: nat, nused: nat, i: nat)
    : Option<seq<Chunk>>
    requires depth <= MAX_DEPTH && i <= nused
    decreases MAX_DEPTH + 1 - depth, 0, nused - i
  {
    if i == nused then Some([])
    else
      match EntryChunks(f, rank, addr, depth, level, i)
      case None => None
      case Some(first) =>
        match ChunksFrom(f, rank, addr, depth, level, nused, i + 1)
        case None => None
        case Some(rest) => Some(first + rest)
  }

  ghost function EntryChunks(f: File, rank: nat, addr: nat, depth: nat, level: nat, i: nat): Option<seq<Chunk>>
    requires depth <= MAX_DEPTH
    decreases MAX_DEPTH + 1 - depth, 0, 0
  {
    match ReadEntry(f, rank, addr, i)
    case None => None
    case Some((key, child)) =>
      if level > 0 then Chunks(f, rank, child, depth + 1)
      else LeafChunk(f, rank, key, child)
  }

  /** Key and child address of entry `i`. */
  function ReadEntry(f: File, rank: nat, addr: nat, i: nat): (r: Option<(seq<byte>, nat)>)
    ensures r.Some? ==> |r.value.0| == KeySize(rank)
  {
    var kat := EntryAt(f, rank, addr, i);
    match f.Read(kat, KeySize(rank))
    case None => None
    case Some(key) =>
      match f.Read((kat + KeySize(rank)) % U64, f.osize)
      case None => None
      case Some(cb) => Some((key, Value(cb)))
  }

  /** The chunk a leaf entry points to; none when the address is undefined or the size is 0. */
  function LeafChunk(f: File, rank: nat, key: seq<byte>, child: nat): Option<seq<Chunk>>
    requires |key| == KeySize(rank)
  {
    var csize := Value(key[..4]);
    if f.Undefined(child) || csize == 0 then Some([])
    else
      match f.Read(child, csize)
      case None => None
      case Some(data) => Some([Chunk(KeyOffsets(rank, key), data)])
  }

  ghost predicate ChunksValid(l: Layout, cs: seq<Chunk>) {
    forall i :: 0 <= i < |cs| ==> ValidOffset(l, cs[i].off)
  }

  ghost predicate AllChunksFit(l: Layout, cs: seq<Chunk>, outBytes: nat)
    requires l.Valid() && ChunksValid(l, cs)
  {
    forall i :: 0 <= i < |cs| ==> AllFit(l, cs[i].off, |cs[i].data|, outBytes)
  }

  /** What the scatter makes of a list of chunks: the first that is not done decides. */
  ghost function ListVerdict(l: Layout, cs: seq<Chunk>, outBytes: nat): Outcome
    requires l.Valid() && ChunksValid(l, cs)
    decreases |cs|
  {
    if cs == [] then Done
    else
      assert ChunksValid(l, cs[..|cs| - 1]);
      var v := ListVerdict(l, cs[..|cs| - 1], outBytes);
      var last := cs[|cs| - 1];
      if v == Done then Verdict(l, last.off, |last.data|, outBytes) else v
  }

  lemma {:induction false} VerdictAppend(l: Layout, a: seq<Chunk>, b: seq<Chunk>, outBytes: nat)
    requires l.Valid() && ChunksValid(l, a) && ChunksValid(l, b)
    ensures ChunksValid(l, a + b)
    ensures ListVerdict(l, a + b, outBytes) ==
      if ListVerdict(l, a, outBytes) == Done then ListVerdict(l, b, outBytes) else ListVerdict(l, a, outBytes)
    decreases |b|
  {
    if b == [] {
      assert a + b == a;
    } else {
      var n := |b| - 1;
      assert ChunksValid(l, b[..n]);
      VerdictAppend(l, a, b[..n], outBytes);
      assert (a + b)[..|a + b| - 1] == a + b[..n];
    }
  }

  /** Scattering a list of chunks in order. */
  ghost function ScatterAll(l: Layout, cs: seq<Chunk>, before: seq<byte>): (after: seq<byte>)
    requires l.Valid() && ChunksValid(l, cs)
    ensures |after| == |before|
    decreases |cs|
  {
    if cs == [] then before
    else
      assert ChunksValid(l, cs[..|cs| - 1]);
      var last := cs[|cs| - 1];
      Scattered(l, last.off, last.data, ScatterAll(l, cs[..|cs| - 1], before))
  }

  lemma {:induction false} ScatterAppend(l: Layout, a: seq<Chunk>, b: seq<Chunk>, before: seq<byte>)
    requires l.Valid() && ChunksValid(l, a) && ChunksValid(l, b)
    ensures ChunksValid(l, a + b)
    ensures ScatterAll(l, a + b, before) == ScatterAll(l, b, ScatterAll(l, a, before))
    decreases |b|
  {
    if b == [] {
      assert a + b == a;
    } else {
      var n := |b| - 1;
      assert ChunksValid(l, b[..n]);
      ScatterAppend(l, a, b[..n], before);
      assert (a + b)[..|a + b| - 1] == a + b[..n];
    }
  }

  /** Last chunk in walk order that supplies output byte `k`; -1 if there is none. */
  ghost function LastSupplier(l: Layout, cs: seq<Chunk>, k: nat): (i: int)
    requires l.Valid() && ChunksValid(l, cs)
    ensures -1 <= i < |cs|
    ensures i >= 0 ==> Supplies(l, cs[i].off, cs[i].data, k)
    ensures forall j :: i < j < |cs| ==> !Supplies(l, cs[j].off, cs[j].data, k)
    decreases |cs|
  {
    if cs == [] then -1
    else
      var n := |cs| - 1;
      assert ChunksValid(l, cs[..n]);
      if Supplies(l, cs[n].off, cs[n].data, k) then n else LastSupplier(l, cs[..n], k)
  }

  /** After a whole walk each output byte comes from its last supplier, or is untouched. */
  lemma {:induction false} LastChunkWins(l: Layout, cs: seq<Chunk>, before: seq<byte>, k: nat)
    requires l.Valid() && ChunksValid(l, cs) && k < |before|
    ensures var i := LastSupplier(l, cs, k);
            ScatterAll(l, cs, before)[k] == if i < 0 then before[k] else cs[i].data[SourceByte(l, cs[i].off, k)]
    decreases |cs|
  {
    if cs != [] {
      var n := |cs| - 1;
      assert ChunksValid(l, cs[..n]);
      LastChunkWins(l, cs[..n], before, k);
    }
  }

  // ------------------------------------------------------------------- code

  lemma {:induction false} ChunksAreValid(f: File, l: Layout, addr: nat, depth: nat)
    requires f.Valid() && l.Valid() && Chunks(f, |l.dims|, addr, depth).Some?
    ensures ChunksValid(l, Chunks(f, |l.dims|, addr, depth).value)
    decreases MAX_DEPTH + 1 - depth, 1, 0
  {
    if depth <= MAX_DEPTH && !f.Undefined(addr) {
      var hdr := f.Read(addr, 8).value;
      ChunksFromAreValid(f, l, addr, depth, hdr[5], Value(hdr[6..8]), 0);
    }
  }

  lemma {:induction false} ChunksFromAreValid(f: File, l: Layout, addr: nat, depth: nat, level: nat, nused: nat, i: nat)
    requires f.Valid() && l.Valid() && depth <= MAX_DEPTH && i <= nused
    requires ChunksFrom(f, |l.dims|, addr, depth, level, nused, i).Some?
    ensures ChunksValid(l, ChunksFrom(f, |l.dims|, addr, depth, level, nused, i).value)
    decreases MAX_DEPTH + 1 - depth, 0, nused - i
  {
    if i < nused {
      EntryChunksAreValid(f, l, addr, depth, level, i);
      ChunksFromAreValid(f, l, addr, depth, level, nused, i + 1);
    }
  }

  lemma {:induction false} EntryChunksAreValid(f: File, l: Layout, addr: nat, depth: nat, level: nat, i: nat)
    requires f.Valid() && l.Valid() && depth <= MAX_DEPTH
    requires EntryChunks(f, |l.dims|, addr, depth, level, i).Some?
    ensures ChunksValid(l, EntryChunks(f, |l.dims|, addr, depth, level, i).value)
    decreases MAX_DEPTH + 1 - depth, 0, 0
  {
    if level > 0 {
      ChunksAreValid(f, l, ReadEntry(f, |l.dims|, addr, i).value.1, depth + 1);
    }
  }

  /**
   * What a finished piece of the walk has done to the output. For every header its outcome is
   * that of the chunks found; with countable sizes it never overruns and scatters them all.
   */
  ghost predicate Walked(l: Layout, found: Option<seq<Chunk>>, before: seq<byte>, after: seq<byte>, o: Outcome)
    requires l.Valid() && (found.Some? ==> ChunksValid(l, found.value))
  {
    && |after| == |before|
    && (found.Some? ==> o == ListVerdict(l, found.value, |before|))
    && (o.Done? ==> found.Some?)
    && (l.Countable() ==> CountedWalk(l, found, before, after, o))
  }

  ghost predicate CountedWalk(l: Layout, found: Option<seq<Chunk>>, before: seq<byte>, after: seq<byte>, o: Outcome)
    requires l.Valid() && (found.Some? ==> ChunksValid(l, found.value))
  {
    && o != Overrun
    && (o.Done? <==> found.Some? && AllChunksFit(l, found.value, |before|))
    && (o.Done? ==> after == ScatterAll(l, found.value, before))
  }

  /** State of the loop over the entries of a node: `done` is scattered, `rest` is to come. */
  ghost predicate Scanning(l: Layout, whole: Option<seq<Chunk>>, done: seq<Chunk>, rest: Option<seq<Chunk>>,
                           before: seq<byte>, after: seq<byte>)
    requires l.Valid()
  {
    && ChunksValid(l, done) && ListVerdict(l, done, |before|) == Done
    && (l.Countable() ==> AllChunksFit(l, done, |before|) && after == ScatterAll(l, done, before))
    && whole == if rest.None? then None else Some(done + rest.value)
  }

  lemma {:induction false} ScanCounted(l: Layout, done: seq<Chunk>, first: seq<Chunk>, before: seq<byte>, after: seq<byte>,
                                       next: seq<byte>)
    requires l.Valid() && ChunksValid(l, done) && ChunksValid(l, first) && ChunksValid(l, done + first) && |after| == |before|
    requires AllChunksFit(l, done, |before|) && after == ScatterAll(l, done, before)
    requires AllChunksFit(l, first, |before|) && next == ScatterAll(l, first, after)
    ensures AllChunksFit(l, done + first, |before|) && next == ScatterAll(l, done + first, before)
  {
    ScatterAppend(l, done, first, before);
    var both := done + first;
    forall i | 0 <= i < |both| ensures AllFit(l, both[i].off, |both[i].data|, |before|) {
      if i < |done| { assert both[i] == done[i]; } else { assert both[i] == first[i - |done|]; }
    }
  }

  lemma {:induction false} ScanStep(l: Layout, whole: Option<seq<Chunk>>, done: seq<Chunk>, first: Option<seq<Chunk>>,
                                    rest: Option<seq<Chunk>>, before: seq<byte>, after: seq<byte>, next: seq<byte>)
    requires l.Valid() && first.Some? && ChunksValid(l, first.value) && |after| == |before|
    requires Scanning(l, whole, done, if rest.None? then None else Some(first.value + rest.value), before, after)
    requires Walked(l, first, after, next, Done)
    ensures Scanning(l, whole, done + first.value, rest, before, next)
  {
    VerdictAppend(l, done, first.value, |before|);
    if l.Countable() { ScanCounted(l, done, first.value, before, after, next); }
    if rest.Some? {
      assert done + (first.value + rest.value) == done + first.value + rest.value;
    }
  }

  lemma {:induction false} ScanStop(l: Layout, whole: Option<seq<Chunk>>, done: seq<Chunk>, first: Option<seq<Chunk>>,
                 rest: Option<seq<Chunk>>, before: seq<byte>, after: seq<byte>, next: seq<byte>, o: Outcome)
    requires l.Valid() && (whole.Some? ==> ChunksValid(l, whole.value)) && (first.Some? ==> ChunksValid(l, first.value))
    requires |after| == |before| && o != Done
    requires Scanning(l, whole, done, if first.None? || rest.None? then None else Some(first.value + rest.value),
                      before, after)
    requires Walked(l, first, after, next, o)
    ensures Walked(l, whole, before, next, o)
  {
    if whole.Some? {
      StopVerdict(l, done, first.value, rest.value, |before|);
      if l.Countable() {
        var i :| 0 <= i < |first.value| && !AllFit(l, first.value[i].off, |first.value[i].data|, |before|);
        assert whole.value[|done| + i] == first.value[i];
      }
    }
  }

  /** What stops the walk decides, whatever comes after. */
  lemma {:induction false} StopVerdict(l: Layout, done: seq<Chunk>, first: seq<Chunk>, rest: seq<Chunk>, outBytes: nat)
    requires l.Valid() && ChunksValid(l, done) && ChunksValid(l, first) && ChunksValid(l, done + (first + rest))
    requires ListVerdict(l, done, outBytes) == Done && ListVerdict(l, first, outBytes) != Done
    ensures ListVerdict(l, done + (first + rest), outBytes) == ListVerdict(l, first, outBytes)
  {
    forall i | 0 <= i < |rest| ensures ValidOffset(l, rest[i].off) {
      assert rest[i] == (done + (first + rest))[|done| + |first| + i];
    }
    VerdictAppend(l, first, rest, outBytes);
    VerdictAppend(l, done, first + rest, outBytes);
  }

  /**
   * Walks the chunk index below `addr`, scattering as it goes. Terminates on any
   * bytes, cyclic trees included.
   */
  method WalkTree(f: File, l: Layout, stride: seq<nat>, addr: nat, out: array<byte>, depth: nat) returns (o: Outcome)
    requires f.Valid() && l.Valid() && |stride| == |l.dims|
    requires forall d :: 0 <= d < |l.dims| ==> stride[d] == Prod(l.dims[d + 1..]) % U64
    modifies out
    ensures Chunks(f, |l.dims|, addr, depth).Some? ==> ChunksValid(l, Chunks(f, |l.dims|, addr, depth).value)
    ensures Walked(l, Chunks(f, |l.dims|, addr, depth), old(out[..]), out[..], o)
    decreases MAX_DEPTH + 1 - depth, 1
  {
    if depth > MAX_DEPTH || f.Undefined(addr) { return Done; }
    var rank := |l.dims|;
    ghost var whole, before := Chunks(f, rank, addr, depth), out[..];
    if whole.Some? { ChunksAreValid(f, l, addr, depth); }
    var hdr := f.Read(addr, 8);
    if hdr.None? || hdr.value[..4] != TREE { return Rejected; }
    var level := hdr.value[5];
    var nused := Decode(hdr.value[6..8]);
    ghost var done: seq<Chunk> := [];
    assert whole.Some? ==> done + whole.value == whole.value;
    for i := 0 to nused
      invariant out.Length == |before|
      invariant Scanning(l, whole, done, ChunksFrom(f, rank, addr, depth, level, nused, i), before, out[..])
    {
      ghost var after := out[..];
      ghost var first := EntryChunks(f, rank, addr, depth, level, i);
      ghost var rest := ChunksFrom(f, rank, addr, depth, level, nused, i + 1);
      o := WalkEntry(f, l, stride, addr, out, depth, level, i);
      if o != Done {
        ScanStop(l, whole, done, first, rest, before, after, out[..], o);
        return;
      }
      ScanStep(l, whole, done, first, rest, before, after, out[..]);
      done := done + first.value;
    }
    assert whole == Some(done + []) && done + [] == done;
    return Done;
  }

  /** One entry of a node: descend, skip, or read and scatter a chunk. */
  method WalkEntry(f: File, l: Layout, stride: seq<nat>, addr: nat, out: array<byte>, depth: nat, level: nat, i: nat)
    returns (o: Outcome)
    requires f.Valid() && l.Valid() && |stride| == |l.dims|
    requires forall d :: 0 <= d < |l.dims| ==> stride[d] == Prod(l.dims[d + 1..]) % U64
    requires depth <= MAX_DEPTH
    modifies out
    ensures EntryChunks(f, |l.dims|, addr, depth, level, i).Some? ==>
              ChunksValid(l, EntryChunks(f, |l.dims|, addr, depth, level, i).value)
    ensures Walked(l, EntryChunks(f, |l.dims|, addr, depth, level, i), old(out[..]), out[..], o)
    decreases MAX_DEPTH + 1 - depth, 0
  {
    var entry := ReadEntry(f, |l.dims|, addr, i);
    if entry.None? { return Rejected; }
    var (key, child) := entry.value;
    if level > 0 {
      o := WalkTree(f, l, stride, child, out, depth + 1);
      return;
    }
    o := WalkLeaf(f, l, stride, key, child, out);
  }

  method WalkLeaf(f: File, l: Layout, stride: seq<nat>, key: seq<byte>, child: nat, out: array<byte>)
    returns (o: Outcome)
    requires f.Valid() && l.Valid() && |stride| == |l.dims| && |key| == KeySize(|l.dims|)
    requires forall d :: 0 <= d < |l.dims| ==> stride[d] == Prod(l.dims[d + 1..]) % U64
    modifies out
    ensures LeafChunk(f, |l.dims|, key, child).Some? ==> ChunksValid(l, LeafChunk(f, |l.dims|, key, child).value)
    ensures Walked(l, LeafChunk(f, |l.dims|, key, child), old(out[..]), out[..], o)
  {
    var csize := Decode(key[..4]);
    if f.Undefined(child) || csize == 0 { return Done; }
    var data := f.Read(child, csize);
    if data.None? { return Rejected; }
    var c := Chunk(KeyOffsets(|l.dims|, key), data.value);
    ghost var before := out[..];
    assert [c][..0] == [];
    assert ScatterAll(l, [c], before) == Scattered(l, c.off, c.data, before);
    assert ListVerdict(l, [c], |before|) == Verdict(l, c.off, |c.data|, |before|);
    o := Scatter(l, c.off, stride, c.data, out);
  }

  /**
   * Reads a whole chunked dataset into `out`, for any header. With countable sizes it succeeds
   * exactly when the index and all its chunks can be read and fit, and then holds every chunk,
   * the later one winning where chunks overlap.
   */
  method ReadChunked(f: File, l: Layout, btree: nat, out: array<byte>) returns (o: Outcome)
    requires f.Valid() && l.Valid()
    modifies out
    ensures Chunks(f, |l.dims|, btree, 0).Some? ==> ChunksValid(l, Chunks(f, |l.dims|, btree, 0).value)
    ensures Walked(l, Chunks(f, |l.dims|, btree, 0), old(out[..]), out[..], o)
  {
    var stride := Strides(l.dims);
    o := WalkTree(f, l, stride, btree, out, 0);
  }
}

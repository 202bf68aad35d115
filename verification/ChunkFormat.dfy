/**
 * The chunk index as its writer lays it out: version 1 B-tree nodes of type 1. If a file holds such an
 * index, the reader lists exactly the chunks in it, in order.
 */
module ChunkFormat {
  import opened Words
  import opened LittleEndian
  import opened H5File
  import opened H5Bytes
  import opened ChunkTree

  /** A key: size of the chunk in bytes, filter mask, and the element offsets, one more than the rank. */
  datatype Key = Key(size: nat, mask: nat, offs: seq<nat>)

  function KeyBytes(k: Key): seq<byte> { Encode(k.size, 4) + Encode(k.mask, 4) + Numbers(k.offs, 8) }

  /** An entry of a node: a key and the address it leads to. */
  datatype Slot = Slot(key: Key, child: nat)

  function SlotBytes(s: Slot, osize: nat): seq<byte> { KeyBytes(s.key) + Encode(s.child, osize) }

  function SlotRecords(ss: seq<Slot>, osize: nat): (rs: seq<seq<byte>>)
    ensures |rs| == |ss|
  {
    seq(|ss|, i requires 0 <= i < |ss| => SlotBytes(ss[i], osize))
  }

  /** Signature, node type, level, number of entries. */
  function NodeHead(level: byte, n: nat): seq<byte> { TREE + [1, level] + Encode(n, 2) }

  /** A node: head, addresses of the two siblings, entries. */
  function NodeBytes(level: byte, left: nat, right: nat, ss: seq<Slot>, osize: nat): seq<byte> {
    NodeHead(level, |ss|) + (Encode(left, osize) + Encode(right, osize)) + Join(SlotRecords(ss, osize))
  }

  /** A chunk of the index, or a node below it, with the key that stands before it. */
  datatype Item = Item(key: Key, at: nat, data: seq<byte>)
  datatype Kid = Kid(key: Key, at: nat, node: Index)

  datatype Index =
    | Leaf(left: nat, right: nat, items: seq<Item>)
    | Inner(level: byte, left: nat, right: nat, kids: seq<Kid>)

  function ItemSlots(items: seq<Item>): (ss: seq<Slot>)
    ensures |ss| == |items|
  {
    seq(|items|, i requires 0 <= i < |items| => Slot(items[i].key, items[i].at))
  }

  function KidSlots(kids: seq<Kid>): (ss: seq<Slot>)
    ensures |ss| == |kids|
  {
    seq(|kids|, i requires 0 <= i < |kids| => Slot(kids[i].key, kids[i].at))
  }

  ghost predicate KeyOk(k: Key, rank: nat) {
    k.size < U32 && k.mask < U32 && |k.offs| == rank + 1 && forall d :: 0 <= d < |k.offs| ==> k.offs[d] < U64
  }

  /** A chunk is stored at its address with its size in the key; one without bytes or address is not there. */
  ghost predicate ItemOk(f: File, rank: nat, it: Item) {
    && KeyOk(it.key, rank) && it.at < Pow256(f.osize)
    && (it.data != [] ==> Address(f, it.at) && |it.data| == it.key.size && HasBytes(f, it.at, it.data))
    && (it.data == [] ==> it.key.size == 0 || !Address(f, it.at))
  }

  /** File `f` holds the index `t` at `at`. */
  ghost predicate Written(f: File, rank: nat, at: nat, t: Index)
    decreases t
  {
    && Address(f, at)
    && match t
       case Leaf(left, right, items) =>
         && |items| < 0x1_0000 && HasBytes(f, at, NodeBytes(0, left, right, ItemSlots(items), f.osize))
         && (forall i :: 0 <= i < |items| ==> ItemOk(f, rank, items[i]))
       case Inner(level, left, right, kids) =>
         && level > 0 && |kids| < 0x1_0000 && HasBytes(f, at, NodeBytes(level, left, right, KidSlots(kids), f.osize))
         && (forall i :: 0 <= i < |kids| ==> KeyOk(kids[i].key, rank) && Written(f, rank, kids[i].at, kids[i].node))
  }

  /** The index is not deeper than the reader goes, starting at `depth`. */
  ghost predicate Shallow(t: Index, depth: nat)
    decreases t
  {
    depth <= 24 && (t.Inner? ==> forall i :: 0 <= i < |t.kids| ==> Shallow(t.kids[i].node, depth + 1))
  }

  /** The chunks of an index, left to right. */
  ghost function ListOf(rank: nat, t: Index): seq<Chunk>
    decreases t, 1, 0
  {
    match t
    case Leaf(_, _, items) => ItemChunks(rank, items)
    case Inner(_, _, _, kids) => KidChunks(rank, t, kids, 0)
  }

  function ItemChunks(rank: nat, items: seq<Item>): seq<Chunk> {
    if items == [] then []
    else
      ItemChunk(rank, items[0]) + ItemChunks(rank, items[1..])
  }

  function ItemChunk(rank: nat, it: Item): seq<Chunk> {
    if it.data == [] then []
    else [Chunk(if rank <= |it.key.offs| then it.key.offs[..rank] else it.key.offs, it.data)]
  }

  /** The chunks below kids `i` and later of `t`. */
  ghost function KidChunks(rank: nat, t: Index, kids: seq<Kid>, i: nat): seq<Chunk>
    requires t.Inner? && kids == t.kids && i <= |kids|
    decreases t, 0, |kids| - i
  {
    if i == |kids| then [] else ListOf(rank, kids[i].node) + KidChunks(rank, t, kids, i + 1)
  }

  // -------------------------------------------------------------------- reading one entry

  lemma {:induction false} KeyLength(k: Key, rank: nat)
    requires KeyOk(k, rank)
    ensures |KeyBytes(k)| == KeySize(rank)
  {
    NumbersLength(k.offs, 8);
  }

  lemma {:induction false} EntryIsSlot(f: File, rank: nat, kat: nat, s: Slot)
    requires f.Valid() && HasBytes(f, kat, SlotBytes(s, f.osize)) && KeyOk(s.key, rank) && s.child < Pow256(f.osize)
    ensures f.Read(kat, KeySize(rank)) == Some(KeyBytes(s.key))
    ensures f.Read(kat + KeySize(rank), f.osize) == Some(Encode(s.child, f.osize))
    ensures Value(Encode(s.child, f.osize)) == s.child && kat + KeySize(rank) < U64
  {
    KeyLength(s.key, rank);
    HasSplit(f, kat, KeyBytes(s.key), Encode(s.child, f.osize));
    HasRead(f, kat, KeyBytes(s.key));
    HasRead(f, kat + KeySize(rank), Encode(s.child, f.osize));
    ValueEncode(s.child, f.osize);
  }

  lemma {:induction false} EntryPlace(f: File, rank: nat, at: nat, i: nat)
    requires at + 8 + 2 * f.osize + Skipped(KeySize(rank) + f.osize, i) < U64
    ensures EntryAt(f, rank, at, i) == at + 8 + 2 * f.osize + Skipped(KeySize(rank) + f.osize, i)
  {
    SkippedTimes(KeySize(rank) + f.osize, i);
  }

  lemma {:induction false} EntryFrom(f: File, rank: nat, at: nat, i: nat, key: seq<byte>, child: seq<byte>)
    requires EntryAt(f, rank, at, i) + KeySize(rank) < U64 && f.Read(EntryAt(f, rank, at, i), KeySize(rank)) == Some(key)
    requires f.Read(EntryAt(f, rank, at, i) + KeySize(rank), f.osize) == Some(child)
    ensures ReadEntry(f, rank, at, i) == Some((key, Value(child)))
  {
    var kat := EntryAt(f, rank, at, i);
    assert (kat + KeySize(rank)) % U64 == kat + KeySize(rank);
  }

  /** The entries of a node start behind its head and the two sibling addresses. */
  lemma {:induction false} SlotsStart(f: File, at: nat, level: byte, left: nat, right: nat, ss: seq<Slot>)
    requires HasBytes(f, at, NodeBytes(level, left, right, ss, f.osize))
    ensures HasBytes(f, at, NodeHead(level, |ss|)) && HasBytes(f, at + 8 + 2 * f.osize, Join(SlotRecords(ss, f.osize)))
  {
    var head, sibs := NodeHead(level, |ss|), Encode(left, f.osize) + Encode(right, f.osize);
    HasSplit(f, at, head + sibs, Join(SlotRecords(ss, f.osize)));
    HasSplit(f, at, head, sibs);
    assert |head + sibs| == 8 + 2 * f.osize;
  }

  ghost predicate SlotOk(f: File, rank: nat, s: Slot) { KeyOk(s.key, rank) && s.child < Pow256(f.osize) }

  lemma {:induction false} SlotOfNode(f: File, rank: nat, at: nat, level: byte, left: nat, right: nat, ss: seq<Slot>, i: nat)
    requires HasBytes(f, at, NodeBytes(level, left, right, ss, f.osize)) && i < |ss|
    requires forall j :: 0 <= j < |ss| ==> SlotOk(f, rank, ss[j])
    ensures HasBytes(f, at + 8 + 2 * f.osize + Skipped(KeySize(rank) + f.osize, i), SlotBytes(ss[i], f.osize))
  {
    SlotsStart(f, at, level, left, right, ss);
    SlotSizes(f, rank, ss);
    RecordAt(f, KeySize(rank) + f.osize, at + 8 + 2 * f.osize, SlotRecords(ss, f.osize), i);
  }

  lemma {:induction false} SlotSizes(f: File, rank: nat, ss: seq<Slot>)
    requires forall j :: 0 <= j < |ss| ==> SlotOk(f, rank, ss[j])
    ensures forall j :: 0 <= j < |ss| ==> |SlotRecords(ss, f.osize)[j]| == KeySize(rank) + f.osize
  {
    forall j | 0 <= j < |ss| ensures |SlotRecords(ss, f.osize)[j]| == KeySize(rank) + f.osize {
      assert SlotOk(f, rank, ss[j]);
      KeyLength(ss[j].key, rank);
    }
  }

  lemma {:induction false} EntryOfSlot(f: File, rank: nat, at: nat, i: nat, s: Slot, kat: nat)
    requires f.Valid() && SlotOk(f, rank, s) && EntryAt(f, rank, at, i) == kat && HasBytes(f, kat, SlotBytes(s, f.osize))
    ensures ReadEntry(f, rank, at, i) == Some((KeyBytes(s.key), s.child))
  {
    EntryIsSlot(f, rank, kat, s);
    EntryFrom(f, rank, at, i, KeyBytes(s.key), Encode(s.child, f.osize));
  }

  /** What the reader takes from a node for entry `i`. */
  lemma {:induction false} EntryRead(f: File, rank: nat, at: nat, level: byte, left: nat, right: nat, ss: seq<Slot>, i: nat)
    requires f.Valid() && HasBytes(f, at, NodeBytes(level, left, right, ss, f.osize)) && i < |ss|
    requires forall j :: 0 <= j < |ss| ==> SlotOk(f, rank, ss[j])
    ensures ReadEntry(f, rank, at, i) == Some((KeyBytes(ss[i].key), ss[i].child))
  {
    SlotOfNode(f, rank, at, level, left, right, ss, i);
    var kat := at + 8 + 2 * f.osize + Skipped(KeySize(rank) + f.osize, i);
    EntryPlace(f, rank, at, i);
    EntryOfSlot(f, rank, at, i, ss[i], kat);
  }

  lemma {:induction false} HeadRead(f: File, at: nat, level: byte, left: nat, right: nat, ss: seq<Slot>)
    requires HasBytes(f, at, NodeBytes(level, left, right, ss, f.osize)) && |ss| < 0x1_0000
    ensures
      var r := f.Read(at, 8);
      r.Some? && r.value[..4] == TREE && r.value[5] == level && Value(r.value[6..8]) == |ss|
  {
    var head := NodeHead(level, |ss|);
    SlotsStart(f, at, level, left, right, ss);
    HasRead(f, at, head);
    assert head[..4] == TREE && head[6..8] == Encode(|ss|, 2);
    SmallEncode(|ss|, 2);
  }

  // ------------------------------------------------------------------- reading one chunk

  lemma {:induction false} SizeRead(k: Key, rank: nat)
    requires KeyOk(k, rank)
    ensures |KeyBytes(k)| == KeySize(rank) && Value(KeyBytes(k)[..4]) == k.size
  {
    KeyLength(k, rank);
    assert KeyBytes(k)[..4] == Encode(k.size, 4);
    SmallEncode(k.size, 4);
  }

  lemma {:induction false} OffsetsAre(rank: nat, b: seq<byte>, offs: seq<nat>)
    requires |b| == KeySize(rank) && |offs| == rank && forall d :: 0 <= d < rank ==> OffsetIs(b, d, offs[d])
    ensures KeyOffsets(rank, b) == offs
  {
    var got := KeyOffsets(rank, b);
    forall d | 0 <= d < rank ensures got[d] == offs[d] { assert OffsetIs(b, d, offs[d]); }
  }

  ghost predicate OffsetIs(b: seq<byte>, d: nat, v: nat) { 16 + 8 * d <= |b| && Value(b[8 + 8 * d..16 + 8 * d]) == v }

  lemma {:induction false} KeyRead(k: Key, rank: nat)
    requires KeyOk(k, rank)
    ensures |KeyBytes(k)| == KeySize(rank) && Value(KeyBytes(k)[..4]) == k.size
    ensures KeyOffsets(rank, KeyBytes(k)) == k.offs[..rank]
  {
    SizeRead(k, rank);
    forall d | 0 <= d < rank ensures OffsetIs(KeyBytes(k), d, k.offs[..rank][d]) { OffsetRead(k, rank, d); }
    OffsetsAre(rank, KeyBytes(k), k.offs[..rank]);
  }

  lemma {:induction false} OffsetRead(k: Key, rank: nat, d: nat)
    requires KeyOk(k, rank) && d < rank
    ensures |KeyBytes(k)| == KeySize(rank) && Value(KeyBytes(k)[8 + 8 * d..16 + 8 * d]) == k.offs[d]
  {
    KeyLength(k, rank);
    NumberAt(k.offs, 8, d);
    Later(Encode(k.size, 4) + Encode(k.mask, 4), Numbers(k.offs, 8), 8 * d, 8 * d + 8);
    SmallEncode(k.offs[d], 8);
  }

  lemma {:induction false} ItemRead(f: File, rank: nat, it: Item)
    requires f.Valid() && ItemOk(f, rank, it)
    ensures |KeyBytes(it.key)| == KeySize(rank)
    ensures LeafChunk(f, rank, KeyBytes(it.key), it.at) == Some(ItemChunk(rank, it))
  {
    KeyRead(it.key, rank);
    if it.data != [] {
      AddressDefined(f, it.at);
      HasRead(f, it.at, it.data);
    }
  }

  // -------------------------------------------------------------------- reading the whole

  lemma {:induction false} LeafRead(f: File, rank: nat, at: nat, t: Index, depth: nat, i: nat)
    requires f.Valid() && t.Leaf? && Written(f, rank, at, t) && depth <= MAX_DEPTH && i <= |t.items|
    ensures ChunksFrom(f, rank, at, depth, 0, |t.items|, i) == Some(ItemChunks(rank, t.items[i..]))
    decreases |t.items| - i
  {
    if i < |t.items| {
      var ss := ItemSlots(t.items);
      forall j | 0 <= j < |ss| ensures SlotOk(f, rank, ss[j]) { assert ItemOk(f, rank, t.items[j]); }
      EntryRead(f, rank, at, 0, t.left, t.right, ss, i);
      ItemRead(f, rank, t.items[i]);
      LeafRead(f, rank, at, t, depth, i + 1);
      assert t.items[i..][1..] == t.items[i + 1..];
    }
  }

  lemma {:induction false} KidEntry(f: File, rank: nat, at: nat, t: Index, i: nat)
    requires f.Valid() && t.Inner? && Written(f, rank, at, t) && i < |t.kids|
    ensures |KeyBytes(t.kids[i].key)| == KeySize(rank) && Written(f, rank, t.kids[i].at, t.kids[i].node)
    ensures ReadEntry(f, rank, at, i) == Some((KeyBytes(t.kids[i].key), t.kids[i].at))
  {
    var ss := KidSlots(t.kids);
    forall j | 0 <= j < |ss| ensures SlotOk(f, rank, ss[j]) {
      assert Written(f, rank, t.kids[j].at, t.kids[j].node);
    }
    EntryRead(f, rank, at, t.level, t.left, t.right, ss, i);
    KeyLength(t.kids[i].key, rank);
  }

  lemma {:induction false} KidStep(f: File, rank: nat, at: nat, depth: nat, level: nat, n: nat, i: nat, key: seq<byte>,
                                   child: nat, first: seq<Chunk>, rest: seq<Chunk>)
    requires depth <= MAX_DEPTH && level > 0 && i < n && |key| == KeySize(rank) && ReadEntry(f, rank, at, i) == Some((key, child))
    requires Chunks(f, rank, child, depth + 1) == Some(first) && ChunksFrom(f, rank, at, depth, level, n, i + 1) == Some(rest)
    ensures ChunksFrom(f, rank, at, depth, level, n, i) == Some(first + rest)
  {
    assert EntryChunks(f, rank, at, depth, level, i) == Some(first);
  }

  lemma {:induction false} InnerRead(f: File, rank: nat, at: nat, t: Index, depth: nat, i: nat)
    requires f.Valid() && t.Inner? && Written(f, rank, at, t) && Shallow(t, depth) && i <= |t.kids|
    ensures ChunksFrom(f, rank, at, depth, t.level, |t.kids|, i) == Some(KidChunks(rank, t, t.kids, i))
    decreases t, 0, |t.kids| - i
  {
    if i < |t.kids| {
      KidEntry(f, rank, at, t, i);
      assert Shallow(t.kids[i].node, depth + 1);
      IndexRead(f, rank, t.kids[i].at, t.kids[i].node, depth + 1);
      InnerRead(f, rank, at, t, depth, i + 1);
      KidStep(f, rank, at, depth, t.level, |t.kids|, i, KeyBytes(t.kids[i].key), t.kids[i].at,
              ListOf(rank, t.kids[i].node), KidChunks(rank, t, t.kids, i + 1));
    }
  }

  /** Whatever index a file holds, the reader lists its chunks: all of them, in order, with their offsets and bytes. */
  lemma {:induction false} IndexRead(f: File, rank: nat, at: nat, t: Index, depth: nat)
    requires f.Valid() && Written(f, rank, at, t) && Shallow(t, depth)
    ensures Chunks(f, rank, at, depth) == Some(ListOf(rank, t))
    decreases t, 1, 0
  {
    AddressDefined(f, at);
    match t {
      case Leaf(left, right, items) =>
        HeadRead(f, at, 0, left, right, ItemSlots(items));
        LeafRead(f, rank, at, t, depth, 0);
        assert items[0..] == items;
      case Inner(level, left, right, kids) =>
        HeadRead(f, at, level, left, right, KidSlots(kids));
        InnerRead(f, rank, at, t, depth, 0);
    }
  }
}

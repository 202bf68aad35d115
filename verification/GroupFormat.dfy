/**
 * Old-style groups as their writer lays them out: a local heap with the names, symbol nodes, and version 1
 * B-tree nodes of type 0 above them. If a file holds such a group, the reader lists exactly its
 * entries, in order, each name cut to what its buffer takes.
 */
module GroupFormat {
  import opened Words
  import opened LittleEndian
  import opened H5File
  import opened H5Bytes
  import opened GroupSearch
  import opened NameCut

  // ------------------------------------------------------------------------------ the heap

  /** A local heap: four bytes of version, size of its data, head of its free list, address of its data. */
  datatype Heap = Heap(version: seq<byte>, size: nat, free: nat, data: nat)

  function HeapBytes(h: Heap, lsize: nat, osize: nat): seq<byte> {
    HEAP + h.version + (Encode(h.size, lsize) + Encode(h.free, lsize)) + Encode(h.data, osize)
  }

  ghost predicate HeapAt(f: File, at: nat, h: Heap) {
    |h.version| == 4 && h.data < Pow256(f.osize) && HasBytes(f, at, HeapBytes(h, f.lsize, f.osize))
  }

  /** The name at an offset of the heap, with its terminating zero. */
  ghost predicate NameStored(f: File, h: Heap, noff: nat, name: seq<byte>) {
    0 !in name && HasBytes(f, h.data + noff, name + [0])
  }

  lemma {:induction false} WholeRead(f: File, at: nat, name: seq<byte>)
    requires 0 !in name && HasBytes(f, at, name + [0])
    ensures WholeName(f, at) == Some(name)
    decreases |name|
  {
    var b := name + [0];
    assert f.bytes[at] == b[0];
    if name != [] {
      HasSplit(f, at, name[..1], name[1..] + [0]) by { assert name[..1] + (name[1..] + [0]) == b; }
      WholeRead(f, at + 1, name[1..]);
      assert [name[0]] + name[1..] == name;
    }
  }

  lemma {:induction false} HeapParts(f: File, at: nat, h: Heap)
    requires HeapAt(f, at, h)
    ensures HasBytes(f, at, HEAP + h.version) && HasBytes(f, at + 8 + 2 * f.lsize, Encode(h.data, f.osize))
  {
    var head, mid := HEAP + h.version, Encode(h.size, f.lsize) + Encode(h.free, f.lsize);
    HasSplit(f, at, head + mid, Encode(h.data, f.osize));
    HasSplit(f, at, head, mid);
    assert |head + mid| == 8 + 2 * f.lsize;
  }

  lemma {:induction false} HeapRead(f: File, at: nat, h: Heap)
    requires f.Valid() && HeapAt(f, at, h)
    ensures f.Read(at, 8).Some? && f.Read(at, 8).value[..4] == HEAP
    ensures f.Read(DataField(f, at), f.osize) == Some(Encode(h.data, f.osize))
    ensures Value(Encode(h.data, f.osize)) == h.data
  {
    var head := HEAP + h.version;
    HeapParts(f, at, h);
    HasRead(f, at, head);
    HasRead(f, at + 8 + 2 * f.lsize, Encode(h.data, f.osize));
    ValueEncode(h.data, f.osize);
    assert head[..4] == HEAP;
  }

  lemma {:induction false} NameHeld(f: File, p: nat, name: seq<byte>)
    requires f.Valid() && 0 !in name && HasBytes(f, p, name + [0])
    ensures NameAt(f, p, 0) == Some(CutName(name, NAME_MAX)) && p % U64 == p
  {
    WholeRead(f, p, name);
    assert (p + 0) % U64 == p;
    NameIsCut(f, p, 0);
  }

  lemma {:induction false} HeapNameIs(f: File, at: nat, noff: nat, data: nat)
    requires f.Valid() && f.Read(at, 8).Some? && f.Read(at, 8).value[..4] == HEAP
    requires f.Read(DataField(f, at), f.osize) == Some(Encode(data, f.osize)) && Value(Encode(data, f.osize)) == data
    ensures HeapName(f, at, noff) == NameAt(f, (data + noff) % U64, 0)
  {
  }

  lemma {:induction false} NameRead(f: File, at: nat, h: Heap, noff: nat, name: seq<byte>)
    requires f.Valid() && HeapAt(f, at, h) && NameStored(f, h, noff, name)
    ensures HeapName(f, at, noff) == Some(CutName(name, NAME_MAX))
  {
    HeapRead(f, at, h);
    HeapNameIs(f, at, noff, h.data);
    NameHeld(f, h.data + noff, name);
  }

  // ------------------------------------------------------------------------- symbol nodes

  /** An entry: its name and where the heap has it, the object header, cache type, and 20 more bytes. */
  datatype Symbol = Symbol(name: seq<byte>, noff: nat, oh: nat, ctype: nat, scratch: seq<byte>)

  function SymbolBytes(y: Symbol, lsize: nat, osize: nat): seq<byte> {
    Encode(y.noff, lsize) + Encode(y.oh, osize) + Encode(y.ctype, 4) + y.scratch
  }

  ghost predicate SymbolOk(f: File, h: Heap, y: Symbol) {
    && y.noff < Pow256(f.lsize) && y.oh < Pow256(f.osize) && y.ctype < U32 && |y.scratch| == 20
    && NameStored(f, h, y.noff, y.name)
  }

  function SymbolRecords(ys: seq<Symbol>, lsize: nat, osize: nat): (rs: seq<seq<byte>>)
    ensures |rs| == |ys|
  {
    seq(|ys|, i requires 0 <= i < |ys| => SymbolBytes(ys[i], lsize, osize))
  }

  function SymbolHead(version: byte, n: nat): seq<byte> { SNOD + [version, 0] + Encode(n, 2) }

  ghost predicate SymbolsAt(f: File, at: nat, h: Heap, version: byte, ys: seq<Symbol>) {
    && |ys| < 0x1_0000 && HasBytes(f, at, SymbolHead(version, |ys|) + Join(SymbolRecords(ys, f.lsize, f.osize)))
    && (forall i :: 0 <= i < |ys| ==> SymbolOk(f, h, ys[i]))
  }

  function EntryOf(y: Symbol): Event { Entry(CutName(y.name, NAME_MAX), y.oh, y.ctype) }

  function EntriesOf(ys: seq<Symbol>): seq<Event> { if ys == [] then [] else [EntryOf(ys[0])] + EntriesOf(ys[1..]) }

  lemma {:induction false} SymbolHeld(f: File, at: nat, h: Heap, version: byte, ys: seq<Symbol>, i: nat)
    requires SymbolsAt(f, at, h, version, ys) && i < |ys|
    ensures HasBytes(f, at + 8 + Skipped(EntrySize(f), i), SymbolBytes(ys[i], f.lsize, f.osize))
  {
    var rs, size := SymbolRecords(ys, f.lsize, f.osize), EntrySize(f);
    HasSplit(f, at, SymbolHead(version, |ys|), Join(rs));
    forall j | 0 <= j < |rs| ensures |rs[j]| == size { assert SymbolOk(f, h, ys[j]); }
    RecordAt(f, size, at + 8, rs, i);
  }

  lemma {:induction false} SymbolPlaceIs(f: File, at: nat, i: nat)
    requires at + 8 + Skipped(EntrySize(f), i) < U64
    ensures SymbolPlace(f, at, i) == at + 8 + Skipped(EntrySize(f), i)
  {
    SkippedTimes(EntrySize(f), i);
  }

  /** What the reader takes of an entry: everything but the scratch bytes and four reserved ones. */
  lemma {:induction false} SymbolRead(f: File, p: nat, h: Heap, y: Symbol)
    requires f.Valid() && SymbolOk(f, h, y) && HasBytes(f, p, SymbolBytes(y, f.lsize, f.osize))
    ensures
      var r := f.Read(p, f.lsize + f.osize + 4);
      && r.Some? && Value(r.value[..f.lsize]) == y.noff && Value(r.value[f.lsize..f.lsize + f.osize]) == y.oh
      && Value(r.value[f.lsize + f.osize..]) == y.ctype
  {
    var b := Encode(y.noff, f.lsize) + Encode(y.oh, f.osize) + Encode(y.ctype, 4);
    HasSplit(f, p, b, y.scratch);
    HasRead(f, p, b);
    assert b[..f.lsize] == Encode(y.noff, f.lsize);
    assert b[f.lsize..f.lsize + f.osize] == Encode(y.oh, f.osize);
    assert b[f.lsize + f.osize..] == Encode(y.ctype, 4);
    ValueEncode(y.noff, f.lsize);
    ValueEncode(y.oh, f.osize);
    SmallEncode(y.ctype, 4);
  }

  lemma {:induction false} SymbolIs(f: File, heap: nat, e: seq<byte>, y: Symbol)
    requires f.Valid() && |e| == f.lsize + f.osize + 4
    requires Value(e[..f.lsize]) == y.noff && Value(e[f.lsize..f.lsize + f.osize]) == y.oh
    requires Value(e[f.lsize + f.osize..]) == y.ctype && HeapName(f, heap, y.noff) == Some(CutName(y.name, NAME_MAX))
    ensures SymbolEvent(f, heap, Some(e)) == [EntryOf(y)]
  {
  }

  lemma {:induction false} SymbolMeans(f: File, heap: nat, h: Heap, y: Symbol, p: nat)
    requires f.Valid() && HeapAt(f, heap, h) && SymbolOk(f, h, y) && HasBytes(f, p, SymbolBytes(y, f.lsize, f.osize))
    ensures
      var r := f.Read(p, f.lsize + f.osize + 4);
      r.Some? && SymbolEvent(f, heap, r) == [EntryOf(y)]
  {
    SymbolRead(f, p, h, y);
    NameRead(f, heap, h, y.noff, y.name);
    SymbolIs(f, heap, f.Read(p, f.lsize + f.osize + 4).value, y);
  }

  lemma {:induction false} RawIs(f: File, at: nat, heap: nat, h: Heap, version: byte, ys: seq<Symbol>, i: nat)
    requires f.Valid() && HeapAt(f, heap, h) && SymbolsAt(f, at, h, version, ys) && i < |ys|
    ensures
      var r := RawSymbols(f, at, |ys|)[i];
      r.Some? && SymbolEvent(f, heap, r) == [EntryOf(ys[i])]
  {
    assert SymbolOk(f, h, ys[i]);
    SymbolHeld(f, at, h, version, ys, i);
    SymbolPlaceIs(f, at, i);
    SymbolMeans(f, heap, h, ys[i], SymbolPlace(f, at, i));
  }

  lemma {:induction false} EventsAre(f: File, heap: nat, rs: seq<Raw>, ys: seq<Symbol>)
    requires f.Valid() && |rs| == |ys|
    requires forall i :: 0 <= i < |rs| ==> rs[i].Some? && SymbolEvent(f, heap, rs[i]) == [EntryOf(ys[i])]
    ensures EventsOf(f, heap, rs) == EntriesOf(ys)
    decreases |rs|
  {
    if rs != [] {
      assert forall i :: 0 <= i < |rs[1..]| ==> rs[1..][i] == rs[i + 1] && ys[1..][i] == ys[i + 1];
      EventsAre(f, heap, rs[1..], ys[1..]);
    }
  }

  lemma {:induction false} SymbolsRead(f: File, at: nat, heap: nat, h: Heap, version: byte, ys: seq<Symbol>)
    requires f.Valid() && HeapAt(f, heap, h) && SymbolsAt(f, at, h, version, ys)
    ensures Symbols(f, at, heap) == EntriesOf(ys)
  {
    var head := SymbolHead(version, |ys|);
    HasSplit(f, at, head, Join(SymbolRecords(ys, f.lsize, f.osize)));
    HasRead(f, at, head);
    assert head[..4] == SNOD && head[6..8] == Encode(|ys|, 2);
    SmallEncode(|ys|, 2);
    var rs := RawSymbols(f, at, |ys|);
    forall i | 0 <= i < |rs| ensures rs[i].Some? && SymbolEvent(f, heap, rs[i]) == [EntryOf(ys[i])] {
      RawIs(f, at, heap, h, version, ys, i);
    }
    EventsAre(f, heap, rs, ys);
  }

  // ---------------------------------------------------------------------------- tree nodes

  /** A child of a node, and the key behind it. */
  datatype Bottom = Bottom(at: nat, key: nat, version: byte, symbols: seq<Symbol>)
  datatype Sub = Sub(at: nat, key: nat, node: Group)

  datatype Group =
    | Low(left: nat, right: nat, key: nat, nodes: seq<Bottom>)
    | High(level: byte, left: nat, right: nat, key: nat, subs: seq<Sub>)

  function ChildBytes(at: nat, key: nat, lsize: nat, osize: nat): seq<byte> { Encode(at, osize) + Encode(key, lsize) }

  function ChildRecords(cs: seq<(nat, nat)>, lsize: nat, osize: nat): (rs: seq<seq<byte>>)
    ensures |rs| == |cs|
  {
    seq(|cs|, i requires 0 <= i < |cs| => ChildBytes(cs[i].0, cs[i].1, lsize, osize))
  }

  function LowChildren(ns: seq<Bottom>): (cs: seq<(nat, nat)>)
    ensures |cs| == |ns|
  {
    seq(|ns|, i requires 0 <= i < |ns| => (ns[i].at, ns[i].key))
  }

  function HighChildren(ns: seq<Sub>): (cs: seq<(nat, nat)>)
    ensures |cs| == |ns|
  {
    seq(|ns|, i requires 0 <= i < |ns| => (ns[i].at, ns[i].key))
  }

  function TreeHead(level: byte, n: nat): seq<byte> { TREE + [0, level] + Encode(n, 2) }

  /** A node: head, two siblings, the first key, then each child with the key behind it. */
  function TreeBytes(level: byte, left: nat, right: nat, key: nat, cs: seq<(nat, nat)>, lsize: nat, osize: nat): seq<byte> {
    TreeHead(level, |cs|) + (Encode(left, osize) + Encode(right, osize) + Encode(key, lsize)) + Join(ChildRecords(cs, lsize, osize))
  }

  ghost predicate GroupAt(f: File, at: nat, h: Heap, g: Group)
    decreases g
  {
    && Address(f, at)
    && match g
       case Low(left, right, key, ns) =>
         && |ns| < 0x1_0000 && HasBytes(f, at, TreeBytes(0, left, right, key, LowChildren(ns), f.lsize, f.osize))
         && (forall i :: 0 <= i < |ns| ==> ns[i].at < Pow256(f.osize) && SymbolsAt(f, ns[i].at, h, ns[i].version, ns[i].symbols))
       case High(level, left, right, key, ns) =>
         && level > 0 && |ns| < 0x1_0000
         && HasBytes(f, at, TreeBytes(level, left, right, key, HighChildren(ns), f.lsize, f.osize))
         && (forall i :: 0 <= i < |ns| ==> GroupAt(f, ns[i].at, h, ns[i].node))
  }

  ghost predicate Shallow(g: Group, depth: nat)
    decreases g
  {
    depth <= 16 && (g.High? ==> forall i :: 0 <= i < |g.subs| ==> Shallow(g.subs[i].node, depth + 1))
  }

  /** The entries of a group, left to right. */
  ghost function ListOf(g: Group): seq<Event>
    decreases g, 1, 0
  {
    match g
    case Low(_, _, _, ns) => LowEntries(ns)
    case High(_, _, _, _, ns) => HighEntries(g, ns, 0)
  }

  function LowEntries(ns: seq<Bottom>): seq<Event> { if ns == [] then [] else EntriesOf(ns[0].symbols) + LowEntries(ns[1..]) }

  ghost function HighEntries(g: Group, ns: seq<Sub>, i: nat): seq<Event>
    requires g.High? && ns == g.subs && i <= |ns|
    decreases g, 0, |ns| - i
  {
    if i == |ns| then [] else ListOf(ns[i].node) + HighEntries(g, ns, i + 1)
  }

  lemma {:induction false} ChildrenStart(f: File, at: nat, level: byte, left: nat, right: nat, key: nat, cs: seq<(nat, nat)>)
    requires HasBytes(f, at, TreeBytes(level, left, right, key, cs, f.lsize, f.osize))
    ensures HasBytes(f, at, TreeHead(level, |cs|))
    ensures HasBytes(f, at + 8 + 2 * f.osize + f.lsize, Join(ChildRecords(cs, f.lsize, f.osize)))
  {
    var head, mid := TreeHead(level, |cs|), Encode(left, f.osize) + Encode(right, f.osize) + Encode(key, f.lsize);
    HasSplit(f, at, head + mid, Join(ChildRecords(cs, f.lsize, f.osize)));
    HasSplit(f, at, head, mid);
    assert |head + mid| == 8 + 2 * f.osize + f.lsize;
  }

  lemma {:induction false} TreeHeadRead(f: File, at: nat, level: byte, left: nat, right: nat, key: nat, cs: seq<(nat, nat)>)
    requires HasBytes(f, at, TreeBytes(level, left, right, key, cs, f.lsize, f.osize)) && |cs| < 0x1_0000
    ensures
      var r := f.Read(at, 8);
      r.Some? && r.value[..4] == TREE && r.value[5] == level && Value(r.value[6..8]) == |cs|
  {
    var head := TreeHead(level, |cs|);
    ChildrenStart(f, at, level, left, right, key, cs);
    HasRead(f, at, head);
    assert head[..4] == TREE && head[6..8] == Encode(|cs|, 2);
    SmallEncode(|cs|, 2);
  }

  lemma {:induction false} ChildHeld(f: File, at: nat, level: byte, left: nat, right: nat, key: nat, cs: seq<(nat, nat)>, i: nat)
    requires HasBytes(f, at, TreeBytes(level, left, right, key, cs, f.lsize, f.osize)) && i < |cs|
    ensures HasBytes(f, at + 8 + 2 * f.osize + f.lsize + Skipped(f.lsize + f.osize, i), Encode(cs[i].0, f.osize))
  {
    ChildrenStart(f, at, level, left, right, key, cs);
    var rs, from := ChildRecords(cs, f.lsize, f.osize), at + 8 + 2 * f.osize + f.lsize;
    RecordAt(f, f.lsize + f.osize, from, rs, i);
    HasSplit(f, from + Skipped(f.lsize + f.osize, i), Encode(cs[i].0, f.osize), Encode(cs[i].1, f.lsize));
  }

  lemma {:induction false} ChildPlace(f: File, at: nat, i: nat)
    requires at + 8 + 2 * f.osize + f.lsize + Skipped(f.lsize + f.osize, i) < U64
    ensures ChildAt(f, at, i) == at + 8 + 2 * f.osize + f.lsize + Skipped(f.lsize + f.osize, i)
  {
    SkippedTimes(f.lsize + f.osize, i);
  }

  lemma {:induction false} ChildRead(f: File, at: nat, level: byte, left: nat, right: nat, key: nat, cs: seq<(nat, nat)>, i: nat)
    requires f.Valid() && HasBytes(f, at, TreeBytes(level, left, right, key, cs, f.lsize, f.osize)) && i < |cs|
    requires cs[i].0 < Pow256(f.osize)
    ensures f.Read(ChildAt(f, at, i), f.osize) == Some(Encode(cs[i].0, f.osize)) && Value(Encode(cs[i].0, f.osize)) == cs[i].0
  {
    ChildHeld(f, at, level, left, right, key, cs, i);
    var p := at + 8 + 2 * f.osize + f.lsize + Skipped(f.lsize + f.osize, i);
    HasRead(f, p, Encode(cs[i].0, f.osize));
    ChildPlace(f, at, i);
    ValueEncode(cs[i].0, f.osize);
  }

  lemma {:induction false} LowRead(f: File, at: nat, heap: nat, h: Heap, g: Group, depth: nat, i: nat)
    requires f.Valid() && HeapAt(f, heap, h) && g.Low? && GroupAt(f, at, h, g) && depth <= MAX_DEPTH && i <= |g.nodes|
    ensures ListingFrom(f, at, heap, depth, 0, |g.nodes|, i) == LowEntries(g.nodes[i..])
    decreases |g.nodes| - i
  {
    if i < |g.nodes| {
      var b := g.nodes[i];
      assert SymbolsAt(f, b.at, h, b.version, b.symbols);
      ChildRead(f, at, 0, g.left, g.right, g.key, LowChildren(g.nodes), i);
      SymbolsRead(f, b.at, heap, h, b.version, b.symbols);
      LowRead(f, at, heap, h, g, depth, i + 1);
      assert g.nodes[i..][1..] == g.nodes[i + 1..];
    }
  }

  lemma {:induction false} HighRead(f: File, at: nat, heap: nat, h: Heap, g: Group, depth: nat, i: nat)
    requires f.Valid() && HeapAt(f, heap, h) && g.High? && GroupAt(f, at, h, g) && Shallow(g, depth) && i <= |g.subs|
    ensures ListingFrom(f, at, heap, depth, g.level, |g.subs|, i) == HighEntries(g, g.subs, i)
    decreases g, 0, |g.subs| - i
  {
    if i < |g.subs| {
      var b := g.subs[i];
      assert GroupAt(f, b.at, h, b.node) && Shallow(b.node, depth + 1);
      ChildRead(f, at, g.level, g.left, g.right, g.key, HighChildren(g.subs), i);
      GroupRead(f, b.at, heap, h, b.node, depth + 1);
      HighRead(f, at, heap, h, g, depth, i + 1);
    }
  }

  /** Whatever group a file holds, the reader lists its entries: all of them, in order. */
  lemma {:induction false} GroupRead(f: File, at: nat, heap: nat, h: Heap, g: Group, depth: nat)
    requires f.Valid() && HeapAt(f, heap, h) && GroupAt(f, at, h, g) && Shallow(g, depth)
    ensures Listing(f, at, heap, depth) == ListOf(g)
    decreases g, 1, 0
  {
    AddressDefined(f, at);
    match g {
      case Low(left, right, key, ns) =>
        TreeHeadRead(f, at, 0, left, right, key, LowChildren(ns));
        LowRead(f, at, heap, h, g, depth, 0);
        assert ns[0..] == ns;
      case High(level, left, right, key, ns) =>
        TreeHeadRead(f, at, level, left, right, key, HighChildren(ns));
        HighRead(f, at, heap, h, g, depth, 0);
    }
  }
}

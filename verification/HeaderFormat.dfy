/**
 * Version 1 object headers as their writer lays them out: a prefix, messages, and blocks of messages that
 * continue them elsewhere. If a file holds such a header, the reader takes from it what the messages say.
 */
module HeaderFormat {
  import opened Words
  import opened LittleEndian
  import opened H5File
  import opened H5Bytes
  import OH = ObjectHeaders

  // ------------------------------------------------------------------------------ messages

  /** How raw data is laid out: in the header itself, in one piece, as chunks, or in a way unknown to the reader. */
  datatype Placement =
    | InHeader(data: seq<byte>)
    | OnePiece(addr: nat, size: nat)
    | InChunks(cdims: seq<nat>, esize: nat, btree: nat)
    | Unknown(code: byte, body: seq<byte>)

  datatype Note =
    | Space(version: byte, rest: seq<byte>, dims: seq<nat>)
    | Dtype(version: byte, class_: nat, bits: nat, size: nat)
    | Laid(version: byte, place: Placement)
    | Table(btree: nat, heap: nat)
    | External(body: seq<byte>)
    | Filters(body: seq<byte>)
    | Other(kind: nat, body: seq<byte>)

  function Kind(n: Note): nat {
    match n
    case Space(_, _, _) => 0x01
    case Dtype(_, _, _, _) => 0x03
    case Laid(_, _) => 0x08
    case Table(_, _) => 0x11
    case External(_) => 0x07
    case Filters(_) => 0x0B
    case Other(kind, _) => kind
  }

  function PlaceBody(p: Placement, lsize: nat, osize: nat): seq<byte> {
    match p
    case InHeader(data) => [0] + Encode(|data|, 2) + data
    case OnePiece(addr, size) => [1] + (Encode(addr, osize) + Encode(size, lsize))
    case InChunks(cdims, esize, btree) =>
      [2] + [(|cdims| + 1) % 256] + Encode(btree, osize) + Numbers(cdims + [esize], 4)
    case Unknown(code, body) => [code] + body
  }

  /** The bytes of a message behind its header. */
  function Body(n: Note, lsize: nat, osize: nat): seq<byte> {
    match n
    case Space(version, rest, dims) => [version, |dims| % 256] + rest + Numbers(dims, lsize)
    case Dtype(version, class_, bits, size) => [(version * 16 + class_) % 256] + Encode(bits, 3) + Encode(size, 4)
    case Laid(version, place) => [version] + PlaceBody(place, lsize, osize)
    case Table(btree, heap) => Encode(btree, osize) + Encode(heap, osize)
    case External(body) => body
    case Filters(body) => body
    case Other(_, body) => body
  }

  /** The fields of a message fit their widths. */
  ghost predicate NoteOk(f: File, n: Note) {
    match n
    case Space(_, rest, dims) =>
      |rest| == 6 && |dims| <= 32 && AllBelow(dims, Pow256(f.lsize))
    case Dtype(version, class_, bits, size) => version < 16 && class_ < 16 && bits < Pow256(3) && size < U32
    case Laid(version, place) => PlaceOk(f, version, place)
    case Table(btree, heap) => btree < Pow256(f.osize) && heap < Pow256(f.osize)
    case Other(kind, _) => kind < 0x1_0000 && kind !in {0x01, 0x03, 0x07, 0x08, 0x0B, 0x10, 0x11}
    case _ => true
  }

  ghost predicate PlaceOk(f: File, version: byte, p: Placement) {
    match p
    case InHeader(data) => version in {3, 4} && |data| < 0x1_0000
    case OnePiece(addr, size) => version in {3, 4} && addr < Pow256(f.osize) && size < Pow256(f.lsize)
    case InChunks(cdims, esize, btree) =>
      && version in {3, 4} && |cdims| < 32 && esize < U32 && btree < Pow256(f.osize)
      && AllBelow(cdims, U32)
    case Unknown(code, _) => version in {3, 4} && code > 2
  }

  function Placed(p: Placement, at: nat): OH.DataLayout {
    match p
    case InHeader(data) => OH.Compact(at + 4, |data|)
    case OnePiece(addr, size) => OH.Contiguous(addr, size)
    case InChunks(cdims, esize, btree) => OH.Chunked(cdims, esize, btree)
    case Unknown(code, _) => OH.OtherClass(code)
  }

  /** What a message at `at` says, added to what was known. */
  function Noted(h: OH.Info, n: Note, at: nat): OH.Info {
    match n
    case Space(_, _, dims) => h.(space := Some(dims))
    case Dtype(_, class_, bits, size) => h.(dtype := Some((class_, size, bits)))
    case Laid(_, place) => h.(layout := Some(Placed(place, at)))
    case Table(btree, heap) => h.(stab := Some((btree, heap)))
    case External(_) => h.(external := true)
    case Filters(_) => h.(filters := true)
    case Other(_, _) => h
  }

  lemma {:induction false} ValuesStep(f: File, at: nat, n: nat, width: nat, b: seq<byte>, rest: seq<nat>)
    requires n > 0 && f.Read(at % U64, width) == Some(b) && OH.ReadValues(f, at + width, n - 1, width) == Some(rest)
    ensures OH.ReadValues(f, at, n, width) == Some([Value(b)] + rest)
  {
  }

  lemma {:induction false} FirstNumber(f: File, at: nat, vs: seq<nat>, width: nat)
    requires f.Valid() && vs != [] && vs[0] < Pow256(width) && HasBytes(f, at, Numbers(vs, width))
    ensures HasBytes(f, at + width, Numbers(vs[1..], width))
    ensures f.Read(at % U64, width) == Some(Encode(vs[0], width)) && Value(Encode(vs[0], width)) == vs[0]
  {
    HasSplit(f, at, Encode(vs[0], width), Numbers(vs[1..], width));
    NumberRead(f, at, vs[0], width);
  }

  ghost predicate AllBelow(vs: seq<nat>, bound: nat) { forall i :: 0 <= i < |vs| ==> vs[i] < bound }

  /** Reading number by number finds `vs`. */
  ghost predicate ReadsOff(f: File, at: nat, vs: seq<nat>, width: nat)
    decreases |vs|
  {
    vs == [] || (f.Read(at % U64, width) == Some(Encode(vs[0], width)) && Value(Encode(vs[0], width)) == vs[0]
                 && ReadsOff(f, at + width, vs[1..], width))
  }

  lemma {:induction false} NumbersReadOff(f: File, at: nat, vs: seq<nat>, width: nat)
    requires f.Valid() && HasBytes(f, at, Numbers(vs, width)) && AllBelow(vs, Pow256(width))
    ensures ReadsOff(f, at, vs, width)
    decreases |vs|
  {
    if vs != [] {
      TailBelow(vs, Pow256(width));
      FirstNumber(f, at, vs, width);
      NumbersReadOff(f, at + width, vs[1..], width);
    }
  }

  lemma {:induction false} ReadOffValues(f: File, at: nat, vs: seq<nat>, width: nat)
    requires ReadsOff(f, at, vs, width)
    ensures OH.ReadValues(f, at, |vs|, width) == Some(vs)
    decreases |vs|
  {
    if vs != [] {
      ReadOffValues(f, at + width, vs[1..], width);
      ValuesStep(f, at, |vs|, width, Encode(vs[0], width), vs[1..]);
      assert [vs[0]] + vs[1..] == vs;
    }
  }

  lemma {:induction false} ValuesRead(f: File, at: nat, vs: seq<nat>, width: nat)
    requires f.Valid() && HasBytes(f, at, Numbers(vs, width)) && AllBelow(vs, Pow256(width))
    ensures OH.ReadValues(f, at, |vs|, width) == Some(vs)
  {
    NumbersReadOff(f, at, vs, width);
    ReadOffValues(f, at, vs, width);
  }

  lemma {:induction false} TailBelow(vs: seq<nat>, bound: nat)
    requires vs != [] && AllBelow(vs, bound)
    ensures AllBelow(vs[1..], bound) && vs[0] < bound && [vs[0]] + vs[1..] == vs
  {
  }

  lemma {:induction false} SpaceRead(f: File, h: OH.Info, at: nat, n: Note)
    requires f.Valid() && n.Space? && NoteOk(f, n) && HasBytes(f, at, Body(n, f.lsize, f.osize))
    ensures OH.ApplySpace(f, h, at) == Some(Noted(h, n, at))
  {
    var head: seq<byte> := [n.version, |n.dims|] + n.rest;
    HasSplit(f, at, head, Numbers(n.dims, f.lsize));
    HasRead(f, at, head);
    ValuesRead(f, at + 8, n.dims, f.lsize);
  }

  lemma {:induction false} DtypeRead(f: File, h: OH.Info, at: nat, n: Note)
    requires f.Valid() && n.Dtype? && NoteOk(f, n) && HasBytes(f, at, Body(n, f.lsize, f.osize))
    ensures OH.ApplyDtype(f, h, at) == Some(Noted(h, n, at))
  {
    var b := Body(n, f.lsize, f.osize);
    HasRead(f, at, b);
    assert b[0] % 16 == n.class_;
    assert b[1..4] == Encode(n.bits, 3) && b[4..8] == Encode(n.size, 4);
    ValueEncode(n.bits, 3);
    SmallEncode(n.size, 4);
  }

  lemma {:induction false} TableRead(f: File, h: OH.Info, at: nat, n: Note)
    requires f.Valid() && n.Table? && NoteOk(f, n) && HasBytes(f, at, Body(n, f.lsize, f.osize))
    ensures OH.ApplyStab(f, h, at) == Some(Noted(h, n, at))
  {
    var b := Body(n, f.lsize, f.osize);
    HasRead(f, at, b);
    assert b[..f.osize] == Encode(n.btree, f.osize) && b[f.osize..] == Encode(n.heap, f.osize);
    ValueEncode(n.btree, f.osize);
    ValueEncode(n.heap, f.osize);
  }

  lemma {:induction false} OnePieceLayout(f: File, at: nat, b: seq<byte>)
    requires |b| == f.osize + f.lsize && f.Read((at + 2) % U64, f.osize + f.lsize) == Some(b)
    ensures OH.ReadLayout(f, at, 1) == Some(OH.Contiguous(Value(b[..f.osize]), Value(b[f.osize..])))
  {
  }

  lemma {:induction false} TwoNumbers(a: nat, m: nat, b: nat, n: nat)
    requires a < Pow256(m) && b < Pow256(n)
    ensures
      var p := Encode(a, m) + Encode(b, n);
      Value(p[..m]) == a && Value(p[m..]) == b
  {
    var p := Encode(a, m) + Encode(b, n);
    assert p[..m] == Encode(a, m) && p[m..] == Encode(b, n);
    ValueEncode(a, m);
    ValueEncode(b, n);
  }

  lemma {:induction false} OnePieceRead(f: File, at: nat, p: Placement)
    requires f.Valid() && p.OnePiece? && PlaceOk(f, 3, p) && HasBytes(f, at + 2, Encode(p.addr, f.osize) + Encode(p.size, f.lsize))
    ensures OH.ReadLayout(f, at, 1) == Some(Placed(p, at))
  {
    var b := Encode(p.addr, f.osize) + Encode(p.size, f.lsize);
    HasReadWrapped(f, at + 2, b);
    TwoNumbers(p.addr, f.osize, p.size, f.lsize);
    OnePieceLayout(f, at, b);
  }

  lemma {:induction false} InHeaderLayout(f: File, at: nat, b: seq<byte>)
    requires |b| == 2 && f.Read((at + 2) % U64, 2) == Some(b)
    ensures OH.ReadLayout(f, at, 0) == Some(OH.Compact((at + 4) % U64, Value(b)))
  {
  }

  lemma {:induction false} InHeaderRead(f: File, at: nat, p: Placement)
    requires f.Valid() && p.InHeader? && PlaceOk(f, 3, p) && HasBytes(f, at + 2, Encode(|p.data|, 2) + p.data)
    ensures OH.ReadLayout(f, at, 0) == Some(Placed(p, at))
  {
    HasSplit(f, at + 2, Encode(|p.data|, 2), p.data);
    HasReadWrapped(f, at + 2, Encode(|p.data|, 2));
    SmallEncode(|p.data|, 2);
    InHeaderLayout(f, at, Encode(|p.data|, 2));
    assert (at + 4) % U64 == at + 4;
  }

  lemma {:induction false} ChunkedLayout(f: File, at: nat, stored: byte, a: seq<byte>, v: seq<nat>)
    requires f.Read((at + 2) % U64, 1) == Some([stored]) && 0 < stored <= OH.MAX_DIMS
    requires f.Read((at + 3) % U64, f.osize) == Some(a)
    requires OH.ReadValues(f, at + 3 + f.osize, stored, 4) == Some(v) && |v| == stored
    ensures OH.ReadLayout(f, at, 2) == Some(OH.Chunked(v[..|v| - 1], v[|v| - 1], Value(a)))
  {
  }

  /** The number of stored dims, the address of the index, the dims with the element size behind them. */
  lemma {:induction false} ChunkedFields(f: File, at: nat, stored: byte, a: nat, vs: seq<nat>)
    requires f.Valid() && HasBytes(f, at + 2, [stored] + Encode(a, f.osize) + Numbers(vs, 4))
    ensures HasBytes(f, at + 2, [stored]) && HasBytes(f, at + 3, Encode(a, f.osize))
    ensures HasBytes(f, at + 3 + f.osize, Numbers(vs, 4))
  {
    HasSplit(f, at + 2, [stored] + Encode(a, f.osize), Numbers(vs, 4));
    HasSplit(f, at + 2, [stored], Encode(a, f.osize));
  }

  lemma {:induction false} ChunkedCount(f: File, at: nat, stored: byte)
    requires f.Valid() && HasBytes(f, at + 2, [stored])
    ensures f.Read((at + 2) % U64, 1) == Some([stored])
  {
    HasReadWrapped(f, at + 2, [stored]);
  }

  lemma {:induction false} ChunkedFirst(f: File, at: nat, stored: byte, a: nat, vs: seq<nat>)
    requires f.Valid() && HasBytes(f, at + 2, [stored] + Encode(a, f.osize) + Numbers(vs, 4))
    ensures f.Read((at + 2) % U64, 1) == Some([stored])
  {
    ChunkedFields(f, at, stored, a, vs);
    ChunkedCount(f, at, stored);
  }

  lemma {:induction false} IndexHeld(f: File, at: nat, stored: byte, a: nat, vs: seq<nat>)
    requires f.Valid() && HasBytes(f, at + 2, [stored] + Encode(a, f.osize) + Numbers(vs, 4))
    ensures HasBytes(f, at + 3, Encode(a, f.osize))
  {
    ChunkedFields(f, at, stored, a, vs);
  }

  lemma {:induction false} ChunkedSecond(f: File, at: nat, stored: byte, a: nat, vs: seq<nat>)
    requires f.Valid() && HasBytes(f, at + 2, [stored] + Encode(a, f.osize) + Numbers(vs, 4)) && a < Pow256(f.osize)
    ensures f.Read((at + 3) % U64, f.osize) == Some(Encode(a, f.osize)) && Value(Encode(a, f.osize)) == a
  {
    IndexHeld(f, at, stored, a, vs);
    NumberRead(f, at + 3, a, f.osize);
  }

  lemma {:induction false} DimsHeld(f: File, at: nat, stored: byte, a: nat, vs: seq<nat>)
    requires f.Valid() && HasBytes(f, at + 2, [stored] + Encode(a, f.osize) + Numbers(vs, 4))
    ensures HasBytes(f, at + 3 + f.osize, Numbers(vs, 4))
  {
    HasSplit(f, at + 2, [stored] + Encode(a, f.osize), Numbers(vs, 4));
  }

  lemma {:induction false} ChunkedThird(f: File, at: nat, stored: byte, a: nat, vs: seq<nat>)
    requires f.Valid() && HasBytes(f, at + 2, [stored] + Encode(a, f.osize) + Numbers(vs, 4)) && AllBelow(vs, U32)
    ensures OH.ReadValues(f, at + 3 + f.osize, |vs|, 4) == Some(vs)
  {
    DimsHeld(f, at, stored, a, vs);
    ChunkDims(f, at + 3 + f.osize, vs);
  }

  lemma {:induction false} ChunkedRead(f: File, at: nat, stored: byte, a: nat, vs: seq<nat>)
    requires f.Valid() && HasBytes(f, at + 2, [stored] + Encode(a, f.osize) + Numbers(vs, 4)) && a < Pow256(f.osize)
    requires stored == |vs| && 0 < stored <= OH.MAX_DIMS && AllBelow(vs, U32)
    ensures OH.ReadLayout(f, at, 2) == Some(OH.Chunked(vs[..|vs| - 1], vs[|vs| - 1], a))
  {
    ChunkedFirst(f, at, stored, a, vs);
    ChunkedSecond(f, at, stored, a, vs);
    ChunkedThird(f, at, stored, a, vs);
    ChunkedLayout(f, at, stored, Encode(a, f.osize), vs);
  }

  lemma {:induction false} SnocParts(cdims: seq<nat>, esize: nat)
    requires AllBelow(cdims, U32) && esize < U32
    ensures
      var vs := cdims + [esize];
      vs[..|vs| - 1] == cdims && vs[|vs| - 1] == esize && |vs| == |cdims| + 1 && AllBelow(vs, U32)
  {
  }

  lemma {:induction false} InChunksRead(f: File, at: nat, p: Placement)
    requires f.Valid() && p.InChunks? && PlaceOk(f, 3, p)
    requires HasBytes(f, at + 2, [(|p.cdims| + 1) % 256] + Encode(p.btree, f.osize) + Numbers(p.cdims + [p.esize], 4))
    ensures OH.ReadLayout(f, at, 2) == Some(Placed(p, at))
  {
    SnocParts(p.cdims, p.esize);
    ChunkedRead(f, at, (|p.cdims| + 1) % 256, p.btree, p.cdims + [p.esize]);
  }

  lemma {:induction false} ChunkDims(f: File, at: nat, vs: seq<nat>)
    requires f.Valid() && HasBytes(f, at, Numbers(vs, 4)) && AllBelow(vs, U32)
    ensures OH.ReadValues(f, at, |vs|, 4) == Some(vs)
  {
    Widths();
    ValuesRead(f, at, vs, 4);
  }

  function Code(p: Placement): byte {
    match p case InHeader(_) => 0 case OnePiece(_, _) => 1 case InChunks(_, _, _) => 2 case Unknown(code, _) => code
  }

  /** The bytes behind version and class. */
  function PlaceRest(p: Placement, lsize: nat, osize: nat): seq<byte> {
    match p
    case InHeader(data) => Encode(|data|, 2) + data
    case OnePiece(addr, size) => Encode(addr, osize) + Encode(size, lsize)
    case InChunks(cdims, esize, btree) => [(|cdims| + 1) % 256] + Encode(btree, osize) + Numbers(cdims + [esize], 4)
    case Unknown(_, body) => body
  }

  lemma {:induction false} PlaceParts(version: byte, p: Placement, lsize: nat, osize: nat)
    ensures [version] + PlaceBody(p, lsize, osize) == [version, Code(p)] + PlaceRest(p, lsize, osize)
  {
  }

  lemma {:induction false} PlaceRead(f: File, at: nat, version: byte, p: Placement)
    requires f.Valid() && PlaceOk(f, version, p) && HasBytes(f, at, [version] + PlaceBody(p, f.lsize, f.osize))
    ensures HasBytes(f, at, [version, Code(p)]) && OH.ReadLayout(f, at, Code(p)) == Some(Placed(p, at))
  {
    PlaceParts(version, p, f.lsize, f.osize);
    HasSplit(f, at, [version, Code(p)], PlaceRest(p, f.lsize, f.osize));
    match p
    case InHeader(_) => InHeaderRead(f, at, p);
    case OnePiece(_, _) => OnePieceRead(f, at, p);
    case InChunks(_, _, _) => InChunksRead(f, at, p);
    case Unknown(_, _) =>
  }

  lemma {:induction false} LaidRead(f: File, h: OH.Info, at: nat, n: Note)
    requires f.Valid() && n.Laid? && NoteOk(f, n) && HasBytes(f, at, Body(n, f.lsize, f.osize))
    ensures OH.ApplyLayout(f, h, at) == Some(Noted(h, n, at))
  {
    PlaceRead(f, at, n.version, n.place);
    HasRead(f, at, [n.version, Code(n.place)]);
  }

  /** The reader takes from each message what its writer put there. */
  lemma {:induction false} NoteRead(f: File, h: OH.Info, at: nat, n: Note)
    requires f.Valid() && NoteOk(f, n) && HasBytes(f, at, Body(n, f.lsize, f.osize))
    ensures OH.Apply(f, h, OH.Msg(Kind(n), at)) == Some(Noted(h, n, at))
  {
    match n
    case Space(_, _, _) => SpaceRead(f, h, at, n);
    case Dtype(_, _, _, _) => DtypeRead(f, h, at, n);
    case Laid(_, _) => LaidRead(f, h, at, n);
    case Table(_, _) => TableRead(f, h, at, n);
    case _ =>
  }

  // -------------------------------------------------------------------------------- blocks

  /** A message, or a continuation: `len` bytes of messages at `at`; with the kind and size in its head. */
  datatype Piece =
    | Plain(kind: nat, size: nat, flags: seq<byte>, note: Note)
    | More(kind: nat, size: nat, flags: seq<byte>, at: nat, len: nat, block: Block)
  datatype Block = Block(pieces: seq<Piece>)

  function PieceBody(p: Piece, lsize: nat, osize: nat): seq<byte> {
    if p.Plain? then Body(p.note, lsize, osize) else Encode(p.at, osize) + Encode(p.len, lsize)
  }

  /** Kind, size of the body, four bytes of flags. */
  function PieceHead(p: Piece): seq<byte> { Encode(p.kind, 2) + Encode(p.size, 2) + p.flags }

  /** Size of a piece with its head. */
  function Room(p: Piece): nat { 8 + p.size }

  /**
   * File `f` holds the piece at `pos`: its head, behind it its body, and if it is a continuation the block it
   * refers to; continuations nest no deeper than the reader goes.
   */
  ghost predicate PieceAt(f: File, p: Piece, pos: nat, depth: nat)
    decreases p, 0
  {
    && |p.flags| == 4 && p.size == |PieceBody(p, f.lsize, f.osize)| < 0x1_0000
    && HasBytes(f, pos, PieceHead(p)) && HasBytes(f, pos + 8, PieceBody(p, f.lsize, f.osize))
    && match p
       case Plain(kind, _, _, note) => kind == Kind(note) && NoteOk(f, note)
       case More(kind, _, _, at, len, block) =>
         && kind == 0x10 && Address(f, at) && len < Pow256(f.lsize)
         && depth < 8 && BlockAt(f, block, 0, at, at + len, depth + 1)
  }

  /** File `f` holds the pieces of the block, from the `i`-th on, one after the other between `pos` and `end`. */
  ghost predicate BlockAt(f: File, b: Block, i: nat, pos: nat, end: nat, depth: nat)
    requires i <= |b.pieces|
    decreases b, |b.pieces| - i
  {
    if i == |b.pieces| then pos == end && end <= |f.bytes|
    else PieceAt(f, b.pieces[i], pos, depth) && BlockAt(f, b, i + 1, pos + Room(b.pieces[i]), end, depth)
  }

  /** The messages of a block from the `i`-th piece on, which is at `pos`, with the places of their bodies. */
  ghost function PlainsFrom(f: File, b: Block, i: nat, pos: nat): seq<(Piece, nat)>
    requires i <= |b.pieces|
    decreases b, |b.pieces| - i
  {
    if i == |b.pieces| then []
    else
      var p := b.pieces[i];
      (if p.Plain? then [(p, pos + 8)] else PlainsFrom(f, p.block, 0, p.at)) + PlainsFrom(f, b, i + 1, pos + Room(p))
  }

  function MsgsOf(ps: seq<(Piece, nat)>): seq<OH.Msg> {
    if ps == [] then [] else [OH.Msg(ps[0].0.kind, ps[0].1)] + MsgsOf(ps[1..])
  }

  lemma {:induction false} MsgsJoin(a: seq<(Piece, nat)>, b: seq<(Piece, nat)>)
    ensures MsgsOf(a + b) == MsgsOf(a) + MsgsOf(b)
    decreases |a|
  {
    if a == [] {
      assert a + b == b;
    } else {
      assert (a + b)[1..] == a[1..] + b;
      MsgsJoin(a[1..], b);
    }
  }

  // -------------------------------------------------- what the reader's reads find in a block

  ghost predicate HeadAt(f: File, pos: nat, kind: nat, size: nat) {
    var r := f.Read(pos, 8);
    r.Some? && Value(r.value[..2]) == kind && Value(r.value[2..4]) == size
  }

  ghost predicate MoreAt(f: File, at: nat, caddr: nat, clen: nat) {
    var r := f.Read(at, f.osize + f.lsize);
    r.Some? && Value(r.value[..f.osize]) == caddr && Value(r.value[f.osize..]) == clen && !f.Undefined(caddr)
  }

  /** The reads of the walk find the pieces of the block, from the `i`-th on, between `pos` and `end`. */
  ghost predicate Parses(f: File, b: Block, i: nat, pos: nat, end: nat, depth: nat)
    requires i <= |b.pieces|
    decreases b, |b.pieces| - i
  {
    if i == |b.pieces| then pos == end && end + 8 < U64
    else
      var p := b.pieces[i];
      && HeadAt(f, pos, p.kind, p.size) && pos + Room(p) <= end < U64
      && (p.Plain? ==> p.kind != 0x10)
      && (p.More? ==> p.kind == 0x10 && depth < OH.MAX_NEST && MoreAt(f, pos + 8, p.at, p.len) && Parses(f, p.block, 0, p.at, p.at + p.len, depth + 1))
      && Parses(f, b, i + 1, pos + Room(p), end, depth)
  }

  lemma {:induction false} OneMessage(f: File, pos: nat, end: nat, depth: nat, kind: nat, size: nat,
                                      here: seq<OH.Msg>, rest: seq<OH.Msg>)
    requires f.Valid() && depth <= OH.MAX_NEST && HeadAt(f, pos, kind, size) && pos + 8 + size <= end < U64
    requires OH.Expand(f, kind, (pos + 8) % U64, depth) == Some(here)
    requires OH.Messages(f, pos + 8 + size, end, depth) == Some(rest)
    ensures OH.Messages(f, pos, end, depth) == Some(here + rest)
  {
    assert (pos + 8) % U64 == pos + 8 && (pos + 8 + size) % U64 == pos + 8 + size;
    OH.MessagesStep(f, pos, end, depth);
  }

  lemma {:induction false} ExpandPlain(f: File, p: Piece, pos: nat, depth: nat)
    requires f.Valid() && p.Plain? && p.kind != 0x10 && depth <= OH.MAX_NEST && pos + 8 < U64
    ensures OH.Expand(f, p.kind, (pos + 8) % U64, depth) == Some(MsgsOf([(p, pos + 8)]))
  {
    var one := [(p, pos + 8)];
    assert one[1..] == [] && MsgsOf(one) == [OH.Msg(p.kind, pos + 8)];
  }

  lemma {:induction false} ExpandMore(f: File, pos: nat, caddr: nat, clen: nat, depth: nat, ms: seq<OH.Msg>)
    requires f.Valid() && depth < OH.MAX_NEST && MoreAt(f, pos + 8, caddr, clen) && pos + 8 < U64 && caddr + clen < U64
    requires OH.Messages(f, caddr, caddr + clen, depth + 1) == Some(ms)
    ensures OH.Expand(f, 0x10, (pos + 8) % U64, depth) == Some(ms)
  {
    assert (pos + 8) % U64 == pos + 8 && (caddr + clen) % U64 == caddr + clen;
    assert OH.Expand(f, 0x10, pos + 8, depth) == OH.Continued(f, caddr, clen, depth);
  }

  lemma {:induction false} ParsesEnd(f: File, b: Block, i: nat, pos: nat, end: nat, depth: nat)
    requires i <= |b.pieces| && Parses(f, b, i, pos, end, depth)
    ensures end < U64
  {
  }

  lemma {:induction false} MoreParsed(f: File, b: Block, i: nat, pos: nat, end: nat, depth: nat)
    requires i < |b.pieces| && b.pieces[i].More? && Parses(f, b, i, pos, end, depth)
    ensures
      var p := b.pieces[i];
      && depth < OH.MAX_NEST && MoreAt(f, pos + 8, p.at, p.len) && pos + 8 < U64 && p.at + p.len < U64
      && Parses(f, p.block, 0, p.at, p.at + p.len, depth + 1)
  {
    var p := b.pieces[i];
    ParsesEnd(f, p.block, 0, p.at, p.at + p.len, depth + 1);
  }

  lemma {:induction false} PlainParsed(f: File, b: Block, i: nat, pos: nat, end: nat, depth: nat)
    requires i < |b.pieces| && Parses(f, b, i, pos, end, depth)
    ensures
      var p := b.pieces[i];
      && HeadAt(f, pos, p.kind, p.size) && (p.Plain? ==> p.kind != 0x10)
      && pos + Room(p) <= end < U64 && Parses(f, b, i + 1, pos + Room(p), end, depth)
  {
  }

  lemma {:induction false} MoreSaid(f: File, b: Block, i: nat, pos: nat, end: nat, depth: nat)
    requires f.Valid() && depth <= OH.MAX_NEST && i < |b.pieces| && b.pieces[i].More? && Parses(f, b, i, pos, end, depth)
    requires
      var p := b.pieces[i];
      depth < OH.MAX_NEST && OH.Messages(f, p.at, p.at + p.len, depth + 1) == Some(MsgsOf(PlainsFrom(f, p.block, 0, p.at)))
    ensures OH.Expand(f, 0x10, (pos + 8) % U64, depth) == Some(MsgsOf(PlainsOf(f, b.pieces[i], pos)))
  {
    var p := b.pieces[i];
    MoreParsed(f, b, i, pos, end, depth);
    ExpandMore(f, pos, p.at, p.len, depth, MsgsOf(PlainsFrom(f, p.block, 0, p.at)));
  }

  lemma {:induction false} PlainSaid(f: File, b: Block, i: nat, pos: nat, end: nat, depth: nat)
    requires f.Valid() && depth <= OH.MAX_NEST && i < |b.pieces| && b.pieces[i].Plain? && Parses(f, b, i, pos, end, depth)
    ensures OH.Expand(f, b.pieces[i].kind, (pos + 8) % U64, depth) == Some(MsgsOf(PlainsOf(f, b.pieces[i], pos)))
  {
    PlainParsed(f, b, i, pos, end, depth);
    ExpandPlain(f, b.pieces[i], pos, depth);
  }

  /** The messages of one piece. */
  lemma {:induction false} ParsedPiece(f: File, b: Block, i: nat, pos: nat, end: nat, depth: nat)
    requires f.Valid() && depth <= OH.MAX_NEST && i < |b.pieces| && Parses(f, b, i, pos, end, depth)
    ensures OH.Expand(f, b.pieces[i].kind, (pos + 8) % U64, depth) == Some(MsgsOf(PlainsOf(f, b.pieces[i], pos)))
    decreases b, |b.pieces| - i, 0
  {
    var p := b.pieces[i];
    if p.Plain? {
      PlainSaid(f, b, i, pos, end, depth);
    } else {
      MoreParsed(f, b, i, pos, end, depth);
      ParsedRead(f, p.block, 0, p.at, p.at + p.len, depth + 1);
      MoreSaid(f, b, i, pos, end, depth);
    }
  }

  ghost function PlainsOf(f: File, p: Piece, pos: nat): seq<(Piece, nat)> {
    if p.Plain? then [(p, pos + 8)] else PlainsFrom(f, p.block, 0, p.at)
  }

  lemma {:induction false} PlainsStep(f: File, b: Block, i: nat, pos: nat)
    requires i < |b.pieces|
    ensures
      var p := b.pieces[i];
      var rest := PlainsFrom(f, b, i + 1, pos + Room(p));
      && PlainsFrom(f, b, i, pos) == PlainsOf(f, p, pos) + rest
      && MsgsOf(PlainsFrom(f, b, i, pos)) == MsgsOf(PlainsOf(f, p, pos)) + MsgsOf(rest)
  {
    MsgsJoin(PlainsOf(f, b.pieces[i], pos), PlainsFrom(f, b, i + 1, pos + Room(b.pieces[i])));
  }

  lemma {:induction false} NoMessages(f: File, pos: nat, depth: nat)
    requires f.Valid() && depth <= OH.MAX_NEST && pos + 8 < U64
    ensures OH.Messages(f, pos, pos, depth) == Some([])
  {
    assert (pos + 8) % U64 == pos + 8;
  }

  lemma {:induction false} ParsedRead(f: File, b: Block, i: nat, pos: nat, end: nat, depth: nat)
    requires f.Valid() && depth <= OH.MAX_NEST && i <= |b.pieces| && Parses(f, b, i, pos, end, depth)
    ensures OH.Messages(f, pos, end, depth) == Some(MsgsOf(PlainsFrom(f, b, i, pos)))
    decreases b, |b.pieces| - i, 1
  {
    if i == |b.pieces| {
      NoMessages(f, pos, depth);
    } else {
      var p := b.pieces[i];
      PlainParsed(f, b, i, pos, end, depth);
      ParsedPiece(f, b, i, pos, end, depth);
      ParsedRead(f, b, i + 1, pos + Room(p), end, depth);
      ReadStep(f, b, i, pos, end, depth);
    }
  }

  lemma {:induction false} ReadStep(f: File, b: Block, i: nat, pos: nat, end: nat, depth: nat)
    requires f.Valid() && depth <= OH.MAX_NEST && i < |b.pieces|
    requires
      var p := b.pieces[i];
      && HeadAt(f, pos, p.kind, p.size) && pos + Room(p) <= end < U64
      && OH.Expand(f, p.kind, (pos + 8) % U64, depth) == Some(MsgsOf(PlainsOf(f, p, pos)))
      && OH.Messages(f, pos + Room(p), end, depth) == Some(MsgsOf(PlainsFrom(f, b, i + 1, pos + Room(p))))
    ensures OH.Messages(f, pos, end, depth) == Some(MsgsOf(PlainsFrom(f, b, i, pos)))
  {
    var p := b.pieces[i];
    var here, rest := MsgsOf(PlainsOf(f, p, pos)), MsgsOf(PlainsFrom(f, b, i + 1, pos + Room(p)));
    NextMessage(f, pos, end, depth, p.kind, Room(p), here, rest);
    PlainsStep(f, b, i, pos);
  }

  lemma {:induction false} NextMessage(f: File, pos: nat, end: nat, depth: nat, kind: nat, room: nat,
                                       here: seq<OH.Msg>, rest: seq<OH.Msg>)
    requires f.Valid() && depth <= OH.MAX_NEST && room >= 8 && HeadAt(f, pos, kind, room - 8) && pos + room <= end < U64
    requires OH.Expand(f, kind, (pos + 8) % U64, depth) == Some(here) && OH.Messages(f, pos + room, end, depth) == Some(rest)
    ensures OH.Messages(f, pos, end, depth) == Some(here + rest)
  {
    OneMessage(f, pos, end, depth, kind, room - 8, here, rest);
  }

  // --------------------------------------------------------------- a written block parses

  lemma {:induction false} HeadRead(f: File, pos: nat, kind: nat, size: nat, flags: seq<byte>)
    requires kind < 0x1_0000 && size < 0x1_0000 && |flags| == 4 && HasBytes(f, pos, Encode(kind, 2) + Encode(size, 2) + flags)
    ensures HeadAt(f, pos, kind, size)
  {
    var head := Encode(kind, 2) + Encode(size, 2) + flags;
    HasRead(f, pos, head);
    assert head[..2] == Encode(kind, 2) && head[2..4] == Encode(size, 2);
    SmallEncode(kind, 2);
    SmallEncode(size, 2);
  }

  lemma {:induction false} MoreRead(f: File, at: nat, caddr: nat, clen: nat)
    requires f.Valid() && Address(f, caddr) && clen < Pow256(f.lsize)
    requires HasBytes(f, at, Encode(caddr, f.osize) + Encode(clen, f.lsize))
    ensures MoreAt(f, at, caddr, clen)
  {
    var b := Encode(caddr, f.osize) + Encode(clen, f.lsize);
    HasRead(f, at, b);
    assert b[..f.osize] == Encode(caddr, f.osize) && b[f.osize..] == Encode(clen, f.lsize);
    AddressDefined(f, caddr);
    ValueEncode(clen, f.lsize);
  }

  lemma {:induction false} KindSmall(f: File, n: Note)
    requires NoteOk(f, n)
    ensures Kind(n) < 0x1_0000 && Kind(n) != 0x10
  {
  }

  lemma {:induction false} PieceReads(f: File, p: Piece, pos: nat, depth: nat)
    requires f.Valid() && PieceAt(f, p, pos, depth)
    ensures HeadAt(f, pos, p.kind, p.size) && pos + Room(p) <= |f.bytes|
    ensures p.Plain? ==> p.kind != 0x10
    ensures p.More? ==> p.kind == 0x10 && MoreAt(f, pos + 8, p.at, p.len)
  {
    if p.Plain? { KindSmall(f, p.note); } else { MoreRead(f, pos + 8, p.at, p.len); }
    HeadRead(f, pos, p.kind, p.size, p.flags);
  }

  lemma {:induction false} PieceNests(f: File, p: Piece, pos: nat, depth: nat)
    requires p.More? && PieceAt(f, p, pos, depth)
    ensures depth < OH.MAX_NEST && BlockAt(f, p.block, 0, p.at, p.at + p.len, depth + 1)
  {
  }

  lemma {:induction false} BlockEnd(f: File, b: Block, i: nat, pos: nat, end: nat, depth: nat)
    requires i <= |b.pieces| && BlockAt(f, b, i, pos, end, depth)
    ensures pos <= end <= |f.bytes|
    decreases |b.pieces| - i
  {
    if i < |b.pieces| { BlockEnd(f, b, i + 1, pos + Room(b.pieces[i]), end, depth); }
  }

  lemma {:induction false} ParsesStep(f: File, b: Block, i: nat, pos: nat, end: nat, depth: nat)
    requires i < |b.pieces|
    requires
      var p := b.pieces[i];
      && HeadAt(f, pos, p.kind, p.size) && pos + Room(p) <= end < U64 && (p.Plain? ==> p.kind != 0x10)
      && (p.More? ==> p.kind == 0x10 && depth < OH.MAX_NEST && MoreAt(f, pos + 8, p.at, p.len) && Parses(f, p.block, 0, p.at, p.at + p.len, depth + 1))
      && Parses(f, b, i + 1, pos + Room(p), end, depth)
    ensures Parses(f, b, i, pos, end, depth)
  {
  }

  lemma {:induction false} BlockParses(f: File, b: Block, i: nat, pos: nat, end: nat, depth: nat)
    requires f.Valid() && i <= |b.pieces| && BlockAt(f, b, i, pos, end, depth)
    ensures Parses(f, b, i, pos, end, depth)
    decreases b, |b.pieces| - i
  {
    if i < |b.pieces| {
      var p := b.pieces[i];
      PieceReads(f, p, pos, depth);
      BlockEnd(f, b, i + 1, pos + Room(p), end, depth);
      BlockParses(f, b, i + 1, pos + Room(p), end, depth);
      if p.More? {
        PieceNests(f, p, pos, depth);
        BlockParses(f, p.block, 0, p.at, p.at + p.len, depth + 1);
      }
      ParsesStep(f, b, i, pos, end, depth);
    }
  }

  /** The reader's messages of a block are those written in it and in its continuations, in order. */
  lemma {:induction false} BlockRead(f: File, b: Block, pos: nat, end: nat, depth: nat)
    requires f.Valid() && depth <= OH.MAX_NEST && BlockAt(f, b, 0, pos, end, depth)
    ensures OH.Messages(f, pos, end, depth) == Some(MsgsOf(PlainsFrom(f, b, 0, pos)))
  {
    BlockParses(f, b, 0, pos, end, depth);
    ParsedRead(f, b, 0, pos, end, depth);
  }

  // -------------------------------------------------------------------------------- headers

  /** Everything said, in order. */
  function NotedAll(h: OH.Info, ps: seq<(Piece, nat)>): OH.Info
    decreases |ps|
  {
    if ps == [] then h
    else NotedAll(if ps[0].0.Plain? then Noted(h, ps[0].0.note, ps[0].1) else h, ps[1..])
  }

  /** A message whose body the file holds at its place. */
  ghost predicate Held(f: File, n: (Piece, nat)) {
    && n.0.Plain? && n.0.kind == Kind(n.0.note) && NoteOk(f, n.0.note)
    && HasBytes(f, n.1, Body(n.0.note, f.lsize, f.osize))
  }

  ghost predicate AllHeld(f: File, ps: seq<(Piece, nat)>) { forall i :: 0 <= i < |ps| ==> Held(f, ps[i]) }

  lemma {:induction false} AllHeldJoin(f: File, a: seq<(Piece, nat)>, b: seq<(Piece, nat)>)
    requires AllHeld(f, a) && AllHeld(f, b)
    ensures AllHeld(f, a + b)
  {
    forall i | 0 <= i < |a + b| ensures Held(f, (a + b)[i]) {
      if i < |a| { assert Held(f, a[i]); } else { assert Held(f, b[i - |a|]); }
    }
  }

  lemma {:induction false} PlainHeld(f: File, p: Piece, pos: nat, depth: nat)
    requires p.Plain? && PieceAt(f, p, pos, depth)
    ensures AllHeld(f, [(p, pos + 8)])
  {
  }

  lemma {:induction false} PlainsHeld(f: File, b: Block, i: nat, pos: nat, end: nat, depth: nat)
    requires i <= |b.pieces| && BlockAt(f, b, i, pos, end, depth)
    ensures AllHeld(f, PlainsFrom(f, b, i, pos))
    decreases b, |b.pieces| - i
  {
    if i < |b.pieces| {
      var p := b.pieces[i];
      if p.Plain? {
        PlainHeld(f, p, pos, depth);
      } else {
        PieceNests(f, p, pos, depth);
        PlainsHeld(f, p.block, 0, p.at, p.at + p.len, depth + 1);
      }
      PlainsHeld(f, b, i + 1, pos + Room(p), end, depth);
      AllHeldJoin(f, PlainsOf(f, p, pos), PlainsFrom(f, b, i + 1, pos + Room(p)));
    }
  }

  lemma {:induction false} PlainsRead(f: File, h: OH.Info, ps: seq<(Piece, nat)>)
    requires f.Valid() && AllHeld(f, ps)
    ensures OH.ApplyAll(f, h, MsgsOf(ps)) == Some(NotedAll(h, ps))
    decreases |ps|
  {
    if ps != [] {
      assert Held(f, ps[0]);
      NoteRead(f, h, ps[0].1, ps[0].0.note);
      var m := [OH.Msg(ps[0].0.kind, ps[0].1)];
      assert forall i :: 0 <= i < |ps[1..]| ==> ps[1..][i] == ps[i + 1];
      assert (m + MsgsOf(ps[1..]))[0] == m[0] && (m + MsgsOf(ps[1..]))[1..] == MsgsOf(ps[1..]);
      PlainsRead(f, Noted(h, ps[0].0.note, ps[0].1), ps[1..]);
    }
  }

  /** A header: version 1, seven bytes of counts, the size of its messages, four bytes of padding, the messages. */
  datatype Header = Header(counts: seq<byte>, size: nat, padding: seq<byte>, block: Block)

  function Prefix(hd: Header): seq<byte> { [1] + hd.counts + Encode(hd.size, 4) + hd.padding }

  ghost predicate HeaderAt(f: File, at: nat, hd: Header) {
    && |hd.counts| == 7 && |hd.padding| == 4 && hd.size < U32 && HasBytes(f, at, Prefix(hd))
    && BlockAt(f, hd.block, 0, at + 16, at + 16 + hd.size, 0)
  }

  /** The messages of a header at `at`, in order. */
  ghost function PlainsAt(f: File, at: nat, hd: Header): seq<(Piece, nat)> { PlainsFrom(f, hd.block, 0, at + 16) }

  lemma {:induction false} PrefixRead(f: File, at: nat, hd: Header)
    requires |hd.counts| == 7 && |hd.padding| == 4 && hd.size < U32 && HasBytes(f, at, Prefix(hd))
    ensures
      var r := f.Read(at, 16);
      r.Some? && r.value[0] == 1 && Value(r.value[8..12]) == hd.size
  {
    var pre := Prefix(hd);
    HasRead(f, at, pre);
    assert pre[8..12] == Encode(hd.size, 4);
    SmallEncode(hd.size, 4);
  }

  lemma {:induction false} HeaderMessagesAre(f: File, at: nat, pre: seq<byte>, start: nat, end: nat, ms: seq<OH.Msg>)
    requires f.Valid() && f.Read(at, 16) == Some(pre) && |pre| == 16 && pre[0] == 1
    requires start == (at + 16) % U64 && end == (at + 16 + Value(pre[8..12])) % U64 && OH.Messages(f, start, end, 0) == Some(ms)
    ensures OH.HeaderMessages(f, at) == Some(ms)
  {
  }

  lemma {:induction false} HeaderSays(f: File, at: nat, ms: seq<OH.Msg>, h: OH.Info)
    requires f.Valid() && OH.HeaderMessages(f, at) == Some(ms) && OH.ApplyAll(f, OH.EMPTY, ms) == Some(h)
    ensures OH.HeaderOf(f, at) == Some(h)
  {
  }

  lemma {:induction false} FarBelow(f: File, at: nat, n: nat)
    requires f.Valid() && at + 16 + n <= |f.bytes|
    ensures (at + 16) % U64 == at + 16 && (at + 16 + n) % U64 == at + 16 + n
  {
  }

  lemma {:induction false} HeaderMsgs(f: File, at: nat, hd: Header)
    requires f.Valid() && HeaderAt(f, at, hd)
    ensures OH.HeaderMessages(f, at) == Some(MsgsOf(PlainsAt(f, at, hd)))
  {
    var end := at + 16 + hd.size;
    PrefixRead(f, at, hd);
    BlockEnd(f, hd.block, 0, at + 16, end, 0);
    FarBelow(f, at, hd.size);
    BlockRead(f, hd.block, at + 16, end, 0);
    HeaderMessagesAre(f, at, f.Read(at, 16).value, at + 16, end, MsgsOf(PlainsAt(f, at, hd)));
  }

  /** Whatever header a file holds, the reader knows what it says. */
  lemma {:induction false} HeaderRead(f: File, at: nat, hd: Header)
    requires f.Valid() && HeaderAt(f, at, hd)
    ensures OH.HeaderOf(f, at) == Some(NotedAll(OH.EMPTY, PlainsAt(f, at, hd)))
  {
    HeaderMsgs(f, at, hd);
    PlainsHeld(f, hd.block, 0, at + 16, at + 16 + hd.size, 0);
    PlainsRead(f, OH.EMPTY, PlainsAt(f, at, hd));
    HeaderSays(f, at, MsgsOf(PlainsAt(f, at, hd)), NotedAll(OH.EMPTY, PlainsAt(f, at, hd)));
  }
}

/**
 * Copying one chunk of a chunked dataset into the row-major output buffer
 * (hdf5_c_libfree_reader.c). The code walks the rows of the chunk, works out
 * where each row starts in the output with 64-bit arithmetic, and clips the run.
 * The specification never mentions rows: it says, for each output byte, whether
 * the chunk supplies it and which chunk byte that is.
 */
module ChunkScatter {
  import opened Words
  import opened RowMajor

  /** Dataset dims, chunk dims and element size, as stored in the object header. */
  datatype Layout = Layout(dims: seq<nat>, cdims: seq<nat>, esz: nat) {
    /** One chunk dim per dataset dim, each within the width of its header field. */
    ghost predicate Valid() {
      && |dims| == |cdims| && esz < U32
      && (forall d :: 0 <= d < |dims| ==> dims[d] < U64 && cdims[d] < U32)
    }

    /** The byte sizes of the dataset and of a chunk can be counted in 64 bits. */
    ghost predicate Countable() {
      Bytes(Prod(dims), esz) < U64 && Bytes(Prod(cdims), esz) < U64
    }
  }

  function Lead(s: seq<nat>): (r: seq<nat>) { if s == [] then [] else s[..|s| - 1] }
  function LastOr(s: seq<nat>, v: nat): nat { if s == [] then v else s[|s| - 1] }

  ghost predicate ValidOffset(l: Layout, off: seq<nat>) {
    |off| == |l.dims| && forall d :: 0 <= d < |off| ==> off[d] < U64
  }

  /** Size in bytes of `n` elements. */
  function Bytes(n: nat, esz: nat): nat { n * esz }

  // ------------------------------------------------------------ specification

  /**
   * Coordinate inside the chunk of dataset coordinate `m[d]`. The code adds
   * `off[d]` in 64 bits for every dimension but the last, so those wrap.
   */
  ghost function Coord(l: Layout, off: seq<nat>, m: seq<nat>, d: nat): int
    requires |m| == |off| == |l.dims| && d < |m|
  {
    if d + 1 < |m| then (m[d] as int - off[d]) % U64 else m[d] as int - off[d]
  }

  /** Element number `x` of the dataset is supplied by the chunk at `off`. */
  ghost predicate Covers(l: Layout, off: seq<nat>, x: nat)
    requires l.Valid() && ValidOffset(l, off) && x < Prod(l.dims)
  {
    var m := Unflat(l.dims, x);
    forall d :: 0 <= d < |m| ==> 0 <= Coord(l, off, m, d) < l.cdims[d]
  }

  ghost function ChunkIndex(l: Layout, off: seq<nat>, x: nat): (c: seq<nat>)
    requires l.Valid() && ValidOffset(l, off) && x < Prod(l.dims) && Covers(l, off, x)
    ensures InBox(l.cdims, c)
  {
    var m := Unflat(l.dims, x);
    seq(|m|, d requires 0 <= d < |m| => Coord(l, off, m, d))
  }

  /** Element number inside the chunk of the element that lands on dataset element `x`. */
  ghost function Source(l: Layout, off: seq<nat>, x: nat): nat
    requires l.Valid() && ValidOffset(l, off) && x < Prod(l.dims) && Covers(l, off, x)
  {
    Flat(l.cdims, ChunkIndex(l, off, x))
  }

  /** Whatever lands on element `x` lies inside both buffers. */
  ghost predicate Fits(l: Layout, off: seq<nat>, csize: nat, outBytes: nat, x: nat)
    requires l.Valid() && ValidOffset(l, off) && x < Prod(l.dims)
  {
    Covers(l, off, x) ==>
      Bytes(Source(l, off, x) + 1, l.esz) <= csize && Bytes(x + 1, l.esz) <= outBytes
  }

  ghost predicate AllFit(l: Layout, off: seq<nat>, csize: nat, outBytes: nat)
    requires l.Valid() && ValidOffset(l, off)
  {
    forall x: nat :: x < Prod(l.dims) ==> Fits(l, off, csize, outBytes, x)
  }

  /** Output byte `k` belongs to an element that the chunk supplies... */
  ghost predicate Lands(l: Layout, off: seq<nat>, k: nat)
    requires l.Valid() && ValidOffset(l, off)
  {
    l.esz > 0 && k / l.esz < Prod(l.dims) && Covers(l, off, k / l.esz)
  }

  /** ...from this byte of the chunk. */
  ghost function SourceByte(l: Layout, off: seq<nat>, k: nat): nat
    requires l.Valid() && ValidOffset(l, off) && Lands(l, off, k)
  {
    Bytes(Source(l, off, k / l.esz), l.esz) + k % l.esz
  }

  ghost predicate Supplies(l: Layout, off: seq<nat>, chunk: seq<byte>, k: nat)
    requires l.Valid() && ValidOffset(l, off)
  {
    Lands(l, off, k) && SourceByte(l, off, k) < |chunk|
  }

  /** Byte `k` of the output after the chunk has been scattered over `before`. */
  ghost function ByteAfter(l: Layout, off: seq<nat>, chunk: seq<byte>, before: seq<byte>, k: nat): byte
    requires l.Valid() && ValidOffset(l, off) && k < |before|
  {
    if Supplies(l, off, chunk, k) then chunk[SourceByte(l, off, k)] else before[k]
  }

  ghost function Scattered(l: Layout, off: seq<nat>, chunk: seq<byte>, before: seq<byte>): (after: seq<byte>)
    requires l.Valid() && ValidOffset(l, off)
    ensures |after| == |before|
  {
    seq(|before|, k requires 0 <= k < |before| => ByteAfter(l, off, chunk, before, k))
  }

  // ------------------------------------------------- rows of the chunk (proof)

  /** Row of the chunk that element `x` comes from. */
  ghost function RowOf(l: Layout, off: seq<nat>, x: nat): nat
    requires l.Valid() && ValidOffset(l, off) && x < Prod(l.dims) && Covers(l, off, x)
  {
    Flat(Lead(l.cdims), Lead(ChunkIndex(l, off, x)))
  }

  /** Dataset coordinates, last one excepted, of chunk row `r`. */
  ghost function RowPos(l: Layout, off: seq<nat>, r: nat): (p: seq<nat>)
    requires l.Valid() && ValidOffset(l, off) && r < Prod(Lead(l.cdims))
    ensures |p| == |Lead(l.dims)|
  {
    var c := Unflat(Lead(l.cdims), r);
    seq(|c|, d requires 0 <= d < |c| => (off[d] + c[d]) % U64)
  }

  lemma {:induction false} ProdLead(s: seq<nat>)
    ensures Prod(s) == Prod(Lead(s)) * LastOr(s, 1)
  {
  }

  lemma {:induction false} UnflatLead(dims: seq<nat>, x: nat)
    requires x < Prod(dims)
    ensures LastOr(dims, 1) > 0 && x / LastOr(dims, 1) < Prod(Lead(dims))
    ensures Lead(Unflat(dims, x)) == Unflat(Lead(dims), x / LastOr(dims, 1))
    ensures LastOr(Unflat(dims, x), 0) == x % LastOr(dims, 1)
  {
    ProdLead(dims);
    SplitPosition(Prod(Lead(dims)), LastOr(dims, 1), x);
  }

  lemma {:induction false} SourceByRow(l: Layout, off: seq<nat>, x: nat)
    requires l.Valid() && ValidOffset(l, off) && x < Prod(l.dims) && Covers(l, off, x)
    ensures RowOf(l, off, x) < Prod(Lead(l.cdims))
    ensures Source(l, off, x) ==
            RowOf(l, off, x) * LastOr(l.cdims, 1) + (LastOr(Unflat(l.dims, x), 0) as int - LastOr(off, 0))
  {
    var c := ChunkIndex(l, off, x);
    FlatBound(Lead(l.cdims), Lead(c));
  }

  lemma {:induction false} WrapUndo(m: nat, o: nat, c: nat)
    requires m < U64 && o < U64 && c < U64
    ensures (m - o) % U64 == c <==> m == (o + c) % U64
  {
  }

  lemma {:induction false} CoordWrap(l: Layout, off: seq<nat>, m: seq<nat>, d: nat, c: nat)
    requires |m| == |off| == |l.dims| && d + 1 < |m| && m[d] < U64 && off[d] < U64 && c < U64
    ensures Coord(l, off, m, d) == c <==> m[d] == (off[d] + c) % U64
  {
    WrapUndo(m[d], off[d], c);
  }

  lemma {:induction false} RowPosAt(l: Layout, off: seq<nat>, r: nat, d: nat)
    requires l.Valid() && ValidOffset(l, off) && r < Prod(Lead(l.cdims)) && d < |Lead(l.dims)|
    ensures
      var c := Unflat(Lead(l.cdims), r);
      RowPos(l, off, r)[d] == (off[d] + c[d]) % U64 && c[d] < l.cdims[d] < U32
  {
    assert Unflat(Lead(l.cdims), r)[d] < Lead(l.cdims)[d] == l.cdims[d];
  }

  /** Undoing the wrap, coordinate by coordinate, for the leading coordinates of row `r`. */
  lemma {:induction false} LeadWrap(l: Layout, off: seq<nat>, r: nat, x: nat, d: nat)
    requires l.Valid() && ValidOffset(l, off) && r < Prod(Lead(l.cdims)) && x < Prod(l.dims)
    requires d < |Lead(l.dims)|
    ensures Coord(l, off, Unflat(l.dims, x), d) == Unflat(Lead(l.cdims), r)[d]
            <==> Unflat(l.dims, x)[d] == RowPos(l, off, r)[d]
    ensures Unflat(Lead(l.cdims), r)[d] < l.cdims[d]
  {
    RowPosAt(l, off, r, d);
    CoordWrap(l, off, Unflat(l.dims, x), d, Unflat(Lead(l.cdims), r)[d]);
  }

  /** An element that comes from row `r` has the leading coordinates of row `r`... */
  lemma {:induction false} LeadOfRow(l: Layout, off: seq<nat>, r: nat, x: nat)
    requires l.Valid() && ValidOffset(l, off) && r < Prod(Lead(l.cdims)) && x < Prod(l.dims)
    requires Covers(l, off, x) && RowOf(l, off, x) == r
    ensures Lead(Unflat(l.dims, x)) == RowPos(l, off, r)
  {
    var m, lead := Unflat(l.dims, x), Lead(ChunkIndex(l, off, x));
    UnflatFlat(Lead(l.cdims), lead);
    forall d | 0 <= d < |lead| ensures m[d] == RowPos(l, off, r)[d] {
      assert lead[d] == Coord(l, off, m, d);
      LeadWrap(l, off, r, x, d);
    }
  }

  /** ...and conversely, provided its last coordinate lies in the chunk. */
  lemma {:induction false} RowOfLead(l: Layout, off: seq<nat>, r: nat, x: nat)
    requires l.Valid() && ValidOffset(l, off) && r < Prod(Lead(l.cdims)) && x < Prod(l.dims)
    requires Lead(Unflat(l.dims, x)) == RowPos(l, off, r)
    requires 0 <= LastOr(Unflat(l.dims, x), 0) as int - LastOr(off, 0) < LastOr(l.cdims, 1)
    ensures Covers(l, off, x) && RowOf(l, off, x) == r
  {
    var m, c := Unflat(l.dims, x), Unflat(Lead(l.cdims), r);
    forall d | 0 <= d < |c| ensures Coord(l, off, m, d) == c[d] < l.cdims[d] {
      assert Lead(m)[d] == m[d];
      LeadWrap(l, off, r, x, d);
    }
    assert Covers(l, off, x);
    assert Lead(ChunkIndex(l, off, x)) == c;
  }

  /** First element and length of the run that row `r` fills. */
  ghost function RowStart(l: Layout, off: seq<nat>, r: nat): nat
    requires l.Valid() && ValidOffset(l, off) && r < Prod(Lead(l.cdims))
  {
    Flat(Lead(l.dims), RowPos(l, off, r)) * LastOr(l.dims, 1) + LastOr(off, 0)
  }

  /** First element of row `r` inside the chunk. */
  function RowFirst(l: Layout, r: nat): nat { r * LastOr(l.cdims, 1) }

  function RunLength(l: Layout, off: seq<nat>): nat {
    var avail := if LastOr(l.dims, 1) > LastOr(off, 0) then LastOr(l.dims, 1) - LastOr(off, 0) else 0;
    Min(LastOr(l.cdims, 1), avail)
  }

  ghost predicate RowLands(l: Layout, off: seq<nat>, r: nat)
    requires l.Valid() && ValidOffset(l, off) && r < Prod(Lead(l.cdims))
  {
    InBox(Lead(l.dims), RowPos(l, off, r)) && RunLength(l, off) > 0
  }

  /** Every element that comes from a row that lands lies in its run, at its place. */
  lemma {:induction false} RowToRun(l: Layout, off: seq<nat>, r: nat, x: nat)
    requires l.Valid() && ValidOffset(l, off) && r < Prod(Lead(l.cdims)) && x < Prod(l.dims)
    requires RowLands(l, off, r) && Covers(l, off, x) && RowOf(l, off, x) == r
    ensures RowStart(l, off, r) <= x < RowStart(l, off, r) + RunLength(l, off)
    ensures Source(l, off, x) == RowFirst(l, r) + (x - RowStart(l, off, r))
  {
    UnflatLead(l.dims, x);
    LeadOfRow(l, off, r, x);
    SourceByRow(l, off, x);
    LastInside(l, off, x);
    DivMod(x, LastOr(l.dims, 1));
  }

  /** Every element of the run of a row that lands comes from that row. */
  lemma {:induction false} RunToRow(l: Layout, off: seq<nat>, r: nat, x: nat)
    requires l.Valid() && ValidOffset(l, off) && r < Prod(Lead(l.cdims)) && x < Prod(l.dims)
    requires RowLands(l, off, r)
    requires RowStart(l, off, r) <= x < RowStart(l, off, r) + RunLength(l, off)
    ensures Covers(l, off, x) && RowOf(l, off, x) == r
  {
    var pos := RowPos(l, off, r);
    UnflatLead(l.dims, x);
    RunColumn(LastOr(l.dims, 1), Flat(Lead(l.dims), pos), LastOr(off, 0), RunLength(l, off), x);
    UnflatFlat(Lead(l.dims), pos);
    RowOfLead(l, off, r, x);
  }

  lemma {:induction false} RunColumn(width: nat, row: nat, first: nat, n: nat, x: nat)
    requires first + n <= width && row * width + first <= x < row * width + first + n
    ensures x / width == row && x % width == x - row * width
  {
    DivMod(x, width);
    RowColumnUnique(width, x / width, x % width, row, x - row * width);
  }

  lemma {:induction false} DivMod(x: nat, width: nat)
    requires width > 0
    ensures x == (x / width) * width + x % width
  {
  }

  lemma {:induction false} LastInside(l: Layout, off: seq<nat>, x: nat)
    requires l.Valid() && ValidOffset(l, off) && x < Prod(l.dims) && Covers(l, off, x)
    ensures 0 <= LastOr(Unflat(l.dims, x), 0) as int - LastOr(off, 0) < LastOr(l.cdims, 1)
    ensures LastOr(Unflat(l.dims, x), 0) as int - LastOr(off, 0) < RunLength(l, off)
  {
    UnflatLead(l.dims, x);
    var m := Unflat(l.dims, x);
    if m != [] {
      assert 0 <= Coord(l, off, m, |m| - 1) < l.cdims[|m| - 1];
    }
  }

  /** A row that does not land supplies no element. */
  lemma {:induction false} RowMiss(l: Layout, off: seq<nat>, r: nat, x: nat)
    requires l.Valid() && ValidOffset(l, off) && r < Prod(Lead(l.cdims)) && x < Prod(l.dims)
    requires !RowLands(l, off, r) && Covers(l, off, x)
    ensures RowOf(l, off, x) != r
  {
    UnflatLead(l.dims, x);
    LastInside(l, off, x);
    if RowOf(l, off, x) == r {
      LeadOfRow(l, off, r, x);
    }
  }

  // ------------------------------------------------------------------- code

  lemma {:induction false} WrapMul(p: nat, d: nat)
    ensures (p % U64) * d % U64 == p * d % U64
  {
    var q := p / U64;
    assert p * d == U64 * (q * d) + (p % U64) * d;
  }

  lemma {:induction false} WrapMulTo(acc: nat, p: nat, d: nat, q: nat)
    requires acc == p % U64 && q == d * p
    ensures acc * d % U64 == q % U64
  {
    WrapMul(p, d);
  }

  lemma {:induction false} ModSum(a: nat, b: nat)
    ensures (a % U64 + b % U64) % U64 == (a + b) % U64 && (a % U64 + b) % U64 == (a + b) % U64
  {
  }

  /** One more term of a sum of products, in 64-bit arithmetic. */
  lemma {:induction false} WrapAddTo(dst: nat, a: nat, p: nat, stride: nat, tail: nat, next: nat)
    requires dst == a % U64 && stride == tail % U64 && next == a + p * tail
    ensures (dst + p * stride % U64) % U64 == next % U64
  {
    WrapMul(tail, p);
    ModSum(a, p * tail);
  }

  lemma {:induction false} StrideStep(dims: seq<nat>, i: nat, acc: nat)
    requires i < |dims| && acc == Prod(dims[i + 1..]) % U64
    ensures acc * dims[i] % U64 == Prod(dims[i..]) % U64
  {
    assert dims[i..] == [dims[i]] + dims[i + 1..];
    ProdSplit([dims[i]], dims[i + 1..]);
    ProdOne(dims[i]);
    WrapMulTo(acc, Prod(dims[i + 1..]), dims[i], Prod(dims[i..]));
  }

  lemma {:induction false} ProdOne(w: nat)
    ensures Prod([w]) == w
  {
    assert [w][..0] == [];
  }

  /** Row-major element strides of the destination, in 64-bit arithmetic. */
  method Strides(dims: seq<nat>) returns (stride: seq<nat>)
    ensures |stride| == |dims|
    ensures forall d :: 0 <= d < |dims| ==> stride[d] == Prod(dims[d + 1..]) % U64
  {
    stride := seq(|dims|, _ => 0);
    var acc, i := 1, |dims|;
    assert dims[i..] == [];
    while i > 0
      invariant 0 <= i <= |dims| == |stride|
      invariant acc == Prod(dims[i..]) % U64
      invariant forall d :: i <= d < |dims| ==> stride[d] == Prod(dims[d + 1..]) % U64
    {
      i := i - 1;
      StrideStep(dims, i, acc);
      stride := stride[i := acc];
      acc := acc * dims[i] % U64;
    }
  }

  lemma {:induction false} RowCountStep(lead: seq<nat>, d: nat, rows: nat)
    requires d < |lead| && rows == Prod(lead[..d]) % U64
    ensures rows * lead[d] % U64 == Prod(lead[..d + 1]) % U64
  {
    assert lead[..d + 1][..d] == lead[..d];
    WrapMul(Prod(lead[..d]), lead[d]);
  }

  /** Number of rows of a chunk: the product of all chunk dims but the last. */
  method RowCount(cdims: seq<nat>) returns (rows: nat)
    ensures rows == Prod(Lead(cdims)) % U64
  {
    rows := 1;
    var d := 0;
    while d + 1 < |cdims|
      invariant 0 <= d <= |Lead(cdims)|
      invariant rows == Prod(Lead(cdims)[..d]) % U64
    {
      RowCountStep(Lead(cdims), d, rows);
      rows := rows * cdims[d] % U64;
      d := d + 1;
    }
    assert Lead(cdims)[..d] == Lead(cdims);
  }

  /** The digits of `r` from `d` on are `idx`, and `rem` is what is left to split. */
  ghost predicate Digits(lead: seq<nat>, r: nat, d: nat, rem: nat, idx: seq<nat>) {
    && d <= |lead| && r < Prod(lead) && rem < Prod(lead[..d])
    && Unflat(lead, r) == Unflat(lead[..d], rem) + idx
  }

  lemma {:induction false} DigitStep(lead: seq<nat>, r: nat, d: nat, rem: nat, idx: seq<nat>)
    requires d < |lead| && Digits(lead, r, d + 1, rem, idx)
    ensures lead[d] > 0 && Digits(lead, r, d, rem / lead[d], [rem % lead[d]] + idx)
  {
    assert lead[..d + 1][..d] == lead[..d];
    SplitPosition(Prod(lead[..d]), lead[d], rem);
    var front, digit := Unflat(lead[..d], rem / lead[d]), rem % lead[d];
    assert front + [digit] + idx == front + ([digit] + idx);
  }

  /** Splits row number `r` into its indices inside the chunk, fastest first. */
  method RowIndex(l: Layout, r: nat) returns (idx: seq<nat>)
    requires l.Valid() && r < Prod(Lead(l.cdims))
    ensures idx == Unflat(Lead(l.cdims), r)
  {
    ghost var lead := Lead(l.cdims);
    idx := [];
    var rem: nat, d := r, |Lead(l.cdims)|;
    assert lead[..d] == lead;
    while d > 0
      invariant Digits(lead, r, d, rem, idx)
    {
      d := d - 1;
      DigitStep(lead, r, d, rem, idx);
      idx, rem := [rem % l.cdims[d]] + idx, rem / l.cdims[d];
    }
  }

  /** Does any leading coordinate of the row fall past the dataset edge? */
  method RowOutside(l: Layout, off: seq<nat>, idx: seq<nat>, ghost r: nat) returns (oob: bool)
    requires l.Valid() && ValidOffset(l, off) && r < Prod(Lead(l.cdims)) && idx == Unflat(Lead(l.cdims), r)
    ensures oob <==> !InBox(Lead(l.dims), RowPos(l, off, r))
  {
    ghost var pos, lead := RowPos(l, off, r), Lead(l.dims);
    oob := false;
    var d := |idx|;
    while d > 0
      invariant 0 <= d <= |idx| == |pos| == |lead|
      invariant oob <==> exists e :: d <= e < |idx| && pos[e] >= lead[e]
    {
      d := d - 1;
      RowPosAt(l, off, r, d);
      assert lead[d] == l.dims[d];
      if (off[d] + idx[d]) % U64 >= l.dims[d] { oob := true; }
    }
  }

  /** The code's sum of coordinate times stride over the leading coordinates. */
  method LeadingSum(l: Layout, off: seq<nat>, stride: seq<nat>, idx: seq<nat>, ghost pos: seq<nat>)
    returns (dst: nat)
    requires |off| == |stride| == |l.dims| && |idx| == |pos| == |Lead(l.dims)|
    requires forall d :: 0 <= d < |idx| ==> pos[d] == (off[d] + idx[d]) % U64
    requires forall d :: 0 <= d < |l.dims| ==> stride[d] == Prod(l.dims[d + 1..]) % U64
    ensures Partial(l, pos, |pos|, dst)
  {
    dst := 0;
    var d := 0;
    assert l.dims[..0] == [] && pos[..0] == [];
    while d < |idx|
      invariant 0 <= d <= |idx| && Partial(l, pos, d, dst)
    {
      var p := (off[d] + idx[d]) % U64;
      DotStep(l, pos, d, dst, stride[d]);
      dst := (dst + p * stride[d] % U64) % U64;
      d := d + 1;
    }
  }

  /** First output element of a row, in 64-bit arithmetic. */
  method RowElement(l: Layout, off: seq<nat>, stride: seq<nat>, idx: seq<nat>, ghost r: nat) returns (dst: nat)
    requires l.Valid() && ValidOffset(l, off) && r < Prod(Lead(l.cdims)) && idx == Unflat(Lead(l.cdims), r)
    requires |stride| == |l.dims|
    requires forall d :: 0 <= d < |l.dims| ==> stride[d] == Prod(l.dims[d + 1..]) % U64
    ensures dst == RowStart(l, off, r) % U64
  {
    var sum := LeadingSum(l, off, stride, idx, RowPos(l, off, r));
    dst := AddLast(l, off, stride, sum);
    DotEnd(l, off, r, sum);
  }

  method AddLast(l: Layout, off: seq<nat>, stride: seq<nat>, sum: nat) returns (dst: nat)
    requires |off| == |stride| == |l.dims| && sum < U64
    requires |l.dims| > 0 ==> stride[|l.dims| - 1] == Prod(l.dims[|l.dims|..]) % U64
    ensures dst == (sum + LastOr(off, 0)) % U64
  {
    dst := sum;
    var d := |l.dims|;
    if d > 0 {
      assert l.dims[d..] == [];
      WrapAddTo(sum, sum, off[d - 1], stride[d - 1], 1, sum + off[d - 1]);
      dst := (sum + off[d - 1] * stride[d - 1] % U64) % U64;
    }
  }

  lemma {:induction false} Distribute(a: nat, w: nat, p: nat, tail: nat)
    ensures a * (w * tail) + p * tail == (a * w + p) * tail
  {
  }

  /** One more coordinate of a multi-index, in units of the trailing product. */
  lemma {:induction false} DotExact(dims: seq<nat>, pos: seq<nat>, d: nat)
    requires d < |pos| <= |dims|
    ensures Flat(dims[..d], pos[..d]) * Prod(dims[d..]) + pos[d] * Prod(dims[d + 1..])
            == Flat(dims[..d + 1], pos[..d + 1]) * Prod(dims[d + 1..])
  {
    assert dims[..d + 1][..d] == dims[..d] && pos[..d + 1][..d] == pos[..d];
    assert dims[d..] == [dims[d]] + dims[d + 1..];
    ProdSplit([dims[d]], dims[d + 1..]);
    ProdOne(dims[d]);
    Distribute(Flat(dims[..d], pos[..d]), dims[d], pos[d], Prod(dims[d + 1..]));
  }

  /** The sum over the first `d` coordinates. */
  ghost predicate Partial(l: Layout, pos: seq<nat>, d: nat, dst: nat)
    requires d <= |pos| <= |l.dims|
  {
    dst == Flat(l.dims[..d], pos[..d]) * Prod(l.dims[d..]) % U64
  }

  /** One term of the stride sum. */
  lemma {:induction false} DotStep(l: Layout, pos: seq<nat>, d: nat, dst: nat, stride: nat)
    requires d < |pos| <= |l.dims| && stride == Prod(l.dims[d + 1..]) % U64
    requires Partial(l, pos, d, dst)
    ensures Partial(l, pos, d + 1, (dst + pos[d] * stride % U64) % U64)
  {
    DotExact(l.dims, pos, d);
    WrapAddTo(dst, Flat(l.dims[..d], pos[..d]) * Prod(l.dims[d..]), pos[d], stride, Prod(l.dims[d + 1..]),
              Flat(l.dims[..d + 1], pos[..d + 1]) * Prod(l.dims[d + 1..]));
  }

  /** After the leading coordinates only the offset along the last one is missing. */
  lemma {:induction false} DotEnd(l: Layout, off: seq<nat>, r: nat, dst: nat)
    requires l.Valid() && ValidOffset(l, off) && r < Prod(Lead(l.cdims))
    requires Partial(l, RowPos(l, off, r), |Lead(l.dims)|, dst)
    ensures (dst + LastOr(off, 0)) % U64 == RowStart(l, off, r) % U64
  {
    var d, pos := |Lead(l.dims)|, RowPos(l, off, r);
    assert l.dims[..d] == Lead(l.dims) && pos[..d] == pos;
    if |l.dims| > 0 {
      assert l.dims[d..] == [l.dims[d]];
      ProdOne(l.dims[d]);
    }
    ModSum(Flat(Lead(l.dims), pos) * LastOr(l.dims, 1), LastOr(off, 0));
  }

  /** The run of a row that lands ends inside the dataset. */
  lemma {:induction false} LandedInside(l: Layout, off: seq<nat>, r: nat)
    requires l.Valid() && ValidOffset(l, off) && r < Prod(Lead(l.cdims)) && RowLands(l, off, r)
    ensures RowStart(l, off, r) + RunLength(l, off) <= Prod(l.dims)
  {
    FlatBound(Lead(l.dims), RowPos(l, off, r));
    ProdLead(l.dims);
    MulMonotone(Flat(Lead(l.dims), RowPos(l, off, r)) + 1, Prod(Lead(l.dims)), LastOr(l.dims, 1));
  }

  // ---------------------------------------------------------- copying the rows

  /** Output byte `k` once the rows before `r` have been copied. */
  ghost predicate ByteDone(l: Layout, off: seq<nat>, chunk: seq<byte>, before: seq<byte>, k: nat, b: byte, r: nat)
    requires l.Valid() && ValidOffset(l, off) && k < |before|
  {
    b == if Supplies(l, off, chunk, k) && RowOf(l, off, k / l.esz) < r
         then chunk[SourceByte(l, off, k)]
         else before[k]
  }

  ghost predicate RowsDone(l: Layout, off: seq<nat>, chunk: seq<byte>, before: seq<byte>, after: seq<byte>, r: nat)
    requires l.Valid() && ValidOffset(l, off)
  {
    |after| == |before| && forall k :: 0 <= k < |before| ==> ByteDone(l, off, chunk, before, k, after[k], r)
  }

  ghost predicate FitBefore(l: Layout, off: seq<nat>, csize: nat, outBytes: nat, r: nat)
    requires l.Valid() && ValidOffset(l, off)
  {
    forall x: nat :: x < Prod(l.dims) && Covers(l, off, x) && RowOf(l, off, x) < r ==>
      Fits(l, off, csize, outBytes, x)
  }

  lemma {:induction false} ScaleRange(k: nat, esz: nat, lo: nat, hi: nat)
    requires esz > 0
    ensures Bytes(lo, esz) <= k < Bytes(hi, esz) <==> lo <= k / esz < hi
  {
    DivMod(k, esz);
    if lo <= k / esz { MulMonotone(lo, k / esz, esz); } else { MulMonotone(k / esz + 1, lo, esz); }
    if k / esz < hi { MulMonotone(k / esz + 1, hi, esz); } else { MulMonotone(hi, k / esz, esz); }
  }

  lemma {:induction false} RunByte(row: nat, x: nat, dst: nat, esz: nat, k: nat)
    requires esz > 0 && x == k / esz && dst <= x
    ensures Bytes(row + (x - dst), esz) + k % esz == Bytes(row, esz) + (k - Bytes(dst, esz))
  {
    DivMod(k, esz);
    assert (row + (x - dst)) * esz == row * esz + x * esz - dst * esz;
  }

  /** Row `r` lands, and its run lies inside both buffers, at byte `base` from byte `src`. */
  ghost predicate Copies(l: Layout, off: seq<nat>, csize: nat, r: nat, base: nat, src: nat, len: nat)
    requires l.Valid() && ValidOffset(l, off)
  {
    && l.esz > 0 && r < Prod(Lead(l.cdims)) && RowLands(l, off, r)
    && base == Bytes(RowStart(l, off, r), l.esz)
    && base + len == Bytes(RowStart(l, off, r) + RunLength(l, off), l.esz)
    && src == Bytes(RowFirst(l, r), l.esz) && src + len <= csize
  }

  /** The element a byte of the run of row `r` belongs to comes from row `r`, in chunk order. */
  lemma {:induction false} CopiedElement(l: Layout, off: seq<nat>, csize: nat, k: nat, r: nat, base: nat, src: nat, len: nat)
    requires l.Valid() && ValidOffset(l, off) && Copies(l, off, csize, r, base, src, len)
    requires base <= k < base + len
    ensures Lands(l, off, k) && RowOf(l, off, k / l.esz) == r
    ensures RowStart(l, off, r) <= k / l.esz
    ensures Source(l, off, k / l.esz) == RowFirst(l, r) + (k / l.esz - RowStart(l, off, r))
  {
    ScaleRange(k, l.esz, RowStart(l, off, r), RowStart(l, off, r) + RunLength(l, off));
    LandedInside(l, off, r);
    RunToRow(l, off, r, k / l.esz);
    RowToRun(l, off, r, k / l.esz);
  }

  /** A byte of the run of row `r` gets the byte the specification asks for... */
  lemma {:induction false} CopiedByte(l: Layout, off: seq<nat>, csize: nat, k: nat, r: nat, base: nat, src: nat, len: nat)
    requires l.Valid() && ValidOffset(l, off) && Copies(l, off, csize, r, base, src, len)
    requires base <= k < base + len
    ensures Lands(l, off, k) && RowOf(l, off, k / l.esz) == r
    ensures SourceByte(l, off, k) == src + (k - base)
  {
    CopiedElement(l, off, csize, k, r, base, src, len);
    CopiedSource(l, off, k, RowFirst(l, r), RowStart(l, off, r));
  }

  lemma {:induction false} CopiedSource(l: Layout, off: seq<nat>, k: nat, row: nat, dst: nat)
    requires l.Valid() && ValidOffset(l, off) && l.esz > 0 && Lands(l, off, k) && dst <= k / l.esz
    requires Source(l, off, k / l.esz) == row + (k / l.esz - dst)
    ensures SourceByte(l, off, k) == Bytes(row, l.esz) + (k - Bytes(dst, l.esz))
  {
    RunByte(row, k / l.esz, dst, l.esz, k);
  }

  /** ...and no byte outside it comes from row `r`. */
  lemma {:induction false} UncopiedByte(l: Layout, off: seq<nat>, csize: nat, k: nat, r: nat, base: nat, src: nat, len: nat)
    requires l.Valid() && ValidOffset(l, off) && Copies(l, off, csize, r, base, src, len)
    requires !(base <= k < base + len) && Lands(l, off, k)
    ensures RowOf(l, off, k / l.esz) != r
  {
    var dst, x := RowStart(l, off, r), k / l.esz;
    ScaleRange(k, l.esz, dst, dst + RunLength(l, off));
    if RowOf(l, off, x) == r { RowToRun(l, off, r, x); }
  }

  /** Nothing wraps in the source position of a row that lands. */
  lemma {:induction false} SourceSmall(l: Layout, r: nat)
    requires l.Countable() && l.Valid() && r < Prod(Lead(l.cdims)) && l.esz > 0 && LastOr(l.cdims, 1) > 0
    ensures Bytes(RowFirst(l, r), l.esz) < U64
  {
    ProdLead(l.cdims);
    MulMonotone(r, Prod(Lead(l.cdims)), LastOr(l.cdims, 1));
    MulMonotone(RowFirst(l, r), Prod(l.cdims), l.esz);
  }

  lemma {:induction false} TargetSmall(l: Layout, off: seq<nat>, r: nat)
    requires l.Countable() && l.Valid() && ValidOffset(l, off) && r < Prod(Lead(l.cdims)) && RowLands(l, off, r) && l.esz > 0
    ensures Bytes(RowStart(l, off, r) + RunLength(l, off), l.esz) < U64
  {
    LandedInside(l, off, r);
    MulMonotone(RowStart(l, off, r) + RunLength(l, off), Prod(l.dims), l.esz);
  }

  /** The last element of the run of a row that lands. */
  lemma {:induction false} RunLast(l: Layout, off: seq<nat>, r: nat) returns (x: nat)
    requires l.Valid() && ValidOffset(l, off) && r < Prod(Lead(l.cdims)) && RowLands(l, off, r)
    ensures x < Prod(l.dims) && Covers(l, off, x)
    ensures x + 1 == RowStart(l, off, r) + RunLength(l, off)
    ensures Source(l, off, x) + 1 == RowFirst(l, r) + RunLength(l, off)
  {
    x := RowStart(l, off, r) + RunLength(l, off) - 1;
    LandedInside(l, off, r);
    RunToRow(l, off, r, x);
    RowToRun(l, off, r, x);
  }

  /** A row whose last element overflows a buffer is a witness that not everything fits. */
  lemma {:induction false} RowTooBig(l: Layout, off: seq<nat>, csize: nat, outBytes: nat, r: nat)
    requires l.Valid() && ValidOffset(l, off) && r < Prod(Lead(l.cdims)) && RowLands(l, off, r)
    requires Bytes(RowFirst(l, r) + RunLength(l, off), l.esz) > csize
             || Bytes(RowStart(l, off, r) + RunLength(l, off), l.esz) > outBytes
    ensures !AllFit(l, off, csize, outBytes)
  {
    var x := RunLast(l, off, r);
    assert !Fits(l, off, csize, outBytes, x);
  }

  lemma {:induction false} BytesMonotone(a: nat, b: nat, e: nat)
    requires a <= b
    ensures Bytes(a, e) <= Bytes(b, e)
  {
    MulMonotone(a, b, e);
  }

  lemma {:induction false} ElementFits(l: Layout, off: seq<nat>, csize: nat, outBytes: nat, x: nat, srcEnd: nat, dstEnd: nat)
    requires l.Valid() && ValidOffset(l, off) && x < Prod(l.dims) && Covers(l, off, x)
    requires Source(l, off, x) < srcEnd && Bytes(srcEnd, l.esz) <= csize
    requires x < dstEnd && Bytes(dstEnd, l.esz) <= outBytes
    ensures Fits(l, off, csize, outBytes, x)
  {
    BytesMonotone(Source(l, off, x) + 1, srcEnd, l.esz);
    BytesMonotone(x + 1, dstEnd, l.esz);
  }

  /** An element in a run that fits, at its place. */
  lemma {:induction false} RunFits(l: Layout, off: seq<nat>, csize: nat, outBytes: nat, x: nat, first: nat, start: nat, n: nat)
    requires l.Valid() && ValidOffset(l, off) && x < Prod(l.dims) && Covers(l, off, x)
    requires start <= x < start + n && Source(l, off, x) == first + (x - start)
    requires Bytes(first + n, l.esz) <= csize && Bytes(start + n, l.esz) <= outBytes
    ensures Fits(l, off, csize, outBytes, x)
  {
    ElementFits(l, off, csize, outBytes, x, first + n, start + n);
  }

  lemma {:induction false} ElementOfRowFits(l: Layout, off: seq<nat>, csize: nat, outBytes: nat, r: nat, x: nat, first: nat, start: nat, n: nat)
    requires l.Valid() && ValidOffset(l, off) && r < Prod(Lead(l.cdims)) && RowLands(l, off, r)
    requires first == RowFirst(l, r) && start == RowStart(l, off, r) && n == RunLength(l, off)
    requires Bytes(first + n, l.esz) <= csize && Bytes(start + n, l.esz) <= outBytes
    requires x < Prod(l.dims) && Covers(l, off, x) && RowOf(l, off, x) == r
    ensures Fits(l, off, csize, outBytes, x)
  {
    RowToRun(l, off, r, x);
    RunFits(l, off, csize, outBytes, x, first, start, n);
  }

  lemma {:induction false} RowFits(l: Layout, off: seq<nat>, csize: nat, outBytes: nat, r: nat)
    requires l.Valid() && ValidOffset(l, off) && r < Prod(Lead(l.cdims)) && FitBefore(l, off, csize, outBytes, r)
    requires RowLands(l, off, r) ==>
               && Bytes(RowFirst(l, r) + RunLength(l, off), l.esz) <= csize
               && Bytes(RowStart(l, off, r) + RunLength(l, off), l.esz) <= outBytes
    ensures FitBefore(l, off, csize, outBytes, r + 1)
  {
    forall x: nat | x < Prod(l.dims) && Covers(l, off, x) && RowOf(l, off, x) < r + 1
      ensures Fits(l, off, csize, outBytes, x)
    {
      if RowOf(l, off, x) == r {
        if !RowLands(l, off, r) { RowMiss(l, off, r, x); }
        ElementOfRowFits(l, off, csize, outBytes, r, x, RowFirst(l, r), RowStart(l, off, r), RunLength(l, off));
      }
    }
  }

  lemma {:induction false} RowSkipped(l: Layout, off: seq<nat>, chunk: seq<byte>, before: seq<byte>, after: seq<byte>, r: nat)
    requires l.Valid() && ValidOffset(l, off) && r < Prod(Lead(l.cdims))
    requires RowsDone(l, off, chunk, before, after, r) && (!RowLands(l, off, r) || l.esz == 0)
    ensures RowsDone(l, off, chunk, before, after, r + 1)
  {
    forall k | 0 <= k < |before| ensures ByteDone(l, off, chunk, before, k, after[k], r + 1) {
      assert ByteDone(l, off, chunk, before, k, after[k], r);
      if Supplies(l, off, chunk, k) { RowMiss(l, off, r, k / l.esz); }
    }
  }

  /** An element the chunk supplies comes from one of the rows the loop counts. */
  lemma {:induction false} RowCounted(l: Layout, off: seq<nat>, x: nat)
    requires l.Countable() && l.Valid() && ValidOffset(l, off) && x < Prod(l.dims) && Covers(l, off, x) && l.esz > 0
    ensures RowOf(l, off, x) < Prod(Lead(l.cdims)) % U64
  {
    SourceByRow(l, off, x);
    LastInside(l, off, x);
    ProdLead(l.cdims);
    FactorSmall(Prod(Lead(l.cdims)), LastOr(l.cdims, 1), l.esz);
  }

  lemma {:induction false} FactorSmall(p: nat, w: nat, e: nat)
    requires w > 0 && e > 0 && (p * w) * e < U64
    ensures p < U64 && p % U64 == p
  {
    MulMonotone(1, w, p);
    MulMonotone(1, e, p * w);
  }

  lemma {:induction false} AllRowsDone(l: Layout, off: seq<nat>, chunk: seq<byte>, before: seq<byte>, after: seq<byte>)
    requires l.Countable() && l.Valid() && ValidOffset(l, off)
    requires RowsDone(l, off, chunk, before, after, Prod(Lead(l.cdims)) % U64)
    ensures after == Scattered(l, off, chunk, before)
  {
    forall k | 0 <= k < |before| ensures after[k] == ByteAfter(l, off, chunk, before, k) {
      assert ByteDone(l, off, chunk, before, k, after[k], Prod(Lead(l.cdims)) % U64);
      if Supplies(l, off, chunk, k) { RowCounted(l, off, k / l.esz); }
    }
  }

  lemma {:induction false} AllRowsFit(l: Layout, off: seq<nat>, csize: nat, outBytes: nat)
    requires l.Countable() && l.Valid() && ValidOffset(l, off)
    requires l.esz > 0 ==> FitBefore(l, off, csize, outBytes, Prod(Lead(l.cdims)) % U64)
    ensures AllFit(l, off, csize, outBytes)
  {
    forall x: nat | x < Prod(l.dims) ensures Fits(l, off, csize, outBytes, x) {
      if Covers(l, off, x) && l.esz > 0 { RowCounted(l, off, x); }
    }
  }

  /** memcpy. */
  method CopyBytes(chunk: seq<byte>, out: array<byte>, src: nat, base: nat, len: nat)
    requires src + len <= |chunk| && base + len <= out.Length
    modifies out
    ensures out[..] == old(out[..])[..base] + chunk[src..src + len] + old(out[..])[base + len..]
  {
    forall j | 0 <= j < len {
      out[base + j] := chunk[src + j];
    }
    assert out[base..base + len] == chunk[src..src + len];
  }

  lemma {:induction false} Spliced(was: seq<byte>, chunk: seq<byte>, base: nat, src: nat, len: nat, k: nat)
    requires src + len <= |chunk| && base + len <= |was| && k < |was|
    ensures (was[..base] + chunk[src..src + len] + was[base + len..])[k] ==
      if base <= k < base + len then chunk[src + (k - base)] else was[k]
  {
  }

  lemma {:induction false} ByteCopied(l: Layout, off: seq<nat>, chunk: seq<byte>, before: seq<byte>, k: nat, was: byte, now: byte,
                   r: nat, base: nat, src: nat, len: nat)
    requires l.Valid() && ValidOffset(l, off) && Copies(l, off, |chunk|, r, base, src, len) && k < |before|
    requires ByteDone(l, off, chunk, before, k, was, r)
    requires now == if base <= k < base + len then chunk[src + (k - base)] else was
    ensures ByteDone(l, off, chunk, before, k, now, r + 1)
  {
    if base <= k < base + len {
      CopiedByte(l, off, |chunk|, k, r, base, src, len);
    } else if Lands(l, off, k) {
      UncopiedByte(l, off, |chunk|, k, r, base, src, len);
    }
  }

  /** Copying row `r` of the chunk into its run of the output. */
  lemma {:induction false} RowCopied(l: Layout, off: seq<nat>, chunk: seq<byte>, before: seq<byte>, was: seq<byte>, now: seq<byte>,
                  r: nat, base: nat, src: nat, len: nat)
    requires l.Valid() && ValidOffset(l, off) && Copies(l, off, |chunk|, r, base, src, len)
    requires RowsDone(l, off, chunk, before, was, r) && base + len <= |was|
    requires now == was[..base] + chunk[src..src + len] + was[base + len..]
    ensures RowsDone(l, off, chunk, before, now, r + 1)
  {
    forall k | 0 <= k < |before| ensures ByteDone(l, off, chunk, before, k, now[k], r + 1) {
      Spliced(was, chunk, base, src, len, k);
      ByteCopied(l, off, chunk, before, k, was[k], now[k], r, base, src, len);
    }
  }

  lemma {:induction false} Spread(a: nat, b: nat, e: nat)
    ensures Bytes(a + b, e) == Bytes(a, e) + Bytes(b, e)
  {
  }

  /** State of the row loop: rows before `r` copied, and all of them fit. */
  ghost predicate Progress(l: Layout, off: seq<nat>, chunk: seq<byte>, before: seq<byte>, after: seq<byte>, r: nat)
    requires l.Valid() && ValidOffset(l, off)
  {
    && RowsDone(l, off, chunk, before, after, r)
    && (l.esz > 0 ==> FitBefore(l, off, |chunk|, |before|, r))
  }

  lemma {:induction false} ProgressSkip(l: Layout, off: seq<nat>, chunk: seq<byte>, before: seq<byte>, after: seq<byte>, r: nat)
    requires l.Valid() && ValidOffset(l, off) && r < Prod(Lead(l.cdims))
    requires Progress(l, off, chunk, before, after, r) && (!RowLands(l, off, r) || l.esz == 0)
    ensures Progress(l, off, chunk, before, after, r + 1)
  {
    RowSkipped(l, off, chunk, before, after, r);
    if l.esz > 0 { RowFits(l, off, |chunk|, |before|, r); }
  }

  lemma {:induction false} ProgressEnd(l: Layout, off: seq<nat>, chunk: seq<byte>, before: seq<byte>, after: seq<byte>)
    requires l.Countable() && l.Valid() && ValidOffset(l, off)
    requires Progress(l, off, chunk, before, after, Prod(Lead(l.cdims)) % U64)
    ensures AllFit(l, off, |chunk|, |before|) && after == Scattered(l, off, chunk, before)
  {
    AllRowsDone(l, off, chunk, before, after);
    AllRowsFit(l, off, |chunk|, |before|);
  }

  /** Nothing wraps in the byte positions of a row that lands. */
  lemma {:induction false} NoWrap(l: Layout, off: seq<nat>, r: nat)
    requires l.Countable() && l.Valid() && ValidOffset(l, off) && r < Prod(Lead(l.cdims)) && RowLands(l, off, r) && l.esz > 0
    ensures Bytes(RowFirst(l, r), l.esz) % U64 == Bytes(RowFirst(l, r), l.esz)
    ensures Bytes(RowStart(l, off, r) + RunLength(l, off), l.esz) % U64 == Bytes(RowStart(l, off, r) + RunLength(l, off), l.esz)
    ensures Bytes(RowFirst(l, r) + RunLength(l, off), l.esz) == Bytes(RowFirst(l, r), l.esz) + Bytes(RunLength(l, off), l.esz)
    ensures Bytes(RowStart(l, off, r) + RunLength(l, off), l.esz)
            == Bytes(RowStart(l, off, r), l.esz) + Bytes(RunLength(l, off), l.esz)
  {
    SourceSmall(l, r);
    TargetSmall(l, off, r);
    Small(Bytes(RowFirst(l, r), l.esz));
    Small(Bytes(RowStart(l, off, r) + RunLength(l, off), l.esz));
    Spread(RowFirst(l, r), RunLength(l, off), l.esz);
    Spread(RowStart(l, off, r), RunLength(l, off), l.esz);
  }

  lemma {:induction false} Small(a: nat)
    requires a < U64
    ensures a % U64 == a
  {
  }

  // ------------------------------------------------------------- what the two checks see

  /** How a chunk is dealt with. After an overrun nothing is known any more. */
  datatype Outcome = Done | Rejected | Overrun

  /** Byte positions and length of the copy of a row, in 64-bit arithmetic. */
  ghost function SrcAt(l: Layout, r: nat): nat { Bytes(RowFirst(l, r), l.esz) % U64 }

  ghost function DstAt(l: Layout, off: seq<nat>, r: nat): nat
    requires l.Valid() && ValidOffset(l, off) && r < Prod(Lead(l.cdims))
  {
    Bytes(RowStart(l, off, r), l.esz) % U64
  }

  function RunBytes(l: Layout, off: seq<nat>): nat { Bytes(RunLength(l, off), l.esz) }

  /** The two checks of the code; their sums wrap. */
  ghost predicate ChecksPass(l: Layout, off: seq<nat>, csize: nat, outBytes: nat, r: nat)
    requires l.Valid() && ValidOffset(l, off) && r < Prod(Lead(l.cdims))
  {
    (SrcAt(l, r) + RunBytes(l, off)) % U64 <= csize && (DstAt(l, off, r) + RunBytes(l, off)) % U64 <= outBytes
  }

  /** The copy stays inside both buffers. */
  ghost predicate InBuffers(l: Layout, off: seq<nat>, csize: nat, outBytes: nat, r: nat)
    requires l.Valid() && ValidOffset(l, off) && r < Prod(Lead(l.cdims))
  {
    SrcAt(l, r) + RunBytes(l, off) <= csize && DstAt(l, off, r) + RunBytes(l, off) <= outBytes
  }

  /** One of the two sums that the code checks does not fit in 64 bits. */
  ghost predicate SumsWrap(l: Layout, off: seq<nat>, r: nat)
    requires l.Valid() && ValidOffset(l, off) && r < Prod(Lead(l.cdims))
  {
    SrcAt(l, r) + RunBytes(l, off) >= U64 || DstAt(l, off, r) + RunBytes(l, off) >= U64
  }

  /** For every header: the copy is in bounds exactly if the checks pass and neither of their sums wraps. */
  lemma {:induction false} InBuffersIff(l: Layout, off: seq<nat>, csize: u64, outBytes: u64, r: nat)
    requires l.Valid() && ValidOffset(l, off) && r < Prod(Lead(l.cdims))
    ensures InBuffers(l, off, csize, outBytes, r) <==> ChecksPass(l, off, csize, outBytes, r) && !SumsWrap(l, off, r)
  {
    UnwrappedCheck(SrcAt(l, r) + RunBytes(l, off), csize);
    UnwrappedCheck(DstAt(l, off, r) + RunBytes(l, off), outBytes);
  }

  lemma {:induction false} UnwrappedCheck(sum: nat, size: u64)
    ensures sum <= size <==> sum % U64 <= size && sum < U64
  {
  }

  ghost function RowVerdict(l: Layout, off: seq<nat>, csize: nat, outBytes: nat, r: nat): Outcome
    requires l.Valid() && ValidOffset(l, off) && r < Prod(Lead(l.cdims))
  {
    if !RowLands(l, off, r) then Done
    else if !ChecksPass(l, off, csize, outBytes, r) then Rejected
    else if !InBuffers(l, off, csize, outBytes, r) then Overrun
    else Done
  }

  /** The number of rows the code visits. */
  ghost function Rows(l: Layout): nat { Prod(Lead(l.cdims)) % U64 }

  ghost function RowVerdicts(l: Layout, off: seq<nat>, csize: nat, outBytes: nat): (vs: seq<Outcome>)
    requires l.Valid() && ValidOffset(l, off)
    ensures |vs| == Rows(l)
  {
    seq(Rows(l), r requires 0 <= r < Rows(l) => RowVerdict(l, off, csize, outBytes, r))
  }

  /** The first outcome from `r` on that is not `Done` decides. */
  ghost function FirstStop(vs: seq<Outcome>, r: nat): Outcome
    decreases |vs| - r
  {
    if r >= |vs| then Done else if vs[r] != Done then vs[r] else FirstStop(vs, r + 1)
  }

  /** What the scatter makes of one chunk. */
  ghost function Verdict(l: Layout, off: seq<nat>, csize: nat, outBytes: nat): Outcome
    requires l.Valid() && ValidOffset(l, off)
  {
    FirstStop(RowVerdicts(l, off, csize, outBytes), 0)
  }

  ghost predicate StopsAt(vs: seq<Outcome>, from: nat, r: nat) {
    from <= r < |vs| && vs[r] != Done && forall q :: from <= q < r ==> vs[q] == Done
  }

  lemma {:induction false} FindStop(vs: seq<Outcome>, from: nat) returns (r: nat)
    requires FirstStop(vs, from) != Done
    ensures StopsAt(vs, from, r) && vs[r] == FirstStop(vs, from)
    decreases |vs| - from
  {
    if vs[from] == Done { r := FindStop(vs, from + 1); } else { r := from; }
  }

  lemma {:induction false} StopDecides(vs: seq<Outcome>, from: nat, r: nat)
    requires StopsAt(vs, from, r)
    ensures FirstStop(vs, from) == vs[r]
    decreases r - from
  {
    if from < r { StopDecides(vs, from + 1, r); }
  }

  lemma {:induction false} RowOverrunIff(l: Layout, off: seq<nat>, csize: u64, outBytes: u64, r: nat)
    requires l.Valid() && ValidOffset(l, off) && r < Prod(Lead(l.cdims))
    ensures RowVerdict(l, off, csize, outBytes, r) == Overrun <==> Leaves(l, off, csize, outBytes, r)
  {
    InBuffersIff(l, off, csize, outBytes, r);
  }

  /** Row `r` lands and passes its checks because they wrap. */
  ghost predicate Leaves(l: Layout, off: seq<nat>, csize: nat, outBytes: nat, r: nat)
    requires l.Valid() && ValidOffset(l, off) && r < Prod(Lead(l.cdims))
  {
    RowLands(l, off, r) && ChecksPass(l, off, csize, outBytes, r) && SumsWrap(l, off, r)
  }

  /** Row `r` leaves a buffer, and it is the first row that is not simply copied or skipped. */
  ghost predicate LeavesFirst(l: Layout, off: seq<nat>, csize: nat, outBytes: nat, r: nat)
    requires l.Valid() && ValidOffset(l, off)
  {
    && r < Rows(l) && Leaves(l, off, csize, outBytes, r)
    && (forall q :: 0 <= q < r ==> Passes(l, off, csize, outBytes, q))
  }

  /** Row `q` misses the dataset, or passes its checks and neither sum wraps. */
  ghost predicate Passes(l: Layout, off: seq<nat>, csize: nat, outBytes: nat, q: nat)
    requires l.Valid() && ValidOffset(l, off) && q < Prod(Lead(l.cdims))
  {
    !RowLands(l, off, q) || (ChecksPass(l, off, csize, outBytes, q) && !SumsWrap(l, off, q))
  }

  lemma {:induction false} DoneAt(l: Layout, off: seq<nat>, csize: u64, outBytes: u64, q: nat)
    requires l.Valid() && ValidOffset(l, off) && q < Rows(l)
    ensures RowVerdicts(l, off, csize, outBytes)[q] == Done <==> Passes(l, off, csize, outBytes, q)
  {
    InBuffersIff(l, off, csize, outBytes, q);
  }

  lemma {:induction false} OverrunAt(l: Layout, off: seq<nat>, csize: u64, outBytes: u64, r: nat)
    requires l.Valid() && ValidOffset(l, off) && r < Rows(l)
    ensures RowVerdicts(l, off, csize, outBytes)[r] == Overrun <==> Leaves(l, off, csize, outBytes, r)
  {
    RowOverrunIff(l, off, csize, outBytes, r);
  }

  lemma {:induction false} OverrunLeaves(l: Layout, off: seq<nat>, csize: u64, outBytes: u64) returns (r: nat)
    requires l.Valid() && ValidOffset(l, off) && Verdict(l, off, csize, outBytes) == Overrun
    ensures LeavesFirst(l, off, csize, outBytes, r)
  {
    r := FindStop(RowVerdicts(l, off, csize, outBytes), 0);
    OverrunAt(l, off, csize, outBytes, r);
    forall q | 0 <= q < r ensures Passes(l, off, csize, outBytes, q) { DoneAt(l, off, csize, outBytes, q); }
  }

  lemma {:induction false} LeavesOverruns(l: Layout, off: seq<nat>, csize: u64, outBytes: u64, r: nat)
    requires l.Valid() && ValidOffset(l, off) && LeavesFirst(l, off, csize, outBytes, r)
    ensures Verdict(l, off, csize, outBytes) == Overrun
  {
    OverrunAt(l, off, csize, outBytes, r);
    forall q | 0 <= q < r ensures RowVerdicts(l, off, csize, outBytes)[q] == Done { DoneAt(l, off, csize, outBytes, q); }
    StopDecides(RowVerdicts(l, off, csize, outBytes), 0, r);
  }

  /** The scatter overruns exactly if, at the first row it cannot simply copy, the checks pass by wrapping. */
  lemma {:induction false} OverrunIff(l: Layout, off: seq<nat>, csize: u64, outBytes: u64)
    requires l.Valid() && ValidOffset(l, off)
    ensures Verdict(l, off, csize, outBytes) == Overrun <==> exists r: nat :: LeavesFirst(l, off, csize, outBytes, r)
  {
    if Verdict(l, off, csize, outBytes) == Overrun {
      var r := OverrunLeaves(l, off, csize, outBytes);
    } else if r: nat :| LeavesFirst(l, off, csize, outBytes, r) {
      LeavesOverruns(l, off, csize, outBytes, r);
    }
  }

  /** Two dims of 2^64 - 1 and chunks of 1 by 16 bytes. */
  const HUGE := Layout([U64 - 1, U64 - 1], [1, 16], 1)

  lemma {:induction false} HugeSizes()
    ensures HUGE.Valid() && ValidOffset(HUGE, [16, 0]) && Bytes(Prod(HUGE.dims), 1) % U64 == 1
    ensures Prod(Lead(HUGE.cdims)) == 1
  {
    assert HUGE.dims[..1] == [U64 - 1] && HUGE.cdims[..1] == [1];
    ProdOne(U64 - 1);
    ProdOne(1);
  }

  lemma {:induction false} HugeRow()
    requires HUGE.Valid() && ValidOffset(HUGE, [16, 0]) && Prod(Lead(HUGE.cdims)) == 1
    ensures RowPos(HUGE, [16, 0], 0) == [16]
    ensures RowStart(HUGE, [16, 0], 0) == 16 * (U64 - 1)
  {
    assert HUGE.dims[..1] == [U64 - 1] && HUGE.cdims[..1] == [1];
    assert Unflat([1], 0) == [0];
    assert RowPos(HUGE, [16, 0], 0) == [16] && [16][..0] == [] && [U64 - 1][..0] == [];
  }

  /**
   * The size of this dataset wraps to one byte, and the row at (16, 0) passes both checks
   * although it starts 2^64 - 16 bytes into that byte.
   */
  lemma {:induction false} OverrunInput()
    ensures HUGE.Valid() && ValidOffset(HUGE, [16, 0]) && Bytes(Prod(HUGE.dims), 1) % U64 == 1
    ensures Verdict(HUGE, [16, 0], 16, 1) == Overrun
  {
    HugeSizes();
    HugeRow();
    assert DstAt(HUGE, [16, 0], 0) == U64 - 16;
    assert RowVerdicts(HUGE, [16, 0], 16, 1)[0] == Overrun;
  }

  /** With sizes that can be counted the two checks are exact. */
  lemma {:induction false} CountableChecks(l: Layout, off: seq<nat>, csize: nat, outBytes: nat, r: nat)
    requires l.Countable() && l.Valid() && ValidOffset(l, off) && r < Prod(Lead(l.cdims)) && RowLands(l, off, r) && l.esz > 0
    ensures ChecksPass(l, off, csize, outBytes, r) <==>
      && Bytes(RowFirst(l, r) + RunLength(l, off), l.esz) <= csize
      && Bytes(RowStart(l, off, r) + RunLength(l, off), l.esz) <= outBytes
    ensures SrcAt(l, r) == Bytes(RowFirst(l, r), l.esz) && DstAt(l, off, r) == Bytes(RowStart(l, off, r), l.esz)
    ensures ChecksPass(l, off, csize, outBytes, r) ==> InBuffers(l, off, csize, outBytes, r)
  {
    NoWrap(l, off, r);
    RunInChunk(l, off, r);
    Small(Bytes(RowStart(l, off, r), l.esz));
    Small(SrcAt(l, r) + RunBytes(l, off));
    Small(DstAt(l, off, r) + RunBytes(l, off));
  }

  /** The source of a row that lands lies in the chunk box. */
  lemma {:induction false} RunInChunk(l: Layout, off: seq<nat>, r: nat)
    requires l.Countable() && l.Valid() && ValidOffset(l, off) && r < Prod(Lead(l.cdims)) && RowLands(l, off, r) && l.esz > 0
    ensures Bytes(RowFirst(l, r) + RunLength(l, off), l.esz) < U64
  {
    ProdLead(l.cdims);
    var w := LastOr(l.cdims, 1);
    MulMonotone(r + 1, Prod(Lead(l.cdims)), w);
    assert (r + 1) * w == r * w + w;
    MulMonotone(RowFirst(l, r) + RunLength(l, off), Prod(l.cdims), l.esz);
  }

  lemma {:induction false} EmptyElements(l: Layout, off: seq<nat>, csize: nat, outBytes: nat, r: nat)
    requires l.Valid() && ValidOffset(l, off) && r < Prod(Lead(l.cdims)) && l.esz == 0
    ensures ChecksPass(l, off, csize, outBytes, r) && InBuffers(l, off, csize, outBytes, r)
    ensures SrcAt(l, r) == 0 && DstAt(l, off, r) == 0 && RunBytes(l, off) == 0
  {
  }

  lemma {:induction false} RowRejected(l: Layout, off: seq<nat>, csize: nat, outBytes: nat, r: nat)
    requires l.Countable() && l.Valid() && ValidOffset(l, off) && r < Prod(Lead(l.cdims)) && RowLands(l, off, r)
    requires !ChecksPass(l, off, csize, outBytes, r)
    ensures !AllFit(l, off, csize, outBytes)
  {
    if l.esz == 0 { EmptyElements(l, off, csize, outBytes, r); } else {
      CountableChecks(l, off, csize, outBytes, r);
      RowTooBig(l, off, csize, outBytes, r);
    }
  }

  /** With countable sizes a row that is not done is rejected, and rightly. */
  lemma {:induction false} RowStopped(l: Layout, off: seq<nat>, csize: nat, outBytes: nat, r: nat)
    requires l.Countable() && l.Valid() && ValidOffset(l, off) && r < Prod(Lead(l.cdims))
    requires RowVerdict(l, off, csize, outBytes, r) != Done
    ensures RowVerdict(l, off, csize, outBytes, r) == Rejected && !AllFit(l, off, csize, outBytes)
  {
    if l.esz == 0 { EmptyElements(l, off, csize, outBytes, r); } else { CountableChecks(l, off, csize, outBytes, r); }
    RowRejected(l, off, csize, outBytes, r);
  }

  /** The copy of a row that passes its checks. */
  lemma {:induction false} CheckedCopy(l: Layout, off: seq<nat>, csize: nat, outBytes: nat, r: nat)
    requires l.Countable() && l.Valid() && ValidOffset(l, off) && r < Prod(Lead(l.cdims)) && RowLands(l, off, r) && l.esz > 0
    requires ChecksPass(l, off, csize, outBytes, r) && FitBefore(l, off, csize, outBytes, r)
    ensures Copies(l, off, csize, r, DstAt(l, off, r), SrcAt(l, r), RunBytes(l, off))
    ensures DstAt(l, off, r) + RunBytes(l, off) <= outBytes && FitBefore(l, off, csize, outBytes, r + 1)
  {
    CountableChecks(l, off, csize, outBytes, r);
    NoWrap(l, off, r);
    RowFits(l, off, csize, outBytes, r);
  }

  /** A row copied within both buffers is progress. */
  lemma {:induction false} RowPlaced(l: Layout, off: seq<nat>, chunk: seq<byte>, before: seq<byte>, was: seq<byte>,
                                     now: seq<byte>, r: nat, base: nat, src: nat, len: nat)
    requires l.Countable() && l.Valid() && ValidOffset(l, off) && r < Prod(Lead(l.cdims)) && RowLands(l, off, r)
    requires ChecksPass(l, off, |chunk|, |was|, r) && Progress(l, off, chunk, before, was, r)
    requires base == DstAt(l, off, r) && src == SrcAt(l, r) && len == RunBytes(l, off)
    requires src + len <= |chunk| && base + len <= |was|
    requires now == was[..base] + chunk[src..src + len] + was[base + len..]
    ensures Progress(l, off, chunk, before, now, r + 1)
  {
    if l.esz == 0 {
      EmptyElements(l, off, |chunk|, |was|, r);
      assert now == was;
      ProgressSkip(l, off, chunk, before, was, r);
    } else {
      CheckedCopy(l, off, |chunk|, |was|, r);
      RowCopied(l, off, chunk, before, was, now, r, base, src, len);
    }
  }

  // --------------------------------------------------------------------------- the rows

  lemma {:induction false} WrapScaled(dst: nat, start: nat, n: nat, esz: nat)
    requires dst == start % U64
    ensures Bytes(dst, esz) % U64 == Bytes(start, esz) % U64
    ensures Bytes((dst + n) % U64, esz) % U64 == (Bytes(start, esz) % U64 + Bytes(n, esz)) % U64
  {
    WrapMul(start, esz);
    ModSum(start, n);
    WrapMul(start + n, esz);
    Spread(start, n, esz);
    ModSum(Bytes(start, esz), Bytes(n, esz));
  }

  lemma {:induction false} RunBytesSmall(l: Layout, off: seq<nat>)
    requires l.Valid()
    ensures RunBytes(l, off) < U64
  {
    MulMonotone(RunLength(l, off), U32, l.esz);
    MulMonotone(l.esz, U32, U32);
  }

  /** A row that lands: checked against both buffers, then copied. */
  method PlaceRow(l: Layout, off: seq<nat>, chunk: seq<byte>, out: array<byte>, r: nat, dst: nat, n: nat,
                  ghost before: seq<byte>) returns (v: Outcome)
    requires l.Valid() && ValidOffset(l, off) && r < Prod(Lead(l.cdims))
    requires RowLands(l, off, r) && dst == RowStart(l, off, r) % U64 && n == RunLength(l, off)
    requires l.Countable() ==> Progress(l, off, chunk, before, out[..], r)
    modifies out
    ensures v == RowVerdict(l, off, |chunk|, out.Length, r)
    ensures l.Countable() && v.Done? ==> Progress(l, off, chunk, before, out[..], r + 1)
  {
    WrapScaled(dst, RowStart(l, off, r), n, l.esz);
    RunBytesSmall(l, off);
    var src := Bytes(RowFirst(l, r), l.esz) % U64;
    var len := Bytes(n, l.esz);
    if (src + len) % U64 > |chunk| || Bytes((dst + n) % U64, l.esz) % U64 > out.Length { return Rejected; }
    var base := Bytes(dst, l.esz) % U64;
    if src + len > |chunk| || base + len > out.Length { return Overrun; }
    ghost var was := out[..];
    CopyBytes(chunk, out, src, base, len);
    if l.Countable() { RowPlaced(l, off, chunk, before, was, out[..], r, base, src, len); }
    v := Done;
  }

  /** The body of the row loop. */
  method ScatterRow(l: Layout, off: seq<nat>, stride: seq<nat>, chunk: seq<byte>, out: array<byte>, r: nat,
                    ghost before: seq<byte>) returns (v: Outcome)
    requires l.Valid() && ValidOffset(l, off) && r < Prod(Lead(l.cdims)) && |stride| == |l.dims|
    requires forall d :: 0 <= d < |l.dims| ==> stride[d] == Prod(l.dims[d + 1..]) % U64
    requires l.Countable() ==> Progress(l, off, chunk, before, out[..], r)
    modifies out
    ensures v == RowVerdict(l, off, |chunk|, out.Length, r)
    ensures l.Countable() && v.Done? ==> Progress(l, off, chunk, before, out[..], r + 1)
  {
    var n := RunLength(l, off);
    var idx := RowIndex(l, r);
    var oob := RowOutside(l, off, idx, r);
    if oob || n == 0 {
      if l.Countable() { ProgressSkip(l, off, chunk, before, out[..], r); }
      return Done;
    }
    var dst := RowElement(l, off, stride, idx, r);
    v := PlaceRow(l, off, chunk, out, r, dst, n, before);
  }

  /** State of the row loop: the rows before `r` are done. */
  ghost predicate AtRow(l: Layout, off: seq<nat>, chunk: seq<byte>, before: seq<byte>, after: seq<byte>, r: nat)
    requires l.Valid() && ValidOffset(l, off)
  {
    && Verdict(l, off, |chunk|, |before|) == FirstStop(RowVerdicts(l, off, |chunk|, |before|), r)
    && (l.Countable() ==> Progress(l, off, chunk, before, after, r))
  }

  lemma {:induction false} GoOn(l: Layout, off: seq<nat>, csize: nat, outBytes: nat, r: nat)
    requires l.Valid() && ValidOffset(l, off) && r < Rows(l) && RowVerdict(l, off, csize, outBytes, r) == Done
    ensures
      var vs := RowVerdicts(l, off, csize, outBytes);
      FirstStop(vs, r) == FirstStop(vs, r + 1)
  {
    assert RowVerdicts(l, off, csize, outBytes)[r] == Done;
  }

  lemma {:induction false} StopHere(l: Layout, off: seq<nat>, csize: nat, outBytes: nat, r: nat)
    requires l.Valid() && ValidOffset(l, off) && r < Rows(l) && RowVerdict(l, off, csize, outBytes, r) != Done
    ensures FirstStop(RowVerdicts(l, off, csize, outBytes), r) == RowVerdict(l, off, csize, outBytes, r)
  {
    assert RowVerdicts(l, off, csize, outBytes)[r] == RowVerdict(l, off, csize, outBytes, r);
  }

  lemma {:induction false} NextRow(l: Layout, off: seq<nat>, chunk: seq<byte>, before: seq<byte>, was: seq<byte>,
                                   now: seq<byte>, r: nat)
    requires l.Valid() && ValidOffset(l, off) && r < Rows(l) && AtRow(l, off, chunk, before, was, r)
    requires RowVerdict(l, off, |chunk|, |before|, r) == Done
    requires l.Countable() ==> Progress(l, off, chunk, before, now, r + 1)
    ensures AtRow(l, off, chunk, before, now, r + 1)
  {
    GoOn(l, off, |chunk|, |before|, r);
  }

  /** What the scatter promises. */
  ghost predicate ScatteredAs(l: Layout, off: seq<nat>, chunk: seq<byte>, before: seq<byte>, after: seq<byte>, v: Outcome)
    requires l.Valid() && ValidOffset(l, off)
  {
    && v == Verdict(l, off, |chunk|, |before|)
    && (l.Countable() ==> v != Overrun && (v.Done? <==> AllFit(l, off, |chunk|, |before|)))
    && (l.Countable() && v.Done? ==> after == Scattered(l, off, chunk, before))
  }

  lemma {:induction false} StopAtRow(l: Layout, off: seq<nat>, chunk: seq<byte>, before: seq<byte>, was: seq<byte>,
                                     now: seq<byte>, r: nat, v: Outcome)
    requires l.Valid() && ValidOffset(l, off) && r < Rows(l) && AtRow(l, off, chunk, before, was, r)
    requires v == RowVerdict(l, off, |chunk|, |before|, r) && v != Done
    ensures ScatteredAs(l, off, chunk, before, now, v)
  {
    StopHere(l, off, |chunk|, |before|, r);
    if l.Countable() { RowStopped(l, off, |chunk|, |before|, r); }
  }

  lemma {:induction false} AfterLastRow(l: Layout, off: seq<nat>, chunk: seq<byte>, before: seq<byte>, after: seq<byte>)
    requires l.Valid() && ValidOffset(l, off) && AtRow(l, off, chunk, before, after, Rows(l))
    ensures ScatteredAs(l, off, chunk, before, after, Done)
  {
    if l.Countable() { ProgressEnd(l, off, chunk, before, after); }
  }

  /**
   * Scatters one chunk, for any header. Its verdict is that of the first row that is not simply copied;
   * with sizes that can be counted in 64 bits it never overruns, succeeds exactly when everything
   * the chunk supplies fits both buffers, and then the output is the pointwise specification.
   */
  method Scatter(l: Layout, off: seq<nat>, stride: seq<nat>, chunk: seq<byte>, out: array<byte>) returns (v: Outcome)
    requires l.Valid() && ValidOffset(l, off)
    requires |stride| == |l.dims|
    requires forall d :: 0 <= d < |l.dims| ==> stride[d] == Prod(l.dims[d + 1..]) % U64
    modifies out
    ensures v == Verdict(l, off, |chunk|, out.Length)
    ensures l.Countable() ==> v != Overrun && (v.Done? <==> AllFit(l, off, |chunk|, out.Length))
    ensures l.Countable() && v.Done? ==> out[..] == Scattered(l, off, chunk, old(out[..]))
  {
    ghost var before := out[..];
    v := ScatterRows(l, off, stride, chunk, out);
    assert ScatteredAs(l, off, chunk, before, out[..], v);
  }

  /** The row loop. */
  method ScatterRows(l: Layout, off: seq<nat>, stride: seq<nat>, chunk: seq<byte>, out: array<byte>) returns (v: Outcome)
    requires l.Valid() && ValidOffset(l, off)
    requires |stride| == |l.dims|
    requires forall d :: 0 <= d < |l.dims| ==> stride[d] == Prod(l.dims[d + 1..]) % U64
    modifies out
    ensures ScatteredAs(l, off, chunk, old(out[..]), out[..], v)
  {
    ghost var before := out[..];
    var rows := RowCount(l.cdims);
    FirstRow(l, off, chunk, before);
    for r := 0 to rows
      invariant AtRow(l, off, chunk, before, out[..], r)
    {
      v := RowStep(l, off, stride, chunk, out, r, before);
      if !v.Done? { return; }
    }
    AfterLastRow(l, off, chunk, before, out[..]);
    v := Done;
  }

  lemma {:induction false} FirstRow(l: Layout, off: seq<nat>, chunk: seq<byte>, before: seq<byte>)
    requires l.Valid() && ValidOffset(l, off)
    ensures AtRow(l, off, chunk, before, before, 0)
  {
  }

  method RowStep(l: Layout, off: seq<nat>, stride: seq<nat>, chunk: seq<byte>, out: array<byte>, r: nat,
                 ghost before: seq<byte>) returns (v: Outcome)
    requires l.Valid() && ValidOffset(l, off) && |stride| == |l.dims| && r < Rows(l)
    requires forall d :: 0 <= d < |l.dims| ==> stride[d] == Prod(l.dims[d + 1..]) % U64
    requires out.Length == |before| && AtRow(l, off, chunk, before, out[..], r)
    modifies out
    ensures v.Done? ==> AtRow(l, off, chunk, before, out[..], r + 1)
    ensures !v.Done? ==> ScatteredAs(l, off, chunk, before, out[..], v)
  {
    ghost var was := out[..];
    v := ScatterRow(l, off, stride, chunk, out, r, before);
    if v.Done? {
      NextRow(l, off, chunk, before, was, out[..], r);
    } else {
      StopAtRow(l, off, chunk, before, was, out[..], r, v);
    }
  }
}

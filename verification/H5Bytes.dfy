/** What it means that a file holds some bytes, as its writer put them there: the format side of the HDF5 reader. */
module H5Bytes {
  import opened Words
  import opened LittleEndian
  import opened H5File

  /** File `f` holds `b` from position `at` on. */
  ghost predicate HasBytes(f: File, at: nat, b: seq<byte>) {
    at + |b| <= |f.bytes| && f.bytes[at..at + |b|] == b
  }

  lemma {:induction false} HasSplit(f: File, at: nat, a: seq<byte>, b: seq<byte>)
    requires HasBytes(f, at, a + b)
    ensures HasBytes(f, at, a) && HasBytes(f, at + |a|, b)
  {
    assert f.bytes[at..at + |a|] == (a + b)[..|a|] == a;
    assert f.bytes[at + |a|..at + |a + b|] == (a + b)[|a|..] == b;
  }

  /** A positioned read gives back what was written there. */
  lemma {:induction false} HasRead(f: File, at: nat, b: seq<byte>)
    requires HasBytes(f, at, b)
    ensures f.Read(at, |b|) == Some(b)
  {
  }

  /** Positions in a file are far below 2^64. */
  lemma {:induction false} HasReadWrapped(f: File, at: nat, b: seq<byte>)
    requires f.Valid() && HasBytes(f, at, b)
    ensures at % U64 == at && f.Read(at % U64, |b|) == Some(b)
  {
  }

  lemma {:induction false} NumberRead(f: File, at: nat, v: nat, n: nat)
    requires f.Valid() && v < Pow256(n) && HasBytes(f, at, Encode(v, n))
    ensures f.Read(at % U64, n) == Some(Encode(v, n)) && Value(Encode(v, n)) == v
  {
    HasReadWrapped(f, at, Encode(v, n));
    ValueEncode(v, n);
  }

  /** An address that can be stored, and is not the undefined one. */
  predicate Address(f: File, a: nat) { a < Pow256(f.osize) - 1 }

  lemma {:induction false} AddressDefined(f: File, a: nat)
    requires f.Valid() && Address(f, a)
    ensures !f.Undefined(a) && a < U64 && Value(Encode(a, f.osize)) == a
  {
    Pow256Monotone(f.osize, 8);
    Widths();
    ValueEncode(a, f.osize);
  }

  lemma {:induction false} SmallEncode(v: nat, n: nat)
    requires (n == 2 && v < 0x1_0000) || (n == 4 && v < U32) || (n == 8 && v < U64)
    ensures Value(Encode(v, n)) == v
  {
    Widths();
    ValueEncode(v, n);
  }

  /** Numbers of a fixed width, one after the other. */
  function Numbers(vs: seq<nat>, width: nat): seq<byte> {
    if vs == [] then [] else Encode(vs[0], width) + Numbers(vs[1..], width)
  }

  lemma {:induction false} NumbersLength(vs: seq<nat>, width: nat)
    ensures |Numbers(vs, width)| == width * |vs|
  {
    if vs != [] {
      NumbersLength(vs[1..], width);
      assert width * |vs| == width + width * (|vs| - 1);
    }
  }

  lemma {:induction false} Later(a: seq<byte>, b: seq<byte>, i: nat, j: nat)
    requires i <= j <= |b|
    ensures (a + b)[|a| + i..|a| + j] == b[i..j]
  {
  }

  lemma {:induction false} NumberAt(vs: seq<nat>, width: nat, d: nat)
    requires d < |vs|
    ensures width * d + width <= |Numbers(vs, width)|
    ensures Numbers(vs, width)[width * d..width * d + width] == Encode(vs[d], width)
    decreases |vs|
  {
    var first, rest := Encode(vs[0], width), Numbers(vs[1..], width);
    if d == 0 {
      assert width * d == 0 && (first + rest)[0..width] == first;
    } else {
      NumberAt(vs[1..], width, d - 1);
      assert width * d == width + width * (d - 1);
      Later(first, rest, width * (d - 1), width * (d - 1) + width);
    }
  }

  /** Size of `i` records of one size. */
  function Skipped(size: nat, i: nat): nat { if i == 0 then 0 else size + Skipped(size, i - 1) }

  lemma {:induction false} SkippedTimes(size: nat, i: nat)
    ensures Skipped(size, i) == i * size
    decreases i
  {
    if i > 0 {
      SkippedTimes(size, i - 1);
      assert i * size == size + (i - 1) * size;
    }
  }

  /** Records one after the other. */
  function Join(rs: seq<seq<byte>>): seq<byte> { if rs == [] then [] else rs[0] + Join(rs[1..]) }

  lemma {:induction false} RecordAt(f: File, size: nat, at: nat, rs: seq<seq<byte>>, i: nat)
    requires HasBytes(f, at, Join(rs)) && i < |rs| && forall j :: 0 <= j < |rs| ==> |rs[j]| == size
    ensures HasBytes(f, at + Skipped(size, i), rs[i])
    decreases i
  {
    HasSplit(f, at, rs[0], Join(rs[1..]));
    if i > 0 {
      assert forall j :: 0 <= j < |rs[1..]| ==> rs[1..][j] == rs[j + 1];
      RecordAt(f, size, at + size, rs[1..], i - 1);
    }
  }
}

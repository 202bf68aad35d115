/** Little-endian integers, as the HDF5 reader decodes them and the logs write them. */
module LittleEndian {
  import opened Words

  function Pow256(n: nat): (r: nat)
    ensures r > 0
  {
    if n == 0 then 1 else 256 * Pow256(n - 1)
  }

  function Value(p: seq<byte>): (v: nat)
    ensures v < Pow256(|p|)
  {
    if p == [] then 0 else p[0] + 256 * Value(p[1..])
  }

  function Encode(v: nat, n: nat): (p: seq<byte>)
    ensures |p| == n
  {
    if n == 0 then [] else [v % 256] + Encode(v / 256, n - 1)
  }

  /** Decoding undoes encoding for every value that fits. */
  lemma {:induction false} ValueEncode(v: nat, n: nat)
    requires v < Pow256(n)
    ensures Value(Encode(v, n)) == v
  {
    if n > 0 {
      ValueEncode(v / 256, n - 1);
      assert Encode(v, n)[1..] == Encode(v / 256, n - 1);
    }
  }

  lemma {:induction false} ValueSnoc(p: seq<byte>, b: byte)
    ensures Value(p + [b]) == Value(p) + b * Pow256(|p|)
  {
    if p == [] {
      assert p + [b] == [b];
    } else {
      ValueSnoc(p[1..], b);
      assert (p + [b])[1..] == p[1..] + [b];
      assert 256 * (b * Pow256(|p| - 1)) == b * (256 * Pow256(|p| - 1));
    }
  }

  lemma Widths()
    ensures Pow256(2) == 0x1_0000 && Pow256(4) == U32 && Pow256(8) == U64
  {
    assert Pow256(1) == 256;
    assert Pow256(3) == 256 * Pow256(2);
    assert Pow256(5) == 256 * Pow256(4);
    assert Pow256(7) == 256 * Pow256(6);
  }

  lemma {:induction false} Pow256Monotone(a: nat, b: nat)
    requires a <= b
    ensures Pow256(a) <= Pow256(b)
    decreases b
  {
    if a < b { Pow256Monotone(a, b - 1); }
  }

  // ------------------------------------------------------------------------ bits

  function Pow2(k: nat): (r: nat)
    ensures r > 0
  {
    if k == 0 then 1 else 2 * Pow2(k - 1)
  }

  /** Bitwise or. */
  function Or(a: nat, b: nat): nat
    decreases a + b
  {
    if a == 0 && b == 0 then 0
    else (if a % 2 == 1 || b % 2 == 1 then 1 else 0) + 2 * Or(a / 2, b / 2)
  }

  /** A 64-bit shift to the left. */
  function Shl(v: nat, k: nat): nat { v * Pow2(k) % U64 }

  lemma {:induction false} OrZero(b: nat)
    ensures Or(0, b) == b
  {
    if b > 0 { OrZero(b / 2); }
  }

  /** Or adds when the second number starts above the bits of the first. */
  lemma {:induction false} OrDisjoint(a: nat, b: nat, k: nat)
    requires a < Pow2(k)
    ensures Or(a, b * Pow2(k)) == a + b * Pow2(k)
  {
    if k == 0 {
      OrZero(b * Pow2(k));
    } else {
      var c := b * Pow2(k - 1);
      assert b * Pow2(k) == 2 * c;
      OrDisjoint(a / 2, b, k - 1);
      assert 2 * c / 2 == c && 2 * c % 2 == 0;
    }
  }

  lemma {:induction false} BytesAreBits(n: nat)
    ensures Pow2(8 * n) == Pow256(n)
  {
    if n > 0 {
      BytesAreBits(n - 1);
      EightMore(8 * n - 8);
    }
  }

  lemma EightMore(k: nat)
    ensures Pow2(k + 8) == 256 * Pow2(k)
  {
    assert Pow2(k + 2) == 4 * Pow2(k);
    assert Pow2(k + 4) == 4 * Pow2(k + 2);
    assert Pow2(k + 6) == 4 * Pow2(k + 4);
  }

  lemma ShiftedByte(b: byte, i: nat)
    requires i < 8
    ensures Shl(b, 8 * i) == b * Pow256(i)
  {
    BytesAreBits(i);
    Pow256Monotone(i + 1, 8);
    Widths();
    BelowNext(b, Pow256(i));
  }

  lemma BelowNext(b: byte, w: nat)
    requires 0 < w && 256 * w <= U64
    ensures b * w % U64 == b * w
  {
    assert b * w <= 255 * w;
  }

  lemma OrByte(p: seq<byte>, b: byte)
    requires |p| < 8
    ensures Or(Value(p), Shl(b, 8 * |p|)) == Value(p + [b])
  {
    ShiftedByte(b, |p|);
    ValueSnoc(p, b);
    BytesAreBits(|p|);
    OrDisjoint(Value(p), b, 8 * |p|);
  }

  /** The shift-and-or decoding loop. */
  method Decode(p: seq<byte>) returns (v: nat)
    requires |p| <= 8
    ensures v == Value(p) && v < U64
  {
    v := 0;
    assert p[..0] == [];
    for i := 0 to |p|
      invariant v == Value(p[..i])
    {
      OrByte(p[..i], p[i]);
      assert p[..i] + [p[i]] == p[..i + 1];
      v := Or(v, Shl(p[i], 8 * i));
    }
    assert p[..|p|] == p;
    Widths();
    Pow256Monotone(|p|, 8);
  }
}

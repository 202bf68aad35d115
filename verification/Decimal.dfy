/** Decimal numbers in text: printing, and parsing as the C++ library does it. */
module Decimal {
  import opened Words

  datatype Error = InvalidArgument | OutOfRange
  datatype Result<+T> = Ok(value: T) | Err(error: Error)

  function Digit(d: nat): char
    requires d < 10
  {
    ['0', '1', '2', '3', '4', '5', '6', '7', '8', '9'][d]
  }

  predicate IsDigit(c: char) { '0' <= c <= '9' }

  function DigitValue(c: char): nat
    requires IsDigit(c)
  {
    c as int - '0' as int
  }

  function Print(n: nat): string {
    if n < 10 then [Digit(n)] else Print(n / 10) + [Digit(n % 10)]
  }

  /** The value of a string of digits. */
  function Number(s: string): nat
    requires forall c :: c in s ==> IsDigit(c)
    decreases |s|
  {
    if s == [] then 0 else 10 * Number(s[..|s| - 1]) + DigitValue(s[|s| - 1])
  }

  /** The longest prefix of digits. */
  function Digits(s: string): (d: string)
    ensures d <= s && forall c :: c in d ==> IsDigit(c)
    decreases |s|
  {
    if s == [] || !IsDigit(s[0]) then [] else [s[0]] + Digits(s[1..])
  }

  predicate IsSpace(c: char) { c in {' ', '\t', '\n', '\U{0B}', '\U{0C}', '\r'} }

  function SkipSpaces(s: string): string
    decreases |s|
  {
    if s != [] && IsSpace(s[0]) then SkipSpaces(s[1..]) else s
  }

  /**
   * std::stoul and std::stoull with 64-bit results: leading space, an optional sign, and digits
   * up to the first other character. A minus negates modulo 2^64.
   */
  function Parse(s: string): Result<u64> { ParseSigned(SkipSpaces(s)) }

  function ParseSigned(t: string): Result<u64> {
    if t != [] && (t[0] == '-' || t[0] == '+') then ParseDigits(Digits(t[1..]), t[0] == '-') else ParseDigits(Digits(t), false)
  }

  function ParseDigits(digits: string, negative: bool): Result<u64>
    requires forall c :: c in digits ==> IsDigit(c)
  {
    if digits == [] then Err(InvalidArgument)
    else if Number(digits) >= U64 then Err(OutOfRange)
    else Ok(if negative then (U64 - Number(digits)) % U64 else Number(digits))
  }

  lemma DigitBack(d: nat)
    requires d < 10
    ensures IsDigit(Digit(d)) && DigitValue(Digit(d)) == d
  {
  }

  lemma NumberSnoc(s: string, c: char)
    requires (forall x :: x in s ==> IsDigit(x)) && IsDigit(c)
    ensures (forall x :: x in s + [c] ==> IsDigit(x)) && Number(s + [c]) == 10 * Number(s) + DigitValue(c)
  {
    assert (s + [c])[..|s|] == s;
  }

  lemma {:induction false} PrintDigits(n: nat)
    ensures Print(n) != [] && (forall c :: c in Print(n) ==> IsDigit(c)) && Number(Print(n)) == n
  {
    DigitBack(n % 10);
    if n < 10 {
      NumberSnoc([], Digit(n));
      assert [] + [Digit(n)] == [Digit(n)];
    } else {
      PrintDigits(n / 10);
      NumberSnoc(Print(n / 10), Digit(n % 10));
    }
  }

  lemma {:induction false} DigitsAll(s: string)
    requires forall c :: c in s ==> IsDigit(c)
    ensures Digits(s) == s
    decreases |s|
  {
    if s != [] { DigitsAll(s[1..]); }
  }

  /** Parsing a printed number gives the number back, for all 64-bit values. */
  lemma ParsePrint(n: u64)
    ensures Parse(Print(n)) == Ok(n)
  {
    PrintDigits(n);
    DigitsAll(Print(n));
    assert IsDigit(Print(n)[0]);
  }

  lemma {:induction false} SpacesSkipped(sp: string, s: string)
    requires (forall c :: c in sp ==> IsSpace(c)) && (s == [] || !IsSpace(s[0]))
    ensures SkipSpaces(sp + s) == s
    decreases |sp|
  {
    if sp == [] {
      assert sp + s == s;
    } else {
      assert (sp + s)[0] == sp[0] && (sp + s)[1..] == sp[1..] + s;
      SpacesSkipped(sp[1..], s);
    }
  }

  lemma {:induction false} DigitsStop(d: string, tail: string)
    requires (forall c :: c in d ==> IsDigit(c)) && (tail == [] || !IsDigit(tail[0]))
    ensures Digits(d + tail) == d
    decreases |d|
  {
    if d == [] {
      assert d + tail == tail;
    } else {
      assert (d + tail)[0] == d[0] && (d + tail)[1..] == d[1..] + tail;
      DigitsStop(d[1..], tail);
      assert [d[0]] + d[1..] == d;
    }
  }

  /**
   * What is accepted: spaces, at most one sign, a number, and anything that does not continue it. A
   * minus negates modulo 2^64; a number of more than 64 bits is out of range.
   */
  lemma ParseForm(sp: string, sign: string, n: nat, tail: string)
    requires (forall c :: c in sp ==> IsSpace(c)) && sign in ["", "+", "-"] && (tail == [] || !IsDigit(tail[0]))
    ensures Parse(sp + sign + Print(n) + tail) == Signed(n, sign == "-")
  {
    PrintDigits(n);
    var t := sign + (Print(n) + tail);
    assert sp + sign + Print(n) + tail == sp + t;
    assert (Print(n) + tail)[0] == Print(n)[0] && IsDigit(Print(n)[0]);
    assert sign == "" ==> t == Print(n) + tail;
    SpacesSkipped(sp, t);
    SignedForm(sign, n, tail);
  }

  function Signed(n: nat, negative: bool): Result<u64> {
    if n >= U64 then Err(OutOfRange) else Ok(if negative && n > 0 then U64 - n else n)
  }

  lemma DigitsForm(n: nat, negative: bool)
    ensures (forall c :: c in Print(n) ==> IsDigit(c)) && ParseDigits(Print(n), negative) == Signed(n, negative)
  {
    PrintDigits(n);
  }

  lemma WithSign(c: char, b: string)
    requires c == '-' || c == '+'
    ensures ParseSigned([c] + b) == ParseDigits(Digits(b), c == '-')
  {
    assert ([c] + b)[1..] == b;
  }

  lemma WithoutSign(t: string)
    requires t != [] && IsDigit(t[0])
    ensures ParseSigned(t) == ParseDigits(Digits(t), false)
  {
  }

  lemma SignedForm(sign: string, n: nat, tail: string)
    requires sign in ["", "+", "-"] && (tail == [] || !IsDigit(tail[0]))
    ensures ParseSigned(sign + (Print(n) + tail)) == Signed(n, sign == "-")
  {
    var b := Print(n) + tail;
    DigitsForm(n, sign == "-");
    DigitsStop(Print(n), tail);
    if sign == "" {
      PrintDigits(n);
      assert sign + b == b && b[0] == Print(n)[0];
      WithoutSign(b);
    } else {
      WithSign(sign[0], b);
      assert sign == [sign[0]];
    }
  }

  // --------------------------------------------------------------------------- searching

  /** Position of the first `c`, or the length of the string. */
  function Find(s: string, c: char): (i: nat)
    ensures i <= |s| && c !in s[..i] && (i < |s| ==> s[i] == c)
    decreases |s|
  {
    if s == [] || s[0] == c then 0 else 1 + Find(s[1..], c)
  }

  lemma {:induction false} FindAt(a: string, c: char, b: string)
    requires c !in a
    ensures Find(a + [c] + b, c) == |a|
    decreases |a|
  {
    var s := a + [c] + b;
    if a != [] {
      assert s[1..] == a[1..] + [c] + b;
      FindAt(a[1..], c, b);
    }
  }

  lemma FindNone(a: string, c: char)
    requires c !in a
    ensures Find(a, c) == |a|
  {
  }

  lemma PrintHasNo(n: nat, c: char)
    requires !IsDigit(c)
    ensures c !in Print(n)
  {
    PrintDigits(n);
  }
}

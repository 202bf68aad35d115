/** Cutting an object path into components, as strtok_r does it, and the fixed buffer it is done in. */
module PathText {
  import opened Words

  const SLASH: byte := 47
  /** Bytes of a path that fit in the buffer. */
  const KEPT := 511

  function Kept(path: seq<byte>): seq<byte> { path[..Min(|path|, KEPT)] }

  /** Length of the component at the start of `s`. */
  function Run(s: seq<byte>): (n: nat)
    ensures n <= |s| && (n < |s| ==> s[n] == SLASH)
    ensures forall i :: 0 <= i < n ==> s[i] != SLASH
  {
    if s == [] || s[0] == SLASH then 0 else 1 + Run(s[1..])
  }

  /** The components: the runs between slashes. */
  function Tokens(s: seq<byte>): seq<seq<byte>>
    decreases |s|
  {
    if s == [] then []
    else if s[0] == SLASH then Tokens(s[1..])
    else [s[..Run(s)]] + Tokens(s[Run(s)..])
  }

  // --------------------------------------------------------------- what components are

  /** No component is empty or contains a slash. */
  lemma {:induction false} TokensPlain(s: seq<byte>)
    ensures Plain(Tokens(s))
    decreases |s|
  {
    if s != [] {
      if s[0] == SLASH { TokensPlain(s[1..]); } else { TokensPlain(s[Run(s)..]); }
    }
  }

  lemma {:induction false} RunJoin(a: seq<byte>, b: seq<byte>)
    ensures Run(a + [SLASH] + b) == Run(a)
  {
    if a == [] {
      assert (a + [SLASH] + b)[0] == SLASH;
    } else {
      assert (a + [SLASH] + b)[1..] == a[1..] + [SLASH] + b;
      RunJoin(a[1..], b);
    }
  }

  /** The components of two joined paths are those of the first, then those of the second. */
  lemma {:induction false} TokensJoin(a: seq<byte>, b: seq<byte>)
    ensures Tokens(a + [SLASH] + b) == Tokens(a) + Tokens(b)
    decreases |a|
  {
    var s := a + [SLASH] + b;
    if a == [] {
      assert s[1..] == b;
    } else if a[0] == SLASH {
      assert s[1..] == a[1..] + [SLASH] + b;
      TokensJoin(a[1..], b);
    } else {
      var n := Run(a);
      RunJoin(a, b);
      SplitJoin(a, b, n);
      TokensJoin(a[n..], b);
      assert Tokens(s) == [a[..n]] + Tokens(a[n..] + [SLASH] + b);
      assert [a[..n]] + (Tokens(a[n..]) + Tokens(b)) == ([a[..n]] + Tokens(a[n..])) + Tokens(b);
    }
  }

  lemma SplitJoin(a: seq<byte>, b: seq<byte>, n: nat)
    requires n <= |a|
    ensures
      var s := a + [SLASH] + b;
      s[..n] == a[..n] && s[n..] == a[n..] + [SLASH] + b
  {
  }

  // --------------------------------------------------------------------- cutting a path

  /** The bytes other than slashes. */
  function Letters(s: seq<byte>): (r: seq<byte>)
    ensures |r| == 0 <==> forall i :: 0 <= i < |s| ==> s[i] == SLASH
  {
    if s == [] then []
    else (if s[0] == SLASH then [] else [s[0]]) + Letters(s[1..])
  }

  function Flat(ts: seq<seq<byte>>): seq<byte> { if ts == [] then [] else ts[0] + Flat(ts[1..]) }

  lemma {:induction false} LettersJoin(a: seq<byte>, b: seq<byte>)
    ensures Letters(a + b) == Letters(a) + Letters(b)
  {
    if a == [] {
      assert a + b == b;
    } else {
      assert (a + b)[1..] == a[1..] + b;
      LettersJoin(a[1..], b);
    }
  }

  lemma {:induction false} LettersPlain(s: seq<byte>)
    requires SLASH !in s
    ensures Letters(s) == s
  {
    if s != [] {
      LettersPlain(s[1..]);
      assert s == [s[0]] + s[1..];
    }
  }

  /** The components hold every byte that is not a slash, in order. */
  lemma {:induction false} FlatTokens(s: seq<byte>)
    ensures Flat(Tokens(s)) == Letters(s)
    decreases |s|
  {
    if s != [] {
      if s[0] == SLASH {
        FlatTokens(s[1..]);
      } else {
        var n := Run(s);
        FlatTokens(s[n..]);
        assert s == s[..n] + s[n..];
        LettersJoin(s[..n], s[n..]);
        LettersPlain(s[..n]);
        var ts := Tokens(s);
        assert ts[0] == s[..n] && ts[1..] == Tokens(s[n..]);
      }
    }
  }

  lemma {:induction false} AllSlashes(s: seq<byte>)
    requires forall i :: 0 <= i < |s| ==> s[i] == SLASH
    ensures Tokens(s) == []
  {
    if s != [] { AllSlashes(s[1..]); }
  }

  /** A cut path has the components of the whole exactly if only slashes were cut off. */
  lemma {:induction false} CutIff(path: seq<byte>, n: nat)
    requires n <= |path|
    ensures Tokens(path[..n]) == Tokens(path) <==> forall k :: n <= k < |path| ==> path[k] == SLASH
  {
    var a, b := path[..n], path[n..];
    assert path == a + b;
    if Tokens(a) == Tokens(path) {
      FlatTokens(a);
      FlatTokens(path);
      LettersJoin(a, b);
      assert |Letters(b)| == 0;
      forall k | n <= k < |path| ensures path[k] == SLASH { assert path[k] == b[k - n]; }
    }
    if forall k :: n <= k < |path| ==> path[k] == SLASH {
      if b == [] {
        assert path == a;
      } else {
        assert b[0] == path[n] && path == a + [SLASH] + b[1..];
        TokensJoin(a, b[1..]);
        forall i | 0 <= i < |b[1..]| ensures b[1..][i] == SLASH { assert b[1..][i] == path[n + 1 + i]; }
        AllSlashes(b[1..]);
      }
    }
  }

  /** So the buffer keeps the meaning of a path exactly if only slashes stand past its end. */
  lemma KeptIff(path: seq<byte>)
    ensures Tokens(Kept(path)) == Tokens(path) <==> forall k :: 511 <= k < |path| ==> path[k] == SLASH
  {
    CutIff(path, Min(|path|, KEPT));
  }

  /** Two paths of 512 bytes that differ in the last one only are the same to the buffer. */
  lemma CutPathsClash(a: byte, b: byte)
    requires a != b && a != SLASH && b != SLASH
    ensures
      var x: seq<byte> := seq(KEPT, _ => 97);
      Tokens(Kept(x + [a])) == Tokens(Kept(x + [b])) && Tokens(x + [a]) != Tokens(x + [b])
  {
    var x: seq<byte> := seq(KEPT, _ => 97);
    assert Kept(x + [a]) == x && Kept(x + [b]) == x;
    FlatTokens(x + [a]);
    FlatTokens(x + [b]);
    LettersPlain(x + [a]);
    LettersPlain(x + [b]);
    assert (x + [a])[KEPT] != (x + [b])[KEPT];
  }

  // ------------------------------------------------------------- from components to a path

  /** A path with the given components. */
  function Joined(ts: seq<seq<byte>>): seq<byte>
    decreases |ts|
  {
    if ts == [] then [] else Joined(ts[..|ts| - 1]) + [SLASH] + ts[|ts| - 1]
  }

  ghost predicate Plain(ts: seq<seq<byte>>) {
    forall i :: 0 <= i < |ts| ==> ts[i] != [] && SLASH !in ts[i]
  }

  lemma {:induction false} RunPlain(t: seq<byte>)
    requires SLASH !in t
    ensures Run(t) == |t|
  {
    if t != [] { RunPlain(t[1..]); }
  }

  lemma {:induction false} TokensOfJoined(ts: seq<seq<byte>>)
    requires Plain(ts)
    ensures Tokens(Joined(ts)) == ts
    decreases |ts|
  {
    if ts != [] {
      var n := |ts| - 1;
      TokensOfJoined(ts[..n]);
      TokensJoin(Joined(ts[..n]), ts[n]);
      RunPlain(ts[n]);
      assert ts[n][..|ts[n]|] == ts[n] && ts[n][|ts[n]|..] == [];
      assert ts == ts[..n] + [ts[n]];
    }
  }

  /** A list of names can be written as a path if and only if none is empty or contains a slash. */
  lemma JoinedIff(ts: seq<seq<byte>>)
    ensures Tokens(Joined(ts)) == ts <==> Plain(ts)
  {
    TokensPlain(Joined(ts));
    if Plain(ts) { TokensOfJoined(ts); }
  }

  /** Every path has the components of its normal form. */
  lemma NormalForm(s: seq<byte>)
    ensures Tokens(Joined(Tokens(s))) == Tokens(s)
  {
    TokensPlain(s);
    TokensOfJoined(Tokens(s));
  }

  // ------------------------------------------------------------------------------- code

  /** The first position from `i` on without a slash. */
  method SkipSlashes(s: seq<byte>, i: nat) returns (from: nat)
    requires i <= |s|
    ensures i <= from <= |s| && (from < |s| ==> s[from] != SLASH) && Tokens(s[i..]) == Tokens(s[from..])
  {
    from := i;
    while from < |s| && s[from] == SLASH
      invariant i <= from <= |s| && Tokens(s[i..]) == Tokens(s[from..])
    {
      assert s[from..][1..] == s[from + 1..];
      from := from + 1;
    }
  }

  /** The first slash from `from` on, or the end. */
  method FindSlash(s: seq<byte>, from: nat) returns (next: nat)
    requires from <= |s|
    ensures from <= next <= |s| && Run(s[from..]) == next - from
  {
    next := from;
    assert s[next..] == s[from..];
    while next < |s| && s[next] != SLASH
      invariant from <= next <= |s| && Run(s[from..]) == next - from + Run(s[next..])
    {
      assert s[next..][1..] == s[next + 1..];
      next := next + 1;
    }
  }

  /** strtok_r: the component at or after position `i`, and where to go on. */
  method NextToken(s: seq<byte>, i: nat) returns (tok: Option<seq<byte>>, next: nat)
    requires i <= |s|
    ensures tok.None? ==> Tokens(s[i..]) == []
    ensures tok.Some? ==> i < next <= |s| && Tokens(s[i..]) == [tok.value] + Tokens(s[next..])
  {
    var from := SkipSlashes(s, i);
    if from == |s| { return None, from; }
    next := FindSlash(s, from);
    assert s[from..][..next - from] == s[from..next] && s[from..][next - from..] == s[next..];
    tok := Some(s[from..next]);
  }
}

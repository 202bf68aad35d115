/**
 * Names in a group are read into a fixed buffer, so longer ones are cut: when a search
 * of the cut names finds what a search of the whole names would.
 */
module NameCut {
  import opened Words
  import opened H5File
  import opened GroupSearch

  /** The whole heap string: bytes up to the first zero, if there is one. */
  ghost function WholeName(f: File, at: nat): Option<seq<byte>>
    decreases |f.bytes| - at
  {
    if at >= |f.bytes| then None
    else if f.bytes[at] == 0 then Some([])
    else
      match WholeName(f, at + 1)
      case None => None
      case Some(rest) => Some([f.bytes[at]] + rest)
  }

  function CutName(name: seq<byte>, n: nat): seq<byte> { name[..Min(|name|, n)] }

  /** What is read of a terminated name is the name, cut. */
  lemma {:induction false} NameIsCut(f: File, at: nat, i: nat)
    requires f.Valid() && i <= NAME_MAX && WholeName(f, (at + i) % U64).Some?
    ensures NameAt(f, at, i) == Some(CutName(WholeName(f, (at + i) % U64).value, NAME_MAX - i))
    decreases NAME_MAX - i
  {
    var a := (at + i) % U64;
    assert f.bytes[a..a + 1] == [f.bytes[a]];
    assert f.Read(a, 1) == Some([f.bytes[a]]);
    if i < NAME_MAX && f.bytes[a] != 0 {
      assert (at + (i + 1)) % U64 == a + 1;
      NameIsCut(f, at, i + 1);
      CutMore(f.bytes[a], WholeName(f, a + 1).value, NAME_MAX - i);
    }
  }

  lemma {:induction false} CutMore(c: byte, rest: seq<byte>, n: nat)
    requires n > 0
    ensures CutName([c] + rest, n) == [c] + CutName(rest, n - 1)
  {
  }

  function CutEvent(e: Event): Event { if e.Entry? then e.(name := CutName(e.name, NAME_MAX)) else e }

  function CutAll(es: seq<Event>): (r: seq<Event>)
    ensures |r| == |es|
  {
    seq(|es|, i requires 0 <= i < |es| => CutEvent(es[i]))
  }

  /** Where the search stops: at an entry of that name, at something unreadable, or at the end. */
  function Position(es: seq<Event>, want: seq<byte>): (i: nat)
    ensures i <= |es|
    decreases |es|
  {
    if es == [] || Stops(es[0], want) then 0 else 1 + Position(es[1..], want)
  }

  predicate Stops(e: Event, want: seq<byte>) { e.Unreadable? || e.name == want }

  lemma {:induction false} FirstHitAt(es: seq<Event>, want: seq<byte>)
    ensures
      var i := Position(es, want);
      FirstHit(es, want) == if i == |es| then NotFound
                            else if es[i].Unreadable? then Failed else Found(es[i].oh, es[i].ctype)
    decreases |es|
  {
    if es != [] && !Stops(es[0], want) { FirstHitAt(es[1..], want); }
  }

  /** Cutting the name of an entry makes or breaks a match. */
  predicate Blurs(e: Event, want: seq<byte>) { e.Entry? && (e.name == want) != (CutName(e.name, NAME_MAX) == want) }

  /** That happens exactly for names longer than the limit, if they or their first 255 bytes are looked for. */
  lemma {:induction false} BlursIff(e: Event, want: seq<byte>)
    ensures Blurs(e, want) <==> e.Entry? && |e.name| > NAME_MAX && (want == e.name || want == e.name[..NAME_MAX])
  {
    if e.Entry? && |e.name| <= NAME_MAX { assert CutName(e.name, NAME_MAX) == e.name; }
  }

  /**
   * For any listing: the search of the cut names stops where the search of the whole names does if and only
   * if no entry up to there is longer than the limit and looked for by its name or its first 255 bytes.
   */
  lemma {:induction false} CutSearchIff(es: seq<Event>, want: seq<byte>)
    ensures Position(CutAll(es), want) == Position(es, want) <==>
      forall i :: 0 <= i <= Position(es, want) && i < |es| ==> !Blurs(es[i], want)
    decreases |es|
  {
    if es != [] {
      var rest := es[1..];
      assert CutAll(es)[1..] == CutAll(rest);
      if Stops(es[0], want) {
        assert Position(es, want) == 0;
        assert Stops(CutEvent(es[0]), want) <==> !Blurs(es[0], want);
      } else if !Blurs(es[0], want) {
        CutSearchIff(rest, want);
        forall i | 1 <= i < |es| ensures es[i] == rest[i - 1] {}
        assert forall j :: 0 <= j < |rest| ==> rest[j] == es[j + 1];
      }
    }
  }

  /** So a name shorter than the limit is always looked up rightly, and no other is. */
  lemma {:induction false} ShortNamesIff(want: seq<byte>)
    ensures (forall es :: SameSearch(es, want)) <==> |want| < 255
  {
    if |want| < NAME_MAX {
      forall es ensures SameSearch(es, want) {
        forall i | 0 <= i < |es| ensures !Blurs(es[i], want) { BlursIff(es[i], want); }
        CutSearchIff(es, want);
        FirstHitAt(es, want);
        FirstHitAt(CutAll(es), want);
      }
    } else {
      var longer := if |want| == NAME_MAX then want + [1] else want;
      assert (want + [1])[..|want|] == want;
      assert CutName(longer, NAME_MAX) == longer[..NAME_MAX] && |longer| > NAME_MAX;
      var es := [Entry(longer, 1, 0)];
      assert CutAll(es) == [Entry(longer[..NAME_MAX], 1, 0)];
      assert es[1..] == [] && CutAll(es)[1..] == [];
      if |want| == NAME_MAX {
        assert longer[..NAME_MAX] == want;
        assert FirstHit(CutAll(es), want) == Found(1, 0);
        assert FirstHit(es, want) == FirstHit(es[1..], want);
      } else {
        assert longer[..NAME_MAX] != want;
        assert FirstHit(CutAll(es), want) == FirstHit(CutAll(es)[1..], want);
        assert FirstHit(es, want) == Found(1, 0);
      }
      assert !SameSearch(es, want);
    }
  }

  ghost predicate SameSearch(es: seq<Event>, want: seq<byte>) { FirstHit(CutAll(es), want) == FirstHit(es, want) }
}

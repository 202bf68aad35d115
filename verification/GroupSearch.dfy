/**
 * Looking a name up in an old-style group. The code descends the group B-tree
 * and stops at the first match or the first unreadable node; the specification
 * lists everything the tree holds, left to right, and searches the list.
 */
module GroupSearch {
  import opened Words
  import opened LittleEndian
  import opened H5File

  const MAX_DEPTH := 16
  const NAME_MAX := 255

  /** What the walk meets: a named entry, or bytes it cannot read. */
  datatype Event = Entry(name: seq<byte>, oh: nat, ctype: nat) | Unreadable

  datatype Outcome = NotFound | Found(oh: nat, ctype: nat) | Failed

  // ------------------------------------------------------------ specification

  /** Linear search: the first entry of that name, unless something unreadable comes first. */
  function FirstHit(es: seq<Event>, want: seq<byte>): Outcome
    decreases |es|
  {
    if es == [] then NotFound
    else if es[0].Unreadable? then Failed
    else if es[0].name == want then Found(es[0].oh, es[0].ctype)
    else FirstHit(es[1..], want)
  }

  /** A heap string: bytes up to the first zero, at most NAME_MAX of them. */
  ghost function NameAt(f: File, at: nat, i: nat): Option<seq<byte>>
    requires i <= NAME_MAX
    decreases NAME_MAX - i
  {
    if i == NAME_MAX then Some([])
    else
      match f.Read((at + i) % U64, 1)
      case None => None
      case Some(c) =>
        if c[0] == 0 then Some([])
        else
          match NameAt(f, at, i + 1)
          case None => None
          case Some(rest) => Some(c + rest)
  }

  /** Where a heap has the address of its data. */
  function DataField(f: File, heap: nat): nat { (heap + 8 + 2 * f.lsize) % U64 }

  ghost function HeapName(f: File, heap: nat, noff: nat): Option<seq<byte>>
    requires f.Valid()
  {
    match f.Read(heap, 8)
    case None => None
    case Some(h) =>
      if h[..4] != HEAP then None
      else
        match f.Read(DataField(f, heap), f.osize)
        case None => None
        case Some(a) => NameAt(f, (Value(a) + noff) % U64, 0)
  }

  function EntrySize(f: File): nat { f.lsize + f.osize + 24 }

  /** Where entry `i` of a symbol node is. */
  function SymbolPlace(f: File, addr: nat, i: nat): nat { (addr + 8 + i * EntrySize(f)) % U64 }

  type Raw = Option<seq<byte>>

  /** The entries of a symbol node as they are read. */
  ghost function RawSymbols(f: File, addr: nat, n: nat): (rs: seq<Raw>)
    ensures |rs| == n
  {
    seq(n, i requires 0 <= i < n => f.Read(SymbolPlace(f, addr, i), f.lsize + f.osize + 4))
  }

  /** An entry of a symbol node: name offset, object header, cache type. One whose name cannot be read is passed over. */
  ghost function SymbolEvent(f: File, heap: nat, r: Raw): seq<Event>
    requires f.Valid()
  {
    if r.None? then [Unreadable]
    else if |r.value| != f.lsize + f.osize + 4 then []
    else
      var e := r.value;
      Named(HeapName(f, heap, Value(e[..f.lsize])), Value(e[f.lsize..f.lsize + f.osize]), Value(e[f.lsize + f.osize..]))
  }

  function Named(name: Option<seq<byte>>, oh: nat, ctype: nat): seq<Event> {
    if name.None? then [] else [Entry(name.value, oh, ctype)]
  }

  lemma {:induction false} NamedHit(name: Option<seq<byte>>, oh: nat, ctype: nat, want: seq<byte>)
    ensures FirstHit(Named(name, oh, ctype), want) == if name == Some(want) then Found(oh, ctype) else NotFound
  {
    if name.Some? { assert [Entry(name.value, oh, ctype)][1..] == []; }
  }

  /** Entries up to the first that cannot be read. */
  ghost function EventsOf(f: File, heap: nat, rs: seq<Raw>): seq<Event>
    requires f.Valid()
    decreases |rs|
  {
    if rs == [] then []
    else if rs[0].None? then SymbolEvent(f, heap, rs[0])
    else SymbolEvent(f, heap, rs[0]) + EventsOf(f, heap, rs[1..])
  }

  ghost function Symbols(f: File, addr: nat, heap: nat): seq<Event>
    requires f.Valid()
  {
    match f.Read(addr, 8)
    case None => [Unreadable]
    case Some(hdr) =>
      if hdr[..4] != SNOD then [Unreadable]
      else EventsOf(f, heap, RawSymbols(f, addr, Value(hdr[6..8])))
  }

  /** Everything below a B-tree node, left to right, within the depth limit. */
  ghost function Listing(f: File, addr: nat, heap: nat, depth: nat): seq<Event>
    requires f.Valid()
    decreases MAX_DEPTH + 1 - depth, 1, 0
  {
    if depth > MAX_DEPTH || f.Undefined(addr) then []
    else
      match f.Read(addr, 8)
      case None => [Unreadable]
      case Some(hdr) =>
        if hdr[..4] != TREE then [Unreadable]
        else ListingFrom(f, addr, heap, depth, hdr[5], Value(hdr[6..8]), 0)
  }

  function ChildAt(f: File, addr: nat, i: nat): nat {
    (addr + 8 + 2 * f.osize + f.lsize + i * (f.lsize + f.osize)) % U64
  }

  ghost function ListingFrom(f: File, addr: nat, heap: nat, depth: nat, level: nat, nused: nat, i: nat): seq<Event>
    requires f.Valid() && depth <= MAX_DEPTH && i <= nused
    decreases MAX_DEPTH + 1 - depth, 0, nused - i
  {
    if i == nused then []
    else
      match f.Read(ChildAt(f, addr, i), f.osize)
      case None => [Unreadable]
      case Some(c) =>
        (if level == 0 then Symbols(f, Value(c), heap) else Listing(f, Value(c), heap, depth + 1))
        + ListingFrom(f, addr, heap, depth, level, nused, i + 1)
  }

  // ----------------------------------------------------- properties of the search

  lemma {:induction false} FirstHitAppend(a: seq<Event>, b: seq<Event>, want: seq<byte>)
    ensures FirstHit(a + b, want) == if FirstHit(a, want).NotFound? then FirstHit(b, want) else FirstHit(a, want)
    decreases |a|
  {
    if a == [] {
      assert a + b == b;
    } else {
      FirstHitAppend(a[1..], b, want);
      assert (a + b)[1..] == a[1..] + b;
    }
  }

  /** When nothing is unreadable the search is exact: it finds the first entry of that name, or there is none. */
  lemma {:induction false} FirstHitExact(es: seq<Event>, want: seq<byte>)
    requires forall i :: 0 <= i < |es| ==> es[i].Entry?
    ensures FirstHit(es, want).NotFound? <==> forall i :: 0 <= i < |es| ==> es[i].name != want
    ensures !FirstHit(es, want).Failed?
    ensures FirstHit(es, want).Found? ==>
              exists i :: 0 <= i < |es| && es[i] == Entry(want, FirstHit(es, want).oh, FirstHit(es, want).ctype)
                          && forall j :: 0 <= j < i ==> es[j].name != want
    decreases |es|
  {
    if es != [] && es[0].name != want {
      FirstHitExact(es[1..], want);
      assert forall i :: 0 < i < |es| ==> es[i] == es[1..][i - 1];
      if FirstHit(es[1..], want).Found? {
        var i :| 0 <= i < |es[1..]| && es[1..][i] == Entry(want, FirstHit(es, want).oh, FirstHit(es, want).ctype)
                 && forall j :: 0 <= j < i ==> es[1..][j].name != want;
        assert es[i + 1] == es[1..][i];
        assert forall j :: 0 <= j < i + 1 ==> es[j].name != want;
      }
    }
  }

  /** An unreadable place decides the search only when no match precedes it. */
  lemma {:induction false} FailsIff(es: seq<Event>, want: seq<byte>)
    ensures FirstHit(es, want).Failed? <==>
            exists i :: 0 <= i < |es| && es[i].Unreadable?
                        && forall j :: 0 <= j < i ==> es[j].Entry? && es[j].name != want
    decreases |es|
  {
    if es != [] && es[0].Entry? && es[0].name != want {
      FailsIff(es[1..], want);
      if FirstHit(es[1..], want).Failed? {
        var i :| 0 <= i < |es[1..]| && es[1..][i].Unreadable?
                 && forall j :: 0 <= j < i ==> es[1..][j].Entry? && es[1..][j].name != want;
        assert es[i + 1].Unreadable?;
        forall j | 0 <= j < i + 1 ensures es[j].Entry? && es[j].name != want {
          if j > 0 { assert es[j] == es[1..][j - 1]; }
        }
      }
      if i :| 0 <= i < |es| && es[i].Unreadable? && forall j :: 0 <= j < i ==> es[j].Entry? && es[j].name != want {
        assert es[1..][i - 1].Unreadable?;
        assert forall j :: 0 <= j < i - 1 ==> es[1..][j] == es[j + 1];
      }
    }
  }

  // ------------------------------------------------------------------- code

  /** A name of which `name` has been read and the rest is to come. */
  ghost function Continued(name: seq<byte>, rest: Option<seq<byte>>): Option<seq<byte>> {
    if rest.None? then None else Some(name + rest.value)
  }

  lemma {:induction false} NameStep(f: File, at: nat, i: nat, name: seq<byte>)
    requires i < NAME_MAX
    ensures
      var c := f.Read((at + i) % U64, 1);
      Continued(name, NameAt(f, at, i)) ==
        if c.None? then None else if c.value[0] == 0 then Some(name) else Continued(name + c.value, NameAt(f, at, i + 1))
  {
    var c, rest := f.Read((at + i) % U64, 1), NameAt(f, at, i + 1);
    assert name + [] == name;
    if c.Some? && rest.Some? { assert name + (c.value + rest.value) == (name + c.value) + rest.value; }
  }

  method ReadName(f: File, at: nat) returns (r: Option<seq<byte>>)
    ensures r == NameAt(f, at, 0)
  {
    var name: seq<byte> := [];
    ghost var whole := NameAt(f, at, 0);
    assert whole.Some? ==> name + whole.value == whole.value;
    for i := 0 to NAME_MAX
      invariant whole == Continued(name, NameAt(f, at, i))
    {
      NameStep(f, at, i, name);
      var c := f.Read((at + i) % U64, 1);
      if c.None? { return None; }
      if c.value[0] == 0 { return Some(name); }
      name := name + c.value;
    }
    assert name + [] == name;
    return Some(name);
  }

  method ReadHeapName(f: File, heap: nat, noff: nat) returns (r: Option<seq<byte>>)
    requires f.Valid()
    ensures r == HeapName(f, heap, noff)
  {
    var h := f.Read(heap, 8);
    if h.None? || h.value[..4] != HEAP { return None; }
    var a := f.Read(DataField(f, heap), f.osize);
    if a.None? { return None; }
    var dseg := Decode(a.value);
    r := ReadName(f, (dseg + noff) % U64);
  }

  /** The three fields of an entry of a symbol node. */
  method SymbolFields(f: File, e: seq<byte>) returns (noff: nat, oh: nat, ct: nat)
    requires f.Valid() && |e| == f.lsize + f.osize + 4
    ensures noff == Value(e[..f.lsize]) && oh == Value(e[f.lsize..f.lsize + f.osize]) && ct == Value(e[f.lsize + f.osize..])
  {
    noff := Decode(e[..f.lsize]);
    oh := Decode(e[f.lsize..f.lsize + f.osize]);
    ct := Decode(e[f.lsize + f.osize..]);
  }

  lemma {:induction false} EventHit(f: File, heap: nat, e: seq<byte>, want: seq<byte>, noff: nat, oh: nat, ct: nat,
                                    name: Option<seq<byte>>)
    requires f.Valid() && |e| == f.lsize + f.osize + 4 && name == HeapName(f, heap, noff)
    requires noff == Value(e[..f.lsize]) && oh == Value(e[f.lsize..f.lsize + f.osize]) && ct == Value(e[f.lsize + f.osize..])
    ensures FirstHit(SymbolEvent(f, heap, Some(e)), want) == if name == Some(want) then Found(oh, ct) else NotFound
  {
    assert SymbolEvent(f, heap, Some(e)) == Named(name, oh, ct);
    NamedHit(name, oh, ct, want);
  }

  /** One entry of a symbol node: what it means for the search. */
  method ReadSymbol(f: File, heap: nat, e: seq<byte>, want: seq<byte>) returns (r: Outcome)
    requires f.Valid() && |e| == f.lsize + f.osize + 4
    ensures r == FirstHit(SymbolEvent(f, heap, Some(e)), want) && !r.Failed?
  {
    var noff, oh, ct := SymbolFields(f, e);
    var name := ReadHeapName(f, heap, noff);
    EventHit(f, heap, e, want, noff, oh, ct, name);
    r := if name == Some(want) then Found(oh, ct) else NotFound;
  }

  lemma {:induction false} EventsStep(f: File, heap: nat, rs: seq<Raw>, i: nat, want: seq<byte>)
    requires f.Valid() && i < |rs|
    ensures
      var h := FirstHit(SymbolEvent(f, heap, rs[i]), want);
      && (rs[i].None? ==> FirstHit(EventsOf(f, heap, rs[i..]), want) == Failed)
      && (rs[i].Some? ==>
            FirstHit(EventsOf(f, heap, rs[i..]), want)
            == (if h.NotFound? then FirstHit(EventsOf(f, heap, rs[i + 1..]), want) else h))
  {
    var rest := rs[i..];
    assert rest[0] == rs[i] && rest[1..] == rs[i + 1..];
    if rs[i].Some? { FirstHitAppend(SymbolEvent(f, heap, rs[i]), EventsOf(f, heap, rs[i + 1..]), want); }
  }

  /** Scans one symbol node. */
  method SymbolFind(f: File, addr: nat, heap: nat, want: seq<byte>) returns (r: Outcome)
    requires f.Valid()
    ensures r == FirstHit(Symbols(f, addr, heap), want)
  {
    var hdr := f.Read(addr, 8);
    if hdr.None? || hdr.value[..4] != SNOD { return Failed; }
    var nsyms := Decode(hdr.value[6..8]);
    ghost var rs := RawSymbols(f, addr, nsyms);
    assert rs[0..] == rs;
    for i := 0 to nsyms
      invariant FirstHit(Symbols(f, addr, heap), want) == FirstHit(EventsOf(f, heap, rs[i..]), want)
    {
      EventsStep(f, heap, rs, i, want);
      var e := f.Read(SymbolPlace(f, addr, i), f.lsize + f.osize + 4);
      if e.None? { return Failed; }
      r := ReadSymbol(f, heap, e.value, want);
      if !r.NotFound? { return; }
    }
    return NotFound;
  }

  /** Everything below one child. */
  ghost function Below(f: File, heap: nat, depth: nat, level: nat, child: nat): seq<Event>
    requires f.Valid() && depth <= MAX_DEPTH
  {
    if level == 0 then Symbols(f, child, heap) else Listing(f, child, heap, depth + 1)
  }

  ghost function HitFrom(f: File, addr: nat, heap: nat, depth: nat, level: nat, nused: nat, i: nat, want: seq<byte>): Outcome
    requires f.Valid() && depth <= MAX_DEPTH && i <= nused
  {
    FirstHit(ListingFrom(f, addr, heap, depth, level, nused, i), want)
  }

  lemma {:induction false} ListingStep(f: File, addr: nat, heap: nat, depth: nat, level: nat, nused: nat, i: nat,
                                       want: seq<byte>, c: Raw)
    requires f.Valid() && depth <= MAX_DEPTH && i < nused && c == f.Read(ChildAt(f, addr, i), f.osize)
    ensures c.None? ==> HitFrom(f, addr, heap, depth, level, nused, i, want) == Failed
    ensures c.Some? ==>
      var h := FirstHit(Below(f, heap, depth, level, Value(c.value)), want);
      HitFrom(f, addr, heap, depth, level, nused, i, want)
      == if h.NotFound? then HitFrom(f, addr, heap, depth, level, nused, i + 1, want) else h
  {
    if c.Some? {
      FirstHitAppend(Below(f, heap, depth, level, Value(c.value)), ListingFrom(f, addr, heap, depth, level, nused, i + 1), want);
    }
  }

  /**
   * Descends the group B-tree. Terminates on any bytes, and returns what linear
   * search of the left-to-right listing returns.
   */
  method TreeFind(f: File, addr: nat, heap: nat, want: seq<byte>, depth: nat) returns (r: Outcome)
    requires f.Valid()
    ensures r == FirstHit(Listing(f, addr, heap, depth), want)
    decreases MAX_DEPTH + 1 - depth, 1
  {
    if depth > MAX_DEPTH || f.Undefined(addr) { return NotFound; }
    var hdr := f.Read(addr, 8);
    if hdr.None? || hdr.value[..4] != TREE { return Failed; }
    var nused := Decode(hdr.value[6..8]);
    r := ChildrenFind(f, addr, heap, want, depth, hdr.value[5], nused);
  }

  /** The children of a node, left to right. */
  method ChildrenFind(f: File, addr: nat, heap: nat, want: seq<byte>, depth: nat, level: nat, nused: nat)
    returns (r: Outcome)
    requires f.Valid() && depth <= MAX_DEPTH
    ensures r == HitFrom(f, addr, heap, depth, level, nused, 0, want)
    decreases MAX_DEPTH + 1 - depth, 0
  {
    for i := 0 to nused
      invariant HitFrom(f, addr, heap, depth, level, nused, 0, want) == HitFrom(f, addr, heap, depth, level, nused, i, want)
    {
      var c := f.Read(ChildAt(f, addr, i), f.osize);
      ListingStep(f, addr, heap, depth, level, nused, i, want, c);
      if c.None? { return Failed; }
      var child := Decode(c.value);
      if level == 0 {
        r := SymbolFind(f, child, heap, want);
      } else {
        r := TreeFind(f, child, heap, want, depth + 1);
      }
      if !r.NotFound? { return; }
    }
    return NotFound;
  }
}

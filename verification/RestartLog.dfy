/**
 * The restart log: an append-only file of add and rm records, its replay into the live
 * list, and its compaction.
 */
module RestartLog {
  import opened Words
  import opened LittleEndian

  type Path = seq<byte>
  datatype Op = Add | Rm
  datatype Entry = Entry(op: Op, path: Path)

  // ------------------------------------------------------------------------ record format

  function OpByte(op: Op): byte { if op.Add? then 0 else 1 }

  /** The part of a path that its 32-bit length field covers. */
  function Kept(e: Entry): Entry { e.(path := e.path[..|e.path| % U32]) }

  function Record(e: Entry): seq<byte> {
    [OpByte(e.op)] + Encode(|e.path| % U32, 4) + e.path[..|e.path| % U32]
  }

  function Records(es: seq<Entry>): seq<byte> {
    if es == [] then [] else Record(es[0]) + Records(es[1..])
  }

  function AllKept(es: seq<Entry>): (r: seq<Entry>)
    ensures |r| == |es|
  {
    seq(|es|, i requires 0 <= i < |es| => Kept(es[i]))
  }

  /** The first record of some bytes, if it is whole: the entry and its size. */
  function FirstRecord(b: seq<byte>): (r: Option<(Entry, nat)>)
    ensures r.Some? ==> 5 <= r.value.1 <= |b|
  {
    if |b| < 5 then None
    else
      var len := Value(b[1..5]);
      if |b| < 5 + len then None else Some((Entry(if b[0] == 1 then Rm else Add, b[5..5 + len]), 5 + len))
  }

  /** Records up to the end, or up to the first torn one. */
  function Entries(b: seq<byte>): seq<Entry>
    decreases |b|
  {
    var r := FirstRecord(b);
    if r.None? then [] else [r.value.0] + Entries(b[r.value.1..])
  }

  lemma RecordShape(e: Entry, rest: seq<byte>)
    ensures
      var b := Record(e) + rest;
      |Record(e)| == 5 + |e.path| % U32 && b[0] == OpByte(e.op) && Value(b[1..5]) == |e.path| % U32
      && b[5..|Record(e)|] == Kept(e).path && b[|Record(e)|..] == rest
  {
    var b := Record(e) + rest;
    Widths();
    ValueEncode(|e.path| % U32, 4);
    assert b[1..5] == Encode(|e.path| % U32, 4);
  }

  lemma FirstOfRecord(e: Entry, rest: seq<byte>)
    ensures FirstRecord(Record(e) + rest) == Some((Kept(e), |Record(e)|))
    ensures (Record(e) + rest)[|Record(e)|..] == rest
  {
    RecordShape(e, rest);
  }

  /** Reading gives back what was written, paths cut to their 32-bit length. */
  lemma {:induction false} ReadsBack(es: seq<Entry>)
    ensures Entries(Records(es)) == AllKept(es)
    decreases |es|
  {
    if es != [] {
      FirstOfRecord(es[0], Records(es[1..]));
      ReadsBack(es[1..]);
      assert AllKept(es) == [Kept(es[0])] + AllKept(es[1..]);
    }
  }

  /** The log reads back exactly if and only if every path is shorter than 2^32. */
  lemma RoundTripIff(es: seq<Entry>)
    ensures Entries(Records(es)) == es <==> forall i :: 0 <= i < |es| ==> |es[i].path| < U32
  {
    ReadsBack(es);
    if AllKept(es) == es {
      forall i | 0 <= i < |es| ensures |es[i].path| < U32 {
        assert AllKept(es)[i] == Kept(es[i]);
        assert |Kept(es[i]).path| < U32;
      }
    } else if forall i :: 0 <= i < |es| ==> |es[i].path| < U32 {
      forall i | 0 <= i < |es| ensures Kept(es[i]) == es[i] { KeptShort(es[i]); }
    }
  }

  lemma KeptShort(e: Entry)
    requires |e.path| < U32
    ensures Kept(e) == e
  {
    assert |e.path| % U32 == |e.path|;
  }

  // ---------------------------------------------------------------------------- torn tail

  /** How many records lie wholly within the first `k` bytes. */
  function Whole(es: seq<Entry>, k: nat): (n: nat)
    ensures n <= |es|
    decreases |es|
  {
    if es == [] || k < |Record(es[0])| then 0 else 1 + Whole(es[1..], k - |Record(es[0])|)
  }

  /** `Whole` is the largest number of records that fit. */
  lemma {:induction false} WholeIsMost(es: seq<Entry>, k: nat)
    ensures |Records(es[..Whole(es, k)])| <= k
    ensures Whole(es, k) < |es| ==> k < |Records(es[..Whole(es, k) + 1])|
    decreases |es|
  {
    if es != [] {
      if k < |Record(es[0])| {
        assert es[..1][1..] == [];
        assert Records(es[..1]) == Record(es[0]) + [];
      } else {
        var n := Whole(es[1..], k - |Record(es[0])|);
        WholeIsMost(es[1..], k - |Record(es[0])|);
        assert es[..n + 1][1..] == es[1..][..n];
        if n + 1 < |es| { assert es[..n + 2][1..] == es[1..][..n + 1]; }
      }
    }
  }

  lemma TornFirst(e: Entry, rest: seq<byte>, k: nat)
    requires k < |Record(e)|
    ensures FirstRecord((Record(e) + rest)[..k]).None?
  {
    RecordShape(e, rest);
    var b := Record(e) + rest;
    if k >= 5 { assert b[..k][1..5] == b[1..5]; }
  }

  /** Reading any prefix of a written log gives exactly the records wholly contained in it. */
  lemma {:induction false} TornTail(es: seq<Entry>, k: nat)
    requires k <= |Records(es)|
    ensures Entries(Records(es)[..k]) == AllKept(es)[..Whole(es, k)]
    decreases |es|
  {
    if es != [] {
      var r := |Record(es[0])|;
      var rest := Records(es[1..]);
      if k < r {
        TornFirst(es[0], rest, k);
      } else {
        assert (Record(es[0]) + rest)[..k] == Record(es[0]) + rest[..k - r];
        FirstOfRecord(es[0], rest[..k - r]);
        TornTail(es[1..], k - r);
        assert AllKept(es) == [Kept(es[0])] + AllKept(es[1..]);
      }
    }
  }

  /** No torn record at the end. */
  ghost predicate Clean(b: seq<byte>)
    decreases |b|
  {
    b == [] || (FirstRecord(b).Some? && Clean(b[FirstRecord(b).value.1..]))
  }

  /** Appending to a log without a torn tail adds one entry. */
  lemma {:induction false} AppendClean(b: seq<byte>, e: Entry)
    requires Clean(b)
    ensures Entries(b + Record(e)) == Entries(b) + [Kept(e)] && Clean(b + Record(e))
    decreases |b|
  {
    if b == [] {
      FirstOfRecord(e, []);
      assert b + Record(e) == Record(e) + [];
    } else {
      var n := FirstRecord(b).value.1;
      FirstGrows(b, Record(e));
      assert (b + Record(e))[n..] == b[n..] + Record(e);
      AppendClean(b[n..], e);
    }
  }

  lemma FirstGrows(b: seq<byte>, more: seq<byte>)
    requires FirstRecord(b).Some?
    ensures FirstRecord(b + more) == FirstRecord(b)
  {
    var len := Value(b[1..5]);
    assert (b + more)[1..5] == b[1..5];
    assert (b + more)[5..5 + len] == b[5..5 + len];
  }

  /** The bytes that some entries take in a log. */
  function Size(es: seq<Entry>): nat
    decreases |es|
  {
    if es == [] then 0 else 5 + |es[0].path| + Size(es[1..])
  }

  lemma {:induction false} SizeSnoc(es: seq<Entry>, e: Entry)
    ensures Size(es + [e]) == Size(es) + 5 + |e.path|
    decreases |es|
  {
    if es == [] {
      assert es + [e] == [e] && [e][1..] == [];
    } else {
      assert (es + [e])[0] == es[0] && (es + [e])[1..] == es[1..] + [e];
      SizeSnoc(es[1..], e);
    }
  }

  /** The entries read account for all bytes exactly if nothing is torn. */
  lemma {:induction false} CleanIffWhole(b: seq<byte>)
    ensures Size(Entries(b)) <= |b| && (Clean(b) <==> Size(Entries(b)) == |b|)
    decreases |b|
  {
    var r := FirstRecord(b);
    if r.Some? {
      CleanIffWhole(b[r.value.1..]);
      assert Entries(b)[1..] == Entries(b[r.value.1..]);
    }
  }

  /** An append adds exactly its entry, and tears nothing for the next one, if and only if nothing is torn. */
  lemma AppendIffClean(b: seq<byte>, e: Entry)
    ensures Entries(b + Record(e)) == Entries(b) + [Kept(e)] && Clean(b + Record(e)) <==> Clean(b)
  {
    if Clean(b) {
      AppendClean(b, e);
    } else if Entries(b + Record(e)) == Entries(b) + [Kept(e)] && Clean(b + Record(e)) {
      CleanIffWhole(b);
      CleanIffWhole(b + Record(e));
      SizeSnoc(Entries(b), Kept(e));
      RecordShape(e, []);
    }
  }

  /** A record of which only a part arrives behind a log that is not torn: it is not read, and tears the log. */
  lemma {:induction false} CutAppend(b: seq<byte>, e: Entry, k: nat)
    requires Clean(b) && k < |Record(e)|
    ensures Entries(b + Record(e)[..k]) == Entries(b)
    ensures Clean(b + Record(e)[..k]) <==> k == 0
    decreases |b|
  {
    var more := Record(e)[..k];
    if b == [] {
      assert Record(e) + [] == Record(e);
      TornFirst(e, [], k);
      assert b + more == more;
    } else {
      var n := FirstRecord(b).value.1;
      FirstGrows(b, more);
      assert (b + more)[n..] == b[n..] + more;
      CutAppend(b[n..], e, k);
    }
  }

  /** A failing case: the bytes of the new record complete the torn one. */
  lemma AppendAfterTear()
    ensures
      var torn: seq<byte> := [0];
      !Clean(torn) && Entries(torn) == [] && Entries(torn + Record(Entry(Rm, []))) == [Entry(Add, [0])]
  {
    var torn: seq<byte> := [0];
    var r := Record(Entry(Rm, []));
    assert Encode(0, 4) == [0, 0, 0, 0] by {
      assert Encode(0, 1) == [0] + Encode(0, 0);
      assert Encode(0, 2) == [0] + Encode(0, 1);
      assert Encode(0, 3) == [0] + Encode(0, 2);
    }
    assert r == [1, 0, 0, 0, 0];
    var b := torn + r;
    assert b == [0, 1, 0, 0, 0, 0];
    assert b[1..5] == [1, 0, 0, 0];
    var z: seq<byte> := [0, 0, 0];
    assert Value(b[1..5]) == 1 by {
      assert [1, 0, 0, 0][1..] == z;
      assert Value(z) == 0 by { assert z[1..] == [0, 0] && z[1..][1..] == [0] && z[1..][1..][1..] == []; }
    }
    assert b[5..6] == [0];
    assert FirstRecord(b) == Some((Entry(Add, [0]), 6));
    assert b[6..] == [];
  }

  // ------------------------------------------------------------------------------- replay

  /** A path is live if its last operation is an add. */
  predicate Live(es: seq<Entry>, p: Path)
    decreases |es|
  {
    if es == [] then false
    else if es[|es| - 1].path == p then es[|es| - 1].op.Add?
    else Live(es[..|es| - 1], p)
  }

  /** `Live` says what the last operation on the path was. */
  lemma {:induction false} LiveIffLastIsAdd(es: seq<Entry>, p: Path)
    ensures Live(es, p) <==>
      exists i :: 0 <= i < |es| && es[i] == Entry(Add, p) && forall j :: i < j < |es| ==> es[j].path != p
    decreases |es|
  {
    if es != [] {
      var n := |es| - 1;
      LiveIffLastIsAdd(es[..n], p);
      if es[n].path == p {
        if es[n].op.Add? { assert es[n] == Entry(Add, p); }
      } else {
        if Live(es[..n], p) {
          var i :| 0 <= i < n && es[..n][i] == Entry(Add, p) && forall j :: i < j < n ==> es[..n][j].path != p;
          assert es[i] == Entry(Add, p);
          forall j | i < j < |es| ensures es[j].path != p { if j < n { assert es[..n][j].path != p; } }
        }
        if i :| 0 <= i < |es| && es[i] == Entry(Add, p) && forall j :: i < j < |es| ==> es[j].path != p {
          assert es[..n][i] == Entry(Add, p);
        }
      }
    }
  }

  /** The paths in the order in which they became live, once per time they did. */
  function Order(es: seq<Entry>): seq<Path>
    decreases |es|
  {
    if es == [] then []
    else
      var e := es[|es| - 1];
      var before := es[..|es| - 1];
      Order(before) + if e.op.Add? && !Live(before, e.path) then [e.path] else []
  }

  function Filter(ps: seq<Path>, es: seq<Entry>): seq<Path>
    decreases |ps|
  {
    if ps == [] then []
    else Filter(ps[..|ps| - 1], es) + if Live(es, ps[|ps| - 1]) then [ps[|ps| - 1]] else []
  }

  /** What LiveSet returns. */
  function LiveList(es: seq<Entry>): seq<Path> { Filter(Order(es), es) }

  function Count(ps: seq<Path>, p: Path): nat
    decreases |ps|
  {
    if ps == [] then 0 else Count(ps[..|ps| - 1], p) + if ps[|ps| - 1] == p then 1 else 0
  }

  lemma {:induction false} CountFilter(ps: seq<Path>, es: seq<Entry>, p: Path)
    ensures Count(Filter(ps, es), p) == if Live(es, p) then Count(ps, p) else 0
    decreases |ps|
  {
    if ps != [] {
      var n := |ps| - 1;
      var front := Filter(ps[..n], es);
      CountFilter(ps[..n], es, p);
      if Live(es, ps[n]) {
        assert Filter(ps, es)[..|front|] == front;
      } else {
        assert front + [] == front;
      }
    }
  }

  lemma {:induction false} CountPositive(ps: seq<Path>, p: Path)
    ensures Count(ps, p) > 0 <==> p in ps
    decreases |ps|
  {
    if ps != [] {
      var n := |ps| - 1;
      CountPositive(ps[..n], p);
      assert ps == ps[..n] + [ps[n]];
    }
  }

  /** A live path has become live at some time. */
  lemma {:induction false} LiveWasOrdered(es: seq<Entry>, p: Path)
    requires Live(es, p)
    ensures p in Order(es)
    decreases |es|
  {
    var n := |es| - 1;
    if es[n].path != p || Live(es[..n], p) { LiveWasOrdered(es[..n], p); }
  }

  /**
   * A path is listed if and only if its last operation is an add; it is listed as often as it
   * has become live.
   */
  lemma ListedIffLive(es: seq<Entry>, p: Path)
    ensures p in LiveList(es) <==> Live(es, p)
    ensures Count(LiveList(es), p) == if Live(es, p) then Count(Order(es), p) else 0
  {
    CountFilter(Order(es), es, p);
    CountPositive(LiveList(es), p);
    CountPositive(Order(es), p);
    if Live(es, p) { LiveWasOrdered(es, p); }
  }

  /** Added, removed and added again, a path is listed twice. */
  lemma ListedTwice(p: Path)
    ensures LiveList([Entry(Add, p), Entry(Rm, p), Entry(Add, p)]) == [p, p]
  {
    var es := [Entry(Add, p), Entry(Rm, p), Entry(Add, p)];
    assert es[..2] == [Entry(Add, p), Entry(Rm, p)] && es[..2][..1] == [Entry(Add, p)] && es[..2][..1][..0] == [];
    assert Order(es[..2][..1]) == [p] && Order(es[..2]) == [p] && Order(es) == [p, p];
    var ps: seq<Path> := [p, p];
    assert ps[..1] == [p] && ps[..1][..0] == [];
    assert Filter([p], es) == [p];
  }

  // --------------------------------------------------------------------------- compaction

  function Adds(ps: seq<Path>): (es: seq<Entry>)
    ensures |es| == |ps|
  {
    seq(|ps|, i requires 0 <= i < |ps| => Entry(Add, ps[i]))
  }

  predicate Minimal(es: seq<Entry>) { es == Adds(LiveList(es)) }

  function Compacted(es: seq<Entry>): seq<Entry> { Adds(LiveList(es)) }

  /** First occurrences. */
  function Dedup(ps: seq<Path>): seq<Path>
    decreases |ps|
  {
    if ps == [] then []
    else
      var front := Dedup(ps[..|ps| - 1]);
      if ps[|ps| - 1] in ps[..|ps| - 1] then front else front + [ps[|ps| - 1]]
  }

  ghost predicate Distinct(ps: seq<Path>) { forall i, j :: 0 <= i < j < |ps| ==> ps[i] != ps[j] }

  lemma {:induction false} AddsLive(ps: seq<Path>, p: Path)
    ensures Live(Adds(ps), p) <==> p in ps
    decreases |ps|
  {
    if ps != [] {
      var n := |ps| - 1;
      assert Adds(ps)[..n] == Adds(ps[..n]);
      AddsLive(ps[..n], p);
      assert ps == ps[..n] + [ps[n]];
    }
  }

  lemma {:induction false} AddsOrder(ps: seq<Path>)
    ensures Order(Adds(ps)) == Dedup(ps)
    decreases |ps|
  {
    if ps != [] {
      var n := |ps| - 1;
      assert Adds(ps)[..n] == Adds(ps[..n]);
      AddsOrder(ps[..n]);
      AddsLive(ps[..n], ps[n]);
    }
  }

  lemma {:induction false} DedupOk(ps: seq<Path>)
    ensures Distinct(Dedup(ps)) && forall p :: p in Dedup(ps) <==> p in ps
    decreases |ps|
  {
    if ps != [] {
      var n := |ps| - 1;
      DedupOk(ps[..n]);
      assert ps == ps[..n] + [ps[n]];
    }
  }

  lemma {:induction false} DedupDistinct(ps: seq<Path>)
    ensures Distinct(ps) <==> Dedup(ps) == ps
    decreases |ps|
  {
    if Distinct(ps) {
      if ps != [] {
        DedupDistinct(ps[..|ps| - 1]);
        assert ps == ps[..|ps| - 1] + [ps[|ps| - 1]];
      }
    } else {
      DedupOk(ps);
    }
  }

  lemma {:induction false} FilterAll(ps: seq<Path>, es: seq<Entry>)
    requires forall p :: p in ps ==> Live(es, p)
    ensures Filter(ps, es) == ps
    decreases |ps|
  {
    if ps != [] {
      var n := |ps| - 1;
      FilterAll(ps[..n], es);
      assert ps == ps[..n] + [ps[n]];
    }
  }

  /** The live list of a compacted log is the list without its repetitions. */
  lemma AddsList(ps: seq<Path>)
    ensures LiveList(Adds(ps)) == Dedup(ps)
  {
    AddsOrder(ps);
    DedupOk(ps);
    forall p | p in Dedup(ps) ensures Live(Adds(ps), p) { AddsLive(ps, p); }
    FilterAll(Dedup(ps), Adds(ps));
  }

  /** Compacting preserves which paths are live. */
  lemma CompactPreservesLive(es: seq<Entry>, p: Path)
    ensures Live(Compacted(es), p) <==> Live(es, p)
  {
    AddsLive(LiveList(es), p);
    ListedIffLive(es, p);
  }

  lemma AddsInjective(ps: seq<Path>, qs: seq<Path>)
    requires Adds(ps) == Adds(qs)
    ensures ps == qs
  {
    assert |ps| == |qs|;
    forall i | 0 <= i < |ps| ensures ps[i] == qs[i] { assert Adds(ps)[i] == Adds(qs)[i]; }
  }

  lemma MinimalIffDistinct(es: seq<Entry>)
    ensures Minimal(Compacted(es)) <==> Distinct(LiveList(es))
  {
    var ps := LiveList(es);
    AddsList(ps);
    DedupDistinct(ps);
    if Minimal(Compacted(es)) { AddsInjective(ps, Dedup(ps)); }
  }

  ghost predicate AddAt(es: seq<Entry>, p: Path, i: int) { 0 <= i < |es| && es[i] == Entry(Add, p) }

  ghost predicate RmAt(es: seq<Entry>, p: Path, i: int) { 0 <= i < |es| && es[i] == Entry(Rm, p) }

  /** The path was added, and later removed. */
  ghost predicate Removed(es: seq<Entry>, p: Path) { exists i, j :: i < j && AddAt(es, p, i) && RmAt(es, p, j) }

  /** The path was added, later removed, and later added again. */
  ghost predicate Revived(es: seq<Entry>, p: Path) {
    exists i, j, k :: i < j < k && AddAt(es, p, i) && RmAt(es, p, j) && AddAt(es, p, k)
  }

  ghost predicate LivesOnce(es: seq<Entry>, p: Path) { Live(es, p) ==> !Revived(es, p) }

  /** An added path that is not live was removed; a removed one that was not added again is not live. */
  lemma {:induction false} LiveOrRemoved(es: seq<Entry>, p: Path)
    ensures (exists i :: AddAt(es, p, i)) && !Live(es, p) ==> Removed(es, p)
    ensures Removed(es, p) && !Revived(es, p) ==> !Live(es, p)
    ensures Live(es, p) ==> exists i :: AddAt(es, p, i)
  {
    LiveIffLastIsAdd(es, p);
    if Live(es, p) {
      var k :| 0 <= k < |es| && es[k] == Entry(Add, p);
      assert AddAt(es, p, k);
    }
    if i :| AddAt(es, p, i) {
      if !Live(es, p) { RemovedLater(es, p, i); }
    }
    if Removed(es, p) && Live(es, p) {
      var k :| 0 <= k < |es| && es[k] == Entry(Add, p) && forall j :: k < j < |es| ==> es[j].path != p;
      var i, j :| i < j && AddAt(es, p, i) && RmAt(es, p, j);
      assert AddAt(es, p, k) && j < k;
    }
  }

  /** Behind an add of a path that is not live there is a removal of it. */
  lemma {:induction false} RemovedLater(es: seq<Entry>, p: Path, i: int)
    requires AddAt(es, p, i) && !Live(es, p)
    ensures Removed(es, p)
    decreases |es|
  {
    var n := |es| - 1;
    if es[n].path == p {
      assert AddAt(es, p, i) && RmAt(es, p, n);
    } else {
      assert AddAt(es[..n], p, i);
      RemovedLater(es[..n], p, i);
      var a, b :| a < b && AddAt(es[..n], p, a) && RmAt(es[..n], p, b);
      assert AddAt(es, p, a) && RmAt(es, p, b);
    }
  }

  lemma AddsBefore(es: seq<Entry>, n: nat, p: Path)
    requires n < |es|
    ensures forall i :: AddAt(es[..n], p, i) <==> i < n && AddAt(es, p, i)
    ensures forall i :: RmAt(es[..n], p, i) <==> i < n && RmAt(es, p, i)
  {
  }

  /** How often a path has become live, told by its operations. */
  lemma {:induction false} BecameLive(es: seq<Entry>, p: Path)
    ensures Count(Order(es), p) >= 1 <==> exists i :: AddAt(es, p, i)
    ensures Count(Order(es), p) >= 2 <==> Revived(es, p)
    decreases |es|
  {
    if es != [] {
      var n := |es| - 1;
      BecameLive(es[..n], p);
      LiveOrRemoved(es[..n], p);
      AddsBefore(es, n, p);
      OrderStep(es, p);
      BecameStep(es, n, p);
    }
  }

  lemma OrderStep(es: seq<Entry>, p: Path)
    requires es != []
    ensures
      var n := |es| - 1;
      Count(Order(es), p) == Count(Order(es[..n]), p) + if es[n] == Entry(Add, p) && !Live(es[..n], p) then 1 else 0
  {
    var n := |es| - 1;
    var front := Order(es[..n]);
    if es[n].op.Add? && !Live(es[..n], es[n].path) {
      assert Order(es)[..|front|] == front;
    } else {
      assert front + [] == front;
    }
  }

  /** The last operation revives a removed path, or nothing changes. */
  lemma BecameStep(es: seq<Entry>, n: nat, p: Path)
    requires |es| == n + 1
    requires forall i :: AddAt(es[..n], p, i) <==> i < n && AddAt(es, p, i)
    requires forall i :: RmAt(es[..n], p, i) <==> i < n && RmAt(es, p, i)
    ensures Revived(es, p) <==> Revived(es[..n], p) || (AddAt(es, p, n) && Removed(es[..n], p))
    ensures (exists i :: AddAt(es, p, i)) <==> (exists i :: AddAt(es[..n], p, i)) || AddAt(es, p, n)
  {
    if Revived(es, p) {
      var i, j, k :| i < j < k && AddAt(es, p, i) && RmAt(es, p, j) && AddAt(es, p, k);
      assert AddAt(es[..n], p, i) && RmAt(es[..n], p, j);
    }
    if Revived(es[..n], p) {
      var i, j, k :| i < j < k && AddAt(es[..n], p, i) && RmAt(es[..n], p, j) && AddAt(es[..n], p, k);
      assert AddAt(es, p, i) && RmAt(es, p, j) && AddAt(es, p, k);
    }
    if AddAt(es, p, n) && Removed(es[..n], p) {
      var i, j :| i < j && AddAt(es[..n], p, i) && RmAt(es[..n], p, j);
      assert AddAt(es, p, i) && RmAt(es, p, j) && AddAt(es, p, n);
    }
    if i :| AddAt(es[..n], p, i) { assert AddAt(es, p, i); }
  }

  ghost predicate AtMostOnce(ps: seq<Path>, p: Path) { Count(ps, p) <= 1 }

  lemma {:induction false} DistinctIffCounted(ps: seq<Path>)
    ensures Distinct(ps) <==> forall p :: AtMostOnce(ps, p)
    decreases |ps|
  {
    if ps != [] {
      var n := |ps| - 1;
      DistinctIffCounted(ps[..n]);
      CountPositive(ps[..n], ps[n]);
      if Distinct(ps) {
        forall p ensures AtMostOnce(ps, p) { assert AtMostOnce(ps[..n], p); }
      }
      if forall p :: AtMostOnce(ps, p) {
        forall p ensures AtMostOnce(ps[..n], p) { assert AtMostOnce(ps, p); }
        assert AtMostOnce(ps, ps[n]);
        forall i, j | 0 <= i < j < |ps| ensures ps[i] != ps[j] { assert ps[..n][i] == ps[i]; }
      }
    }
  }

  /** One compaction reaches the minimal form exactly if no live path was added, removed and added again. */
  lemma MinimalAfterOneIff(es: seq<Entry>)
    ensures Minimal(Compacted(es)) <==> forall p :: LivesOnce(es, p)
  {
    MinimalIffDistinct(es);
    DistinctIffCounted(LiveList(es));
    forall p ensures AtMostOnce(LiveList(es), p) <==> LivesOnce(es, p) {
      ListedIffLive(es, p);
      BecameLive(es, p);
    }
  }

  /** Two compactions always reach it, and a third changes nothing. */
  lemma MinimalAfterTwo(es: seq<Entry>)
    ensures Minimal(Compacted(Compacted(es))) && Compacted(Compacted(Compacted(es))) == Compacted(Compacted(es))
  {
    var ps := LiveList(es);
    AddsList(ps);
    DedupOk(ps);
    DedupDistinct(Dedup(ps));
    AddsList(Dedup(ps));
  }

  /** A whole record starts at `at`. */
  predicate WholeAt(b: seq<byte>, at: nat) {
    at + 5 <= |b| && at + 5 + Value(b[at + 1..at + 5]) <= |b|
  }

  function EntryAt(b: seq<byte>, at: nat): Entry
    requires WholeAt(b, at)
  {
    Entry(if b[at] == 1 then Rm else Add, b[at + 5..at + 5 + Value(b[at + 1..at + 5])])
  }

  /** Reading on from position `at`. */
  lemma ReadOn(b: seq<byte>, at: nat, es: seq<Entry>)
    requires WholeAt(b, at)
    ensures es + Entries(b[at..]) == es + [EntryAt(b, at)] + Entries(b[at + 5 + Value(b[at + 1..at + 5])..])
  {
    var rest := b[at..];
    assert rest[1..5] == b[at + 1..at + 5];
    var len := Value(rest[1..5]);
    assert rest[5..5 + len] == b[at + 5..at + 5 + len] && rest[5 + len..] == b[at + 5 + len..];
    assert FirstRecord(rest) == Some((EntryAt(b, at), 5 + len));
  }

  lemma ReadEnd(b: seq<byte>, at: nat, es: seq<Entry>)
    requires at <= |b| && !WholeAt(b, at)
    ensures es + Entries(b[at..]) == es
  {
    var rest := b[at..];
    if |rest| >= 5 { assert rest[1..5] == b[at + 1..at + 5]; }
    assert FirstRecord(rest).None?;
  }

  /** Paths read from a log are shorter than 2^32. */
  lemma {:induction false} EntriesShort(b: seq<byte>, i: nat)
    requires i < |Entries(b)|
    ensures |Entries(b)[i].path| < U32
    decreases |b|
  {
    var r := FirstRecord(b).value;
    Widths();
    if i > 0 { EntriesShort(b[r.1..], i - 1); }
  }

  /** So a compacted log reads back as written. */
  lemma CompactReadsBack(b: seq<byte>)
    ensures Entries(Records(Compacted(Entries(b)))) == Compacted(Entries(b))
  {
    var es := Entries(b);
    var ps := LiveList(es);
    forall i | 0 <= i < |Adds(ps)| ensures |Adds(ps)[i].path| < U32 {
      ListedIffLive(es, ps[i]);
      LiveIffLastIsAdd(es, ps[i]);
      var k :| 0 <= k < |es| && es[k] == Entry(Add, ps[i]);
      EntriesShort(b, k);
    }
    RoundTripIff(Adds(ps));
  }

  // ------------------------------------------------------------- a compaction that is cut short

  lemma {:induction false} RecordsClean(es: seq<Entry>)
    ensures Clean(Records(es))
    decreases |es|
  {
    if es != [] {
      FirstOfRecord(es[0], Records(es[1..]));
      RecordsClean(es[1..]);
    }
  }

  lemma WholeIffAll(es: seq<Entry>, k: nat)
    requires k <= |Records(es)|
    ensures Whole(es, k) == |es| <==> k == |Records(es)|
  {
    WholeIsMost(es, k);
    assert es[..|es|] == es;
    if Whole(es, k) < |es| {
      var n := Whole(es, k) + 1;
      assert es == es[..n] + es[n..];
      RecordsJoin(es[..n], es[n..]);
    }
  }

  lemma {:induction false} RecordsJoin(a: seq<Entry>, b: seq<Entry>)
    ensures Records(a + b) == Records(a) + Records(b)
    decreases |a|
  {
    if a == [] {
      assert a + b == b;
    } else {
      assert (a + b)[1..] == a[1..] + b;
      RecordsJoin(a[1..], b);
    }
  }

  /** What a log reads as when only `k` bytes of its compacted form arrived: the first records of that form. */
  lemma CutCompaction(b: seq<byte>, k: nat)
    requires k <= |Records(Compacted(Entries(b)))|
    ensures
      var c := Compacted(Entries(b));
      && Entries(Records(c)[..k]) == c[..Whole(c, k)]
      && (Entries(Records(c)[..k]) == c <==> k == |Records(c)|)
  {
    var c := Compacted(Entries(b));
    CompactReadsBack(b);
    ReadsBack(c);
    TornTail(c, k);
    WholeIffAll(c, k);
  }

  /** The paths that survive are those listed among these records. */
  lemma SurvivesIffListed(b: seq<byte>, k: nat, p: Path)
    requires k <= |Records(Compacted(Entries(b)))|
    ensures
      var c := Compacted(Entries(b));
      Live(Entries(Records(c)[..k]), p) <==> p in LiveList(Entries(b))[..Whole(c, k)]
  {
    var es := Entries(b);
    var ps, n := LiveList(es), Whole(Compacted(es), k);
    CutCompaction(b, k);
    assert Compacted(es)[..n] == Adds(ps[..n]);
    AddsLive(ps[..n], p);
  }

  lemma AddedTwice(p: Path)
    requires |p| < U32
    ensures
      var e := Entry(Add, p);
      Entries(Records([e, e])) == [e, e] && Compacted([e, e]) == [e]
  {
    var e := Entry(Add, p);
    RoundTripIff([e, e]);
    assert [e, e] == Adds([p, p]);
    AddsList([p, p]);
    assert Dedup([p]) == [p] by { assert [p][..0] == []; }
    assert Dedup([p, p]) == [p] by { assert [p, p][..1] == [p]; }
    assert Adds([p]) == [e];
  }

  /** A losing case, for any path: added twice, compacted, and nothing of the new file arrived. */
  lemma CompactionLoses(p: Path)
    requires |p| < U32
    ensures
      var b := Records([Entry(Add, p), Entry(Add, p)]);
      && Live(Entries(b), p) && !Minimal(Entries(b))
      && !Live(Entries(Records(Compacted(Entries(b)))[..0]), p)
  {
    AddedTwice(p);
    var nothing: seq<byte> := [];
    assert Entries(nothing) == [];
    assert Records([Entry(Add, p)])[..0] == nothing;
  }

  /** A minimal log is not rewritten, so a torn tail stays, and the next append is misread. */
  lemma MinimalStaysTorn()
    ensures
      var torn: seq<byte> := [0];
      && Minimal(Entries(torn)) && !Clean(torn)
      && Entries(torn + Record(Entry(Rm, []))) != Entries(torn) + [Kept(Entry(Rm, []))]
  {
    AppendAfterTear();
    var none: seq<Entry> := [];
    var removed := Entry(Rm, []);
    assert (none + [Kept(removed)])[0].op == Rm;
  }

  // -------------------------------------------------------------------------- the log file

  class Log {
    var file: Option<seq<byte>>   // None: there is no file yet

    function Bytes(): seq<byte>
      reads this
    {
      if file.Some? then file.value else []
    }

    constructor (existing: Option<seq<byte>>)
      ensures file == existing
    {
      file := existing;
    }

    /**
     * AppendEntry. `dir` and `isOpen` say whether the directory and the file are there, `good` what the
     * stream reports when it is asked, and `written` how many bytes reach the file in the end: the
     * stream is asked before its buffer is flushed, so success says nothing about the file.
     */
    method AppendEntry(op: Op, path: Path, dir: bool, isOpen: bool, good: bool, written: nat) returns (ok: bool)
      modifies this
      ensures ok <==> dir && isOpen && good
      ensures !(dir && isOpen) ==> file == old(file)
      ensures dir && isOpen ==>
        file == Some(old(Bytes()) + Record(Entry(op, path))[..Min(written, |Record(Entry(op, path))|)])
      ensures dir && isOpen && written >= |Record(Entry(op, path))| ==>
        (Entries(Bytes()) == old(Entries(Bytes())) + [Kept(Entry(op, path))] && Clean(Bytes()) <==> old(Clean(Bytes())))
      ensures dir && isOpen && written < |Record(Entry(op, path))| && old(Clean(Bytes())) ==>
        Entries(Bytes()) == old(Entries(Bytes())) && (Clean(Bytes()) <==> written == 0)
    {
      if !dir || !isOpen { return false; }
      AppendIffClean(Bytes(), Entry(op, path));
      var len := |path| % U32;
      var out := [OpByte(op)];
      out := out + Encode(len, 4);
      out := out + path[..len];
      assert out == Record(Entry(op, path));
      if written < |out| && Clean(Bytes()) { CutAppend(Bytes(), Entry(op, path), written); }
      file := Some(Bytes() + out[..Min(written, |out|)]);
      assert out[..|out|] == out;
      ok := good;
    }

    /** One record: its op byte, its length, its path; nothing if any of them is cut short. */
    static method NextRecord(b: seq<byte>, at: nat) returns (e: Option<Entry>, size: nat)
      requires at <= |b|
      ensures e.Some? <==> WholeAt(b, at)
      ensures e.Some? ==> e.value == EntryAt(b, at) && size == 5 + Value(b[at + 1..at + 5])
    {
      if |b| - at < 5 { return None, 0; }
      var len := Decode(b[at + 1..at + 5]);
      size := 5 + len;
      e := if |b| - at < size then None else Some(Entry(if b[at] == 1 then Rm else Add, b[at + 5..at + size]));
    }

    /** ReadAll: record by record, stopping at the end or at a torn record. */
    method ReadAll() returns (es: seq<Entry>)
      ensures es == Entries(Bytes())
    {
      es := [];
      if file.None? { return; }
      var b := file.value;
      var at: nat := 0;
      assert b[0..] == b && [] + Entries(b) == Entries(b);
      while true
        invariant at <= |b| && Entries(b) == es + Entries(b[at..])
        decreases |b| - at
      {
        var e, size := NextRecord(b, at);
        if e.None? {
          ReadEnd(b, at, es);
          break;
        }
        ReadOn(b, at, es);
        es, at := es + [e.value], at + size;
      }
    }

    /** LiveSet: replay, then the paths still live in the order they became so. */
    method LiveSet() returns (live: seq<Path>)
      ensures live == LiveList(Entries(Bytes()))
    {
      var es := ReadAll();
      var order: seq<Path>, alive: set<Path> := [], {};
      assert es[..0] == [];
      for i := 0 to |es|
        invariant order == Order(es[..i]) && forall p :: p in alive <==> Live(es[..i], p)
      {
        assert es[..i + 1][..i] == es[..i];
        if es[i].op.Add? {
          if es[i].path !in alive { order := order + [es[i].path]; }
          alive := alive + {es[i].path};
        } else {
          alive := alive - {es[i].path};
        }
      }
      assert es[..|es|] == es;
      live := [];
      assert order[..0] == [];
      for i := 0 to |order|
        invariant live == Filter(order[..i], es)
      {
        assert order[..i + 1][..i] == order[..i];
        if order[i] in alive { live := live + [order[i]]; }
      }
      assert order[..|order|] == order;
    }

    method IsRestartable(path: Path) returns (r: bool)
      ensures r <==> Live(Entries(Bytes()), path)
    {
      var live := LiveSet();
      ListedIffLive(Entries(Bytes()), path);
      r := path in live;
    }

    static method IsMinimal(es: seq<Entry>, live: seq<Path>) returns (r: bool)
      ensures r <==> es == Adds(live)
    {
      if |es| != |live| { return false; }
      for i := 0 to |es|
        invariant forall j :: 0 <= j < i ==> es[j] == Adds(live)[j]
      {
        if es[i].op != Add || es[i].path != live[i] {
          assert es[i] != Adds(live)[i];
          return false;
        }
      }
      r := true;
    }

    static method AddRecords(live: seq<Path>) returns (out: seq<byte>)
      ensures out == Records(Adds(live))
    {
      out := [];
      for i := 0 to |live|
        invariant out + Records(Adds(live[i..])) == Records(Adds(live))
      {
        assert Adds(live[i..])[0] == Entry(Add, live[i]) && Adds(live[i..])[1..] == Adds(live[i + 1..]);
        out := out + Record(Entry(Add, live[i]));
      }
      assert out + [] == out;
    }

    /**
     * Compact: no rewrite if the log is minimal; else one add per listed path, written to a temporary
     * file that replaces the log. The temporary file too is asked before its buffer is flushed, so
     * one of which only `written` bytes arrived may replace the log.
     */
    method Compact(dir: bool, isOpen: bool, good: bool, written: nat, renamed: bool) returns (ok: bool)
      modifies this
      ensures ok <==> old(Minimal(Entries(Bytes()))) || (dir && isOpen && good && renamed)
      ensures !ok || old(Minimal(Entries(Bytes()))) ==> file == old(file)
      ensures
        var c := Compacted(old(Entries(Bytes())));
        ok && !old(Minimal(Entries(Bytes()))) ==>
          && Entries(Bytes()) == c[..Whole(c, Min(written, |Records(c)|))]
          && (Entries(Bytes()) == c <==> written >= |Records(c)|)
          && (written >= |Records(c)| ==> Clean(Bytes()))
    {
      var es := ReadAll();
      var live := LiveSet();
      var minimal := IsMinimal(es, live);
      if minimal { return true; }
      if !dir || !isOpen { return false; }
      var out := AddRecords(live);
      if !good || !renamed { return false; }
      CutCompaction(Bytes(), Min(written, |out|));
      RecordsClean(Compacted(es));
      file := Some(out[..Min(written, |out|)]);
      assert out[..|out|] == out;
      ok := true;
    }
  }
}

/**
 * The address table of a node: which node serves each container of each pool, the log
 * that every change is written to, and its replay at start-up.
 */
module AddressTable {
  import opened Words
  import opened LittleEndian

  type Pool = (u32, u32)
  type Table = map<Pool, map<u32, u32>>

  /** One log record; the time and the old node are written but not used by the replay. */
  datatype Update = Update(time: u64, pool: Pool, container: u32, oldNode: u32, newNode: u32)

  // -------------------------------------------------------------------------- record format

  const RECORD := 28

  function Record(u: Update): (b: seq<byte>)
    ensures |b| == RECORD
  {
    Encode(u.time, 8) + Encode(u.pool.0, 4) + Encode(u.pool.1, 4)
    + Encode(u.container, 4) + Encode(u.oldNode, 4) + Encode(u.newNode, 4)
  }

  function Field(b: seq<byte>, at: nat): (v: u32)
    requires at + 4 <= |b|
  {
    Widths();
    Value(b[at..at + 4])
  }

  function Parse(b: seq<byte>): Update
    requires |b| >= RECORD
  {
    Widths();
    Update(Value(b[0..8]), (Field(b, 8), Field(b, 12)), Field(b, 16), Field(b, 20), Field(b, 24))
  }

  function Records(us: seq<Update>): (b: seq<byte>)
    ensures |b| == RECORD * |us|
  {
    if us == [] then [] else Record(us[0]) + Records(us[1..])
  }

  /** Whole records up to the end; a torn one ends the reading. */
  function Updates(b: seq<byte>): seq<Update>
    decreases |b|
  {
    if |b| < RECORD then [] else [Parse(b)] + Updates(b[RECORD..])
  }

  /** Where a record has its fields: time, pool (two numbers), container, old node, new node. */
  lemma RecordLayout(u: Update)
    ensures
      var b := Record(u);
      && |b| == 28 && b[0..8] == Encode(u.time, 8) && b[8..12] == Encode(u.pool.0, 4) && b[12..16] == Encode(u.pool.1, 4)
      && b[16..20] == Encode(u.container, 4) && b[20..24] == Encode(u.oldNode, 4) && b[24..28] == Encode(u.newNode, 4)
  {
  }

  lemma ParseRecord(u: Update, rest: seq<byte>)
    ensures Parse(Record(u) + rest) == u
  {
    var r, b := Record(u), Record(u) + rest;
    RecordLayout(u);
    Widths();
    ValueEncode(u.time, 8);
    assert b[0..8] == r[0..8];
    FieldRecord(u.pool.0, r, rest, 8);
    FieldRecord(u.pool.1, r, rest, 12);
    FieldRecord(u.container, r, rest, 16);
    FieldRecord(u.oldNode, r, rest, 20);
    FieldRecord(u.newNode, r, rest, 24);
  }

  lemma FieldRecord(v: u32, r: seq<byte>, rest: seq<byte>, at: nat)
    requires at + 4 <= |r| && r[at..at + 4] == Encode(v, 4)
    ensures Field(r + rest, at) == v
  {
    assert (r + rest)[at..at + 4] == r[at..at + 4];
    Widths();
    ValueEncode(v, 4);
  }

  lemma UpdatesCons(u: Update, rest: seq<byte>)
    ensures Updates(Record(u) + rest) == [u] + Updates(rest)
  {
    ParseRecord(u, rest);
    assert (Record(u) + rest)[RECORD..] == rest;
  }

  /** A log reads back what was written, and a torn last record is ignored. */
  lemma {:induction false} ReadsBack(us: seq<Update>, torn: seq<byte>)
    requires |torn| < RECORD
    ensures Updates(Records(us) + torn) == us
    decreases |us|
  {
    if us == [] {
      assert Records(us) + torn == torn;
    } else {
      assert Records(us) + torn == Record(us[0]) + (Records(us[1..]) + torn);
      UpdatesCons(us[0], Records(us[1..]) + torn);
      ReadsBack(us[1..], torn);
    }
  }

  lemma {:induction false} RecordsSnoc(us: seq<Update>, u: Update)
    ensures Records(us + [u]) == Records(us) + Record(u)
    decreases |us|
  {
    if us == [] {
      assert us + [u] == [u] && [u][1..] == [];
    } else {
      assert (us + [u])[1..] == us[1..] + [u];
      RecordsSnoc(us[1..], u);
    }
  }

  /** Whole records only. */
  predicate Aligned(b: seq<byte>) { |b| % RECORD == 0 }

  lemma {:induction false} UpdatesJoin(b: seq<byte>, c: seq<byte>)
    requires Aligned(b)
    ensures Updates(b + c) == Updates(b) + Updates(c)
    decreases |b|
  {
    if |b| < RECORD {
      assert b == [] && b + c == c;
    } else {
      assert (b + c)[RECORD..] == b[RECORD..] + c;
      ParsePrefix(b, c);
      UpdatesJoin(b[RECORD..], c);
    }
  }

  lemma ParsePrefix(b: seq<byte>, c: seq<byte>)
    requires |b| >= RECORD
    ensures Parse(b + c) == Parse(b)
  {
    var d := b + c;
    assert d[0..8] == b[0..8] && d[8..12] == b[8..12] && d[12..16] == b[12..16] && d[16..20] == b[16..20]
           && d[20..24] == b[20..24] && d[24..28] == b[24..28];
  }

  /** The low byte of the time is the first byte of a record. */
  lemma FirstByte(b: seq<byte>)
    requires |b| >= RECORD
    ensures Parse(b).time % 256 == b[0]
  {
    assert b[0..8][0] == b[0];
  }

  ghost predicate AppendsTo(b: seq<byte>, u: Update) { Updates(b + Record(u)) == Updates(b) + [u] }

  /**
   * Behind a torn record nothing can be appended: the new bytes complete it. Appending adds exactly
   * its update, whatever it is, if and only if the file holds whole records only.
   */
  lemma {:induction false} AppendsIffAligned(b: seq<byte>)
    ensures (forall u :: AppendsTo(b, u)) <==> Aligned(b)
  {
    if Aligned(b) {
      forall u ensures AppendsTo(b, u) {
        UpdatesJoin(b, Record(u));
        assert Record(u) + [] == Record(u);
        UpdatesCons(u, []);
      }
    } else {
      var u := Misread(b);
    }
  }

  lemma SplitTorn(b: seq<byte>) returns (whole: seq<byte>, torn: seq<byte>)
    ensures b == whole + torn && Aligned(whole) && |torn| == |b| % RECORD
  {
    var k := |b| - |b| % RECORD;
    whole, torn := b[..k], b[k..];
  }

  lemma {:induction false} TornSwallows(torn: seq<byte>, u: Update)
    requires 0 < |torn| < RECORD && u.time % 256 != torn[0]
    ensures Updates(torn + Record(u)) != [] && Updates(torn + Record(u))[0] != u
  {
    FirstByte(torn + Record(u));
  }

  /** A torn record at the end gives the next one another first byte. */
  lemma {:induction false} Misread(b: seq<byte>) returns (u: Update)
    requires !Aligned(b)
    ensures !AppendsTo(b, u)
  {
    var whole, torn := SplitTorn(b);
    u := Update(if torn[0] == 0 then 1 else 0, (0, 0), 0, 0, 0);
    TornSwallows(torn, u);
    MisreadFrom(whole, torn, Record(u), u);
  }

  lemma {:induction false} TornIgnored(whole: seq<byte>, torn: seq<byte>)
    requires Aligned(whole) && |torn| < RECORD
    ensures Updates(whole + torn) == Updates(whole)
  {
    UpdatesJoin(whole, torn);
    assert Updates(whole) + [] == Updates(whole);
  }

  lemma {:induction false} MisreadFrom(whole: seq<byte>, torn: seq<byte>, r: seq<byte>, u: Update)
    requires Aligned(whole) && |torn| < RECORD && Updates(torn + r) != [] && Updates(torn + r)[0] != u
    ensures Updates(whole + torn + r) != Updates(whole + torn) + [u]
  {
    TornIgnored(whole, torn);
    assert Updates(whole + torn + r) == Updates(whole) + Updates(torn + r) by {
      UpdatesJoin(whole, torn + r);
      assert whole + (torn + r) == whole + torn + r;
    }
    Differ(Updates(whole), Updates(torn + r), u);
  }

  lemma Differ(a: seq<Update>, b: seq<Update>, u: Update)
    requires b != [] && b[0] != u
    ensures a + b != a + [u]
  {
    assert (a + b)[|a|] == b[0] && (a + [u])[|a|] == u;
  }

  // ------------------------------------------------------------------------------- updates

  /** A change to a pool that is not known is dropped. */
  function Applied(t: Table, u: Update): Table {
    if u.pool in t then
      var m: map<u32, u32> := t[u.pool][u.container := u.newNode];
      t[u.pool := m]
    else t
  }

  function AllApplied(t: Table, us: seq<Update>): Table
    decreases |us|
  {
    if us == [] then t else Applied(AllApplied(t, us[..|us| - 1]), us[|us| - 1])
  }

  /** The last node written for a container. */
  function Last(us: seq<Update>, p: Pool, c: u32): Option<u32>
    decreases |us|
  {
    if us == [] then None
    else
      var u := us[|us| - 1];
      if u.pool == p && u.container == c then Some(u.newNode) else Last(us[..|us| - 1], p, c)
  }

  function Lookup(t: Table, p: Pool, c: u32): Option<u32> {
    if p in t && c in t[p] then Some(t[p][c]) else None
  }

  /** Last writer wins, pool by pool and container by container. */
  lemma {:induction false} LastWriterWins(t: Table, us: seq<Update>)
    ensures AllApplied(t, us).Keys == t.Keys
    ensures forall p, c :: p in t ==>
      Lookup(AllApplied(t, us), p, c) == if Last(us, p, c).Some? then Last(us, p, c) else Lookup(t, p, c)
    decreases |us|
  {
    if us != [] {
      var n := |us| - 1;
      LastWriterWins(t, us[..n]);
      var m := AllApplied(t, us[..n]);
      forall p, c | p in t
        ensures Lookup(AllApplied(t, us), p, c) == if Last(us, p, c).Some? then Last(us, p, c) else Lookup(t, p, c)
      {
        AppliedAt(m, us[n], p, c);
      }
    }
  }

  lemma AppliedAt(t: Table, u: Update, p: Pool, c: u32)
    requires p in t
    ensures Lookup(Applied(t, u), p, c) == if u.pool == p && u.container == c then Some(u.newNode) else Lookup(t, p, c)
  {
  }

  /** Tables with the same pools and the same look-ups are equal. */
  lemma TablesEqual(a: Table, b: Table)
    requires a.Keys == b.Keys && forall p, c :: p in a ==> Lookup(a, p, c) == Lookup(b, p, c)
    ensures a == b
  {
    forall p | p in a ensures a[p] == b[p] {
      forall c ensures (c in a[p] <==> c in b[p]) && (c in a[p] ==> a[p][c] == b[p][c]) {
        assert Lookup(a, p, c) == Lookup(b, p, c);
      }
    }
  }

  lemma {:induction false} LastJoin(a: seq<Update>, b: seq<Update>, p: Pool, c: u32)
    ensures Last(a + b, p, c) == if Last(b, p, c).Some? then Last(b, p, c) else Last(a, p, c)
    decreases |b|
  {
    if b == [] {
      assert a + b == a;
    } else {
      assert (a + b)[..|a + b| - 1] == a + b[..|b| - 1];
      LastJoin(a, b[..|b| - 1], p, c);
    }
  }

  /** Two logs with the same last writers have the same effect. */
  lemma SameLast(t: Table, us: seq<Update>, vs: seq<Update>)
    requires forall p, c :: p in t ==> Last(us, p, c) == Last(vs, p, c)
    ensures AllApplied(t, us) == AllApplied(t, vs)
  {
    LastWriterWins(t, us);
    LastWriterWins(t, vs);
    TablesEqual(AllApplied(t, us), AllApplied(t, vs));
  }

  lemma {:induction false} AppliedJoin(t: Table, a: seq<Update>, b: seq<Update>)
    ensures AllApplied(t, a + b) == AllApplied(AllApplied(t, a), b)
    decreases |b|
  {
    if b == [] {
      assert a + b == a;
    } else {
      assert (a + b)[..|a + b| - 1] == a + b[..|b| - 1];
      AppliedJoin(t, a, b[..|b| - 1]);
    }
  }

  /** A second replay changes nothing. */
  lemma ReplayTwice(t: Table, us: seq<Update>)
    ensures AllApplied(AllApplied(t, us), us) == AllApplied(t, us)
  {
    AppliedJoin(t, us, us);
    forall p, c | p in t ensures Last(us + us, p, c) == Last(us, p, c) { LastJoin(us, us, p, c); }
    SameLast(t, us + us, us);
  }

  /** The two logs agree on every container of a known pool that both write. */
  ghost predicate Agree(t: Table, a: seq<Update>, b: seq<Update>) {
    forall p, c :: p in t && Last(a, p, c).Some? && Last(b, p, c).Some? ==> Last(a, p, c) == Last(b, p, c)
  }

  /** The order of two logs does not matter if and only if they agree. */
  lemma OrderIrrelevantIff(t: Table, a: seq<Update>, b: seq<Update>)
    ensures AllApplied(AllApplied(t, a), b) == AllApplied(AllApplied(t, b), a) <==> Agree(t, a, b)
  {
    AppliedJoin(t, a, b);
    AppliedJoin(t, b, a);
    if Agree(t, a, b) {
      forall p, c | p in t ensures Last(a + b, p, c) == Last(b + a, p, c) {
        LastJoin(a, b, p, c);
        LastJoin(b, a, p, c);
      }
      SameLast(t, a + b, b + a);
    } else {
      var p, c :| p in t && Last(a, p, c).Some? && Last(b, p, c).Some? && Last(a, p, c) != Last(b, p, c);
      LastJoin(a, b, p, c);
      LastJoin(b, a, p, c);
      LastWriterWins(t, a + b);
      LastWriterWins(t, b + a);
      assert Lookup(AllApplied(t, a + b), p, c) != Lookup(AllApplied(t, b + a), p, c);
    }
  }

  // ------------------------------------------------------------------------------ recovery

  /** The updates of one pool. */
  function Of(us: seq<Update>, p: Pool): seq<Update>
    decreases |us|
  {
    if us == [] then [] else Of(us[..|us| - 1], p) + if us[|us| - 1].pool == p then [us[|us| - 1]] else []
  }

  lemma {:induction false} LastOf(us: seq<Update>, q: Pool, p: Pool, c: u32)
    ensures Last(Of(us, q), p, c) == if p == q then Last(us, p, c) else None
    decreases |us|
  {
    if us != [] {
      var n := |us| - 1;
      var front := Of(us[..n], q);
      LastOf(us[..n], q, p, c);
      if us[n].pool == q {
        assert Of(us, q)[..|front|] == front;
      } else {
        assert front + [] == front;
      }
    }
  }

  /** The logs of some pools, one after the other. */
  function Gathered(us: seq<Update>, order: seq<Pool>): seq<Update>
    decreases |order|
  {
    if order == [] then [] else Gathered(us, order[..|order| - 1]) + Of(us, order[|order| - 1])
  }

  lemma {:induction false} LastGathered(us: seq<Update>, order: seq<Pool>, p: Pool, c: u32)
    ensures Last(Gathered(us, order), p, c) == if p in order then Last(us, p, c) else None
    decreases |order|
  {
    if order != [] {
      var n := |order| - 1;
      LastGathered(us, order[..n], p, c);
      LastOf(us, order[n], p, c);
      LastJoin(Gathered(us, order[..n]), Of(us, order[n]), p, c);
      assert order == order[..n] + [order[n]];
    }
  }

  lemma {:induction false} LastNone(us: seq<Update>, p: Pool, c: u32)
    requires forall i :: 0 <= i < |us| ==> us[i].pool != p
    ensures Last(us, p, c) == None
    decreases |us|
  {
    if us != [] { LastNone(us[..|us| - 1], p, c); }
  }

  /**
   * Recovery: with one log per pool, replaying the logs in any order over the initial table gives
   * the table that the updates left in memory.
   */
  lemma RecoversLiveTable(t: Table, us: seq<Update>, order: seq<Pool>)
    requires forall i :: 0 <= i < |us| ==> us[i].pool in order
    ensures AllApplied(t, Gathered(us, order)) == AllApplied(t, us)
  {
    forall p, c | p in t ensures Last(Gathered(us, order), p, c) == Last(us, p, c) {
      LastGathered(us, order, p, c);
      if p !in order { LastNone(us, p, c); }
    }
    SameLast(t, Gathered(us, order), us);
  }

  // -------------------------------------------------------------------------- pool manager

  /** Containers 0 to n - 1, each on the node of the same number. */
  ghost predicate IsIdentity(m: map<u32, u32>, n: nat) {
    forall c: u32 :: (c in m <==> c < n) && (c in m ==> m[c] == c)
  }

  /** The log files, by pool: this node writes one file per pool. */
  type Files = map<Pool, seq<byte>>

  function Bytes(files: Files, p: Pool): seq<byte> { if p in files then files[p] else [] }

  /** The updates found in some files, one file after the other. */
  function Found(files: Files, order: seq<Pool>): seq<Update>
    decreases |order|
  {
    if order == [] then [] else Found(files, order[..|order| - 1]) + Updates(Bytes(files, order[|order| - 1]))
  }

  lemma ReadOn(b: seq<byte>, at: nat, done: seq<Update>)
    requires at + RECORD <= |b|
    ensures done + Updates(b[at..]) == done + [Parse(b[at..])] + Updates(b[at + RECORD..])
  {
    assert b[at..][RECORD..] == b[at + RECORD..];
  }

  lemma AppliedSnoc(t: Table, us: seq<Update>, u: Update)
    ensures AllApplied(t, us + [u]) == Applied(AllApplied(t, us), u)
  {
    assert (us + [u])[..|us|] == us;
  }

  class PoolManager {
    var initialized: bool
    var table: Table
    var files: Files

    constructor (pools: Table)
      ensures initialized && table == pools && files == map[]
    {
      initialized, table, files := true, pools, map[];
    }

    /** Every container starts on the node of the same number. */
    method InitAddressMap(p: Pool, containers: u32)
      modifies this`table
      ensures initialized && p in old(table) ==>
        p in table && IsIdentity(table[p], containers) && table == old(table)[p := table[p]]
      ensures !initialized || p !in old(table) ==> table == old(table)
    {
      if !initialized || p !in table { return; }
      var m: map<u32, u32> := map[];
      var i: u32 := 0;
      while i < containers
        invariant i <= containers && IsIdentity(m, i)
      {
        m := m[i := i];
        i := i + 1;
      }
      table := table[p := m];
    }

    method GetContainerNodeId(p: Pool, c: u32) returns (node: u32)
      ensures node == if initialized && Lookup(table, p, c).Some? then Lookup(table, p, c).value else 0
    {
      if !initialized || p !in table { return 0; }
      node := if c in table[p] then table[p][c] else 0;
    }

    method UpdateContainerNodeMapping(u: Update) returns (ok: bool)
      modifies this`table
      ensures ok <==> initialized && u.pool in old(table)
      ensures table == if initialized then Applied(old(table), u) else old(table)
    {
      if !initialized || u.pool !in table { return false; }
      var m: map<u32, u32> := table[u.pool][u.container := u.newNode];
      table := table[u.pool := m];
      ok := true;
    }

    method WriteAddressTableWAL(u: Update)
      modifies this`files
      ensures files == old(files)[u.pool := Bytes(old(files), u.pool) + Record(u)]
    {
      var out := Bytes(files, u.pool);
      out := out + Encode(u.time, 8);
      out := out + Encode(u.pool.0, 4) + Encode(u.pool.1, 4);
      out := out + Encode(u.container, 4);
      out := out + Encode(u.oldNode, 4);
      out := out + Encode(u.newNode, 4);
      assert out == Bytes(files, u.pool) + Record(u);
      files := files[u.pool := out];
    }

    /** A migration: logged, then applied. */
    method Migrate(u: Update)
      requires initialized
      modifies this
      ensures initialized && table == Applied(old(table), u)
      ensures files == old(files)[u.pool := Bytes(old(files), u.pool) + Record(u)]
    {
      WriteAddressTableWAL(u);
      var ok := UpdateContainerNodeMapping(u);
    }

    method ReadField(b: seq<byte>, at: nat) returns (v: u32)
      requires at + 4 <= |b|
      ensures v == Field(b, at)
    {
      Widths();
      v := Decode(b[at..at + 4]);
    }

    method ReadRecord(b: seq<byte>, at: nat) returns (u: Update)
      requires at + RECORD <= |b|
      ensures u == Parse(b[at..])
    {
      Widths();
      var rest := b[at..];
      var time := Decode(rest[0..8]);
      var major := ReadField(rest, 8);
      var minor := ReadField(rest, 12);
      var c := ReadField(rest, 16);
      var was := ReadField(rest, 20);
      var new_ := ReadField(rest, 24);
      u := Update(time, (major, minor), c, was, new_);
    }

    /** One file: record by record, stopping at a torn one. */
    method ReplayFile(b: seq<byte>)
      requires initialized
      modifies this`table
      ensures table == AllApplied(old(table), Updates(b))
    {
      var at := 0;
      ghost var done: seq<Update> := [];
      assert b[0..] == b && [] + Updates(b) == Updates(b);
      while at + RECORD <= |b|
        invariant at <= |b| && Updates(b) == done + Updates(b[at..]) && table == AllApplied(old(table), done)
      {
        ReadOn(b, at, done);
        var u := ReadRecord(b, at);
        AppliedSnoc(old(table), done, u);
        var ok := UpdateContainerNodeMapping(u);
        done := done + [u];
        at := at + RECORD;
      }
      assert done + [] == done;
    }

    /** All files, in whatever order the directory lists them. */
    method ReplayAddressTableWAL(order: seq<Pool>)
      requires initialized
      modifies this`table
      ensures table == AllApplied(old(table), Found(files, order))
    {
      assert order[..0] == [];
      for i := 0 to |order|
        invariant table == AllApplied(old(table), Found(files, order[..i]))
      {
        assert order[..i + 1][..i] == order[..i];
        AppliedJoin(old(table), Found(files, order[..i]), Updates(Bytes(files, order[i])));
        ReplayFile(Bytes(files, order[i]));
      }
      assert order[..|order|] == order;
    }
  }

  // --------------------------------------------------------- a life of the node, and recovery

  /** The files after logging some updates, starting from none. */
  function Logged(us: seq<Update>): Files
    decreases |us|
  {
    if us == [] then map[]
    else
      var files, u := Logged(us[..|us| - 1]), us[|us| - 1];
      files[u.pool := Bytes(files, u.pool) + Record(u)]
  }

  lemma {:induction false} LoggedBytes(us: seq<Update>, p: Pool)
    ensures Bytes(Logged(us), p) == Records(Of(us, p)) && (p in Logged(us) <==> exists i :: 0 <= i < |us| && us[i].pool == p)
    decreases |us|
  {
    if us != [] {
      var n := |us| - 1;
      LoggedBytes(us[..n], p);
      if us[n].pool == p {
        RecordsSnoc(Of(us[..n], p), us[n]);
      } else {
        assert Of(us[..n], p) + [] == Of(us[..n], p);
        if i :| 0 <= i < |us| && us[i].pool == p { assert us[..n][i].pool == p; }
      }
    }
  }

  /** The files as they are found: what was logged, each possibly followed by a torn record. */
  ghost predicate FoundAs(files: Files, us: seq<Update>) {
    && files.Keys == Logged(us).Keys
    && (forall p :: p in files ==>
          |files[p]| < |Logged(us)[p]| + RECORD && Logged(us)[p] <= files[p])
  }

  lemma FileReadsBack(files: Files, us: seq<Update>, p: Pool)
    requires FoundAs(files, us)
    ensures Updates(Bytes(files, p)) == Of(us, p)
  {
    LoggedBytes(us, p);
    var whole := Records(Of(us, p));
    var torn := Bytes(files, p)[|whole|..];
    assert Bytes(files, p) == whole + torn;
    ReadsBack(Of(us, p), torn);
  }

  lemma {:induction false} FoundIsGathered(files: Files, us: seq<Update>, order: seq<Pool>)
    requires FoundAs(files, us)
    ensures Found(files, order) == Gathered(us, order)
    decreases |order|
  {
    if order != [] {
      var n := |order| - 1;
      FoundIsGathered(files, us, order[..n]);
      FileReadsBack(files, us, order[n]);
    }
  }

  /**
   * Replaying the files a node wrote, in any order that lists all of them, over the initial
   * table gives the table it had in memory. Torn last records do not matter.
   */
  lemma ReplayRecovers(t: Table, us: seq<Update>, files: Files, order: seq<Pool>)
    requires FoundAs(files, us) && forall p :: p in files ==> p in order
    ensures AllApplied(t, Found(files, order)) == AllApplied(t, us)
  {
    FoundIsGathered(files, us, order);
    forall i | 0 <= i < |us| ensures us[i].pool in order { LoggedBytes(us, us[i].pool); }
    RecoversLiveTable(t, us, order);
  }
}

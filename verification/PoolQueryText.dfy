/** Pool queries and pool ids as text: the factories, the printer and the parser. */
module PoolQueryText {
  import opened Words
  import opened Decimal

  datatype Mode = Local | DirectId | DirectHash | Range | Broadcast | Physical | Dynamic | ToLocalCpu | Null
                | ManyToOne | AllToOne

  datatype PoolQuery = PoolQuery(mode: Mode, hash: u32, containerId: u32, rangeOffset: u32, rangeCount: u32, nodeId: u32,
                                 retNode: u32, netTimeout: real, ttl: real, parallelism: u32, batchKey: u64, batchForNs: u64)

  const INVALID_CONTAINER: u32 := 0xFFFF_FFFF
  const DEFAULT := PoolQuery(Local, 0, INVALID_CONTAINER, 0, 0, 0, 0, -1.0, -1.0, 32, 0, 0)

  // ----------------------------------------------------------------- factories, default timeout

  function MakeLocal(): PoolQuery { DEFAULT }
  function MakeDirectId(id: u32): PoolQuery { DEFAULT.(mode := DirectId, containerId := id) }
  function MakeDirectHash(h: u32): PoolQuery { DEFAULT.(mode := DirectHash, hash := h, containerId := 0) }
  function MakeRange(offset: u32, count: u32): PoolQuery {
    DEFAULT.(mode := Range, containerId := 0, rangeOffset := offset, rangeCount := count)
  }
  function MakeBroadcast(): PoolQuery { DEFAULT.(mode := Broadcast, containerId := 0) }
  function MakePhysical(node: u32): PoolQuery { DEFAULT.(mode := Physical, containerId := 0, nodeId := node) }
  function MakeDynamic(): PoolQuery { DEFAULT.(mode := Dynamic, containerId := 0) }
  function MakeManyToOne(h: u32, key: u64, ns: u64): PoolQuery {
    DEFAULT.(mode := ManyToOne, hash := h, containerId := 0, batchKey := key, batchForNs := ns)
  }
  function MakeAllToOne(h: u32, key: u64): PoolQuery {
    DEFAULT.(mode := AllToOne, hash := h, containerId := 0, batchKey := key)
  }

  // --------------------------------------------------------------------------------- printer

  function ToString(q: PoolQuery): string {
    match q.mode
    case Local => "local"
    case Broadcast => "broadcast"
    case Dynamic => "dynamic"
    case DirectId => "direct_id:" + Print(q.containerId)
    case DirectHash => "direct_hash:" + Print(q.hash)
    case Range => "range:" + (Print(q.rangeOffset) + [':'] + Print(q.rangeCount))
    case Physical => "physical:" + Print(q.nodeId)
    case ManyToOne => "many_to_one:" + (Print(q.hash) + [':'] + (Print(q.batchKey) + [':'] + Print(q.batchForNs)))
    case AllToOne => "all_to_one:" + (Print(q.hash) + [':'] + Print(q.batchKey))
    case ToLocalCpu => "unknown"
    case Null => "unknown"
  }

  // ---------------------------------------------------------------------------------- parser

  function LowerChar(c: char): char {
    if 'A' <= c <= 'Z' then (c as int + 32) as char else c
  }

  function Lower(s: string): (r: string)
    ensures |r| == |s|
  {
    seq(|s|, i requires 0 <= i < |s| => LowerChar(s[i]))
  }

  function Low32(v: u64): u32 { v % U32 }

  /** A number truncated to 32 bits. */
  function Parse32(s: string): Result<u32> { Truncated(Parse(s)) }

  function Truncated(r: Result<u64>): Result<u32> {
    if r.Ok? then Ok(Low32(r.value)) else Err(r.error)
  }

  function ParseRange(rest: string): Result<PoolQuery> {
    var c := Find(rest, ':');
    if c == |rest| then Err(InvalidArgument)
    else
      match (Parse32(rest[..c]), Parse32(rest[c + 1..]))
      case (Ok(offset), Ok(count)) => Ok(MakeRange(offset, count))
      case (Err(e), _) => Err(e)
      case (_, Err(e)) => Err(e)
  }

  /** A field that may be missing. */
  function ParseOr(s: Option<string>, missing: u64): Result<u64> {
    if s.None? then Ok(missing) else Parse(s.value)
  }

  /** What stands before the first colon, and what after it. */
  function Before(s: string): string { s[..Find(s, ':')] }
  function Behind(s: string): Option<string> {
    if Find(s, ':') == |s| then None else Some(s[Find(s, ':') + 1..])
  }

  function ParseManyToOne(rest: string): Result<PoolQuery> {
    var rest2 := Behind(rest);
    var hash := Parse32(Before(rest));
    if hash.Err? then Err(hash.error)
    else
      var key := ParseOr(if rest2.None? then None else Some(Before(rest2.value)), 0);
      if key.Err? then Err(key.error)
      else
        var ns := ParseOr(if rest2.None? then None else Behind(rest2.value), 10000);
        if ns.Err? then Err(ns.error) else Ok(MakeManyToOne(hash.value, key.value, ns.value))
  }

  function ParseAllToOne(rest: string): Result<PoolQuery> {
    var hash := Parse32(Before(rest));
    if hash.Err? then Err(hash.error)
    else
      var key := ParseOr(Behind(rest), 0);
      if key.Err? then Err(key.error) else Ok(MakeAllToOne(hash.value, key.value))
  }

  function Map<T, R>(r: Result<T>, f: T -> R): Result<R> {
    match r case Ok(v) => Ok(f(v)) case Err(e) => Err(e)
  }

  function FromString(str: string): Result<PoolQuery> {
    var s := Lower(str);
    if s == "local" then Ok(MakeLocal())
    else if s == "broadcast" then Ok(MakeBroadcast())
    else if s == "dynamic" then Ok(MakeDynamic())
    else if "direct_id:" <= s then Map(Parse32(s[10..]), MakeDirectId)
    else if "direct_hash:" <= s then Map(Parse32(s[12..]), MakeDirectHash)
    else if "range:" <= s then ParseRange(s[6..])
    else if "physical:" <= s then Map(Parse32(s[9..]), MakePhysical)
    else if "many_to_one:" <= s then ParseManyToOne(s[12..])
    else if "all_to_one:" <= s then ParseAllToOne(s[11..])
    else Err(InvalidArgument)
  }

  // ------------------------------------------------------------------------------ round trip

  lemma LowerIdentity(s: string)
    requires forall c :: c in s ==> !('A' <= c <= 'Z')
    ensures Lower(s) == s
  {
    forall i | 0 <= i < |s| ensures Lower(s)[i] == s[i] { assert s[i] in s; }
  }

  lemma Parse32Print(n: u32)
    ensures Parse32(Print(n)) == Ok(n)
  {
    ParsePrint(n);
    TruncatedSmall(n);
  }

  lemma TruncatedSmall(n: u32)
    ensures Truncated(Ok(n)) == Ok(n)
  {
  }

  /** A printed number before a colon is cut off at the colon. */
  lemma CutAtColon(n: nat, rest: string)
    ensures Before(Print(n) + [':'] + rest) == Print(n) && Behind(Print(n) + [':'] + rest) == Some(rest)
    ensures Before(Print(n)) == Print(n) && Behind(Print(n)) == None
  {
    PrintHasNo(n, ':');
    FindAt(Print(n), ':', rest);
    FindNone(Print(n), ':');
    var s := Print(n) + [':'] + rest;
    assert s[..|Print(n)|] == Print(n) && s[|Print(n)| + 1..] == rest;
  }

  lemma RangeBack(offset: u32, count: u32)
    ensures ParseRange(Print(offset) + [':'] + Print(count)) == Ok(MakeRange(offset, count))
  {
    CutAtColon(offset, Print(count));
    Parse32Print(offset);
    Parse32Print(count);
  }

  lemma ManyToOneBack(h: u32, key: u64, ns: u64)
    ensures ParseManyToOne(Print(h) + [':'] + (Print(key) + [':'] + Print(ns))) == Ok(MakeManyToOne(h, key, ns))
  {
    CutAtColon(h, Print(key) + [':'] + Print(ns));
    CutAtColon(key, Print(ns));
    Parse32Print(h);
    ParsePrint(key);
    ParsePrint(ns);
  }

  lemma AllToOneBack(h: u32, key: u64)
    ensures ParseAllToOne(Print(h) + [':'] + Print(key)) == Ok(MakeAllToOne(h, key))
  {
    CutAtColon(h, Print(key));
    Parse32Print(h);
    ParsePrint(key);
  }

  predicate Plain(s: string) { forall c :: c in s ==> !('A' <= c <= 'Z') }

  lemma PrintPlain(n: nat)
    ensures Plain(Print(n))
  {
    PrintDigits(n);
  }

  /** The query a factory makes from the fields that are printed. */
  function Rebuilt(q: PoolQuery): Result<PoolQuery> {
    match q.mode
    case Local => Ok(MakeLocal())
    case Broadcast => Ok(MakeBroadcast())
    case Dynamic => Ok(MakeDynamic())
    case DirectId => Ok(MakeDirectId(q.containerId))
    case DirectHash => Ok(MakeDirectHash(q.hash))
    case Range => Ok(MakeRange(q.rangeOffset, q.rangeCount))
    case Physical => Ok(MakePhysical(q.nodeId))
    case ManyToOne => Ok(MakeManyToOne(q.hash, q.batchKey, q.batchForNs))
    case AllToOne => Ok(MakeAllToOne(q.hash, q.batchKey))
    case ToLocalCpu => Err(InvalidArgument)
    case Null => Err(InvalidArgument)
  }

  /** The parser recognises a printed query by its tag. */
  lemma TagDirectId(body: string)
    requires Plain(body)
    ensures FromString("direct_id:" + body) == Map(Parse32(body), MakeDirectId)
  {
    var s := "direct_id:" + body;
    LowerIdentity(s);
    assert s[1] == 'i' && s[10..] == body;
  }

  lemma TagDirectHash(body: string)
    requires Plain(body)
    ensures FromString("direct_hash:" + body) == Map(Parse32(body), MakeDirectHash)
  {
    var s := "direct_hash:" + body;
    LowerIdentity(s);
    assert s[1] == 'i' && s[7] == 'h' && s[12..] == body;
    assert "direct_id:"[7] == 'i';
  }

  lemma TagRange(body: string)
    requires Plain(body)
    ensures FromString("range:" + body) == ParseRange(body)
  {
    var s := "range:" + body;
    LowerIdentity(s);
    assert s[0] == 'r' && s[6..] == body;
  }

  lemma TagPhysical(body: string)
    requires Plain(body)
    ensures FromString("physical:" + body) == Map(Parse32(body), MakePhysical)
  {
    var s := "physical:" + body;
    LowerIdentity(s);
    assert s[0] == 'p' && s[9..] == body;
  }

  lemma TagManyToOne(body: string)
    requires Plain(body)
    ensures FromString("many_to_one:" + body) == ParseManyToOne(body)
  {
    var s := "many_to_one:" + body;
    LowerIdentity(s);
    assert s[0] == 'm' && s[12..] == body;
  }

  lemma TagAllToOne(body: string)
    requires Plain(body)
    ensures FromString("all_to_one:" + body) == ParseAllToOne(body)
  {
    var s := "all_to_one:" + body;
    LowerIdentity(s);
    assert s[0] == 'a' && s[11..] == body;
  }

  lemma TagOnly()
    ensures FromString("local") == Ok(MakeLocal()) && FromString("broadcast") == Ok(MakeBroadcast())
    ensures FromString("dynamic") == Ok(MakeDynamic()) && FromString("unknown") == Err(InvalidArgument)
  {
    LowerIdentity("local");
    LowerIdentity("broadcast");
    LowerIdentity("dynamic");
    LowerIdentity("unknown");
    assert "broadcast"[0] != 'l' && "dynamic"[0] != 'l' && "unknown"[0] == 'u';
  }

  /** Parsing a printed query gives what a factory makes of the printed fields, for every query whatever its fields. */
  lemma ParsesBack(q: PoolQuery)
    ensures FromString(ToString(q)) == Rebuilt(q)
  {
    match q.mode
    case DirectId => PrintPlain(q.containerId); Parse32Print(q.containerId); TagDirectId(Print(q.containerId));
    case DirectHash => PrintPlain(q.hash); Parse32Print(q.hash); TagDirectHash(Print(q.hash));
    case Physical => PrintPlain(q.nodeId); Parse32Print(q.nodeId); TagPhysical(Print(q.nodeId));
    case Range =>
      PrintPlain(q.rangeOffset);
      PrintPlain(q.rangeCount);
      TagRange(Print(q.rangeOffset) + [':'] + Print(q.rangeCount));
      RangeBack(q.rangeOffset, q.rangeCount);
    case ManyToOne =>
      PrintPlain(q.hash);
      PrintPlain(q.batchKey);
      PrintPlain(q.batchForNs);
      TagManyToOne(Print(q.hash) + [':'] + (Print(q.batchKey) + [':'] + Print(q.batchForNs)));
      ManyToOneBack(q.hash, q.batchKey, q.batchForNs);
    case AllToOne =>
      PrintPlain(q.hash);
      PrintPlain(q.batchKey);
      TagAllToOne(Print(q.hash) + [':'] + Print(q.batchKey));
      AllToOneBack(q.hash, q.batchKey);
    case _ => TagOnly();
  }

  /** The same character, or the same ASCII letter in the other case. */
  predicate SameLetter(c: char, d: char) {
    c == d || ('A' <= c <= 'Z' && d as int == c as int + 32) || ('A' <= d <= 'Z' && c as int == d as int + 32)
  }

  /** Upper and lower case make no difference to the parser. */
  lemma CaseIgnored(a: string, b: string)
    requires |a| == |b| && forall i :: 0 <= i < |a| ==> SameLetter(a[i], b[i])
    ensures FromString(a) == FromString(b)
  {
    forall i | 0 <= i < |a| ensures Lower(a)[i] == Lower(b)[i] { assert SameLetter(a[i], b[i]); }
    assert Lower(a) == Lower(b);
  }

  /** So whatever is printed parses back in any case. */
  lemma ParsesBackInAnyCase(q: PoolQuery, str: string)
    requires |str| == |ToString(q)| && forall i :: 0 <= i < |str| ==> SameLetter(str[i], ToString(q)[i])
    ensures FromString(str) == Rebuilt(q)
  {
    CaseIgnored(str, ToString(q));
    ParsesBack(q);
  }

  lemma ManyToOneShort(h: u32)
    ensures ParseManyToOne(Print(h)) == Ok(MakeManyToOne(h, 0, 10000)) && ParseAllToOne(Print(h)) == Ok(MakeAllToOne(h, 0))
  {
    CutAtColon(h, "");
    Parse32Print(h);
  }

  lemma ManyToOneShorter(h: u32, key: u64)
    ensures ParseManyToOne(Print(h) + [':'] + Print(key)) == Ok(MakeManyToOne(h, key, 10000))
  {
    CutAtColon(h, Print(key));
    CutAtColon(key, "");
    Parse32Print(h);
    ParsePrint(key);
  }

  /** Fields may be missing at the end: the batch key is then 0 and the window 10000 nanoseconds. */
  lemma MissingFields(h: u32, key: u64)
    ensures FromString("many_to_one:" + Print(h)) == Ok(MakeManyToOne(h, 0, 10000))
    ensures FromString("many_to_one:" + (Print(h) + [':'] + Print(key))) == Ok(MakeManyToOne(h, key, 10000))
    ensures FromString("all_to_one:" + Print(h)) == Ok(MakeAllToOne(h, 0))
  {
    PrintPlain(h);
    PrintPlain(key);
    TagManyToOne(Print(h));
    TagManyToOne(Print(h) + [':'] + Print(key));
    TagAllToOne(Print(h));
    ManyToOneShort(h);
    ManyToOneShorter(h, key);
  }

  /** Container ids, hashes and nodes are cut to 32 bits; larger numbers than 64 bits are refused. */
  lemma NumbersCut(n: nat)
    ensures FromString("direct_id:" + Print(n)) == if n < U64 then Ok(MakeDirectId(n % U32)) else Err(OutOfRange)
  {
    PrintPlain(n);
    TagDirectId(Print(n));
    Parse32Cut(n);
  }

  lemma Parse32Cut(n: nat)
    ensures Parse32(Print(n)) == if n < U64 then Ok(n % U32) else Err(OutOfRange)
  {
    ParseForm("", "", n, "");
    assert "" + "" + Print(n) + "" == Print(n);
  }

  /** Printing what was parsed from a printed query gives the same text. */
  lemma PrintStable(q: PoolQuery)
    ensures
      var r := FromString(ToString(q));
      if q.mode.ToLocalCpu? || q.mode.Null? then r == Err(InvalidArgument)
      else r.Ok? && r.value.mode == q.mode && ToString(r.value) == ToString(q)
  {
    ParsesBack(q);
  }

  /** Made by a factory with the default timeout and parallelism, in one of the nine printable modes. */
  ghost predicate FactoryMade(q: PoolQuery) {
    || q == MakeLocal() || q == MakeBroadcast() || q == MakeDynamic()
    || (exists id :: q == MakeDirectId(id)) || (exists h :: q == MakeDirectHash(h)) || (exists n :: q == MakePhysical(n))
    || (exists o, c :: q == MakeRange(o, c)) || (exists h, k, ns :: q == MakeManyToOne(h, k, ns))
    || (exists h, k :: q == MakeAllToOne(h, k))
  }

  lemma FactoryMadeIff(q: PoolQuery)
    ensures FactoryMade(q) <==> Rebuilt(q) == Ok(q)
  {
    if Rebuilt(q) == Ok(q) {
      assert
        || q == MakeLocal() || q == MakeBroadcast() || q == MakeDynamic()
        || q == MakeDirectId(q.containerId) || q == MakeDirectHash(q.hash) || q == MakePhysical(q.nodeId)
        || q == MakeRange(q.rangeOffset, q.rangeCount) || q == MakeManyToOne(q.hash, q.batchKey, q.batchForNs)
        || q == MakeAllToOne(q.hash, q.batchKey);
    }
  }

  /** A query survives printing and parsing if and only if a factory made it so. */
  lemma RoundTripIff(q: PoolQuery)
    ensures FromString(ToString(q)) == Ok(q) <==> FactoryMade(q)
  {
    ParsesBack(q);
    FactoryMadeIff(q);
  }

  /** On those queries printing loses nothing. */
  lemma ToStringInjective(q: PoolQuery, r: PoolQuery)
    requires FactoryMade(q) && FactoryMade(r) && ToString(q) == ToString(r)
    ensures q == r
  {
    RoundTripIff(q);
    RoundTripIff(r);
  }

  // ------------------------------------------------------------------------------- unique ids

  datatype UniqueId = UniqueId(major: u32, minor: u32)

  function IdToString(u: UniqueId): string { Print(u.major) + ['.'] + Print(u.minor) }

  /** Every failure of parsing a unique id is reported as an invalid argument. */
  function IdFromString(s: string): Result<UniqueId> {
    var dot := Find(s, '.');
    if dot == |s| then Err(InvalidArgument)
    else
      var major := Parse32(s[..dot]);
      var minor := Parse32(s[dot + 1..]);
      if major.Ok? && minor.Ok? then Ok(UniqueId(major.value, minor.value)) else Err(InvalidArgument)
  }

  lemma IdRoundTrip(u: UniqueId)
    ensures IdFromString(IdToString(u)) == Ok(u)
  {
    var s := IdToString(u);
    PrintHasNo(u.major, '.');
    FindAt(Print(u.major), '.', Print(u.minor));
    assert s[..|Print(u.major)|] == Print(u.major) && s[|Print(u.major)| + 1..] == Print(u.minor);
    Parse32Print(u.major);
    Parse32Print(u.minor);
  }

  lemma IdInjective(u: UniqueId, v: UniqueId)
    requires IdToString(u) == IdToString(v)
    ensures u == v
  {
    IdRoundTrip(u);
    IdRoundTrip(v);
  }
}

/**
 * Version 1 object headers: the message walk with its continuation blocks, and
 * path resolution on top of the group search.
 */
module ObjectHeaders {
  import opened Words
  import opened LittleEndian
  import opened H5File
  import opened PathText
  import GroupSearch

  const MAX_DIMS := 32
  /** Continuation blocks nest at most this deep. */
  const MAX_NEST := 8

  datatype DataLayout =
    | Compact(at: nat, size: nat)
    | Contiguous(addr: nat, size: nat)
    | Chunked(cdims: seq<nat>, esize: nat, btree: nat)
    | OtherClass(code: nat)

  /** What the reader keeps of a header; an absent message leaves `None`. */
  datatype Info = Info(stab: Option<(nat, nat)>, space: Option<seq<nat>>, layout: Option<DataLayout>,
                       dtype: Option<(nat, nat, nat)>, filters: bool, external: bool)

  const EMPTY := Info(None, None, None, None, false, false)

  datatype Msg = Msg(kind: nat, at: nat)

  class ObjectHeader {
    var info: Info
    constructor ()
      ensures info == EMPTY
    {
      info := EMPTY;
    }
  }

  // --------------------------------------------------------------- one message

  function ReadValues(f: File, at: nat, n: nat, width: nat): (r: Option<seq<nat>>)
    ensures r.Some? ==> |r.value| == n
    decreases n
  {
    if n == 0 then Some([])
    else
      match f.Read(at % U64, width)
      case None => None
      case Some(b) =>
        match ReadValues(f, at + width, n - 1, width)
        case None => None
        case Some(rest) => Some([Value(b)] + rest)
  }

  function ApplySpace(f: File, h: Info, at: nat): Option<Info> {
    match f.Read(at, 8)
    case None => None
    case Some(b) =>
      if b[1] > MAX_DIMS then None
      else
        match ReadValues(f, at + 8, b[1], f.lsize)
        case None => None
        case Some(dims) => Some(h.(space := Some(dims)))
  }

  function ApplyDtype(f: File, h: Info, at: nat): Option<Info> {
    match f.Read(at, 8)
    case None => None
    case Some(b) => Some(h.(dtype := Some((b[0] % 16, Value(b[4..8]), Value(b[1..4])))))
  }

  function ApplyLayout(f: File, h: Info, at: nat): Option<Info> {
    match f.Read(at, 2)
    case None => None
    case Some(b) =>
      if b[0] != 3 && b[0] != 4 then None
      else
        match ReadLayout(f, at, b[1])
        case None => None
        case Some(l) => Some(h.(layout := Some(l)))
  }

  function ReadLayout(f: File, at: nat, code: nat): Option<DataLayout> {
    if code == 1 then
      match f.Read((at + 2) % U64, f.osize + f.lsize)
      case None => None
      case Some(b) => Some(Contiguous(Value(b[..f.osize]), Value(b[f.osize..])))
    else if code == 0 then
      match f.Read((at + 2) % U64, 2)
      case None => None
      case Some(b) => Some(Compact((at + 4) % U64, Value(b)))
    else if code == 2 then
      match f.Read((at + 2) % U64, 1)
      case None => None
      case Some(b) =>
        var stored := b[0];
        if stored == 0 || stored > MAX_DIMS then None
        else
          match f.Read((at + 3) % U64, f.osize)
          case None => None
          case Some(a) =>
            match ReadValues(f, at + 3 + f.osize, stored, 4)
            case None => None
            case Some(v) => Some(Chunked(v[..stored - 1], v[stored - 1], Value(a)))
    else Some(OtherClass(code))
  }

  function ApplyStab(f: File, h: Info, at: nat): Option<Info> {
    match f.Read(at, 2 * f.osize)
    case None => None
    case Some(b) => Some(h.(stab := Some((Value(b[..f.osize]), Value(b[f.osize..])))))
  }

  /** Effect of one message; kinds the reader does not know change nothing. */
  function Apply(f: File, h: Info, m: Msg): Option<Info> {
    match m.kind
    case 0x01 => ApplySpace(f, h, m.at)
    case 0x03 => ApplyDtype(f, h, m.at)
    case 0x07 => Some(h.(external := true))
    case 0x0B => Some(h.(filters := true))
    case 0x08 => ApplyLayout(f, h, m.at)
    case 0x11 => ApplyStab(f, h, m.at)
    case _ => Some(h)
  }

  function ApplyAll(f: File, h: Info, ms: seq<Msg>): Option<Info>
    decreases |ms|
  {
    if ms == [] then Some(h)
    else
      match Apply(f, h, ms[0])
      case None => None
      case Some(h') => ApplyAll(f, h', ms[1..])
  }

  // ------------------------------------------------------------- the whole walk

  ghost function Ahead(f: File, cur: nat): nat { if cur <= |f.bytes| then |f.bytes| - cur + 1 else 0 }

  /**
   * The messages of a block in order, every continuation message replaced by the
   * messages of the block it points to. `None` if some part cannot be read.
   */
  ghost function Messages(f: File, cur: nat, end: nat, depth: nat): Option<seq<Msg>>
    requires f.Valid() && depth <= MAX_NEST
    decreases MAX_NEST - depth, Ahead(f, cur), 1
  {
    if (cur + 8) % U64 > end then Some([])
    else
      match f.Read(cur, 8)
      case None => None
      case Some(mh) =>
        Widths();
        var next := (cur + 8 + Value(mh[2..4])) % U64;
        match Expand(f, Value(mh[..2]), (cur + 8) % U64, depth)
        case None => None
        case Some(here) =>
          match Messages(f, next, end, depth)
          case None => None
          case Some(rest) => Some(here + rest)
  }

  ghost function Expand(f: File, kind: nat, at: nat, depth: nat): Option<seq<Msg>>
    requires f.Valid() && depth <= MAX_NEST
    decreases MAX_NEST - depth, 0, 1
  {
    if kind != 0x10 then Some([Msg(kind, at)])
    else
      match f.Read(at, f.osize + f.lsize)
      case None => None
      case Some(b) =>
        Continued(f, Value(b[..f.osize]), Value(b[f.osize..]), depth)
  }

  /** The messages of a continuation block, within the nesting limit. */
  ghost function Continued(f: File, caddr: nat, clen: nat, depth: nat): Option<seq<Msg>>
    requires f.Valid() && depth <= MAX_NEST
    decreases MAX_NEST - depth, 0, 0
  {
    if depth < MAX_NEST && !f.Undefined(caddr) then Messages(f, caddr, (caddr + clen) % U64, depth + 1) else Some([])
  }

  lemma {:induction false} MessagesStep(f: File, cur: nat, end: nat, depth: nat)
    requires f.Valid() && depth <= MAX_NEST && (cur + 8) % U64 <= end
    ensures f.Read(cur, 8).None? ==> Messages(f, cur, end, depth) == None
    ensures f.Read(cur, 8).Some? ==>
      var mh := f.Read(cur, 8).value;
      && Messages(f, cur, end, depth)
         == Join(Expand(f, Value(mh[..2]), (cur + 8) % U64, depth), Messages(f, (cur + 8 + Value(mh[2..4])) % U64, end, depth))
      && Ahead(f, (cur + 8 + Value(mh[2..4])) % U64) < Ahead(f, cur)
  {
    Widths();
  }

  lemma {:induction false} ApplyAppend(f: File, h: Info, a: seq<Msg>, b: seq<Msg>)
    ensures ApplyAll(f, h, a + b) ==
            if ApplyAll(f, h, a).None? then None else ApplyAll(f, ApplyAll(f, h, a).value, b)
    decreases |a|
  {
    if a == [] {
      assert a + b == b;
    } else if Apply(f, h, a[0]).Some? {
      ApplyAppend(f, Apply(f, h, a[0]).value, a[1..], b);
      assert (a + b)[1..] == a[1..] + b;
    }
  }

  /** Index of the last message of a kind; -1 if there is none. */
  ghost function LastOf(ms: seq<Msg>, kind: nat): (i: int)
    ensures -1 <= i < |ms| && (i >= 0 ==> ms[i].kind == kind)
    ensures forall j :: i < j < |ms| ==> ms[j].kind != kind
    decreases |ms|
  {
    if ms == [] then -1
    else if ms[|ms| - 1].kind == kind then |ms| - 1
    else LastOf(ms[..|ms| - 1], kind)
  }

  /**
   * Where a message kind repeats, across continuation blocks too, the last one
   * decides; the two flags are set by any message of their kind.
   */
  lemma {:induction false} LastMessageDecides(f: File, h: Info, ms: seq<Msg>)
    requires ApplyAll(f, h, ms).Some?
    ensures Decided(f, h, ms, ApplyAll(f, h, ms).value)
    decreases |ms|
  {
    if ms != [] {
      var n := |ms| - 1;
      assert ms == ms[..n] + [ms[n]];
      ApplyAppend(f, h, ms[..n], [ms[n]]);
      LastMessageDecides(f, h, ms[..n]);
      var mid := ApplyAll(f, h, ms[..n]).value;
      assert [ms[n]][1..] == [];
      assert ApplyAll(f, h, ms) == Apply(f, mid, ms[n]);
      MoreSpace(f, h, ms, mid);
      MoreDtype(f, h, ms, mid);
      MoreLayout(f, h, ms, mid);
      MoreStab(f, h, ms, mid);
      MoreFlags(f, h, ms, mid);
    }
  }

  /** Each part of the header is what the last message of its kind says, and as before if there is none. */
  ghost predicate Decided(f: File, h: Info, ms: seq<Msg>, r: Info) {
    && SpaceDecided(f, h, ms, r) && DtypeDecided(f, h, ms, r) && LayoutDecided(f, h, ms, r) && StabDecided(f, h, ms, r)
    && FlagsDecided(h, ms, r)
  }

  ghost predicate SpaceDecided(f: File, h: Info, ms: seq<Msg>, r: Info) {
    var i := LastOf(ms, 0x01);
    if i < 0 then r.space == h.space
    else ApplySpace(f, EMPTY, ms[i].at).Some? && r.space == ApplySpace(f, EMPTY, ms[i].at).value.space
  }

  ghost predicate DtypeDecided(f: File, h: Info, ms: seq<Msg>, r: Info) {
    var i := LastOf(ms, 0x03);
    if i < 0 then r.dtype == h.dtype
    else ApplyDtype(f, EMPTY, ms[i].at).Some? && r.dtype == ApplyDtype(f, EMPTY, ms[i].at).value.dtype
  }

  ghost predicate LayoutDecided(f: File, h: Info, ms: seq<Msg>, r: Info) {
    var i := LastOf(ms, 0x08);
    if i < 0 then r.layout == h.layout
    else ApplyLayout(f, EMPTY, ms[i].at).Some? && r.layout == ApplyLayout(f, EMPTY, ms[i].at).value.layout
  }

  ghost predicate StabDecided(f: File, h: Info, ms: seq<Msg>, r: Info) {
    var i := LastOf(ms, 0x11);
    if i < 0 then r.stab == h.stab
    else ApplyStab(f, EMPTY, ms[i].at).Some? && r.stab == ApplyStab(f, EMPTY, ms[i].at).value.stab
  }

  ghost predicate FlagsDecided(h: Info, ms: seq<Msg>, r: Info) {
    (r.external <==> h.external || LastOf(ms, 0x07) >= 0) && (r.filters <==> h.filters || LastOf(ms, 0x0B) >= 0)
  }

  /** One more message makes itself the last of its kind and leaves the other kinds alone. */
  lemma {:induction false} LastSnoc(ms: seq<Msg>, kind: nat)
    requires ms != []
    ensures
      var n := |ms| - 1;
      LastOf(ms, kind) == (if ms[n].kind == kind then n else LastOf(ms[..n], kind))
  {
  }

  lemma {:induction false} MoreSpace(f: File, h: Info, ms: seq<Msg>, mid: Info)
    requires ms != [] && SpaceDecided(f, h, ms[..|ms| - 1], mid) && Apply(f, mid, ms[|ms| - 1]).Some?
    ensures SpaceDecided(f, h, ms, Apply(f, mid, ms[|ms| - 1]).value)
  {
    LastSnoc(ms, 0x01);
  }

  lemma {:induction false} MoreDtype(f: File, h: Info, ms: seq<Msg>, mid: Info)
    requires ms != [] && DtypeDecided(f, h, ms[..|ms| - 1], mid) && Apply(f, mid, ms[|ms| - 1]).Some?
    ensures DtypeDecided(f, h, ms, Apply(f, mid, ms[|ms| - 1]).value)
  {
    LastSnoc(ms, 0x03);
  }

  lemma {:induction false} MoreLayout(f: File, h: Info, ms: seq<Msg>, mid: Info)
    requires ms != [] && LayoutDecided(f, h, ms[..|ms| - 1], mid) && Apply(f, mid, ms[|ms| - 1]).Some?
    ensures LayoutDecided(f, h, ms, Apply(f, mid, ms[|ms| - 1]).value)
  {
    LastSnoc(ms, 0x08);
  }

  lemma {:induction false} MoreStab(f: File, h: Info, ms: seq<Msg>, mid: Info)
    requires ms != [] && StabDecided(f, h, ms[..|ms| - 1], mid) && Apply(f, mid, ms[|ms| - 1]).Some?
    ensures StabDecided(f, h, ms, Apply(f, mid, ms[|ms| - 1]).value)
  {
    LastSnoc(ms, 0x11);
  }

  lemma {:induction false} MoreFlags(f: File, h: Info, ms: seq<Msg>, mid: Info)
    requires ms != [] && FlagsDecided(h, ms[..|ms| - 1], mid) && Apply(f, mid, ms[|ms| - 1]).Some?
    ensures FlagsDecided(h, ms, Apply(f, mid, ms[|ms| - 1]).value)
  {
    LastSnoc(ms, 0x07);
    LastSnoc(ms, 0x0B);
  }

  // ------------------------------------------------------------------- code

  /** What a finished piece of the walk has done to the header. */
  ghost predicate Walked(f: File, found: Option<seq<Msg>>, before: Info, after: Info, ok: bool) {
    && (ok <==> found.Some? && ApplyAll(f, before, found.value).Some?)
    && (ok ==> after == ApplyAll(f, before, found.value).value)
  }

  /** State of the message loop: `done` is applied, `rest` is to come. */
  ghost predicate Scanning(f: File, whole: Option<seq<Msg>>, done: seq<Msg>, rest: Option<seq<Msg>>,
                           before: Info, now: Info) {
    && ApplyAll(f, before, done) == Some(now)
    && whole == if rest.None? then None else Some(done + rest.value)
  }

  ghost function Join(a: Option<seq<Msg>>, b: Option<seq<Msg>>): Option<seq<Msg>> {
    if a.None? || b.None? then None else Some(a.value + b.value)
  }

  lemma {:induction false} ScanStep(f: File, whole: Option<seq<Msg>>, done: seq<Msg>, here: Option<seq<Msg>>, rest: Option<seq<Msg>>,
                 before: Info, now: Info, next: Info)
    requires Scanning(f, whole, done, Join(here, rest), before, now) && Walked(f, here, now, next, true)
    ensures Scanning(f, whole, done + here.value, rest, before, next)
  {
    ApplyAppend(f, before, done, here.value);
    if rest.Some? {
      assert done + (here.value + rest.value) == done + here.value + rest.value;
    }
  }

  lemma {:induction false} ScanStop(f: File, whole: Option<seq<Msg>>, done: seq<Msg>, here: Option<seq<Msg>>, rest: Option<seq<Msg>>,
                 before: Info, now: Info, next: Info)
    requires Scanning(f, whole, done, Join(here, rest), before, now) && Walked(f, here, now, next, false)
    ensures Walked(f, whole, before, next, false)
  {
    if whole.Some? {
      ApplyAppend(f, before, done, here.value + rest.value);
      ApplyAppend(f, now, here.value, rest.value);
    }
  }

  /** One message; a continuation walks the block it points to. */
  method Message(f: File, kind: nat, at: nat, o: ObjectHeader, depth: nat) returns (ok: bool)
    requires f.Valid() && depth <= MAX_NEST
    modifies o
    ensures Walked(f, Expand(f, kind, at, depth), old(o.info), o.info, ok)
    decreases MAX_NEST - depth, 0, 1
  {
    if kind == 0x10 {
      var b := f.Read(at, f.osize + f.lsize);
      if b.None? { return false; }
      var caddr := Decode(b.value[..f.osize]);
      var clen := Decode(b.value[f.osize..]);
      ok := Continue(f, caddr, clen, o, depth);
      return;
    }
    ok := ApplyMessage(f, Msg(kind, at), o);
  }

  method Continue(f: File, caddr: nat, clen: nat, o: ObjectHeader, depth: nat) returns (ok: bool)
    requires f.Valid() && depth <= MAX_NEST
    modifies o
    ensures Walked(f, Continued(f, caddr, clen, depth), old(o.info), o.info, ok)
    decreases MAX_NEST - depth, 0, 0
  {
    ok := true;
    if depth < MAX_NEST && !f.Undefined(caddr) {
      ok := WalkBlock(f, caddr, (caddr + clen) % U64, o, depth + 1);
    }
  }

  /** One message that is not a continuation. */
  method ApplyMessage(f: File, m: Msg, o: ObjectHeader) returns (ok: bool)
    modifies o
    ensures Walked(f, Some([m]), old(o.info), o.info, ok)
  {
    var h := Apply(f, o.info, m);
    assert [m][1..] == [];
    ok := h.Some?;
    if ok { o.info := h.value; }
  }

  /** The message whose header `mh` is at `cur`, and where the next one starts. */
  method BlockStep(f: File, cur: nat, mh: seq<byte>, o: ObjectHeader, depth: nat)
    returns (ok: bool, next: nat, ghost here: Option<seq<Msg>>)
    requires f.Valid() && depth <= MAX_NEST && |mh| == 8
    modifies o
    ensures next == (cur + 8 + Value(mh[2..4])) % U64 && here == Expand(f, Value(mh[..2]), (cur + 8) % U64, depth)
    ensures Walked(f, here, old(o.info), o.info, ok)
    decreases MAX_NEST - depth, 0, 2
  {
    var kind := Decode(mh[..2]);
    var msize := Decode(mh[2..4]);
    next := (cur + 8 + msize) % U64;
    here := Expand(f, kind, (cur + 8) % U64, depth);
    ok := Message(f, kind, (cur + 8) % U64, o, depth);
  }

  /**
   * Walks a block of messages. Terminates on any bytes, continuation cycles
   * included, and leaves the header as the flattened message list applied in order.
   */
  method WalkBlock(f: File, start: nat, end: nat, o: ObjectHeader, depth: nat) returns (ok: bool)
    requires f.Valid() && depth <= MAX_NEST
    modifies o
    ensures Walked(f, Messages(f, start, end, depth), old(o.info), o.info, ok)
    decreases MAX_NEST - depth, 1, Ahead(f, start)
  {
    var cur: nat := start;
    ghost var before, whole := o.info, Messages(f, start, end, depth);
    ghost var done: seq<Msg> := [];
    BlockBegins(f, start, end, depth, before);
    while (cur + 8) % U64 <= end
      invariant AtMessage(f, whole, done, cur, end, depth, before, o.info)
      decreases Ahead(f, cur)
    {
      ghost var now := o.info;
      var mh := f.Read(cur, 8);
      if mh.None? {
        HeaderUnread(f, whole, done, cur, end, depth, before, now);
        return false;
      }
      var next: nat;
      ghost var here: Option<seq<Msg>>;
      ok, next, here := BlockStep(f, cur, mh.value, o, depth);
      NextMessage(f, whole, done, cur, end, depth, before, now, o.info, mh.value, here, ok);
      if !ok { return; }
      done := done + here.value;
      cur := next;
    }
    BlockEnds(f, whole, done, cur, end, depth, before, o.info);
    return true;
  }

  /** State of the walk: the messages before `cur` are applied, those from there are to come. */
  ghost predicate AtMessage(f: File, whole: Option<seq<Msg>>, done: seq<Msg>, cur: nat, end: nat, depth: nat,
                            before: Info, now: Info)
    requires f.Valid() && depth <= MAX_NEST
  {
    Scanning(f, whole, done, Messages(f, cur, end, depth), before, now)
  }

  lemma {:induction false} BlockBegins(f: File, start: nat, end: nat, depth: nat, before: Info)
    requires f.Valid() && depth <= MAX_NEST
    ensures AtMessage(f, Messages(f, start, end, depth), [], start, end, depth, before, before)
  {
    var whole := Messages(f, start, end, depth);
    if whole.Some? { assert [] + whole.value == whole.value; }
  }

  lemma {:induction false} HeaderUnread(f: File, whole: Option<seq<Msg>>, done: seq<Msg>, cur: nat, end: nat,
                                        depth: nat, before: Info, now: Info)
    requires f.Valid() && depth <= MAX_NEST && (cur + 8) % U64 <= end && f.Read(cur, 8).None?
    requires AtMessage(f, whole, done, cur, end, depth, before, now)
    ensures Walked(f, whole, before, now, false)
  {
    MessagesStep(f, cur, end, depth);
  }

  lemma {:induction false} BlockEnds(f: File, whole: Option<seq<Msg>>, done: seq<Msg>, cur: nat, end: nat, depth: nat,
                                     before: Info, now: Info)
    requires f.Valid() && depth <= MAX_NEST && (cur + 8) % U64 > end
    requires AtMessage(f, whole, done, cur, end, depth, before, now)
    ensures Walked(f, whole, before, now, true)
  {
    assert Messages(f, cur, end, depth) == Some([]);
    assert done + [] == done;
  }

  lemma {:induction false} NextMessage(f: File, whole: Option<seq<Msg>>, done: seq<Msg>, cur: nat, end: nat, depth: nat,
                                       before: Info, now: Info, after: Info, mh: seq<byte>, here: Option<seq<Msg>>, ok: bool)
    requires f.Valid() && depth <= MAX_NEST && (cur + 8) % U64 <= end && f.Read(cur, 8) == Some(mh) && |mh| == 8
    requires AtMessage(f, whole, done, cur, end, depth, before, now)
    requires here == Expand(f, Value(mh[..2]), (cur + 8) % U64, depth) && Walked(f, here, now, after, ok)
    ensures ok ==> here.Some?
    ensures
      var next := (cur + 8 + Value(mh[2..4])) % U64;
      && (ok ==> AtMessage(f, whole, done + here.value, next, end, depth, before, after))
      && (!ok ==> Walked(f, whole, before, after, false)) && Ahead(f, next) < Ahead(f, cur)
  {
    MessagesStep(f, cur, end, depth);
    var rest := Messages(f, (cur + 8 + Value(mh[2..4])) % U64, end, depth);
    if ok {
      ScanStep(f, whole, done, here, rest, before, now, after);
    } else {
      ScanStop(f, whole, done, here, rest, before, now, after);
    }
  }

  ghost function HeaderMessages(f: File, addr: nat): Option<seq<Msg>>
    requires f.Valid()
  {
    match f.Read(addr, 16)
    case None => None
    case Some(pre) =>
      if pre[0] != 1 then None
      else Messages(f, (addr + 16) % U64, (addr + 16 + Value(pre[8..12])) % U64, 0)
  }

  ghost function HeaderOf(f: File, addr: nat): Option<Info>
    requires f.Valid()
  {
    if HeaderMessages(f, addr).None? then None else ApplyAll(f, EMPTY, HeaderMessages(f, addr).value)
  }

  method ReadHeader(f: File, addr: nat) returns (h: Option<Info>)
    requires f.Valid()
    ensures h == HeaderOf(f, addr)
  {
    var pre := f.Read(addr, 16);
    if pre.None? || pre.value[0] != 1 { return None; }
    var size := Decode(pre.value[8..12]);
    var o := new ObjectHeader();
    var ok := WalkBlock(f, (addr + 16) % U64, (addr + 16 + size) % U64, o, 0);
    return if ok then Some(o.info) else None;
  }

  // ------------------------------------------------------------------- paths

  datatype Resolved = At(oh: nat) | BadHeader | NotAGroup | Missing | SoftLink

  /** Follows one path component from the object at `oh`. */
  ghost function Step(f: File, oh: nat, name: seq<byte>): Resolved
    requires f.Valid()
  {
    match HeaderOf(f, oh)
    case None => BadHeader
    case Some(h) =>
      if h.stab.None? then NotAGroup
      else
        match GroupSearch.FirstHit(GroupSearch.Listing(f, h.stab.value.0, h.stab.value.1, 0), name)
        case Found(next, ct) => if ct == 2 then SoftLink else At(next)
        case _ => Missing
  }

  ghost function Follow(f: File, oh: nat, path: seq<seq<byte>>): Resolved
    requires f.Valid()
    decreases |path|
  {
    if path == [] then At(oh)
    else
      match Step(f, oh, path[0])
      case At(next) => Follow(f, next, path[1..])
      case stop => stop
  }

  /** Resolving a joined path is resolving its parts one after the other. */
  lemma {:induction false} FollowJoin(f: File, oh: nat, p: seq<seq<byte>>, q: seq<seq<byte>>)
    requires f.Valid()
    ensures Follow(f, oh, p + q) == if Follow(f, oh, p).At? then Follow(f, Follow(f, oh, p).oh, q) else Follow(f, oh, p)
    decreases |p|
  {
    if p == [] {
      assert p + q == q;
    } else {
      assert (p + q)[1..] == p[1..] + q;
      if Step(f, oh, p[0]).At? { FollowJoin(f, Step(f, oh, p[0]).oh, p[1..], q); }
    }
  }

  /** So resolving `p/q` is resolving `p`, and `q` from there. */
  lemma {:induction false} JoinedPath(f: File, oh: nat, p: seq<byte>, q: seq<byte>)
    requires f.Valid()
    ensures
      var first := Follow(f, oh, Tokens(p));
      Follow(f, oh, Tokens(p + [SLASH] + q)) == if first.At? then Follow(f, first.oh, Tokens(q)) else first
  {
    TokensJoin(p, q);
    FollowJoin(f, oh, Tokens(p), Tokens(q));
  }

  /** Resolves a path, given as its bytes up to the terminating zero. */
  method Resolve(f: File, root: nat, path: seq<byte>) returns (r: Resolved)
    requires f.Valid()
    ensures r == Follow(f, root, Tokens(Kept(path)))
    ensures (forall k :: KEPT <= k < |path| ==> path[k] == SLASH) ==> r == Follow(f, root, Tokens(path))
  {
    KeptIff(path);
    var buf := Kept(path);
    var cur := root;
    assert buf[0..] == buf;
    var tok: Option<seq<byte>>, at: nat := NextToken(buf, 0);
    ghost var rest := Tokens(buf);
    while tok.Some?
      invariant tok.None? ==> rest == []
      invariant tok.Some? ==> at <= |buf| && rest == [tok.value] + Tokens(buf[at..])
      invariant Follow(f, root, Tokens(buf)) == Follow(f, cur, rest)
      decreases |rest|
    {
      assert rest[0] == tok.value && rest[1..] == Tokens(buf[at..]);
      var h := ReadHeader(f, cur);
      if h.None? { return BadHeader; }
      if h.value.stab.None? { return NotAGroup; }
      var hit := GroupSearch.TreeFind(f, h.value.stab.value.0, h.value.stab.value.1, tok.value, 0);
      if !hit.Found? { return Missing; }
      if hit.ctype == 2 { return SoftLink; }
      cur := hit.oh;
      rest := rest[1..];
      tok, at := NextToken(buf, at);
    }
    return At(cur);
  }
}

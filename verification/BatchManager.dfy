/** The batch manager itself: its fields, and its methods proved against the lock sections of module Batch. */
module BatchManagers {
  import opened Words
  import opened Batch

  /** The later members folded into a value, in order. */
  function Folded<V>(aggregateIn: (V, Member) -> V, v: V, ms: seq<Member>): V
    decreases |ms|
  {
    if ms == [] then v else Folded(aggregateIn, aggregateIn(v, ms[0]), ms[1..])
  }

  lemma {:induction false} FoldedSnoc<V>(aggregateIn: (V, Member) -> V, v: V, ms: seq<Member>, m: Member)
    ensures Folded(aggregateIn, v, ms + [m]) == aggregateIn(Folded(aggregateIn, v, ms), m)
    decreases |ms|
  {
    if ms == [] {
      assert ms + [m] == [m];
    } else {
      assert (ms + [m])[0] == ms[0] && (ms + [m])[1..] == ms[1..] + [m];
      FoldedSnoc(aggregateIn, aggregateIn(v, ms[0]), ms[1..], m);
    }
  }

  /** Folding meets every member once, in order: with appending as the fold it gives the list of them. */
  lemma {:induction false} FoldedCollects(v: seq<Member>, ms: seq<Member>)
    ensures Folded((acc: seq<Member>, m: Member) => acc + [m], v, ms) == v + ms
    decreases |ms|
  {
    if ms == [] {
      assert v + ms == v;
    } else {
      FoldedCollects(v + [ms[0]], ms[1..]);
      assert v + [ms[0]] + ms[1..] == v + ms;
    }
  }

  /** How building one claimed group turns out. */
  datatype Built<V> = Dropped | Sent(id: AggId, agg: V)

  /** The books after building one claimed group. */
  function BuiltBooks<V>(b: Books, k: Key, members: seq<Member>, r: Built<V>): Books {
    if r.Dropped? then Unclaimed(b, k) else Mapped(Registered(b, r.id, members), r.id, k)
  }

  /** The books after building some of the claimed groups, in this order. */
  function AllBuilt<V>(b: Books, due: map<Key, Group>, rs: seq<(Key, Built<V>)>): Books
    requires forall i :: 0 <= i < |rs| ==> rs[i].0 in due
    decreases |rs|
  {
    if rs == [] then b
    else
      var (k, r) := rs[|rs| - 1];
      BuiltBooks(AllBuilt(b, due, rs[..|rs| - 1]), k, due[k].members, r)
  }

  /** Each group is the copy of its first member with every later one folded in once, in order. */
  ghost predicate Faithful<V>(g: Group, copy: Member -> V, aggregateIn: (V, Member) -> V, r: Built<V>)
    requires g.members != []
  {
    r.Sent? ==> r.agg == Folded(aggregateIn, copy(g.members[0]), g.members[1..])
  }

  /** The due groups outside `left` have been claimed, and the books are now `b`. */
  ghost predicate Scanned(was: Books, left: set<Key>, due: map<Key, Group>, now: u64, pools: map<(u32, u32), u32>, b: Books) {
    && left <= was.groups.Keys
    && due == (map k | k in was.groups && k !in left && Due(was, k, now, pools) :: was.groups[k])
    && b == was.(groups := was.groups - due.Keys, inFlight := was.inFlight + due.Keys)
  }

  function Claim1(b: Books, k: Key): Books { b.(groups := b.groups - {k}, inFlight := b.inFlight + {k}) }

  lemma ScanStep(was: Books, left: set<Key>, due: map<Key, Group>, now: u64, pools: map<(u32, u32), u32>, b: Books, k: Key)
    requires Scanned(was, left, due, now, pools, b) && k in left
    ensures k in b.groups && b.groups[k] == was.groups[k] && (k in b.inFlight <==> k in was.inFlight)
    ensures Due(was, k, now, pools) ==> Scanned(was, left - {k}, due[k := was.groups[k]], now, pools, Claim1(b, k))
    ensures !Due(was, k, now, pools) ==> Scanned(was, left - {k}, due, now, pools, b)
  {
  }

  lemma ScanEnd(was: Books, due: map<Key, Group>, now: u64, pools: map<(u32, u32), u32>, b: Books)
    requires Scanned(was, {}, due, now, pools, b)
    ensures due == DueGroups(was, now, pools) && b == Claimed(was, now, pools)
  {
  }

  /** `rs` builds the groups of `due` outside `left`, once each. */
  ghost predicate Building<V>(due: map<Key, Group>, left: set<Key>, containers: Key -> bool, copies: Key -> bool,
                              copy: Member -> V, aggregateIn: (V, Member) -> V, rs: seq<(Key, Built<V>)>)
    requires forall k :: k in due ==> due[k].members != []
  {
    && (forall i :: 0 <= i < |rs| ==> BuiltRight(due, left, containers, copies, copy, aggregateIn, rs[i].0, rs[i].1))
    && (forall i, j :: 0 <= i < j < |rs| ==> rs[i].0 != rs[j].0)
    && (forall k :: k in due && k !in left ==> exists i :: 0 <= i < |rs| && rs[i].0 == k)
  }

  ghost predicate BuiltRight<V>(due: map<Key, Group>, left: set<Key>, containers: Key -> bool, copies: Key -> bool,
                                copy: Member -> V, aggregateIn: (V, Member) -> V, k: Key, r: Built<V>)
    requires forall k :: k in due ==> due[k].members != []
  {
    k in due && k !in left && Faithful(due[k], copy, aggregateIn, r) && (r.Sent? <==> containers(k) && copies(k))
  }

  lemma BuildStep<V>(due: map<Key, Group>, left: set<Key>, containers: Key -> bool, copies: Key -> bool,
                     copy: Member -> V, aggregateIn: (V, Member) -> V, rs: seq<(Key, Built<V>)>, k: Key, r: Built<V>)
    requires forall k :: k in due ==> due[k].members != []
    requires Building(due, left, containers, copies, copy, aggregateIn, rs) && k in left
    requires BuiltRight(due, left - {k}, containers, copies, copy, aggregateIn, k, r)
    ensures Building(due, left - {k}, containers, copies, copy, aggregateIn, rs + [(k, r)])
  {
    var rs' := rs + [(k, r)];
    forall x | x in due && x !in left - {k} ensures exists i :: 0 <= i < |rs'| && rs'[i].0 == x {
      if x == k { assert rs'[|rs|].0 == x; }
      else { var i :| 0 <= i < |rs| && rs[i].0 == x; assert rs'[i].0 == x; }
    }
  }

  lemma AllBuiltStep<V>(b: Books, due: map<Key, Group>, rs: seq<(Key, Built<V>)>, k: Key, r: Built<V>)
    requires (forall i :: 0 <= i < |rs| ==> rs[i].0 in due) && k in due
    ensures AllBuilt(b, due, rs + [(k, r)]) == BuiltBooks(AllBuilt(b, due, rs), k, due[k].members, r)
  {
    assert (rs + [(k, r)])[..|rs|] == rs;
  }

  // ------------------------------------------------------------------ the steps of the machine

  /** The steps of module Batch that building one claimed group stands for. */
  function BuildActions<V>(k: Key, r: Built<V>): seq<Action> { if r.Dropped? then [Abandon(k)] else [Register(k), Submit] }

  ghost predicate AllEnabled(s: Sys, acts: seq<Action>)
    decreases |acts|
  {
    acts == [] || (Enabled(s, acts[0]) && AllEnabled(After(s, acts[0]), acts[1..]))
  }

  /** The steps can be taken from `s`, and lead to these books and this number of numbers drawn. */
  ghost predicate LeadsTo(s: Sys, acts: seq<Action>, books: Books, drawn: nat) {
    AllEnabled(s, acts) && Final(s, acts).books == books && Final(s, acts).drawn == drawn
  }

  /** In `s` the flushing worker is about to build the group `k`. */
  ghost predicate AboutToBuild(s: Sys, books: Books, drawn: nat, k: Key, group: Group) {
    s.books == books && s.drawn == drawn && s.sending.None? && k in s.due && s.due[k] == group
  }

  /** Building a group is abandoning it, or registering its aggregate and submitting it. */
  lemma BuildRefines<V>(s: Sys, books: Books, drawn: nat, k: Key, group: Group, r: Built<V>)
    requires AboutToBuild(s, books, drawn, k, group) && (r.Sent? ==> r.id == (drawn + 1) % U32)
    ensures
      var acts := BuildActions(k, r);
      && LeadsTo(s, acts, BuiltBooks(books, k, group.members, r), if r.Sent? then drawn + 1 else drawn)
      && Final(s, acts).due == s.due - {k} && Final(s, acts).sending.None?
  {
    if r.Dropped? {
      assert [Abandon(k)][1..] == [];
      assert Final(After(s, Abandon(k)), []) == After(s, Abandon(k));
    } else {
      var acts: seq<Action> := [Register(k), Submit];
      var t := After(s, Register(k));
      assert acts[1..] == [Submit] && acts[1..][1..] == [];
      assert Final(After(t, Submit), []) == After(t, Submit);
      assert Final(t, [Submit]) == After(t, Submit);
    }
  }

  /** From every state of the machine with these books, in which `k` is about to be built. */
  ghost predicate BuildIsRun<V>(books: Books, drawn: nat, k: Key, group: Group, r: Built<V>, after: Books, afterDrawn: nat) {
    forall s :: AboutToBuild(s, books, drawn, k, group) ==> LeadsTo(s, BuildActions(k, r), after, afterDrawn)
  }

  lemma BuildRun<V>(books: Books, drawn: nat, k: Key, group: Group, r: Built<V>)
    requires r.Sent? ==> r.id == (drawn + 1) % U32
    ensures BuildIsRun(books, drawn, k, group, r, BuiltBooks(books, k, group.members, r), if r.Sent? then drawn + 1 else drawn)
  {
    forall s | AboutToBuild(s, books, drawn, k, group)
      ensures LeadsTo(s, BuildActions(k, r), BuiltBooks(books, k, group.members, r), if r.Sent? then drawn + 1 else drawn)
    {
      BuildRefines(s, books, drawn, k, group, r);
    }
  }

  function AllActions<V>(rs: seq<(Key, Built<V>)>): seq<Action>
    decreases |rs|
  {
    if rs == [] then [] else AllActions(rs[..|rs| - 1]) + BuildActions(rs[|rs| - 1].0, rs[|rs| - 1].1)
  }

  /** Aggregates sent, and their numbers: each the next of the flushing worker's counter. */
  function SentCount<V>(rs: seq<(Key, Built<V>)>): nat
    decreases |rs|
  {
    if rs == [] then 0 else SentCount(rs[..|rs| - 1]) + if rs[|rs| - 1].1.Sent? then 1 else 0
  }

  ghost predicate Numbered<V>(rs: seq<(Key, Built<V>)>, drawn: nat) {
    forall i :: 0 <= i < |rs| && rs[i].1.Sent? ==> rs[i].1.id == (drawn + SentCount(rs[..i]) + 1) % U32
  }

  lemma NumberedStep<V>(rs: seq<(Key, Built<V>)>, drawn: nat, k: Key, r: Built<V>)
    requires Numbered(rs, drawn) && (r.Sent? ==> r.id == (drawn + SentCount(rs) + 1) % U32)
    ensures Numbered(rs + [(k, r)], drawn) && SentCount(rs + [(k, r)]) == SentCount(rs) + if r.Sent? then 1 else 0
  {
    var more := rs + [(k, r)];
    assert more[..|rs|] == rs;
    forall i | 0 <= i < |more| && more[i].1.Sent? ensures more[i].1.id == (drawn + SentCount(more[..i]) + 1) % U32 {
      if i < |rs| { assert more[..i] == rs[..i] && more[i] == rs[i]; }
    }
  }

  lemma {:induction false} FinalJoin(s: Sys, a: seq<Action>, b: seq<Action>)
    requires AllEnabled(s, a)
    ensures AllEnabled(s, a + b) <==> AllEnabled(Final(s, a), b)
    ensures AllEnabled(Final(s, a), b) ==> Final(s, a + b) == Final(Final(s, a), b)
    decreases |a|
  {
    if a == [] {
      assert a + b == b;
    } else {
      assert (a + b)[0] == a[0] && (a + b)[1..] == a[1..] + b;
      FinalJoin(After(s, a[0]), a[1..], b);
    }
  }

  ghost predicate DistinctKeys<V>(rs: seq<(Key, Built<V>)>) { forall i, j :: 0 <= i < j < |rs| ==> rs[i].0 != rs[j].0 }

  ghost function KeysOf<V>(rs: seq<(Key, Built<V>)>): set<Key> { set i | 0 <= i < |rs| :: rs[i].0 }

  /** Building the groups of `rs` one after the other is a run of the machine from `s`. */
  ghost predicate BuiltSo<V>(s: Sys, rs: seq<(Key, Built<V>)>)
    requires forall i :: 0 <= i < |rs| ==> rs[i].0 in s.due
  {
    var acts := AllActions(rs);
    && LeadsTo(s, acts, AllBuilt(s.books, s.due, rs), s.drawn + SentCount(rs))
    && Final(s, acts).due == s.due - KeysOf(rs) && Final(s, acts).sending.None?
  }

  lemma {:induction false} BuiltMore<V>(s: Sys, rs: seq<(Key, Built<V>)>, k: Key, r: Built<V>)
    requires (forall i :: 0 <= i < |rs| ==> rs[i].0 in s.due) && BuiltSo(s, rs) && k in s.due && k !in KeysOf(rs)
    requires r.Sent? ==> r.id == (s.drawn + SentCount(rs) + 1) % U32
    ensures BuiltSo(s, rs + [(k, r)])
  {
    var m, more := Final(s, AllActions(rs)), rs + [(k, r)];
    assert more[..|rs|] == rs;
    BuildRefines(m, m.books, m.drawn, k, s.due[k], r);
    FinalJoin(s, AllActions(rs), BuildActions(k, r));
    assert AllActions(more) == AllActions(rs) + BuildActions(k, r);
    AllBuiltStep(s.books, s.due, rs, k, r);
    KeysOfMore(rs, k, r);
    assert (s.due - KeysOf(rs)) - {k} == s.due - KeysOf(more);
  }

  lemma KeysOfMore<V>(rs: seq<(Key, Built<V>)>, k: Key, r: Built<V>)
    ensures KeysOf(rs + [(k, r)]) == KeysOf(rs) + {k}
  {
    var more := rs + [(k, r)];
    forall x | x in KeysOf(rs) + {k} ensures x in KeysOf(more) {
      if x == k { assert more[|rs|].0 == x; }
      else { var i :| 0 <= i < |rs| && rs[i].0 == x; assert more[i].0 == x; }
    }
  }

  lemma NumberedInit<V>(rs: seq<(Key, Built<V>)>, drawn: nat)
    requires rs != [] && Numbered(rs, drawn)
    ensures Numbered(rs[..|rs| - 1], drawn)
  {
    var init := rs[..|rs| - 1];
    forall i | 0 <= i < |init| && init[i].1.Sent? ensures init[i].1.id == (drawn + SentCount(init[..i]) + 1) % U32 {
      assert init[i] == rs[i] && init[..i] == rs[..i];
    }
  }

  lemma {:induction false} AllBuiltRefines<V>(s: Sys, rs: seq<(Key, Built<V>)>)
    requires s.sending.None? && DistinctKeys(rs) && (forall i :: 0 <= i < |rs| ==> rs[i].0 in s.due) && Numbered(rs, s.drawn)
    ensures BuiltSo(s, rs)
    decreases |rs|
  {
    if rs == [] {
      assert s.due - KeysOf(rs) == s.due;
    } else {
      var n := |rs| - 1;
      NumberedInit(rs, s.drawn);
      AllBuiltRefines(s, rs[..n]);
      assert rs == rs[..n] + [(rs[n].0, rs[n].1)];
      BuiltMore(s, rs[..n], rs[n].0, rs[n].1);
    }
  }

  /** A pass from `s` on: claim what is due, then build it. */
  ghost function PassActions<V>(now: u64, pools: map<(u32, u32), u32>, rs: seq<(Key, Built<V>)>): seq<Action> {
    [Claim(now, pools)] + AllActions(rs)
  }

  ghost predicate AboutToFlush(s: Sys, books: Books, drawn: nat) {
    s.books == books && s.drawn == drawn && s.due == map[] && s.sending.None?
  }

  lemma {:induction false} PassRefines<V>(s: Sys, books: Books, drawn: nat, now: u64, pools: map<(u32, u32), u32>,
                                          rs: seq<(Key, Built<V>)>)
    requires AboutToFlush(s, books, drawn) && DistinctKeys(rs) && Numbered(rs, drawn)
    requires (forall i :: 0 <= i < |rs| ==> rs[i].0 in DueGroups(books, now, pools))
    requires KeysOf(rs) == DueGroups(books, now, pools).Keys
    ensures
      var acts := PassActions(now, pools, rs);
      && LeadsTo(s, acts, AllBuilt(Claimed(books, now, pools), DueGroups(books, now, pools), rs), drawn + SentCount(rs))
      && Final(s, acts).due == map[] && Final(s, acts).sending.None?
  {
    var c := After(s, Claim(now, pools));
    AllBuiltRefines(c, rs);
    var acts := PassActions(now, pools, rs);
    assert acts[0] == Claim(now, pools) && acts[1..] == AllActions(rs);
    assert c.due - KeysOf(rs) == map[];
  }

  // --------------------------------------------------------------------- which claims remain

  /** A claim survives building exactly if the group was not dropped. */
  lemma {:induction false} InFlightAfter<V>(b: Books, due: map<Key, Group>, rs: seq<(Key, Built<V>)>, k: Key)
    requires forall i :: 0 <= i < |rs| ==> rs[i].0 in due
    ensures k in AllBuilt(b, due, rs).inFlight <==>
      k in b.inFlight && forall i :: 0 <= i < |rs| && rs[i].0 == k ==> rs[i].1.Sent?
    decreases |rs|
  {
    if rs != [] {
      var n := |rs| - 1;
      InFlightAfter(b, due, rs[..n], k);
      assert forall i :: 0 <= i < n ==> rs[..n][i] == rs[i];
    }
  }

  /** The groups of `due` outside `left` are built, and led from the books `b` to `now`. */
  ghost predicate BuildingSo<V>(due: map<Key, Group>, left: set<Key>, containers: Key -> bool, copies: Key -> bool,
                                copy: Member -> V, aggregateIn: (V, Member) -> V, rs: seq<(Key, Built<V>)>,
                                b: Books, drawn: nat, now: Books, nowDrawn: nat)
    requires forall k :: k in due ==> due[k].members != []
  {
    && left <= due.Keys && Building(due, left, containers, copies, copy, aggregateIn, rs)
    && (forall i :: 0 <= i < |rs| ==> rs[i].0 in due) && now == AllBuilt(b, due, rs)
    && Numbered(rs, drawn) && nowDrawn == drawn + SentCount(rs)
  }

  lemma {:induction false} BuildOneMore<V>(due: map<Key, Group>, left: set<Key>, containers: Key -> bool, copies: Key -> bool,
                                           copy: Member -> V, aggregateIn: (V, Member) -> V, rs: seq<(Key, Built<V>)>,
                                           b: Books, drawn: nat, now: Books, nowDrawn: nat, k: Key, r: Built<V>)
    requires forall k :: k in due ==> due[k].members != []
    requires BuildingSo(due, left, containers, copies, copy, aggregateIn, rs, b, drawn, now, nowDrawn) && k in left
    requires Faithful(due[k], copy, aggregateIn, r) && (r.Sent? <==> containers(k) && copies(k))
    requires r.Sent? ==> r.id == (nowDrawn + 1) % U32
    ensures BuildingSo(due, left - {k}, containers, copies, copy, aggregateIn, rs + [(k, r)], b, drawn,
                       BuiltBooks(now, k, due[k].members, r), nowDrawn + if r.Sent? then 1 else 0)
  {
    BuildStep(due, left, containers, copies, copy, aggregateIn, rs, k, r);
    AllBuiltStep(b, due, rs, k, r);
    NumberedStep(rs, drawn, k, r);
  }

  lemma {:induction false} FlushedClaims<V>(b: Books, now: u64, pools: map<(u32, u32), u32>, due: map<Key, Group>,
                                            containers: Key -> bool, copies: Key -> bool, copy: Member -> V,
                                            aggregateIn: (V, Member) -> V, rs: seq<(Key, Built<V>)>)
    requires due == DueGroups(b, now, pools) && (forall k :: k in due ==> due[k].members != [])
    requires Building(due, {}, containers, copies, copy, aggregateIn, rs)
    ensures DistinctKeys(rs) && KeysOf(rs) == due.Keys && (forall i :: 0 <= i < |rs| ==> rs[i].0 in due)
    ensures
      var after := AllBuilt(Claimed(b, now, pools), due, rs).inFlight;
      && (forall k :: k in due ==> (k in after <==> containers(k) && copies(k)))
      && (forall k :: k !in due ==> (k in after <==> k in b.inFlight))
  {
    var c := Claimed(b, now, pools);
    forall i | 0 <= i < |rs| ensures rs[i].0 in due { assert BuiltRight(due, {}, containers, copies, copy, aggregateIn, rs[i].0, rs[i].1); }
    var after := AllBuilt(c, due, rs).inFlight;
    forall k | k in due ensures k in KeysOf(rs) && (k in after <==> containers(k) && copies(k)) {
      InFlightAfter(c, due, rs, k);
      var i :| 0 <= i < |rs| && rs[i].0 == k;
      assert BuiltRight(due, {}, containers, copies, copy, aggregateIn, rs[i].0, rs[i].1);
    }
    forall k | k !in due ensures k in after <==> k in b.inFlight { InFlightAfter(c, due, rs, k); }
  }

  class BatchManager {
    var groups: map<Key, Group>
    var inFlight: set<Key>
    var aggGroup: map<AggId, Key>
    var pending: map<AggId, seq<Member>>
    var drawn: nat   // task numbers drawn by the flushing worker

    ghost function View(): Books
      reads this
    {
      Books(groups, inFlight, aggGroup, pending)
    }

    /** No parked group is empty. */
    ghost predicate Valid()
      reads this
    {
      forall k :: k in groups ==> groups[k].members != []
    }

    constructor ()
      ensures Valid() && View() == EMPTY && drawn == 0
    {
      groups, inFlight, aggGroup, pending, drawn := map[], {}, map[], map[], 0;
    }

    method Add(m: Member, now: u64)
      requires Valid()
      modifies this
      ensures Valid() && View() == Parked(old(View()), m, now) && drawn == old(drawn)
    {
      var group := if m.key in groups then groups[m.key] else Group([], 0, false);
      if group.members == [] {
        group := group.(countBased := m.allToOne);
        if !m.allToOne { group := group.(deadline := (now + m.window) % U64); }
      }
      groups := groups[m.key := group.(members := group.members + [m])];
    }

    /** The locked part of FlushDue: the map is scanned in whatever order it iterates. */
    method ClaimDue(now: u64, pools: map<(u32, u32), u32>) returns (due: map<Key, Group>)
      requires Valid()
      modifies this
      ensures due == DueGroups(old(View()), now, pools) && forall k :: k in due ==> due[k].members != []
      ensures Valid() && View() == Claimed(old(View()), now, pools) && drawn == old(drawn)
    {
      ghost var was := View();
      var keys := groups.Keys;
      due := map[];
      assert was.groups - {} == was.groups;
      while keys != {}
        invariant Scanned(was, keys, due, now, pools, View()) && drawn == old(drawn)
        decreases keys
      {
        var k :| k in keys;
        ScanStep(was, keys, due, now, pools, View(), k);
        keys := keys - {k};
        if Ready(k, groups[k], now, pools) && k !in inFlight {
          inFlight := inFlight + {k};
          due := due[k := groups[k]];
          groups := groups - {k};
        }
      }
      ScanEnd(was, due, now, pools, View());
    }

    /** BuildAndSubmit on a claimed group: `container` and `copied` say whether the two look-ups succeed. */
    method BuildAndSubmit<V>(k: Key, group: Group, container: bool, copied: bool, copy: Member -> V,
                             aggregateIn: (V, Member) -> V) returns (r: Built<V>)
      requires Valid() && group.members != []
      modifies this
      ensures r.Sent? <==> container && copied
      ensures r.Sent? ==> r.id == (old(drawn) + 1) % U32 && drawn == old(drawn) + 1
      ensures r.Sent? ==> r.agg == Folded(aggregateIn, copy(group.members[0]), group.members[1..])
      ensures r.Dropped? ==> drawn == old(drawn)
      ensures Valid() && View() == BuiltBooks(old(View()), k, group.members, r)
      ensures BuildIsRun(old(View()), old(drawn), k, group, r, View(), drawn)
    {
      if !container || !copied {
        inFlight := inFlight - {k};
        r := Dropped;
        BuildRun(old(View()), old(drawn), k, group, r);
        return;
      }
      var agg := copy(group.members[0]);
      var rest := group.members[1..];
      var i := 1;
      while i < |group.members|
        invariant 1 <= i <= |group.members|
        invariant agg == Folded(aggregateIn, copy(group.members[0]), rest[..i - 1])
        invariant View() == old(View()) && drawn == old(drawn)
      {
        FoldedSnoc(aggregateIn, copy(group.members[0]), rest[..i - 1], group.members[i]);
        assert rest[..i] == rest[..i - 1] + [group.members[i]];
        agg := aggregateIn(agg, group.members[i]);
        i := i + 1;
      }
      assert rest[..i - 1] == rest;
      drawn := drawn + 1;
      var id := drawn % U32;
      pending := pending[id := group.members];
      aggGroup := aggGroup[id := k];
      r := Sent(id, agg);
      BuildRun(old(View()), old(drawn), k, group, r);
    }

    /** Builds the claimed groups, in whatever order. */
    method BuildAll<V>(due: map<Key, Group>, containers: Key -> bool, copies: Key -> bool,
                       copy: Member -> V, aggregateIn: (V, Member) -> V) returns (rs: seq<(Key, Built<V>)>)
      requires Valid() && forall k :: k in due ==> due[k].members != []
      modifies this
      ensures Valid() && Building(due, {}, containers, copies, copy, aggregateIn, rs)
      ensures View() == AllBuilt(old(View()), due, rs)
      ensures Numbered(rs, old(drawn)) && drawn == old(drawn) + SentCount(rs)
    {
      rs := [];
      var keys := due.Keys;
      while keys != {}
        invariant Valid()
        invariant BuildingSo(due, keys, containers, copies, copy, aggregateIn, rs, old(View()), old(drawn), View(), drawn)
        decreases keys
      {
        var k :| k in keys;
        ghost var now, nowDrawn := View(), drawn;
        var r := BuildAndSubmit(k, due[k], containers(k), copies(k), copy, aggregateIn);
        BuildOneMore(due, keys, containers, copies, copy, aggregateIn, rs, old(View()), old(drawn), now, nowDrawn, k, r);
        keys, rs := keys - {k}, rs + [(k, r)];
      }
    }

    /**
     * One pass of the flushing worker. `containers` and `copies` say for which keys the two
     * look-ups succeed. The worker is told to keep polling exactly if a group was parked. Afterwards
     * a claimed key is in flight exactly if its aggregate was sent; and the pass is a run of the machine.
     */
    method FlushDue<V>(now: u64, pools: map<(u32, u32), u32>, containers: Key -> bool, copies: Key -> bool,
                       copy: Member -> V, aggregateIn: (V, Member) -> V)
      returns (busy: bool, rs: seq<(Key, Built<V>)>)
      requires Valid()
      modifies this
      ensures Valid() && (busy <==> old(groups) != map[])
      ensures
        var due := DueGroups(old(View()), now, pools);
        && (forall k :: k in due ==> due[k].members != [])
        && Building(due, {}, containers, copies, copy, aggregateIn, rs)
        && View() == AllBuilt(Claimed(old(View()), now, pools), due, rs)
        && (forall k :: k in due ==> (k in inFlight <==> containers(k) && copies(k)))
        && (forall k :: k !in due ==> (k in inFlight <==> k in old(inFlight)))
      ensures forall s :: AboutToFlush(s, old(View()), old(drawn)) ==> LeadsTo(s, PassActions(now, pools, rs), View(), drawn)
    {
      busy, rs := false, [];
      ghost var b, before := View(), drawn;
      if groups != map[] {
        var due := ClaimDue(now, pools);
        var remains := groups != map[];
        rs := BuildAll(due, containers, copies, copy, aggregateIn);
        busy := due != map[] || remains;
      }
      ghost var due := DueGroups(b, now, pools);
      FlushedClaims(b, now, pools, due, containers, copies, copy, aggregateIn, rs);
      forall s | AboutToFlush(s, b, before) ensures LeadsTo(s, PassActions(now, pools, rs), View(), drawn) {
        PassRefines(s, b, before, now, pools, rs);
      }
    }

    /** OnAggregateComplete: the members to end, if any and if there is a container to answer through. */
    method OnAggregateComplete(id: AggId, container: bool) returns (ended: seq<Member>)
      requires Valid()
      modifies this
      ensures Valid() && View() == Taken(Released(old(View()), id), id) && drawn == old(drawn)
      ensures ended == if id in old(pending) && container then old(pending)[id] else []
    {
      if id in aggGroup {
        inFlight := inFlight - {aggGroup[id]};
        aggGroup := aggGroup - {id};
      }
      ended := [];
      if id in pending {
        var members := pending[id];
        pending := pending - {id};
        if container { ended := members; }
      }
    }
  }
}

/**
 * Collective batching: the books that the batch manager keeps under its two locks, and
 * the machine in which any number of workers park tasks and complete aggregates while
 * one worker flushes. Each lock section is one step.
 */
module Batch {
  import opened Words

  datatype Key = Key(pool: (u32, u32), method_: u32, hash: u32, batchKey: u64)

  /** A parked task: its number in order of arrival, its group, and the fields of its query. */
  datatype Member = Member(uid: nat, key: Key, allToOne: bool, window: u64)

  datatype Group = Group(members: seq<Member>, deadline: u64, countBased: bool)

  type AggId = u32

  datatype Books = Books(groups: map<Key, Group>, inFlight: set<Key>, aggGroup: map<AggId, Key>,
                         pending: map<AggId, seq<Member>>)

  const EMPTY := Books(map[], {}, map[], map[])

  // ------------------------------------------------------------------------ lock sections

  /** The window of an arrival; steady-clock nanoseconds wrap at 64 bits. */
  function WindowEnd(m: Member, now: u64): u64 { (now + m.window) % U64 }

  /** The first arrival sets the gate of its group. */
  function Opened(g: Group, m: Member, now: u64): Group {
    g.(countBased := m.allToOne, deadline := if m.allToOne then g.deadline else WindowEnd(m, now))
  }

  function Parked(b: Books, m: Member, now: u64): Books {
    var g := if m.key in b.groups then b.groups[m.key] else Group([], 0, false);
    var gated := if g.members == [] then Opened(g, m, now) else g;
    b.(groups := b.groups[m.key := gated.(members := g.members + [m])])
  }

  /** `pools` gives the live number of containers of the registered pools. */
  predicate Ready(k: Key, g: Group, now: u64, pools: map<(u32, u32), u32>) {
    if g.countBased then k.pool in pools && pools[k.pool] > 0 && |g.members| >= pools[k.pool]
    else now >= g.deadline
  }

  predicate Due(b: Books, k: Key, now: u64, pools: map<(u32, u32), u32>) {
    k in b.groups && Ready(k, b.groups[k], now, pools) && k !in b.inFlight
  }

  function DueGroups(b: Books, now: u64, pools: map<(u32, u32), u32>): map<Key, Group> {
    map k | k in b.groups && Due(b, k, now, pools) :: b.groups[k]
  }

  function Claimed(b: Books, now: u64, pools: map<(u32, u32), u32>): Books {
    var due := DueGroups(b, now, pools).Keys;
    b.(groups := b.groups - due, inFlight := b.inFlight + due)
  }

  function Unclaimed(b: Books, k: Key): Books { b.(inFlight := b.inFlight - {k}) }

  function Registered(b: Books, id: AggId, members: seq<Member>): Books { b.(pending := b.pending[id := members]) }

  function Mapped(b: Books, id: AggId, k: Key): Books { b.(aggGroup := b.aggGroup[id := k]) }

  function Released(b: Books, id: AggId): Books {
    if id in b.aggGroup then b.(inFlight := b.inFlight - {b.aggGroup[id]}, aggGroup := b.aggGroup - {id}) else b
  }

  function Taken(b: Books, id: AggId): Books { b.(pending := b.pending - {id}) }

  // ----------------------------------------------------------------------------- machine

  /**
   * `due` is what the flushing worker has claimed and not built yet; `sending` an aggregate
   * recorded in `pending` and not yet in `aggGroup`; `running` the submitted aggregates;
   * `closing` those whose completion has released its claim but not broadcast yet; `drawn`
   * how many task numbers the flushing worker has drawn from its 32-bit counter.
   */
  datatype Sys = Sys(books: Books, due: map<Key, Group>, sending: Option<(AggId, Key)>, drawn: nat,
                     running: set<AggId>, closing: set<AggId>, done: seq<Member>, dropped: seq<Member>,
                     arrivals: seq<(Member, u64)>)

  const INIT := Sys(EMPTY, map[], None, 0, {}, {}, [], [], [])

  datatype Action =
    | Add(m: Member, now: u64)
    | Claim(at: u64, pools: map<(u32, u32), u32>)
    | Abandon(k: Key)                  // no container, or the copy failed
    | Register(k: Key)
    | Submit
    | OtherTask                        // the flushing worker numbers some other task
    | Release(id: AggId)
    | Broadcast(id: AggId, container: bool)

  /** The next value of the flushing worker's task counter. */
  function NextId(s: Sys): AggId { (s.drawn + 1) % U32 }

  predicate Enabled(s: Sys, a: Action) {
    match a
    case Add(m, _) => m.uid == |s.arrivals|
    case Claim(_, _) => s.due == map[] && s.sending.None?
    case Abandon(k) => k in s.due && s.sending.None?
    case Register(k) => k in s.due && s.sending.None?
    case Submit => s.sending.Some?
    case OtherTask => true
    case Release(id) => id in s.running
    case Broadcast(id, _) => id in s.closing
  }

  function After(s: Sys, a: Action): Sys
    requires Enabled(s, a)
  {
    match a
    case Add(m, now) => s.(books := Parked(s.books, m, now), arrivals := s.arrivals + [(m, now)])
    case Claim(at, pools) => s.(books := Claimed(s.books, at, pools), due := DueGroups(s.books, at, pools))
    case Abandon(k) => s.(books := Unclaimed(s.books, k), due := s.due - {k}, dropped := s.dropped + s.due[k].members)
    case Register(k) =>
      var id := NextId(s);
      s.(books := Registered(s.books, id, s.due[k].members), due := s.due - {k}, sending := Some((id, k)),
         drawn := s.drawn + 1)
    case Submit =>
      var (id, k) := s.sending.value;
      s.(books := Mapped(s.books, id, k), sending := None, running := s.running + {id})
    case OtherTask => s.(drawn := s.drawn + 1)
    case Release(id) => s.(books := Released(s.books, id), running := s.running - {id}, closing := s.closing + {id})
    case Broadcast(id, container) =>
      var s' := s.(books := Taken(s.books, id), closing := s.closing - {id});
      if id !in s.books.pending then s'
      else if container then s'.(done := s.done + s.books.pending[id])
      else s'.(dropped := s.dropped + s.books.pending[id])
  }

  /** A new aggregate does not get the number of one whose members are still pending. */
  predicate Fresh(s: Sys, a: Action) { a.Register? ==> NextId(s) !in s.books.pending }

  ghost predicate Run(s: Sys, acts: seq<Action>)
    decreases |acts|
  {
    acts == [] || (Enabled(s, acts[0]) && Fresh(s, acts[0]) && Run(After(s, acts[0]), acts[1..]))
  }

  ghost function Final(s: Sys, acts: seq<Action>): Sys
    decreases |acts|
  {
    if acts == [] || !Enabled(s, acts[0]) then s else Final(After(s, acts[0]), acts[1..])
  }

  // ----------------------------------------------------------------------- mutual exclusion

  ghost function SendingIds(s: Sys): set<AggId> { if s.sending.Some? then {s.sending.value.0} else {} }

  ghost function SendingKeys(s: Sys): set<Key> { if s.sending.Some? then {s.sending.value.1} else {} }

  predicate Owns(b: Books, id: AggId, k: Key) { id in b.aggGroup && b.aggGroup[id] == k }

  /** The claims on `k`: by the flushing worker, or by an aggregate under way. */
  ghost predicate Held(s: Sys, k: Key) { k in s.due || k in SendingKeys(s) || exists id :: Owns(s.books, id, k) }

  /** A key is in flight exactly while it is claimed, and it is claimed once. */
  ghost predicate ClaimsMatch(s: Sys) {
    && (forall k :: k in s.books.inFlight <==> Held(s, k))
    && (forall k :: k in s.due ==> k !in SendingKeys(s))
    && (forall id :: id in s.books.aggGroup ==> s.books.aggGroup[id] !in s.due && s.books.aggGroup[id] !in SendingKeys(s))
    && (forall i, j ::
          i in s.books.aggGroup && j in s.books.aggGroup && s.books.aggGroup[i] == s.books.aggGroup[j] ==> i == j)
  }

  /** Aggregate ids: each is at one stage, and the next one is new. */
  ghost predicate IdsMatch(s: Sys) {
    && s.books.aggGroup.Keys == s.running
    && s.books.pending.Keys == s.running + s.closing + SendingIds(s)
    && s.running !! s.closing && s.running !! SendingIds(s) && s.closing !! SendingIds(s)
    && (s.drawn < U32 ==> forall id :: id in s.books.pending ==> id <= s.drawn)
    && (forall id :: id in s.books.pending ==> s.books.pending[id] != [])
  }

  lemma RegisterKeepsIds(s: Sys, k: Key)
    requires IdsMatch(s) && GroupsOk(s) && Enabled(s, Register(k)) && Fresh(s, Register(k))
    ensures IdsMatch(After(s, Register(k)))
  {
  }

  lemma StepKeepsIds(s: Sys, a: Action)
    requires IdsMatch(s) && GroupsOk(s) && Enabled(s, a) && Fresh(s, a)
    ensures IdsMatch(After(s, a))
  {
    match a
    case Register(k) => RegisterKeepsIds(s, k);
    case _ =>
  }

  lemma OwnersInFlight(s: Sys, id: AggId)
    requires ClaimsMatch(s) && id in s.books.aggGroup
    ensures s.books.aggGroup[id] in s.books.inFlight
  {
    assert Owns(s.books, id, s.books.aggGroup[id]);
  }

  lemma HeldAfter(s: Sys, a: Action, k: Key)
    requires ClaimsMatch(s) && IdsMatch(s) && Enabled(s, a) && Fresh(s, a)
    ensures k in After(s, a).books.inFlight <==> Held(After(s, a), k)
  {
    var s' := After(s, a);
    if exists id :: Owns(s.books, id, k) {
      var id :| Owns(s.books, id, k);
      if !(a == Release(id)) { assert Owns(s'.books, id, k); }
    }
    if exists id :: Owns(s'.books, id, k) {
      var id :| Owns(s'.books, id, k);
      if id in s.books.aggGroup { assert Owns(s.books, id, k); }
    }
    if a.Submit? { assert Owns(s'.books, s.sending.value.0, s.sending.value.1); }
  }

  lemma StepKeepsClaims(s: Sys, a: Action)
    requires ClaimsMatch(s) && IdsMatch(s) && Enabled(s, a) && Fresh(s, a)
    ensures ClaimsMatch(After(s, a))
  {
    forall k ensures k in After(s, a).books.inFlight <==> Held(After(s, a), k) { HeldAfter(s, a, k); }
    forall id | id in s.books.aggGroup ensures s.books.aggGroup[id] in s.books.inFlight { OwnersInFlight(s, id); }
  }

  // ------------------------------------------------------------------------------ groups

  /** A group is never empty; its members arrived in this order; the first one set its gate. */
  ghost predicate GroupOk(arrivals: seq<(Member, u64)>, k: Key, g: Group) {
    && g.members != []
    && (forall i :: 0 <= i < |g.members| ==>
          g.members[i].key == k && g.members[i].uid < |arrivals| && arrivals[g.members[i].uid].0 == g.members[i])
    && (forall i, j :: 0 <= i < j < |g.members| ==> g.members[i].uid < g.members[j].uid)
    && g.countBased == g.members[0].allToOne
    && (!g.countBased ==> g.deadline == WindowEnd(g.members[0], arrivals[g.members[0].uid].1))
  }

  ghost predicate GroupsOk(s: Sys) {
    && (forall k :: k in s.books.groups ==> GroupOk(s.arrivals, k, s.books.groups[k]))
    && (forall k :: k in s.due ==> GroupOk(s.arrivals, k, s.due[k]))
  }

  lemma LaterArrival(arrivals: seq<(Member, u64)>, k: Key, g: Group, m: Member, now: u64)
    requires GroupOk(arrivals, k, g)
    ensures GroupOk(arrivals + [(m, now)], k, g)
    ensures m.key == k && m.uid == |arrivals| ==> GroupOk(arrivals + [(m, now)], k, g.(members := g.members + [m]))
  {
  }

  lemma AddKeepsGroups(s: Sys, m: Member, now: u64)
    requires GroupsOk(s) && Enabled(s, Add(m, now))
    ensures GroupsOk(After(s, Add(m, now)))
  {
    var s' := After(s, Add(m, now));
    forall k | k in s'.books.groups ensures GroupOk(s'.arrivals, k, s'.books.groups[k]) {
      if k in s.books.groups { LaterArrival(s.arrivals, k, s.books.groups[k], m, now); }
    }
    forall k | k in s'.due ensures GroupOk(s'.arrivals, k, s'.due[k]) {
      LaterArrival(s.arrivals, k, s.due[k], m, now);
    }
  }

  lemma StepKeepsGroups(s: Sys, a: Action)
    requires GroupsOk(s) && Enabled(s, a)
    ensures GroupsOk(After(s, a))
  {
    if a.Add? { AddKeepsGroups(s, a.m, a.now); }
  }

  // ------------------------------------------------------------------------ conservation

  datatype Place = InGroup(k: Key, i: nat) | InDue(k: Key, i: nat) | InPending(id: AggId, i: nat)
                 | InDone(i: nat) | InDropped(i: nat)

  function Nth(ms: seq<Member>, i: nat): Option<Member> { if i < |ms| then Some(ms[i]) else None }

  /** The member at a place. */
  function At(s: Sys, p: Place): Option<Member> {
    match p
    case InGroup(k, i) => if k in s.books.groups then Nth(s.books.groups[k].members, i) else None
    case InDue(k, i) => if k in s.due then Nth(s.due[k].members, i) else None
    case InPending(id, i) => if id in s.books.pending then Nth(s.books.pending[id], i) else None
    case InDone(i) => Nth(s.done, i)
    case InDropped(i) => Nth(s.dropped, i)
  }

  ghost predicate Somewhere(s: Sys, m: Member) { exists p :: At(s, p) == Some(m) }

  /** Every task ever added is at exactly one place, and nothing else is. */
  ghost predicate Exact(s: Sys) {
    && (forall u :: 0 <= u < |s.arrivals| ==> s.arrivals[u].0.uid == u && Somewhere(s, s.arrivals[u].0))
    && (forall p :: At(s, p).Some? ==>
          At(s, p).value.uid < |s.arrivals| && s.arrivals[At(s, p).value.uid].0 == At(s, p).value)
    && (forall p, q :: At(s, p).Some? && At(s, p) == At(s, q) ==> p == q)
  }

  /** Where a step takes the member at `p`. */
  function Forth(s: Sys, a: Action, p: Place): Place
    requires Enabled(s, a)
  {
    match a
    case Claim(at, pools) => if p.InGroup? && Due(s.books, p.k, at, pools) then InDue(p.k, p.i) else p
    case Abandon(k) => if p.InDue? && p.k == k then InDropped(|s.dropped| + p.i) else p
    case Register(k) => if p.InDue? && p.k == k then InPending(NextId(s), p.i) else p
    case Broadcast(id, container) =>
      if p.InPending? && p.id == id then (if container then InDone(|s.done| + p.i) else InDropped(|s.dropped| + p.i)) else p
    case _ => p
  }

  /** Where the member at `q` after a step was before it. */
  function Back(s: Sys, a: Action, q: Place): Place
    requires Enabled(s, a)
  {
    match a
    case Claim(at, pools) => if q.InDue? then InGroup(q.k, q.i) else q
    case Abandon(k) => if q.InDropped? && q.i >= |s.dropped| then InDue(k, q.i - |s.dropped|) else q
    case Register(k) => if q.InPending? && q.id == NextId(s) then InDue(k, q.i) else q
    case Broadcast(id, container) =>
      if container && q.InDone? && q.i >= |s.done| then InPending(id, q.i - |s.done|)
      else if !container && q.InDropped? && q.i >= |s.dropped| then InPending(id, q.i - |s.dropped|)
      else q
    case _ => q
  }

  lemma MovesForth(s: Sys, a: Action, p: Place)
    requires IdsMatch(s) && Enabled(s, a) && Fresh(s, a) && At(s, p).Some?
    ensures At(After(s, a), Forth(s, a, p)) == At(s, p)
  {
  }

  lemma CameBack(s: Sys, a: Action, q: Place)
    requires IdsMatch(s) && Enabled(s, a) && Fresh(s, a) && !a.Add? && At(After(s, a), q).Some?
    ensures At(s, Back(s, a, q)) == At(After(s, a), q) && Forth(s, a, Back(s, a, q)) == q
  {
  }

  /** A step that only moves members keeps them at one place each. */
  lemma MoveKeepsExact(s: Sys, a: Action)
    requires Exact(s) && IdsMatch(s) && Enabled(s, a) && Fresh(s, a) && !a.Add?
    ensures Exact(After(s, a))
  {
    var s' := After(s, a);
    forall u | 0 <= u < |s'.arrivals| ensures Somewhere(s', s'.arrivals[u].0) {
      assert Somewhere(s, s.arrivals[u].0);
      var p :| At(s, p) == Some(s.arrivals[u].0);
      MovesForth(s, a, p);
    }
    forall q | At(s', q).Some?
      ensures At(s', q).value.uid < |s'.arrivals| && s'.arrivals[At(s', q).value.uid].0 == At(s', q).value
    {
      CameBack(s, a, q);
    }
    forall p, q | At(s', p).Some? && At(s', p) == At(s', q) ensures p == q {
      CameBack(s, a, p);
      CameBack(s, a, q);
    }
  }

  /** A new member stands at the end of its group; the others stay. */
  lemma AddedAt(s: Sys, m: Member, now: u64, p: Place)
    requires Enabled(s, Add(m, now))
    ensures
      var n := if m.key in s.books.groups then |s.books.groups[m.key].members| else 0;
      At(After(s, Add(m, now)), p) == if p == InGroup(m.key, n) then Some(m) else At(s, p)
  {
  }

  lemma AddKeepsExact(s: Sys, m: Member, now: u64)
    requires Exact(s) && Enabled(s, Add(m, now))
    ensures Exact(After(s, Add(m, now)))
  {
    var s' := After(s, Add(m, now));
    var n := if m.key in s.books.groups then |s.books.groups[m.key].members| else 0;
    forall u | 0 <= u < |s'.arrivals| ensures Somewhere(s', s'.arrivals[u].0) {
      if u == |s.arrivals| {
        AddedAt(s, m, now, InGroup(m.key, n));
      } else {
        assert Somewhere(s, s.arrivals[u].0);
        var p :| At(s, p) == Some(s.arrivals[u].0);
        AddedAt(s, m, now, p);
        assert At(s', p) == At(s, p);
      }
    }
    forall q | At(s', q).Some?
      ensures At(s', q).value.uid < |s'.arrivals| && s'.arrivals[At(s', q).value.uid].0 == At(s', q).value
    {
      AddedAt(s, m, now, q);
    }
    forall p, q | At(s', p).Some? && At(s', p) == At(s', q) ensures p == q {
      AddedAt(s, m, now, p);
      AddedAt(s, m, now, q);
    }
  }

  // ------------------------------------------------------------------------- every run

  ghost predicate Inv(s: Sys) { Exact(s) && ClaimsMatch(s) && IdsMatch(s) && GroupsOk(s) }

  lemma StepKeepsInv(s: Sys, a: Action)
    requires Inv(s) && Enabled(s, a) && Fresh(s, a)
    ensures Inv(After(s, a))
  {
    StepKeepsIds(s, a);
    StepKeepsClaims(s, a);
    StepKeepsGroups(s, a);
    if a.Add? { AddKeepsExact(s, a.m, a.now); } else { MoveKeepsExact(s, a); }
  }

  lemma InitOk()
    ensures Inv(INIT)
  {
  }

  /**
   * Batch conservation: after every run each added task is in exactly one parked group, claimed
   * group, pending entry, the completed or the dropped list, and so is completed at most once.
   */
  lemma {:induction false} Conserved(s: Sys, acts: seq<Action>)
    requires Inv(s) && Run(s, acts)
    ensures Inv(Final(s, acts))
    ensures s.done <= Final(s, acts).done && s.dropped <= Final(s, acts).dropped
    decreases |acts|
  {
    if acts != [] {
      StepKeepsInv(s, acts[0]);
      Conserved(After(s, acts[0]), acts[1..]);
    }
  }

  lemma CompletedOnce(acts: seq<Action>, i: nat, j: nat)
    requires Run(INIT, acts) && i < j < |Final(INIT, acts).done|
    ensures Final(INIT, acts).done[i] != Final(INIT, acts).done[j]
    ensures Final(INIT, acts).done[i] !in Final(INIT, acts).dropped
  {
    InitOk();
    Conserved(INIT, acts);
    var s := Final(INIT, acts);
    assert At(s, InDone(i)) == Some(s.done[i]) && At(s, InDone(j)) == Some(s.done[j]);
    forall d | 0 <= d < |s.dropped| ensures s.dropped[d] != s.done[i] {
      assert At(s, InDropped(d)) == Some(s.dropped[d]);
    }
  }

  /** The flushing worker's counter gives new numbers until it has wrapped once. */
  lemma FreshUntilWrap(s: Sys, a: Action)
    requires Inv(s) && Enabled(s, a) && s.drawn + 1 < U32
    ensures Fresh(s, a)
  {
  }

  /** Giving an aggregate the number of a pending one loses members, and nothing else does. */
  lemma RegisterConservesIffFresh(s: Sys, k: Key)
    requires Inv(s) && Enabled(s, Register(k))
    ensures Exact(After(s, Register(k))) <==> NextId(s) !in s.books.pending
  {
    var id := NextId(s);
    if id !in s.books.pending {
      StepKeepsInv(s, Register(k));
    } else {
      var s' := After(s, Register(k));
      var m := s.books.pending[id][0];
      assert At(s, InPending(id, 0)) == Some(m);
      forall p ensures At(s', p) != Some(m) {
        var q := if p.InPending? && p.id == id then InDue(k, p.i) else p;
        assert At(s', p).Some? ==> At(s, q) == At(s', p);
        assert q != InPending(id, 0);
      }
      assert !Somewhere(s', s'.arrivals[m.uid].0);
    }
  }

  /** A key is in flight exactly while the flushing worker or one running aggregate holds it, never two of them. */
  lemma PerKeyExclusion(acts: seq<Action>, k: Key, i: AggId, j: AggId)
    requires Run(INIT, acts)
    ensures
      var s := Final(INIT, acts);
      && (k in s.books.inFlight <==> Held(s, k))
      && (Owns(s.books, i, k) && Owns(s.books, j, k) ==> i == j)
      && (Owns(s.books, i, k) ==> k !in s.due && k !in SendingKeys(s))
  {
    InitOk();
    Conserved(INIT, acts);
  }

  /** Building ends either way: the claim is given up with its members, or the aggregate owns it. */
  lemma BuildingResolves(s: Sys, k: Key)
    requires Inv(s) && Enabled(s, Register(k)) && Fresh(s, Register(k))
    ensures k !in After(s, Abandon(k)).books.inFlight && k !in After(s, Abandon(k)).due
    ensures
      var s' := After(After(s, Register(k)), Submit);
      && k in s'.books.inFlight && k !in s'.due && Owns(s'.books, NextId(s), k)
      && NextId(s) in s'.running && s'.books.pending[NextId(s)] == s.due[k].members
  {
    StepKeepsInv(s, Register(k));
    StepKeepsInv(After(s, Register(k)), Submit);
    var s' := After(After(s, Register(k)), Submit);
    assert Owns(s'.books, NextId(s), k);
    OwnersInFlight(s', NextId(s));
  }

  /** What the first arrival of group `k` asks for. */
  ghost predicate GateOpen(s: Sys, k: Key, at: u64, pools: map<(u32, u32), u32>)
    requires GroupsOk(s) && k in s.books.groups
  {
    var ms := s.books.groups[k].members;
    assert GroupOk(s.arrivals, k, s.books.groups[k]);
    if ms[0].allToOne then k.pool in pools && |ms| >= pools[k.pool] > 0
    else WindowPassed(s.arrivals[ms[0].uid].1, ms[0].window, at)
  }

  /** At least the window has passed since the arrival; if its end lies past 2^64 that clock value comes 2^64 early. */
  predicate WindowPassed(arrival: u64, window: u64, at: u64) {
    if arrival + window < U64 then at >= arrival + window else at + U64 >= arrival + window
  }

  lemma DueIffGateOpen(s: Sys, at: u64, pools: map<(u32, u32), u32>, k: Key)
    requires GroupsOk(s)
    ensures k in DueGroups(s.books, at, pools) <==>
      k in s.books.groups && k !in s.books.inFlight && GateOpen(s, k, at, pools)
  {
    if k in s.books.groups { assert GroupOk(s.arrivals, k, s.books.groups[k]); }
  }

  /**
   * In every run a pass claims exactly the groups whose gate is open and whose key is free. The gate is
   * the count, or the window of the first arrival, which no later member moves; what is claimed is
   * not empty and in order of arrival.
   */
  lemma ClaimsExactlyTheDue(acts: seq<Action>, at: u64, pools: map<(u32, u32), u32>, k: Key)
    requires Run(INIT, acts) && Enabled(Final(INIT, acts), Claim(at, pools))
    ensures GroupsOk(Final(INIT, acts))
    ensures
      var s := Final(INIT, acts);
      var due := After(s, Claim(at, pools)).due;
      && (k in due <==> k in s.books.groups && k !in s.books.inFlight && GateOpen(s, k, at, pools))
      && (k in due ==> GroupOk(s.arrivals, k, due[k]))
  {
    InitOk();
    Conserved(INIT, acts);
    DueIffGateOpen(Final(INIT, acts), at, pools, k);
  }

  // ------------------------------------------------------------------------ a repeated number

  lemma {:induction false} Extend(s: Sys, acts: seq<Action>, a: Action)
    requires Run(s, acts) && Enabled(Final(s, acts), a) && Fresh(Final(s, acts), a)
    ensures Run(s, acts + [a]) && Final(s, acts + [a]) == After(Final(s, acts), a)
    decreases |acts|
  {
    if acts == [] {
      assert acts + [a] == [a] && [a][1..] == [];
      assert Run(After(s, a), []) && Final(After(s, a), []) == After(s, a);
    } else {
      assert (acts + [a])[0] == acts[0] && (acts + [a])[1..] == acts[1..] + [a];
      Extend(After(s, acts[0]), acts[1..], a);
    }
  }

  /** The flushing worker numbers `n` other tasks. */
  lemma {:induction false} OtherTasks(acts: seq<Action>, n: nat) returns (more: seq<Action>)
    requires Run(INIT, acts)
    ensures Run(INIT, more)
    ensures Final(INIT, more) == Final(INIT, acts).(drawn := Final(INIT, acts).drawn + n)
    decreases n
  {
    if n == 0 {
      more := acts;
    } else {
      more := OtherTasks(acts, n - 1);
      Extend(INIT, more, OtherTask);
      more := more + [OtherTask];
    }
  }

  predicate Plain(m: Member, uid: nat) { m.uid == uid && !m.allToOne && m.window == 0 }

  /** One aggregate under way with `m`, number 1; a second group, of `n`, claimed. */
  ghost predicate TwoGroups(s: Sys, m: Member, n: Member) {
    && s.sending.None? && s.books.pending == map[1 := [m]]
    && n.key in s.due && s.due[n.key].members == [n]
  }

  lemma AloneInGroup(m: Member)
    requires Plain(m, m.uid)
    ensures WindowEnd(m, 0) == 0 && Opened(Group([], 0, false), m, 0).(members := [] + [m]) == Group([m], 0, false)
  {
  }

  lemma FirstAggregate(m: Member) returns (acts: seq<Action>)
    requires Plain(m, 0)
    ensures Run(INIT, acts)
    ensures
      var s := Final(INIT, acts);
      && s.due == map[] && s.sending.None? && s.books.groups == map[] && s.books.inFlight == {m.key}
      && s.books.pending == map[1 := [m]] && s.drawn == 1 && |s.arrivals| == 1
  {
    acts := [];
    Extend(INIT, acts, Add(m, 0));
    acts := acts + [Add(m, 0)];
    var s1 := Final(INIT, acts);
    var g := Group([m], 0, false);
    AloneInGroup(m);
    assert s1.books.groups == map[m.key := g];
    Extend(INIT, acts, Claim(0, map[]));
    acts := acts + [Claim(0, map[])];
    var s2 := Final(INIT, acts);
    assert s2.due == map[m.key := g] && s2.books.groups == map[];
    Extend(INIT, acts, Register(m.key));
    acts := acts + [Register(m.key)];
    assert Final(INIT, acts).due == map[];
    Extend(INIT, acts, Submit);
    acts := acts + [Submit];
  }

  lemma SecondGroup(m: Member, n: Member) returns (acts: seq<Action>)
    requires Plain(m, 0) && Plain(n, 1) && m.key != n.key
    ensures Run(INIT, acts) && TwoGroups(Final(INIT, acts), m, n) && Final(INIT, acts).drawn == 1
  {
    acts := FirstAggregate(m);
    Extend(INIT, acts, Add(n, 0));
    acts := acts + [Add(n, 0)];
    var g := Group([n], 0, false);
    AloneInGroup(n);
    assert Final(INIT, acts).books.groups == map[n.key := g];
    Extend(INIT, acts, Claim(0, map[]));
    acts := acts + [Claim(0, map[])];
    assert Final(INIT, acts).due == map[n.key := g];
  }

  /**
   * The failing case from the start: the aggregate of `m` is still pending when the counter has come
   * round to its number, and registering the group of `n` loses `m`.
   */
  lemma RepeatedNumberLoses(m: Member, n: Member) returns (acts: seq<Action>)
    requires Plain(m, 0) && Plain(n, 1) && m.key != n.key
    ensures Run(INIT, acts) && Enabled(Final(INIT, acts), Register(n.key))
    ensures !Fresh(Final(INIT, acts), Register(n.key)) && !Exact(After(Final(INIT, acts), Register(n.key)))
  {
    var lead := SecondGroup(m, n);
    acts := OtherTasks(lead, U32 - 1);
    InitOk();
    Conserved(INIT, acts);
    ComesRound(Final(INIT, acts), m, n);
  }

  lemma ComesRound(s: Sys, m: Member, n: Member)
    requires Inv(s) && TwoGroups(s, m, n) && s.drawn == U32
    ensures Enabled(s, Register(n.key)) && !Fresh(s, Register(n.key)) && !Exact(After(s, Register(n.key)))
  {
    assert NextId(s) == 1;
    RegisterConservesIffFresh(s, n.key);
  }
}

/**
 * Merge batching on a worker: popped tasks are failed, routed away, run as they are, or
 * parked for a container's policy, which may fold several of them into one merged task;
 * completing the merged task ends the tasks folded into it.
 */
module Merge {
  import opened Words

  datatype Task = Task(id: nat, pool: nat, started: bool)

  /** What one pop of the lane gives, after looking up the container and routing. */
  datatype Arrival =
    | Nothing                 // a null future
    | NoContainer(t: Task)    // completed with an error
    | Elsewhere(t: Task)      // routed to another worker or node
    | Here(t: Task)

  datatype Entry = Entry(task: Task, stamp: nat)
  datatype Group = Group(pool: nat, tag: nat, entries: seq<Entry>)

  /** Calls a policy makes on the sink. A null task or merged task is allowed, and ignored. */
  datatype Call = Passthrough(task: Option<Task>) | Emit(isNull: bool, parents: seq<Task>)

  /** What became of a task. */
  datatype Event =
    | Failed(t: Task)
    | Sent(t: Task)
    | Ran(t: Task)
    | Merged(key: u32, parents: seq<Task>)
    | Forgotten(parents: seq<Task>)      // handed to Emit together with a null merged task

  /**
   * A container policy: `offer` declines a task or names the group it is parked in, `smash`
   * answers with sink calls and the groups it leaves.
   */
  datatype Policy = Policy(offer: (Task, seq<Group>) -> Option<nat>, smash: (nat, seq<Group>) -> (seq<Call>, seq<Group>))

  // -------------------------------------------------------------- the tasks in a structure

  function Arrived(a: Arrival): seq<Task> { if a.Nothing? then [] else [a.t] }

  function AllArrived(lane: seq<Arrival>): seq<Task>
    decreases |lane|
  {
    if lane == [] then [] else AllArrived(lane[..|lane| - 1]) + Arrived(lane[|lane| - 1])
  }

  function Members(es: seq<Entry>): (ts: seq<Task>)
    ensures |ts| == |es|
  {
    seq(|es|, i requires 0 <= i < |es| => es[i].task)
  }

  function Parked(gs: seq<Group>): seq<Task>
    decreases |gs|
  {
    if gs == [] then [] else Parked(gs[..|gs| - 1]) + Members(gs[|gs| - 1].entries)
  }

  function Called(c: Call): seq<Task> {
    match c
    case Passthrough(t) => if t.Some? then [t.value] else []
    case Emit(_, parents) => parents
  }

  function AllCalled(cs: seq<Call>): seq<Task>
    decreases |cs|
  {
    if cs == [] then [] else AllCalled(cs[..|cs| - 1]) + Called(cs[|cs| - 1])
  }

  function Subjects(e: Event): seq<Task> { if e.Merged? || e.Forgotten? then e.parents else [e.t] }

  function Logged(log: seq<Event>): seq<Task>
    decreases |log|
  {
    if log == [] then [] else Logged(log[..|log| - 1]) + Subjects(log[|log| - 1])
  }

  lemma LoggedSnoc(log: seq<Event>, e: Event)
    ensures Logged(log + [e]) == Logged(log) + Subjects(e)
  {
    assert (log + [e])[..|log|] == log;
  }

  lemma Concat(a: seq<Task>, b: seq<Task>)
    ensures multiset(a + b) == multiset(a) + multiset(b)
  {
  }

  lemma SwapLast(a: multiset<Task>, b: multiset<Task>, t: Task)
    ensures a + multiset{t} + b == a + b + multiset{t}
  {
  }

  lemma ParkedLast(gs: seq<Group>)
    requires gs != []
    ensures multiset(Parked(gs)) == multiset(Parked(gs[..|gs| - 1])) + multiset(Members(gs[|gs| - 1].entries))
  {
    Concat(Parked(gs[..|gs| - 1]), Members(gs[|gs| - 1].entries));
  }

  /** One more task in one group is one more parked task. */
  lemma {:induction false} ParkedGrows(gs: seq<Group>, i: nat, g: Group, t: Task)
    requires i < |gs| && Members(g.entries) == Members(gs[i].entries) + [t]
    ensures multiset(Parked(gs[i := g])) == multiset(Parked(gs)) + multiset{t}
    decreases |gs|
  {
    var n := |gs| - 1;
    ParkedLast(gs);
    ParkedLast(gs[i := g]);
    if i == n {
      assert gs[i := g][..n] == gs[..n];
      Concat(Members(gs[n].entries), [t]);
    } else {
      assert gs[i := g][..n] == gs[..n][i := g];
      ParkedGrows(gs[..n], i, g, t);
      SwapLast(multiset(Parked(gs[..n])), multiset(Members(gs[n].entries)), t);
    }
  }

  // ------------------------------------------------------------------------------ parking

  function Find(gs: seq<Group>, pool: nat, tag: nat): (i: nat)
    ensures i <= |gs|
    ensures i < |gs| ==> gs[i].pool == pool && gs[i].tag == tag
    decreases |gs|
  {
    if gs == [] then 0
    else if gs[0].pool == pool && gs[0].tag == tag then 0
    else 1 + Find(gs[1..], pool, tag)
  }

  function Park(gs: seq<Group>, t: Task, tag: nat, stamp: nat): seq<Group> {
    var i := Find(gs, t.pool, tag);
    if i < |gs| then gs[i := gs[i].(entries := gs[i].entries + [Entry(t, stamp)])]
    else gs + [Group(t.pool, tag, [Entry(t, stamp)])]
  }

  lemma ParkAdds(gs: seq<Group>, t: Task, tag: nat, stamp: nat)
    ensures multiset(Parked(Park(gs, t, tag, stamp))) == multiset(Parked(gs)) + multiset{t}
  {
    var i := Find(gs, t.pool, tag);
    if i < |gs| {
      var g := gs[i].(entries := gs[i].entries + [Entry(t, stamp)]);
      assert Members(g.entries) == Members(gs[i].entries) + [t];
      ParkedGrows(gs, i, g, t);
    } else {
      var g := Group(t.pool, tag, [Entry(t, stamp)]);
      assert (gs + [g])[..|gs|] == gs && Members(g.entries) == [t];
      assert Parked(gs + [g]) == Parked(gs) + [t];
      Concat(Parked(gs), [t]);
    }
  }

  /** Groups have different keys. */
  ghost predicate KeysDiffer(gs: seq<Group>) {
    forall i, j :: 0 <= i < j < |gs| ==> gs[i].pool != gs[j].pool || gs[i].tag != gs[j].tag
  }

  lemma {:induction false} FindFirst(gs: seq<Group>, pool: nat, tag: nat)
    ensures forall i :: 0 <= i < Find(gs, pool, tag) ==> gs[i].pool != pool || gs[i].tag != tag
    decreases |gs|
  {
    if gs != [] && !(gs[0].pool == pool && gs[0].tag == tag) {
      FindFirst(gs[1..], pool, tag);
      forall i | 0 <= i < Find(gs, pool, tag) ensures gs[i].pool != pool || gs[i].tag != tag {
        if i > 0 { assert gs[i] == gs[1..][i - 1]; }
      }
    }
  }

  /** Parking puts a task at the end of the one group with its pool and tag, and leaves the others alone. */
  lemma ParkFiles(gs: seq<Group>, t: Task, tag: nat, stamp: nat)
    requires KeysDiffer(gs)
    ensures
      var r := Park(gs, t, tag, stamp);
      && KeysDiffer(r) && |gs| <= |r| <= |gs| + 1
      && (forall i :: 0 <= i < |r| ==>
            var was := if i < |gs| then gs[i].entries else [];
            && (i < |gs| ==> r[i].pool == gs[i].pool && r[i].tag == gs[i].tag)
            && r[i].entries == was + if r[i].pool == t.pool && r[i].tag == tag then [Entry(t, stamp)] else [])
      && (exists i :: 0 <= i < |r| && r[i].pool == t.pool && r[i].tag == tag)
  {
    FindFirst(gs, t.pool, tag);
    var k, r := Find(gs, t.pool, tag), Park(gs, t, tag, stamp);
    assert r[k].pool == t.pool && r[k].tag == tag;
  }

  // ------------------------------------------------------------------------- the registry

  const FIRST_NUMBER: u64 := 0x1_0000_0000_0000

  /**
   * The process-wide map from the key of a merged task to the tasks it completes. Numbers are drawn
   * from a 64-bit counter, but the field of the task id that carries them is 32 bits wide.
   */
  datatype Registry = Registry(pending: map<u32, seq<Task>>, next: u64)

  const NO_MERGES := Registry(map[], FIRST_NUMBER)

  function Key(number: u64): u32 { number % U32 }

  function Emitted(r: Registry, c: Call): (Registry, Event)
    requires c.Emit?
  {
    if c.isNull then (r, Forgotten(c.parents))
    else (Registry(if c.parents == [] then r.pending else r.pending[Key(r.next) := c.parents], (r.next + 1) % U64),
          Merged(Key(r.next), c.parents))
  }

  /** What a merged task passes to its parents; its container only if it has one. */
  datatype Status = Status(rc: u32, completer: u32, container: Option<nat>)

  /** The parents ended by the completion of the merged task under `key`, each with its status. */
  function Endings(r: Registry, key: u32, st: Status): seq<(Task, Status)> {
    if key in r.pending then seq(|r.pending[key]|, i requires 0 <= i < |r.pending[key]| => (r.pending[key][i], st)) else []
  }

  /** A policy accounts for every parked task once: by a sink call, or by leaving it parked. */
  ghost predicate Proper(p: Policy) {
    forall pool: nat, gs: seq<Group> ::
      multiset(AllCalled(p.smash(pool, gs).0)) + multiset(Parked(p.smash(pool, gs).1)) == multiset(Parked(gs))
  }

  // ---------------------------------------------------------------------------- the worker

  class PendingRegistry {
    var r: Registry
    constructor ()
      ensures r == NO_MERGES
    {
      r := NO_MERGES;
    }

    /** Emit: the next process-wide number, and the parents recorded under it before the merged task runs. */
    method Emit(c: Call) returns (e: Event)
      requires c.Emit?
      modifies this
      ensures (r, e) == Emitted(old(r), c)
    {
      if c.isNull { return Forgotten(c.parents); }
      var key := Key(r.next);
      r := r.(next := (r.next + 1) % U64);
      if c.parents != [] { r := r.(pending := r.pending[key := c.parents]); }
      e := Merged(key, c.parents);
    }

    /** CompleteBatchParents: the parents to end, each with the status of the merged task. */
    method Complete(key: u32, st: Status) returns (ended: seq<(Task, Status)>)
      modifies this
      ensures r.pending == old(r).pending - {key} && r.next == old(r).next
      ensures ended == Endings(old(r), key, st)
    {
      ended := [];
      if key !in r.pending { return; }
      var parents := r.pending[key];
      r := r.(pending := r.pending - {key});
      var i := 0;
      while i < |parents|
        invariant 0 <= i == |ended| <= |parents|
        invariant forall j :: 0 <= j < i ==> ended[j] == (parents[j], st)
      {
        ended := ended + [(parents[i], st)];
        i := i + 1;
      }
    }
  }

  // -------------------------------------------------------------------- draining the lane

  /** The worker's desk while draining: outcomes so far, tasks to run as they are, parked groups, next stamp. */
  datatype Desk = Desk(log: seq<Event>, waiting: seq<Task>, groups: seq<Group>, stamp: nat)

  function Filed(d: Desk, a: Arrival, policy: Policy): Desk {
    match a
    case Nothing => d
    case NoContainer(t) => d.(log := d.log + [Failed(t)])
    case Elsewhere(t) => d.(log := d.log + [Sent(t)])
    case Here(t) =>
      var tag := if t.started then None else policy.offer(t, d.groups);
      if tag.Some? then d.(groups := Park(d.groups, t, tag.value, d.stamp), stamp := d.stamp + 1)
      else d.(waiting := d.waiting + [t])
  }

  function Collected(lane: seq<Arrival>, policy: Policy, stamp: nat): Desk
    decreases |lane|
  {
    if lane == [] then Desk([], [], [], stamp)
    else Filed(Collected(lane[..|lane| - 1], policy, stamp), lane[|lane| - 1], policy)
  }

  /** Only tasks that have not started may be offered for merging. */
  ghost predicate NoneStarted(ts: seq<Task>) { forall t :: t in ts ==> !t.started }

  /** Within a group the stamps follow the order of arrival. */
  ghost predicate Ordered(gs: seq<Group>, stamp: nat) {
    forall g :: g in gs ==>
      && (forall i :: 0 <= i < |g.entries| ==> g.entries[i].stamp < stamp)
      && (forall i, j :: 0 <= i < j < |g.entries| ==> g.entries[i].stamp < g.entries[j].stamp)
  }

  ghost function Bag(d: Desk): multiset<Task> {
    multiset(Logged(d.log)) + multiset(d.waiting) + multiset(Parked(d.groups))
  }

  lemma LoggedBag(d: Desk, e: Event)
    ensures Bag(d.(log := d.log + [e])) == Bag(d) + multiset(Subjects(e))
  {
    LoggedSnoc(d.log, e);
    Concat(Logged(d.log), Subjects(e));
  }

  lemma HereBag(d: Desk, t: Task, policy: Policy)
    ensures Bag(Filed(d, Here(t), policy)) == Bag(d) + multiset{t}
  {
    var tag := if t.started then None else policy.offer(t, d.groups);
    if tag.Some? { ParkAdds(d.groups, t, tag.value, d.stamp); } else { Concat(d.waiting, [t]); }
  }

  lemma FiledBag(d: Desk, a: Arrival, policy: Policy)
    ensures Bag(Filed(d, a, policy)) == Bag(d) + multiset(Arrived(a))
  {
    match a
    case Nothing =>
    case NoContainer(t) => LoggedBag(d, Failed(t));
    case Elsewhere(t) => LoggedBag(d, Sent(t));
    case Here(t) => HereBag(d, t, policy);
  }

  lemma ParkOrdered(gs: seq<Group>, t: Task, tag: nat, stamp: nat)
    requires Ordered(gs, stamp)
    ensures Ordered(Park(gs, t, tag, stamp), stamp + 1)
  {
  }

  ghost predicate DeskOk(d: Desk) { NoneStarted(Parked(d.groups)) && Ordered(d.groups, d.stamp) && KeysDiffer(d.groups) }

  lemma FiledOk(d: Desk, a: Arrival, policy: Policy)
    requires DeskOk(d)
    ensures DeskOk(Filed(d, a, policy))
  {
    if a.Here? && !a.t.started && policy.offer(a.t, d.groups).Some? {
      ParkFresh(d.groups, a.t, policy.offer(a.t, d.groups).value, d.stamp);
      ParkOrdered(d.groups, a.t, policy.offer(a.t, d.groups).value, d.stamp);
      ParkFiles(d.groups, a.t, policy.offer(a.t, d.groups).value, d.stamp);
    }
  }

  lemma ParkFresh(gs: seq<Group>, t: Task, tag: nat, stamp: nat)
    requires NoneStarted(Parked(gs)) && !t.started
    ensures NoneStarted(Parked(Park(gs, t, tag, stamp)))
  {
    ParkAdds(gs, t, tag, stamp);
    forall u | u in Parked(Park(gs, t, tag, stamp)) ensures !u.started {
      assert u in multiset(Parked(Park(gs, t, tag, stamp)));
      assert u in multiset(Parked(gs)) || u == t;
    }
  }

  /** The parked tasks have not started and are stamped in order of arrival. */
  lemma {:induction false} CollectedOk(lane: seq<Arrival>, policy: Policy, stamp: nat)
    ensures DeskOk(Collected(lane, policy, stamp))
    decreases |lane|
  {
    if lane != [] {
      var n := |lane| - 1;
      CollectedOk(lane[..n], policy, stamp);
      FiledOk(Collected(lane[..n], policy, stamp), lane[n], policy);
    }
  }

  /** Nothing is run or merged while draining. */
  lemma {:induction false} CollectedLog(lane: seq<Arrival>, policy: Policy, stamp: nat)
    ensures forall i :: 0 <= i < |Collected(lane, policy, stamp).log| ==>
      Collected(lane, policy, stamp).log[i].Failed? || Collected(lane, policy, stamp).log[i].Sent?
    decreases |lane|
  {
    if lane != [] { CollectedLog(lane[..|lane| - 1], policy, stamp); }
  }

  /** Every popped task is on the desk once. */
  lemma {:induction false} CollectedAll(lane: seq<Arrival>, policy: Policy, stamp: nat)
    ensures Bag(Collected(lane, policy, stamp)) == multiset(AllArrived(lane))
    decreases |lane|
  {
    if lane != [] {
      var n := |lane| - 1;
      CollectedAll(lane[..n], policy, stamp);
      FiledBag(Collected(lane[..n], policy, stamp), lane[n], policy);
      Concat(AllArrived(lane[..n]), Arrived(lane[n]));
    }
  }

  method Collect(lane: seq<Arrival>, budget: nat, policy: Policy, firstStamp: nat) returns (popped: nat, d: Desk)
    ensures popped == Min(budget, |lane|) && d == Collected(lane[..popped], policy, firstStamp)
  {
    popped, d := 0, Desk([], [], [], firstStamp);
    while popped < budget && popped < |lane|
      invariant popped <= |lane| && popped <= budget && d == Collected(lane[..popped], policy, firstStamp)
      decreases |lane| - popped
    {
      assert lane[..popped + 1][..popped] == lane[..popped];
      match lane[popped] {
        case Nothing =>
        case NoContainer(t) => d := d.(log := d.log + [Failed(t)]);
        case Elsewhere(t) => d := d.(log := d.log + [Sent(t)]);
        case Here(t) =>
          var tag := if t.started then None else policy.offer(t, d.groups);
          if tag.Some? {
            d := d.(groups := Park(d.groups, t, tag.value, d.stamp), stamp := d.stamp + 1);
          } else {
            d := d.(waiting := d.waiting + [t]);
          }
      }
      popped := popped + 1;
    }
  }

  // ------------------------------------------------------------- running and smashing

  function Executed(log: seq<Event>, ts: seq<Task>): seq<Event>
    decreases |ts|
  {
    if ts == [] then log else Executed(log, ts[..|ts| - 1]) + [Ran(ts[|ts| - 1])]
  }

  function ServedOne(log: seq<Event>, r: Registry, c: Call): (seq<Event>, Registry) {
    match c
    case Passthrough(t) => (if t.Some? then log + [Ran(t.value)] else log, r)
    case Emit(_, _) => (log + [Emitted(r, c).1], Emitted(r, c).0)
  }

  function Served(log: seq<Event>, r: Registry, cs: seq<Call>): (seq<Event>, Registry)
    decreases |cs|
  {
    if cs == [] then (log, r)
    else
      var (l, q) := Served(log, r, cs[..|cs| - 1]);
      ServedOne(l, q, cs[|cs| - 1])
  }

  /** Each pool in turn: its container answers for what is still parked. */
  function Smashed(log: seq<Event>, r: Registry, gs: seq<Group>, pools: seq<nat>, hosted: nat -> bool, policy: Policy)
    : (seq<Event>, Registry, seq<Group>)
    decreases |pools|
  {
    if pools == [] then (log, r, gs)
    else
      var (l, q, left) := Smashed(log, r, gs, pools[..|pools| - 1], hosted, policy);
      var p := pools[|pools| - 1];
      if !hosted(p) then (l, q, left)
      else
        var (calls, rest) := policy.smash(p, left);
        var (l', q') := Served(l, q, calls);
        (l', q', rest)
  }

  /** No started task has been merged. */
  ghost predicate MergesFresh(log: seq<Event>) {
    forall i :: 0 <= i < |log| && (log[i].Merged? || log[i].Forgotten?) ==> NoneStarted(log[i].parents)
  }

  lemma RanOne(log: seq<Event>, t: Task)
    ensures multiset(Logged(log + [Ran(t)])) == multiset(Logged(log)) + multiset{t}
  {
    LoggedSnoc(log, Ran(t));
    Concat(Logged(log), [t]);
  }

  lemma LastTask(ts: seq<Task>)
    requires ts != []
    ensures multiset(ts) == multiset(ts[..|ts| - 1]) + multiset{ts[|ts| - 1]}
  {
    Concat(ts[..|ts| - 1], [ts[|ts| - 1]]);
    assert ts == ts[..|ts| - 1] + [ts[|ts| - 1]];
  }

  lemma {:induction false} ExecutedAll(log: seq<Event>, ts: seq<Task>)
    ensures multiset(Logged(Executed(log, ts))) == multiset(Logged(log)) + multiset(ts)
    decreases |ts|
  {
    if ts != [] {
      var n := |ts| - 1;
      ExecutedAll(log, ts[..n]);
      RanOne(Executed(log, ts[..n]), ts[n]);
      LastTask(ts);
    }
  }

  /** They run as they are, in order. */
  lemma {:induction false} ExecutedInOrder(log: seq<Event>, ts: seq<Task>)
    ensures |Executed(log, ts)| == |log| + |ts| && log <= Executed(log, ts)
    ensures forall i :: 0 <= i < |ts| ==> Executed(log, ts)[|log| + i] == Ran(ts[i])
    decreases |ts|
  {
    if ts != [] { ExecutedInOrder(log, ts[..|ts| - 1]); }
  }

  lemma {:induction false} ServedAll(log: seq<Event>, r: Registry, cs: seq<Call>)
    ensures multiset(Logged(Served(log, r, cs).0)) == multiset(Logged(log)) + multiset(AllCalled(cs))
    decreases |cs|
  {
    if cs != [] {
      var n := |cs| - 1;
      var (l, q) := Served(log, r, cs[..n]);
      ServedAll(log, r, cs[..n]);
      ServedOneAll(l, q, cs[n]);
      Concat(AllCalled(cs[..n]), Called(cs[n]));
    }
  }

  lemma ServedOneAll(log: seq<Event>, r: Registry, c: Call)
    ensures multiset(Logged(ServedOne(log, r, c).0)) == multiset(Logged(log)) + multiset(Called(c))
  {
    var l := ServedOne(log, r, c).0;
    if c.Emit? || c.task.Some? {
      var e := l[|log|];
      LoggedSnoc(log, e);
      Concat(Logged(log), Subjects(e));
    }
  }

  lemma {:induction false} ServedFresh(log: seq<Event>, r: Registry, cs: seq<Call>)
    requires MergesFresh(log) && NoneStarted(AllCalled(cs))
    ensures MergesFresh(Served(log, r, cs).0)
    decreases |cs|
  {
    if cs != [] {
      var n := |cs| - 1;
      assert AllCalled(cs) == AllCalled(cs[..n]) + Called(cs[n]);
      ServedFresh(log, r, cs[..n]);
    }
  }

  lemma SubBagFresh(a: seq<Task>, b: seq<Task>)
    requires NoneStarted(b) && multiset(a) <= multiset(b)
    ensures NoneStarted(a)
  {
    forall t | t in a ensures !t.started { assert t in multiset(a); assert t in multiset(b); }
  }

  lemma {:induction false} SmashedAll(log: seq<Event>, r: Registry, gs: seq<Group>, pools: seq<nat>, hosted: nat -> bool,
                                      policy: Policy)
    requires Proper(policy) && MergesFresh(log) && NoneStarted(Parked(gs))
    ensures
      var (l, _, left) := Smashed(log, r, gs, pools, hosted, policy);
      && multiset(Logged(l)) + multiset(Parked(left)) == multiset(Logged(log)) + multiset(Parked(gs))
      && MergesFresh(l) && NoneStarted(Parked(left))
    decreases |pools|
  {
    if pools != [] {
      var n := |pools| - 1;
      var (l, q, left) := Smashed(log, r, gs, pools[..n], hosted, policy);
      SmashedAll(log, r, gs, pools[..n], hosted, policy);
      if hosted(pools[n]) { SmashOne(l, q, left, pools[n], policy); }
    }
  }

  lemma SmashOne(log: seq<Event>, r: Registry, gs: seq<Group>, pool: nat, policy: Policy)
    requires Proper(policy) && MergesFresh(log) && NoneStarted(Parked(gs))
    ensures
      var (calls, rest) := policy.smash(pool, gs);
      var l := Served(log, r, calls).0;
      && multiset(Logged(l)) + multiset(Parked(rest)) == multiset(Logged(log)) + multiset(Parked(gs))
      && MergesFresh(l) && NoneStarted(Parked(rest))
  {
    var (calls, rest) := policy.smash(pool, gs);
    ServedAll(log, r, calls);
    SubBagFresh(AllCalled(calls), Parked(gs));
    SubBagFresh(Parked(rest), Parked(gs));
    ServedFresh(log, r, calls);
  }

  // ------------------------------------------------------------------------ the whole drain

  /** Distinct pools of the groups, in order of first appearance. */
  function PoolsOf(gs: seq<Group>): seq<nat>
    decreases |gs|
  {
    if gs == [] then []
    else
      var ps := PoolsOf(gs[..|gs| - 1]);
      if gs[|gs| - 1].pool in ps then ps else ps + [gs[|gs| - 1].pool]
  }

  /** They are the pools of the groups, each once. */
  lemma {:induction false} PoolsOfExact(gs: seq<Group>)
    ensures forall i, j :: 0 <= i < j < |PoolsOf(gs)| ==> PoolsOf(gs)[i] != PoolsOf(gs)[j]
    ensures forall p :: p in PoolsOf(gs) <==> exists g :: g in gs && g.pool == p
    decreases |gs|
  {
    if gs != [] {
      var n := |gs| - 1;
      PoolsOfExact(gs[..n]);
      assert gs == gs[..n] + [gs[n]];
    }
  }

  /** Drain, run what was declined, let the containers smash, run what they left. */
  function Batched(lane: seq<Arrival>, policy: Policy, hosted: nat -> bool, stamp: nat, r: Registry)
    : (seq<Event>, Registry)
  {
    var d := Collected(lane, policy, stamp);
    var (l, q, left) := Smashed(Executed(d.log, d.waiting), r, d.groups, PoolsOf(d.groups), hosted, policy);
    (Executed(l, Parked(left)), q)
  }

  lemma {:induction false} ExecutedFresh(log: seq<Event>, ts: seq<Task>)
    requires MergesFresh(log)
    ensures MergesFresh(Executed(log, ts))
    decreases |ts|
  {
    if ts != [] { ExecutedFresh(log, ts[..|ts| - 1]); }
  }

  /** Merge-batch conservation: with a proper policy every popped task is the subject of exactly one outcome. */
  lemma EachPoppedOnce(lane: seq<Arrival>, policy: Policy, hosted: nat -> bool, stamp: nat, r: Registry)
    requires Proper(policy)
    ensures multiset(Logged(Batched(lane, policy, hosted, stamp, r).0)) == multiset(AllArrived(lane))
    ensures MergesFresh(Batched(lane, policy, hosted, stamp, r).0)
  {
    var d := Collected(lane, policy, stamp);
    CollectedAll(lane, policy, stamp);
    CollectedOk(lane, policy, stamp);
    CollectedLog(lane, policy, stamp);
    var log := Executed(d.log, d.waiting);
    ExecutedAll(d.log, d.waiting);
    ExecutedFresh(d.log, d.waiting);
    var (l, q, left) := Smashed(log, r, d.groups, PoolsOf(d.groups), hosted, policy);
    SmashedAll(log, r, d.groups, PoolsOf(d.groups), hosted, policy);
    ExecutedAll(l, Parked(left));
    ExecutedFresh(l, Parked(left));
  }

  /** The tasks handed to Emit with a null merged task. */
  function Gone(log: seq<Event>): seq<Task>
    decreases |log|
  {
    if log == [] then []
    else Gone(log[..|log| - 1]) + if log[|log| - 1].Forgotten? then log[|log| - 1].parents else []
  }

  /** The tasks failed, routed, run, or made parent of a merged task. */
  function Cared(log: seq<Event>): seq<Task>
    decreases |log|
  {
    if log == [] then []
    else Cared(log[..|log| - 1]) + if log[|log| - 1].Forgotten? then [] else Subjects(log[|log| - 1])
  }

  lemma {:induction false} CaredOrGone(log: seq<Event>)
    ensures multiset(Logged(log)) == multiset(Cared(log)) + multiset(Gone(log))
    decreases |log|
  {
    if log != [] {
      var n := |log| - 1;
      CaredOrGone(log[..n]);
      Concat(Logged(log[..n]), Subjects(log[n]));
      Concat(Cared(log[..n]), Subjects(log[n]));
      Concat(Gone(log[..n]), Subjects(log[n]));
      assert Cared(log[..n]) + [] == Cared(log[..n]) && Gone(log[..n]) + [] == Gone(log[..n]);
    }
  }

  /** The answer to `gs` has no null merged task with parents. */
  ghost predicate Answers(policy: Policy, pool: nat, gs: seq<Group>) {
    forall c :: c in policy.smash(pool, gs).0 && c.Emit? && c.isNull ==> c.parents == []
  }

  /** What the policy has left after answering for some pools. */
  function Left(gs: seq<Group>, pools: seq<nat>, hosted: nat -> bool, policy: Policy): seq<Group>
    decreases |pools|
  {
    if pools == [] then gs
    else
      var left := Left(gs, pools[..|pools| - 1], hosted, policy);
      var p := pools[|pools| - 1];
      if hosted(p) then policy.smash(p, left).1 else left
  }

  /** For every hosted pool in turn, the policy answers for the groups it is then handed. */
  ghost predicate AnswersAll(gs: seq<Group>, pools: seq<nat>, hosted: nat -> bool, policy: Policy)
    decreases |pools|
  {
    pools == [] ||
    var n := |pools| - 1;
    AnswersAll(gs, pools[..n], hosted, policy)
    && (hosted(pools[n]) ==> Answers(policy, pools[n], Left(gs, pools[..n], hosted, policy)))
  }

  lemma {:induction false} SmashedLeft(log: seq<Event>, r: Registry, gs: seq<Group>, pools: seq<nat>, hosted: nat -> bool,
                                       policy: Policy)
    ensures Smashed(log, r, gs, pools, hosted, policy).2 == Left(gs, pools, hosted, policy)
    decreases |pools|
  {
    if pools != [] { SmashedLeft(log, r, gs, pools[..|pools| - 1], hosted, policy); }
  }

  lemma GoneSnoc(log: seq<Event>, e: Event)
    ensures Gone(log + [e]) == Gone(log) + if e.Forgotten? then e.parents else []
  {
    assert (log + [e])[..|log|] == log;
  }

  lemma {:induction false} ServedGone(log: seq<Event>, r: Registry, cs: seq<Call>)
    ensures Gone(Served(log, r, cs).0) == [] <==> Gone(log) == [] && forall c :: c in cs && c.Emit? && c.isNull ==> c.parents == []
    decreases |cs|
  {
    if cs != [] {
      var n := |cs| - 1;
      var (l, q) := Served(log, r, cs[..n]);
      ServedGone(log, r, cs[..n]);
      ServedOneGone(l, q, cs[n]);
      assert cs == cs[..n] + [cs[n]];
    }
  }

  lemma ServedOneGone(log: seq<Event>, r: Registry, c: Call)
    ensures Gone(ServedOne(log, r, c).0) == [] <==> Gone(log) == [] && (c.Emit? && c.isNull ==> c.parents == [])
  {
    if c.Emit? { GoneSnoc(log, Emitted(r, c).1); } else if c.task.Some? { GoneSnoc(log, Ran(c.task.value)); }
  }

  lemma {:induction false} SmashedGone(log: seq<Event>, r: Registry, gs: seq<Group>, pools: seq<nat>, hosted: nat -> bool,
                                       policy: Policy)
    ensures Gone(Smashed(log, r, gs, pools, hosted, policy).0) == [] <==> Gone(log) == [] && AnswersAll(gs, pools, hosted, policy)
    decreases |pools|
  {
    if pools != [] {
      var n := |pools| - 1;
      var (l, q, left) := Smashed(log, r, gs, pools[..n], hosted, policy);
      SmashedGone(log, r, gs, pools[..n], hosted, policy);
      SmashedLeft(log, r, gs, pools[..n], hosted, policy);
      if hosted(pools[n]) { ServedGone(l, q, policy.smash(pools[n], left).0); }
    }
  }

  lemma {:induction false} ExecutedGone(log: seq<Event>, ts: seq<Task>)
    ensures Gone(Executed(log, ts)) == Gone(log)
    decreases |ts|
  {
    if ts != [] {
      ExecutedGone(log, ts[..|ts| - 1]);
      GoneSnoc(Executed(log, ts[..|ts| - 1]), Ran(ts[|ts| - 1]));
    }
  }

  lemma {:induction false} NothingGone(log: seq<Event>)
    requires forall i :: 0 <= i < |log| ==> log[i].Failed? || log[i].Sent?
    ensures Gone(log) == []
    decreases |log|
  {
    if log != [] { NothingGone(log[..|log| - 1]); }
  }

  lemma BatchedGone(lane: seq<Arrival>, policy: Policy, hosted: nat -> bool, stamp: nat, r: Registry)
    ensures
      var gs := Collected(lane, policy, stamp).groups;
      Gone(Batched(lane, policy, hosted, stamp, r).0) == [] <==> AnswersAll(gs, PoolsOf(gs), hosted, policy)
  {
    var d := Collected(lane, policy, stamp);
    CollectedLog(lane, policy, stamp);
    NothingGone(d.log);
    ExecutedGone(d.log, d.waiting);
    var log := Executed(d.log, d.waiting);
    SmashedGone(log, r, d.groups, PoolsOf(d.groups), hosted, policy);
    var (l, q, left) := Smashed(log, r, d.groups, PoolsOf(d.groups), hosted, policy);
    ExecutedGone(l, Parked(left));
  }

  /**
   * No popped task is lost if and only if the policy, asked pool by pool about the groups it parked,
   * answers without emitting parents under a null merged task.
   */
  lemma NoneLostIff(lane: seq<Arrival>, policy: Policy, hosted: nat -> bool, stamp: nat, r: Registry)
    requires Proper(policy)
    ensures
      var gs := Collected(lane, policy, stamp).groups;
      multiset(Cared(Batched(lane, policy, hosted, stamp, r).0)) == multiset(AllArrived(lane))
      <==> AnswersAll(gs, PoolsOf(gs), hosted, policy)
  {
    var log := Batched(lane, policy, hosted, stamp, r).0;
    EachPoppedOnce(lane, policy, hosted, stamp, r);
    CaredOrGone(log);
    BatchedGone(lane, policy, hosted, stamp, r);
    if Gone(log) != [] { assert Gone(log)[0] in multiset(Gone(log)); }
  }

  /** A policy that always answers loses nothing on any lane. */
  lemma AlwaysAnswers(lane: seq<Arrival>, policy: Policy, hosted: nat -> bool, stamp: nat, r: Registry)
    requires Proper(policy) && forall pool: nat, gs: seq<Group> :: Answers(policy, pool, gs)
    ensures multiset(Cared(Batched(lane, policy, hosted, stamp, r).0)) == multiset(AllArrived(lane))
  {
    var gs := Collected(lane, policy, stamp).groups;
    AnswersEverywhere(gs, PoolsOf(gs), hosted, policy);
    NoneLostIff(lane, policy, hosted, stamp, r);
  }

  lemma {:induction false} AnswersEverywhere(gs: seq<Group>, pools: seq<nat>, hosted: nat -> bool, policy: Policy)
    requires forall pool: nat, g: seq<Group> :: Answers(policy, pool, g)
    ensures AnswersAll(gs, pools, hosted, policy)
    decreases |pools|
  {
    if pools != [] { AnswersEverywhere(gs, pools[..|pools| - 1], hosted, policy); }
  }

  /** Parks everything, and then emits all of it under a null merged task. */
  function NullPolicy(): Policy {
    Policy((_: Task, _: seq<Group>) => Some(0), (_: nat, gs: seq<Group>) => ([Emit(true, Parked(gs))], []))
  }

  lemma NullPolicyProper()
    ensures Proper(NullPolicy())
  {
    forall pool: nat, gs: seq<Group>
      ensures multiset(AllCalled(NullPolicy().smash(pool, gs).0)) + multiset(Parked(NullPolicy().smash(pool, gs).1))
              == multiset(Parked(gs))
    {
      var cs := [Emit(true, Parked(gs))];
      assert cs[..0] == [] && AllCalled(cs) == [] + Parked(gs) == Parked(gs);
    }
  }

  lemma OneParked(t: Task, stamp: nat)
    requires !t.started
    ensures Collected([Here(t)], NullPolicy(), stamp).groups == [Group(t.pool, 0, [Entry(t, stamp)])]
    ensures PoolsOf([Group(t.pool, 0, [Entry(t, stamp)])]) == [t.pool]
    ensures Parked([Group(t.pool, 0, [Entry(t, stamp)])]) == [t]
  {
    var lane, gs := [Here(t)], [Group(t.pool, 0, [Entry(t, stamp)])];
    assert lane[..0] == [] && Collected(lane[..0], NullPolicy(), stamp) == Desk([], [], [], stamp);
    assert Park([], t, 0, stamp) == gs;
    assert NullPolicy().offer(t, []) == Some(0);
    assert gs[..0] == [] && PoolsOf(gs[..0]) == [] && Parked(gs[..0]) == [];
    assert Members(gs[0].entries) == [t];
  }

  /** The failing case: for any task that has not started, popping it alone loses it. */
  lemma NullPolicyLoses(t: Task, stamp: nat, r: Registry)
    requires !t.started
    ensures Proper(NullPolicy())
    ensures multiset(Cared(Batched([Here(t)], NullPolicy(), _ => true, stamp, r).0)) != multiset(AllArrived([Here(t)]))
  {
    NullPolicyProper();
    OneParked(t, stamp);
    var gs := Collected([Here(t)], NullPolicy(), stamp).groups;
    var pools := PoolsOf(gs);
    assert pools[..0] == [] && Left(gs, pools[..0], _ => true, NullPolicy()) == gs;
    var c := NullPolicy().smash(t.pool, gs).0[0];
    assert c == Emit(true, [t]) && c in NullPolicy().smash(t.pool, gs).0;
    assert !Answers(NullPolicy(), t.pool, gs);
    NoneLostIff([Here(t)], NullPolicy(), _ => true, stamp, r);
  }

  // --------------------------------------------------------------------- in order of arrival

  /** What the policy has parked of the first `n` arrivals, and the next stamp. */
  function ParkedBefore(lane: seq<Arrival>, n: nat, policy: Policy, stamp: nat): (seq<Group>, nat)
    requires n <= |lane|
    decreases n
  {
    if n == 0 then ([], stamp)
    else
      var (gs, next) := ParkedBefore(lane, n - 1, policy, stamp);
      var a := lane[n - 1];
      if !a.Here? || a.t.started || policy.offer(a.t, gs).None? then (gs, next)
      else (Park(gs, a.t, policy.offer(a.t, gs).value, next), next + 1)
  }

  /** Arrival `i` runs as it is: it stays here, and has started or is declined. */
  predicate AsIs(lane: seq<Arrival>, i: nat, policy: Policy, stamp: nat)
    requires i < |lane|
  {
    lane[i].Here? && (lane[i].t.started || policy.offer(lane[i].t, ParkedBefore(lane, i, policy, stamp).0).None?)
  }

  /** Arrival `i` does not stay here. */
  predicate Away(a: Arrival) { a.NoContainer? || a.Elsewhere? }

  function AwayEvent(a: Arrival): Event
    requires Away(a)
  {
    if a.NoContainer? then Failed(a.t) else Sent(a.t)
  }

  /** How many of the first `n` arrivals do not stay. */
  function AwayCount(lane: seq<Arrival>, n: nat): nat
    requires n <= |lane|
  {
    if n == 0 then 0 else AwayCount(lane, n - 1) + if Away(lane[n - 1]) then 1 else 0
  }

  /** How many of the first `n` arrivals run as they are. */
  function AsIsCount(lane: seq<Arrival>, n: nat, policy: Policy, stamp: nat): nat
    requires n <= |lane|
  {
    if n == 0 then 0 else AsIsCount(lane, n - 1, policy, stamp) + if AsIs(lane, n - 1, policy, stamp) then 1 else 0
  }

  /** If arrival `i` does not stay, it is in the log behind the earlier ones that do not. */
  ghost predicate AwayAt(lane: seq<Arrival>, i: nat, log: seq<Event>)
    requires i < |lane|
  {
    Away(lane[i]) ==> AwayCount(lane, i) < |log| && log[AwayCount(lane, i)] == AwayEvent(lane[i])
  }

  /** If arrival `i` runs as it is, it waits behind the earlier ones that do. */
  ghost predicate WaitsAt(lane: seq<Arrival>, i: nat, policy: Policy, stamp: nat, ts: seq<Task>)
    requires i < |lane|
  {
    AsIs(lane, i, policy, stamp) ==>
      AsIsCount(lane, i, policy, stamp) < |ts| && ts[AsIsCount(lane, i, policy, stamp)] == lane[i].t
  }

  /** The desk after `n` arrivals: each list holds its arrivals in the order they came. */
  ghost predicate DeskInOrder(lane: seq<Arrival>, n: nat, policy: Policy, stamp: nat, d: Desk)
    requires n <= |lane|
  {
    && (d.groups, d.stamp) == ParkedBefore(lane, n, policy, stamp)
    && |d.log| == AwayCount(lane, n) && |d.waiting| == AsIsCount(lane, n, policy, stamp)
    && (forall i :: 0 <= i < n ==> AwayAt(lane, i, d.log))
    && (forall i :: 0 <= i < n ==> WaitsAt(lane, i, policy, stamp, d.waiting))
  }

  lemma {:induction false} FiledInOrder(lane: seq<Arrival>, n: nat, policy: Policy, stamp: nat, d: Desk)
    requires n < |lane| && DeskInOrder(lane, n, policy, stamp, d)
    ensures DeskInOrder(lane, n + 1, policy, stamp, Filed(d, lane[n], policy))
  {
    var e := Filed(d, lane[n], policy);
    assert AsIs(lane, n, policy, stamp) <==> lane[n].Here? && (lane[n].t.started || policy.offer(lane[n].t, d.groups).None?);
    forall i | 0 <= i < n + 1 ensures AwayAt(lane, i, e.log) { if i < n { assert AwayAt(lane, i, d.log); } }
    forall i | 0 <= i < n + 1 ensures WaitsAt(lane, i, policy, stamp, e.waiting) {
      if i < n { assert WaitsAt(lane, i, policy, stamp, d.waiting); }
    }
  }

  lemma {:induction false} CollectedInOrder(lane: seq<Arrival>, n: nat, policy: Policy, stamp: nat)
    requires n <= |lane|
    ensures DeskInOrder(lane, n, policy, stamp, Collected(lane[..n], policy, stamp))
    decreases n
  {
    if n > 0 {
      CollectedInOrder(lane, n - 1, policy, stamp);
      assert lane[..n][..n - 1] == lane[..n - 1];
      FiledInOrder(lane, n - 1, policy, stamp, Collected(lane[..n - 1], policy, stamp));
    }
  }

  /** If arrival `i` runs as it is, its run is in the log behind `a` events and the earlier such runs. */
  ghost predicate RunsAt(lane: seq<Arrival>, i: nat, policy: Policy, stamp: nat, a: nat, c: nat, log: seq<Event>)
    requires i < |lane| && a + c <= |log|
  {
    AsIs(lane, i, policy, stamp) ==>
      AsIsCount(lane, i, policy, stamp) < c && log[a + AsIsCount(lane, i, policy, stamp)] == Ran(lane[i].t)
  }

  /** First `a` events of tasks that fail or are sent away, then `c` runs, then neither kind of the first. */
  ghost predicate InParts(log: seq<Event>, a: nat, c: nat) {
    && a + c <= |log|
    && (forall k :: 0 <= k < a ==> log[k].Failed? || log[k].Sent?)
    && (forall k :: a <= k < a + c ==> log[k].Ran?)
    && (forall k :: a <= k < |log| ==> !log[k].Failed? && !log[k].Sent?)
  }

  /**
   * The log of a drain: first the arrivals that do not stay, then those that run as they are, each in
   * order of arrival; then whatever the containers make of the rest.
   */
  ghost predicate Arranged(lane: seq<Arrival>, policy: Policy, stamp: nat, log: seq<Event>) {
    var a, c := AwayCount(lane, |lane|), AsIsCount(lane, |lane|, policy, stamp);
    && InParts(log, a, c)
    && (forall i :: 0 <= i < |lane| ==> AwayAt(lane, i, log[..a]))
    && (forall i :: 0 <= i < |lane| ==> RunsAt(lane, i, policy, stamp, a, c, log))
  }

  lemma {:induction false} ServedExtends(log: seq<Event>, r: Registry, cs: seq<Call>)
    ensures log <= Served(log, r, cs).0
    ensures forall k :: |log| <= k < |Served(log, r, cs).0| ==> !Served(log, r, cs).0[k].Failed? && !Served(log, r, cs).0[k].Sent?
    decreases |cs|
  {
    if cs != [] { ServedExtends(log, r, cs[..|cs| - 1]); }
  }

  lemma {:induction false} SmashedExtends(log: seq<Event>, r: Registry, gs: seq<Group>, pools: seq<nat>,
                                          hosted: nat -> bool, policy: Policy)
    ensures
      var l := Smashed(log, r, gs, pools, hosted, policy).0;
      log <= l && forall k :: |log| <= k < |l| ==> !l[k].Failed? && !l[k].Sent?
    decreases |pools|
  {
    if pools != [] {
      var n := |pools| - 1;
      SmashedExtends(log, r, gs, pools[..n], hosted, policy);
      var (l, q, left) := Smashed(log, r, gs, pools[..n], hosted, policy);
      if hosted(pools[n]) { ServedExtends(l, q, policy.smash(pools[n], left).0); }
    }
  }

  /** Running tasks after a log. */
  lemma {:induction false} ExecutedParts(log: seq<Event>, ts: seq<Task>)
    requires forall k :: 0 <= k < |log| ==> log[k].Failed? || log[k].Sent?
    ensures InParts(Executed(log, ts), |log|, |ts|) && Executed(log, ts)[..|log|] == log
  {
    ExecutedInOrder(log, ts);
    var l := Executed(log, ts);
    forall k | |log| <= k < |l| ensures l[k].Ran? { assert l[|log| + (k - |log|)] == Ran(ts[k - |log|]); }
  }

  lemma {:induction false} ArrangedStart(lane: seq<Arrival>, policy: Policy, stamp: nat, d: Desk)
    requires DeskInOrder(lane, |lane|, policy, stamp, d) && forall k :: 0 <= k < |d.log| ==> d.log[k].Failed? || d.log[k].Sent?
    ensures Arranged(lane, policy, stamp, Executed(d.log, d.waiting))
  {
    ExecutedParts(d.log, d.waiting);
    ExecutedInOrder(d.log, d.waiting);
    var a, c, log := |d.log|, |d.waiting|, Executed(d.log, d.waiting);
    forall i | 0 <= i < |lane| ensures AwayAt(lane, i, log[..a]) && RunsAt(lane, i, policy, stamp, a, c, log) {
      assert AwayAt(lane, i, d.log) && WaitsAt(lane, i, policy, stamp, d.waiting);
    }
  }

  lemma {:induction false} ArrangedExtends(lane: seq<Arrival>, policy: Policy, stamp: nat, log: seq<Event>, more: seq<Event>)
    requires Arranged(lane, policy, stamp, log) && log <= more
    requires forall k :: |log| <= k < |more| ==> !more[k].Failed? && !more[k].Sent?
    ensures Arranged(lane, policy, stamp, more)
  {
    var a, c := AwayCount(lane, |lane|), AsIsCount(lane, |lane|, policy, stamp);
    assert more[..a] == log[..a];
    forall i | 0 <= i < |lane| ensures RunsAt(lane, i, policy, stamp, a, c, more) {
      assert RunsAt(lane, i, policy, stamp, a, c, log);
    }
  }

  /** So every drain is arranged by arrival, for every policy. */
  lemma {:induction false} BatchedArranged(lane: seq<Arrival>, policy: Policy, hosted: nat -> bool, stamp: nat, r: Registry)
    ensures Arranged(lane, policy, stamp, Batched(lane, policy, hosted, stamp, r).0)
  {
    var d := Collected(lane, policy, stamp);
    CollectedInOrder(lane, |lane|, policy, stamp);
    assert lane[..|lane|] == lane;
    CollectedLog(lane, policy, stamp);
    ArrangedStart(lane, policy, stamp, d);
    var log := Executed(d.log, d.waiting);
    var (l, q, left) := Smashed(log, r, d.groups, PoolsOf(d.groups), hosted, policy);
    SmashedExtends(log, r, d.groups, PoolsOf(d.groups), hosted, policy);
    ArrangedExtends(lane, policy, stamp, log, l);
    ExecutedInOrder(l, Parked(left));
    var e := Executed(l, Parked(left));
    forall k | |l| <= k < |e| ensures e[k].Ran? { assert e[|l| + (k - |l|)] == Ran(Parked(left)[k - |l|]); }
    ArrangedExtends(lane, policy, stamp, l, e);
  }

  lemma {:induction false} AsIsCountGrows(lane: seq<Arrival>, i: nat, j: nat, policy: Policy, stamp: nat)
    requires i < j <= |lane| && AsIs(lane, i, policy, stamp)
    ensures AsIsCount(lane, i, policy, stamp) < AsIsCount(lane, j, policy, stamp)
    decreases j
  {
    if i < j - 1 { AsIsCountGrows(lane, i, j - 1, policy, stamp); }
  }

  /**
   * Of two arrivals that run as they are the earlier runs first; both run after everything that fails or
   * is sent away, and before every merged task.
   */
  lemma {:induction false} DeclinedRunFirst(lane: seq<Arrival>, policy: Policy, stamp: nat, log: seq<Event>, i: nat, j: nat)
    returns (p: nat, q: nat)
    requires Arranged(lane, policy, stamp, log) && i < j < |lane|
    requires AsIs(lane, i, policy, stamp) && AsIs(lane, j, policy, stamp)
    ensures p < q < |log| && log[p] == Ran(lane[i].t) && log[q] == Ran(lane[j].t)
    ensures forall k :: 0 <= k < |log| && (log[k].Failed? || log[k].Sent?) ==> k < p
    ensures forall k :: 0 <= k < |log| && (log[k].Merged? || log[k].Forgotten?) ==> q < k
  {
    var a := AwayCount(lane, |lane|);
    p, q := a + AsIsCount(lane, i, policy, stamp), a + AsIsCount(lane, j, policy, stamp);
    AsIsCountGrows(lane, i, j, policy, stamp);
    var c := AsIsCount(lane, |lane|, policy, stamp);
    assert RunsAt(lane, i, policy, stamp, a, c, log) && RunsAt(lane, j, policy, stamp, a, c, log);
  }

  // ------------------------------------------------------------------------- what the sink does

  /** A call that leaves a trace: not a null task. */
  predicate Shows(c: Call) { c.Emit? || c.task.Some? }

  /** How many of the first `n` calls do. */
  function Shown(cs: seq<Call>, n: nat): nat
    requires n <= |cs|
  {
    if n == 0 then 0 else Shown(cs, n - 1) + if Shows(cs[n - 1]) then 1 else 0
  }

  /** How many of the first `n` calls emit a merged task. */
  function Emissions(cs: seq<Call>, n: nat): nat
    requires n <= |cs|
  {
    if n == 0 then 0 else Emissions(cs, n - 1) + if cs[n - 1].Emit? && !cs[n - 1].isNull then 1 else 0
  }

  /** What call `i` leaves: a merged task gets the next number of the process. */
  function CallEvent(cs: seq<Call>, i: nat, next: u64): Event
    requires i < |cs| && Shows(cs[i])
  {
    match cs[i]
    case Passthrough(t) => Ran(t.value)
    case Emit(isNull, parents) =>
      if isNull then Forgotten(parents) else Merged(Key((next + Emissions(cs, i)) % U64), parents)
  }

  lemma ModStep(a: nat, n: nat)
    ensures ((a + n) % U64 + 1) % U64 == (a + (n + 1)) % U64
  {
  }

  ghost predicate CallAt(cs: seq<Call>, i: nat, next: u64, log: seq<Event>, n: nat)
    requires i < |cs|
  {
    Shows(cs[i]) ==> n + Shown(cs, i) < |log| && log[n + Shown(cs, i)] == CallEvent(cs, i, next)
  }

  lemma {:induction false} ServedPrefix(log: seq<Event>, r: Registry, cs: seq<Call>, n: nat)
    requires n <= |cs|
    ensures
      var (l, q) := Served(log, r, cs[..n]);
      && |l| == |log| + Shown(cs, n) && log <= l && q.next == (r.next + Emissions(cs, n)) % U64
      && (forall i :: 0 <= i < n ==> CallAt(cs, i, r.next, l, |log|))
    decreases n
  {
    if n > 0 {
      ServedPrefix(log, r, cs, n - 1);
      assert cs[..n][..n - 1] == cs[..n - 1];
      ModStep(r.next, Emissions(cs, n - 1));
      var was, now := Served(log, r, cs[..n - 1]).0, Served(log, r, cs[..n]).0;
      forall i | 0 <= i < n ensures CallAt(cs, i, r.next, now, |log|) {
        if i < n - 1 { assert CallAt(cs, i, r.next, was, |log|); }
      }
    }
  }

  /** The sink serves its calls in order, and numbers the merged tasks in order. */
  lemma {:induction false} ServedInOrder(log: seq<Event>, r: Registry, cs: seq<Call>)
    ensures
      var (l, q) := Served(log, r, cs);
      && log <= l && |l| == |log| + Shown(cs, |cs|) && q.next == (r.next + Emissions(cs, |cs|)) % U64
      && (forall i :: 0 <= i < |cs| ==> CallAt(cs, i, r.next, l, |log|))
  {
    ServedPrefix(log, r, cs, |cs|);
    assert cs[..|cs|] == cs;
  }

  // ------------------------------------------------------------------------- as the worker runs it

  method Execute(before: seq<Event>, ts: seq<Task>) returns (log: seq<Event>)
    ensures log == Executed(before, ts)
  {
    log := before;
    assert ts[..0] == [];
    for i := 0 to |ts|
      invariant log == Executed(before, ts[..i])
    {
      assert ts[..i + 1][..i] == ts[..i];
      log := log + [Ran(ts[i])];
    }
    assert ts[..|ts|] == ts;
  }

  method Serve(before: seq<Event>, calls: seq<Call>, box: PendingRegistry) returns (log: seq<Event>)
    modifies box
    ensures (log, box.r) == Served(before, old(box.r), calls)
  {
    log := before;
    assert calls[..0] == [];
    for i := 0 to |calls|
      invariant (log, box.r) == Served(before, old(box.r), calls[..i])
    {
      assert calls[..i + 1][..i] == calls[..i];
      match calls[i] {
        case Passthrough(t) =>
          if t.Some? { log := log + [Ran(t.value)]; }
        case Emit(_, _) =>
          var e := box.Emit(calls[i]);
          log := log + [e];
      }
    }
    assert calls[..|calls|] == calls;
  }

  method DistinctPools(gs: seq<Group>) returns (ps: seq<nat>)
    ensures ps == PoolsOf(gs)
    ensures forall i, j :: 0 <= i < j < |ps| ==> ps[i] != ps[j]
    ensures forall p :: p in ps <==> exists g :: g in gs && g.pool == p
  {
    PoolsOfExact(gs);
    ps := [];
    assert gs[..0] == [];
    for i := 0 to |gs|
      invariant ps == PoolsOf(gs[..i])
    {
      assert gs[..i + 1][..i] == gs[..i];
      var seen := false;
      for j := 0 to |ps|
        invariant seen <==> gs[i].pool in ps[..j]
      {
        if ps[j] == gs[i].pool { seen := true; }
      }
      assert ps[..|ps|] == ps;
      if !seen { ps := ps + [gs[i].pool]; }
    }
    assert gs[..|gs|] == gs;
  }

  /** BatchCollect: what it pops, what it logs, and the registry it leaves, for any policy. */
  method BatchCollect(lane: seq<Arrival>, budget: nat, policy: Policy, hosted: nat -> bool, stamp: nat, box: PendingRegistry)
    returns (popped: nat, log: seq<Event>)
    modifies box
    ensures popped == Min(budget, |lane|) && (log, box.r) == Batched(lane[..popped], policy, hosted, stamp, old(box.r))
    ensures Proper(policy) ==> multiset(Logged(log)) == multiset(AllArrived(lane[..popped])) && MergesFresh(log)
    ensures Arranged(lane[..popped], policy, stamp, log)
  {
    var d: Desk;
    popped, d := Collect(lane, budget, policy, stamp);
    log := Execute(d.log, d.waiting);
    var pools := DistinctPools(d.groups);
    ghost var start := log;
    var left := d.groups;
    assert pools[..0] == [];
    for i := 0 to |pools|
      invariant (log, box.r, left) == Smashed(start, old(box.r), d.groups, pools[..i], hosted, policy)
    {
      assert pools[..i + 1][..i] == pools[..i];
      if hosted(pools[i]) {
        var (calls, rest) := policy.smash(pools[i], left);
        log := Serve(log, calls, box);
        left := rest;
      }
    }
    assert pools[..|pools|] == pools;
    log := Execute(log, Parked(left));
    if Proper(policy) { EachPoppedOnce(lane[..popped], policy, hosted, stamp, old(box.r)); }
    BatchedArranged(lane[..popped], policy, hosted, stamp, old(box.r));
  }
}

/**
 * The parking queues of the workers: four blocked bands, four periodic bands and a retry
 * queue each, with migration between workers.
 */
module ParkQueues {
  import opened Words

  /** Times are in microseconds. */
  datatype Task = Task(id: nat, yieldCount: nat, yieldTime: real, blockStart: real)

  const BANDS := 4
  const BATCH := 8
  const TOLERANCE := 2000.0
  const STALE := 10000.0

  function BlockedBand(count: nat): (i: nat)
    ensures i < BANDS
  {
    if count <= 2 then 0 else if count <= 4 then 1 else if count <= 8 then 2 else 3
  }

  function PeriodicBand(time: real): (i: nat)
    ensures i < BANDS
  {
    if time <= 50.0 then 0 else if time <= 200.0 then 1 else if time <= 50000.0 then 2 else 3
  }

  /** The largest yield counts and yield times of all bands but the last. */
  const COUNT_LIMITS: seq<nat> := [2, 4, 8]
  const TIME_LIMITS: seq<real> := [50.0, 200.0, 50000.0]

  /** A task is beyond band `i` exactly if its count or time exceeds the limit of the band; so bands are ordered by them. */
  lemma BandLimits(count: nat, time: real, i: nat)
    requires i < BANDS - 1
    ensures BlockedBand(count) > i <==> count > COUNT_LIMITS[i]
    ensures PeriodicBand(time) > i <==> time > TIME_LIMITS[i]
  {
  }

  lemma BandsOrdered(a: nat, b: nat, s: real, t: real)
    ensures a <= b ==> BlockedBand(a) <= BlockedBand(b)
    ensures s <= t ==> PeriodicBand(s) <= PeriodicBand(t)
  {
  }

  predicate DueAt(t: Task, now: real) { now - t.blockStart + TOLERANCE >= t.yieldTime }

  /** The block time kept if it is fresh, restarted otherwise. */
  function Stamped(t: Task, now: real): Task {
    if now - t.blockStart > STALE || now - t.blockStart < 0.0 then t.(blockStart := now) else t
  }

  datatype Queues = Queues(blocked: seq<seq<Task>>, periodic: seq<seq<Task>>, retry: seq<Task>)

  ghost predicate Shaped(q: Queues) { |q.blocked| == BANDS && |q.periodic| == BANDS }

  /** Every parked task is in the band its yield count or yield time selects. */
  ghost predicate Banded(q: Queues) {
    && Shaped(q)
    && (forall i, j :: 0 <= i < BANDS && 0 <= j < |q.blocked[i]| ==>
          q.blocked[i][j].yieldTime == 0.0 && BlockedBand(q.blocked[i][j].yieldCount) == i)
    && (forall i, j :: 0 <= i < BANDS && 0 <= j < |q.periodic[i]| ==>
          q.periodic[i][j].yieldTime != 0.0 && PeriodicBand(q.periodic[i][j].yieldTime) == i)
  }

  function Parked(q: Queues, t: Task, now: real): Queues
    requires Shaped(q)
  {
    if t.yieldTime == 0.0 then
      var u := t.(yieldCount := t.yieldCount + 1);
      var i := BlockedBand(u.yieldCount);
      q.(blocked := q.blocked[i := q.blocked[i] + [u]])
    else
      var u := Stamped(t, now);
      var i := PeriodicBand(u.yieldTime);
      q.(periodic := q.periodic[i := q.periodic[i] + [u]])
  }

  lemma ParkedBanded(q: Queues, t: Task, now: real)
    requires Banded(q)
    ensures Banded(Parked(q, t, now))
  {
  }

  /** A parked periodic task comes due within its yield time, at most the staleness and tolerance early. */
  lemma DueWindow(t: Task, now: real, at: real)
    requires t.yieldTime > 0.0
    ensures at >= now + t.yieldTime ==> DueAt(Stamped(t, now), at)
    ensures at + 2000.0 + 10000.0 < now + t.yieldTime ==> !DueAt(Stamped(t, now), at)
    ensures at + 2000.0 >= now + t.yieldTime ==> DueAt(Stamped(t, now), at)
  {
  }

  // --------------------------------------------------------------------------- migration

  function Restarted(ts: seq<Task>, now: real): (r: seq<Task>)
    ensures |r| == |ts|
  {
    seq(|ts|, i requires 0 <= i < |ts| => ts[i].(blockStart := now))
  }

  /** A migrated periodic task waits its whole yield time again, up to the tolerance. */
  lemma MigratedDue(ts: seq<Task>, now: real, i: nat, at: real)
    requires i < |ts|
    ensures DueAt(Restarted(ts, now)[i], at) <==> at - now + 2000.0 >= ts[i].yieldTime
    ensures Restarted(ts, now)[i].id == ts[i].id && Restarted(ts, now)[i].yieldTime == ts[i].yieldTime
  {
  }

  const NO_TASKS := Queues([[], [], [], []], [[], [], [], []], [])

  /** What the destination holds after a migration: its own tasks, then the donor's, each queue in order. */
  function Joined(dst: Queues, src: Queues, now: real): Queues
    requires Shaped(dst) && Shaped(src)
  {
    Queues(seq(BANDS, i requires 0 <= i < BANDS => dst.blocked[i] + src.blocked[i]),
           seq(BANDS, i requires 0 <= i < BANDS => dst.periodic[i] + Restarted(src.periodic[i], now)),
           dst.retry + src.retry)
  }

  lemma JoinedBanded(dst: Queues, src: Queues, now: real)
    requires Banded(dst) && Banded(src)
    ensures Banded(Joined(dst, src, now))
  {
  }

  function Total(qs: seq<seq<Task>>): nat
    decreases |qs|
  {
    if qs == [] then 0 else Total(qs[..|qs| - 1]) + |qs[|qs| - 1]|
  }

  // ------------------------------------------------------------------------ a pass over a queue

  /** A task that parks during a pass, and when. */
  datatype Parking = Parking(task: Task, at: real)

  /** Running a task may park it and others again, in any band. */
  function ParkAll(q: Queues, ps: seq<Parking>): (r: Queues)
    requires Shaped(q)
    ensures Shaped(r)
    decreases |ps|
  {
    if ps == [] then q
    else
      var last := ps[|ps| - 1];
      Parked(ParkAll(q, ps[..|ps| - 1]), last.task, last.at)
  }

  /** What routing a due task again comes to. */
  datatype Routed = ExecHere(parked: seq<Parking>) | Elsewhere | Later

  /** What an examined task of periodic band `band` adds to the queues. */
  function Requeued(q: Queues, t: Task, band: nat, now: real, r: Routed): (q': Queues)
    requires Shaped(q) && band < BANDS
    ensures Shaped(q')
  {
    if !DueAt(t, now) then q.(periodic := q.periodic[band := q.periodic[band] + [t]])
    else
      match r
      case ExecHere(ps) => ParkAll(q, ps)
      case Elsewhere => q
      case Later => q.(retry := q.retry + [t.(blockStart := now)])
  }

  /** What the examined tasks add, in order; `route` decides about the task at each position. */
  function Added(ts: seq<Task>, band: nat, now: real, route: (nat, Task) -> Routed): (q: Queues)
    requires band < BANDS
    ensures Shaped(q)
    decreases |ts|
  {
    if ts == [] then NO_TASKS
    else
      var n := |ts| - 1;
      Requeued(Added(ts[..n], band, now, route), ts[n], band, now, route(n, ts[n].(blockStart := now)))
  }

  /** The examined tasks that run here: due, and routed to this worker. */
  function Ran(ts: seq<Task>, now: real, route: (nat, Task) -> Routed): seq<Task>
    decreases |ts|
  {
    if ts == [] then []
    else
      var n, t := |ts| - 1, ts[|ts| - 1].(blockStart := now);
      Ran(ts[..n], now, route) + if DueAt(ts[n], now) && route(n, t).ExecHere? then [t] else []
  }

  /** Likewise for a blocked queue: a task whose coroutine has completed is dropped, the others run. */
  function AddedRunning(ts: seq<Task>, run: (nat, Task) -> Option<seq<Parking>>): (q: Queues)
    ensures Shaped(q)
    decreases |ts|
  {
    if ts == [] then NO_TASKS
    else
      var n := |ts| - 1;
      var q := AddedRunning(ts[..n], run);
      match run(n, ts[n])
      case None => q
      case Some(ps) => ParkAll(q, ps)
  }

  function Awake(ts: seq<Task>, run: (nat, Task) -> Option<seq<Parking>>): seq<Task>
    decreases |ts|
  {
    if ts == [] then []
    else
      var n := |ts| - 1;
      Awake(ts[..n], run) + if run(n, ts[n]).Some? then [ts[n].(yieldCount := 0)] else []
  }

  /** A task that is run starts again in the first band, and moves on with its third, fifth and ninth yield. */
  lemma {:induction false} RunStartsOver(ts: seq<Task>, run: (nat, Task) -> Option<seq<Parking>>, t: Task, turns: nat)
    requires t in Awake(ts, run) && t.yieldTime == 0.0
    ensures BlockedBand(Yielded(t, turns).yieldCount) ==
      if turns <= 2 then 0 else if turns <= 4 then 1 else if turns <= 8 then 2 else 3
  {
    AwakeReset(ts, run, t);
    YieldedCount(t, turns);
  }

  /** A task after yielding so often, as parking leaves it. */
  ghost function Yielded(t: Task, turns: nat): Task
    ensures Yielded(t, turns).yieldTime == t.yieldTime
  {
    if turns == 0 || t.yieldTime != 0.0 then t else AsParked(Yielded(t, turns - 1))
  }

  /** The task that parking `t` puts into a queue. */
  ghost function AsParked(t: Task): (u: Task)
    requires t.yieldTime == 0.0
    ensures u.yieldTime == 0.0
  {
    var q := Parked(NO_TASKS, t, 0.0);
    q.blocked[BlockedBand(t.yieldCount + 1)][0]
  }

  lemma {:induction false} YieldedCount(t: Task, turns: nat)
    requires t.yieldTime == 0.0
    ensures Yielded(t, turns).yieldCount == t.yieldCount + turns
  {
    if turns > 0 { YieldedCount(t, turns - 1); }
  }

  lemma {:induction false} AwakeReset(ts: seq<Task>, run: (nat, Task) -> Option<seq<Parking>>, t: Task)
    requires t in Awake(ts, run)
    ensures t.yieldCount == 0
    decreases |ts|
  {
    var n := |ts| - 1;
    if t in Awake(ts[..n], run) { AwakeReset(ts[..n], run, t); }
  }

  /** Each queue of `d` behind the one of `q`. */
  function Append(q: Queues, d: Queues): (r: Queues)
    requires Shaped(q) && Shaped(d)
    ensures Shaped(r)
  {
    Queues(Behind(q.blocked, d.blocked), Behind(q.periodic, d.periodic), q.retry + d.retry)
  }

  function Behind(a: seq<seq<Task>>, b: seq<seq<Task>>): (r: seq<seq<Task>>)
    requires |a| == |b|
    ensures |r| == |a|
  {
    seq(|a|, i requires 0 <= i < |a| => a[i] + b[i])
  }

  lemma PushBehind(a: seq<seq<Task>>, b: seq<seq<Task>>, i: nat, t: Task)
    requires |a| == |b| && i < |a|
    ensures Behind(a, b)[i := Behind(a, b)[i] + [t]] == Behind(a, b[i := b[i] + [t]])
  {
    assert (a[i] + b[i]) + [t] == a[i] + (b[i] + [t]);
  }

  lemma BehindNothing(a: seq<seq<Task>>)
    requires |a| == BANDS
    ensures Behind(a, [[], [], [], []]) == a
  {
    forall i | 0 <= i < BANDS ensures Behind(a, [[], [], [], []])[i] == a[i] {}
  }

  lemma AppendNothing(q: Queues)
    requires Shaped(q)
    ensures Append(q, NO_TASKS) == q
  {
    BehindNothing(q.blocked);
    BehindNothing(q.periodic);
  }

  lemma ParkBehind(q: Queues, d: Queues, t: Task, now: real)
    requires Shaped(q) && Shaped(d)
    ensures Parked(Append(q, d), t, now) == Append(q, Parked(d, t, now))
  {
    if t.yieldTime == 0.0 {
      var u := t.(yieldCount := t.yieldCount + 1);
      PushBehind(q.blocked, d.blocked, BlockedBand(u.yieldCount), u);
    } else {
      var u := Stamped(t, now);
      PushBehind(q.periodic, d.periodic, PeriodicBand(u.yieldTime), u);
    }
  }

  lemma {:induction false} ParkAllBehind(q: Queues, d: Queues, ps: seq<Parking>)
    requires Shaped(q) && Shaped(d)
    ensures ParkAll(Append(q, d), ps) == Append(q, ParkAll(d, ps))
    decreases |ps|
  {
    if ps != [] {
      var n := |ps| - 1;
      ParkAllBehind(q, d, ps[..n]);
      ParkBehind(q, ParkAll(d, ps[..n]), ps[n].task, ps[n].at);
    }
  }

  lemma RequeuedBehind(q: Queues, d: Queues, t: Task, band: nat, now: real, r: Routed)
    requires Shaped(q) && Shaped(d) && band < BANDS
    ensures Requeued(Append(q, d), t, band, now, r) == Append(q, Requeued(d, t, band, now, r))
  {
    if r.ExecHere? { ParkAllBehind(q, d, r.parked); }
    PushBehind(q.periodic, d.periodic, band, t);
    var u := t.(blockStart := now);
    assert (q.retry + d.retry) + [u] == q.retry + (d.retry + [u]);
  }

  // --------------------------------------------------------------- what a pass does not lose

  /** Nothing leaves the queues of `q`, and what is added stands behind. */
  ghost predicate Grows(q: Queues, r: Queues)
    requires Shaped(q) && Shaped(r)
  {
    && (forall i :: 0 <= i < BANDS ==> q.blocked[i] <= r.blocked[i] && q.periodic[i] <= r.periodic[i]) && q.retry <= r.retry
  }

  lemma GrowsOn(q: Queues, r: Queues, s: Queues)
    requires Shaped(q) && Shaped(r) && Shaped(s) && Grows(q, r) && Grows(r, s)
    ensures Grows(q, s)
  {
  }

  lemma ParkGrows(q: Queues, t: Task, now: real)
    requires Shaped(q)
    ensures Grows(q, Parked(q, t, now))
  {
  }

  lemma {:induction false} ParkAllGrows(q: Queues, ps: seq<Parking>)
    requires Shaped(q)
    ensures Grows(q, ParkAll(q, ps))
    decreases |ps|
  {
    if ps != [] {
      var n := |ps| - 1;
      ParkAllGrows(q, ps[..n]);
      ParkGrows(ParkAll(q, ps[..n]), ps[n].task, ps[n].at);
      GrowsOn(q, ParkAll(q, ps[..n]), ParkAll(q, ps));
    }
  }

  lemma RequeuedGrows(q: Queues, t: Task, band: nat, now: real, r: Routed)
    requires Shaped(q) && band < BANDS
    ensures Grows(q, Requeued(q, t, band, now, r))
  {
    if DueAt(t, now) && r.ExecHere? { ParkAllGrows(q, r.parked); }
  }

  /** An examined task that is not due is back in its band; one to be retried is in the retry queue. */
  ghost predicate Back(q: Queues, t: Task, band: nat, now: real, r: Routed)
    requires Shaped(q) && band < BANDS
  {
    && (!DueAt(t, now) ==> t in q.periodic[band])
    && (DueAt(t, now) && r.Later? ==> t.(blockStart := now) in q.retry)
  }

  lemma BackStays(q: Queues, r: Queues, t: Task, band: nat, now: real, to: Routed)
    requires Shaped(q) && Shaped(r) && band < BANDS && Grows(q, r) && Back(q, t, band, now, to)
    ensures Back(r, t, band, now, to)
  {
  }

  /** A pass keeps every examined task that it neither runs nor hands to another worker. */
  lemma {:induction false} PassKeeps(ts: seq<Task>, band: nat, now: real, route: (nat, Task) -> Routed, i: nat)
    requires band < BANDS && i < |ts|
    ensures Back(Added(ts, band, now, route), ts[i], band, now, route(i, ts[i].(blockStart := now)))
    decreases |ts|
  {
    var n := |ts| - 1;
    var q, r := Added(ts[..n], band, now, route), Added(ts, band, now, route);
    if i < n {
      PassKeeps(ts[..n], band, now, route, i);
      RequeuedGrows(q, ts[n], band, now, route(n, ts[n].(blockStart := now)));
      BackStays(q, r, ts[i], band, now, route(i, ts[i].(blockStart := now)));
    }
  }

  /** The tasks one pass looks at. */
  function Examined(q: seq<Task>): seq<Task> { q[..Min(|q|, BATCH)] }

  /** A task of periodic band `band`. */
  predicate Fits(band: nat, t: Task) { t.yieldTime != 0.0 && PeriodicBand(t.yieldTime) == band }

  lemma {:induction false} ParkAllBanded(q: Queues, ps: seq<Parking>)
    requires Banded(q)
    ensures Banded(ParkAll(q, ps))
    decreases |ps|
  {
    if ps != [] {
      var n := |ps| - 1;
      ParkAllBanded(q, ps[..n]);
      ParkedBanded(ParkAll(q, ps[..n]), ps[n].task, ps[n].at);
    }
  }

  lemma RequeuedBanded(q: Queues, t: Task, band: nat, now: real, r: Routed)
    requires Banded(q) && band < BANDS && Fits(band, t)
    ensures Banded(Requeued(q, t, band, now, r))
  {
    if DueAt(t, now) && r.ExecHere? { ParkAllBanded(q, r.parked); }
  }

  /** The queues without the first `n` tasks of a band. */
  function WithoutPeriodic(q: Queues, band: nat, n: nat): (r: Queues)
    requires Shaped(q) && band < BANDS && n <= |q.periodic[band]|
    ensures Shaped(r)
  {
    q.(periodic := q.periodic[band := q.periodic[band][n..]])
  }

  function WithoutBlocked(q: Queues, band: nat, n: nat): (r: Queues)
    requires Shaped(q) && band < BANDS && n <= |q.blocked[band]|
    ensures Shaped(r)
  {
    q.(blocked := q.blocked[band := q.blocked[band][n..]])
  }

  lemma PopPeriodic(q: Queues, d: Queues, band: nat, n: nat)
    requires Shaped(q) && Shaped(d) && band < BANDS && n < |q.periodic[band]|
    ensures
      var cur := Append(WithoutPeriodic(q, band, n), d);
      && cur.periodic[band] != [] && cur.periodic[band][0] == q.periodic[band][n]
      && WithoutPeriodic(cur, band, 1) == Append(WithoutPeriodic(q, band, n + 1), d)
  {
    var p := q.periodic[band];
    assert (p[n..] + d.periodic[band])[1..] == p[n + 1..] + d.periodic[band];
  }

  lemma PopBlocked(q: Queues, d: Queues, band: nat, n: nat)
    requires Shaped(q) && Shaped(d) && band < BANDS && n < |q.blocked[band]|
    ensures
      var cur := Append(WithoutBlocked(q, band, n), d);
      && cur.blocked[band] != [] && cur.blocked[band][0] == q.blocked[band][n]
      && WithoutBlocked(cur, band, 1) == Append(WithoutBlocked(q, band, n + 1), d)
  {
    var p := q.blocked[band];
    assert (p[n..] + d.blocked[band])[1..] == p[n + 1..] + d.blocked[band];
  }

  /** The next examined task of a pass. */
  lemma PeriodicStep(q: Queues, band: nat, now: real, route: (nat, Task) -> Routed, i: nat)
    requires Shaped(q) && band < BANDS && i < |q.periodic[band]|
    ensures
      var p := q.periodic[band];
      var rest := Append(WithoutPeriodic(q, band, i + 1), Added(p[..i], band, now, route));
      && Append(WithoutPeriodic(q, band, i + 1), Added(p[..i + 1], band, now, route))
         == Requeued(rest, p[i], band, now, route(i, p[i].(blockStart := now)))
      && Ran(p[..i + 1], now, route) == Ran(p[..i], now, route)
         + (if DueAt(p[i], now) && route(i, p[i].(blockStart := now)).ExecHere? then [p[i].(blockStart := now)] else [])
  {
    var p := q.periodic[band];
    assert p[..i + 1][..i] == p[..i];
    RequeuedBehind(WithoutPeriodic(q, band, i + 1), Added(p[..i], band, now, route), p[i], band, now,
                   route(i, p[i].(blockStart := now)));
  }

  lemma BlockedStep(q: Queues, band: nat, run: (nat, Task) -> Option<seq<Parking>>, i: nat)
    requires Shaped(q) && band < BANDS && i < |q.blocked[band]|
    ensures
      var p := q.blocked[band];
      var rest := Append(WithoutBlocked(q, band, i + 1), AddedRunning(p[..i], run));
      && Append(WithoutBlocked(q, band, i + 1), AddedRunning(p[..i + 1], run))
         == (if run(i, p[i]).None? then rest else ParkAll(rest, run(i, p[i]).value))
      && Awake(p[..i + 1], run) == Awake(p[..i], run) + (if run(i, p[i]).Some? then [p[i].(yieldCount := 0)] else [])
  {
    var p := q.blocked[band];
    assert p[..i + 1][..i] == p[..i];
    if run(i, p[i]).Some? {
      ParkAllBehind(WithoutBlocked(q, band, i + 1), AddedRunning(p[..i], run), run(i, p[i]).value);
    }
  }

  /** Popping keeps the bands. */
  lemma PoppedBanded(q: Queues, i: nat)
    requires Banded(q) && i < BANDS
    ensures q.blocked[i] != [] ==> Banded(q.(blocked := q.blocked[i := q.blocked[i][1..]]))
    ensures q.periodic[i] != [] ==>
      Banded(q.(periodic := q.periodic[i := q.periodic[i][1..]])) && Fits(i, q.periodic[i][0])
  {
  }

  class Worker {
    var blocked: seq<seq<Task>>
    var periodic: seq<seq<Task>>
    var retry: seq<Task>

    ghost function View(): Queues
      reads this
    {
      Queues(blocked, periodic, retry)
    }

    ghost predicate Valid()
      reads this
    {
      Banded(View())
    }

    constructor ()
      ensures Valid() && View() == NO_TASKS
    {
      blocked, periodic, retry := [[], [], [], []], [[], [], [], []], [];
    }

    method AddToBlockedQueue(t: Task, waitForTask: bool, now: real)
      requires Valid()
      modifies this
      ensures Valid() && View() == if waitForTask then old(View()) else Parked(old(View()), t, now)
    {
      if waitForTask { return; }
      ParkedBanded(View(), t, now);
      if t.yieldTime == 0.0 {
        var u := t.(yieldCount := t.yieldCount + 1);
        var i := if u.yieldCount <= 2 then 0 else if u.yieldCount <= 4 then 1 else if u.yieldCount <= 8 then 2 else 3;
        blocked := blocked[i := blocked[i] + [u]];
      } else {
        var elapsed := now - t.blockStart;
        var u := if elapsed > STALE || elapsed < 0.0 then t.(blockStart := now) else t;
        var i := if u.yieldTime <= 50.0 then 0 else if u.yieldTime <= 200.0 then 1
                 else if u.yieldTime <= 50000.0 then 2 else 3;
        periodic := periodic[i := periodic[i] + [u]];
      }
    }

    method AddToRetryQueue(t: Task)
      requires Valid()
      modifies this
      ensures Valid() && View() == old(View()).(retry := old(retry) + [t])
    {
      retry := retry + [t];
    }

    /** Running a task parks whatever it parks, one after the other. */
    method Execute(ps: seq<Parking>)
      requires Valid()
      modifies this
      ensures Valid() && View() == ParkAll(old(View()), ps)
    {
      assert ps[..0] == [];
      for i := 0 to |ps|
        invariant Valid() && View() == ParkAll(old(View()), ps[..i])
      {
        assert ps[..i + 1][..i] == ps[..i];
        AddToBlockedQueue(ps[i].task, false, ps[i].at);
      }
      assert ps[..|ps|] == ps;
    }

    /** A task just popped from a periodic queue: put back, or routed again and run if it stays here. */
    method Requeue(t: Task, band: nat, now: real, r: Routed) returns (ran: bool)
      requires Valid() && band < BANDS && Fits(band, t)
      modifies this
      ensures Valid() && View() == Requeued(old(View()), t, band, now, r)
      ensures ran == (DueAt(t, now) && r.ExecHere?)
    {
      RequeuedBanded(View(), t, band, now, r);
      ran := false;
      if now - t.blockStart + TOLERANCE >= t.yieldTime {
        match r {
          case ExecHere(ps) => Execute(ps); ran := true;
          case Elsewhere =>
          case Later => AddToRetryQueue(t.(blockStart := now));
        }
      } else {
        periodic := periodic[band := periodic[band] + [t]];
      }
    }

    /** One pass without a migration in between. */
    method ProcessPeriodicQueue(band: nat, now: real, route: (nat, Task) -> Routed) returns (executed: seq<Task>)
      requires Valid() && band < BANDS
      modifies this
      ensures executed == Ran(Examined(old(periodic)[band]), now, route)
      ensures
        var q := old(periodic)[band];
        && View() == Append(WithoutPeriodic(old(View()), band, Min(|q|, BATCH)), Added(Examined(q), band, now, route))
        && periodic[band] == AfterPasses(q, [Added(Examined(q), band, now, route).periodic[band]])
      ensures Valid()
    {
      ghost var start, q := View(), periodic[band];
      var limit := Min(|periodic[band]|, BATCH);
      executed := [];
      assert q[..0] == [] && WithoutPeriodic(start, band, 0) == start;
      AppendNothing(start);
      for i := 0 to limit
        invariant Valid() && executed == Ran(q[..i], now, route)
        invariant View() == Append(WithoutPeriodic(start, band, i), Added(q[..i], band, now, route))
      {
        PopPeriodic(start, Added(q[..i], band, now, route), band, i);
        PeriodicStep(start, band, now, route, i);
        PoppedBanded(View(), band);
        var t := periodic[band][0];
        periodic := periodic[band := periodic[band][1..]];
        var ran := Requeue(t, band, now, route(i, t.(blockStart := now)));
        if ran { executed := executed + [t.(blockStart := now)]; }
      }
    }

    /** One pass over a blocked queue; `run` is `None` for a started task whose coroutine has completed. */
    method ProcessBlockedQueue(band: nat, run: (nat, Task) -> Option<seq<Parking>>) returns (executed: seq<Task>)
      requires Valid() && band < BANDS
      modifies this
      ensures executed == Awake(Examined(old(blocked)[band]), run)
      ensures
        var q := old(blocked)[band];
        View() == Append(WithoutBlocked(old(View()), band, Min(|q|, BATCH)), AddedRunning(Examined(q), run))
      ensures Valid()
    {
      ghost var start, q := View(), blocked[band];
      var limit := Min(|blocked[band]|, BATCH);
      executed := [];
      assert q[..0] == [] && WithoutBlocked(start, band, 0) == start;
      AppendNothing(start);
      for i := 0 to limit
        invariant Valid() && executed == Awake(q[..i], run)
        invariant View() == Append(WithoutBlocked(start, band, i), AddedRunning(q[..i], run))
      {
        PopBlocked(start, AddedRunning(q[..i], run), band, i);
        BlockedStep(start, band, run, i);
        PoppedBanded(View(), band);
        var t := blocked[band][0];
        blocked := blocked[band := blocked[band][1..]];
        var ps := run(i, t);
        if ps.Some? {
          executed := executed + [t.(yieldCount := 0)];
          Execute(ps.value);
        }
      }
    }

    /** Pour `from` behind `to`, front first. */
    static method Pour(to: seq<Task>, from: seq<Task>) returns (r: seq<Task>, moved: nat)
      ensures r == to + from && moved == |from|
    {
      r, moved := to, 0;
      var left := from;
      while left != []
        invariant r + left == to + from && moved + |left| == |from|
        decreases |left|
      {
        assert r + left == r + [left[0]] + left[1..];
        r, left, moved := r + [left[0]], left[1..], moved + 1;
      }
      assert r + left == r;
    }

    /** Pour a periodic queue, restarting every task's clock. */
    static method PourPeriodic(to: seq<Task>, from: seq<Task>, now: real) returns (r: seq<Task>, moved: nat)
      ensures r == to + Restarted(from, now) && moved == |from|
    {
      r, moved := to, 0;
      var left := from;
      while left != []
        invariant moved <= |from| && left == from[moved..]
        invariant r == to + Restarted(from, now)[..moved]
        decreases |left|
      {
        r, left, moved := r + [left[0].(blockStart := now)], left[1..], moved + 1;
      }
      assert Restarted(from, now)[..|from|] == Restarted(from, now);
    }

    method PourBlocked(dst: Worker) returns (moved: nat)
      requires dst != this && Shaped(View()) && Shaped(dst.View())
      modifies this`blocked, dst`blocked
      ensures |blocked| == BANDS && |dst.blocked| == BANDS && moved == Total(old(blocked))
      ensures forall j :: 0 <= j < BANDS ==> blocked[j] == [] && dst.blocked[j] == old(dst.blocked)[j] + old(blocked)[j]
    {
      moved := 0;
      assert blocked[..0] == [];
      for i := 0 to BANDS
        invariant |blocked| == BANDS && |dst.blocked| == BANDS && moved == Total(old(blocked)[..i])
        invariant forall j :: 0 <= j < i ==> blocked[j] == [] && dst.blocked[j] == old(dst.blocked)[j] + old(blocked)[j]
        invariant forall j :: i <= j < BANDS ==> blocked[j] == old(blocked)[j] && dst.blocked[j] == old(dst.blocked)[j]
      {
        assert old(blocked)[..i + 1][..i] == old(blocked)[..i];
        var r, n := Pour(dst.blocked[i], blocked[i]);
        dst.blocked, moved := dst.blocked[i := r], moved + n;
        blocked := blocked[i := []];
      }
      assert old(blocked)[..BANDS] == old(blocked);
    }

    method PourAllPeriodic(dst: Worker, now: real) returns (moved: nat)
      requires dst != this && Shaped(View()) && Shaped(dst.View())
      modifies this`periodic, dst`periodic
      ensures |periodic| == BANDS && |dst.periodic| == BANDS && moved == Total(old(periodic))
      ensures forall j :: 0 <= j < BANDS ==>
        periodic[j] == [] && dst.periodic[j] == old(dst.periodic)[j] + Restarted(old(periodic)[j], now)
    {
      moved := 0;
      assert periodic[..0] == [];
      for i := 0 to BANDS
        invariant |periodic| == BANDS && |dst.periodic| == BANDS && moved == Total(old(periodic)[..i])
        invariant forall j :: 0 <= j < i ==>
          periodic[j] == [] && dst.periodic[j] == old(dst.periodic)[j] + Restarted(old(periodic)[j], now)
        invariant forall j :: i <= j < BANDS ==> periodic[j] == old(periodic)[j] && dst.periodic[j] == old(dst.periodic)[j]
      {
        assert old(periodic)[..i + 1][..i] == old(periodic)[..i];
        var r, n := PourPeriodic(dst.periodic[i], periodic[i], now);
        dst.periodic, moved := dst.periodic[i := r], moved + n;
        periodic := periodic[i := []];
      }
      assert old(periodic)[..BANDS] == old(periodic);
    }

    /** Everything parked here moves to `dst`, behind what is parked there. */
    method MigrateParkedTo(dst: Worker?, now: real) returns (moved: nat)
      requires Valid() && (dst != null ==> dst.Valid())
      modifies this, dst
      ensures dst == null || dst == this ==> moved == 0 && View() == old(View())
      ensures dst != null && dst != this ==>
        && Valid() && View() == NO_TASKS && dst.Valid() && dst.View() == Joined(old(dst.View()), old(View()), now)
        && moved == Total(old(blocked)) + Total(old(periodic)) + |old(retry)|
    {
      if dst == null || dst == this { return 0; }
      JoinedBanded(dst.View(), View(), now);
      var b := PourBlocked(dst);
      var p := PourAllPeriodic(dst, now);
      var n: nat;
      dst.retry, n := Pour(dst.retry, retry);
      retry := [];
      moved := b + p + n;
    }
  }

  // ------------------------------------------------------------------------------ fairness

  /** A periodic queue after some passes; each adds something at the back, in the pass or after it. */
  function AfterPasses(q: seq<Task>, added: seq<seq<Task>>): seq<Task>
    decreases |added|
  {
    if added == [] then q
    else
      var p := AfterPasses(q, added[..|added| - 1]);
      p[Min(|p|, BATCH)..] + added[|added| - 1]
  }

  /** Without a migration the task at position `p` moves up a batch per pass. */
  lemma {:induction false} MovesUp(q: seq<Task>, added: seq<seq<Task>>, p: nat)
    requires p < |q| && BATCH * |added| <= p
    ensures p - BATCH * |added| < |AfterPasses(q, added)|
    ensures AfterPasses(q, added)[p - BATCH * |added|] == q[p]
    decreases |added|
  {
    if added != [] { MovesUp(q, added[..|added| - 1], p); }
  }

  /**
   * Fairness: the task at position `p` is examined in pass number ceil((p + 1) / 8), and not
   * before, whatever is added to the queue meanwhile.
   */
  lemma ExaminedInTime(q: seq<Task>, added: seq<seq<Task>>, p: nat)
    requires p < |q| && |added| == p / BATCH
    ensures |added| + 1 == (p + 1 + 7) / 8
    ensures
      var front := Examined(AfterPasses(q, added));
      p % BATCH < |front| && front[p % BATCH] == q[p]
    ensures forall k :: 0 <= k < |added| ==>
      var early := AfterPasses(q, added[..k]);
      BATCH <= p - BATCH * k < |early| && early[p - BATCH * k] == q[p]
  {
    assert p == BATCH * (p / BATCH) + p % BATCH;
    MovesUp(q, added, p);
    forall k | 0 <= k < |added|
      ensures
        var early := AfterPasses(q, added[..k]);
        BATCH <= p - BATCH * k < |early| && early[p - BATCH * k] == q[p]
    {
      MovesUp(q, added[..k], p);
    }
  }
}

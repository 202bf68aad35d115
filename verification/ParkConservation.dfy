/**
 * Parked tasks over any number of workers, at the granularity of the parking lock: parking,
 * popping, putting back and migrating interleave freely.
 */
module ParkConservation {
  import opened Words
  import opened ParkQueues

  /**
   * Any number of workers, at lock-section granularity: `hands` is the task a worker has popped and
   * not yet run or put back, with its band if it was a periodic one; `out` the tasks not parked.
   */
  datatype Sys = Sys(workers: map<nat, Queues>, hands: map<nat, (Task, Option<nat>)>, out: set<nat>, known: set<nat>)

  datatype Action =
    | Enter(id: nat)
    | Park(w: nat, t: Task, now: real)
    | Retry(w: nat, t: Task)
    | PopBlocked(w: nat, i: nat)
    | PopPeriodic(w: nat, i: nat)
    | PopRetry(w: nat)
    | Return(w: nat)
    | Take(w: nat)
    | Migrate(src: nat, dst: nat, now: real)

  predicate Free(s: Sys, w: nat) {
    w in s.workers && w !in s.hands && |s.workers[w].blocked| == |s.workers[w].periodic| == BANDS
  }

  predicate Enabled(s: Sys, a: Action) {
    match a
    case Enter(id) => id !in s.known
    case Park(w, t, _) => w in s.workers && |s.workers[w].blocked| == |s.workers[w].periodic| == BANDS && t.id in s.out
    case Retry(w, t) => w in s.workers && t.id in s.out
    case PopBlocked(w, i) => Free(s, w) && i < BANDS && s.workers[w].blocked[i] != []
    case PopPeriodic(w, i) => Free(s, w) && i < BANDS && s.workers[w].periodic[i] != []
    case PopRetry(w) => Free(s, w) && s.workers[w].retry != []
    case Return(w) => w in s.workers && w in s.hands && s.hands[w].1.Some? && s.hands[w].1.value < |s.workers[w].periodic|
    case Take(w) => w in s.hands
    case Migrate(src, dst, _) => src in s.workers && dst in s.workers && src != dst
                                 && |s.workers[src].blocked| == |s.workers[src].periodic| == BANDS
                                 && |s.workers[dst].blocked| == |s.workers[dst].periodic| == BANDS
  }

  function With(s: Sys, w: nat, q: Queues): Sys { s.(workers := s.workers[w := q]) }

  /** Worker `w` keeps the queues `q` and holds `t`, which came from periodic band `from` if any. */
  function Holding(s: Sys, w: nat, q: Queues, t: Task, from: Option<nat>): Sys {
    Sys(s.workers[w := q], s.hands[w := (t, from)], s.out, s.known)
  }

  function Returned(q: Queues, t: Task, i: nat): Queues
    requires i < |q.periodic|
  {
    q.(periodic := q.periodic[i := q.periodic[i] + [t]])
  }

  function After(s: Sys, a: Action): Sys
    requires Enabled(s, a)
  {
    match a
    case Enter(id) => s.(out := s.out + {id}, known := s.known + {id})
    case Park(w, t, now) => Sys(s.workers[w := Parked(s.workers[w], t, now)], s.hands, s.out - {t.id}, s.known)
    case Retry(w, t) =>
      Sys(s.workers[w := s.workers[w].(retry := s.workers[w].retry + [t])], s.hands, s.out - {t.id}, s.known)
    case PopBlocked(w, i) =>
      var q := s.workers[w];
      Holding(s, w, q.(blocked := q.blocked[i := q.blocked[i][1..]]), q.blocked[i][0], None)
    case PopPeriodic(w, i) =>
      var q := s.workers[w];
      Holding(s, w, q.(periodic := q.periodic[i := q.periodic[i][1..]]), q.periodic[i][0], Some(i))
    case PopRetry(w) =>
      var q := s.workers[w];
      Holding(s, w, q.(retry := q.retry[1..]), q.retry[0], None)
    case Return(w) =>
      Sys(s.workers[w := Returned(s.workers[w], s.hands[w].0, s.hands[w].1.value)], s.hands - {w}, s.out, s.known)
    case Take(w) => s.(hands := s.hands - {w}, out := s.out + {s.hands[w].0.id})
    case Migrate(src, dst, now) => With(With(s, dst, Joined(s.workers[dst], s.workers[src], now)), src, NO_TASKS)
  }

  datatype Place = InBlocked(w: nat, i: nat, j: nat) | InPeriodic(w: nat, i: nat, j: nat) | InRetry(w: nat, j: nat)
                 | InHand(w: nat) | Outside(id: nat)

  function Nth(ts: seq<Task>, j: nat): Option<nat> { if j < |ts| then Some(ts[j].id) else None }

  function Band(qs: seq<seq<Task>>, i: nat): seq<Task> { if i < |qs| then qs[i] else [] }

  /** The task at a place. */
  function At(s: Sys, p: Place): Option<nat> {
    match p
    case InBlocked(w, i, j) => if w in s.workers then Nth(Band(s.workers[w].blocked, i), j) else None
    case InPeriodic(w, i, j) => if w in s.workers then Nth(Band(s.workers[w].periodic, i), j) else None
    case InRetry(w, j) => if w in s.workers then Nth(s.workers[w].retry, j) else None
    case InHand(w) => if w in s.hands then Some(s.hands[w].0.id) else None
    case Outside(id) => if id in s.out then Some(id) else None
  }

  /** Where a step takes the task at `p`. */
  function Forth(s: Sys, a: Action, p: Place): Place
    requires Enabled(s, a)
  {
    match a
    case Enter(_) => p
    case Park(w, t, _) =>
      if p != Outside(t.id) then p
      else if t.yieldTime == 0.0 then
        InBlocked(w, BlockedBand(t.yieldCount + 1), |s.workers[w].blocked[BlockedBand(t.yieldCount + 1)]|)
      else InPeriodic(w, PeriodicBand(t.yieldTime), |s.workers[w].periodic[PeriodicBand(t.yieldTime)]|)
    case Retry(w, t) => if p == Outside(t.id) then InRetry(w, |s.workers[w].retry|) else p
    case PopBlocked(w, i) =>
      if !p.InBlocked? || p.w != w || p.i != i then p else if p.j == 0 then InHand(w) else InBlocked(w, i, p.j - 1)
    case PopPeriodic(w, i) =>
      if !p.InPeriodic? || p.w != w || p.i != i then p else if p.j == 0 then InHand(w) else InPeriodic(w, i, p.j - 1)
    case PopRetry(w) =>
      if !p.InRetry? || p.w != w then p else if p.j == 0 then InHand(w) else InRetry(w, p.j - 1)
    case Return(w) =>
      if p == InHand(w) then InPeriodic(w, s.hands[w].1.value, |s.workers[w].periodic[s.hands[w].1.value]|) else p
    case Take(w) => if p == InHand(w) then Outside(s.hands[w].0.id) else p
    case Migrate(src, dst, _) =>
      if p.InBlocked? && p.w == src then InBlocked(dst, p.i, |Band(s.workers[dst].blocked, p.i)| + p.j)
      else if p.InPeriodic? && p.w == src then InPeriodic(dst, p.i, |Band(s.workers[dst].periodic, p.i)| + p.j)
      else if p.InRetry? && p.w == src then InRetry(dst, |s.workers[dst].retry| + p.j)
      else p
  }

  /** Where the task at `q` after a step was before it. */
  function Back(s: Sys, a: Action, q: Place): Place
    requires Enabled(s, a)
  {
    match a
    case Enter(_) => q
    case Park(_, t, _) => if q == Forth(s, a, Outside(t.id)) then Outside(t.id) else q
    case Retry(_, t) => if q == Forth(s, a, Outside(t.id)) then Outside(t.id) else q
    case PopBlocked(w, i) =>
      if q == InHand(w) then InBlocked(w, i, 0)
      else if q.InBlocked? && q.w == w && q.i == i then InBlocked(w, i, q.j + 1) else q
    case PopPeriodic(w, i) =>
      if q == InHand(w) then InPeriodic(w, i, 0)
      else if q.InPeriodic? && q.w == w && q.i == i then InPeriodic(w, i, q.j + 1) else q
    case PopRetry(w) =>
      if q == InHand(w) then InRetry(w, 0) else if q.InRetry? && q.w == w then InRetry(w, q.j + 1) else q
    case Return(w) => if q == Forth(s, a, InHand(w)) then InHand(w) else q
    case Take(w) => if q == Outside(s.hands[w].0.id) then InHand(w) else q
    case Migrate(src, dst, _) =>
      if q.InBlocked? && q.w == dst && q.j >= |Band(s.workers[dst].blocked, q.i)| then
        InBlocked(src, q.i, q.j - |Band(s.workers[dst].blocked, q.i)|)
      else if q.InPeriodic? && q.w == dst && q.j >= |Band(s.workers[dst].periodic, q.i)| then
        InPeriodic(src, q.i, q.j - |Band(s.workers[dst].periodic, q.i)|)
      else if q.InRetry? && q.w == dst && q.j >= |s.workers[dst].retry| then InRetry(src, q.j - |s.workers[dst].retry|)
      else q
  }

  lemma MigrateForth(s: Sys, src: nat, dst: nat, now: real, p: Place)
    requires Enabled(s, Migrate(src, dst, now)) && At(s, p).Some?
    ensures At(After(s, Migrate(src, dst, now)), Forth(s, Migrate(src, dst, now), p)) == At(s, p)
  {
  }

  lemma MigrateBack(s: Sys, src: nat, dst: nat, now: real, q: Place)
    requires Enabled(s, Migrate(src, dst, now)) && At(After(s, Migrate(src, dst, now)), q).Some?
    ensures
      var p := Back(s, Migrate(src, dst, now), q);
      At(s, p) == At(After(s, Migrate(src, dst, now)), q) && Forth(s, Migrate(src, dst, now), p) == q
  {
  }

  lemma ParkForth(s: Sys, w: nat, t: Task, now: real, p: Place)
    requires Enabled(s, Park(w, t, now)) && At(s, p).Some?
    ensures At(After(s, Park(w, t, now)), Forth(s, Park(w, t, now), p)) == At(s, p)
  {
  }

  /** A step takes every task with it. */
  lemma MovesForth(s: Sys, a: Action, p: Place)
    requires Enabled(s, a) && At(s, p).Some?
    ensures At(After(s, a), Forth(s, a, p)) == At(s, p)
  {
    match a
    case Migrate(src, dst, now) => MigrateForth(s, src, dst, now, p);
    case Park(w, t, now) => ParkForth(s, w, t, now, p);
    case _ =>
  }

  /** And brings no other. */
  lemma CameBack(s: Sys, a: Action, q: Place)
    requires Enabled(s, a) && !a.Enter? && At(After(s, a), q).Some? && Apart(s)
    ensures At(s, Back(s, a, q)) == At(After(s, a), q) && Forth(s, a, Back(s, a, q)) == q
  {
    match a
    case Migrate(src, dst, now) => MigrateBack(s, src, dst, now, q);
    case Park(w, t, now) => ParkBack(s, w, t, now, q);
    case PopBlocked(w, i) => PopBack(s, a, q);
    case PopPeriodic(w, i) => PopBack(s, a, q);
    case _ =>
  }

  lemma ParkBack(s: Sys, w: nat, t: Task, now: real, q: Place)
    requires Enabled(s, Park(w, t, now)) && At(After(s, Park(w, t, now)), q).Some?
    ensures
      var p := Back(s, Park(w, t, now), q);
      At(s, p) == At(After(s, Park(w, t, now)), q) && Forth(s, Park(w, t, now), p) == q
  {
  }

  lemma PopBack(s: Sys, a: Action, q: Place)
    requires Enabled(s, a) && (a.PopBlocked? || a.PopPeriodic?) && At(After(s, a), q).Some?
    ensures At(s, Back(s, a, q)) == At(After(s, a), q) && Forth(s, a, Back(s, a, q)) == q
  {
  }

  /** Places hold different tasks. */
  ghost predicate Apart(s: Sys) { forall p, q :: At(s, p).Some? && At(s, p) == At(s, q) ==> p == q }

  ghost predicate Somewhere(s: Sys, id: nat) { exists p :: At(s, p) == Some(id) }

  /** Every task is at exactly one place. */
  ghost predicate Exact(s: Sys) {
    && Apart(s)
    && (forall id :: id in s.known ==> Somewhere(s, id))
    && (forall p :: At(s, p).Some? ==> At(s, p).value in s.known)
  }

  lemma EnterKeepsExact(s: Sys, id: nat)
    requires Exact(s) && Enabled(s, Enter(id))
    ensures Exact(After(s, Enter(id)))
  {
    var s' := After(s, Enter(id));
    forall p ensures At(s', p) == if p == Outside(id) then Some(id) else At(s, p) {}
    forall j | j in s'.known ensures Somewhere(s', j) {
      if j == id { assert At(s', Outside(id)) == Some(j); }
      else { assert Somewhere(s, j); var p :| At(s, p) == Some(j); assert At(s', p) == Some(j); }
    }
  }

  lemma MoveKeepsExact(s: Sys, a: Action)
    requires Exact(s) && Enabled(s, a) && !a.Enter?
    ensures Exact(After(s, a))
  {
    var s' := After(s, a);
    forall id | id in s'.known ensures Somewhere(s', id) {
      assert Somewhere(s, id);
      var p :| At(s, p) == Some(id);
      MovesForth(s, a, p);
    }
    forall q | At(s', q).Some? ensures At(s', q).value in s'.known { CameBack(s, a, q); }
    forall p, q | At(s', p).Some? && At(s', p) == At(s', q) ensures p == q {
      CameBack(s, a, p);
      CameBack(s, a, q);
    }
  }

  /** Every queue holds only tasks of its band, and so does the hand of a worker with a periodic task. */
  ghost predicate AllBanded(s: Sys) {
    && (forall w :: w in s.workers ==> Banded(s.workers[w]))
    && (forall w :: w in s.hands && s.hands[w].1.Some? ==>
          s.hands[w].1.value < BANDS && Fits(s.hands[w].1.value, s.hands[w].0))
  }

  lemma ReturnedBanded(q: Queues, t: Task, i: nat)
    requires Banded(q) && i < BANDS && Fits(i, t)
    ensures Banded(Returned(q, t, i))
  {
  }

  lemma StepKeepsBands(s: Sys, a: Action)
    requires AllBanded(s) && Enabled(s, a)
    ensures AllBanded(After(s, a))
  {
    match a
    case Park(w, t, now) => ParkedBanded(s.workers[w], t, now);
    case Migrate(src, dst, now) => JoinedBanded(s.workers[dst], s.workers[src], now);
    case PopBlocked(w, i) => PoppedBanded(s.workers[w], i);
    case PopPeriodic(w, i) => PoppedBanded(s.workers[w], i);
    case Return(w) => ReturnedBanded(s.workers[w], s.hands[w].0, s.hands[w].1.value);
    case _ =>
  }

  ghost predicate Run(s: Sys, acts: seq<Action>)
    decreases |acts|
  {
    acts == [] || (Enabled(s, acts[0]) && Run(After(s, acts[0]), acts[1..]))
  }

  ghost function Final(s: Sys, acts: seq<Action>): Sys
    decreases |acts|
  {
    if acts == [] || !Enabled(s, acts[0]) then s else Final(After(s, acts[0]), acts[1..])
  }

  function Fresh(workers: set<nat>): Sys { Sys(map w | w in workers :: NO_TASKS, map[], {}, {}) }

  lemma FreshOk(workers: set<nat>)
    ensures Exact(Fresh(workers)) && AllBanded(Fresh(workers))
  {
  }

  /**
   * Over every interleaving of parking, processing and migrating, each task is at exactly one
   * place (one position of one queue of one worker, one worker's hand, or not parked), and every
   * parked task is in the band its yield count or yield time selects.
   */
  lemma {:induction false} ParkedConserved(s: Sys, acts: seq<Action>)
    requires Exact(s) && AllBanded(s) && Run(s, acts)
    ensures Exact(Final(s, acts)) && AllBanded(Final(s, acts))
    decreases |acts|
  {
    if acts != [] {
      StepKeepsBands(s, acts[0]);
      if acts[0].Enter? { EnterKeepsExact(s, acts[0].id); } else { MoveKeepsExact(s, acts[0]); }
      ParkedConserved(After(s, acts[0]), acts[1..]);
    }
  }

  /** So two different places never hold the same task, starting from empty queues. */
  lemma NeverTwoPlaces(workers: set<nat>, acts: seq<Action>, p: Place, q: Place)
    requires Run(Fresh(workers), acts) && p != q && At(Final(Fresh(workers), acts), p).Some?
    ensures At(Final(Fresh(workers), acts), p) != At(Final(Fresh(workers), acts), q)
  {
    FreshOk(workers);
    ParkedConserved(Fresh(workers), acts);
  }
}

/**
 * Merged tasks of all workers over time: emitting and completing interleave freely on the
 * process-wide registry. Its keys repeat after 2^32 merged tasks.
 */
module MergeHistory {
  import opened Words
  import opened Merge

  /**
   * `merges` lists the parents of every merged task emitted by any worker, in the order of their numbers;
   * `codes` the status of those that completed; `ended` the tasks ended so, and `from` which
   * completion, and which parent in its list, each of them came from.
   */
  datatype History = History(r: Registry, merges: seq<seq<Task>>, codes: map<nat, Status>, ended: seq<(Task, Status)>,
                             from: seq<(nat, nat)>)

  const START := History(NO_MERGES, [], map[], [], [])

  datatype Step = Emits(parents: seq<Task>) | Completes(n: nat, st: Status)

  /** The key of the n-th merged task. */
  function KeyOf(n: nat): u32 { n % U32 }

  function NumberOf(n: nat): u64 { (FIRST_NUMBER + n) % U64 }

  lemma KeyOfNumber(n: nat)
    ensures Key(NumberOf(n)) == KeyOf(n)
  {
  }

  lemma NextNumber(n: nat)
    ensures (NumberOf(n) + 1) % U64 == NumberOf(n + 1)
  {
  }

  /** A merged task completes once. */
  predicate Enabled(h: History, a: Step) {
    a.Completes? ==> UnderWay(h, a.n)
  }

  predicate UnderWay(h: History, n: nat) { n < |h.merges| && n !in h.codes }

  function After(h: History, a: Step): History
    requires Enabled(h, a)
  {
    match a
    case Emits(parents) => h.(r := Emitted(h.r, Emit(false, parents)).0, merges := h.merges + [parents])
    case Completes(n, st) =>
      var es := Endings(h.r, KeyOf(n), st);
      h.(r := h.r.(pending := h.r.pending - {KeyOf(n)}), codes := h.codes[n := st], ended := h.ended + es,
         from := h.from + seq(|es|, i => (n, i)))
  }

  ghost predicate Run(h: History, steps: seq<Step>)
    decreases |steps|
  {
    steps == [] || (Enabled(h, steps[0]) && Run(After(h, steps[0]), steps[1..]))
  }

  ghost function Final(h: History, steps: seq<Step>): History
    decreases |steps|
  {
    if steps == [] || !Enabled(h, steps[0]) then h else Final(After(h, steps[0]), steps[1..])
  }

  // ---------------------------------------------------------------- who holds which entry

  /** Completing merged task `n` now would end exactly its own parents. */
  ghost predicate Ready(h: History, n: nat)
    requires n < |h.merges|
  {
    if h.merges[n] == [] then KeyOf(n) !in h.r.pending
    else KeyOf(n) in h.r.pending && h.r.pending[KeyOf(n)] == h.merges[n]
  }

  ghost predicate Holder(h: History, n: nat, key: u32) { UnderWay(h, n) && KeyOf(n) == key && h.merges[n] != [] }

  ghost predicate Held(h: History, key: u32) { exists n :: Holder(h, n, key) }

  /** Two merged tasks under way share a key only if neither has parents. */
  ghost predicate KeysApart(h: History) {
    forall m: nat, n: nat :: UnderWay(h, m) && UnderWay(h, n) && m != n && KeyOf(m) == KeyOf(n) ==>
      h.merges[m] == [] && h.merges[n] == []
  }

  /** The registry holds the parents of exactly the merged tasks under way. */
  ghost predicate RegistryOk(h: History) {
    && h.r.next == NumberOf(|h.merges|) && KeysApart(h)
    && (forall n :: n in h.codes ==> n < |h.merges|)
    && (forall n :: UnderWay(h, n) ==> Ready(h, n))
    && (forall key :: key in h.r.pending ==> Held(h, key))
  }

  /** Nobody under way has the key of the next merged task, unless neither of the two has parents. */
  ghost predicate Apart(h: History, parents: seq<Task>) {
    forall m: nat :: UnderWay(h, m) && KeyOf(m) == KeyOf(|h.merges|) ==> h.merges[m] == [] && parents == []
  }

  ghost predicate Careful(h: History, a: Step) { a.Emits? ==> Apart(h, a.parents) }

  ghost predicate CarefulRun(h: History, steps: seq<Step>)
    decreases |steps|
  {
    steps == [] || (Enabled(h, steps[0]) && Careful(h, steps[0]) && CarefulRun(After(h, steps[0]), steps[1..]))
  }

  lemma EmittedIs(h: History, parents: seq<Task>)
    requires h.r.next == NumberOf(|h.merges|)
    ensures
      var h' := After(h, Emits(parents));
      && h'.r.next == NumberOf(|h'.merges|) && h'.merges == h.merges + [parents] && h'.codes == h.codes
      && h'.r.pending == if parents == [] then h.r.pending else h.r.pending[KeyOf(|h.merges|) := parents]
  {
    KeyOfNumber(|h.merges|);
    NextNumber(|h.merges|);
  }

  /** Nobody under way has the next key: then its entry is free. */
  lemma NextKeyFree(h: History, parents: seq<Task>)
    requires RegistryOk(h) && Apart(h, parents)
    ensures KeyOf(|h.merges|) !in h.r.pending
  {
    forall n: nat ensures !Holder(h, n, KeyOf(|h.merges|)) {}
    assert !Held(h, KeyOf(|h.merges|));
  }

  lemma EmitKeepsReady(h: History, parents: seq<Task>, n: nat)
    requires RegistryOk(h) && Apart(h, parents) && UnderWay(After(h, Emits(parents)), n)
    ensures Ready(After(h, Emits(parents)), n)
  {
    EmittedIs(h, parents);
    NextKeyFree(h, parents);
    if n < |h.merges| { assert UnderWay(h, n) && Ready(h, n); }
  }

  lemma EmitKeepsHeld(h: History, parents: seq<Task>, key: u32)
    requires RegistryOk(h) && key in After(h, Emits(parents)).r.pending
    ensures Held(After(h, Emits(parents)), key)
  {
    var h' := After(h, Emits(parents));
    EmittedIs(h, parents);
    if key in h.r.pending {
      assert Held(h, key);
      var n :| Holder(h, n, key);
      assert Holder(h', n, key);
    } else {
      assert Holder(h', |h.merges|, key);
    }
  }

  lemma EmitKeepsApart(h: History, parents: seq<Task>)
    requires KeysApart(h) && Apart(h, parents) && forall n :: n in h.codes ==> n < |h.merges|
    ensures KeysApart(After(h, Emits(parents)))
  {
    var h' := After(h, Emits(parents));
    forall m: nat, n: nat | UnderWay(h', m) && UnderWay(h', n) && m != n && KeyOf(m) == KeyOf(n)
      ensures h'.merges[m] == [] && h'.merges[n] == []
    {
      assert m < |h.merges| ==> UnderWay(h, m);
      assert n < |h.merges| ==> UnderWay(h, n);
    }
  }

  lemma EmitKeepsRegistry(h: History, parents: seq<Task>)
    requires RegistryOk(h) && Apart(h, parents)
    ensures RegistryOk(After(h, Emits(parents)))
  {
    var h' := After(h, Emits(parents));
    EmittedIs(h, parents);
    EmitKeepsApart(h, parents);
    forall n | UnderWay(h', n) ensures Ready(h', n) { EmitKeepsReady(h, parents, n); }
    forall key | key in h'.r.pending ensures Held(h', key) { EmitKeepsHeld(h, parents, key); }
  }

  lemma CompleteKeepsRegistry(h: History, n: nat, st: Status)
    requires RegistryOk(h) && UnderWay(h, n)
    ensures RegistryOk(After(h, Completes(n, st)))
  {
    var h' := After(h, Completes(n, st));
    forall m | UnderWay(h', m) ensures Ready(h', m) { assert UnderWay(h, m) && Ready(h, m) && Ready(h, n); }
    forall key | key in h'.r.pending ensures Held(h', key) {
      assert Held(h, key);
      var m :| Holder(h, m, key);
      assert Holder(h', m, key);
    }
  }

  /**
   * Emitting is safe exactly when no merged task under way has the key: otherwise completing one of
   * the two, next, ends tasks that are not its own or misses those that are. (A list of parents is not
   * emitted twice.)
   */
  lemma EmitSafeIff(h: History, parents: seq<Task>)
    requires RegistryOk(h) && forall m: nat :: UnderWay(h, m) && h.merges[m] == parents ==> parents == []
    ensures
      var h' := After(h, Emits(parents));
      (forall n :: UnderWay(h', n) ==> Ready(h', n)) <==> Apart(h, parents)
  {
    var h' := After(h, Emits(parents));
    var k := |h.merges|;
    EmittedIs(h, parents);
    if Apart(h, parents) {
      forall n | UnderWay(h', n) ensures Ready(h', n) { EmitKeepsReady(h, parents, n); }
    } else {
      var m: nat :| UnderWay(h, m) && KeyOf(m) == KeyOf(k) && !(h.merges[m] == [] && parents == []);
      assert Ready(h, m) && UnderWay(h', m) && UnderWay(h', k);
      assert !Ready(h', m) || !Ready(h', k);
    }
  }

  // -------------------------------------------------------------------- who has been ended

  /** Each parent of each completed merged task has been ended, once, with its status, and nobody else. */
  ghost predicate EndedOk(h: History) {
    && |h.from| == |h.ended|
    && (forall e :: 0 <= e < |h.ended| ==> EndedAs(h, e))
    && (forall e, f :: 0 <= e < f < |h.from| ==> h.from[e] != h.from[f])
    && (forall n, i :: n in h.codes && n < |h.merges| && 0 <= i < |h.merges[n]| ==> (n, i) in h.from)
  }

  ghost predicate EndedAs(h: History, e: nat)
    requires e < |h.ended| == |h.from|
  {
    var (n, i) := h.from[e];
    n in h.codes && n < |h.merges| && i < |h.merges[n]| && h.ended[e] == (h.merges[n][i], h.codes[n])
  }

  lemma CompleteKeepsEnded(h: History, n: nat, st: Status)
    requires RegistryOk(h) && EndedOk(h) && UnderWay(h, n)
    ensures EndedOk(After(h, Completes(n, st)))
  {
    var h' := After(h, Completes(n, st));
    var es := Endings(h.r, KeyOf(n), st);
    assert Ready(h, n);
    assert |es| == |h.merges[n]|;
    forall e | 0 <= e < |h'.ended| ensures EndedAs(h', e) {
      if e < |h.ended| { assert EndedAs(h, e) && h'.from[e] == h.from[e]; }
      else { assert h'.from[e] == (n, e - |h.ended|); }
    }
    forall e, f | 0 <= e < f < |h'.from| ensures h'.from[e] != h'.from[f] {
      if e < |h.from| { assert EndedAs(h, e); }
    }
    forall m, i | m in h'.codes && m < |h'.merges| && 0 <= i < |h'.merges[m]| ensures (m, i) in h'.from {
      if m == n { assert h'.from[|h.from| + i] == (n, i); } else { assert (m, i) in h.from; }
    }
  }

  lemma EmitKeepsEnded(h: History, parents: seq<Task>)
    requires RegistryOk(h) && EndedOk(h)
    ensures EndedOk(After(h, Emits(parents)))
  {
    var h' := After(h, Emits(parents));
    forall e | 0 <= e < |h'.ended| ensures EndedAs(h', e) { assert EndedAs(h, e); }
  }

  /**
   * In every interleaving of emitting and completing in which no key is given out while another merged
   * task under way holds it, each parent of a completed merged task has been ended once, with
   * the status of that task, and nobody else has.
   */
  lemma {:induction false} ParentsEndOnce(h: History, steps: seq<Step>)
    requires RegistryOk(h) && EndedOk(h) && CarefulRun(h, steps)
    ensures RegistryOk(Final(h, steps)) && EndedOk(Final(h, steps))
    decreases |steps|
  {
    if steps != [] {
      match steps[0] {
        case Emits(parents) =>
          EmitKeepsRegistry(h, parents);
          EmitKeepsEnded(h, parents);
        case Completes(n, st) =>
          CompleteKeepsRegistry(h, n, st);
          CompleteKeepsEnded(h, n, st);
      }
      ParentsEndOnce(After(h, steps[0]), steps[1..]);
    }
  }

  lemma StartOk()
    ensures RegistryOk(START) && EndedOk(START)
  {
  }

  lemma SmallKey(n: nat)
    requires n < U32
    ensures KeyOf(n) == n
  {
  }

  /** Keys do not repeat among the first 2^32 merged tasks. */
  lemma {:induction false} CarefulUntilWrap(h: History, steps: seq<Step>)
    requires Run(h, steps) && |h.merges| + |steps| <= U32
    ensures CarefulRun(h, steps)
    decreases |steps|
  {
    if steps != [] {
      if steps[0].Emits? {
        forall m: nat | UnderWay(h, m) ensures KeyOf(m) != KeyOf(|h.merges|) {
          SmallKey(m);
          SmallKey(|h.merges|);
        }
      }
      CarefulUntilWrap(After(h, steps[0]), steps[1..]);
    }
  }

  /** So the first 2^32 steps of a process are right in any order. */
  lemma ParentsEndOnceUntilWrap(steps: seq<Step>)
    requires Run(START, steps) && |steps| <= U32
    ensures RegistryOk(Final(START, steps)) && EndedOk(Final(START, steps))
  {
    StartOk();
    CarefulUntilWrap(START, steps);
    ParentsEndOnce(START, steps);
  }

  // ------------------------------------------------------------------------- a repeated key

  function Idle(n: nat): seq<Step> { seq(n, _ => Emits([])) }

  /** Merged tasks without parents leave the registry as it is. */
  lemma {:induction false} IdleRun(h: History, n: nat)
    requires h.r.next == NumberOf(|h.merges|)
    ensures Run(h, Idle(n))
    ensures
      var t := Final(h, Idle(n));
      && t.r.pending == h.r.pending && t.r.next == NumberOf(|t.merges|) && |t.merges| == |h.merges| + n
      && h.merges <= t.merges && t.codes == h.codes && t.ended == h.ended && t.from == h.from
    decreases n
  {
    if n > 0 {
      EmittedIs(h, []);
      assert Idle(n)[0] == Emits([]) && Idle(n)[1..] == Idle(n - 1);
      IdleRun(After(h, Emits([])), n - 1);
    }
  }

  lemma {:induction false} RunJoin(h: History, a: seq<Step>, b: seq<Step>)
    requires Run(h, a) && Run(Final(h, a), b)
    ensures Run(h, a + b) && Final(h, a + b) == Final(Final(h, a), b)
    decreases |a|
  {
    if a == [] {
      assert a + b == b;
    } else {
      assert (a + b)[0] == a[0] && (a + b)[1..] == a[1..] + b;
      RunJoin(After(h, a[0]), a[1..], b);
    }
  }

  lemma OneStep(h: History, a: Step)
    requires Enabled(h, a)
    ensures Run(h, [a]) && Final(h, [a]) == After(h, a)
  {
    assert [a][1..] == [];
    assert Run(After(h, a), []) && Final(After(h, a), []) == After(h, a);
  }

  /** `t` is under way and will never be ended; `u` has been ended by a merged task it was not handed to. */
  ghost predicate Mixed(h: History, t: Task, u: Task, st: Status) {
    && h.ended == [(u, st)] && |h.merges| == U32 + 1 && h.merges[0] == [t] && h.merges[U32] == [u]
    && h.codes == map[0 := st] && h.r.pending == map[]
  }

  /**
   * The collision: the first merged task has parent `t` and is still under way when number 2^32 is
   * emitted for `u`. Completing the first ends `u`; nothing is left that could end `t`.
   */
  lemma CollidingRun(t: Task, u: Task, st: Status) returns (steps: seq<Step>)
    ensures Run(START, steps) && Mixed(Final(START, steps), t, u, st)
  {
    OneStep(START, Emits([t]));
    EmittedIs(START, [t]);
    var h1 := After(START, Emits([t]));
    IdleRun(h1, U32 - 1);
    RunJoin(START, [Emits([t])], Idle(U32 - 1));
    steps := [Emits([t])] + Idle(U32 - 1);
    var h2 := Final(h1, Idle(U32 - 1));
    assert h2.merges[0] == h1.merges[0];
    EmittedIs(h2, [u]);
    OneStep(h2, Emits([u]));
    RunJoin(START, steps, [Emits([u])]);
    steps := steps + [Emits([u])];
    var h3 := After(h2, Emits([u]));
    OneStep(h3, Completes(0, st));
    RunJoin(START, steps, [Completes(0, st)]);
    steps := steps + [Completes(0, st)];
  }

  // --------------------------------------------------------- where the parents come from

  function Flat(ms: seq<seq<Task>>): seq<Task>
    decreases |ms|
  {
    if ms == [] then [] else Flat(ms[..|ms| - 1]) + ms[|ms| - 1]
  }

  /** The lists of parents a drain emits, in order. */
  function MergesOf(log: seq<Event>): seq<seq<Task>>
    decreases |log|
  {
    if log == [] then []
    else MergesOf(log[..|log| - 1]) + if log[|log| - 1].Merged? then [log[|log| - 1].parents] else []
  }

  lemma {:induction false} MergesLogged(log: seq<Event>)
    ensures multiset(Flat(MergesOf(log))) <= multiset(Logged(log))
    decreases |log|
  {
    if log != [] {
      var n := |log| - 1;
      var front := MergesOf(log[..n]);
      MergesLogged(log[..n]);
      Concat(Logged(log[..n]), Subjects(log[n]));
      if log[n].Merged? {
        assert MergesOf(log)[..|front|] == front;
        Concat(Flat(front), log[n].parents);
      } else {
        assert front + [] == front;
      }
    }
  }

  /** One drain of one worker: what it popped, under which policy, from which registry on. */
  datatype Drain = Drain(lane: seq<Arrival>, policy: Policy, hosted: nat -> bool, stamp: nat, r: Registry)

  function MergedBy(d: Drain): seq<Task> { Flat(MergesOf(Batched(d.lane, d.policy, d.hosted, d.stamp, d.r).0)) }

  function AllMerged(ds: seq<Drain>): seq<Task>
    decreases |ds|
  {
    if ds == [] then [] else AllMerged(ds[..|ds| - 1]) + MergedBy(ds[|ds| - 1])
  }

  function AllPopped(ds: seq<Drain>): seq<Task>
    decreases |ds|
  {
    if ds == [] then [] else AllPopped(ds[..|ds| - 1]) + AllArrived(ds[|ds| - 1].lane)
  }

  lemma {:induction false} MergedWasPopped(ds: seq<Drain>)
    requires forall i :: 0 <= i < |ds| ==> Proper(ds[i].policy)
    ensures multiset(AllMerged(ds)) <= multiset(AllPopped(ds))
    decreases |ds|
  {
    if ds != [] {
      var n := |ds| - 1;
      var d := ds[n];
      MergedWasPopped(ds[..n]);
      EachPoppedOnce(d.lane, d.policy, d.hosted, d.stamp, d.r);
      MergesLogged(Batched(d.lane, d.policy, d.hosted, d.stamp, d.r).0);
      Concat(AllMerged(ds[..n]), MergedBy(d));
      Concat(AllPopped(ds[..n]), AllArrived(d.lane));
    }
  }

  ghost predicate NoRepeat(ts: seq<Task>) { forall i, j :: 0 <= i < j < |ts| ==> ts[i] != ts[j] }

  lemma {:induction false} CountedOnce(ts: seq<Task>, t: Task)
    requires NoRepeat(ts)
    ensures multiset(ts)[t] <= 1
    decreases |ts|
  {
    if ts != [] {
      var n := |ts| - 1;
      CountedOnce(ts[..n], t);
      LastTask(ts);
      if ts[n] == t { assert t !in ts[..n]; assert t !in multiset(ts[..n]); }
    }
  }

  lemma CountedTwice(ts: seq<Task>, i: nat, j: nat)
    requires i < j < |ts| && ts[i] == ts[j]
    ensures multiset(ts)[ts[i]] >= 2
  {
    Concat(ts[..j], ts[j..]);
    assert ts == ts[..j] + ts[j..] && ts[..j][i] == ts[i] && ts[j..][0] == ts[j];
    assert ts[i] in multiset(ts[..j]) && ts[i] in multiset(ts[j..]);
  }

  lemma {:induction false} InFlat(ms: seq<seq<Task>>, m: nat, i: nat)
    requires m < |ms| && i < |ms[m]|
    ensures ms[m][i] in Flat(ms)
    decreases |ms|
  {
    if m < |ms| - 1 { InFlat(ms[..|ms| - 1], m, i); }
  }

  lemma {:induction false} FlatTwice(ms: seq<seq<Task>>, m: nat, i: nat, n: nat, j: nat)
    requires m <= n < |ms| && i < |ms[m]| && j < |ms[n]| && ms[m][i] == ms[n][j] && (m < n || i < j)
    ensures multiset(Flat(ms))[ms[m][i]] >= 2
    decreases |ms|
  {
    var l := |ms| - 1;
    var t := ms[m][i];
    Concat(Flat(ms[..l]), ms[l]);
    if n < l {
      FlatTwice(ms[..l], m, i, n, j);
    } else if m == l {
      CountedTwice(ms[l], i, j);
    } else {
      InFlat(ms[..l], m, i);
      assert t in multiset(Flat(ms[..l])) && t in multiset(ms[l]);
    }
  }

  /** No task was handed to two merged tasks, or twice to one. */
  ghost predicate ParentsDistinct(merges: seq<seq<Task>>) {
    forall m, i, n, j ::
      (&& 0 <= m <= n < |merges| && 0 <= i < |merges[m]| && 0 <= j < |merges[n]| && merges[m][i] == merges[n][j]
       && (m < n || i <= j))
      ==> m == n && i == j
  }

  /** Merged tasks emitted by drains of different tasks have different parents, in whatever order they were emitted. */
  lemma {:induction false} DrainsMergeDistinct(ds: seq<Drain>, merges: seq<seq<Task>>)
    requires (forall i :: 0 <= i < |ds| ==> Proper(ds[i].policy)) && NoRepeat(AllPopped(ds))
    requires multiset(Flat(merges)) <= multiset(AllMerged(ds))
    ensures ParentsDistinct(merges)
  {
    MergedWasPopped(ds);
    forall m, i, n, j | && 0 <= m <= n < |merges| && 0 <= i < |merges[m]| && 0 <= j < |merges[n]|
                        && merges[m][i] == merges[n][j] && (m < n || i <= j)
      ensures m == n && i == j
    {
      if m < n || i < j {
        FlatTwice(merges, m, i, n, j);
        CountedOnce(AllPopped(ds), merges[m][i]);
        assert false;
      }
    }
  }

  /** So no task popped by these drains is ended twice by their merged tasks. */
  lemma {:induction false} NoTaskEndsTwice(ds: seq<Drain>, steps: seq<Step>, e: nat, f: nat)
    requires (forall i :: 0 <= i < |ds| ==> Proper(ds[i].policy)) && NoRepeat(AllPopped(ds))
    requires CarefulRun(START, steps) && multiset(Flat(Final(START, steps).merges)) <= multiset(AllMerged(ds))
    requires e < f < |Final(START, steps).ended|
    ensures Final(START, steps).ended[e].0 != Final(START, steps).ended[f].0
  {
    StartOk();
    ParentsEndOnce(START, steps);
    var h := Final(START, steps);
    DrainsMergeDistinct(ds, h.merges);
    assert EndedAs(h, e) && EndedAs(h, f);
    assert h.from[e] != h.from[f];
  }
}

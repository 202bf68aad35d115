/**
 * Progress of the await machine: from any state of a careful run, a suspended parent
 * can be resumed if and only if the chain of awaits below it ends in a task that is
 * still running or queued.
 */
module AwaitProgress {
  import opened Words
  import opened Await

  // ------------------------------------------------------------------ chains of awaits

  /** The subtask that `x` waits for, or is about to. */
  function Next(ts: Tasks, rs: Runs, x: Id): Option<Id>
    requires x in ts
  {
    var l := ts[x].loc;
    if l.Suspended? then Some(l.on)
    else if l.OnCpu? && l.w in rs && !rs[l.w].phase.Free? then Some(rs[l.w].phase.c)
    else None
  }

  /** In no queue, on no worker, and waiting for nothing. */
  predicate Gone(l: Loc) { l.Ended? || l.Lost? || l.Stalled? }

  /** The chain of awaits from `x` ends in a task that is queued or running. */
  ghost predicate Alive(ts: Tasks, rs: Runs, x: Id)
    requires x in ts
    decreases |ts| - ts[x].born
  {
    && !Gone(ts[x].loc)
    && (Next(ts, rs, x).Some? ==>
          var d := Next(ts, rs, x).value;
          d in ts && ts[x].born < ts[d].born < |ts| && Alive(ts, rs, d))
  }

  lemma NextIsYounger(s: State, x: Id)
    requires Inv(s) && x in s.tasks && Next(s.tasks, s.running, x).Some?
    ensures
      var d := Next(s.tasks, s.running, x).value;
      && d in s.tasks && s.tasks[x].born < s.tasks[d].born < |s.tasks|
      && s.tasks[d].parent == Some(x) && !s.tasks[d].fireAndForget
  {
    assert TaskOk(s.tasks, s.running, x);
    if s.tasks[x].loc.OnCpu? { assert RunOk(s.tasks, s.running, s.tasks[x].loc.w); }
    assert TaskOk(s.tasks, s.running, Next(s.tasks, s.running, x).value);
  }

  // -------------------------------------------------------------- a dead chain stays dead

  lemma NextStays(s: State, a: Action, x: Id)
    requires Inv(s) && Enabled(s, a) && Careful(s, a) && x in s.tasks && Next(s.tasks, s.running, x).Some?
    requires a != PopEvent(a.w, Next(s.tasks, s.running, x).value)
    ensures x in After(s, a).tasks
    ensures Next(After(s, a).tasks, After(s, a).running, x) == Next(s.tasks, s.running, x)
  {
    assert TaskOk(s.tasks, s.running, x);
    if s.tasks[x].loc.Suspended? {
      OnlyItsEventWakes(s, a, x);
    } else {
      BusyStays(s, a, x);
    }
  }

  /** A task in the middle of an await only goes on with it. */
  lemma BusyStays(s: State, a: Action, x: Id)
    requires Inv(s) && Enabled(s, a) && Careful(s, a) && x in s.tasks && s.tasks[x].loc.OnCpu?
    requires Next(s.tasks, s.running, x).Some?
    ensures x in After(s, a).tasks
    ensures Next(After(s, a).tasks, After(s, a).running, x) == Next(s.tasks, s.running, x)
  {
    assert TaskOk(s.tasks, s.running, x);
    var v := s.tasks[x].loc.w;
    assert RunOk(s.tasks, s.running, v);
    if a.w in s.running { assert RunOk(s.tasks, s.running, a.w); }
    if x in Touched(s, a) {
      OnCpuTouched(s, a, x);
      assert a.AwaitRecord? || a.AwaitSuspend?;
    } else {
      OthersUntouched(s, a, x);
      WorkersUntouched(s, a, v);
    }
  }

  lemma OnCpuTouched(s: State, a: Action, x: Id)
    requires Inv(s) && Enabled(s, a) && x in s.tasks && x in Touched(s, a) && s.tasks[x].loc.OnCpu?
    ensures s.tasks[x].loc.w == a.w && a.w in s.running && s.running[a.w].task == x
  {
    if a.w in s.running { assert RunOk(s.tasks, s.running, a.w); }
    if a.PopEvent? { EventFacts(s, a.w, a.c); }
  }

  lemma EventKeepsWorkers(s: State, w: W, c: Id, v: W)
    requires Inv(s) && Queued(s, s.events, w, c) && v in s.running
    ensures v in Delivered(s, w, c).running && Delivered(s, w, c).running[v] == s.running[v]
  {
    if WaitsFor(s, c) { ResumeCommutes(s, w, c); } else { DeliveredTells(s, w, c); }
  }

  lemma EndingFrees(s: State, w: W)
    requires Running(s, w)
    ensures Ending(s, w).running == s.running - {w}
    ensures
      var y := s.running[w].task;
      exists t :: Ending(s, w).tasks == s.tasks[y := t] && SameTask(t, s.tasks[y])
  {
    var y := s.running[w].task;
    var t := Ending(s, w).tasks[y];
    assert Ending(s, w).tasks == s.tasks[y := t] && SameTask(t, s.tasks[y]);
  }

  lemma StepKeepsWorkers(s: State, a: Action, v: W)
    requires Enabled(s, a) && v in s.running && (v != a.w || !s.running[v].phase.Free?) && !a.PopEvent? && !a.Finish?
    requires s.running[v].task !in Touched(s, a)
    ensures v in After(s, a).running && After(s, a).running[v] == s.running[v]
  {
    if v == a.w { assert !Idle(s, v) && !Freely(s, v); }
  }

  lemma WorkersUntouched(s: State, a: Action, v: W)
    requires Inv(s) && Enabled(s, a) && v in s.running && (v != a.w || !s.running[v].phase.Free?)
    requires s.running[v].task !in Touched(s, a)
    ensures v in After(s, a).running && After(s, a).running[v] == s.running[v]
  {
    if a.PopEvent? { EventKeepsWorkers(s, a.w, a.c, v); }
    else if a.Finish? { EndingFrees(s, a.w); }
    else { StepKeepsWorkers(s, a, v); }
  }

  lemma {:induction false} DeadStaysDead(s: State, a: Action, x: Id)
    requires Inv(s) && Enabled(s, a) && Careful(s, a) && x in s.tasks && !Alive(s.tasks, s.running, x)
    ensures x in After(s, a).tasks && !Alive(After(s, a).tasks, After(s, a).running, x)
    decreases |s.tasks| - s.tasks[x].born
  {
    if Gone(s.tasks[x].loc) {
      if x in Touched(s, a) { TouchedAre(s, a, x); }
      OthersUntouched(s, a, x);
    } else {
      NextIsYounger(s, x);
      var d := Next(s.tasks, s.running, x).value;
      if a == PopEvent(a.w, d) { EventFacts(s, a.w, d); }
      DeadStaysDead(s, a, d);
      NextStays(s, a, x);
    }
  }

  lemma SleeperStays(s: State, a: Action, p: Id)
    requires Inv(s) && Enabled(s, a) && Careful(s, a) && Sleeps(s, p) && !Alive(s.tasks, s.running, p)
    ensures p in After(s, a).tasks && After(s, a).tasks[p] == s.tasks[p]
  {
    var d := s.tasks[p].loc.on;
    NextIsYounger(s, p);
    if a == PopEvent(a.w, d) { EventFacts(s, a.w, d); }
    OnlyItsEventWakes(s, a, p);
  }

  /** A parent whose chain of awaits is dead is never resumed. */
  lemma {:induction false} StrandedForever(s: State, acts: seq<Action>, p: Id)
    requires Inv(s) && CarefulRun(s, acts) && Sleeps(s, p) && !Alive(s.tasks, s.running, p)
    ensures p in Final(s, acts).tasks && Final(s, acts).tasks[p] == s.tasks[p]
    decreases |acts|
  {
    if acts != [] {
      SleeperStays(s, acts[0], p);
      DeadStaysDead(s, acts[0], p);
      StepKeepsInv(s, acts[0]);
      StrandedForever(After(s, acts[0]), acts[1..], p);
    }
  }

  // ------------------------------------------------------------------------------ runs

  ghost predicate Run(s: State, acts: seq<Action>, t: State) { CarefulRun(s, acts) && Final(s, acts) == t }

  ghost predicate Reach(s: State, t: State) { exists acts :: Run(s, acts, t) }

  lemma Stay(s: State)
    ensures Reach(s, s)
  {
    assert Run(s, [], s);
  }

  lemma {:induction false} RunJoin(s: State, a: seq<Action>, m: State, b: seq<Action>, t: State)
    requires Run(s, a, m) && Run(m, b, t)
    ensures Run(s, a + b, t)
    decreases |a|
  {
    if a == [] {
      assert a + b == b;
    } else {
      assert (a + b)[0] == a[0] && (a + b)[1..] == a[1..] + b;
      RunJoin(After(s, a[0]), a[1..], m, b, t);
    }
  }

  lemma Then(s: State, m: State, t: State)
    requires Reach(s, m) && Reach(m, t)
    ensures Reach(s, t)
  {
    var a :| Run(s, a, m);
    var b :| Run(m, b, t);
    RunJoin(s, a, m, b, t);
  }

  lemma Go(s: State, a: Action)
    requires Inv(s) && Enabled(s, a) && Careful(s, a)
    ensures Reach(s, After(s, a)) && Inv(After(s, a))
  {
    StepKeepsInv(s, a);
    assert [a][1..] == [];
    assert CarefulRun(After(s, a), []) && Final(After(s, a), []) == After(s, a);
    assert Run(s, [a], After(s, a));
  }

  lemma Next1(s: State, m: State, a: Action)
    requires Reach(s, m) && Inv(m) && Enabled(m, a) && Careful(m, a)
    ensures Reach(s, After(m, a)) && Inv(After(m, a))
  {
    Go(m, a);
    Then(s, m, After(m, a));
  }

  predicate SameTask(t: Task, u: Task) {
    t.born == u.born && t.parent == u.parent && t.fireAndForget == u.fireAndForget
  }

  /** The same tasks; those created before `b` and not executing are as they were. */
  ghost predicate Kept(s: State, t: State, b: nat) {
    && t.tasks.Keys == s.tasks.Keys
    && (forall z :: z in s.tasks ==> SameTask(t.tasks[z], s.tasks[z]))
    && (forall z :: z in s.tasks && s.tasks[z].born < b && !s.tasks[z].loc.OnCpu? ==> t.tasks[z] == s.tasks[z])
  }

  lemma KeptThen(s: State, m: State, t: State, b: nat)
    requires Kept(s, m, b) && Kept(m, t, b)
    ensures Kept(s, t, b)
  {
    forall z | z in s.tasks ensures SameTask(t.tasks[z], s.tasks[z]) {
      assert SameTask(t.tasks[z], m.tasks[z]);
    }
    forall z | z in s.tasks && s.tasks[z].born < b && !s.tasks[z].loc.OnCpu? ensures t.tasks[z] == s.tasks[z] {
      assert m.tasks[z] == s.tasks[z];
    }
  }

  // ------------------------------------------------------------- making a worker idle

  /** Only the task on `w` has changed, and `w` is idle. */
  ghost predicate Cleared(s: State, t: State, w: W) {
    && Idle(t, w) && t.tasks.Keys == s.tasks.Keys
    && (forall z :: z in s.tasks ==> SameTask(t.tasks[z], s.tasks[z]))
    && (forall z :: z in s.tasks && s.tasks[z].loc != OnCpu(w) ==> t.tasks[z] == s.tasks[z])
    && (forall v :: v !in s.running ==> v !in t.running)
  }

  lemma LeavingClears(s: State, t: State, w: W, u: Task)
    requires Inv(s) && Running(s, w) && t.running == s.running - {w}
    requires t.tasks == s.tasks[s.running[w].task := u] && SameTask(u, s.tasks[s.running[w].task])
    ensures Cleared(s, t, w)
  {
    assert RunOk(s.tasks, s.running, w);
  }

  lemma SuspendRecorded(s: State, w: W)
    requires Inv(s) && Running(s, w) && s.running[w].phase.Recorded?
    ensures
      var t := After(s, AwaitSuspend(w));
      && Reach(s, t) && Inv(t) && Cleared(s, t, w) && t.running == s.running - {w}
      && t.tasks[s.running[w].task].loc == Suspended(s.running[w].phase.c)
  {
    var y := s.running[w].task;
    var t := After(s, AwaitSuspend(w));
    Go(s, AwaitSuspend(w));
    LeavingClears(s, t, w, t.tasks[y]);
  }

  lemma RecordThenSuspend(s: State, w: W) returns (u: Task)
    requires Running(s, w) && s.running[w].phase.Checked?
    ensures
      var y := s.running[w].task;
      var m := RecordDone(s, w);
      && Running(m, w) && m.running[w] == Exec(y, Recorded(s.running[w].phase.c))
      && After(m, AwaitSuspend(w)).running == s.running - {w} && After(m, AwaitSuspend(w)).tasks == s.tasks[y := u]
      && SameTask(u, s.tasks[y]) && u.loc == Suspended(s.running[w].phase.c)
  {
    var m := RecordDone(s, w);
    var t := After(m, AwaitSuspend(w));
    u := t.tasks[s.running[w].task];
    assert t.tasks == s.tasks[s.running[w].task := u];
    assert t.running == s.running - {w};
  }

  lemma SuspendChecked(s: State, w: W) returns (t: State)
    requires Inv(s) && Running(s, w) && s.running[w].phase.Checked?
    ensures Reach(s, t) && Inv(t) && Cleared(s, t, w) && t.running == s.running - {w}
    ensures s.running[w].task in t.tasks && t.tasks[s.running[w].task].loc == Suspended(s.running[w].phase.c)
  {
    var m := RecordDone(s, w);
    var u := RecordThenSuspend(s, w);
    Go(s, AwaitRecord(w));
    Go(m, AwaitSuspend(w));
    t := After(m, AwaitSuspend(w));
    Then(s, m, t);
    LeavingClears(s, t, w, u);
  }

  /** A task in the middle of an await can be brought to sleep. */
  lemma Suspend(s: State, w: W) returns (t: State)
    requires Inv(s) && Running(s, w) && !s.running[w].phase.Free?
    ensures Reach(s, t) && Inv(t) && Cleared(s, t, w) && t.running == s.running - {w}
    ensures s.running[w].task in t.tasks && t.tasks[s.running[w].task].loc == Suspended(s.running[w].phase.c)
  {
    if s.running[w].phase.Checked? {
      t := SuspendChecked(s, w);
    } else {
      SuspendRecorded(s, w);
      t := After(s, AwaitSuspend(w));
    }
  }

  lemma Clear(s: State, w: W) returns (t: State)
    requires Inv(s)
    ensures Reach(s, t) && Inv(t) && Cleared(s, t, w)
  {
    if w !in s.running {
      Stay(s);
      t := s;
    } else {
      assert RunOk(s.tasks, s.running, w);
      if s.running[w].phase.Free? {
        Go(s, Finish(w));
        t := After(s, Finish(w));
        EndingFrees(s, w);
        var u :| t.tasks == s.tasks[s.running[w].task := u] && SameTask(u, s.tasks[s.running[w].task]);
        LeavingClears(s, t, w, u);
      } else {
        t := Suspend(s, w);
      }
    }
  }

  // --------------------------------------------------------------- driving a subtask home

  /** The subtask has finished: its event waits at its parent. */
  ghost predicate Home(s: State, t: State, x: Id)
    requires x in s.tasks
  {
    Reach(s, t) && Inv(t) && Kept(s, t, s.tasks[x].born) && x in t.tasks && t.tasks[x].loc.InEvents?
  }

  ghost predicate Answering(s: State, x: Id) {
    x in s.tasks && s.tasks[x].parent.Some? && !s.tasks[x].fireAndForget
  }

  lemma EndingAnswers(s: State, w: W)
    requires Freely(s, w)
    requires
      var u := s.tasks[s.running[w].task];
      u.parent.Some? && u.parent.value in s.tasks && !u.fireAndForget && !u.periodic
    ensures
      var u := s.tasks[s.running[w].task];
      var u' := u.(coroDone := true, loc := InEvents(s.tasks[u.parent.value].home));
      Ending(s, w).tasks == s.tasks[s.running[w].task := u']
  {
  }

  lemma OneChangedKept(s: State, t: State, x: Id, u: Task)
    requires x in s.tasks && t.tasks == s.tasks[x := u] && SameTask(u, s.tasks[x])
    ensures Kept(s, t, s.tasks[x].born)
  {
  }

  lemma FinishRunning(s: State, x: Id, w: W) returns (t: State)
    requires Inv(s) && Answering(s, x) && w in s.running && s.running[w] == Exec(x, Free)
    ensures Home(s, t, x)
  {
    assert TaskOk(s.tasks, s.running, x);
    t := After(s, Finish(w));
    EndingAnswers(s, w);
    OneChangedKept(s, t, x, t.tasks[x]);
    Go(s, Finish(w));
  }

  lemma ClearedKeeps(s: State, t: State, w: W, b: nat)
    requires Cleared(s, t, w)
    ensures Kept(s, t, b)
  {
  }

  /** A step that puts `x` on its worker: what it leaves alone, and where `x` is then. */
  ghost predicate Starts(m: State, a: Action, x: Id) {
    && x in m.tasks && Enabled(m, a) && Careful(m, a) && Kept(m, After(m, a), m.tasks[x].born)
    && a.w in After(m, a).running && After(m, a).running[a.w] == Exec(x, Free)
    && x in After(m, a).tasks && After(m, a).tasks[x].parent == m.tasks[x].parent
    && After(m, a).tasks[x].fireAndForget == m.tasks[x].fireAndForget
  }

  lemma LaneStarts(m: State, w: W, x: Id)
    requires Holds(m.lane, m.tasks, Lanes) && Idle(m, w) && x in m.tasks && m.tasks[x].loc == InLane(w)
    requires m.tasks[x].home == w || Settled(m.tasks, x)
    ensures Starts(m, PopLane(w, x), x)
  {
    assert m.lane[(w, x)] == 1;
    LaneTakenKept(m, w, x);
  }

  lemma LaneTakenKept(m: State, w: W, x: Id)
    requires x in m.tasks && Idle(m, w)
    ensures
      var t := LaneTaken(m, w, x);
      && Kept(m, t, m.tasks[x].born) && w in t.running && t.running[w] == Exec(x, Free)
      && x in t.tasks && t.tasks[x].parent == m.tasks[x].parent && t.tasks[x].fireAndForget == m.tasks[x].fireAndForget
  {
    assert LaneTaken(m, w, x).tasks == m.tasks[x := LaneTaken(m, w, x).tasks[x]];
  }

  lemma TimerStarts(m: State, w: W, x: Id)
    requires Holds(m.timer, m.tasks, Timers) && Idle(m, w) && x in m.tasks && m.tasks[x].loc == Timed(w)
    ensures Starts(m, TimerRun(w, x), x)
  {
    assert m.timer[(w, x)] == 1;
  }

  lemma EventStarts(m: State, w: W, x: Id, d: Id)
    requires Inv(m) && Idle(m, w) && x in m.tasks && m.tasks[x].loc == Suspended(d)
    requires d in m.tasks && m.tasks[d].loc == InEvents(w)
    ensures Starts(m, PopEvent(w, d), x)
  {
    assert m.events[(w, d)] == 1;
    assert TaskOk(m.tasks, m.running, x) && TaskOk(m.tasks, m.running, d);
    ResumeCommutes(m, w, d);
    assert After(m, PopEvent(w, d)) == Told(Resumed(m, w, x), w, d);
    ToldResumed(m, w, x, d);
  }

  lemma ToldResumed(m: State, w: W, x: Id, d: Id)
    requires x in m.tasks && d in m.tasks && x != d && m.tasks[x].born < m.tasks[d].born
    ensures
      var k := Told(Resumed(m, w, x), w, d);
      && Kept(m, k, m.tasks[x].born) && w in k.running && k.running[w] == Exec(x, Free)
      && x in k.tasks && k.tasks[x].parent == m.tasks[x].parent && k.tasks[x].fireAndForget == m.tasks[x].fireAndForget
  {
    var r := Resumed(m, w, x);
    assert r.tasks == m.tasks[x := r.tasks[x]];
  }

  lemma StartAndFinish(s: State, m: State, a: Action, x: Id) returns (t: State)
    requires Answering(s, x) && Reach(s, m) && Inv(m) && Kept(s, m, s.tasks[x].born) && Answering(m, x) && Starts(m, a, x)
    ensures Home(s, t, x)
  {
    var b := s.tasks[x].born;
    var k := After(m, a);
    Next1(s, m, a);
    KeptThen(s, m, k, b);
    t := FinishRunning(k, x, a.w);
    Then(s, k, t);
    KeptThen(s, k, t, b);
  }

  lemma ClearBoth(s: State, v: W, w: W, b: nat) returns (t: State)
    requires Inv(s)
    ensures Reach(s, t) && Inv(t) && Idle(t, v) && Idle(t, w) && Kept(s, t, b)
    ensures forall z :: z in s.tasks && !s.tasks[z].loc.OnCpu? ==> t.tasks[z] == s.tasks[z]
  {
    var m := Clear(s, v);
    t := Clear(m, w);
    Then(s, m, t);
    ClearedKeeps(s, m, v, b);
    ClearedKeeps(m, t, w, b);
    KeptThen(s, m, t, b);
    forall z | z in s.tasks && !s.tasks[z].loc.OnCpu? ensures t.tasks[z] == s.tasks[z] { assert m.tasks[z] == s.tasks[z]; }
  }

  /** The subtasks of `x` whose events are queued. */
  ghost function Unheard(ts: Tasks, x: Id): set<Id> {
    set c | c in ts && ts[c].parent == Some(x) && ts[c].loc.InEvents?
  }

  lemma HearOne(s: State, x: Id, c: Id)
    requires Inv(s) && x in s.tasks && s.tasks[x].loc.InLane? && Idle(s, s.tasks[x].home)
    requires c in s.tasks && s.tasks[c].parent == Some(x) && s.tasks[c].loc.InEvents?
    ensures
      var t := Told(s, s.tasks[x].home, c);
      && Reach(s, t) && Inv(t) && Kept(s, t, s.tasks[x].born) && t.tasks[x] == s.tasks[x]
      && Unheard(t.tasks, x) == Unheard(s.tasks, x) - {c}
  {
    assert TaskOk(s.tasks, s.running, c);
    var q := s.tasks[x].home;
    assert s.events[(q, c)] == 1;
    Go(s, PopEvent(q, c));
    DeliveredTells(s, q, c);
  }

  /** The worker a queued task is bound to can hear all its subtasks first. */
  lemma {:induction false} HearAll(s: State, x: Id) returns (t: State)
    requires Inv(s) && x in s.tasks && s.tasks[x].loc.InLane? && Idle(s, s.tasks[x].home)
    ensures Reach(s, t) && Inv(t) && t.running == s.running && Kept(s, t, s.tasks[x].born)
    ensures x in t.tasks && t.tasks[x] == s.tasks[x] && Settled(t.tasks, x)
    decreases |Unheard(s.tasks, x)|
  {
    if Settled(s.tasks, x) {
      Stay(s);
      t := s;
    } else {
      var c :| c in s.tasks && s.tasks[c].parent == Some(x) && s.tasks[c].loc.InEvents?;
      HearOne(s, x, c);
      var m := Told(s, s.tasks[x].home, c);
      assert c in Unheard(s.tasks, x);
      t := HearAll(m, x);
      Then(s, m, t);
      KeptThen(s, m, t, s.tasks[x].born);
    }
  }

  lemma DriveFromLane(s: State, x: Id) returns (t: State)
    requires Inv(s) && Answering(s, x) && s.tasks[x].loc.InLane?
    ensures Home(s, t, x)
  {
    var w, b := s.tasks[x].loc.w, s.tasks[x].born;
    var m := ClearBoth(s, w, s.tasks[x].home, b);
    assert m.tasks[x] == s.tasks[x];
    var k := HearAll(m, x);
    Then(s, m, k);
    KeptThen(s, m, k, b);
    LaneStarts(k, w, x);
    t := StartAndFinish(s, k, PopLane(w, x), x);
  }

  lemma DriveFromTimer(s: State, x: Id) returns (t: State)
    requires Inv(s) && Answering(s, x) && s.tasks[x].loc.Timed?
    ensures Home(s, t, x)
  {
    var w := s.tasks[x].loc.w;
    var m := Clear(s, w);
    ClearedKeeps(s, m, w, s.tasks[x].born);
    assert m.tasks[x] == s.tasks[x];
    TimerStarts(m, w, x);
    t := StartAndFinish(s, m, TimerRun(w, x), x);
  }

  /** The subtask `d` that `x` sleeps on is home: clear the worker `x` is bound to, ready to deliver. */
  lemma ReadyToDeliver(s: State, m: State, x: Id, d: Id) returns (k: State)
    requires x in s.tasks && s.tasks[x].loc == Suspended(d) && d in s.tasks && s.tasks[x].born < s.tasks[d].born
    requires Home(s, m, d)
    ensures Reach(s, k) && Inv(k) && Kept(s, k, s.tasks[d].born)
    ensures x in k.tasks && k.tasks[x] == s.tasks[x] && Starts(k, PopEvent(s.tasks[x].home, d), x)
  {
    assert m.tasks[x] == s.tasks[x];
    assert TaskOk(m.tasks, m.running, x) && TaskOk(m.tasks, m.running, d);
    var w := s.tasks[x].home;
    k := Clear(m, w);
    Then(s, m, k);
    ClearedKeeps(m, k, w, s.tasks[d].born);
    KeptThen(s, m, k, s.tasks[d].born);
    EventStarts(k, w, x, d);
  }

  /** `Alive` depends only on the younger tasks. */
  lemma {:induction false} AliveFrame(s: State, t: State, x: Id, b: nat)
    requires t.tasks.Keys == s.tasks.Keys && x in s.tasks && s.tasks[x].born >= b
    requires forall z :: z in s.tasks && s.tasks[z].born >= b ==>
      t.tasks[z] == s.tasks[z] && Next(t.tasks, t.running, z) == Next(s.tasks, s.running, z)
    requires Alive(s.tasks, s.running, x)
    ensures Alive(t.tasks, t.running, x)
    decreases |s.tasks| - s.tasks[x].born
  {
    assert |t.tasks| == |t.tasks.Keys| == |s.tasks|;
    if Next(s.tasks, s.running, x).Some? {
      AliveFrame(s, t, Next(s.tasks, s.running, x).value, b);
    }
  }

  lemma OthersNextSame(s: State, t: State, w: W, z: Id)
    requires Inv(s) && Running(s, w) && Cleared(s, t, w) && t.running == s.running - {w}
    requires z in s.tasks && z != s.running[w].task
    ensures t.tasks[z] == s.tasks[z] && Next(t.tasks, t.running, z) == Next(s.tasks, s.running, z)
  {
    assert TaskOk(s.tasks, s.running, z);
  }

  lemma SuspendKeepsAlive(s: State, t: State, w: W, d: Id)
    requires Inv(s) && Running(s, w) && Cleared(s, t, w) && t.running == s.running - {w}
    requires d in s.tasks && s.tasks[d].born > s.tasks[s.running[w].task].born && Alive(s.tasks, s.running, d)
    ensures d in t.tasks && Alive(t.tasks, t.running, d)
  {
    var b := s.tasks[s.running[w].task].born + 1;
    forall z | z in s.tasks && s.tasks[z].born >= b
      ensures t.tasks[z] == s.tasks[z] && Next(t.tasks, t.running, z) == Next(s.tasks, s.running, z)
    {
      OthersNextSame(s, t, w, z);
    }
    AliveFrame(s, t, d, b);
  }

  /** A subtask with a live chain of awaits can be driven home without disturbing an older sleeper. */
  lemma {:induction false} Drive(s: State, x: Id) returns (t: State)
    requires Inv(s) && Answering(s, x) && Alive(s.tasks, s.running, x)
    ensures Home(s, t, x)
    decreases |s.tasks| - s.tasks[x].born, 2
  {
    assert TaskOk(s.tasks, s.running, x);
    var l := s.tasks[x].loc;
    if l.InEvents? {
      Stay(s);
      t := s;
    } else if l.InLane? {
      t := DriveFromLane(s, x);
    } else if l.Timed? {
      t := DriveFromTimer(s, x);
    } else if l.Suspended? {
      t := DriveSleeping(s, x);
    } else {
      assert RunOk(s.tasks, s.running, l.w);
      if s.running[l.w].phase.Free? {
        t := FinishRunning(s, x, l.w);
      } else {
        t := DriveAwaiting(s, x);
      }
    }
  }

  lemma {:induction false} DriveSleeping(s: State, x: Id) returns (t: State)
    requires Inv(s) && Answering(s, x) && Alive(s.tasks, s.running, x) && s.tasks[x].loc.Suspended?
    ensures Home(s, t, x)
    decreases |s.tasks| - s.tasks[x].born, 0
  {
    var d := s.tasks[x].loc.on;
    NextIsYounger(s, x);
    var m := Drive(s, d);
    var k := ReadyToDeliver(s, m, x, d);
    t := StartAndFinish(s, k, PopEvent(s.tasks[x].home, d), x);
  }

  lemma SleeperIsAlive(s: State, k: State, w: W, d: Id)
    requires Inv(s) && Running(s, w) && Cleared(s, k, w) && k.running == s.running - {w}
    requires d in s.tasks && s.tasks[s.running[w].task].born < s.tasks[d].born < |s.tasks| && Alive(s.tasks, s.running, d)
    requires s.running[w].task in k.tasks && k.tasks[s.running[w].task].loc == Suspended(d)
    ensures |k.tasks| == |s.tasks| && Alive(k.tasks, k.running, s.running[w].task)
  {
    SuspendKeepsAlive(s, k, w, d);
    assert |k.tasks| == |k.tasks.Keys| == |s.tasks|;
  }

  /** A task in the middle of an await goes to sleep, its chain of awaits as alive as before. */
  lemma FallAsleep(s: State, x: Id) returns (k: State)
    requires Inv(s) && x in s.tasks && Alive(s.tasks, s.running, x)
    requires s.tasks[x].loc.OnCpu? && Next(s.tasks, s.running, x).Some?
    ensures Reach(s, k) && Inv(k) && Kept(s, k, s.tasks[x].born) && |k.tasks| == |s.tasks|
    ensures x in k.tasks && k.tasks[x].loc == Suspended(Next(s.tasks, s.running, x).value) && Alive(k.tasks, k.running, x)
  {
    var w, d := s.tasks[x].loc.w, Next(s.tasks, s.running, x).value;
    assert TaskOk(s.tasks, s.running, x);
    NextIsYounger(s, x);
    k := Suspend(s, w);
    ClearedKeeps(s, k, w, s.tasks[x].born);
    SleeperIsAlive(s, k, w, d);
  }

  lemma {:induction false} DriveAwaiting(s: State, x: Id) returns (t: State)
    requires Inv(s) && Answering(s, x) && Alive(s.tasks, s.running, x)
    requires s.tasks[x].loc.OnCpu? && Next(s.tasks, s.running, x).Some?
    ensures Home(s, t, x)
    decreases |s.tasks| - s.tasks[x].born, 1
  {
    var k := FallAsleep(s, x);
    t := DriveSleeping(k, x);
    Then(s, k, t);
    KeptThen(s, k, t, s.tasks[x].born);
  }

  // ------------------------------------------------------------------------- the theorem

  ghost predicate Escapes(s: State, acts: seq<Action>, p: Id) {
    CarefulRun(s, acts) && p in Final(s, acts).tasks && Final(s, acts).tasks[p].loc.OnCpu?
  }

  lemma Awaken(s: State, p: Id) returns (t: State)
    requires Inv(s) && Sleeps(s, p) && Alive(s.tasks, s.running, p)
    ensures Reach(s, t) && p in t.tasks && t.tasks[p].loc.OnCpu?
  {
    var d := s.tasks[p].loc.on;
    NextIsYounger(s, p);
    var m := Drive(s, d);
    var k := ReadyToDeliver(s, m, p, d);
    var a := PopEvent(s.tasks[p].home, d);
    Next1(s, k, a);
    t := After(k, a);
    assert RunOk(t.tasks, t.running, a.w);
  }

  /**
   * A sleeping parent can still be resumed if and only if its chain of awaits ends in a task
   * that is queued or running: the protocol itself never deadlocks.
   */
  lemma ResumableIffAlive(s: State, p: Id)
    requires Inv(s) && Sleeps(s, p)
    ensures (exists acts :: Escapes(s, acts, p)) <==> Alive(s.tasks, s.running, p)
  {
    if Alive(s.tasks, s.running, p) {
      var t := Awaken(s, p);
      var acts :| Run(s, acts, t);
      assert Escapes(s, acts, p);
    } else {
      forall acts ensures !Escapes(s, acts, p) {
        if Escapes(s, acts, p) { StrandedForever(s, acts, p); }
      }
    }
  }

  // ------------------------------------------------------ out of reach

  /** In no queue, and on no worker. */
  ghost predicate Nowhere(s: State, x: Id) {
    && x in s.tasks && (forall w :: (w, x) !in s.lane && (w, x) !in s.timer && (w, x) !in s.events)
    && (forall w :: w in s.running ==> s.running[w].task != x)
  }

  /** Task `x` is nowhere, and so is what it waits for, if anything. */
  ghost predicate Deaf(s: State, x: Id) {
    Nowhere(s, x) && (s.tasks[x].awaited.Some? ==> Nowhere(s, s.tasks[x].awaited.value))
  }

  lemma EndingMissesNowhere(s: State, w: W, x: Id)
    requires Freely(s, w) && Nowhere(s, x)
    ensures Nowhere(Ending(s, w), x) && Ending(s, w).tasks[x] == s.tasks[x]
  {
  }

  lemma EventMissesNowhere(s: State, w: W, d: Id, x: Id)
    requires Queued(s, s.events, w, d) && Nowhere(s, x) && s.tasks[x].awaited != Some(d)
    ensures Nowhere(Delivered(s, w, d), x) && Delivered(s, w, d).tasks[x] == s.tasks[x]
  {
    var t := Told(s, w, d);
    assert Nowhere(t, x) && t.tasks[x] == s.tasks[x];
  }

  /** No step at all, careful or not, reaches such a task. */
  lemma StepMissesNowhere(s: State, a: Action, x: Id)
    requires Enabled(s, a) && Nowhere(s, x) && (a.PopEvent? ==> s.tasks[x].awaited != Some(a.c))
    ensures Nowhere(After(s, a), x) && After(s, a).tasks[x] == s.tasks[x]
  {
    match a
    case Finish(w) => EndingMissesNowhere(s, w, x);
    case PopEvent(w, d) => EventMissesNowhere(s, w, d, x);
    case _ =>
  }

  /** Whatever happens next, task `p` sleeps on. */
  ghost predicate SleepsForever(s: State, p: Id) {
    Sleeps(s, p) && forall more :: EnabledRun(s, more) ==> p in Final(s, more).tasks && Final(s, more).tasks[p] == s.tasks[p]
  }

  lemma {:induction false} DeafForever(s: State, more: seq<Action>, p: Id, c: Id)
    requires EnabledRun(s, more) && Deaf(s, p) && Deaf(s, c) && s.tasks[p].awaited == Some(c) && s.tasks[c].awaited.None?
    ensures p in Final(s, more).tasks && Final(s, more).tasks[p] == s.tasks[p]
    decreases |more|
  {
    if more != [] {
      StepMissesNowhere(s, more[0], p);
      StepMissesNowhere(s, more[0], c);
      DeafForever(After(s, more[0]), more[1..], p, c);
    }
  }

  // ------------------------------------------- binding a task whose events are elsewhere

  /** Subtask `c` has answered at `q`, the worker its parent `id` is bound to; `id` waits in the lane of `w`. */
  ghost predicate Poised(m: State, w: W, id: Id, q: W, c: Id) {
    && Idle(m, w) && Idle(m, q) && w != q && id in m.tasks && c in m.tasks && id != c
    && (w, id) in m.lane && m.tasks[id].awaited == None
    && m.events[(q, c)] == 1 && (forall v :: v != q ==> (v, c) !in m.events)
    && m.tasks[c].parent == Some(id) && !m.tasks[c].fireAndForget && !m.tasks[c].complete
    && OnlyInLane(m, w, id) && OnlyInEvents(m, c)
  }

  ghost predicate OnlyInLane(m: State, w: W, x: Id) {
    && m.lane[(w, x)] == 1 && (forall v :: v != w ==> (v, x) !in m.lane)
    && (forall v :: (v, x) !in m.timer && (v, x) !in m.events) && (forall v :: v in m.running ==> m.running[v].task != x)
  }

  ghost predicate OnlyInEvents(m: State, x: Id) {
    && (forall v :: (v, x) !in m.lane && (v, x) !in m.timer) && (forall v :: v in m.running ==> m.running[v].task != x)
    && x in m.tasks && m.tasks[x].awaited.None?
  }

  ghost predicate OnlyOnWorker(m: State, w: W, x: Id) {
    && (forall v :: (v, x) !in m.lane && (v, x) !in m.timer && (v, x) !in m.events)
    && (forall v :: v in m.running && v != w ==> m.running[v].task != x)
  }

  /** The parent sleeps on a future that is complete and whose event has been consumed. */
  ghost predicate Stranded(t: State, id: Id, c: Id) {
    && id in t.tasks && t.tasks[id].loc == Suspended(c) && c in t.tasks && t.tasks[c].complete && t.tasks[c].loc.Ended?
    && Nowhere(t, id) && Nowhere(t, c) && t.tasks[id].awaited == Some(c) && t.tasks[c].awaited.None?
  }

  /** And it never wakes up, in any run. */
  lemma StrandedSleepsOn(t: State, id: Id, c: Id)
    requires Stranded(t, id, c)
    ensures SleepsForever(t, id)
  {
    forall more | EnabledRun(t, more) ensures id in Final(t, more).tasks && Final(t, more).tasks[id] == t.tasks[id] {
      DeafForever(t, more, id, c);
    }
  }

  /** After the first two steps: on `w` the parent has seen the future incomplete. */
  ghost predicate Seen(m: State, w: W, id: Id, q: W, c: Id) {
    && Idle(m, q) && w != q && id in m.tasks && c in m.tasks && id != c
    && w in m.running && m.running[w] == Exec(id, Checked(c)) && m.tasks[id].awaited == None
    && m.tasks[c].parent == Some(id) && m.events[(q, c)] == 1 && (forall v :: v != q ==> (v, c) !in m.events)
    && OnlyOnWorker(m, w, id) && OnlyInEvents(m, c)
  }

  lemma RaceBegins(m: State, w: W, id: Id, q: W, c: Id) returns (t: State)
    requires Poised(m, w, id, q, c)
    ensures EnabledRun(m, [PopLane(w, id), AwaitCheck(w, c)])
    ensures t == Final(m, [PopLane(w, id), AwaitCheck(w, c)]) && Seen(t, w, id, q, c)
  {
    var k := LaneTaken(m, w, id);
    t := CheckDone(k, w, c);
    Unroll2(m, PopLane(w, id), AwaitCheck(w, c));
  }

  /** The event arrives on `q`, where nobody waits; then the parent records and sleeps on `w`. */
  lemma RaceEnds(m: State, w: W, id: Id, q: W, c: Id) returns (t: State)
    requires Seen(m, w, id, q, c)
    ensures EnabledRun(m, [PopEvent(q, c), AwaitRecord(w), AwaitSuspend(w)])
    ensures t == Final(m, [PopEvent(q, c), AwaitRecord(w), AwaitSuspend(w)]) && Stranded(t, id, c)
  {
    var m1 := Told(m, q, c);
    assert Delivered(m, q, c) == m1;
    var m2 := RecordDone(m1, w);
    t := After(m2, AwaitSuspend(w));
    Unroll3(m, PopEvent(q, c), AwaitRecord(w), AwaitSuspend(w));
  }

  lemma {:induction false} Unroll1(m: State, a: Action)
    requires Enabled(m, a)
    ensures EnabledRun(m, [a]) && Final(m, [a]) == After(m, a)
  {
    var k := After(m, a);
    assert [a][1..] == [] && EnabledRun(k, []) && Final(k, []) == k;
  }

  lemma {:induction false} Unroll(m: State, acts: seq<Action>)
    requires acts != [] && Enabled(m, acts[0]) && EnabledRun(After(m, acts[0]), acts[1..])
    ensures EnabledRun(m, acts) && Final(m, acts) == Final(After(m, acts[0]), acts[1..])
  {
  }

  lemma {:induction false} Unroll2(m: State, a: Action, b: Action)
    requires Enabled(m, a) && Enabled(After(m, a), b)
    ensures EnabledRun(m, [a, b]) && Final(m, [a, b]) == After(After(m, a), b)
  {
    Unroll1(After(m, a), b);
    assert [a, b][1..] == [b];
    Unroll(m, [a, b]);
  }

  lemma {:induction false} Unroll3(m: State, a: Action, b: Action, c: Action)
    requires Enabled(m, a) && Enabled(After(m, a), b) && Enabled(After(After(m, a), b), c)
    ensures EnabledRun(m, [a, b, c]) && Final(m, [a, b, c]) == After(After(After(m, a), b), c)
  {
    Unroll2(After(m, a), b, c);
    assert [a, b, c][1..] == [b, c];
    Unroll(m, [a, b, c]);
  }

  lemma {:induction false} EnabledJoin(s: State, a: seq<Action>, b: seq<Action>)
    requires EnabledRun(s, a) && EnabledRun(Final(s, a), b)
    ensures EnabledRun(s, a + b) && Final(s, a + b) == Final(Final(s, a), b)
    decreases |a|
  {
    if a == [] {
      assert a + b == b;
    } else {
      assert (a + b)[0] == a[0] && (a + b)[1..] == a[1..] + b;
      EnabledJoin(After(s, a[0]), a[1..], b);
    }
  }

  lemma {:induction false} CarefulIsEnabled(s: State, acts: seq<Action>)
    requires CarefulRun(s, acts)
    ensures EnabledRun(s, acts)
    decreases |acts|
  {
    if acts != [] { CarefulIsEnabled(After(s, acts[0]), acts[1..]); }
  }

  lemma PoisedFacts(m: State, w: W, id: Id, c: Id)
    requires Inv(m) && id in m.tasks && m.tasks[id].loc == InLane(w) && m.tasks[id].home != w
    requires Idle(m, w) && Idle(m, m.tasks[id].home)
    requires c in m.tasks && m.tasks[c].loc.InEvents? && m.tasks[c].parent == Some(id)
    ensures Poised(m, w, id, m.tasks[id].home, c)
  {
    var q := m.tasks[id].home;
    assert TaskOk(m.tasks, m.running, c) && TaskOk(m.tasks, m.running, id);
    assert m.lane[(w, id)] == 1 && m.events[(q, c)] == 1;
    forall v | v != q ensures (v, c) !in m.events { assert m.events[(v, c)] == 0; }
    forall v ensures (v, id) !in m.timer && (v, id) !in m.events && (v != w ==> (v, id) !in m.lane) {
      assert m.timer[(v, id)] == 0 && m.events[(v, id)] == 0;
      assert v != w ==> m.lane[(v, id)] == 0;
    }
    forall v ensures (v, c) !in m.lane && (v, c) !in m.timer { assert m.lane[(v, c)] == 0 && m.timer[(v, c)] == 0; }
    forall v | v in m.running ensures m.running[v].task != id && m.running[v].task != c {
      assert RunOk(m.tasks, m.running, v);
    }
  }

  /**
   * Binding a task to a worker while an event for it is queued at another is not safe: from there the
   * machine can reach a parent that sleeps on a complete future whose event is gone.
   */
  lemma BindingStrands(s: State, w: W, id: Id, c: Id) returns (acts: seq<Action>)
    requires Inv(s) && id in s.tasks && s.tasks[id].loc == InLane(w) && s.tasks[id].home != w
    requires c in s.tasks && s.tasks[c].loc.InEvents? && s.tasks[c].parent == Some(id)
    ensures EnabledRun(s, acts) && Stranded(Final(s, acts), id, c) && SleepsForever(Final(s, acts), id)
  {
    var q := s.tasks[id].home;
    var m := ClearBoth(s, w, q, 0);
    PoisedFacts(m, w, id, c);
    var lead :| Run(s, lead, m);
    CarefulIsEnabled(s, lead);
    var k := RaceBegins(m, w, id, q, c);
    EnabledJoin(s, lead, [PopLane(w, id), AwaitCheck(w, c)]);
    var t := RaceEnds(k, w, id, q, c);
    acts := lead + [PopLane(w, id), AwaitCheck(w, c)];
    EnabledJoin(s, acts, [PopEvent(q, c), AwaitRecord(w), AwaitSuspend(w)]);
    acts := acts + [PopEvent(q, c), AwaitRecord(w), AwaitSuspend(w)];
    StrandedSleepsOn(t, id, c);
  }

  lemma DriveBesideTimer(s: State, w: W, id: Id, c: Id) returns (m: State)
    requires Inv(s) && id in s.tasks && s.tasks[id].loc == Timed(w)
    requires Answering(s, c) && s.tasks[c].parent == Some(id) && Alive(s.tasks, s.running, c)
    ensures Reach(s, m) && Inv(m) && Idle(m, w) && id in m.tasks && m.tasks[id] == s.tasks[id]
    ensures c in m.tasks && m.tasks[c].loc.InEvents? && m.tasks[c].parent == Some(id)
  {
    assert TaskOk(s.tasks, s.running, c);
    var h := Drive(s, c);
    assert h.tasks[id] == s.tasks[id];
    m := Clear(h, w);
    Then(s, h, m);
  }

  /** A due task with a live subtask can get there by being handed to another worker. */
  lemma ReroutedUnheard(s: State, w: W, id: Id, dst: W, c: Id) returns (t: State)
    requires Inv(s) && id in s.tasks && s.tasks[id].loc == Timed(w) && w != dst
    requires Answering(s, c) && s.tasks[c].parent == Some(id) && Alive(s.tasks, s.running, c)
    ensures Reach(s, t) && Inv(t) && id in t.tasks && t.tasks[id].loc == InLane(dst) && t.tasks[id].home == w
    ensures c in t.tasks && t.tasks[c].loc.InEvents? && t.tasks[c].parent == Some(id)
  {
    var m := DriveBesideTimer(s, w, id, c);
    assert TaskOk(m.tasks, m.running, id);
    assert m.timer[(w, id)] == 1;
    Next1(s, m, TimerReroute(w, id, dst));
    t := After(m, TimerReroute(w, id, dst));
  }

  lemma RerouteStrands(s: State, w: W, id: Id, dst: W, c: Id) returns (acts: seq<Action>)
    requires Inv(s) && id in s.tasks && s.tasks[id].loc == Timed(w) && w != dst
    requires Answering(s, c) && s.tasks[c].parent == Some(id) && Alive(s.tasks, s.running, c)
    ensures EnabledRun(s, acts) && Stranded(Final(s, acts), id, c) && SleepsForever(Final(s, acts), id)
  {
    var m := ReroutedUnheard(s, w, id, dst, c);
    var lead :| Run(s, lead, m);
    CarefulIsEnabled(s, lead);
    var rest := BindingStrands(m, dst, id, c);
    EnabledJoin(s, lead, rest);
    acts := lead + rest;
  }

  // --------------------------------------------------------------- the same from the start

  lemma {:induction false} Extend(acts: seq<Action>, a: Action)
    requires CarefulRun(INIT, acts) && Inv(Final(INIT, acts))
    requires Enabled(Final(INIT, acts), a) && Careful(Final(INIT, acts), a)
    ensures CarefulRun(INIT, acts + [a]) && Final(INIT, acts + [a]) == After(Final(INIT, acts), a)
    ensures Inv(Final(INIT, acts + [a]))
  {
    var m := Final(INIT, acts);
    Go(m, a);
    assert [a][1..] == [];
    assert CarefulRun(After(m, a), []) && Final(After(m, a), []) == After(m, a);
    assert Run(m, [a], After(m, a));
    RunJoin(INIT, acts, m, [a], After(m, a));
  }

  lemma TaskStarted() returns (acts: seq<Action>)
    ensures CarefulRun(INIT, acts) && Inv(Final(INIT, acts))
    ensures
      var s := Final(INIT, acts);
      && s.tasks.Keys == {0} && s.tasks[0].loc == OnCpu(0) && s.running == map[0 := Exec(0, Free)]
  {
    InitOk();
    acts := [];
    Extend(acts, Submit(0, 0, false));
    acts := acts + [Submit(0, 0, false)];
    assert (0, 0) in Final(INIT, acts).lane;
    Extend(acts, PopLane(0, 0));
    acts := acts + [PopLane(0, 0)];
  }

  /** Task 0 runs on worker 0, and its subtask 1 is in the lane of another. */
  lemma SubtaskSpawned(dst: W) returns (acts: seq<Action>)
    ensures CarefulRun(INIT, acts) && Inv(Final(INIT, acts))
    ensures
      var s := Final(INIT, acts);
      && s.tasks.Keys == {0, 1} && s.running == map[0 := Exec(0, Free)] && (dst, 1) in s.lane
      && s.tasks[1].loc == InLane(dst) && s.tasks[1].home == dst
      && s.tasks[1].parent == Some(0) && !s.tasks[1].fireAndForget && !s.tasks[1].complete
  {
    acts := TaskStarted();
    Extend(acts, Spawn(0, 1, dst, false));
    acts := acts + [Spawn(0, 1, dst, false)];
  }

  /** Task 0 has a subtask 1 in the lane of worker 2, and has yielded on worker 0. */
  lemma ParentYielded() returns (acts: seq<Action>)
    ensures CarefulRun(INIT, acts) && Inv(Final(INIT, acts))
    ensures
      var s := Final(INIT, acts);
      && s.tasks.Keys == {0, 1} && s.tasks[0].loc == Timed(0)
      && s.tasks[1].loc == InLane(2) && s.tasks[1].parent == Some(0) && !s.tasks[1].fireAndForget
  {
    acts := SubtaskSpawned(2);
    Extend(acts, YieldFor(0));
    acts := acts + [YieldFor(0)];
  }

  /** From the empty machine a parent comes to sleep on a complete future whose event is gone. */
  lemma StrandedFromStart() returns (acts: seq<Action>)
    ensures EnabledRun(INIT, acts) && Stranded(Final(INIT, acts), 0, 1) && SleepsForever(Final(INIT, acts), 0)
  {
    var lead := ParentYielded();
    CarefulIsEnabled(INIT, lead);
    var s := Final(INIT, lead);
    var rest := RerouteStrands(s, 0, 0, 1, 1);
    EnabledJoin(INIT, lead, rest);
    acts := lead + rest;
  }

  // ------------------------------------------------------- dropped subtasks, from the start

  lemma ParentChecked() returns (acts: seq<Action>)
    ensures CarefulRun(INIT, acts) && Inv(Final(INIT, acts))
    ensures
      var s := Final(INIT, acts);
      && s.tasks.Keys == {0, 1} && s.running == map[0 := Exec(0, Checked(1))] && (1, 1) in s.lane
      && s.tasks[1].loc == InLane(1) && s.tasks[1].home == 1
  {
    acts := SubtaskSpawned(1);
    Extend(acts, AwaitCheck(0, 1));
    acts := acts + [AwaitCheck(0, 1)];
  }

  lemma ParentRecorded() returns (acts: seq<Action>)
    ensures CarefulRun(INIT, acts) && Inv(Final(INIT, acts))
    ensures
      var s := Final(INIT, acts);
      && s.tasks.Keys == {0, 1} && s.running == map[0 := Exec(0, Recorded(1))] && (1, 1) in s.lane
      && s.tasks[1].loc == InLane(1) && s.tasks[1].home == 1
  {
    acts := ParentChecked();
    Extend(acts, AwaitRecord(0));
    acts := acts + [AwaitRecord(0)];
  }

  lemma ParentSleeps() returns (acts: seq<Action>)
    ensures CarefulRun(INIT, acts) && Inv(Final(INIT, acts))
    ensures
      var s := Final(INIT, acts);
      && s.tasks.Keys == {0, 1} && s.running == map[] && (1, 1) in s.lane
      && s.tasks[0].loc == Suspended(1) && s.tasks[1].loc == InLane(1) && s.tasks[1].home == 1
  {
    acts := ParentRecorded();
    Extend(acts, AwaitSuspend(0));
    acts := acts + [AwaitSuspend(0)];
  }

  /** The subtask of a sleeping parent runs on worker 1. */
  lemma SubtaskRuns() returns (acts: seq<Action>)
    ensures CarefulRun(INIT, acts) && Inv(Final(INIT, acts))
    ensures
      var s := Final(INIT, acts);
      s.tasks.Keys == {0, 1} && s.tasks[0].loc == Suspended(1) && s.running == map[1 := Exec(1, Free)]
  {
    acts := ParentSleeps();
    Extend(acts, PopLane(1, 1));
    acts := acts + [PopLane(1, 1)];
  }

  lemma NowhereByLoc(s: State, x: Id)
    requires Inv(s) && x in s.tasks && (Gone(s.tasks[x].loc) || s.tasks[x].loc.Suspended?)
    ensures Nowhere(s, x)
  {
    forall w ensures (w, x) !in s.lane && (w, x) !in s.timer && (w, x) !in s.events {
      assert s.lane[(w, x)] == 0 && s.timer[(w, x)] == 0 && s.events[(w, x)] == 0;
    }
    forall w | w in s.running ensures s.running[w].task != x { assert RunOk(s.tasks, s.running, w); }
  }

  lemma DeadForever(s: State, p: Id, c: Id)
    requires Inv(s) && p in s.tasks && s.tasks[p].loc == Suspended(c) && c in s.tasks && Gone(s.tasks[c].loc)
    ensures SleepsForever(s, p)
  {
    NowhereByLoc(s, p);
    NowhereByLoc(s, c);
    assert TaskOk(s.tasks, s.running, p) && TaskOk(s.tasks, s.running, c);
    forall more | EnabledRun(s, more) ensures p in Final(s, more).tasks && Final(s, more).tasks[p] == s.tasks[p] {
      DeafForever(s, more, p, c);
    }
  }

  /** From the empty machine: the subtask fails for want of a container, and its parent sleeps forever. */
  lemma FailedFromStart() returns (acts: seq<Action>)
    ensures CarefulRun(INIT, acts) && SleepsForever(Final(INIT, acts), 0)
  {
    acts := ParentSleeps();
    Extend(acts, FailPop(1, 1));
    acts := acts + [FailPop(1, 1)];
    DeadForever(Final(INIT, acts), 0, 1);
  }

  /** Likewise if the subtask finishes and finds no container, */
  lemma LostFromStart() returns (acts: seq<Action>)
    ensures CarefulRun(INIT, acts) && SleepsForever(Final(INIT, acts), 0)
  {
    acts := SubtaskRuns();
    Extend(acts, FinishLost(1));
    acts := acts + [FinishLost(1)];
    DeadForever(Final(INIT, acts), 0, 1);
  }

  /** or yields with delay 0. */
  lemma StalledFromStart() returns (acts: seq<Action>)
    ensures CarefulRun(INIT, acts) && SleepsForever(Final(INIT, acts), 0)
  {
    acts := SubtaskRuns();
    Extend(acts, YieldZero(1));
    acts := acts + [YieldZero(1)];
    DeadForever(Final(INIT, acts), 0, 1);
  }
}

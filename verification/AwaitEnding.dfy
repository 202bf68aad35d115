/**
 * How a task ends, and that a periodic one does not: as long as nothing is dropped on an error
 * return, a periodic task stays queued, running or asleep, and can always be executed once more.
 */
module AwaitEnding {
  import opened Words
  import opened Await
  import opened AwaitProgress

  // ---------------------------------------------------------------------- the four endings

  /** What ending task `x` on worker `w` leaves alone: everything but `x` and the worker. */
  ghost predicate OnlyEnds(s: State, t: State, w: W, x: Id) {
    && x in s.tasks && x in t.tasks && t.running == s.running - {w} && t.lane == s.lane
    && t.tasks.Keys == s.tasks.Keys && (forall z :: z in s.tasks && z != x ==> t.tasks[z] == s.tasks[z])
    && t.tasks[x].coroDone && SameTask(t.tasks[x], s.tasks[x]) && t.tasks[x].periodic == s.tasks[x].periodic
  }

  /** A periodic task waits, once, in a timer queue of its worker, to be started anew; nobody is told. */
  ghost predicate Rescheduled(s: State, t: State, w: W, x: Id)
    requires x in s.tasks && x in t.tasks
  {
    && t.timer[(w, x)] == 1 && t.timer == s.timer + multiset{(w, x)} && t.events == s.events
    && t.tasks[x].loc == Timed(w) && !t.tasks[x].started && t.tasks[x].complete == s.tasks[x].complete
  }

  /** The task is gone, nothing is queued for it; its future is complete or not. */
  ghost predicate Retired(s: State, t: State, x: Id, complete: bool)
    requires x in t.tasks
  {
    t.tasks[x].loc == Ended && t.tasks[x].complete == complete && t.timer == s.timer && t.events == s.events
  }

  /** A subtask's event is queued, once, at the worker its parent is bound to; its future is not complete yet. */
  ghost predicate Answered(s: State, t: State, x: Id, parent: Id)
    requires x in t.tasks && parent in s.tasks
  {
    var q := s.tasks[parent].home;
    && t.events[(q, x)] == 1 && t.events == s.events + multiset{(q, x)} && t.timer == s.timer
    && t.tasks[x].loc == InEvents(q) && !t.tasks[x].complete
  }

  lemma EndsOnlyItself(s: State, w: W)
    requires Freely(s, w)
    ensures OnlyEnds(s, After(s, Finish(w)), w, s.running[w].task)
  {
    var x := s.running[w].task;
    var t := After(s, Finish(w));
    assert t.tasks == s.tasks[x := t.tasks[x]];
  }

  lemma PeriodicEnds(s: State, w: W)
    requires Inv(s) && Freely(s, w) && s.tasks[s.running[w].task].periodic
    ensures Rescheduled(s, After(s, Finish(w)), w, s.running[w].task)
  {
    assert RunOk(s.tasks, s.running, w);
    assert s.timer[(w, s.running[w].task)] == 0;
  }

  lemma SubtaskEnds(s: State, w: W)
    requires Inv(s) && Freely(s, w)
    requires
      var u := s.tasks[s.running[w].task];
      !u.periodic && !u.fireAndForget && u.parent.Some?
    ensures
      var x := s.running[w].task;
      var p := s.tasks[x].parent.value;
      p in s.tasks && Answered(s, After(s, Finish(w)), x, p)
  {
    var x := s.running[w].task;
    assert RunOk(s.tasks, s.running, w) && TaskOk(s.tasks, s.running, x);
    assert s.events[(s.tasks[s.tasks[x].parent.value].home, x)] == 0;
  }

  /** Ending a task: rescheduled if periodic, silent if fire-and-forget, completed without a parent, else answered. */
  lemma EndsAs(s: State, w: W)
    requires Inv(s) && Freely(s, w)
    ensures
      var x, t := s.running[w].task, After(s, Finish(w));
      var u := s.tasks[x];
      && OnlyEnds(s, t, w, x)
      && (u.periodic ==> Rescheduled(s, t, w, x))
      && (!u.periodic && u.fireAndForget ==> Retired(s, t, x, false))
      && (!u.periodic && !u.fireAndForget && u.parent.None? ==> Retired(s, t, x, true))
      && (!u.periodic && !u.fireAndForget && u.parent.Some? ==>
            u.parent.value in s.tasks && Answered(s, t, x, u.parent.value))
  {
    EndsOnlyItself(s, w);
    var u := s.tasks[s.running[w].task];
    if u.periodic { PeriodicEnds(s, w); }
    else if !u.fireAndForget && u.parent.Some? { SubtaskEnds(s, w); }
    else {
      assert RunOk(s.tasks, s.running, w) && TaskOk(s.tasks, s.running, s.running[w].task);
    }
  }

  /** A task that finds no container in the lane is flagged complete, and nothing is queued for it. */
  lemma FailsAs(s: State, w: W, x: Id)
    requires Inv(s) && Queued(s, s.lane, w, x)
    ensures
      var t := After(s, FailPop(w, x));
      && t.tasks[x].complete && Nowhere(t, x) && t.timer == s.timer && t.events == s.events && t.running == s.running
      && t.lane == s.lane - multiset{(w, x)} && (forall z :: z in s.tasks && z != x ==> z in t.tasks && t.tasks[z] == s.tasks[z])
  {
    assert s.lane[(w, x)] > 0;
    assert s.tasks[x].loc == InLane(w) && s.lane[(w, x)] == 1;
    var t := After(s, FailPop(w, x));
    LaneFailedKeeps(s, w, x);
    NowhereByLoc(t, x);
  }

  // ------------------------------------------------------------------------ nothing dropped

  /** A step that drops no task: not the two error returns, and no yield with delay 0. */
  predicate Tame(a: Action) { !a.FailPop? && !a.FinishLost? && !a.YieldZero? }

  ghost predicate TameRun(s: State, acts: seq<Action>) {
    CarefulRun(s, acts) && forall i :: 0 <= i < |acts| ==> Tame(acts[i])
  }

  /** Nothing has been dropped, and no periodic task has ended. */
  ghost predicate NoneDropped(ts: Tasks) {
    forall x :: x in ts ==> !ts[x].loc.Lost? && !ts[x].loc.Stalled? && (ts[x].periodic ==> !ts[x].loc.Ended?)
  }

  /** Where a step takes a task that it changes. */
  ghost predicate Carried(u: Task, t: Task) {
    && t.periodic == u.periodic && !t.loc.Lost? && !t.loc.Stalled? && (u.periodic ==> !t.loc.Ended?)
  }

  lemma EventCarries(s: State, w: W, c: Id, x: Id)
    requires Inv(s) && Queued(s, s.events, w, c) && x in s.tasks && x in Touched(s, PopEvent(w, c))
    ensures x in Delivered(s, w, c).tasks && Carried(s.tasks[x], Delivered(s, w, c).tasks[x])
  {
    EventFacts(s, w, c);
    assert TaskOk(s.tasks, s.running, c);
    ToldCarries(s, w, c, x);
    if WaitsFor(s, c) {
      ResumedCarries(Told(s, w, c), w, s.tasks[c].parent.value, x);
    }
  }

  lemma ToldCarries(s: State, w: W, c: Id, x: Id)
    requires c in s.tasks && x in s.tasks && !s.tasks[c].periodic && (x == c || s.tasks[x].loc.Suspended?)
    ensures x in Told(s, w, c).tasks && Carried(s.tasks[x], Told(s, w, c).tasks[x])
  {
  }

  lemma ResumedCarries(s: State, w: W, p: Id, x: Id)
    requires p in s.tasks && x in s.tasks && Carried(s.tasks[x], s.tasks[x])
    ensures x in Resumed(s, w, p).tasks && Carried(s.tasks[x], Resumed(s, w, p).tasks[x])
  {
  }

  lemma StepCarries(s: State, a: Action, x: Id)
    requires Inv(s) && Enabled(s, a) && Careful(s, a) && Tame(a) && x in s.tasks && x in Touched(s, a)
    ensures x in After(s, a).tasks && Carried(s.tasks[x], After(s, a).tasks[x])
  {
    match a
    case Finish(w) => EndsAs(s, w);
    case PopEvent(w, c) => EventCarries(s, w, c, x);
    case _ =>
  }

  lemma StepDropsNone(s: State, a: Action)
    requires Inv(s) && Enabled(s, a) && Careful(s, a) && Tame(a) && NoneDropped(s.tasks)
    ensures NoneDropped(After(s, a).tasks)
  {
    var t := After(s, a);
    forall x | x in t.tasks
      ensures !t.tasks[x].loc.Lost? && !t.tasks[x].loc.Stalled? && (t.tasks[x].periodic ==> !t.tasks[x].loc.Ended?)
    {
      if x in s.tasks {
        if x in Touched(s, a) { StepCarries(s, a, x); } else { OthersUntouched(s, a, x); }
      } else {
        NewIsQueued(s, a, x);
      }
    }
  }

  lemma NewIsQueued(s: State, a: Action, x: Id)
    requires Enabled(s, a) && x !in s.tasks && x in After(s, a).tasks
    ensures After(s, a).tasks[x].loc.InLane?
  {
    match a
    case Finish(w) => EndsOnlyItself(s, w);
    case PopEvent(w, c) => EventAddsNone(s, w, c);
    case _ =>
  }

  lemma EventAddsNone(s: State, w: W, c: Id)
    requires c in s.tasks
    ensures Delivered(s, w, c).tasks.Keys == s.tasks.Keys
  {
    assert Told(s, w, c).tasks.Keys == s.tasks.Keys;
  }

  lemma {:induction false} RunDropsNone(s: State, acts: seq<Action>)
    requires Inv(s) && TameRun(s, acts) && NoneDropped(s.tasks)
    ensures Inv(Final(s, acts)) && NoneDropped(Final(s, acts).tasks)
    decreases |acts|
  {
    if acts != [] {
      assert Tame(acts[0]);
      StepKeepsInv(s, acts[0]);
      StepDropsNone(s, acts[0]);
      RunDropsNone(After(s, acts[0]), acts[1..]);
    }
  }

  /** Over every run that drops nothing a periodic task is never gone. */
  lemma PeriodicNeverGone(acts: seq<Action>, x: Id)
    requires TameRun(INIT, acts) && x in Final(INIT, acts).tasks && Final(INIT, acts).tasks[x].periodic
    ensures !Gone(Final(INIT, acts).tasks[x].loc)
  {
    InitOk();
    RunDropsNone(INIT, acts);
  }

  // ------------------------------------------------------------------------- executed again

  /** With nothing dropped every chain of awaits is alive. */
  lemma {:induction false} AllAlive(s: State, x: Id)
    requires Inv(s) && NoneDropped(s.tasks) && x in s.tasks && !s.tasks[x].loc.Ended?
    ensures Alive(s.tasks, s.running, x)
    decreases |s.tasks| - s.tasks[x].born
  {
    if Next(s.tasks, s.running, x).Some? {
      NextIsYounger(s, x);
      var d := Next(s.tasks, s.running, x).value;
      assert TaskOk(s.tasks, s.running, x);
      if s.tasks[x].loc.OnCpu? { assert RunOk(s.tasks, s.running, s.tasks[x].loc.w); }
      AllAlive(s, d);
    }
  }

  /** The machine can get to a step that puts `x`, which is not running, on a worker. */
  ghost predicate Restarts(s: State, m: State, a: Action, x: Id) {
    Reach(s, m) && Inv(m) && Starts(m, a, x) && !m.tasks[x].loc.OnCpu?
  }

  lemma FromLane(s: State, x: Id) returns (m: State, a: Action)
    requires Inv(s) && x in s.tasks && s.tasks[x].loc.InLane?
    ensures Restarts(s, m, a, x)
  {
    var w, b := s.tasks[x].loc.w, s.tasks[x].born;
    var k := ClearBoth(s, w, s.tasks[x].home, b);
    assert k.tasks[x] == s.tasks[x];
    m := HearAll(k, x);
    Then(s, k, m);
    LaneStarts(m, w, x);
    a := PopLane(w, x);
  }

  lemma FromTimer(s: State, x: Id) returns (m: State, a: Action)
    requires Inv(s) && x in s.tasks && s.tasks[x].loc.Timed?
    ensures Restarts(s, m, a, x)
  {
    var w := s.tasks[x].loc.w;
    m := Clear(s, w);
    assert m.tasks[x] == s.tasks[x];
    TimerStarts(m, w, x);
    a := TimerRun(w, x);
  }

  lemma FromSleep(s: State, x: Id) returns (m: State, a: Action)
    requires Inv(s) && Sleeps(s, x) && Alive(s.tasks, s.running, x)
    ensures Restarts(s, m, a, x)
  {
    var d := s.tasks[x].loc.on;
    NextIsYounger(s, x);
    var k := Drive(s, d);
    m := ReadyToDeliver(s, k, x, d);
    a := PopEvent(s.tasks[x].home, d);
  }

  lemma FromWorker(s: State, x: Id) returns (m: State, a: Action)
    requires Inv(s) && x in s.tasks && s.tasks[x].loc.OnCpu? && s.tasks[x].periodic && Alive(s.tasks, s.running, x)
    ensures Restarts(s, m, a, x)
  {
    var w := s.tasks[x].loc.w;
    assert TaskOk(s.tasks, s.running, x);
    if s.running[w].phase.Free? {
      var k := After(s, Finish(w));
      EndsAs(s, w);
      Go(s, Finish(w));
      m, a := FromTimer(k, x);
      Then(s, k, m);
    } else {
      var k := FallAsleep(s, x);
      m, a := FromSleep(k, x);
      Then(s, k, m);
    }
  }

  /** From wherever a run that drops nothing has led, some run executes a periodic task once more. */
  lemma PeriodicRunsAgain(acts: seq<Action>, x: Id) returns (m: State, a: Action)
    requires TameRun(INIT, acts) && x in Final(INIT, acts).tasks && Final(INIT, acts).tasks[x].periodic
    ensures Restarts(Final(INIT, acts), m, a, x)
  {
    InitOk();
    RunDropsNone(INIT, acts);
    var s := Final(INIT, acts);
    assert TaskOk(s.tasks, s.running, x);
    AllAlive(s, x);
    var l := s.tasks[x].loc;
    if l.InLane? { m, a := FromLane(s, x); }
    else if l.Timed? { m, a := FromTimer(s, x); }
    else if l.Suspended? { m, a := FromSleep(s, x); }
    else { m, a := FromWorker(s, x); }
  }
}

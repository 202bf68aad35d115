/**
 * Awaiting subtasks: tasks, futures, lanes, event queues and timer queues of any
 * number of workers, as one state machine over the atomic steps of the code.
 *
 * A future is named by the subtask it belongs to. An await is three steps, as in
 * the code: look at the completion flag, record the awaited future, suspend.
 */
module Await {
  import opened Words

  type Id = nat
  type W = nat

  /** Where a task is. The queues are kept separately; the invariant ties the two. */
  datatype Loc =
    | InLane(w: W)
    | OnCpu(w: W)           // its coroutine executes on w
    | Timed(w: W)           // in a periodic or blocked queue of w
    | Suspended(on: Id)     // waits for the event of subtask `on`; in no queue
    | Stalled               // yielded with delay 0; in no queue
    | InEvents(w: W)        // finished; its completion event is queued at w
    | Ended                 // finished, and whoever waits has been told
    | Lost                  // dropped on an error return: nobody will be told

  /** `born` numbers the tasks in order of creation. */
  datatype Task = Task(
    born: nat, parent: Option<Id>, fireAndForget: bool, periodic: bool,
    started: bool, yielded: bool, awaited: Option<Id>,
    coroDone: bool, complete: bool, home: W, loc: Loc)

  /** How far the running coroutine is in an await. */
  datatype Phase = Free | Checked(c: Id) | Recorded(c: Id)
  datatype Exec = Exec(task: Id, phase: Phase)

  datatype State = State(
    tasks: map<Id, Task>,
    lane: multiset<(W, Id)>, timer: multiset<(W, Id)>, events: multiset<(W, Id)>,
    running: map<W, Exec>)

  const INIT := State(map[], multiset{}, multiset{}, multiset{}, map[])

  datatype Action =
    | Submit(w: W, id: Id, periodic: bool)               // a client task enters a lane
    | Spawn(w: W, id: Id, dst: W, fireAndForget: bool)   // SendIn of a subtask by the running task
    | PopLane(w: W, id: Id)                              // bind to this worker, start or resume
    | FailPop(w: W, id: Id)                              // no container: flag complete, drop
    | AwaitCheck(w: W, c: Id)
    | AwaitRecord(w: W)
    | AwaitSuspend(w: W)
    | YieldFor(w: W)                                     // yield with a positive delay
    | YieldZero(w: W)                                    // yield with delay 0
    | TimerRun(w: W, id: Id)                             // due, routed to this worker
    | TimerReroute(w: W, id: Id, dst: W)                 // due, routed to another worker's lane
    | Finish(w: W)
    | FinishLost(w: W)                                   // EndTask finds no container
    | PopEvent(w: W, c: Id)

  predicate Running(s: State, w: W) { w in s.running && s.running[w].task in s.tasks }
  predicate Freely(s: State, w: W) { Running(s, w) && s.running[w].phase.Free? }
  predicate Idle(s: State, w: W) { w !in s.running }
  predicate Queued(s: State, q: multiset<(W, Id)>, w: W, id: Id) { Idle(s, w) && (w, id) in q && id in s.tasks }

  predicate Enabled(s: State, a: Action) {
    match a
    case Submit(w, id, _) => id !in s.tasks
    case Spawn(w, id, _, _) => Freely(s, w) && id !in s.tasks
    case PopLane(w, id) => Queued(s, s.lane, w, id)
    case FailPop(w, id) => Queued(s, s.lane, w, id)
    case AwaitCheck(w, c) => Freely(s, w) && c in s.tasks && s.tasks[c].parent == Some(s.running[w].task)
    case AwaitRecord(w) => Running(s, w) && s.running[w].phase.Checked?
    case AwaitSuspend(w) => Running(s, w) && s.running[w].phase.Recorded?
    case YieldFor(w) => Freely(s, w)
    case YieldZero(w) => Freely(s, w)
    case TimerRun(w, id) => Queued(s, s.timer, w, id)
    case TimerReroute(w, id, _) => Queued(s, s.timer, w, id)
    case Finish(w) => Freely(s, w)
    case FinishLost(w) => Freely(s, w)
    case PopEvent(w, c) => Queued(s, s.events, w, c)
  }

  function After(s: State, a: Action): State
    requires Enabled(s, a)
  {
    match a
    case Submit(w, id, periodic) =>
      Enter(s, w, id, Task(|s.tasks|, None, false, periodic, false, false, None, false, false, w, InLane(w)))
    case Spawn(w, id, dst, ff) =>
      Enter(s, dst, id,
            Task(|s.tasks|, Some(s.running[w].task), ff, false, false, false, None, false, false, dst, InLane(dst)))
    case PopLane(w, id) => LaneTaken(s, w, id)
    case FailPop(w, id) => LaneFailed(s, w, id)
    case AwaitCheck(w, c) => CheckDone(s, w, c)
    case AwaitRecord(w) => RecordDone(s, w)
    case AwaitSuspend(w) => Leave(s, w, s.tasks[s.running[w].task].(yielded := true, loc := Suspended(s.running[w].phase.c)))
    case YieldFor(w) => Park(s, w, s.tasks[s.running[w].task].(yielded := true, loc := Timed(w)))
    case YieldZero(w) => Leave(s, w, s.tasks[s.running[w].task].(yielded := true, loc := Stalled))
    case TimerRun(w, id) => Execute(s.(timer := s.timer - multiset{(w, id)}), w, id)
    case TimerReroute(w, id, dst) => Rerouted(s, w, id, dst)
    case Finish(w) => Ending(s, w)
    case FinishLost(w) => Leave(s, w, s.tasks[s.running[w].task].(coroDone := true, loc := Lost))
    case PopEvent(w, c) => Delivered(s, w, c)
  }

  /** A new task is pushed onto a lane. */
  function Enter(s: State, w: W, id: Id, t: Task): State {
    s.(tasks := s.tasks[id := t], lane := s.lane + multiset{(w, id)})
  }

  /** Start or resume task `id` on worker `w`. */
  function Execute(s: State, w: W, id: Id): State
    requires id in s.tasks
  {
    var t := s.tasks[id];
    s.(tasks := s.tasks[id := t.(started := true, yielded := false, coroDone := t.started && t.coroDone, loc := OnCpu(w))],
       running := s.running[w := Exec(id, Free)])
  }

  /** The task running on `w` stops running and becomes `t`. */
  function Leave(s: State, w: W, t: Task): State
    requires Running(s, w)
  {
    s.(tasks := s.tasks[s.running[w].task := t], running := s.running - {w})
  }

  /** The same, into a timer queue of `w`. */
  function Park(s: State, w: W, t: Task): State
    requires Running(s, w)
  {
    Leave(s, w, t).(timer := s.timer + multiset{(w, s.running[w].task)})
  }

  /** Popped from the lane: bound to this worker's event queue, then executed. */
  function LaneTaken(s: State, w: W, id: Id): State
    requires id in s.tasks
  {
    Execute(s.(tasks := s.tasks[id := s.tasks[id].(home := w)], lane := s.lane - multiset{(w, id)}), w, id)
  }

  /** Popped from the lane with no container to run it: flagged complete, no event sent. */
  function LaneFailed(s: State, w: W, id: Id): State
    requires id in s.tasks
  {
    var t := s.tasks[id].(complete := true, loc := if s.tasks[id].parent.None? then Ended else Lost);
    s.(tasks := s.tasks[id := t], lane := s.lane - multiset{(w, id)})
  }

  function CheckDone(s: State, w: W, c: Id): State
    requires Running(s, w) && c in s.tasks
  {
    if s.tasks[c].complete || s.tasks[c].fireAndForget then s
    else s.(running := s.running[w := Exec(s.running[w].task, Checked(c))])
  }

  function RecordDone(s: State, w: W): State
    requires Running(s, w) && s.running[w].phase.Checked?
  {
    var e := s.running[w];
    s.(tasks := s.tasks[e.task := s.tasks[e.task].(awaited := Some(e.phase.c))],
       running := s.running[w := Exec(e.task, Recorded(e.phase.c))])
  }

  function Rerouted(s: State, w: W, id: Id, dst: W): State
    requires id in s.tasks
  {
    s.(tasks := s.tasks[id := s.tasks[id].(yielded := false, loc := InLane(dst))],
       timer := s.timer - multiset{(w, id)}, lane := s.lane + multiset{(dst, id)})
  }

  /** EndTask of the task running on `w`. */
  function Ending(s: State, w: W): State
    requires Running(s, w)
  {
    var t := s.tasks[s.running[w].task].(coroDone := true);
    if t.periodic then Park(s, w, t.(started := false, loc := Timed(w)))
    else if t.fireAndForget then Leave(s, w, t.(loc := Ended))
    else if t.parent.None? || t.parent.value !in s.tasks then Leave(s, w, t.(complete := true, loc := Ended))
    else Answer(s, w, t, s.tasks[t.parent.value].home)
  }

  /** A finished subtask is queued on the event queue `q` of its parent. */
  function Answer(s: State, w: W, t: Task, q: W): State
    requires Running(s, w)
  {
    Leave(s, w, t.(loc := InEvents(q))).(events := s.events + multiset{(q, s.running[w].task)})
  }

  /** ProcessEventQueue for one event: complete the future, resume the parent only if it waits for exactly it. */
  function Delivered(s: State, w: W, c: Id): State
    requires c in s.tasks
  {
    var s' := Told(s, w, c);
    var parent := s.tasks[c].parent;
    if parent.None? || parent.value !in s'.tasks then s'
    else if s'.tasks[parent.value].coroDone || s'.tasks[parent.value].awaited != Some(c) then s'
    else Resumed(s', w, parent.value)
  }

  function Told(s: State, w: W, c: Id): State
    requires c in s.tasks
  {
    s.(tasks := s.tasks[c := s.tasks[c].(complete := true, loc := Ended)], events := s.events - multiset{(w, c)})
  }

  function Resumed(s: State, w: W, p: Id): State
    requires p in s.tasks
  {
    Execute(s.(tasks := s.tasks[p := s.tasks[p].(awaited := None)]), w, p)
  }

  ghost predicate EnabledRun(s: State, acts: seq<Action>)
    decreases |acts|
  {
    acts == [] || (Enabled(s, acts[0]) && EnabledRun(After(s, acts[0]), acts[1..]))
  }

  /** The state a run ends in. */
  ghost function Final(s: State, acts: seq<Action>): State
    decreases |acts|
  {
    if acts == [] || !Enabled(s, acts[0]) then s else Final(After(s, acts[0]), acts[1..])
  }

  // ------------------------------------------------------------------ invariant

  type Tasks = map<Id, Task>
  type Runs = map<W, Exec>

  /** No event of a subtask of `p` is queued. */
  ghost predicate Settled(ts: Tasks, p: Id) {
    forall c :: c in ts && ts[c].parent == Some(p) ==> !ts[c].loc.InEvents?
  }

  /** A task is only bound to another worker when no event for it waits at the old one. */
  ghost predicate Careful(s: State, a: Action) {
    a.PopLane? ==> a.id in s.tasks && (s.tasks[a.id].home == a.w || Settled(s.tasks, a.id))
  }

  ghost predicate CarefulRun(s: State, acts: seq<Action>)
    decreases |acts|
  {
    acts == [] || (Enabled(s, acts[0]) && Careful(s, acts[0]) && CarefulRun(After(s, acts[0]), acts[1..]))
  }

  datatype Kind = Lanes | Timers | EventQueues

  function At(k: Kind, w: W): Loc {
    match k case Lanes => InLane(w) case Timers => Timed(w) case EventQueues => InEvents(w)
  }

  /** A queue holds exactly the tasks located in it, once each. */
  ghost predicate Holds(q: multiset<(W, Id)>, ts: Tasks, k: Kind) {
    forall w, id :: q[(w, id)] == if id in ts && ts[id].loc == At(k, w) then 1 else 0
  }

  ghost predicate QueuesOk(s: State) {
    Holds(s.lane, s.tasks, Lanes) && Holds(s.timer, s.tasks, Timers) && Holds(s.events, s.tasks, EventQueues)
  }

  /** The subtask `c` that `p` awaits: its own, answering, and not answered yet. */
  ghost predicate Awaitable(ts: Tasks, p: Id, c: Id) {
    c in ts && ts[c].parent == Some(p) && !ts[c].fireAndForget && !ts[c].loc.Ended?
  }

  ghost predicate Recording(rs: Runs, w: W, c: Id) { w in rs && rs[w].phase == Recorded(c) }

  ghost predicate TaskOk(ts: Tasks, rs: Runs, id: Id)
    requires id in ts
  {
    var t := ts[id];
    && t.born < |ts|
    && (t.parent.Some? ==> t.parent.value in ts && ts[t.parent.value].born < t.born && !t.periodic)
    && (t.loc.OnCpu? ==> t.loc.w in rs && rs[t.loc.w].task == id)
    && (t.loc.OnCpu? || t.loc.Timed? ==> t.home == t.loc.w)
    && (t.loc.InEvents? ==> t.parent.Some? && t.parent.value in ts && ts[t.parent.value].home == t.loc.w
                            && !t.fireAndForget)
    && (t.loc.Suspended? ==> t.awaited == Some(t.loc.on) && Awaitable(ts, id, t.loc.on))
    && (t.loc.OnCpu? || t.loc.Suspended? ==> !t.coroDone && t.started)
    && ((t.loc.Timed? || t.loc.InLane?) && t.started ==> !t.coroDone)
    && (t.complete ==> t.loc.Ended? || t.loc.Lost?)
    && (t.loc.Ended? ==> t.complete || t.fireAndForget)
    && (t.awaited.Some? ==> t.loc == Suspended(t.awaited.value) || (t.loc.OnCpu? && Recording(rs, t.loc.w, t.awaited.value)))
  }

  /** The worker executes a task located there, and an await in progress is for an awaitable subtask. */
  ghost predicate RunOk(ts: Tasks, rs: Runs, w: W)
    requires w in rs
  {
    var e := rs[w];
    && e.task in ts && ts[e.task].loc == OnCpu(w)
    && (!e.phase.Free? ==> Awaitable(ts, e.task, e.phase.c))
    && (e.phase.Recorded? ==> ts[e.task].awaited == Some(e.phase.c))
    && (!e.phase.Recorded? ==> ts[e.task].awaited == None)
  }

  ghost predicate TasksOk(ts: Tasks, rs: Runs) {
    && (forall id :: id in ts ==> TaskOk(ts, rs, id))
    && (forall w :: w in rs ==> RunOk(ts, rs, w))
  }

  ghost predicate Inv(s: State) { QueuesOk(s) && TasksOk(s.tasks, s.running) }

  // ------------------------------------------------- what changing one task keeps

  lemma QueueStep(q: multiset<(W, Id)>, q': multiset<(W, Id)>, ts: Tasks, id: Id, t: Task, k: Kind)
    requires Holds(q, ts, k)
    requires forall w, j :: j != id ==> q'[(w, j)] == q[(w, j)]
    requires forall w :: q'[(w, id)] == if t.loc == At(k, w) then 1 else 0
    ensures Holds(q', ts[id := t], k)
  {
  }

  /** Nobody can be waiting for `id`. */
  ghost predicate Unawaited(ts: Tasks, rs: Runs, id: Id) {
    && (forall j :: j in ts ==> ts[j].loc != Suspended(id))
    && (forall v :: v in rs ==> rs[v].phase.Free? || rs[v].phase.c != id)
  }

  /** Task `id` changes to `t` and at most the workers `ws` change, which run it; the others are not disturbed. */
  ghost predicate Touches(ts: Tasks, rs: Runs, id: Id, t: Task, ws: set<W>, rs': Runs) {
    && (forall v :: v !in ws ==> (v in rs' <==> v in rs))
    && (forall v :: v !in ws && v in rs ==> rs'[v] == rs[v])
    && (forall v :: v in ws && v in rs ==> rs[v].task == id)
    && (id in ts ==> && t.parent == ts[id].parent && t.fireAndForget == ts[id].fireAndForget && t.born == ts[id].born
                     && !ts[id].loc.Ended? && !ts[id].loc.Lost?
                     && (t.home == ts[id].home || Settled(ts, id))
                     && (ts[id].loc.OnCpu? ==> ts[id].loc.w in ws))
    && (id !in ts ==> t.parent.Some? ==> t.parent.value in ts && t.parent.value != id)
    && (t.loc.Ended? ==> Unawaited(ts, rs', id))
  }

  lemma TouchKeepsTask(ts: Tasks, rs: Runs, id: Id, t: Task, ws: set<W>, rs': Runs, j: Id)
    requires TasksOk(ts, rs) && Touches(ts, rs, id, t, ws, rs') && j in ts && j != id
    ensures TaskOk(ts[id := t], rs', j)
  {
    assert TaskOk(ts, rs, j);
    var u := ts[j];
    if u.loc.OnCpu? { assert u.loc.w !in ws; }
    if u.loc.InEvents? && u.parent == Some(id) { assert !Settled(ts, id); }
  }

  lemma TouchKeepsRun(ts: Tasks, rs: Runs, id: Id, t: Task, ws: set<W>, rs': Runs, v: W)
    requires TasksOk(ts, rs) && Touches(ts, rs, id, t, ws, rs') && v in rs' && v !in ws
    ensures RunOk(ts[id := t], rs', v)
  {
    assert RunOk(ts, rs, v);
  }

  /** Changing one task keeps the invariant if the task itself and its worker are in order. */
  lemma Touch(ts: Tasks, rs: Runs, id: Id, t: Task, ws: set<W>, rs': Runs)
    requires TasksOk(ts, rs) && Touches(ts, rs, id, t, ws, rs')
    requires TaskOk(ts[id := t], rs', id) && forall v :: v in ws && v in rs' ==> RunOk(ts[id := t], rs', v)
    ensures TasksOk(ts[id := t], rs')
  {
    forall j | j in ts && j != id ensures TaskOk(ts[id := t], rs', j) {
      TouchKeepsTask(ts, rs, id, t, ws, rs', j);
    }
    forall v | v in rs' && v !in ws ensures RunOk(ts[id := t], rs', v) {
      TouchKeepsRun(ts, rs, id, t, ws, rs', v);
    }
  }

  /** Queue by queue: only the place of `id` changed, to where `t` says it is. */
  ghost predicate Requeued(q: multiset<(W, Id)>, q': multiset<(W, Id)>, id: Id, t: Task, k: Kind) {
    && (forall w, j :: j != id ==> q'[(w, j)] == q[(w, j)])
    && (forall w :: q'[(w, id)] == if t.loc == At(k, w) then 1 else 0)
  }

  ghost predicate AllRequeued(s: State, s': State, id: Id, t: Task) {
    && Requeued(s.lane, s'.lane, id, t, Lanes) && Requeued(s.timer, s'.timer, id, t, Timers)
    && Requeued(s.events, s'.events, id, t, EventQueues)
  }

  lemma Moved(s: State, s': State, id: Id, t: Task, ws: set<W>)
    requires Inv(s) && s'.tasks == s.tasks[id := t] && AllRequeued(s, s', id, t)
    requires Touches(s.tasks, s.running, id, t, ws, s'.running)
    requires TaskOk(s'.tasks, s'.running, id)
    requires forall v :: v in ws && v in s'.running ==> RunOk(s'.tasks, s'.running, v)
    ensures Inv(s')
  {
    QueueStep(s.lane, s'.lane, s.tasks, id, t, Lanes);
    QueueStep(s.timer, s'.timer, s.tasks, id, t, Timers);
    QueueStep(s.events, s'.events, s.tasks, id, t, EventQueues);
    Touch(s.tasks, s.running, id, t, ws, s'.running);
  }

  // ------------------------------------------------------------ every step keeps it

  lemma EnterKeeps(s: State, w: W, id: Id, t: Task)
    requires Inv(s) && id !in s.tasks && t.born == |s.tasks| && t.loc == InLane(w)
    requires !t.started && t.awaited.None? && !t.complete
    requires t.parent.Some? ==> t.parent.value in s.tasks && !t.periodic
    ensures Inv(Enter(s, w, id, t))
  {
    forall c | c in s.tasks ensures s.tasks[c].parent != Some(id) { assert TaskOk(s.tasks, s.running, c); }
    Moved(s, Enter(s, w, id, t), id, t, {});
  }

  /** A task that may run next is picked up by an idle worker: from a lane, from a timer queue, or by its event. */
  lemma ExecuteKeeps(s: State, s': State, w: W, id: Id, t: Task)
    requires Inv(s) && Idle(s, w) && id in s.tasks && AllRequeued(s, s', id, t)
    requires s'.tasks == s.tasks[id := t] && s'.running == s.running[w := Exec(id, Free)]
    requires !s.tasks[id].loc.OnCpu? && !s.tasks[id].loc.Ended? && !s.tasks[id].loc.Lost?
    requires t == s.tasks[id].(home := t.home, started := true, yielded := false, coroDone := false, awaited := None,
                               loc := OnCpu(w))
    requires t.home == s.tasks[id].home || Settled(s.tasks, id)
    requires t.home == w
    ensures Inv(s')
  {
    assert TaskOk(s.tasks, s.running, id);
    Moved(s, s', id, t, {w});
  }

  lemma LaneTakenKeeps(s: State, w: W, id: Id)
    requires Inv(s) && Queued(s, s.lane, w, id) && (s.tasks[id].home == w || Settled(s.tasks, id))
    ensures Inv(LaneTaken(s, w, id))
  {
    assert TaskOk(s.tasks, s.running, id);
    assert s.lane[(w, id)] == 1;
    var s' := LaneTaken(s, w, id);
    assert s'.tasks == s.tasks[id := s'.tasks[id]];
    ExecuteKeeps(s, s', w, id, s'.tasks[id]);
  }

  lemma TimerRunKeeps(s: State, w: W, id: Id)
    requires Inv(s) && Queued(s, s.timer, w, id)
    ensures Inv(Execute(s.(timer := s.timer - multiset{(w, id)}), w, id))
  {
    assert TaskOk(s.tasks, s.running, id);
    assert s.timer[(w, id)] == 1;
    var s' := Execute(s.(timer := s.timer - multiset{(w, id)}), w, id);
    ExecuteKeeps(s, s', w, id, s'.tasks[id]);
  }

  lemma LaneFailedKeeps(s: State, w: W, id: Id)
    requires Inv(s) && Queued(s, s.lane, w, id)
    ensures Inv(LaneFailed(s, w, id))
  {
    assert TaskOk(s.tasks, s.running, id);
    assert s.lane[(w, id)] == 1;
    var s' := LaneFailed(s, w, id);
    if s'.tasks[id].loc.Ended? { OnlyTheParentWaits(s, id); }
    Moved(s, s', id, s'.tasks[id], {});
  }

  /** Nobody waits for a task without parent, nor for one that sends no answer. */
  lemma OnlyTheParentWaits(s: State, id: Id)
    requires Inv(s) && id in s.tasks && (s.tasks[id].parent.None? || s.tasks[id].fireAndForget)
    ensures Unawaited(s.tasks, s.running, id)
  {
    forall j | j in s.tasks ensures s.tasks[j].loc != Suspended(id) { assert TaskOk(s.tasks, s.running, j); }
    forall v | v in s.running ensures s.running[v].phase.Free? || s.running[v].phase.c != id {
      assert RunOk(s.tasks, s.running, v);
    }
  }

  lemma CheckKeeps(s: State, w: W, c: Id)
    requires Inv(s) && Freely(s, w) && c in s.tasks && s.tasks[c].parent == Some(s.running[w].task)
    ensures Inv(CheckDone(s, w, c))
  {
    var id := s.running[w].task;
    var s' := CheckDone(s, w, c);
    assert RunOk(s.tasks, s.running, w) && TaskOk(s.tasks, s.running, id) && TaskOk(s.tasks, s.running, c);
    assert s'.tasks == s.tasks[id := s.tasks[id]];
    Moved(s, s', id, s.tasks[id], {w});
  }

  lemma RecordKeeps(s: State, w: W)
    requires Inv(s) && Running(s, w) && s.running[w].phase.Checked?
    ensures Inv(RecordDone(s, w))
  {
    var id := s.running[w].task;
    var s' := RecordDone(s, w);
    assert RunOk(s.tasks, s.running, w) && TaskOk(s.tasks, s.running, id);
    Moved(s, s', id, s'.tasks[id], {w});
  }

  /** The running task leaves its worker. */
  lemma LeaveKeeps(s: State, s': State, w: W, t: Task)
    requires Inv(s) && Running(s, w) && s'.running == s.running - {w}
    requires s'.tasks == s.tasks[s.running[w].task := t] && AllRequeued(s, s', s.running[w].task, t)
    requires
      var u := s.tasks[s.running[w].task];
      t.parent == u.parent && t.fireAndForget == u.fireAndForget && t.born == u.born && t.home == u.home
    requires t.loc.Ended? ==> Unawaited(s.tasks, s'.running, s.running[w].task)
    requires TaskOk(s'.tasks, s'.running, s.running[w].task)
    ensures Inv(s')
  {
    assert RunOk(s.tasks, s.running, w);
    Moved(s, s', s.running[w].task, t, {w});
  }

  lemma SuspendKeeps(s: State, w: W)
    requires Inv(s) && Running(s, w) && s.running[w].phase.Recorded?
    ensures Inv(After(s, AwaitSuspend(w)))
  {
    var id := s.running[w].task;
    var s' := After(s, AwaitSuspend(w));
    assert RunOk(s.tasks, s.running, w) && TaskOk(s.tasks, s.running, id);
    LeaveKeeps(s, s', w, s'.tasks[id]);
  }

  lemma ParkKeeps(s: State, w: W, t: Task)
    requires Inv(s) && Freely(s, w)
    requires t == s.tasks[s.running[w].task].(yielded := t.yielded, started := t.started, coroDone := t.coroDone,
                                              loc := Timed(w))
    requires t.started ==> !t.coroDone
    ensures Inv(Park(s, w, t))
  {
    assert RunOk(s.tasks, s.running, w) && TaskOk(s.tasks, s.running, s.running[w].task);
    LeaveKeeps(s, Park(s, w, t), w, t);
  }

  /** The running task ends without sending an event. */
  lemma DropKeeps(s: State, w: W, t: Task)
    requires Inv(s) && Freely(s, w)
    requires t == s.tasks[s.running[w].task].(yielded := t.yielded, coroDone := t.coroDone, complete := t.complete,
                                              loc := t.loc)
    requires t.loc.Stalled? || t.loc.Lost? || (t.loc.Ended? && (t.fireAndForget || (t.complete && t.parent.None?)))
    requires t.complete ==> !t.loc.Stalled?
    ensures Inv(Leave(s, w, t))
  {
    var id := s.running[w].task;
    assert RunOk(s.tasks, s.running, w) && TaskOk(s.tasks, s.running, id);
    if t.loc.Ended? { OnlyTheParentWaits(s, id); }
    LeaveKeeps(s, Leave(s, w, t), w, t);
  }

  lemma AnswerKeeps(s: State, w: W)
    requires Inv(s) && Freely(s, w)
    requires
      var t := s.tasks[s.running[w].task];
      !t.fireAndForget && t.parent.Some? && t.parent.value in s.tasks
    ensures
      var t := s.tasks[s.running[w].task];
      Inv(Answer(s, w, t.(coroDone := true), s.tasks[t.parent.value].home))
  {
    var t := s.tasks[s.running[w].task];
    var s' := Answer(s, w, t.(coroDone := true), s.tasks[t.parent.value].home);
    assert RunOk(s.tasks, s.running, w) && TaskOk(s.tasks, s.running, s.running[w].task);
    LeaveKeeps(s, s', w, s'.tasks[s.running[w].task]);
  }

  lemma RerouteKeeps(s: State, w: W, id: Id, dst: W)
    requires Inv(s) && Queued(s, s.timer, w, id)
    ensures Inv(Rerouted(s, w, id, dst))
  {
    assert TaskOk(s.tasks, s.running, id);
    assert s.timer[(w, id)] == 1;
    var s' := Rerouted(s, w, id, dst);
    Moved(s, s', id, s'.tasks[id], {});
  }

  // ---------------------------------------------------------------- the event queue

  /** The parent of `c` sits suspended on exactly `c`. */
  predicate WaitsFor(s: State, c: Id) {
    c in s.tasks && s.tasks[c].parent.Some? && s.tasks[c].parent.value in s.tasks
    && s.tasks[s.tasks[c].parent.value].loc == Suspended(c)
  }

  lemma EventFacts(s: State, w: W, c: Id)
    requires Inv(s) && Queued(s, s.events, w, c)
    ensures
      var t := s.tasks[c];
      && t.loc == InEvents(w) && !t.fireAndForget && t.parent.Some? && t.parent.value in s.tasks && t.parent.value != c
      && s.tasks[t.parent.value].home == w
  {
    assert TaskOk(s.tasks, s.running, c);
    assert s.events[(w, c)] == 1;
  }

  lemma ToldKeeps(s: State, w: W, c: Id)
    requires Inv(s) && (w, c) in s.events && c in s.tasks && !WaitsFor(s, c)
    requires forall v :: v in s.running ==> s.running[v].phase.Free? || s.running[v].phase.c != c
    ensures Inv(Told(s, w, c))
  {
    assert TaskOk(s.tasks, s.running, c);
    assert s.events[(w, c)] == 1;
    forall j | j in s.tasks ensures s.tasks[j].loc != Suspended(c) { assert TaskOk(s.tasks, s.running, j); }
    Moved(s, Told(s, w, c), c, Told(s, w, c).tasks[c], {});
  }

  lemma ResumedKeeps(s: State, w: W, p: Id)
    requires Inv(s) && Idle(s, w) && p in s.tasks && s.tasks[p].loc.Suspended? && s.tasks[p].home == w
    ensures Inv(Resumed(s, w, p))
  {
    var s' := Resumed(s, w, p);
    assert TaskOk(s.tasks, s.running, p);
    assert s'.tasks == s.tasks[p := s'.tasks[p]];
    ExecuteKeeps(s, s', w, p, s'.tasks[p]);
  }

  /**
   * An event is handled by the worker its parent is bound to, so at that moment the parent is not
   * executing: it either waits for exactly this subtask, or has not begun to.
   */
  lemma ParentIsStill(s: State, w: W, c: Id)
    requires Inv(s) && Queued(s, s.events, w, c)
    ensures forall v :: v in s.running ==> s.running[v].phase.Free? || s.running[v].phase.c != c
    ensures
      var p := s.tasks[s.tasks[c].parent.value];
      !WaitsFor(s, c) ==> p.awaited != Some(c)
  {
    EventFacts(s, w, c);
    assert TaskOk(s.tasks, s.running, s.tasks[c].parent.value);
    forall v | v in s.running ensures s.running[v].phase.Free? || s.running[v].phase.c != c {
      assert RunOk(s.tasks, s.running, v);
      assert TaskOk(s.tasks, s.running, s.running[v].task);
    }
  }

  lemma DeliveredTells(s: State, w: W, c: Id)
    requires Inv(s) && Queued(s, s.events, w, c) && !WaitsFor(s, c)
    ensures Delivered(s, w, c) == Told(s, w, c)
    ensures Inv(Delivered(s, w, c))
  {
    EventFacts(s, w, c);
    ParentIsStill(s, w, c);
    ToldKeeps(s, w, c);
  }

  /** Telling the future and resuming the parent touch different tasks, so they commute. */
  lemma ResumeCommutes(s: State, w: W, c: Id)
    requires Inv(s) && Queued(s, s.events, w, c) && WaitsFor(s, c)
    ensures Delivered(s, w, c) == Told(Resumed(s, w, s.tasks[c].parent.value), w, c)
  {
    var p := s.tasks[c].parent.value;
    EventFacts(s, w, c);
    assert TaskOk(s.tasks, s.running, p);
    assert Delivered(s, w, c).tasks == Told(Resumed(s, w, p), w, c).tasks;
  }

  lemma DeliveredResumes(s: State, w: W, c: Id)
    requires Inv(s) && Queued(s, s.events, w, c) && WaitsFor(s, c)
    ensures Delivered(s, w, c) == Told(Resumed(s, w, s.tasks[c].parent.value), w, c)
    ensures Inv(Delivered(s, w, c))
  {
    var p := s.tasks[c].parent.value;
    EventFacts(s, w, c);
    ParentIsStill(s, w, c);
    ResumedKeeps(s, w, p);
    ResumeCommutes(s, w, c);
    ToldKeeps(Resumed(s, w, p), w, c);
  }

  lemma EndingKeeps(s: State, w: W)
    requires Inv(s) && Freely(s, w)
    ensures Inv(Ending(s, w))
  {
    var u := s.tasks[s.running[w].task];
    assert TaskOk(s.tasks, s.running, s.running[w].task);
    var t := u.(coroDone := true);
    if t.periodic { ParkKeeps(s, w, t.(started := false, loc := Timed(w))); }
    else if t.fireAndForget { DropKeeps(s, w, t.(loc := Ended)); }
    else if t.parent.None? { DropKeeps(s, w, t.(complete := true, loc := Ended)); }
    else { AnswerKeeps(s, w); }
  }

  lemma StepKeepsInv(s: State, a: Action)
    requires Inv(s) && Enabled(s, a) && Careful(s, a)
    ensures Inv(After(s, a))
  {
    match a
    case Submit(w, id, periodic) => EnterKeeps(s, w, id, After(s, a).tasks[id]);
    case Spawn(w, id, dst, ff) =>
      assert RunOk(s.tasks, s.running, w);
      EnterKeeps(s, dst, id, After(s, a).tasks[id]);
    case PopLane(w, id) => LaneTakenKeeps(s, w, id);
    case FailPop(w, id) => LaneFailedKeeps(s, w, id);
    case AwaitCheck(w, c) => CheckKeeps(s, w, c);
    case AwaitRecord(w) => RecordKeeps(s, w);
    case AwaitSuspend(w) => SuspendKeeps(s, w);
    case YieldFor(w) =>
      assert RunOk(s.tasks, s.running, w) && TaskOk(s.tasks, s.running, s.running[w].task);
      ParkKeeps(s, w, s.tasks[s.running[w].task].(yielded := true, loc := Timed(w)));
    case YieldZero(w) =>
      assert RunOk(s.tasks, s.running, w) && TaskOk(s.tasks, s.running, s.running[w].task);
      DropKeeps(s, w, s.tasks[s.running[w].task].(yielded := true, loc := Stalled));
    case TimerRun(w, id) => TimerRunKeeps(s, w, id);
    case TimerReroute(w, id, dst) => RerouteKeeps(s, w, id, dst);
    case Finish(w) => EndingKeeps(s, w);
    case FinishLost(w) => DropKeeps(s, w, s.tasks[s.running[w].task].(coroDone := true, loc := Lost));
    case PopEvent(w, c) =>
      if WaitsFor(s, c) { DeliveredResumes(s, w, c); } else { DeliveredTells(s, w, c); }
  }

  lemma {:induction false} RunKeepsInv(s: State, acts: seq<Action>)
    requires Inv(s) && CarefulRun(s, acts)
    ensures Inv(Final(s, acts))
    decreases |acts|
  {
    if acts != [] {
      StepKeepsInv(s, acts[0]);
      RunKeepsInv(After(s, acts[0]), acts[1..]);
    }
  }

  /** The condition is exact: binding a task to another worker breaks the invariant if an event for it is queued. */
  lemma BindingSafeIff(s: State, w: W, id: Id)
    requires Inv(s) && Queued(s, s.lane, w, id)
    ensures Inv(After(s, PopLane(w, id))) <==> s.tasks[id].home == w || Settled(s.tasks, id)
  {
    if s.tasks[id].home == w || Settled(s.tasks, id) {
      LaneTakenKeeps(s, w, id);
    } else {
      var c :| c in s.tasks && s.tasks[c].parent == Some(id) && s.tasks[c].loc.InEvents?;
      EventStaysBehind(s, w, id, c);
    }
  }

  lemma EventStaysBehind(s: State, w: W, id: Id, c: Id)
    requires Inv(s) && Queued(s, s.lane, w, id) && s.tasks[id].home != w
    requires c in s.tasks && s.tasks[c].parent == Some(id) && s.tasks[c].loc.InEvents?
    ensures !TasksOk(LaneTaken(s, w, id).tasks, LaneTaken(s, w, id).running)
  {
    assert TaskOk(s.tasks, s.running, c);
    var s' := LaneTaken(s, w, id);
    assert c in s'.tasks && !TaskOk(s'.tasks, s'.running, c);
  }

  lemma InitOk()
    ensures Inv(INIT)
  {
  }

  // -------------------------------------------------------------- what a run guarantees

  /** The tasks a step changes. */
  function Touched(s: State, a: Action): set<Id>
    requires Enabled(s, a)
  {
    match a
    case Submit(_, id, _) => {id}
    case Spawn(_, id, _, _) => {id}
    case PopLane(_, id) => {id}
    case FailPop(_, id) => {id}
    case AwaitCheck(_, _) => {}
    case AwaitRecord(w) => {s.running[w].task}
    case AwaitSuspend(w) => {s.running[w].task}
    case YieldFor(w) => {s.running[w].task}
    case YieldZero(w) => {s.running[w].task}
    case TimerRun(_, id) => {id}
    case TimerReroute(_, id, _) => {id}
    case Finish(w) => {s.running[w].task}
    case FinishLost(w) => {s.running[w].task}
    case PopEvent(_, c) => if WaitsFor(s, c) then {c, s.tasks[c].parent.value} else {c}
  }

  lemma EventTouches(s: State, w: W, c: Id, j: Id)
    requires Inv(s) && Queued(s, s.events, w, c) && j in s.tasks && j !in Touched(s, PopEvent(w, c))
    ensures j in Delivered(s, w, c).tasks && Delivered(s, w, c).tasks[j] == s.tasks[j]
  {
    if WaitsFor(s, c) { DeliveredResumes(s, w, c); } else { DeliveredTells(s, w, c); }
  }

  lemma OthersUntouched(s: State, a: Action, j: Id)
    requires Inv(s) && Enabled(s, a) && Careful(s, a) && j in s.tasks && j !in Touched(s, a)
    ensures j in After(s, a).tasks && After(s, a).tasks[j] == s.tasks[j]
  {
    match a
    case PopEvent(w, c) => EventTouches(s, w, c, j);
    case _ =>
  }

  /** Where the tasks changed by a step are. */
  lemma TouchedAre(s: State, a: Action, j: Id)
    requires Inv(s) && Enabled(s, a) && j in s.tasks && j in Touched(s, a)
    ensures
      var l := s.tasks[j].loc;
      l.OnCpu? || l.InLane? || l.Timed? || (a.PopEvent? && (l == InEvents(a.w) || l == Suspended(a.c)))
  {
    if a.w in s.running { assert RunOk(s.tasks, s.running, a.w); }
    if a.PopEvent? { EventFacts(s, a.w, a.c); }
  }

  lemma CompleteStays(s: State, a: Action, c: Id)
    requires Inv(s) && Enabled(s, a) && Careful(s, a) && c in s.tasks && s.tasks[c].complete
    ensures c in After(s, a).tasks && After(s, a).tasks[c].complete
  {
    assert TaskOk(s.tasks, s.running, c);
    if c in Touched(s, a) { TouchedAre(s, a, c); }
    OthersUntouched(s, a, c);
  }

  /** The event of the awaited subtask marks it complete and runs its parent again. */
  lemma ItsEventWakes(s: State, w: W, p: Id, c: Id)
    requires Inv(s) && Queued(s, s.events, w, c) && p in s.tasks && s.tasks[p].loc == Suspended(c)
    ensures
      var s' := Delivered(s, w, c);
      && p in s'.tasks && s'.tasks[p].loc == OnCpu(w) && s'.tasks[p].awaited == None
      && w in s'.running && s'.running[w] == Exec(p, Free) && c in s'.tasks && s'.tasks[c].complete
  {
    assert TaskOk(s.tasks, s.running, p);
    EventFacts(s, w, c);
    DeliveredResumes(s, w, c);
  }

  /** No other step moves a suspended parent. */
  lemma OnlyItsEventWakes(s: State, a: Action, p: Id)
    requires Inv(s) && Enabled(s, a) && Careful(s, a) && p in s.tasks && s.tasks[p].loc.Suspended?
    requires a != PopEvent(a.w, s.tasks[p].loc.on)
    ensures p in After(s, a).tasks && After(s, a).tasks[p] == s.tasks[p]
  {
    if p in Touched(s, a) { TouchedAre(s, a, p); }
    OthersUntouched(s, a, p);
  }

  lemma {:induction false} CompleteForever(s: State, acts: seq<Action>, c: Id)
    requires Inv(s) && CarefulRun(s, acts) && c in s.tasks && s.tasks[c].complete
    ensures c in Final(s, acts).tasks && Final(s, acts).tasks[c].complete
    decreases |acts|
  {
    if acts != [] {
      CompleteStays(s, acts[0], c);
      StepKeepsInv(s, acts[0]);
      CompleteForever(After(s, acts[0]), acts[1..], c);
    }
  }

  /** A parent that leaves an await finds the awaited future complete. */
  lemma {:induction false} LeavesOnlyWhenComplete(s: State, acts: seq<Action>, p: Id, c: Id)
    requires Inv(s) && CarefulRun(s, acts) && p in s.tasks && s.tasks[p].loc == Suspended(c)
    ensures
      var t := Final(s, acts);
      p in t.tasks && c in t.tasks && (t.tasks[p].loc == Suspended(c) || t.tasks[c].complete)
    decreases |acts|
  {
    if acts == [] {
      assert TaskOk(s.tasks, s.running, p);
    } else {
      StepKeepsInv(s, acts[0]);
      if acts[0] == PopEvent(acts[0].w, c) {
        ItsEventWakes(s, acts[0].w, p, c);
        CompleteForever(After(s, acts[0]), acts[1..], c);
        StaysKnown(After(s, acts[0]), acts[1..], p);
      } else {
        OnlyItsEventWakes(s, acts[0], p);
        LeavesOnlyWhenComplete(After(s, acts[0]), acts[1..], p, c);
      }
    }
  }

  lemma {:induction false} StaysKnown(s: State, acts: seq<Action>, p: Id)
    requires Inv(s) && CarefulRun(s, acts) && p in s.tasks
    ensures p in Final(s, acts).tasks
    decreases |acts|
  {
    if acts != [] {
      if p !in Touched(s, acts[0]) { OthersUntouched(s, acts[0], p); }
      StepKeepsInv(s, acts[0]);
      StaysKnown(After(s, acts[0]), acts[1..], p);
    }
  }

  // ----------------------------------------------------- one resumption per suspension

  predicate Sleeps(s: State, p: Id) { p in s.tasks && s.tasks[p].loc.Suspended? }

  /** The step suspends `p` on an await. */
  predicate Suspends(s: State, a: Action, p: Id)
    requires Enabled(s, a)
  {
    a.AwaitSuspend? && s.running[a.w].task == p
  }

  /** The step is an event that starts executing `p`. */
  predicate Wakes(s: State, a: Action, p: Id)
    requires Enabled(s, a)
  {
    a.PopEvent? && a.w in After(s, a).running && After(s, a).running[a.w].task == p
  }

  ghost function Suspensions(s: State, acts: seq<Action>, p: Id): nat
    decreases |acts|
  {
    if acts == [] || !Enabled(s, acts[0]) then 0
    else (if Suspends(s, acts[0], p) then 1 else 0) + Suspensions(After(s, acts[0]), acts[1..], p)
  }

  ghost function Wakeups(s: State, acts: seq<Action>, p: Id): nat
    decreases |acts|
  {
    if acts == [] || !Enabled(s, acts[0]) then 0
    else (if Wakes(s, acts[0], p) then 1 else 0) + Wakeups(After(s, acts[0]), acts[1..], p)
  }

  function One(b: bool): nat { if b then 1 else 0 }

  lemma TellingWakesNobody(s: State, w: W, c: Id, p: Id)
    requires Inv(s) && Queued(s, s.events, w, c) && !WaitsFor(s, c)
    ensures !Wakes(s, PopEvent(w, c), p) && Sleeps(s, p) == Sleeps(Delivered(s, w, c), p)
  {
    EventFacts(s, w, c);
    DeliveredTells(s, w, c);
  }

  lemma ResumingWakesTheParent(s: State, w: W, c: Id, p: Id)
    requires Inv(s) && Queued(s, s.events, w, c) && WaitsFor(s, c)
    ensures Wakes(s, PopEvent(w, c), p) <==> s.tasks[c].parent == Some(p)
    ensures One(Sleeps(s, p)) == One(Wakes(s, PopEvent(w, c), p)) + One(Sleeps(Delivered(s, w, c), p))
  {
    EventFacts(s, w, c);
    ItsEventWakes(s, w, s.tasks[c].parent.value, c);
    if p in s.tasks && p !in Touched(s, PopEvent(w, c)) { EventTouches(s, w, c, p); }
    DeliveredResumes(s, w, c);
  }

  /** Apart from awaits, no step suspends a task. */
  lemma NobodyElseSuspends(s: State, a: Action, p: Id)
    requires Inv(s) && Enabled(s, a) && Careful(s, a) && !a.AwaitSuspend? && !a.PopEvent?
    ensures Sleeps(s, p) == Sleeps(After(s, a), p)
  {
    if p in s.tasks && p in Touched(s, a) {
      TouchedAre(s, a, p);
    } else if p in s.tasks {
      OthersUntouched(s, a, p);
    }
  }

  lemma StepBalance(s: State, a: Action, p: Id)
    requires Inv(s) && Enabled(s, a) && Careful(s, a)
    ensures One(Suspends(s, a, p)) + One(Sleeps(s, p)) == One(Wakes(s, a, p)) + One(Sleeps(After(s, a), p))
  {
    match a
    case PopEvent(w, c) =>
      if WaitsFor(s, c) { ResumingWakesTheParent(s, w, c, p); } else { TellingWakesNobody(s, w, c, p); }
    case AwaitSuspend(w) => assert RunOk(s.tasks, s.running, w);
    case _ => NobodyElseSuspends(s, a, p);
  }

  /** Every suspension is resumed exactly once: the two counts differ by one exactly while the parent sleeps. */
  lemma {:induction false} ResumedOncePerSuspension(s: State, acts: seq<Action>, p: Id)
    requires Inv(s) && CarefulRun(s, acts)
    ensures Suspensions(s, acts, p) + One(Sleeps(s, p)) == Wakeups(s, acts, p) + One(Sleeps(Final(s, acts), p))
    decreases |acts|
  {
    if acts != [] {
      StepBalance(s, acts[0], p);
      StepKeepsInv(s, acts[0]);
      ResumedOncePerSuspension(After(s, acts[0]), acts[1..], p);
    }
  }

  // ------------------------------------------------------------------ one place per task

  /** A place a task can be picked up or executed from. */
  datatype Place = Queue(kind: Kind, w: W) | Cpu(w: W)

  /** How often task `id` is at place `x`. */
  function Copies(s: State, x: Place, id: Id): nat {
    match x
    case Queue(Lanes, w) => s.lane[(w, id)]
    case Queue(Timers, w) => s.timer[(w, id)]
    case Queue(EventQueues, w) => s.events[(w, id)]
    case Cpu(w) => One(w in s.running && s.running[w].task == id)
  }

  lemma PlaceIsLoc(s: State, x: Place, id: Id)
    requires Inv(s)
    ensures Copies(s, x, id) == One(id in s.tasks && s.tasks[id].loc == if x.Cpu? then OnCpu(x.w) else At(x.kind, x.w))
  {
    if x.Cpu? {
      if x.w in s.running { assert RunOk(s.tasks, s.running, x.w); }
      if id in s.tasks { assert TaskOk(s.tasks, s.running, id); }
    }
  }

  lemma AtOnePlace(s: State, id: Id, x: Place, y: Place)
    requires Inv(s)
    ensures Copies(s, x, id) <= 1 && (Copies(s, x, id) == Copies(s, y, id) == 1 ==> x == y)
    ensures Sleeps(s, id) ==> Copies(s, x, id) == 0
  {
    PlaceIsLoc(s, x, id);
    PlaceIsLoc(s, y, id);
  }

  /** After every careful run a task is at one place at most, once; a suspended one is at none. */
  lemma OnePlace(acts: seq<Action>, id: Id, x: Place, y: Place)
    requires CarefulRun(INIT, acts)
    ensures
      var s := Final(INIT, acts);
      && Copies(s, x, id) <= 1
      && (Copies(s, x, id) == Copies(s, y, id) == 1 ==> x == y)
      && (Sleeps(s, id) ==> Copies(s, x, id) == 0)
  {
    InitOk();
    RunKeepsInv(INIT, acts);
    AtOnePlace(Final(INIT, acts), id, x, y);
  }

  /** A task in a timer queue is not touched by any event. */
  lemma ParkedNeverWoken(s: State, w: W, c: Id, id: Id)
    requires Inv(s) && Queued(s, s.events, w, c) && id in s.tasks && s.tasks[id].loc.Timed?
    ensures id in Delivered(s, w, c).tasks && Delivered(s, w, c).tasks[id] == s.tasks[id]
  {
    if id in Touched(s, PopEvent(w, c)) { TouchedAre(s, PopEvent(w, c), id); }
    EventTouches(s, w, c, id);
  }
}

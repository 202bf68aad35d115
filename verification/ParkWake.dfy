/**
 * The park/wake handshake between one worker and any number of producers, as
 * interleaved atomic steps. The sequentially consistent fences in the code are
 * what makes a single order of steps an adequate model.
 *
 * `publishFirst` is the order the worker uses: publish "parked" and then look at
 * the queues once more (what the code does), or the other way round.
 */
module ParkWake {

  /** Where the worker is in its loop and in `SuspendMe`. */
  datatype Pc =
    | BootLane | BootShard              // publish the thread id on the lane, then on the shard
    | Polling
    | PublishLane | PublishShard        // active_ := false, consumer_parked_ := 1
    | CheckLane | CheckEvents | CheckShard
    | Waiting                           // blocked in EventManager::Wait
    | ClearLane | ClearShard            // active_ := true, consumer_parked_ := 0

  /** A producer that has pushed and not yet finished its wake decision. */
  datatype Stage =
    | Pushed        // lane or event queue: pushed, thread id not read yet
    | SawTid        // thread id was published; active_ not read yet
    | NoTid         // thread id was 0: about to wake all workers
    | Sending       // shard: slot reserved, message perhaps not complete
    | SawParked     // shard: read consumer_parked_ == 1
    | WillSignal    // decided to signal

  datatype Surface = Lane | Events | Shard
  datatype Producer = Producer(surface: Surface, stage: Stage)

  datatype State = State(
    lane: nat, events: nat, shard: nat,
    active: bool, parked: bool, laneTid: bool, shardTid: bool,
    signal: bool, pc: Pc, producers: map<nat, Producer>)

  const INIT := State(0, 0, 0, true, false, false, false, false, BootLane, map[])

  datatype Action =
    | Boot
    | Consume(from: Surface)
    | BeginPark
    | Advance                       // the next store or check of the park sequence
    | Wake                          // Wait returns because a signal is pending
    | Timeout                       // Wait returns because its timeout ran out
    | Push(p: nat, to: Surface)     // lane or event queue
    | Reserve(p: nat)               // shard slot; a long message reserves several
    | Proceed(p: nat)               // the next read, or the signal, of producer p
    | Spurious                      // any other SIGUSR1 to this worker

  predicate Enabled(s: State, a: Action) {
    match a
    case Boot => s.pc.BootLane? || s.pc.BootShard?
    case Consume(from) => s.pc.Polling? && Size(s, from) > 0
    case BeginPark => s.pc.Polling?
    case Advance => s.pc.PublishLane? || s.pc.PublishShard? || s.pc.CheckLane? || s.pc.CheckEvents?
                    || s.pc.CheckShard? || s.pc.ClearLane? || s.pc.ClearShard?
    case Wake => s.pc.Waiting? && s.signal
    case Timeout => s.pc.Waiting?
    case Push(p, to) => p !in s.producers && !to.Shard?
    case Reserve(p) => p in s.producers ==> s.producers[p] == Producer(Shard, Sending)
    case Proceed(p) => p in s.producers
    case Spurious => true
  }

  function Size(s: State, q: Surface): nat {
    match q case Lane => s.lane case Events => s.events case Shard => s.shard
  }

  function Resized(s: State, q: Surface, n: nat): State {
    match q case Lane => s.(lane := n) case Events => s.(events := n) case Shard => s.(shard := n)
  }

  function After(publishFirst: bool, s: State, a: Action): State
    requires Enabled(s, a)
  {
    match a
    case Boot => if s.pc.BootLane? then s.(laneTid := true, pc := BootShard) else s.(shardTid := true, pc := Polling)
    case Consume(from) => Resized(s, from, Size(s, from) - 1)
    case BeginPark => s.(pc := if publishFirst then PublishLane else CheckLane)
    case Advance => WorkerStep(publishFirst, s)
    case Wake => s.(signal := false, pc := ClearLane)
    case Timeout => s.(pc := ClearLane)
    case Push(p, to) => Resized(s, to, Size(s, to) + 1).(producers := s.producers[p := Producer(to, Pushed)])
    case Reserve(p) => s.(shard := s.shard + 1, producers := s.producers[p := Producer(Shard, Sending)])
    case Proceed(p) => ProducerStep(s, p)
    case Spurious => s.(signal := true)
  }

  function WorkerStep(publishFirst: bool, s: State): State
    requires Enabled(s, Advance)
  {
    match s.pc
    case PublishLane => s.(active := false, pc := PublishShard)
    case PublishShard => s.(parked := true, pc := if publishFirst then CheckLane else Waiting)
    case CheckLane => s.(pc := if s.lane > 0 then ClearLane else CheckEvents)
    case CheckEvents => s.(pc := if s.events > 0 then ClearLane else CheckShard)
    case CheckShard => s.(pc := if s.shard > 0 then ClearLane else if publishFirst then Waiting else PublishLane)
    case ClearLane => s.(active := true, pc := ClearShard)
    case ClearShard => s.(parked := false, pc := Polling)
  }

  /** AwakenWorker for the lane and the event queue, SignalConsumerIfParked for the shard. */
  function ProducerStep(s: State, p: nat): State
    requires p in s.producers
  {
    var on := s.producers[p].surface;
    var done := s.(producers := s.producers - {p});
    match s.producers[p].stage
    case Pushed => s.(producers := s.producers[p := Producer(on, if s.laneTid then SawTid else NoTid)])
    case NoTid => if s.laneTid then done.(signal := true) else done
    case SawTid => if s.active then done else s.(producers := s.producers[p := Producer(on, WillSignal)])
    case Sending => if s.parked then s.(producers := s.producers[p := Producer(on, SawParked)]) else done
    case SawParked => if s.shardTid then s.(producers := s.producers[p := Producer(on, WillSignal)]) else done
    case WillSignal => done.(signal := true)
  }

  ghost predicate Reaches(publishFirst: bool, s: State, acts: seq<Action>, t: State)
    decreases |acts|
  {
    if acts == [] then s == t
    else Enabled(s, acts[0]) && Reaches(publishFirst, After(publishFirst, s, acts[0]), acts[1..], t)
  }

  /** A run from the start of the worker, of any length and any interleaving. */
  ghost predicate Run(publishFirst: bool, acts: seq<Action>, t: State) {
    Reaches(publishFirst, INIT, acts, t)
  }

  /** Some producer on the lane side (or on the shard) has pushed and is still to decide. */
  ghost predicate LaneUndecided(s: State) {
    exists p :: p in s.producers && !s.producers[p].surface.Shard?
  }

  ghost predicate ShardUndecided(s: State) {
    exists p :: p in s.producers && s.producers[p].surface.Shard?
  }

  /** A blocked worker with work and no signal pending is always about to be signalled. */
  ghost predicate NoLostWakeup(s: State) {
    s.pc.Waiting? && !s.signal ==>
      && (s.lane > 0 || s.events > 0 ==> LaneUndecided(s))
      && (s.shard > 0 ==> ShardUndecided(s))
  }

  // ------------------------------------------------------------------ invariant

  /** How far the worker has come in the park sequence: stores and checks behind it. */
  ghost function Step(pc: Pc): nat {
    match pc
    case PublishShard => 1
    case CheckLane => 2
    case CheckEvents => 3
    case CheckShard => 4
    case Waiting => 5
    case _ => 0
  }

  ghost predicate Inv(s: State) { Handshake(s) && StagesMatch(s) }

  ghost predicate Handshake(s: State) {
    && (!s.pc.BootLane? ==> s.laneTid)
    && (!s.pc.BootLane? && !s.pc.BootShard? ==> s.shardTid)
    && (Step(s.pc) >= 1 ==> !s.active)
    && (Step(s.pc) >= 2 ==> s.parked)
    && (Step(s.pc) >= 3 && s.lane > 0 && !s.signal ==> LaneUndecided(s))
    && (Step(s.pc) >= 4 && s.events > 0 && !s.signal ==> LaneUndecided(s))
    && (Step(s.pc) >= 5 && s.shard > 0 && !s.signal ==> ShardUndecided(s))
  }

  /** Lane-side and shard-side producers go through their own stages only. */
  ghost predicate StageMatches(p: Producer) {
    && (p.stage.Pushed? || p.stage.SawTid? || p.stage.NoTid? ==> !p.surface.Shard?)
    && (p.stage.Sending? || p.stage.SawParked? ==> p.surface.Shard?)
  }

  ghost predicate StagesMatch(s: State) {
    forall p :: p in s.producers ==> StageMatches(s.producers[p])
  }

  /** Producers other than `p` that were undecided still are. */
  lemma OthersUndecided(s: State, t: State, p: nat)
    requires forall q :: q in s.producers && q != p ==> q in t.producers && t.producers[q] == s.producers[q]
    requires p in s.producers
    ensures (p in t.producers && t.producers[p].surface == s.producers[p].surface) || s.producers[p].surface.Shard? ==>
              (LaneUndecided(s) ==> LaneUndecided(t))
    ensures (p in t.producers && t.producers[p].surface == s.producers[p].surface) || !s.producers[p].surface.Shard? ==>
              (ShardUndecided(s) ==> ShardUndecided(t))
  {
    if q :| q in s.producers && !s.producers[q].surface.Shard? { assert q != p ==> q in t.producers; }
    if q :| q in s.producers && s.producers[q].surface.Shard? { assert q != p ==> q in t.producers; }
  }

  /** A producer on the lane side goes on undecided, leaves a signal, or met a worker not yet parked. */
  lemma LaneStepKeepsInv(s: State, p: nat)
    requires Handshake(s) && p in s.producers && !s.producers[p].surface.Shard? && StageMatches(s.producers[p])
    ensures Handshake(ProducerStep(s, p))
  {
    OthersUndecided(s, ProducerStep(s, p), p);
  }

  lemma ShardStepKeepsInv(s: State, p: nat)
    requires Handshake(s) && p in s.producers && s.producers[p].surface.Shard? && StageMatches(s.producers[p])
    ensures Handshake(ProducerStep(s, p))
  {
    OthersUndecided(s, ProducerStep(s, p), p);
  }

  lemma PushKeepsInv(s: State, a: Action)
    requires Handshake(s) && Enabled(s, a) && (a.Push? || a.Reserve?)
    ensures Handshake(After(true, s, a))
  {
    var t := After(true, s, a);
    assert a.p in t.producers;
    assert LaneUndecided(s) ==> LaneUndecided(t) by {
      if q :| q in s.producers && !s.producers[q].surface.Shard? { assert q in t.producers; }
    }
    assert ShardUndecided(s) ==> ShardUndecided(t) by {
      if q :| q in s.producers && s.producers[q].surface.Shard? { assert q in t.producers; }
    }
  }

  lemma StepKeepsStages(s: State, a: Action)
    requires StagesMatch(s) && Enabled(s, a)
    ensures StagesMatch(After(true, s, a))
  {
    var t := After(true, s, a);
    match a
    case Proceed(p) =>
      assert StageMatches(s.producers[p]);
      assert p in t.producers ==> StageMatches(t.producers[p]);
      assert forall q :: q in t.producers && q != p ==> q in s.producers && t.producers[q] == s.producers[q];
    case Push(p, _) => assert forall q :: q in t.producers && q != p ==> q in s.producers;
    case Reserve(p) => assert forall q :: q in t.producers && q != p ==> q in s.producers;
    case _ => assert t.producers == s.producers;
  }

  /** Every step of every participant keeps the invariant. */
  lemma StepKeepsInv(s: State, a: Action)
    requires Inv(s) && Enabled(s, a)
    ensures Inv(After(true, s, a))
  {
    StepKeepsStages(s, a);
    match a
    case Proceed(p) => if s.producers[p].surface.Shard? { ShardStepKeepsInv(s, p); } else { LaneStepKeepsInv(s, p); }
    case Push(_, _) => PushKeepsInv(s, a);
    case Reserve(_) => PushKeepsInv(s, a);
    case _ =>
      var t := After(true, s, a);
      assert t.producers == s.producers;
      assert LaneUndecided(s) == LaneUndecided(t) && ShardUndecided(s) == ShardUndecided(t);
  }

  lemma {:induction false} RunKeepsInv(s: State, acts: seq<Action>, t: State)
    requires Inv(s) && Reaches(true, s, acts, t)
    ensures Inv(t)
    decreases |acts|
  {
    if acts != [] {
      StepKeepsInv(s, acts[0]);
      RunKeepsInv(After(true, s, acts[0]), acts[1..], t);
    }
  }

  /** No lost wake-up in any interleaving of any number of producers. */
  lemma NeverLost(acts: seq<Action>, t: State)
    requires Run(true, acts, t)
    ensures NoLostWakeup(t)
  {
    RunKeepsInv(INIT, acts, t);
  }

  /** A worker that has looked at all its queues, found them empty, and has not published yet. */
  function Looked(): State { State(0, 0, 0, true, false, true, true, false, PublishLane, map[]) }

  lemma LooksFirst() returns (acts: seq<Action>)
    ensures Reaches(false, INIT, acts, Looked())
  {
    var none: map<nat, Producer> := map[];
    var s0 := State(0, 0, 0, true, false, true, false, false, BootShard, none);
    var s1 := State(0, 0, 0, true, false, true, true, false, Polling, none);
    var s2 := State(0, 0, 0, true, false, true, true, false, CheckLane, none);
    var s3 := State(0, 0, 0, true, false, true, true, false, CheckEvents, none);
    var s4 := State(0, 0, 0, true, false, true, true, false, CheckShard, none);
    PathReaches(false, [INIT, s0, s1, s2], [Boot, Boot, BeginPark]);
    PathReaches(false, [s2, s3, s4, Looked()], [Advance, Advance, Advance]);
    ReachesJoin(false, INIT, [Boot, Boot, BeginPark], s2, [Advance, Advance, Advance], Looked());
    acts := [Boot, Boot, BeginPark] + [Advance, Advance, Advance];
  }

  lemma MissesThePush() returns (acts: seq<Action>, t: State)
    ensures Reaches(false, Looked(), acts, t) && !NoLostWakeup(t)
  {
    var none: map<nat, Producer> := map[];
    var s6 := State(1, 0, 0, true, false, true, true, false, PublishLane, map[0 := Producer(Lane, Pushed)]);
    var s7 := State(1, 0, 0, true, false, true, true, false, PublishLane, map[0 := Producer(Lane, SawTid)]);
    var s8 := State(1, 0, 0, true, false, true, true, false, PublishLane, none);
    var s9 := State(1, 0, 0, false, false, true, true, false, PublishShard, none);
    t := State(1, 0, 0, false, true, true, true, false, Waiting, none);
    assert After(false, Looked(), Push(0, Lane)) == s6;
    assert After(false, s6, Proceed(0)) == s7;
    assert After(false, s7, Proceed(0)) == s8;
    PathReaches(false, [Looked(), s6, s7, s8], [Push(0, Lane), Proceed(0), Proceed(0)]);
    PathReaches(false, [s8, s9, t], [Advance, Advance]);
    ReachesJoin(false, Looked(), [Push(0, Lane), Proceed(0), Proceed(0)], s8, [Advance, Advance], t);
    acts := [Push(0, Lane), Proceed(0), Proceed(0)] + [Advance, Advance];
  }

  /** The last look at the queues placed before the publication loses a wake-up. */
  lemma CheckFirstLoses() returns (acts: seq<Action>, t: State)
    ensures Run(false, acts, t) && !NoLostWakeup(t)
  {
    var look := LooksFirst();
    acts, t := MissesThePush();
    ReachesJoin(false, INIT, look, Looked(), acts, t);
    acts := look + acts;
  }

  lemma {:induction false} ReachesJoin(publishFirst: bool, s: State, a: seq<Action>, m: State, b: seq<Action>, t: State)
    requires Reaches(publishFirst, s, a, m) && Reaches(publishFirst, m, b, t)
    ensures Reaches(publishFirst, s, a + b, t)
    decreases |a|
  {
    if a == [] {
      assert a + b == b;
    } else {
      ReachesJoin(publishFirst, After(publishFirst, s, a[0]), a[1..], m, b, t);
      assert (a + b)[1..] == a[1..] + b;
    }
  }

  /** A list of states linked by the actions is a run. */
  lemma {:induction false} PathReaches(publishFirst: bool, states: seq<State>, acts: seq<Action>)
    requires |states| == |acts| + 1
    requires forall i :: 0 <= i < |acts| ==>
               Enabled(states[i], acts[i]) && states[i + 1] == After(publishFirst, states[i], acts[i])
    ensures Reaches(publishFirst, states[0], acts, states[|acts|])
    decreases |acts|
  {
    if acts != [] {
      PathReaches(publishFirst, states[1..], acts[1..]);
    }
  }

  /** Publishing before the last look is exactly what makes the handshake safe. */
  lemma SafeIffPublishFirst(publishFirst: bool)
    ensures (forall acts, t :: Run(publishFirst, acts, t) ==> NoLostWakeup(t)) <==> publishFirst
  {
    if publishFirst {
      forall acts, t | Run(publishFirst, acts, t) ensures NoLostWakeup(t) { NeverLost(acts, t); }
    } else {
      var acts, t := CheckFirstLoses();
      assert Run(publishFirst, acts, t) && !NoLostWakeup(t);
    }
  }

  /** A producer left alone against a waiting worker ends with a signal pending. */
  lemma UndecidedSignals(s: State, p: nat) returns (acts: seq<Action>, t: State)
    requires Inv(s) && s.pc.Waiting? && p in s.producers
    ensures |acts| <= 3 && forall i :: 0 <= i < |acts| ==> acts[i] == Proceed(p)
    ensures Reaches(true, s, acts, t) && t.pc.Waiting? && t.signal
  {
    var go := Proceed(p);
    var s1 := After(true, s, go);
    if s.producers[p].stage.WillSignal? || s.producers[p].stage.NoTid? {
      acts, t := [go], s1;
      PathReaches(true, [s, t], acts);
    } else if s.producers[p].stage.SawTid? || s.producers[p].stage.SawParked? {
      acts, t := [go, go], After(true, s1, go);
      PathReaches(true, [s, s1, t], acts);
    } else {
      var s2 := After(true, s1, go);
      acts, t := [go, go, go], After(true, s2, go);
      PathReaches(true, [s, s1, s2, t], acts);
    }
  }
}

/** The engine and the scheduler loop over the live device, proved to follow `Scheduling` and `Maintenance`. */
module Daemon {
  import opened IdleDetection
  import opened Phone
  import opened Cleaning
  import opened CleaningRuns
  import opened Maintenance
  import opened MaintenanceRunner
  import opened CleaningHistory
  import opened Scheduling

  class DecisionEngine {
    const device: Device
    const maintainer: Maintainer
    var state: EngineState
    var dozeForced: bool

    constructor (maintainer: Maintainer)
      requires maintainer.Wired()
      ensures this.maintainer == maintainer && Wired() && Now() == Engine(Boot, false)
    {
      this.device, this.maintainer := maintainer.device, maintainer;
      state, dozeForced := Boot, false;
    }

    predicate Wired() { maintainer.Wired() && maintainer.device == device }

    ghost function Now(): Engine reads this { Engine(state, dozeForced) }

    method TransitionTo(next: EngineState)
      modifies this`state
      ensures state == next
    {
      if state != next { state := next; }
    }

    method PerformMaintenance() returns (completed: bool)
      requires Wired() && device.Mounted()
      modifies this, device, maintainer.cleaner.idle, maintainer.cleaner.diagnostics, maintainer.store,
          maintainer.store.disk
      ensures Maintained(device.env, old(maintainer.Current()), maintainer.Current(), completed)
      ensures Now() == AfterMaintenance(old(Now()), completed)
      ensures old(maintainer.store.Trusted()) ==> maintainer.store.Trusted()
      ensures device.Mounted()
    {
      completed := maintainer.PerformMaintenance();
      if completed {
        dozeForced := true;
        TransitionTo(Active);
      } else {
        TransitionTo(Aborting);
      }
    }

    /** One tick: an observation, a transition, and the maintenance that DEEP_IDLE leads to. */
    method EvaluateAndTransition() returns (ghost completed: bool)
      requires Wired() && device.Mounted()
      modifies this, device, maintainer.cleaner.idle, maintainer.cleaner.diagnostics, maintainer.store,
          maintainer.store.disk
      ensures Ticked(device.env, old(Now()), old(maintainer.Current()), Now(), maintainer.Current(), completed)
      ensures old(maintainer.store.Trusted()) ==> maintainer.store.Trusted()
      ensures device.Mounted()
    {
      completed := true;
      ghost var e, w := Now(), maintainer.Current();
      var idle := Look();
      if state.DeepIdle? && !idle.NotIdle? {
        var done := Maintain();
        completed := done;
        TickMaintains(device.env, e, w, maintainer.Current(), done);
      } else {
        Transition(idle);
        TickLooks(device.env, e, w);
      }
    }

    /** The observation every tick starts with. */
    method Look() returns (idle: IdleState)
      requires Wired() && device.Mounted()
      modifies maintainer.cleaner.idle, device`observed, device`log
      ensures idle == Observe(device.env, old(maintainer.Current()).run).0
      ensures maintainer.Current() == Looked(device.env, old(maintainer.Current()))
      ensures device.Mounted()
    {
      idle := maintainer.cleaner.Evaluate();
    }

    /** The one transition that works. */
    method Maintain() returns (completed: bool)
      requires Wired() && device.Mounted()
      modifies this, device, maintainer.cleaner.idle, maintainer.cleaner.diagnostics, maintainer.store,
          maintainer.store.disk
      ensures Maintained(device.env, old(maintainer.Current()), maintainer.Current(), completed)
      ensures Now() == AfterMaintenance(old(Now()), completed)
      ensures old(maintainer.store.Trusted()) ==> maintainer.store.Trusted()
      ensures device.Mounted()
    {
      ghost var w := maintainer.Current();
      TransitionTo(InMaintenance);
      assert maintainer.Current() == w;
      completed := PerformMaintenance();
    }

    /** The transitions that only change the engine. */
    method Transition(idle: IdleState)
      requires !Maintains(Now(), idle)
      modifies this`state, this`dozeForced
      ensures Now() == Advance(old(Now()), idle, true)
    {
      if idle.NotIdle? {
        if !state.Active? {
          dozeForced := false;
          TransitionTo(Active);
        }
        return;
      }
      match state
      case Boot => TransitionTo(ScreenIsOff);
      case Active => TransitionTo(ScreenIsOff);
      case ScreenIsOff => if idle.IdleCandidate? { TransitionTo(Candidate); }
      case Candidate => TransitionTo(DeepIdle);
      case DeepIdle =>
      case InMaintenance =>
      case Aborting => TransitionTo(Active);
      case ErrorBackoff => TransitionTo(Active);
    }
  }

  /** What waking up from `epoll_wait` can mean. */
  datatype Wakeup = Interrupted | Failed | TimerReady(readable: bool)

  class Scheduler {
    const engine: DecisionEngine
    /** The monotonic clock at each arming of the timer. */
    const clock: nat -> nat
    var armings: nat
    var seconds: nat
    ghost var ticks: seq<Tick>
    /** The maintenances so far, and the ticks since the last of them. */
    ghost var stages: seq<Stage>
    ghost var waited: nat

    constructor (engine: DecisionEngine, clock: nat -> nat)
      ensures this.engine == engine && this.clock == clock
      ensures armings == 0 && ticks == [] && stages == [] && waited == 0
    {
      this.engine, this.clock := engine, clock;
      armings, seconds := 0, 0;
      ticks, stages, waited := [], [], 0;
    }

    ghost function History(): Log
      reads this
    {
      Log(engine.device.env.obs, engine.device.env.config.idleDelayMinutes, ticks)
    }

    /** What the loop maintains: a schedule that explains the engine, and a lifetime that explains everything else. */
    ghost predicate Explained(start: World)
      requires engine.Wired()
      reads this, engine, engine.device, engine.maintainer.cleaner.idle, engine.maintainer.cleaner.diagnostics
      reads engine.maintainer.store, engine.maintainer.cleaner.device
    {
      && engine.device.Mounted()
      && Explains(engine.device.env, History(), engine.Now(), engine.maintainer.Current(), start, stages, waited)
    }

    /** The timer is armed once before the first tick and once at the end of every tick. */
    ghost predicate Clocked() reads this, engine {
      && armings == |ticks| + 1
      && ArmedBy(ticks, clock)
      && seconds == if ticks == [] then 1 else Interval(engine.state)
    }

    method SetTimer(seconds: nat)
      modifies this`armings, this`seconds
      ensures this.seconds == seconds && armings == old(armings) + 1
    {
      this.seconds := seconds;
      armings := armings + 1;
    }

    /** One processed timer event: evaluate, then arm the timer for the state just entered. */
    method HandleTimer(ghost start: World)
      requires engine.Wired() && Explained(start) && Clocked()
      modifies this, engine, engine.device, engine.maintainer.cleaner.idle, engine.maintainer.cleaner.diagnostics
      modifies engine.maintainer.store, engine.maintainer.store.disk
      ensures Explained(start) && Clocked()
      ensures |ticks| == |old(ticks)| + 1
      ensures old(engine.maintainer.store.Trusted()) ==> engine.maintainer.store.Trusted()
    {
      ghost var env, g, w, e := engine.device.env, History(), engine.maintainer.Current(), engine.Now();
      ghost var completed := engine.EvaluateAndTransition();
      SetTimer(Interval(engine.state));
      Account(env, g, w, e, start, completed);
    }

    /** Enters a tick that was just taken into the ghost record. */
    ghost method Account(env: Env, g: Log, w: World, e: Engine, start: World, completed: bool)
      requires engine.Wired() && engine.device.Mounted() && env == engine.device.env && g == History()
      requires Explains(env, g, e, w, start, stages, waited)
      requires Ticked(env, e, w, engine.Now(), engine.maintainer.Current(), completed)
      requires armings == |ticks| + 2 && seconds == Interval(engine.state) && ArmedBy(ticks, clock)
      modifies this`ticks, this`stages, this`waited
      ensures Explained(start) && Clocked() && |ticks| == |old(ticks)| + 1
    {
      var t := Tick(w.run.observed, completed, clock(armings - 1));
      var now := engine.maintainer.Current();
      TickExplained(env, g, e, w, start, stages, waited, t, engine.Now(), now);
      var staged := Staged(env, e, w, stages, waited, now, completed);
      ArmedMore(ticks, t, clock);
      ticks, stages, waited := ticks + [t], staged.0, staged.1;
      assert History() == Extended(g, t);
    }

    method HandleWakeup(wakeup: Wakeup, ghost start: World)
      requires engine.Wired() && Explained(start) && Clocked() && !wakeup.Failed?
      modifies this, engine, engine.device, engine.maintainer.cleaner.idle, engine.maintainer.cleaner.diagnostics
      modifies engine.maintainer.store, engine.maintainer.store.disk
      ensures Explained(start) && Clocked()
      ensures |ticks| == |old(ticks)| + if wakeup == TimerReady(true) then 1 else 0
      ensures old(engine.maintainer.store.Trusted()) ==> engine.maintainer.store.Trusted()
    {
      if wakeup.TimerReady? && wakeup.readable { HandleTimer(start); }
    }

    /**
     * `RunScheduler` over the wakeups it gets before it is told to stop: interruptions are
     * ignored, a failed wait ends it, and a timer event that cannot be read changes nothing.
     */
    method RunScheduler(wakeups: seq<Wakeup>, ghost start: World)
      requires engine.Wired() && Explained(start) && ticks == [] && armings == 0
      modifies this, engine, engine.device, engine.maintainer.cleaner.idle, engine.maintainer.cleaner.diagnostics
      modifies engine.maintainer.store, engine.maintainer.store.disk
      ensures Explained(start) && Clocked()
      ensures |ticks| == Processed(wakeups)
      ensures old(engine.maintainer.store.Trusted()) ==> engine.maintainer.store.Trusted()
    {
      SetTimer(1);
      for i := 0 to |wakeups|
        invariant Explained(start) && Clocked()
        invariant old(engine.maintainer.store.Trusted()) ==> engine.maintainer.store.Trusted()
        invariant |ticks| + Processed(wakeups[i..]) == Processed(wakeups)
      {
        assert wakeups[i..][1..] == wakeups[i + 1..];
        if wakeups[i].Failed? { break; }
        HandleWakeup(wakeups[i], start);
      }
    }
  }

  /** `g` is a schedule that accounts for the engine `e` after `observed` observations. */
  ghost predicate ScheduleExplains(env: Env, g: Log, e: Engine, observed: nat) {
    && g.obs == env.obs && g.minutes == env.config.idleDelayMinutes
    && Ordered(g) && e == Before(g, |g.ticks|) && Next(g, observed)
  }

  /**
   * `stages` are the maintenances of a lifetime that accounts for the world `w`, `waited` ticks after
   * the last of them.
   */
  ghost predicate LifetimeExplains(env: Env, w: World, start: World, stages: seq<Stage>, waited: nat) {
    && Lifetime(env, start, stages)
    && w.store == EndOf(start, stages).store
    && w.run == Wait(env, EndOf(start, stages).run, waited)
  }

  ghost predicate Explains(env: Env, g: Log, e: Engine, w: World, start: World, stages: seq<Stage>, waited: nat) {
    ScheduleExplains(env, g, e, w.run.observed) && LifetimeExplains(env, w, start, stages, waited)
  }

  /** A tick that maintains adds a stage; any other is one more tick of waiting. */
  ghost function Staged(env: Env, e: Engine, w: World, stages: seq<Stage>, waited: nat, w': World,
      completed: bool): (seq<Stage>, nat) {
    if Maintains(e, Observe(env, w.run).0)
    then (stages + [Stage(waited + 1, Looked(env, w), w', completed)], 0)
    else (stages, waited + 1)
  }

  function Looked(env: Env, w: World): World { w.(run := Observe(env, w.run).1) }

  /** What one tick does to the engine and the world. */
  ghost predicate Ticked(env: Env, e: Engine, w: World, e': Engine, w': World, completed: bool) {
    var idle := Observe(env, w.run).0;
    && e' == Advance(e, idle, completed)
    && if Maintains(e, idle) then Maintained(env, Looked(env, w), w', completed) else w' == Looked(env, w)
  }

  lemma {:induction false} TickMaintains(env: Env, e: Engine, w: World, w': World, completed: bool)
    requires Maintains(e, Observe(env, w.run).0) && Maintained(env, Looked(env, w), w', completed)
    ensures Ticked(env, e, w, AfterMaintenance(e, completed), w', completed)
  {
  }

  lemma {:induction false} TickLooks(env: Env, e: Engine, w: World)
    requires !Maintains(e, Observe(env, w.run).0)
    ensures Ticked(env, e, w, Advance(e, Observe(env, w.run).0, true), Looked(env, w), true)
  {
  }

  lemma {:induction false} ScheduleGrows(env: Env, g: Log, e: Engine, observed: nat, t: Tick, later: nat)
    requires ScheduleExplains(env, g, e, observed) && t.first == observed
    requires var idle := IdleAt(env.obs, observed, env.config.idleDelayMinutes);
      Leads(Maintains(e, idle), observed, later)
    ensures ScheduleExplains(env, Extended(g, t),
        Advance(e, IdleAt(env.obs, observed, env.config.idleDelayMinutes), t.completed), later)
  {
    OrderedExtended(g, t);
  }

  lemma {:induction false} LifetimeGrows(env: Env, w: World, start: World, stages: seq<Stage>, waited: nat, e: Engine,
      w': World, completed: bool)
    requires LifetimeExplains(env, w, start, stages, waited)
    requires if Maintains(e, Observe(env, w.run).0) then Maintained(env, Looked(env, w), w', completed)
        else w' == Looked(env, w)
    ensures var (stages', waited') := Staged(env, e, w, stages, waited, w', completed);
      LifetimeExplains(env, w', start, stages', waited')
    ensures Leads(Maintains(e, Observe(env, w.run).0), w.run.observed, w'.run.observed)
  {
    if Maintains(e, Observe(env, w.run).0) {
      LifetimeExtended(env, start, stages, Stage(waited + 1, Looked(env, w), w', completed));
    }
  }

  /** One tick extends the schedule by itself, and the lifetime if it maintains. */
  lemma {:induction false} TickExplained(env: Env, g: Log, e: Engine, w: World, start: World, stages: seq<Stage>,
      waited: nat, t: Tick, e': Engine, w': World)
    requires Explains(env, g, e, w, start, stages, waited) && t.first == w.run.observed
    requires Ticked(env, e, w, e', w', t.completed)
    ensures var (stages', waited') := Staged(env, e, w, stages, waited, w', t.completed);
      Explains(env, Extended(g, t), e', w', start, stages', waited')
  {
    ObservationsMatch(env, start, stages, waited, w);
    LifetimeGrows(env, w, start, stages, waited, e, w', t.completed);
    ScheduleGrows(env, g, e, w.run.observed, t, w'.run.observed);
  }

  /** Tick `k` arms the timer at the clock reading after the initial one and those of the ticks before it. */
  ghost predicate ArmedBy(ticks: seq<Tick>, clock: nat -> nat) {
    forall k :: 0 <= k < |ticks| ==> ticks[k].armed == clock(k + 1)
  }

  lemma {:induction false} ArmedMore(ticks: seq<Tick>, t: Tick, clock: nat -> nat)
    requires ArmedBy(ticks, clock) && t.armed == clock(|ticks| + 1)
    ensures ArmedBy(ticks + [t], clock)
  {
  }

  /** The timer events that are processed. */
  function Processed(wakeups: seq<Wakeup>): nat {
    if wakeups == [] || wakeups[0].Failed? then 0
    else (if wakeups[0] == TimerReady(true) then 1 else 0) + Processed(wakeups[1..])
  }

  lemma {:induction false} ProcessedConcat(a: seq<Wakeup>, b: seq<Wakeup>)
    requires forall i :: 0 <= i < |a| ==> !a[i].Failed?
    ensures Processed(a + b) == Processed(a) + Processed(b)
  {
    if a == [] {
      assert a + b == b;
    } else {
      ProcessedConcat(a[1..], b);
      assert (a + b)[0] == a[0] && (a + b)[1..] == a[1..] + b;
    }
  }

  /**
   * Which wakeups are ticks: between wakeups that did not fail, exactly one more for each
   * timer event that can be read, and none for any other; nothing behind a failed wait.
   */
  lemma {:induction false} TicksExactly(before: seq<Wakeup>, w: Wakeup, later: seq<Wakeup>)
    requires forall i :: 0 <= i < |before| ==> !before[i].Failed?
    ensures Processed(before + [w] + later) == Processed(before) +
      match w
      case Interrupted => Processed(later)
      case TimerReady(readable) => (if readable then 1 else 0) + Processed(later)
      case Failed => 0
    ensures Processed([]) == 0
  {
    assert before + [w] + later == before + ([w] + later);
    ProcessedConcat(before, [w] + later);
    assert ([w] + later)[1..] == later;
  }

  /** The stamp the daemon holds is the one that all observations so far lead to. */
  lemma {:induction false} ObservationsMatch(env: Env, start: World, stages: seq<Stage>, waited: nat, w: World)
    requires Lifetime(env, start, stages) && w.store == EndOf(start, stages).store
    requires w.run == Wait(env, EndOf(start, stages).run, waited)
    ensures HistoryInv(env, w)
    ensures var (idle, run) := Observe(env, w.run);
      idle == IdleAt(env.obs, w.run.observed, env.config.idleDelayMinutes) && run.observed == w.run.observed + 1
  {
    LifetimeKeepsHistory(env, start, stages);
    WaitKeepsHistory(env, EndOf(start, stages), waited);
    ObserveRuns(env, w.run);
  }

  lemma {:induction false} LifetimeExtended(env: Env, start: World, stages: seq<Stage>, s: Stage)
    requires Lifetime(env, start, stages)
    requires s.from.store == EndOf(start, stages).store
    requires s.from.run == Wait(env, EndOf(start, stages).run, s.ticks) && Maintained(env, s.from, s.to, s.ok)
    ensures Lifetime(env, start, stages + [s]) && EndOf(start, stages + [s]) == s.to
    ensures s.to.run.observed >= s.from.run.observed + 3
  {
    assert (stages + [s])[..|stages|] == stages;
    LifetimeKeepsHistory(env, start, stages);
    WaitKeepsHistory(env, EndOf(start, stages), s.ticks);
    MaintenanceKeepsHistory(env, s.from, s.to, s.ok);
  }
}

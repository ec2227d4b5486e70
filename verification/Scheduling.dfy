/**
 * The engine's state machine driven by timer ticks, as a function of the observations, and
 * what holds of every schedule: spacing, continuous idleness and bounded liveness.
 */
module Scheduling {
  import opened Basics
  import opened IdleDetection

  datatype EngineState = Boot | Active | ScreenIsOff | Candidate | DeepIdle | InMaintenance | Aborting | ErrorBackoff

  /** The engine and whether it has forced the device into doze without releasing it. */
  datatype Engine = Engine(state: EngineState, dozeForced: bool)

  /** The state once `PerformMaintenance` has ended, completed or not. */
  function AfterMaintenance(e: Engine, completed: bool): Engine {
    if completed then Engine(Active, true) else e.(state := Aborting)
  }

  predicate Maintains(e: Engine, idle: IdleState) { e.state.DeepIdle? && !idle.NotIdle? }

  /** One `EvaluateAndTransition`. */
  function Advance(e: Engine, idle: IdleState, completed: bool): Engine {
    if idle.NotIdle? then
      if e.state.Active? then e else Engine(Active, false)
    else match e.state
      case Boot => e.(state := ScreenIsOff)
      case Active => e.(state := ScreenIsOff)
      case ScreenIsOff => if idle.IdleCandidate? then e.(state := Candidate) else e
      case Candidate => e.(state := DeepIdle)
      case DeepIdle => AfterMaintenance(e, completed)
      case InMaintenance => e
      case Aborting => e.(state := Active)
      case ErrorBackoff => e.(state := Active)
  }

  /** The interval the timer is armed with after a tick, in seconds. */
  function Interval(s: EngineState): nat {
    match s
    case Active => 1800
    case ScreenIsOff => 300
    case Candidate => 60
    case DeepIdle => 300
    case InMaintenance => 300
    case Aborting => 30
    case ErrorBackoff => 300
    case Boot => 60
  }

  /**
   * A processed tick: the index of the observation it starts with, whether a maintenance it
   * runs completes, and the clock when the timer is armed again at its end.
   */
  datatype Tick = Tick(first: nat, completed: bool, armed: nat)

  /** A run of the daemon: the observations and the configured delay it is subject to, and its ticks. */
  datatype Log = Log(obs: nat -> Observation, minutes: int, ticks: seq<Tick>)

  function IdleOf(g: Log, k: nat): IdleState
    requires k < |g.ticks|
  {
    IdleAt(g.obs, g.ticks[k].first, g.minutes)
  }

  function Before(g: Log, k: nat): Engine
    requires k <= |g.ticks|
  {
    if k == 0 then Engine(Boot, false)
    else Advance(Before(g, k - 1), IdleOf(g, k - 1), g.ticks[k - 1].completed)
  }

  predicate MaintainsAt(g: Log, k: nat)
    requires k < |g.ticks|
  {
    Maintains(Before(g, k), IdleOf(g, k))
  }

  function TimeOf(g: Log, k: nat): u64
    requires k < |g.ticks|
  {
    g.obs(g.ticks[k].first).now
  }

  /**
   * Where the observations of the tick after one that starts with observation `first` may
   * begin. A tick makes one observation and nobody else makes any; a maintenance makes at
   * least three more, two for the trims and one for the first sweep.
   */
  predicate Leads(maintains: bool, first: nat, next: nat) {
    if maintains then next > first + 3 else next == first + 1
  }

  ghost predicate Follow(g: Log, k: nat)
    requires k + 1 < |g.ticks|
  {
    Leads(MaintainsAt(g, k), g.ticks[k].first, g.ticks[k + 1].first)
  }

  ghost predicate Ordered(g: Log) {
    && (g.ticks != [] ==> g.ticks[0].first == 0)
    && forall k {:trigger Follow(g, k)} :: 0 <= k < |g.ticks| - 1 ==> Follow(g, k)
  }

  /** A tick arms the timer after its first observation, and the timer never fires early. */
  ghost predicate OnTime(g: Log, k: nat)
    requires k < |g.ticks|
  {
    && g.ticks[k].armed >= TimeOf(g, k)
    && (k > 0 ==> TimeOf(g, k) >= g.ticks[k - 1].armed + Interval(Before(g, k).state))
  }

  /** The clock is monotonic, and the first tick comes no sooner than the first second after boot. */
  ghost predicate Timed(g: Log) {
    && Monotonic(g.obs)
    && (g.ticks != [] ==> TimeOf(g, 0) >= 1)
    && forall k {:trigger OnTime(g, k)} :: 0 <= k < |g.ticks| ==> OnTime(g, k)
  }

  lemma {:induction false} Reachable(g: Log, k: nat)
    requires k <= |g.ticks|
    ensures !Before(g, k).state.InMaintenance? && !Before(g, k).state.ErrorBackoff?
    ensures k > 0 ==> !Before(g, k).state.Boot?
  {
    if k > 0 { Reachable(g, k - 1); }
  }

  // ----- Schedules grow tick by tick

  function Extended(g: Log, t: Tick): Log { g.(ticks := g.ticks + [t]) }

  /** `first` is a possible index for the observation of the next tick. */
  ghost predicate Next(g: Log, first: nat) {
    if g.ticks == [] then first == 0
    else
      var last := |g.ticks| - 1;
      Leads(MaintainsAt(g, last), g.ticks[last].first, first)
  }

  lemma {:induction false} BeforeExtended(g: Log, t: Tick, k: nat)
    requires k <= |g.ticks|
    ensures Before(Extended(g, t), k) == Before(g, k)
  {
    if k > 0 { BeforeExtended(g, t, k - 1); }
  }

  lemma {:induction false} OrderedExtended(g: Log, t: Tick)
    requires Ordered(g) && Next(g, t.first)
    ensures Ordered(Extended(g, t))
    ensures Before(Extended(g, t), |g.ticks| + 1) ==
        Advance(Before(g, |g.ticks|), IdleAt(g.obs, t.first, g.minutes), t.completed)
    ensures MaintainsAt(Extended(g, t), |g.ticks|) <==>
        Maintains(Before(g, |g.ticks|), IdleAt(g.obs, t.first, g.minutes))
  {
    var e := Extended(g, t);
    BeforeExtended(g, t, |g.ticks|);
    forall k | 0 <= k < |e.ticks| - 1 ensures Follow(e, k) {
      BeforeExtended(g, t, k);
      if k < |g.ticks| - 1 { assert Follow(g, k); }
    }
  }

  // ----- Spacing of maintenances

  /** The least time from arming the timer in a state to the next maintenance. */
  function Distance(s: EngineState): nat {
    match s
    case DeepIdle => 300
    case Candidate => 360
    case ScreenIsOff => 660
    case Active => 2460
    case Aborting => 2490
    case _ => 0
  }

  lemma {:induction false} StepDistance(e: Engine, idle: IdleState, completed: bool)
    ensures Maintains(e, idle) ==> Distance(e.state) == Interval(e.state)
    ensures Distance(e.state) <= Interval(e.state) + Distance(Advance(e, idle, completed).state)
  {
  }

  lemma {:induction false} TickTimes(g: Log, k: nat)
    requires Timed(g) && k + 1 < |g.ticks|
    ensures TimeOf(g, k + 1) >= g.ticks[k].armed + Interval(Before(g, k + 1).state)
    ensures g.ticks[k + 1].armed >= TimeOf(g, k + 1) && g.ticks[k].armed >= TimeOf(g, k)
  {
    assert OnTime(g, k) && OnTime(g, k + 1);
  }

  lemma {:induction false} DistanceStep(g: Log, k: nat)
    requires Timed(g) && k + 1 < |g.ticks|
    ensures MaintainsAt(g, k + 1) ==> TimeOf(g, k + 1) >= g.ticks[k].armed + Distance(Before(g, k + 1).state)
    ensures g.ticks[k + 1].armed + Distance(Before(g, k + 2).state) >=
            g.ticks[k].armed + Distance(Before(g, k + 1).state)
  {
    TickTimes(g, k);
    StepDistance(Before(g, k + 1), IdleOf(g, k + 1), g.ticks[k + 1].completed);
  }

  lemma {:induction false} DistanceKept(g: Log, k: nat, j: nat)
    requires Timed(g) && k < j < |g.ticks| && MaintainsAt(g, j)
    ensures TimeOf(g, j) >= g.ticks[k].armed + Distance(Before(g, k + 1).state)
    decreases j - k
  {
    DistanceStep(g, k);
    if j > k + 1 { DistanceKept(g, k + 1, j); }
  }

  lemma {:induction false} StateAfterMaintenance(g: Log, k: nat)
    requires k < |g.ticks| && MaintainsAt(g, k)
    ensures Before(g, k + 1) == AfterMaintenance(Before(g, k), g.ticks[k].completed)
  {
  }

  /**
   * In every schedule a maintenance starts at least 2460 seconds after the one before it
   * returned, and 2490 if that one was aborted: no observation and no timer delay changes it.
   */
  lemma {:induction false} MaintenanceSpacing(g: Log, i: nat, j: nat)
    requires Timed(g) && i < j < |g.ticks| && MaintainsAt(g, i) && MaintainsAt(g, j)
    ensures TimeOf(g, j) >= g.ticks[i].armed + if g.ticks[i].completed then 2460 else 2490
  {
    DistanceKept(g, i, j);
    StateAfterMaintenance(g, i);
  }

  // ----- Continuous idleness

  lemma {:induction false} OffKeepsStamp(g: Log, k: nat)
    requires Ordered(g) && Timed(g) && k < |g.ticks| && !IdleOf(g, k).NotIdle?
    ensures var s := StampAfter(g.obs, g.ticks[k].first + 1); 0 < s <= TimeOf(g, k)
  {
    var i := g.ticks[k].first;
    NowPositive(g.obs, g.ticks[0].first, i);
    StampInPast(g.obs, i);
    StampStep(g.obs, i, g.minutes);
  }

  lemma {:induction false} NowPositive(obs: nat -> Observation, i: nat, j: nat)
    requires Monotonic(obs) && obs(i).now >= 1 && i <= j
    ensures obs(j).now >= 1
  {
    assert NoLater(obs, i, j);
  }

  lemma {:induction false} StampInPast(obs: nat -> Observation, i: nat)
    requires Monotonic(obs)
    ensures StampAfter(obs, i) <= obs(i).now
  {
    if StampAfter(obs, i) != 0 {
      var q := StampWitness(obs, i);
      assert NoLater(obs, q, i);
    }
  }

  lemma {:induction false} StampStep(obs: nat -> Observation, i: nat, minutes: int)
    requires StampAfter(obs, i) <= obs(i).now
    ensures IdleAt(obs, i, minutes).NotIdle? <==> obs(i).screenOn
    ensures !obs(i).screenOn ==>
      StampAfter(obs, i + 1) == if StampAfter(obs, i) == 0 then obs(i).now else StampAfter(obs, i)
    ensures IdleAt(obs, i, minutes).IdleCandidate? ==>
      obs(i).Safe() && obs(i).now - StampAfter(obs, i + 1) >= RequiredDelay(minutes)
    ensures !obs(i).screenOn && obs(i).Safe() && obs(i).now - StampAfter(obs, i + 1) >= RequiredDelay(minutes) ==>
      IdleAt(obs, i, minutes).IdleCandidate?
  {
    var s := NextStamp(StampAfter(obs, i), obs(i));
    SmallDifference(obs(i).now, s);
  }

  lemma {:induction false} SmallDifference(x: u64, y: u64)
    requires y <= x
    ensures AsU64(x - y) == x - y
  {
  }

  /** The state before a tick tells how the tick before it went. */
  lemma {:induction false} Previous(g: Log, k: nat)
    requires 0 < k <= |g.ticks|
    ensures Before(g, k).state.DeepIdle? ==> Before(g, k - 1).state.Candidate? && !IdleOf(g, k - 1).NotIdle?
    ensures Before(g, k).state.Candidate? ==> Before(g, k - 1).state.ScreenIsOff? && IdleOf(g, k - 1).IdleCandidate?
  {
    PreviousStep(Before(g, k - 1), IdleOf(g, k - 1), g.ticks[k - 1].completed);
  }

  lemma {:induction false} PreviousStep(e: Engine, idle: IdleState, completed: bool)
    ensures Advance(e, idle, completed).state.DeepIdle? ==> e.state.Candidate? && !idle.NotIdle?
    ensures Advance(e, idle, completed).state.Candidate? ==> e.state.ScreenIsOff? && idle.IdleCandidate?
  {
  }

  lemma {:induction false} NextFirst(g: Log, k: nat)
    requires Ordered(g) && k + 1 < |g.ticks| && !Before(g, k).state.DeepIdle?
    ensures g.ticks[k + 1].first == g.ticks[k].first + 1
  {
    assert Follow(g, k);
  }

  /** From a candidate observation through two more with the screen off. */
  lemma {:induction false} StampOverThree(obs: nat -> Observation, i: nat, minutes: int) returns (q: nat)
    requires Monotonic(obs) && IdleAt(obs, i, minutes).IdleCandidate? && StampAfter(obs, i + 1) != 0
    requires !IdleAt(obs, i + 1, minutes).NotIdle? && !IdleAt(obs, i + 2, minutes).NotIdle?
    ensures obs(i).Safe() && q <= i && obs(q).now == StampAfter(obs, i + 3) != 0
    ensures forall k :: q <= k <= i + 2 ==> !obs(k).screenOn
    ensures obs(i).now - obs(q).now >= RequiredDelay(minutes)
  {
    StampInPast(obs, i);
    StampStep(obs, i, minutes);
    q := StampWitness(obs, i + 1);
    StampStays(obs, i + 1, i + 3);
  }

  /**
   * Continuous idleness: a maintenance comes exactly two ticks after an evaluation that
   * returned IDLE_CANDIDATE, and only then was it safe. Since the stamp every observation
   * saw the screen off, and at least the configured delay and six minutes have passed.
   */
  lemma {:induction false} ContinuouslyIdle(g: Log, j: nat) returns (q: nat)
    requires Ordered(g) && Timed(g) && j < |g.ticks| && MaintainsAt(g, j)
    ensures j >= 2 && IdleOf(g, j - 2).IdleCandidate?
    ensures var o := g.obs(g.ticks[j - 2].first);
      o.batterySafe && o.thermalSafe && o.memorySafe && !o.heavyForeground
    ensures g.ticks[j].first == g.ticks[j - 2].first + 2
    ensures q <= g.ticks[j - 2].first && g.obs(q).now == StampAfter(g.obs, g.ticks[j].first + 1) != 0
    ensures forall i :: q <= i <= g.ticks[j].first ==> !g.obs(i).screenOn
    ensures TimeOf(g, j) - g.obs(q).now >= RequiredDelay(g.minutes) + 360
    ensures 0 <= g.minutes * 60 < MOD64 ==> TimeOf(g, j) - g.obs(q).now >= g.minutes * 60 + 360
  {
    if 0 <= g.minutes * 60 < MOD64 { DelayInSeconds(g.minutes); }
    ComesFromCandidate(g, j);
    OffKeepsStamp(g, j - 2);
    q := StampOverThree(g.obs, g.ticks[j - 2].first, g.minutes);
    SixMinutes(g, j - 2, j - 1, j);
  }

  lemma {:induction false} SixMinutes(g: Log, k: nat, i: nat, j: nat)
    requires Timed(g) && k + 1 == i && i + 1 == j && j < |g.ticks|
    requires Before(g, i).state.Candidate? && Before(g, j).state.DeepIdle?
    ensures TimeOf(g, j) >= TimeOf(g, k) + 360
  {
    CandidateGap(g, k);
    DeepIdleGap(g, i);
  }

  lemma {:induction false} CandidateGap(g: Log, k: nat)
    requires Timed(g) && k + 1 < |g.ticks| && Before(g, k + 1).state.Candidate?
    ensures TimeOf(g, k + 1) >= TimeOf(g, k) + 60
  {
    TickTimes(g, k);
  }

  lemma {:induction false} DeepIdleGap(g: Log, k: nat)
    requires Timed(g) && k + 1 < |g.ticks| && Before(g, k + 1).state.DeepIdle?
    ensures TimeOf(g, k + 1) >= TimeOf(g, k) + 300
  {
    TickTimes(g, k);
  }

  lemma {:induction false} TickGap(g: Log, k: nat, seconds: nat)
    requires Timed(g) && k + 1 < |g.ticks| && Interval(Before(g, k + 1).state) == seconds
    ensures TimeOf(g, k + 1) >= TimeOf(g, k) + seconds
  {
    TickTimes(g, k);
  }

  lemma {:induction false} ComesFromCandidate(g: Log, j: nat)
    requires Ordered(g) && j < |g.ticks| && MaintainsAt(g, j)
    ensures j >= 2 && IdleOf(g, j - 2).IdleCandidate? && !IdleOf(g, j - 1).NotIdle? && !IdleOf(g, j).NotIdle?
    ensures Before(g, j - 1).state.Candidate? && Before(g, j).state.DeepIdle?
    ensures g.ticks[j - 1].first == g.ticks[j - 2].first + 1 && g.ticks[j].first == g.ticks[j - 2].first + 2
  {
    assert Before(g, j).state.DeepIdle?;
    Previous(g, j);
    Previous(g, j - 1);
    NextFirst(g, j - 2);
    NextFirst(g, j - 1);
  }

  /** The verdict of a tick is `NotIdle` exactly when its first observation sees the screen on. */
  predicate OnAt(g: Log, k: nat)
    requires k < |g.ticks|
  {
    g.obs(g.ticks[k].first).screenOn
  }

  /** Which ticks lead to which state, in terms of the tick before. */
  lemma {:induction false} Arrives(g: Log, k: nat)
    requires 0 < k <= |g.ticks|
    ensures Before(g, k).state.DeepIdle? <==> Before(g, k - 1).state.Candidate? && !OnAt(g, k - 1)
    ensures Before(g, k).state.Candidate? <==> Before(g, k - 1).state.ScreenIsOff? && IdleOf(g, k - 1).IdleCandidate?
  {
    Reachable(g, k - 1);
  }

  /**
   * When a tick maintains: never among the first two, and later exactly when the tick two
   * before it found the engine in SCREEN_OFF and returned IDLE_CANDIDATE, and the two ticks
   * since saw the screen off. Nothing else those two observed matters.
   */
  lemma {:induction false} MaintainsExactlyWhen(g: Log, j: nat)
    requires j < |g.ticks|
    ensures MaintainsAt(g, j) <==>
      j >= 2 && Before(g, j - 2).state.ScreenIsOff? && IdleOf(g, j - 2).IdleCandidate? && !OnAt(g, j - 1) && !OnAt(g, j)
  {
    if j >= 1 { Arrives(g, j); }
    if j >= 2 { Arrives(g, j - 1); }
  }

  /** In which cases a tick leads to each state, for every schedule. */
  lemma {:induction false} ArrivesExactlyWhen(g: Log, k: nat)
    requires k < |g.ticks|
    ensures var s, t := Before(g, k).state, Before(g, k + 1).state;
      && (t.Active? <==> OnAt(g, k) || s.Aborting? || (s.DeepIdle? && g.ticks[k].completed))
      && (t.ScreenIsOff? <==>
            !OnAt(g, k) && (s.Boot? || s.Active? || (s.ScreenIsOff? && !IdleOf(g, k).IdleCandidate?)))
      && (t.Candidate? <==> s.ScreenIsOff? && IdleOf(g, k).IdleCandidate?)
      && (t.DeepIdle? <==> !OnAt(g, k) && s.Candidate?)
      && (t.Aborting? <==> !OnAt(g, k) && s.DeepIdle? && !g.ticks[k].completed)
  {
    Reachable(g, k);
    Reachable(g, k + 1);
  }

  /**
   * Forced doze begins with a completed maintenance, and ends with a screen-on tick that finds the
   * engine not in ACTIVE.
   */
  lemma {:induction false} DozeChangesExactlyWhen(g: Log, k: nat)
    requires k < |g.ticks|
    ensures Before(g, k + 1).dozeForced <==>
      if OnAt(g, k) then Before(g, k).dozeForced && Before(g, k).state.Active?
      else Before(g, k).dozeForced || (Before(g, k).state.DeepIdle? && g.ticks[k].completed)
  {
    Reachable(g, k);
  }

  /** Every screen-on tick leads to ACTIVE, and so puts the next maintenance off by at least 2460 seconds. */
  lemma {:induction false} ScreenOnStartsOver(g: Log, k: nat, j: nat)
    requires Timed(g) && k < j < |g.ticks| && OnAt(g, k) && MaintainsAt(g, j)
    ensures Before(g, k + 1).state.Active? && TimeOf(g, j) >= g.ticks[k].armed + 2460
  {
    DistanceKept(g, k, j);
  }

  /** The two devices show the same until observation `n`, and the same screen and clock for good. */
  ghost predicate SameUntil(obs: nat -> Observation, other: nat -> Observation, n: nat) {
    && (forall i :: 0 <= i < n ==> obs(i) == other(i))
    && forall i: nat :: obs(i).screenOn == other(i).screenOn && obs(i).now == other(i).now
  }

  lemma {:induction false} SameStamp(obs: nat -> Observation, other: nat -> Observation, n: nat, i: nat)
    requires SameUntil(obs, other, n)
    ensures StampAfter(obs, i) == StampAfter(other, i)
  {
    if i > 0 { SameStamp(obs, other, n, i - 1); }
  }

  /** Each tick starts after all observations of the ticks before it. */
  lemma {:induction false} FirstsIncrease(g: Log, k: nat, j: nat)
    requires Ordered(g) && k < j < |g.ticks|
    ensures g.ticks[k].first < g.ticks[j].first
    decreases j
  {
    assert Follow(g, j - 1);
    if k < j - 1 { FirstsIncrease(g, k, j - 1); }
  }

  lemma {:induction false} SameEngine(g: Log, h: Log, n: nat, k: nat)
    requires h == g.(obs := h.obs) && SameUntil(g.obs, h.obs, n)
    requires k <= |g.ticks| && forall i :: 0 <= i < k ==> g.ticks[i].first < n
    ensures Before(g, k) == Before(h, k)
  {
    if k > 0 {
      SameEngine(g, h, n, k - 1);
      SameStamp(g.obs, h.obs, n, g.ticks[k - 1].first);
    }
  }

  /**
   * Safety is not rechecked: change what the safety checks answer from the tick before tick
   * `j` on, in any way, and tick `j` maintains or not exactly as before.
   */
  lemma {:induction false} LateSafetyIsIgnored(g: Log, h: Log, j: nat)
    requires Ordered(g) && 0 < j < |g.ticks|
    requires h == g.(obs := h.obs) && SameUntil(g.obs, h.obs, g.ticks[j - 1].first)
    ensures MaintainsAt(g, j) <==> MaintainsAt(h, j)
  {
    MaintainsExactlyWhen(g, j);
    MaintainsExactlyWhen(h, j);
    if j >= 2 {
      var n := g.ticks[j - 1].first;
      forall i | 0 <= i < j - 1 ensures g.ticks[i].first < n { FirstsIncrease(g, i, j - 1); }
      SameEngine(g, h, n, j - 2);
      SameStamp(g.obs, h.obs, n, g.ticks[j - 2].first);
    }
  }

  // ----- Bounded liveness

  /** From tick `k` on, for `n` ticks, the first observation sees the screen off and everything safe. */
  ghost predicate Quiet(g: Log, k: nat, n: nat) {
    && k + n <= |g.ticks|
    && forall m :: k <= m < k + n ==> OffAndSafe(g.obs(g.ticks[m].first))
  }

  predicate OffAndSafe(o: Observation) {
    !o.screenOn && o.batterySafe && o.thermalSafe && o.memorySafe && !o.heavyForeground
  }

  /** Some tick from `k` on, before `k + n`, runs a maintenance. */
  ghost predicate MaintainsWithin(g: Log, k: nat, n: nat) {
    exists j :: k <= j < k + n && j < |g.ticks| && MaintainsAt(g, j)
  }

  lemma {:induction false} QuietTick(g: Log, k: nat, n: nat)
    requires Ordered(g) && Timed(g) && Quiet(g, k, n) && n > 0
    ensures !IdleOf(g, k).NotIdle?
    ensures var s := StampAfter(g.obs, g.ticks[k].first + 1);
      0 < s <= TimeOf(g, k) && (TimeOf(g, k) - s >= RequiredDelay(g.minutes) ==> IdleOf(g, k).IdleCandidate?)
  {
    var i := g.ticks[k].first;
    assert OffAndSafe(g.obs(i));
    StampInPast(g.obs, i);
    StampStep(g.obs, i, g.minutes);
    OffKeepsStamp(g, k);
  }

  lemma {:induction false} AdvanceBefore(g: Log, k: nat)
    requires k < |g.ticks| && !IdleOf(g, k).NotIdle?
    ensures var s := Before(g, k).state;
      var t := Before(g, k + 1).state;
      && (s.Boot? || s.Active? ==> t.ScreenIsOff?)
      && (s.ScreenIsOff? ==> t == if IdleOf(g, k).IdleCandidate? then Candidate else ScreenIsOff)
      && (s.Candidate? ==> t.DeepIdle?)
      && (s.DeepIdle? ==> MaintainsAt(g, k))
      && (s.Aborting? ==> t.Active?)
  {
  }

  lemma {:induction false} WithinMore(g: Log, k: nat, m: nat, n: nat, more: nat)
    requires k <= m && m + n <= k + more && MaintainsWithin(g, m, n)
    ensures MaintainsWithin(g, k, more)
  {
    var j :| m <= j < m + n && j < |g.ticks| && MaintainsAt(g, j);
    assert k <= j < k + more;
  }

  lemma {:induction false} FromDeepIdle(g: Log, k: nat)
    requires Ordered(g) && Timed(g) && Quiet(g, k, 1) && Before(g, k).state.DeepIdle?
    ensures MaintainsWithin(g, k, 1)
  {
    QuietTick(g, k, 1);
    AdvanceBefore(g, k);
  }

  lemma {:induction false} FromCandidate(g: Log, k: nat)
    requires Ordered(g) && Timed(g) && Quiet(g, k, 2) && Before(g, k).state.Candidate?
    ensures MaintainsWithin(g, k, 2)
  {
    QuietTick(g, k, 2);
    AdvanceBefore(g, k);
    FromDeepIdle(g, k + 1);
    WithinMore(g, k, k + 1, 1, 2);
  }

  /** The stamp behind tick `m` is no younger than the earlier tick `k`, as no tick in between maintained. */
  lemma {:induction false} StampFrom(g: Log, k: nat, m: nat)
    requires Ordered(g) && Timed(g) && k <= m && Quiet(g, k, m - k + 1)
    requires forall i :: k <= i < m ==> !MaintainsAt(g, i)
    ensures g.ticks[m].first == g.ticks[k].first + m - k
    ensures StampAfter(g.obs, g.ticks[m].first + 1) <= TimeOf(g, k)
    ensures StampAfter(g.obs, g.ticks[m].first + 1) == StampAfter(g.obs, g.ticks[k].first + 1) != 0
    decreases m - k
  {
    QuietTick(g, k, m - k + 1);
    if k < m {
      StampFrom(g, k, m - 1);
      assert Follow(g, m - 1);
      QuietTick(g, m, 1);
      assert OffAndSafe(g.obs(g.ticks[m].first));
    }
  }

  /** In SCREEN_OFF the ranking is the part of the delay that is still missing, in steps of 300 s. */
  lemma {:induction false} FromScreenOff(g: Log, k: nat, m: nat, n: nat)
    requires Ordered(g) && Timed(g) && k <= m && Quiet(g, k, m - k + n + 3)
    requires Before(g, m).state.ScreenIsOff?
    requires forall i :: k <= i < m ==> !MaintainsAt(g, i)
    requires TimeOf(g, m) - TimeOf(g, k) + 300 * n >= RequiredDelay(g.minutes)
    ensures MaintainsWithin(g, m, n + 3)
    decreases n
  {
    StampFrom(g, k, m);
    QuietTick(g, m, n + 3);
    AdvanceBefore(g, m);
    if IdleOf(g, m).IdleCandidate? {
      FromCandidate(g, m + 1);
      WithinMore(g, m, m + 1, 2, n + 3);
    } else {
      TickGap(g, m, 300);
      assert !MaintainsAt(g, m);
      FromScreenOff(g, k, m + 1, n - 1);
      WithinMore(g, m, m + 1, n + 2, n + 3);
    }
  }

  /** The 300-second steps that the configured delay takes. */
  function Steps(minutes: int): nat { (RequiredDelay(minutes) + 299) / 300 }

  function AtLeastOne(n: nat): nat { if n > 1 then n else 1 }

  function Bound(minutes: int): nat { AtLeastOne(Steps(minutes)) + 4 }

  lemma {:induction false} StepsCover(minutes: int)
    ensures 300 * Steps(minutes) >= RequiredDelay(minutes)
    ensures 0 <= minutes * 60 < MOD64 ==> Steps(minutes) == (minutes + 4) / 5
  {
    if 0 <= minutes * 60 < MOD64 { DelayInSeconds(minutes); }
  }

  lemma {:induction false} FromStart(g: Log, k: nat, n: nat)
    requires Ordered(g) && Timed(g) && Quiet(g, k, AtLeastOne(n) + 3) && 300 * n >= RequiredDelay(g.minutes)
    requires Before(g, k).state.Boot? || Before(g, k).state.Active?
    ensures MaintainsWithin(g, k, AtLeastOne(n) + 3)
  {
    var m := AtLeastOne(n);
    LeavesStart(g, k);
    FromScreenOff(g, k, k + 1, m - 1);
    WithinMore(g, k, k + 1, m + 2, m + 3);
  }

  lemma {:induction false} LeavesStart(g: Log, k: nat)
    requires Ordered(g) && Timed(g) && Quiet(g, k, 2)
    requires Before(g, k).state.Boot? || Before(g, k).state.Active?
    ensures !MaintainsAt(g, k) && Before(g, k + 1).state.ScreenIsOff? && TimeOf(g, k + 1) >= TimeOf(g, k) + 300
  {
    QuietTick(g, k, 2);
    AdvanceBefore(g, k);
    TickGap(g, k, 300);
  }

  lemma {:induction false} FromAnywhere(g: Log, k: nat, n: nat)
    requires Ordered(g) && Timed(g) && Quiet(g, k, AtLeastOne(n) + 4) && 300 * n >= RequiredDelay(g.minutes)
    ensures MaintainsWithin(g, k, AtLeastOne(n) + 4)
  {
    var bound := AtLeastOne(n) + 4;
    Reachable(g, k);
    match Before(g, k).state
    case DeepIdle =>
      FromDeepIdle(g, k);
      WithinMore(g, k, k, 1, bound);
    case Candidate =>
      FromCandidate(g, k);
      WithinMore(g, k, k, 2, bound);
    case ScreenIsOff =>
      FromScreenOff(g, k, k, n);
      WithinMore(g, k, k, n + 3, bound);
    case Boot =>
      FromStart(g, k, n);
      WithinMore(g, k, k, bound - 1, bound);
    case Active =>
      FromStart(g, k, n);
      WithinMore(g, k, k, bound - 1, bound);
    case Aborting =>
      QuietTick(g, k, bound);
      AdvanceBefore(g, k);
      FromStart(g, k + 1, n);
      WithinMore(g, k, k + 1, bound - 1, bound);
    case _ =>
  }

  /**
   * Bounded liveness: from every tick boundary of every schedule, if the screen stays off
   * and the checks stay safe, a maintenance is entered within max(1, ceil(delay / 300)) + 4 ticks.
   */
  lemma {:induction false} MaintenanceComes(g: Log, k: nat)
    requires Ordered(g) && Timed(g) && Quiet(g, k, Bound(g.minutes))
    ensures MaintainsWithin(g, k, Bound(g.minutes))
    ensures 0 <= g.minutes * 60 < MOD64 ==> Bound(g.minutes) == AtLeastOne((g.minutes + 4) / 5) + 4
  {
    StepsCover(g.minutes);
    FromAnywhere(g, k, Steps(g.minutes));
  }

  /** A negative delay wraps to an enormous one: the daemon then never maintains anything. */
  lemma {:induction false} NegativeDelayNever(g: Log, j: nat)
    requires Ordered(g) && Timed(g) && j < |g.ticks|
    requires -0x8000_0000 <= g.minutes * 60 < 0 && TimeOf(g, j) < 0x8000_0000_0000_0000
    ensures !MaintainsAt(g, j)
  {
    if MaintainsAt(g, j) {
      var q := ContinuouslyIdle(g, j);
      NegativeDelay(g.minutes);
    }
  }

  lemma {:induction false} NegativeDelay(minutes: int)
    requires -0x8000_0000 <= minutes * 60 < 0
    ensures RequiredDelay(minutes) >= 0x8000_0000_0000_0000
  {
    assert RequiredDelay(minutes) == minutes * 60 + 0x1_0000_0000_0000_0000;
  }

  // ----- What the engine does not guarantee

  /** With no delay configured, an observation with the screen off is a candidate as soon as it is safe. */
  lemma {:induction false} NoDelay(obs: nat -> Observation, i: nat)
    ensures IdleAt(obs, i, 0) == if obs(i).screenOn then NotIdle else if obs(i).Safe() then IdleCandidate else ScreenOff
  {
  }

  /** A device whose battery turns unsafe two ticks before the maintenance that starts anyway. */
  function TurnsUnsafe(i: nat): Observation {
    Observation(false, if i < 4 then 1000 * (i + 1) else 4000, i < 2, true, true, false)
  }

  const UNSAFE_RUN: Log := Log(TurnsUnsafe, 0,
      [Tick(0, true, 1000), Tick(1, true, 2000), Tick(2, true, 3000), Tick(3, true, 4000)])

  lemma {:induction false} UnsafeStates()
    ensures var g := UNSAFE_RUN;
      && Before(g, 1).state.ScreenIsOff? && Before(g, 2).state.Candidate? && Before(g, 3).state.DeepIdle?
      && MaintainsAt(g, 3) && !MaintainsAt(g, 0) && !MaintainsAt(g, 1) && !MaintainsAt(g, 2)
  {
    var g := UNSAFE_RUN;
    NoDelay(g.obs, 0);
    NoDelay(g.obs, 1);
    NoDelay(g.obs, 2);
    NoDelay(g.obs, 3);
    assert Before(g, 1) == Advance(Before(g, 0), IdleOf(g, 0), true);
    assert Before(g, 2) == Advance(Before(g, 1), IdleOf(g, 1), true);
    assert Before(g, 3) == Advance(Before(g, 2), IdleOf(g, 2), true);
  }

  /** Safety is checked only on the way to IDLE_CANDIDATE: this schedule maintains while the battery is not safe. */
  lemma {:induction false} SafetyIsNotRechecked()
    ensures Ordered(UNSAFE_RUN) && Timed(UNSAFE_RUN)
    ensures MaintainsAt(UNSAFE_RUN, 3) && !UNSAFE_RUN.obs(UNSAFE_RUN.ticks[3].first).Safe()
    ensures !UNSAFE_RUN.obs(UNSAFE_RUN.ticks[2].first).Safe()
  {
    UnsafeStates();
  }

  /** A device that lies still, with the timer firing as early as it may. */
  function LiesStill(i: nat): Observation {
    Observation(false,
      if i < 1 then 1 else if i < 2 then 301 else if i < 3 then 361 else if i < 9 then 661
      else if i < 10 then 2461 else if i < 11 then 2761 else if i < 12 then 2821 else 3121,
      true, true, true, false)
  }

  const STILL_RUN: Log := Log(LiesStill, 0, [
    Tick(0, true, 1), Tick(1, true, 301), Tick(2, true, 361), Tick(3, true, 661),
    Tick(9, true, 2461), Tick(10, true, 2761), Tick(11, true, 2821), Tick(12, true, 3121)])

  lemma {:induction false} StillState(k: nat)
    requires k < 8
    ensures IdleOf(STILL_RUN, k).IdleCandidate?
    ensures Before(STILL_RUN, k).state ==
      if k == 0 then Boot else if k == 4 then Active
      else if k == 1 || k == 5 then ScreenIsOff else if k == 2 || k == 6 then Candidate else DeepIdle
  {
    NoDelay(STILL_RUN.obs, STILL_RUN.ticks[k].first);
    if k > 0 { StillState(k - 1); }
  }

  lemma {:induction false} StillFollows(k: nat)
    requires k < 7
    ensures Follow(STILL_RUN, k)
  {
    StillState(k);
  }

  lemma {:induction false} StillOnTime(k: nat)
    requires k < 8
    ensures OnTime(STILL_RUN, k)
  {
    StillState(k);
  }

  /** The spacing is exact: this schedule has two maintenances 2460 seconds apart. */
  lemma {:induction false} SpacingIsAttained()
    ensures Ordered(STILL_RUN) && Timed(STILL_RUN) && MaintainsAt(STILL_RUN, 3) && MaintainsAt(STILL_RUN, 7)
    ensures TimeOf(STILL_RUN, 7) == STILL_RUN.ticks[3].armed + 2460
  {
    var g := STILL_RUN;
    forall k | 0 <= k < 8 ensures OnTime(g, k) { StillOnTime(k); }
    forall k | 0 <= k < 7 ensures Follow(g, k) { StillFollows(k); }
    StillState(3);
    StillState(7);
  }

  /** A device that lies still, whose first maintenance is aborted by a direct look at the screen. */
  function LiesStillAborted(i: nat): Observation {
    Observation(false,
      if i < 1 then 1 else if i < 2 then 301 else if i < 3 then 361 else if i < 9 then 661
      else if i < 10 then 691 else if i < 11 then 2491 else if i < 12 then 2791 else if i < 13 then 2851 else 3151,
      true, true, true, false)
  }

  const ABORTED_RUN: Log := Log(LiesStillAborted, 0, [
    Tick(0, true, 1), Tick(1, true, 301), Tick(2, true, 361), Tick(3, false, 661), Tick(9, true, 691),
    Tick(10, true, 2491), Tick(11, true, 2791), Tick(12, true, 2851), Tick(13, true, 3151)])

  lemma {:induction false} AbortedState(k: nat)
    requires k < 9
    ensures IdleOf(ABORTED_RUN, k).IdleCandidate?
    ensures Before(ABORTED_RUN, k).state ==
      if k == 0 then Boot else if k == 4 then Aborting else if k == 5 then Active
      else if k == 1 || k == 6 then ScreenIsOff else if k == 2 || k == 7 then Candidate else DeepIdle
  {
    NoDelay(ABORTED_RUN.obs, ABORTED_RUN.ticks[k].first);
    if k > 0 { AbortedState(k - 1); }
  }

  lemma {:induction false} AbortedTick(k: nat)
    requires k < 9
    ensures OnTime(ABORTED_RUN, k) && (k < 8 ==> Follow(ABORTED_RUN, k))
  {
    AbortedState(k);
  }

  /** So is the one after an abort: here a maintenance starts 2490 seconds after an aborted one ended. */
  lemma {:induction false} AbortedSpacingIsAttained()
    ensures Ordered(ABORTED_RUN) && Timed(ABORTED_RUN)
    ensures MaintainsAt(ABORTED_RUN, 3) && !ABORTED_RUN.ticks[3].completed && MaintainsAt(ABORTED_RUN, 8)
    ensures TimeOf(ABORTED_RUN, 8) == ABORTED_RUN.ticks[3].armed + 2490
  {
    var g := ABORTED_RUN;
    forall k | 0 <= k < 9 ensures OnTime(g, k) && (k < 8 ==> Follow(g, k)) { AbortedTick(k); }
    AbortedState(3);
    AbortedState(8);
  }

  // ----- When a forced doze is released

  /** Between ticks `i` and `j` some tick saw the screen off and a later one saw it on. */
  ghost predicate OffThenOn(g: Log, i: nat, j: nat)
    requires j <= |g.ticks|
  {
    exists a, b :: i < a < b < j && !OnAt(g, a) && OnAt(g, b)
  }

  ghost predicate SeenOff(g: Log, i: nat, j: nat)
    requires j <= |g.ticks|
  {
    exists a :: i < a < j && !OnAt(g, a)
  }

  /** Tick `i` completes a maintenance, and no tick between it and `j` starts another. */
  ghost predicate LastCompleted(g: Log, i: nat, j: nat) {
    && i < j <= |g.ticks| && MaintainsAt(g, i) && g.ticks[i].completed
    && forall k :: i < k < j ==> !MaintainsAt(g, k)
  }

  /** How one more tick bears on what was seen since tick `i`. */
  lemma {:induction false} SeenMore(g: Log, i: nat, j: nat)
    requires i < j < |g.ticks|
    ensures SeenOff(g, i, j + 1) <==> SeenOff(g, i, j) || !OnAt(g, j)
    ensures OffThenOn(g, i, j + 1) <==> OffThenOn(g, i, j) || (SeenOff(g, i, j) && OnAt(g, j))
  {
    if SeenOff(g, i, j) && OnAt(g, j) {
      var a :| i < a < j && !OnAt(g, a);
      assert i < a < j < j + 1;
    }
  }

  /**
   * ACTIVE with doze forced until the screen is seen off, then on the way down, and released once it
   * is seen on again.
   */
  lemma {:induction false} DozeSince(g: Log, i: nat, j: nat)
    requires LastCompleted(g, i, j)
    ensures var e := Before(g, j);
      && (!SeenOff(g, i, j) ==> e == Engine(Active, true))
      && (SeenOff(g, i, j) && !OffThenOn(g, i, j) ==>
            e.dozeForced && (e.state.ScreenIsOff? || e.state.Candidate? || e.state.DeepIdle?))
      && (OffThenOn(g, i, j) ==> SeenOff(g, i, j) && !e.dozeForced)
    decreases j
  {
    if j == i + 1 {
      StateAfterMaintenance(g, i);
    } else {
      DozeSince(g, i, j - 1);
      SeenMore(g, i, j - 1);
      Reachable(g, j - 1);
      assert !MaintainsAt(g, j - 1);
    }
  }

  /**
   * The forced doze of a completed maintenance outlasts the waking of the device: until the
   * next maintenance it is still forced exactly when no tick saw the screen on after
   * another had seen it off. A screen that is on at every tick never releases it.
   */
  lemma {:induction false} DozeReleasedExactlyWhen(g: Log, i: nat, j: nat)
    requires LastCompleted(g, i, j)
    ensures Before(g, j).dozeForced <==> !OffThenOn(g, i, j)
    ensures !SeenOff(g, i, j) ==> Before(g, j) == Engine(Active, true)
  {
    DozeSince(g, i, j);
  }

  /** The device lies still until its first maintenance is over; from then on it is in use. */
  function PickedUp(i: nat): Observation {
    Observation(i >= 9,
      if i < 1 then 1 else if i < 2 then 301 else if i < 3 then 361 else if i < 9 then 661
      else if i < 10 then 2461 else 4261,
      true, true, true, false)
  }

  const PICKED_UP_RUN: Log := Log(PickedUp, 0, [
    Tick(0, true, 1), Tick(1, true, 301), Tick(2, true, 361), Tick(3, true, 661), Tick(9, true, 2461),
    Tick(10, true, 4261)])

  lemma {:induction false} PickedUpState(k: nat)
    requires k <= 6
    ensures k < 6 ==> (IdleOf(PICKED_UP_RUN, k).IdleCandidate? <==> k < 4)
    ensures k < 6 ==> (IdleOf(PICKED_UP_RUN, k).NotIdle? <==> k >= 4)
    ensures Before(PICKED_UP_RUN, k) == Engine(
      if k == 0 then Boot else if k == 1 then ScreenIsOff else if k == 2 then Candidate
      else if k == 3 then DeepIdle else Active,
      k >= 4)
  {
    if k < 6 { NoDelay(PICKED_UP_RUN.obs, PICKED_UP_RUN.ticks[k].first); }
    if k > 0 { PickedUpState(k - 1); }
  }

  lemma {:induction false} PickedUpTick(k: nat)
    requires k < 6
    ensures OnTime(PICKED_UP_RUN, k) && (k < 5 ==> Follow(PICKED_UP_RUN, k))
  {
    PickedUpState(k);
  }

  /** Here the two ticks after a completed maintenance, half an hour apart, see the screen on and leave doze forced. */
  lemma {:induction false} DozeOutlastsScreenOn()
    ensures Ordered(PICKED_UP_RUN) && Timed(PICKED_UP_RUN)
    ensures MaintainsAt(PICKED_UP_RUN, 3) && OnAt(PICKED_UP_RUN, 4) && OnAt(PICKED_UP_RUN, 5)
    ensures Before(PICKED_UP_RUN, 6).dozeForced
  {
    var g := PICKED_UP_RUN;
    forall k | 0 <= k < 6 ensures OnTime(g, k) && (k < 5 ==> Follow(g, k)) { PickedUpTick(k); }
    PickedUpState(3);
    PickedUpState(6);
  }
}

/** The cooldown over whole histories: analysis, cleaning and the store across maintenances. */
module CleaningHistory {
  import opened Basics
  import opened FileTree
  import opened StateStorage
  import opened Phone
  import opened Cleaning
  import opened CleaningRuns
  import opened CleaningBudget
  import opened CacheAnalysis
  import opened Maintenance
  import opened MaintenanceRuns
  import Fnv1a

  /** When a package with this hash was last cleaned, according to the log. */
  function LastClean(log: seq<Event>, hash: u32): Option<u64> {
    if log == [] then None
    else
      var e := log[|log| - 1];
      if e.Cleaned? && Fnv1a.Hash(e.pkg) == hash then Some(e.at) else LastClean(log[..|log| - 1], hash)
  }

  /** The latest analysis in the log. */
  function LastAnalysis(log: seq<Event>): (e: Option<Event>)
    ensures e.Some? ==> e.value.Analyzed?
  {
    if log == [] then None
    else if log[|log| - 1].Analyzed? then Some(log[|log| - 1])
    else LastAnalysis(log[..|log| - 1])
  }

  /** The store remembers every clean in the log. */
  ghost predicate Remembers(log: seq<Event>, m: Store) {
    forall hash :: LastClean(log, hash).Some? ==> Lookup(m, hash).lastCleanupMs == LastClean(log, hash).value
  }

  /** What one event may add to a log: an analysis that starts from an up-to-date store, a clean it allowed. */
  ghost predicate Legitimate(log: seq<Event>, e: Event) {
    match e
    case Analyzed(_, before) => Remembers(log, before)
    case Cleaned(pkg, _) =>
      var a := LastAnalysis(log);
      a.Some? && !CoolingDown(Get(a.value.before, pkg), a.value.now)
    case _ => true
  }

  ghost predicate HistoryOk(log: seq<Event>) {
    log == [] || (HistoryOk(log[..|log| - 1]) && Legitimate(log[..|log| - 1], log[|log| - 1]))
  }

  lemma {:induction false} Append(log: seq<Event>, e: Event)
    ensures HistoryOk(log + [e]) <==> HistoryOk(log) && Legitimate(log, e)
    ensures LastAnalysis(log + [e]) == if e.Analyzed? then Some(e) else LastAnalysis(log)
    ensures forall hash :: LastClean(log + [e], hash) ==
              if e.Cleaned? && Fnv1a.Hash(e.pkg) == hash then Some(e.at) else LastClean(log, hash)
  {
    assert (log + [e])[..|log|] == log;
  }

  /** Cleaning work as such neither changes the history nor what the store knows of it. */
  lemma {:induction false} PlainExtension(log: seq<Event>, later: seq<Event>)
    requires log <= later && forall i :: |log| <= i < |later| ==> Plain(later[i])
    ensures HistoryOk(later) <==> HistoryOk(log)
    ensures LastAnalysis(later) == LastAnalysis(log)
    ensures forall hash :: LastClean(later, hash) == LastClean(log, hash)
    decreases |later|
  {
    if |later| == |log| {
      assert later == log;
    } else {
      var init, e := later[..|later| - 1], later[|later| - 1];
      PlainExtension(log, init);
      assert later == init + [e];
      Append(init, e);
    }
  }

  // ----- Every maintenance keeps the history

  ghost predicate HistoryInv(env: Env, w: World) {
    && ProcessInv(env, w.run) && HistoryOk(w.run.log) && Remembers(w.run.log, w.store) && KeysMatch(w.store)
  }

  /** A target whose package was not cooling down at the latest analysis. */
  ghost predicate Allowed(log: seq<Event>, d: CacheDirInfo) {
    var a := LastAnalysis(log);
    a.Some? && !CoolingDown(Get(a.value.before, d.pkgName), a.value.now)
  }

  lemma {:induction false} FollowsKeepsHistory(env: Env, w: World, run: Run)
    requires HistoryInv(env, w) && ProcessInv(env, run) && Follows(w.run, run)
    ensures HistoryInv(env, w.(run := run)) && LastAnalysis(run.log) == LastAnalysis(w.run.log)
  {
    PlainExtension(w.run.log, run.log);
  }

  lemma {:induction false} RecordKeepsHistory(env: Env, w: World, d: CacheDirInfo)
    requires HistoryInv(env, w) && Allowed(w.run.log, d)
    ensures var after := Recorded(env, w, d.pkgName);
      HistoryInv(env, after) && LastAnalysis(after.run.log) == LastAnalysis(w.run.log)
  {
    var now := env.wall(w.clocked);
    LoggedProcess(env, w.run, Cleaned(d.pkgName, now));
    Append(w.run.log, Cleaned(d.pkgName, now));
  }

  lemma {:induction false} DirectoryKeepsHistory(env: Env, w: World, d: CacheDirInfo)
    requires HistoryInv(env, w) && Allowed(w.run.log, d)
    ensures var after := CleanDirectory(env, w, d).0;
      HistoryInv(env, after) && LastAnalysis(after.run.log) == LastAnalysis(w.run.log)
  {
    var n := At(w.root, d.path);
    if Listable(n) {
      var pass := RemoveChildren(env, d.path, n.value.entries, w.run);
      ChildrenProcess(env, d.path, n.value.entries, w.run);
      FollowsKeepsHistory(env, w, pass.run);
      if pass.ok { RecordKeepsHistory(env, w.(run := pass.run), d); }
    }
  }

  lemma {:induction false} TargetsKeepHistory(env: Env, w: World, ts: seq<MaintenanceTarget>)
    requires HistoryInv(env, w) && forall t :: t in ts ==> Allowed(w.run.log, t.cacheDir)
    ensures HistoryInv(env, CleanTargets(env, w, ts).world)
    decreases |ts|
  {
    if ts != [] {
      var (idle, run) := Observe(env, w.run);
      ObserveProcess(env, w.run);
      FollowsKeepsHistory(env, w, run);
      if !idle.NotIdle? {
        assert Allowed(run.log, ts[0].cacheDir);
        DirectoryKeepsHistory(env, w.(run := run), ts[0].cacheDir);
        var (after, ok) := CleanDirectory(env, w.(run := run), ts[0].cacheDir);
        if ok {
          forall t | t in ts[1..] ensures Allowed(after.run.log, t.cacheDir) { assert t in ts; }
          TargetsKeepHistory(env, after, ts[1..]);
        }
      }
    }
  }

  lemma {:induction false} AnalysisKeepsHistoryInv(env: Env, w: World, dirs: seq<CacheDirInfo>)
    requires HistoryInv(env, w)
    ensures var after := AfterAnalysis(env, w, dirs);
      && HistoryInv(env, after)
      && forall t :: t in Analyze(ScanOf(env, w, dirs), |dirs|).targets ==> Allowed(after.run.log, t.cacheDir)
  {
    var c := ScanOf(env, w, dirs);
    LoggedProcess(env, w.run, Analyzed(c.now, c.store));
    Append(w.run.log, Analyzed(c.now, c.store));
    AnalysisKeepsKeysMatch(c, |dirs|);
    AnalysisIsClosedForm(c, |dirs|);
    var after := AfterAnalysis(env, w, dirs);
    forall hash | LastClean(after.run.log, hash).Some?
      ensures Lookup(after.store, hash).lastCleanupMs == LastClean(after.run.log, hash).value
    {
      AnalysisKeepsHistory(c, hash);
    }
    forall t | t in Analyze(c, |dirs|).targets ensures Allowed(after.run.log, t.cacheDir) {
      SelectedNotCooling(c, |dirs|, t);
    }
  }

  lemma {:induction false} SweepProcess(env: Env, path: Path, es: seq<Entry>, r: Run)
    requires ProcessInv(env, r)
    ensures var s := SweepChildren(env, path, es, r).run; ProcessInv(env, s) && Follows(r, s)
  {
    if es != [] {
      if Protected(es[0].name) {
        SweepProcess(env, path, es[1..], r);
      } else {
        TreeProcess(env, path + [es[0].name], es[0].node, r);
        SweepProcess(env, path, es[1..], RemoveTree(env, path + [es[0].name], es[0].node, r).run);
      }
    }
  }

  lemma {:induction false} SweepAllProcess(env: Env, paths: seq<Path>, w: World)
    requires ProcessInv(env, w.run)
    ensures var after := SweepAll(env, paths, w);
      && ProcessInv(env, after.run) && Follows(w.run, after.run)
      && after.store == w.store && after.clocked == w.clocked
      && after.screened == w.screened && after.listed == w.listed
    decreases |paths|
  {
    if paths != [] {
      var (idle, run) := Observe(env, w.run);
      ObserveProcess(env, w.run);
      if !idle.NotIdle? {
        var v := w.(run := run);
        var n := At(v.root, paths[0]);
        if Listable(n) { SweepProcess(env, paths[0], n.value.entries, run); }
        SweepAllProcess(env, paths[1..], Sweep(env, paths[0], v));
      }
    }
  }

  lemma {:induction false} SurveyProcess(env: Env, w: World)
    requires ProcessInv(env, w.run)
    ensures var after := SurveyOf(env, w).world;
      ProcessInv(env, after.run) && Follows(w.run, after.run) && after.store == w.store && after.clocked == w.clocked
  {
    var r1 := Observe(env, w.run).1;
    ObserveProcess(env, w.run);
    ObserveProcess(env, r1);
    SweepAllProcess(env, SWEPT, w.(run := Observe(env, r1).1));
  }

  /** The sweeps ask for the idle state at least once. */
  lemma {:induction false} SweepAllObserves(env: Env, paths: seq<Path>, w: World)
    requires ProcessInv(env, w.run) && paths != []
    ensures SweepAll(env, paths, w).run.observed >= w.run.observed + 1
  {
    var (idle, run) := Observe(env, w.run);
    ObserveProcess(env, w.run);
    if !idle.NotIdle? {
      var v := w.(run := run);
      var n := At(v.root, paths[0]);
      if Listable(n) { SweepProcess(env, paths[0], n.value.entries, run); }
      SweepAllProcess(env, paths[1..], Sweep(env, paths[0], v));
    }
  }

  /** Before the analysis a maintenance makes at least three observations: for two trims and the first sweep. */
  lemma {:induction false} SurveyObserves(env: Env, w: World)
    requires ProcessInv(env, w.run)
    ensures SurveyOf(env, w).world.run.observed >= w.run.observed + 3
  {
    var r1 := Observe(env, w.run).1;
    ObserveProcess(env, w.run);
    ObserveProcess(env, r1);
    SweepAllObserves(env, SWEPT, w.(run := Observe(env, r1).1));
  }

  /**
   * Every maintenance, however it ends, keeps the process invariant, the history of cleans
   * and the agreement of keys and records.
   */
  lemma {:induction false} MaintenanceKeepsHistory(env: Env, w: World, after: World, ok: bool)
    requires HistoryInv(env, w) && Maintained(env, w, after, ok)
    ensures HistoryInv(env, after) && Later(w.run, after.run)
    ensures after.run.observed >= w.run.observed + 3
  {
    var survey := SurveyOf(env, w);
    SurveyProcess(env, w);
    SurveyObserves(env, w);
    FollowsKeepsHistory(env, w, survey.world.run);
    if survey.ok {
      var ts :| AnalyzedAndCleaned(env, survey.world, survey.dirs, ts, after, ok);
      AnalyzedAndCleanedKeeps(env, survey.world, survey.dirs, ts, after, ok);
    }
  }

  lemma {:induction false} AnalyzedAndCleanedKeeps(env: Env, w: World, dirs: seq<CacheDirInfo>,
      ts: seq<MaintenanceTarget>, after: World, ok: bool)
    requires HistoryInv(env, w) && AnalyzedAndCleaned(env, w, dirs, ts, after, ok)
    ensures HistoryInv(env, after) && Later(w.run, after.run)
  {
    var v := AfterAnalysis(env, w, dirs);
    AnalysisKeepsHistoryInv(env, w, dirs);
    forall t | t in ts ensures Allowed(v.run.log, t.cacheDir) { assert t in multiset(ts); }
    TargetsKeepHistory(env, v, ts);
    TargetsProcess(env, v, ts);
  }

  // ----- Whole histories

  /** The wall clock of a log: it never runs backwards, and has moved on between a clean and the next analysis. */
  ghost predicate ClockMovesOn(log: seq<Event>) {
    forall i, j :: 0 <= i < j < |log| ==>
      && (log[i].Cleaned? && log[j].Cleaned? ==> log[i].at <= log[j].at)
      && (log[i].Cleaned? && log[j].Analyzed? ==> log[i].at < log[j].now)
      && (log[i].Analyzed? && log[j].Cleaned? ==> log[i].now <= log[j].at)
  }

  /** The ticks between two maintenances only observe. */
  function Wait(env: Env, r: Run, ticks: nat): Run {
    if ticks == 0 then r else Observe(env, Wait(env, r, ticks - 1)).1
  }

  /** One maintenance of a lifetime, after some waiting; meanwhile the device's files may change in any way. */
  datatype Stage = Stage(ticks: nat, from: World, to: World, ok: bool)

  function EndOf(start: World, stages: seq<Stage>): World {
    if stages == [] then start else stages[|stages| - 1].to
  }

  ghost predicate Lifetime(env: Env, start: World, stages: seq<Stage>) {
    if stages == [] then start.run == Run(0, 0, 0, 0, 0, []) && KeysMatch(start.store)
    else
      var earlier, last := stages[..|stages| - 1], stages[|stages| - 1];
      && Lifetime(env, start, earlier)
      && last.from.store == EndOf(start, earlier).store
      && last.from.run == Wait(env, EndOf(start, earlier).run, last.ticks)
      && Maintained(env, last.from, last.to, last.ok)
  }

  /** What the device logged over a lifetime. */
  ghost predicate LifetimeLog(env: Env, start: World, stages: seq<Stage>, log: seq<Event>) {
    Lifetime(env, start, stages) && log == EndOf(start, stages).run.log
  }

  lemma {:induction false} WaitKeepsHistory(env: Env, w: World, ticks: nat)
    requires HistoryInv(env, w)
    ensures HistoryInv(env, w.(run := Wait(env, w.run, ticks)))
  {
    if ticks != 0 {
      WaitKeepsHistory(env, w, ticks - 1);
      var r := Wait(env, w.run, ticks - 1);
      ObserveProcess(env, r);
      FollowsKeepsHistory(env, w.(run := r), Observe(env, r).1);
    }
  }

  lemma {:induction false} LifetimeKeepsHistory(env: Env, start: World, stages: seq<Stage>)
    requires Lifetime(env, start, stages)
    ensures HistoryInv(env, EndOf(start, stages))
  {
    if stages != [] {
      var earlier, last := stages[..|stages| - 1], stages[|stages| - 1];
      LifetimeKeepsHistory(env, start, earlier);
      WaitKeepsHistory(env, EndOf(start, earlier), last.ticks);
      assert HistoryInv(env, last.from);
      MaintenanceKeepsHistory(env, last.from, last.to, last.ok);
    }
  }

  lemma {:induction false} HistoryOfPrefix(log: seq<Event>, n: nat)
    requires HistoryOk(log) && n <= |log|
    ensures HistoryOk(log[..n])
    decreases |log|
  {
    if n == |log| {
      assert log[..n] == log;
    } else {
      HistoryOfPrefix(log[..|log| - 1], n);
      assert log[..|log| - 1][..n] == log[..n];
    }
  }

  lemma {:induction false} AnalysisIndex(log: seq<Event>) returns (a: nat)
    requires LastAnalysis(log).Some?
    ensures a < |log| && log[a] == LastAnalysis(log).value
    ensures forall i :: a < i < |log| ==> !log[i].Analyzed?
  {
    if log[|log| - 1].Analyzed? { a := |log| - 1; } else { a := AnalysisIndex(log[..|log| - 1]); }
  }

  lemma {:induction false} CleanIndex(log: seq<Event>, hash: u32, i: nat) returns (k: nat)
    requires i < |log| && log[i].Cleaned? && Fnv1a.Hash(log[i].pkg) == hash
    ensures i <= k < |log| && log[k].Cleaned? && LastClean(log, hash) == Some(log[k].at)
  {
    var e := log[|log| - 1];
    if e.Cleaned? && Fnv1a.Hash(e.pkg) == hash {
      k := |log| - 1;
    } else {
      k := CleanIndex(log[..|log| - 1], hash, i);
    }
  }

  lemma {:induction false} CleanAfterAnalysis(log: seq<Event>, j: nat) returns (a: nat)
    requires HistoryOk(log) && j < |log| && log[j].Cleaned?
    ensures a < j && log[a].Analyzed? && (forall i :: a < i < j ==> !log[i].Analyzed?)
    ensures !CoolingDown(Get(log[a].before, log[j].pkg), log[a].now)
    ensures Remembers(log[..a], log[a].before)
  {
    HistoryOfPrefix(log, j + 1);
    assert log[..j + 1][..j] == log[..j];
    a := AnalysisIndex(log[..j]);
    HistoryOfPrefix(log, a + 1);
    assert log[..a + 1][..a] == log[..a];
  }

  /** Entries i and j of the log clean packages with the same hash, with an analysis between them. */
  ghost predicate CleansApart(log: seq<Event>, i: nat, between: nat, j: nat) {
    && i < between < j < |log|
    && log[i].Cleaned? && log[between].Analyzed? && log[j].Cleaned?
    && Fnv1a.Hash(log[i].pkg) == Fnv1a.Hash(log[j].pkg)
  }

  /**
   * Entry a of the log is an analysis between the two cleans, and either six hours passed
   * between them or the record that analysis started from showed 500 MiB a day or more.
   */
  ghost predicate SpacedBy(log: seq<Event>, i: nat, a: nat, j: nat) {
    && i < a < j < |log|
    && log[i].Cleaned? && log[a].Analyzed? && log[j].Cleaned?
    && (log[j].at - log[i].at >= 21_600_000 || Get(log[a].before, log[j].pkg).growthRateBytesPerDay >= 524_288_000)
  }

  /** A log in which every clean was allowed by its analysis spaces the cleans under one hash. */
  lemma {:induction false} CooldownInLog(log: seq<Event>, i: nat, between: nat, j: nat) returns (a: nat)
    requires HistoryOk(log) && ClockMovesOn(log)
    requires CleansApart(log, i, between, j)
    ensures SpacedBy(log, i, a, j)
  {
    a := CleanAfterAnalysis(log, j);
    var k := CleanIndex(log[..a], Fnv1a.Hash(log[j].pkg), i);
    assert log[k] == log[..a][k];
    assert Get(log[a].before, log[j].pkg).lastCleanupMs == log[k].at;
    assert log[i].at <= log[k].at < log[a].now <= log[j].at;
  }

  /**
   * The cooldown, over every lifetime of the daemon: two cleans of packages with the same
   * hash, with an analysis between them, are at least six hours apart unless the record
   * the later maintenance started from showed a growth of 500 MiB a day or more.
   */
  lemma {:induction false} CooldownOverLifetimes(env: Env, start: World, stages: seq<Stage>, log: seq<Event>, i: nat,
      between: nat, j: nat) returns (a: nat)
    requires LifetimeLog(env, start, stages, log)
    requires ClockMovesOn(log) && CleansApart(log, i, between, j)
    ensures SpacedBy(log, i, a, j)
  {
    LifetimeKeepsHistory(env, start, stages);
    a := CooldownInLog(log, i, between, j);
  }

  /**
   * The budget is spent for good: over every lifetime, once the total at a batch end
   * exceeds it no later batch end lets cleaning go on, and the daemon stays over budget.
   */
  lemma {:induction false} BudgetSpentForLife(env: Env, start: World, stages: seq<Stage>, log: seq<Event>, i: nat)
    requires LifetimeLog(env, start, stages, log)
    requires i < |log| && log[i].BatchEnded? && log[i].total > Budget(env.config)
    ensures forall j :: i <= j < |log| && log[j].BatchEnded? ==> !log[j].goOn
    ensures OverBudget(env, EndOf(start, stages).run)
  {
    LifetimeKeepsHistory(env, start, stages);
    forall j | i <= j < |log| && log[j].BatchEnded? ensures !log[j].goOn {
      if i < j { BudgetLatches(env, EndOf(start, stages).run, i, j); }
    }
  }

  // ----- Cleans of different maintenances have an analysis between them

  lemma {:induction false} WaitOnlyObserves(env: Env, r: Run, ticks: nat)
    ensures r.log <= Wait(env, r, ticks).log
    ensures forall k :: |r.log| <= k < |Wait(env, r, ticks).log| ==> Wait(env, r, ticks).log[k].Observed?
  {
    if ticks != 0 { WaitOnlyObserves(env, r, ticks - 1); }
  }

  /** A maintenance cleans nothing before its analysis. */
  lemma {:induction false} CleanNeedsAnalysis(env: Env, w: World, after: World, ok: bool, j: nat) returns (a: nat)
    requires HistoryInv(env, w) && Maintained(env, w, after, ok)
    requires |w.run.log| <= j < |after.run.log| && after.run.log[j].Cleaned?
    ensures |w.run.log| <= a < j && after.run.log[a].Analyzed?
  {
    var survey := SurveyOf(env, w);
    SurveyProcess(env, w);
    a := |survey.world.run.log|;
    if survey.ok {
      var ts :| AnalyzedAndCleaned(env, survey.world, survey.dirs, ts, after, ok);
      var v := AfterAnalysis(env, survey.world, survey.dirs);
      LoggedProcess(env, survey.world.run, Analyzed(env.wall(survey.world.clocked), survey.world.store));
      TargetsProcess(env, v, ts);
      assert after.run.log[a] == v.run.log[a];
      assert forall k :: 0 <= k < a ==> after.run.log[k] == v.run.log[k] == survey.world.run.log[k];
    }
  }

  /** The last stage of a lifetime: what was logged before it, then observations, then the maintenance. */
  lemma {:induction false} LastStage(env: Env, start: World, stages: seq<Stage>)
    requires Lifetime(env, start, stages) && stages != []
    ensures var before, last := EndOf(start, stages[..|stages| - 1]).run.log, stages[|stages| - 1];
      && HistoryInv(env, last.from)
      && before <= last.from.run.log <= last.to.run.log
      && forall k :: |before| <= k < |last.from.run.log| ==> last.to.run.log[k].Observed?
  {
    var earlier, last := stages[..|stages| - 1], stages[|stages| - 1];
    LifetimeKeepsHistory(env, start, earlier);
    WaitKeepsHistory(env, EndOf(start, earlier), last.ticks);
    WaitOnlyObserves(env, EndOf(start, earlier).run, last.ticks);
    MaintenanceKeepsHistory(env, last.from, last.to, last.ok);
  }

  /** The log of a lifetime only grows. */
  lemma {:induction false} LogGrows(env: Env, start: World, stages: seq<Stage>, m: nat)
    requires Lifetime(env, start, stages) && m <= |stages|
    ensures EndOf(start, stages[..m]).run.log <= EndOf(start, stages).run.log
  {
    if m == |stages| {
      assert stages[..m] == stages;
    } else {
      var earlier := stages[..|stages| - 1];
      LogGrows(env, start, earlier, m);
      assert earlier[..m] == stages[..m];
      LastStage(env, start, stages);
    }
  }

  /** Entry `i` of the log is a clean of one of the first `m` maintenances, entry `j` one of a later maintenance. */
  ghost predicate CleanedAcross(start: World, stages: seq<Stage>, m: nat, log: seq<Event>, i: nat, j: nat)
    requires m <= |stages|
  {
    i < |EndOf(start, stages[..m]).run.log| <= j < |log| && log[i].Cleaned? && log[j].Cleaned?
  }

  lemma {:induction false} AnalysisBetween(env: Env, start: World, stages: seq<Stage>, m: nat, i: nat, j: nat)
      returns (between: nat)
    requires Lifetime(env, start, stages) && m <= |stages|
    requires CleanedAcross(start, stages, m, EndOf(start, stages).run.log, i, j)
    ensures i < between < j && EndOf(start, stages).run.log[between].Analyzed?
  {
    assert stages[..|stages|] == stages;
    var earlier, last := stages[..|stages| - 1], stages[|stages| - 1];
    var before := EndOf(start, earlier).run.log;
    assert earlier[..m] == stages[..m];
    LogGrows(env, start, earlier, m);
    LastStage(env, start, stages);
    if j < |before| {
      between := AnalysisBetween(env, start, earlier, m, i, j);
    } else {
      between := CleanNeedsAnalysis(env, last.from, last.to, last.ok, j);
    }
  }

  /**
   * The cooldown between maintenances: in every lifetime, cleans under one hash in different
   * maintenances are at least six hours apart, unless the record an analysis between them
   * started from showed a growth of 500 MiB a day or more.
   */
  lemma {:induction false} CooldownAcrossMaintenances(env: Env, start: World, stages: seq<Stage>, m: nat,
      log: seq<Event>, i: nat, j: nat) returns (a: nat)
    requires LifetimeLog(env, start, stages, log) && ClockMovesOn(log)
    requires m <= |stages| && CleanedAcross(start, stages, m, log, i, j)
    requires Fnv1a.Hash(log[i].pkg) == Fnv1a.Hash(log[j].pkg)
    ensures SpacedBy(log, i, a, j)
  {
    var between := AnalysisBetween(env, start, stages, m, i, j);
    a := CooldownOverLifetimes(env, start, stages, log, i, between, j);
  }

  // ----- The clean count counts cleans

  /** The cleans of packages with this hash in the log. */
  function Cleans(log: seq<Event>, hash: u32): nat {
    if log == [] then 0
    else
      var e := log[|log| - 1];
      Cleans(log[..|log| - 1], hash) + if e.Cleaned? && Fnv1a.Hash(e.pkg) == hash then 1 else 0
  }

  /** The clean count of every record went up by the cleans logged since, modulo 2^32. */
  ghost predicate CountsUp(w: World, after: World) {
    forall hash :: Lookup(after.store, hash).cleanupCount ==
      AsU32(Lookup(w.store, hash).cleanupCount + Cleans(after.run.log, hash) - Cleans(w.run.log, hash))
  }

  lemma {:induction false} CleansAppend(log: seq<Event>, e: Event, hash: u32)
    ensures Cleans(log + [e], hash) == Cleans(log, hash) + if e.Cleaned? && Fnv1a.Hash(e.pkg) == hash then 1 else 0
  {
    assert (log + [e])[..|log|] == log;
  }

  lemma {:induction false} CleansPlain(log: seq<Event>, later: seq<Event>, hash: u32)
    requires log <= later && forall i :: |log| <= i < |later| ==> Plain(later[i])
    ensures Cleans(later, hash) == Cleans(log, hash)
    decreases |later|
  {
    if |later| == |log| {
      assert later == log;
    } else {
      CleansPlain(log, later[..|later| - 1], hash);
    }
  }

  lemma {:induction false} AddWords(a: u32, x: int, y: int)
    ensures AsU32(AsU32(a + x) + y) == AsU32(a + x + y)
    ensures AsU32(a) == a
  {
  }

  lemma {:induction false} CountsChain(w: World, v: World, after: World)
    requires CountsUp(w, v) && CountsUp(v, after)
    ensures CountsUp(w, after)
  {
    forall hash ensures Lookup(after.store, hash).cleanupCount ==
        AsU32(Lookup(w.store, hash).cleanupCount + Cleans(after.run.log, hash) - Cleans(w.run.log, hash))
    {
      AddWords(Lookup(w.store, hash).cleanupCount, Cleans(v.run.log, hash) - Cleans(w.run.log, hash),
        Cleans(after.run.log, hash) - Cleans(v.run.log, hash));
    }
  }

  lemma {:induction false} PlainCounts(w: World, after: World)
    requires Follows(w.run, after.run) && after.store == w.store
    ensures CountsUp(w, after)
  {
    forall hash ensures Lookup(after.store, hash).cleanupCount ==
        AsU32(Lookup(w.store, hash).cleanupCount + Cleans(after.run.log, hash) - Cleans(w.run.log, hash))
    {
      CleansPlain(w.run.log, after.run.log, hash);
      AddWords(Lookup(w.store, hash).cleanupCount, 0, 0);
    }
  }

  lemma {:induction false} RecordCounts(env: Env, w: World, pkgName: string)
    ensures CountsUp(w, Recorded(env, w, pkgName))
  {
    var after := Recorded(env, w, pkgName);
    forall hash ensures Lookup(after.store, hash).cleanupCount ==
        AsU32(Lookup(w.store, hash).cleanupCount + Cleans(after.run.log, hash) - Cleans(w.run.log, hash))
    {
      CleansAppend(w.run.log, Cleaned(pkgName, env.wall(w.clocked)), hash);
      AddWords(Lookup(w.store, hash).cleanupCount, 0, 0);
    }
  }

  lemma {:induction false} DirectoryCounts(env: Env, w: World, d: CacheDirInfo)
    requires ProcessInv(env, w.run)
    ensures CountsUp(w, CleanDirectory(env, w, d).0)
  {
    var n := At(w.root, d.path);
    if !Listable(n) {
      PlainCounts(w, w);
    } else {
      var pass := RemoveChildren(env, d.path, n.value.entries, w.run);
      var v := w.(root := Put(w.root, d.path, Some(n.value.(entries := pass.left))), run := pass.run);
      ChildrenProcess(env, d.path, n.value.entries, w.run);
      PlainCounts(w, v);
      if pass.ok {
        RecordCounts(env, v, d.pkgName);
        CountsChain(w, v, Recorded(env, v, d.pkgName));
      }
    }
  }

  lemma {:induction false} TargetsCount(env: Env, w: World, ts: seq<MaintenanceTarget>)
    requires ProcessInv(env, w.run)
    ensures CountsUp(w, CleanTargets(env, w, ts).world)
    decreases |ts|
  {
    PlainCounts(w, w);
    if ts != [] {
      var (idle, run) := Observe(env, w.run);
      var v := w.(run := run);
      ObserveProcess(env, w.run);
      PlainCounts(w, v);
      if !idle.NotIdle? {
        var (after, ok) := CleanDirectory(env, v, ts[0].cacheDir);
        DirectoryProcess(env, v, ts[0].cacheDir);
        DirectoryCounts(env, v, ts[0].cacheDir);
        CountsChain(w, v, after);
        if ok {
          TargetsCount(env, after, ts[1..]);
          CountsChain(w, after, CleanTargets(env, after, ts[1..]).world);
        }
      }
    }
  }

  lemma {:induction false} AnalysisCounts(env: Env, w: World, dirs: seq<CacheDirInfo>)
    ensures CountsUp(w, AfterAnalysis(env, w, dirs))
  {
    var c, after := ScanOf(env, w, dirs), AfterAnalysis(env, w, dirs);
    forall hash ensures Lookup(after.store, hash).cleanupCount ==
        AsU32(Lookup(w.store, hash).cleanupCount + Cleans(after.run.log, hash) - Cleans(w.run.log, hash))
    {
      CleansAppend(w.run.log, Analyzed(c.now, c.store), hash);
      AnalysisKeepsHistory(c, hash);
      AddWords(Lookup(w.store, hash).cleanupCount, 0, 0);
    }
  }

  /** Over every maintenance, aborted or not, each record's clean count rises by exactly the cleans of its packages. */
  lemma {:induction false} MaintenanceCountsCleans(env: Env, w: World, after: World, ok: bool)
    requires HistoryInv(env, w) && Maintained(env, w, after, ok)
    ensures CountsUp(w, after)
  {
    var survey := SurveyOf(env, w);
    SurveyProcess(env, w);
    PlainCounts(w, survey.world);
    if survey.ok {
      var ts :| AnalyzedAndCleaned(env, survey.world, survey.dirs, ts, after, ok);
      var v := AfterAnalysis(env, survey.world, survey.dirs);
      AnalysisCounts(env, survey.world, survey.dirs);
      CountsChain(w, survey.world, v);
      LoggedProcess(env, survey.world.run, Analyzed(env.wall(survey.world.clocked), survey.world.store));
      TargetsCount(env, v, ts);
      CountsChain(w, v, after);
    }
  }
}

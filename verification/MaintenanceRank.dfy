/**
 * Whole maintenances respect rank: what a scan yields are separate directories when the
 * packages are, so the targets a maintenance did not get to are exactly as they were.
 */
module MaintenanceRank {
  import opened Basics
  import opened FileTree
  import opened Phone
  import opened Cleaning
  import opened CleaningShape
  import opened CacheAnalysis
  import opened CacheAnalyzer
  import opened PathPolicy
  import opened Maintenance
  import opened MaintenanceRuns
  import opened MaintenanceTargets
  import opened CleaningHistory

  // ----- The paths of a package's candidates

  /** Splitting a path and something that starts at a slash. */
  lemma {:induction false} UntilAppend(s: string, t: string)
    requires t != "" && t[0] == '/'
    ensures Until(s + t) == Until(s)
  {
    if s == "" {
      assert s + t == t;
    } else {
      assert (s + t)[0] == s[0] && (s + t)[1..] == s[1..] + t;
      if s[0] != '/' { UntilAppend(s[1..], t); }
    }
  }

  lemma {:induction false} SplitAppend(s: string, t: string)
    requires t != "" && t[0] == '/'
    ensures Split(s + t) == Split(s) + Split(t)
    decreases |s|
  {
    if s == "" {
      assert s + t == t;
    } else if s[0] == '/' {
      assert (s + t)[0] == '/' && (s + t)[1..] == s[1..] + t;
      SplitAppend(s[1..], t);
    } else {
      var n := Until(s);
      UntilAppend(s, t);
      assert n > 0 && (s + t)[0] == s[0];
      assert (s + t)[..n] == s[..n] && (s + t)[n..] == s[n..] + t;
      SplitAppend(s[n..], t);
      Associative([s[..n]], Split(s[n..]), Split(t));
    }
  }

  lemma {:induction false} SplitBelow(s: string, c: string)
    requires IsComponent(c)
    ensures Split(s + (['/'] + c)) == Split(s) + [c]
  {
    SplitAppend(s, ['/'] + c);
    SplitComponent(c, "");
    assert ['/'] + (c + "") == ['/'] + c;
  }

  const EXTERNAL_DIR: string := "/sdcard/Android/data"

  function CandidatePath(pkg: PackageInfo, i: nat): Path
    requires i < 3
  {
    if i == 0 then Split(pkg.dataDir) + ["cache"]
    else if i == 1 then Split(pkg.dataDir) + ["code_cache"]
    else Split(EXTERNAL_DIR) + [pkg.name] + ["cache"]
  }

  lemma {:induction false} CandidateSplit(config: Config, pkg: PackageInfo, i: nat)
    requires IsComponent(pkg.name) && i < |Candidates(config, pkg)|
    ensures Split(Candidates(config, pkg)[i]) == CandidatePath(pkg, i)
  {
    if i == 0 {
      assert "/cache" == ['/'] + "cache";
      SplitBelow(pkg.dataDir, "cache");
    } else if i == 1 {
      assert "/code_cache" == ['/'] + "code_cache";
      SplitBelow(pkg.dataDir, "code_cache");
    } else {
      var dir := EXTERNAL_DIR + (['/'] + pkg.name);
      assert "/cache" == ['/'] + "cache";
      assert EXTERNAL + pkg.name + "/cache" == dir + (['/'] + "cache");
      SplitBelow(EXTERNAL_DIR, pkg.name);
      SplitBelow(dir, "cache");
    }
  }

  // ----- Separate packages have separate caches

  lemma {:induction false} FirstDifference(p: Path, q: Path) returns (k: nat)
    requires Incomparable(p, q)
    ensures k < |p| && k < |q| && p[k] != q[k]
  {
    if p[0] != q[0] {
      k := 0;
    } else {
      assert p == [p[0]] + p[1..] && q == [q[0]] + q[1..];
      k := FirstDifference(p[1..], q[1..]);
      k := k + 1;
    }
  }

  lemma {:induction false} ApartBelow(p: Path, q: Path, u: Path, v: Path)
    requires Incomparable(p, q)
    ensures Incomparable(p + u, q + v)
  {
    var k := FirstDifference(p, q);
    assert (p + u)[k] == p[k] && (q + v)[k] == q[k];
  }

  lemma {:induction false} SiblingsApart(p: Path, c: string, d: string)
    requires c != d
    ensures Incomparable(p + [c], p + [d])
  {
    assert (p + [c])[|p|] == c && (p + [d])[|p|] == d;
  }

  /** The package's data directory lies beside the external one. */
  ghost predicate WellPlaced(p: PackageInfo) {
    IsComponent(p.name) && Incomparable(Split(p.dataDir), Split(EXTERNAL_DIR))
  }

  /** Two packages with different names and data directories, neither inside the other. */
  ghost predicate Unrelated(p: PackageInfo, q: PackageInfo) {
    p.name != q.name && Incomparable(Split(p.dataDir), Split(q.dataDir))
  }

  ghost predicate Orderly(packages: seq<PackageInfo>) {
    && (forall i :: 0 <= i < |packages| ==> WellPlaced(packages[i]))
    && forall i, j :: 0 <= i < j < |packages| ==> Unrelated(packages[i], packages[j])
  }

  /** The part of a candidate's path below the data directory or the external one. */
  function Below(pkg: PackageInfo, i: nat): Path
    requires i < 3
  {
    if i == 0 then ["cache"] else if i == 1 then ["code_cache"] else [pkg.name] + ["cache"]
  }

  function Base(pkg: PackageInfo, i: nat): Path {
    if i < 2 then Split(pkg.dataDir) else Split(EXTERNAL_DIR)
  }

  lemma {:induction false} CandidateParts(pkg: PackageInfo, i: nat)
    requires i < 3
    ensures CandidatePath(pkg, i) == Base(pkg, i) + Below(pkg, i)
  {
    if i == 2 { Associative(Split(EXTERNAL_DIR), [pkg.name], ["cache"]); }
  }

  lemma {:induction false} SameBaseApart(base: Path, p: PackageInfo, q: PackageInfo, i: nat, j: nat)
    requires i < 3 && j < 3
    requires (p.name != q.name && i == j == 2) || (i < j < 2) || (j < i < 2)
    ensures Incomparable(base + Below(p, i), base + Below(q, j))
  {
    if i == 2 {
      SiblingsApart(base, p.name, q.name);
      ApartBelow(base + [p.name], base + [q.name], ["cache"], ["cache"]);
      Associative(base, [p.name], ["cache"]);
      Associative(base, [q.name], ["cache"]);
    } else {
      SiblingsApart(base, "cache", "code_cache");
    }
  }

  lemma {:induction false} CandidatesApart(p: PackageInfo, q: PackageInfo, i: nat, j: nat)
    requires WellPlaced(p) && WellPlaced(q) && i < 3 && j < 3
    requires Unrelated(p, q) || (p == q && i != j)
    ensures Incomparable(CandidatePath(p, i), CandidatePath(q, j))
  {
    CandidateParts(p, i);
    CandidateParts(q, j);
    if i == j == 2 || (p == q && i < 2 && j < 2) {
      SameBaseApart(Base(p, i), p, q, i, j);
    } else {
      ApartBelow(Base(p, i), Base(q, j), Below(p, i), Below(q, j));
    }
  }

  // ----- A scan yields separate directories

  ghost predicate SeparateDirs(ds: seq<CacheDirInfo>) {
    forall i, j :: 0 <= i < j < |ds| ==> Incomparable(ds[i].path, ds[j].path)
  }

  ghost predicate OfPackage(d: CacheDirInfo, pkg: PackageInfo, n: nat) {
    exists i :: 0 <= i < n && i < 3 && d.path == CandidatePath(pkg, i)
  }

  lemma {:induction false} SeparateConcat(a: seq<CacheDirInfo>, b: seq<CacheDirInfo>)
    requires SeparateDirs(a) && SeparateDirs(b)
    requires forall d, e :: d in a && e in b ==> Incomparable(d.path, e.path)
    ensures SeparateDirs(a + b)
  {
  }

  /** A directory found at candidate `n` is apart from those found at earlier ones. */
  lemma {:induction false} OneMoreSeparate(ds: seq<CacheDirInfo>, d: CacheDirInfo, pkg: PackageInfo, n: nat)
    requires WellPlaced(pkg) && n < 3 && d.path == CandidatePath(pkg, n)
    requires SeparateDirs(ds) && forall e :: e in ds ==> OfPackage(e, pkg, n)
    ensures SeparateDirs(ds + [d]) && OfPackage(d, pkg, n + 1)
  {
    forall e, f | e in ds && f in [d] ensures Incomparable(e.path, f.path) {
      var i :| 0 <= i < n && i < 3 && e.path == CandidatePath(pkg, i);
      CandidatesApart(pkg, pkg, i, n);
    }
    SeparateConcat(ds, [d]);
  }

  lemma {:induction false} OfPackageMore(d: CacheDirInfo, pkg: PackageInfo, n: nat)
    requires OfPackage(d, pkg, n)
    ensures OfPackage(d, pkg, n + 1)
  {
  }

  lemma {:induction false} AcceptedSeparate(env: Env, root: Option<Node>, pkg: PackageInfo, n: nat)
    requires WellPlaced(pkg) && n <= |Candidates(env.config, pkg)|
    ensures var ds := AcceptedOf(env, root, Candidates(env.config, pkg)[..n], pkg);
      SeparateDirs(ds) && forall d :: d in ds ==> OfPackage(d, pkg, n)
  {
    if n > 0 {
      var cands := Candidates(env.config, pkg);
      var before, now := AcceptedOf(env, root, cands[..n - 1], pkg), AcceptedOf(env, root, cands[..n], pkg);
      var last := Unmeasured(cands[n - 1], pkg);
      AcceptedSeparate(env, root, pkg, n - 1);
      CandidateSplit(env.config, pkg, n - 1);
      OneMoreSeparate(before, last, pkg, n - 1);
      assert now == before || now == before + [last] by { assert cands[..n][..n - 1] == cands[..n - 1]; }
      forall d | d in before ensures OfPackage(d, pkg, n) { OfPackageMore(d, pkg, n - 1); }
    }
  }

  lemma {:induction false} PackageSeparate(env: Env, root: Option<Node>, pkg: PackageInfo)
    requires WellPlaced(pkg)
    ensures var ds := CacheDirsOf(env, root, pkg);
      SeparateDirs(ds) && forall d :: d in ds ==> OfPackage(d, pkg, 3)
  {
    var cands := Candidates(env.config, pkg);
    AcceptedSeparate(env, root, pkg, |cands|);
    assert cands[..|cands|] == cands;
  }

  lemma {:induction false} ScanSeparate(env: Env, root: Option<Node>, packages: seq<PackageInfo>, screened: nat)
    requires Orderly(packages)
    ensures var ds := ScanPackages(env, root, packages, screened).dirs;
      SeparateDirs(ds) && forall d :: d in ds ==> exists p :: p in packages && OfPackage(d, p, 3)
  {
    if packages != [] && !env.screen(screened) {
      var p, others := packages[0], packages[1..];
      var ds, rest := CacheDirsOf(env, root, p), ScanPackages(env, root, others, screened + 1).dirs;
      PackageSeparate(env, root, p);
      ScanSeparate(env, root, others, screened + 1);
      forall d, e | d in ds && e in rest ensures Incomparable(d.path, e.path) {
        var q :| q in others && OfPackage(e, q, 3);
        var i :| 0 <= i < 3 && d.path == CandidatePath(p, i);
        var j :| 0 <= j < 3 && e.path == CandidatePath(q, j);
        CandidatesApart(p, q, i, j);
      }
      SeparateConcat(ds, rest);
      forall d | d in ds + rest ensures exists q :: q in packages && OfPackage(d, q, 3) {
        if d in ds {
          assert p in packages && OfPackage(d, p, 3);
        } else {
          var q :| q in others && OfPackage(d, q, 3);
          assert q in packages;
        }
      }
    }
  }

  // ----- So do the analysis and the ranking

  lemma {:induction false} SelectedSeparate(c: Scan)
    requires SeparateDirs(c.dirs)
    ensures Separate(Selected(c, |c.dirs|))
  {
    var n := |c.dirs|;
    forall i, j | 0 <= i < j < |Selected(c, n)|
      ensures Incomparable(Selected(c, n)[i].cacheDir.path, Selected(c, n)[j].cacheDir.path)
    {
      SelectionIsExact(c, n, i);
      SelectionIsExact(c, n, j);
      assert Positions(c, n)[i] < Positions(c, n)[j];
    }
  }

  lemma {:induction false} OnlyOnce(ts: seq<MaintenanceTarget>, t: MaintenanceTarget)
    requires Separate(ts)
    ensures multiset(ts)[t] <= 1
  {
    if ts != [] {
      var n := |ts| - 1;
      assert ts == ts[..n] + [ts[n]];
      OnlyOnce(ts[..n], t);
      if ts[n] == t {
        assert t !in ts[..n];
        assert multiset(ts[..n])[t] == 0;
      }
    }
  }

  lemma {:induction false} TwiceCounted(ts: seq<MaintenanceTarget>, i: nat, j: nat)
    requires i < j < |ts| && ts[i] == ts[j]
    ensures multiset(ts)[ts[i]] >= 2
  {
    assert ts == ts[..j] + [ts[j]] + ts[j + 1..];
    assert ts[i] in ts[..j];
  }

  lemma {:induction false} RankedSeparate(found: seq<MaintenanceTarget>, ts: seq<MaintenanceTarget>)
    requires Separate(found) && multiset(ts) == multiset(found)
    ensures Separate(ts)
  {
    forall i, j | 0 <= i < j < |ts| ensures Incomparable(ts[i].cacheDir.path, ts[j].cacheDir.path) {
      if ts[i] == ts[j] {
        TwiceCounted(ts, i, j);
        OnlyOnce(found, ts[i]);
        assert false;
      }
      assert ts[i] in multiset(found) && ts[j] in multiset(found);
      var k :| 0 <= k < |found| && found[k] == ts[i];
      var l :| 0 <= l < |found| && found[l] == ts[j];
      assert k != l;
    }
  }

  // ----- The tree stays well formed up to the analysis

  lemma {:induction false} SweptWellFormed(env: Env, path: Path, es: seq<Entry>, r: Run)
    requires WellFormedList(es)
    ensures var left := SweepChildren(env, path, es, r).left; WellFormedList(left) && NamesWithin(left, es)
  {
    if es != [] {
      var e, rest := es[0], es[1..];
      var (left, run) := SweepEntry(env, path, e, r);
      RemovalWellFormed(env, path + [e.name], e.node, r);
      OthersDiffer(es);
      SweptWellFormed(env, path, rest, run);
      ConsWellFormed(e.name, left, SweepChildren(env, path, rest, run).left, rest);
    }
  }

  lemma {:induction false} SweepAllWellFormed(env: Env, paths: seq<Path>, w: World)
    requires WellFormedRoot(w.root)
    ensures WellFormedRoot(SweepAll(env, paths, w).root)
    decreases |paths|
  {
    if paths != [] {
      var (idle, run) := Observe(env, w.run);
      if !idle.NotIdle? {
        var n := At(w.root, paths[0]);
        if Listable(n) {
          AtWellFormed(w.root, paths[0]);
          SweptWellFormed(env, paths[0], n.value.entries, run);
          PutWellFormed(w.root, paths[0],
              Some(n.value.(entries := SweepChildren(env, paths[0], n.value.entries, run).left)));
        }
        SweepAllWellFormed(env, paths[1..], Sweep(env, paths[0], w.(run := run)));
      }
    }
  }

  // ----- The whole maintenance

  /** What the target loop of a maintenance with these ranked targets did to every one of them. */
  ghost predicate RespectsRank(before: World, p: Progress, ts: seq<MaintenanceTarget>)
    requires p.begun <= |ts|
  {
    && (forall k :: 0 <= k < |ts| ==> RightlyLeft(before, p, ts, k))
    && (forall i, j :: 0 <= i < j < |ts| ==> ts[i].priority >= ts[j].priority)
  }

  /** Processed targets hold exactly their residue, and those not begun on are as they were. */
  ghost predicate ExactlyProcessed(before: World, p: Progress, ts: seq<MaintenanceTarget>) {
    && (forall k :: 0 <= k < |ts| && k < p.done ==>
          Processed(At(before.root, ts[k].cacheDir.path), At(p.world.root, ts[k].cacheDir.path)))
    && (forall k :: p.begun <= k < |ts| ==>
          At(p.world.root, ts[k].cacheDir.path) == At(before.root, ts[k].cacheDir.path))
  }

  /**
   * Every maintenance, completed or cut short, processed a prefix of its ranked targets and
   * left nothing removable in them; it completed exactly when it processed all. If the
   * packages are unrelated to one another, processed targets hold exactly their residue and
   * all that it had not begun on are as they were.
   */
  lemma {:induction false} MaintenanceRespectsRank(env: Env, w: World, after: World, ok: bool)
      returns (ts: seq<MaintenanceTarget>)
    requires HistoryInv(env, w) && WellFormedRoot(w.root)
    requires Maintained(env, w, after, ok) && SurveyOf(env, w).ok
    ensures var survey := SurveyOf(env, w);
      var before := AfterAnalysis(env, survey.world, survey.dirs);
      var p := CleanTargets(env, before, ts);
      && AnalyzedAndCleaned(env, survey.world, survey.dirs, ts, after, ok)
      && RespectsRank(before, p, ts) && (ok <==> p.done == |ts|)
      && (Orderly(env.installed(w.listed)) ==> ExactlyProcessed(before, p, ts))
  {
    var survey := SurveyOf(env, w);
    var before, c := AfterAnalysis(env, survey.world, survey.dirs), ScanOf(env, survey.world, survey.dirs);
    ts :| AnalyzedAndCleaned(env, survey.world, survey.dirs, ts, after, ok);
    AnalysisReached(env, w);
    LoopRespectsRank(env, before, Analyze(c, |survey.dirs|).targets, ts);
    if Orderly(env.installed(w.listed)) {
      SurveySeparate(env, w);
      AnalysisSeparate(c, ts);
      LoopProcessesExactly(before, CleanTargets(env, before, ts), ts);
    }
  }

  /** The world in which the target loop starts. */
  lemma {:induction false} AnalysisReached(env: Env, w: World)
    requires HistoryInv(env, w) && WellFormedRoot(w.root) && SurveyOf(env, w).ok
    ensures var survey := SurveyOf(env, w);
      var before := AfterAnalysis(env, survey.world, survey.dirs);
      ProcessInv(env, before.run) && WellFormedRoot(before.root)
  {
    var survey := SurveyOf(env, w);
    SurveyWellFormed(env, w);
    SurveyProcess(env, w);
    LoggedProcess(env, survey.world.run, Analyzed(env.wall(survey.world.clocked), survey.world.store));
  }

  lemma {:induction false} SurveyWellFormed(env: Env, w: World)
    requires WellFormedRoot(w.root)
    ensures WellFormedRoot(SurveyOf(env, w).world.root)
  {
    SweepAllWellFormed(env, SWEPT, w.(run := Observe(env, Observe(env, w.run).1).1));
  }

  lemma {:induction false} SurveySeparate(env: Env, w: World)
    requires ProcessInv(env, w.run) && SurveyOf(env, w).ok && Orderly(env.installed(w.listed))
    ensures SeparateDirs(SurveyOf(env, w).dirs)
  {
    SweepsKeepLists(env, w);
    SurveyScans(env, w);
    ScanSeparate(env, Sweeps(env, w).root, env.installed(w.listed), w.screened + 1);
  }

  lemma {:induction false} SurveyScans(env: Env, w: World)
    requires Sweeps(env, w).listed == w.listed && Sweeps(env, w).screened == w.screened && SurveyOf(env, w).ok
    ensures SurveyOf(env, w).dirs ==
        ScanPackages(env, Sweeps(env, w).root, env.installed(w.listed), w.screened + 1).dirs
  {
  }

  lemma {:induction false} SweepsKeepLists(env: Env, w: World)
    requires ProcessInv(env, w.run)
    ensures Sweeps(env, w).listed == w.listed && Sweeps(env, w).screened == w.screened
  {
    var r1 := Observe(env, w.run).1;
    ObserveProcess(env, w.run);
    ObserveProcess(env, r1);
    SweepAllProcess(env, SWEPT, w.(run := Observe(env, r1).1));
  }

  lemma {:induction false} AnalysisSeparate(c: Scan, ts: seq<MaintenanceTarget>)
    requires SeparateDirs(c.dirs) && Ranked(Analyze(c, |c.dirs|).targets, ts)
    ensures Separate(ts)
  {
    AnalysisIsClosedForm(c, |c.dirs|);
    SelectedSeparate(c);
    RankedSeparate(Analyze(c, |c.dirs|).targets, ts);
  }

  lemma {:induction false} LoopRespectsRank(env: Env, w: World, found: seq<MaintenanceTarget>,
      ts: seq<MaintenanceTarget>)
    requires ProcessInv(env, w.run) && WellFormedRoot(w.root) && Ranked(found, ts)
    ensures RespectsRank(w, CleanTargets(env, w, ts), ts)
  {
    var p := CleanTargets(env, w, ts);
    forall k | 0 <= k < |ts| ensures RightlyLeft(w, p, ts, k) { TargetOutcome(env, w, ts, k); }
  }

  lemma {:induction false} SeparateIsClear(ts: seq<MaintenanceTarget>, n: nat, k: nat)
    requires Separate(ts) && n <= |ts| && k < |ts|
    ensures ClearOfOthers(ts, n, k)
    ensures n <= k ==> ClearOf(ts, n, ts[k].cacheDir.path)
  {
  }

  lemma {:induction false} LoopProcessesExactly(before: World, p: Progress, ts: seq<MaintenanceTarget>)
    requires Separate(ts) && p.begun <= |ts| && RespectsRank(before, p, ts)
    ensures ExactlyProcessed(before, p, ts)
  {
    forall k | 0 <= k < |ts|
      ensures k < p.done ==> Processed(At(before.root, ts[k].cacheDir.path), At(p.world.root, ts[k].cacheDir.path))
      ensures k >= p.begun ==> At(p.world.root, ts[k].cacheDir.path) == At(before.root, ts[k].cacheDir.path)
    {
      SeparateIsClear(ts, p.begun, k);
      assert RightlyLeft(before, p, ts, k);
    }
  }
}

/** Verdicts on whole stages of a maintenance: the three sweeps, the scan and the target loop. */
module MaintenanceWhole {
  import opened Basics
  import opened FileTree
  import opened StateStorage
  import opened Phone
  import opened Cleaning
  import opened CleaningRuns
  import opened CleaningConservation
  import opened CleaningResidue
  import opened CleaningShape
  import opened CleaningVerdict
  import opened CacheAnalysis
  import opened Maintenance
  import opened MaintenanceRuns
  import opened MaintenanceTargets
  import opened MaintenanceVerdict
  import opened CleaningHistory
  import opened MaintenanceRank

  // ----- The sweeps of all directories

  ghost predicate Scattered(paths: seq<Path>) {
    forall i, j :: 0 <= i < j < |paths| ==> Incomparable(paths[i], paths[j])
  }

  lemma {:induction false} ScatteredRest(paths: seq<Path>)
    requires Scattered(paths) && paths != []
    ensures Scattered(paths[1..])
    ensures forall k :: 0 < k < |paths| ==> Incomparable(paths[0], paths[k])
  {
  }

  /** The bytes that `GetDirectorySize` would report for all of them. */
  function SweptSize(root: Option<Node>, paths: seq<Path>): nat {
    if paths == [] then 0 else DirectorySize(At(root, paths[0])) + SweptSize(root, paths[1..])
  }

  /** The same lies at each of the paths in both trees. */
  ghost predicate SameAt(root: Option<Node>, other: Option<Node>, paths: seq<Path>) {
    forall k :: 0 <= k < |paths| ==> At(root, paths[k]) == At(other, paths[k])
  }

  lemma {:induction false} SameAtRest(root: Option<Node>, other: Option<Node>, paths: seq<Path>)
    requires SameAt(root, other, paths) && paths != []
    ensures SameAt(root, other, paths[1..])
  {
  }

  lemma {:induction false} SameSweptSize(root: Option<Node>, other: Option<Node>, paths: seq<Path>)
    requires SameAt(root, other, paths)
    ensures SweptSize(root, paths) == SweptSize(other, paths)
  {
    if paths != [] {
      SameAtRest(root, other, paths);
      SameSweptSize(root, other, paths[1..]);
    }
  }

  lemma {:induction false} SweepBytes(env: Env, path: Path, es: seq<Entry>, r: Run)
    ensures SweepChildren(env, path, es, r).run.bytes <= r.bytes + SizeOf(es)
  {
    if es != [] {
      Conservation(env, path + [es[0].name], es[0].node, r);
      SweepBytes(env, path, es[1..], SweepEntry(env, path, es[0], r).1);
    }
  }

  /** One sweep: what it keeps, and that it changes nothing elsewhere. */
  lemma {:induction false} OneSweep(env: Env, path: Path, w: World)
    requires ProcessInv(env, w.run) && WellFormedRoot(w.root)
    ensures var after := Sweep(env, path, w);
      && ProcessInv(env, after.run) && WellFormedRoot(after.root)
      && w.run.observed <= after.run.observed && after.run.bytes <= w.run.bytes + DirectorySize(At(w.root, path))
  {
    var n := At(w.root, path);
    if Listable(n) {
      AtWellFormed(w.root, path);
      SweepProcess(env, path, n.value.entries, w.run);
      SweepBytes(env, path, n.value.entries, w.run);
      SweptWellFormed(env, path, n.value.entries, w.run);
      PutWellFormed(w.root, path, Some(n.value.(entries := SweepChildren(env, path, n.value.entries, w.run).left)));
    }
  }

  lemma {:induction false} SweepElsewhere(env: Env, path: Path, w: World, q: Path)
    requires WellFormedRoot(w.root) && Incomparable(path, q)
    ensures At(Sweep(env, path, w).root, q) == At(w.root, q)
  {
    var n := At(w.root, path);
    if Listable(n) {
      PutElsewhere(w.root, path, Some(n.value.(entries := SweepChildren(env, path, n.value.entries, w.run).left)), q);
    }
  }

  /** The sweeps leave every path alone that is not above, below or at one of theirs. */
  lemma {:induction false} SweepAllElsewhere(env: Env, paths: seq<Path>, w: World, q: Path)
    requires ProcessInv(env, w.run) && WellFormedRoot(w.root)
    requires forall k :: 0 <= k < |paths| ==> Incomparable(paths[k], q)
    ensures At(SweepAll(env, paths, w).root, q) == At(w.root, q)
    decreases |paths|
  {
    if paths != [] {
      var (idle, run) := Observe(env, w.run);
      ObserveProcess(env, w.run);
      if !idle.NotIdle? {
        OneSweep(env, paths[0], w.(run := run));
        SweepElsewhere(env, paths[0], w.(run := run), q);
        SweepAllElsewhere(env, paths[1..], Sweep(env, paths[0], w.(run := run)), q);
      }
    }
  }

  /** No directory below the swept one fills a batch. */
  ghost predicate SweptSlim(env: Env, n: Option<Node>) {
    Listable(n) ==> SlimAll(n.value.entries, env.config.maxFilesPerBatch)
  }

  ghost predicate Unstopped(env: Env, paths: seq<Path>, w: World) {
    (forall k :: 0 <= k < |paths| ==> SweptSlim(env, At(w.root, paths[k]))) ||
        Room(env, w.run, SweptSize(w.root, paths))
  }

  /** `entry` is a listable, unprotected directory tree directly inside the listable directory `n`. */
  ghost predicate SweepableIn(n: Option<Node>, i: nat) {
    Listable(n) && i < |n.value.entries| && Sweepable(n.value.entries[i])
  }

  /** With the screen off, a sweep leaves each of its directory trees with its residue. */
  lemma {:induction false} SweptInPlace(env: Env, path: Path, w: World, i: nat)
    requires ProcessInv(env, w.run) && WellFormedRoot(w.root) && Always(env, w.run.observed, false)
    requires SweptSlim(env, At(w.root, path)) || Room(env, w.run, DirectorySize(At(w.root, path)))
    requires SweepableIn(At(w.root, path), i)
    ensures var e := At(w.root, path).value.entries[i];
      At(Sweep(env, path, w).root, path + [e.name]) == Residue(e.node)
  {
    var n := At(w.root, path).value;
    var left := SweepChildren(env, path, n.entries, w.run).left;
    AtWellFormed(w.root, path);
    SweepOff(env, path, n.entries, w.run, i);
    AtPut(w.root, path, Some(n.(entries := left)));
    AtAppend(Sweep(env, path, w).root, path, [n.entries[i].name]);
    AtChild(n.(entries := left), n.entries[i].name);
  }

  lemma {:induction false} AtChild(d: Node, name: string)
    requires d.Dir?
    ensures At(Some(d), [name]) == Find(d.entries, name)
  {
    assert [name][1..] == [];
  }

  lemma {:induction false} OthersElsewhere(env: Env, paths: seq<Path>, w: World, name: string)
    requires ProcessInv(env, w.run) && WellFormedRoot(w.root) && Scattered(paths) && paths != []
    ensures At(SweepAll(env, paths[1..], w).root, paths[0] + [name]) == At(w.root, paths[0] + [name])
  {
    var others := paths[1..];
    ScatteredRest(paths);
    forall k | 0 <= k < |others| ensures Incomparable(others[k], paths[0] + [name]) {
      FartherApart(paths[0], paths[k + 1], [name]);
    }
    SweepAllElsewhere(env, others, w, paths[0] + [name]);
  }

  lemma {:induction false} FirstSwept(env: Env, paths: seq<Path>, w: World, i: nat)
    requires ProcessInv(env, w.run) && WellFormedRoot(w.root) && Scattered(paths) && paths != []
    requires Always(env, w.run.observed, false) && Unstopped(env, paths, w)
    requires SweepableIn(At(w.root, paths[0]), i)
    ensures var e := At(w.root, paths[0]).value.entries[i];
      At(SweepAll(env, paths, w).root, paths[0] + [e.name]) == Residue(e.node)
  {
    var v := w.(run := Observe(env, w.run).1);
    ObserveProcess(env, w.run);
    SweptInPlace(env, paths[0], v, i);
    OneSweep(env, paths[0], v);
    SweepAllStep(env, paths, w);
    OthersElsewhere(env, paths, FirstSweep(env, paths, w), At(w.root, paths[0]).value.entries[i].name);
  }

  lemma {:induction false} FartherApart(p: Path, q: Path, u: Path)
    requires Incomparable(p, q)
    ensures Incomparable(q, p + u)
  {
    ApartBelow(q, p, [], u);
    assert q + [] == q;
  }

  /** The world behind the sweep of the first directory. */
  function FirstSweep(env: Env, paths: seq<Path>, w: World): World
    requires paths != []
  {
    Sweep(env, paths[0], w.(run := Observe(env, w.run).1))
  }

  lemma {:induction false} SweepAllStep(env: Env, paths: seq<Path>, w: World)
    requires paths != [] && !env.obs(w.run.observed).screenOn
    ensures SweepAll(env, paths, w) == SweepAll(env, paths[1..], FirstSweep(env, paths, w))
  {
  }

  lemma {:induction false} FirstSweepElsewhere(env: Env, paths: seq<Path>, w: World)
    requires WellFormedRoot(w.root) && Scattered(paths) && paths != []
    ensures SameAt(w.root, FirstSweep(env, paths, w).root, paths[1..])
  {
    var others, after := paths[1..], FirstSweep(env, paths, w);
    ScatteredRest(paths);
    forall k | 0 <= k < |others| ensures At(w.root, others[k]) == At(after.root, others[k]) {
      SweepElsewhere(env, paths[0], w.(run := Observe(env, w.run).1), paths[k + 1]);
    }
  }

  lemma {:induction false} LaterPath(env: Env, paths: seq<Path>, w: World, k: nat)
    requires WellFormedRoot(w.root) && Scattered(paths) && 0 < k < |paths|
    ensures paths[1..][k - 1] == paths[k] && At(FirstSweep(env, paths, w).root, paths[k]) == At(w.root, paths[k])
  {
    FirstSweepElsewhere(env, paths, w);
    assert paths[1..][k - 1] == paths[k];
  }

  /** What the sweep of the first directory means for the sweeps of the others. */
  lemma {:induction false} SweptRest(env: Env, paths: seq<Path>, w: World)
    requires ProcessInv(env, w.run) && WellFormedRoot(w.root) && Scattered(paths) && paths != []
    requires Always(env, w.run.observed, false) && Unstopped(env, paths, w)
    ensures var after := FirstSweep(env, paths, w);
      && ProcessInv(env, after.run) && WellFormedRoot(after.root)
      && Always(env, after.run.observed, false) && Unstopped(env, paths[1..], after)
  {
    ObserveProcess(env, w.run);
    OneSweep(env, paths[0], w.(run := Observe(env, w.run).1));
    FirstSweepElsewhere(env, paths, w);
    SameSweptSize(w.root, FirstSweep(env, paths, w).root, paths[1..]);
    UnstoppedRest(env, paths, w, FirstSweep(env, paths, w));
  }

  lemma {:induction false} UnstoppedRest(env: Env, paths: seq<Path>, w: World, after: World)
    requires paths != [] && Unstopped(env, paths, w)
    requires after.run.bytes <= w.run.bytes + DirectorySize(At(w.root, paths[0]))
    requires SweptSize(w.root, paths[1..]) == SweptSize(after.root, paths[1..])
    requires SameAt(w.root, after.root, paths[1..])
    ensures Unstopped(env, paths[1..], after)
  {
    if !Room(env, w.run, SweptSize(w.root, paths)) {
      forall k | 0 <= k < |paths[1..]| ensures SweptSlim(env, At(after.root, paths[1..][k])) {
        assert SweptSlim(env, At(w.root, paths[k + 1]));
      }
    }
  }

  /**
   * From any of the swept directories on, with the screen off and the budget not in the way,
   * each unprotected listable directory tree in each of them is left with exactly its residue.
   */
  lemma {:induction false} SweepAllGoesOn(env: Env, paths: seq<Path>, w: World, k: nat, i: nat)
    requires ProcessInv(env, w.run) && WellFormedRoot(w.root) && Scattered(paths)
    requires Always(env, w.run.observed, false) && Unstopped(env, paths, w)
    requires k < |paths| && SweepableIn(At(w.root, paths[k]), i)
    ensures var e := At(w.root, paths[k]).value.entries[i];
      At(SweepAll(env, paths, w).root, paths[k] + [e.name]) == Residue(e.node)
    decreases |paths|
  {
    if k == 0 {
      FirstSwept(env, paths, w, i);
    } else {
      SweptRest(env, paths, w);
      ScatteredRest(paths);
      SweepAllStep(env, paths, w);
      LaterPath(env, paths, w, k);
      SweepAllGoesOn(env, paths[1..], FirstSweep(env, paths, w), k - 1, i);
    }
  }

  /** Before each swept directory the screen is looked at, and if it is on all the sweeps still to come are dropped. */
  lemma {:induction false} SweepsEnd(env: Env, paths: seq<Path>, w: World)
    requires env.obs(w.run.observed).screenOn
    ensures SweepAll(env, paths, w).root == w.root
  {
  }

  lemma {:induction false} SweptScattered()
    ensures Scattered(SWEPT)
  {
    assert SWEPT[0][1] != SWEPT[1][1] && SWEPT[0][1] != SWEPT[2][1] && SWEPT[1][1] != SWEPT[2][1];
  }

  /** The three swept directories. */
  predicate IsSwept(path: Path) {
    path == ["data", "tombstones"] || path == ["data", "system", "dropbox"] || path == ["data", "local", "tmp"]
  }

  lemma {:induction false} SweptIndex(path: Path) returns (k: nat)
    requires IsSwept(path)
    ensures k < |SWEPT| && SWEPT[k] == path
  {
    k := if path == ["data", "tombstones"] then 0 else if path == ["data", "system", "dropbox"] then 1 else 2;
  }

  /** The same for all of `RunSystemMaintenanceSweeps`. */
  lemma {:induction false} SweepsRemoveAll(env: Env, w: World, path: Path, i: nat)
    requires ProcessInv(env, w.run) && WellFormedRoot(w.root)
    requires Always(env, w.run.observed, false) && Unstopped(env, SWEPT, w)
    requires IsSwept(path) && SweepableIn(At(w.root, path), i)
    ensures var e := At(w.root, path).value.entries[i];
      At(Sweeps(env, w).root, path + [e.name]) == Residue(e.node)
  {
    var k := SweptIndex(path);
    var r1 := Observe(env, w.run).1;
    ObserveProcess(env, w.run);
    ObserveProcess(env, r1);
    SweptScattered();
    SweepAllGoesOn(env, SWEPT, w.(run := Observe(env, r1).1), k, i);
  }

  /** The sweeps touch nothing that is not above, below or at one of the three directories. */
  lemma {:induction false} SweepsElsewhere(env: Env, w: World, q: Path)
    requires ProcessInv(env, w.run) && WellFormedRoot(w.root)
    requires forall path :: IsSwept(path) ==> Incomparable(path, q)
    ensures At(Sweeps(env, w).root, q) == At(w.root, q)
  {
    var r1 := Observe(env, w.run).1;
    ObserveProcess(env, w.run);
    ObserveProcess(env, r1);
    forall k | 0 <= k < |SWEPT| ensures Incomparable(SWEPT[k], q) { assert IsSwept(SWEPT[k]); }
    SweepAllElsewhere(env, SWEPT, w.(run := Observe(env, r1).1), q);
  }

  /** The world behind the trims, and behind the sweep of one more directory that is looked at with the screen off. */
  function Trimmed(env: Env, w: World): World { w.(run := Observe(env, Observe(env, w.run).1).1) }

  function SweptNext(env: Env, path: Path, w: World): World { Sweep(env, path, w.(run := Observe(env, w.run).1)) }

  /** The order of the sweeps: whichever look sees the screen on, only the directories before it were swept. */
  lemma {:induction false} SweepsInOrder(env: Env, w: World)
    ensures var trimmed := Trimmed(env, w);
      var reports := SweptNext(env, ["data", "tombstones"], trimmed);
      var drops := SweptNext(env, ["data", "system", "dropbox"], reports);
      var temps := SweptNext(env, ["data", "local", "tmp"], drops);
      Sweeps(env, w).root ==
        if env.obs(trimmed.run.observed).screenOn then w.root
        else if env.obs(reports.run.observed).screenOn then reports.root
        else if env.obs(drops.run.observed).screenOn then drops.root
        else temps.root
  {
    var trimmed := Trimmed(env, w);
    var one, two := SWEPT[1..], SWEPT[2..];
    assert one[0] == SWEPT[1] && one[1..] == two && two[0] == SWEPT[2] && two[1..] == [];
    var reports := SweptNext(env, SWEPT[0], trimmed);
    var drops := SweptNext(env, SWEPT[1], reports);
    SweepAllTurn(env, SWEPT, trimmed);
    SweepAllTurn(env, one, reports);
    SweepAllTurn(env, two, drops);
  }

  lemma {:induction false} SweepAllTurn(env: Env, paths: seq<Path>, w: World)
    requires paths != []
    ensures SweepAll(env, paths, w).root ==
      if env.obs(w.run.observed).screenOn then w.root else SweepAll(env, paths[1..], SweptNext(env, paths[0], w)).root
    ensures SweepAll(env, paths, w).run.observed ==
      if env.obs(w.run.observed).screenOn then w.run.observed + 1
      else SweepAll(env, paths[1..], SweptNext(env, paths[0], w)).run.observed
  {
  }

  /**
   * With nothing to sweep and the screen off, the sweeps look exactly five times; with it on at the
   * third look, three times.
   */
  lemma {:induction false} SweepsLook(env: Env, w: World)
    requires forall path :: IsSwept(path) ==> !Listable(At(w.root, path))
    ensures env.obs(w.run.observed + 2).screenOn ==> Sweeps(env, w).run.observed == w.run.observed + 3
    ensures Always(env, w.run.observed, false) ==> Sweeps(env, w).run.observed == w.run.observed + 5
  {
    var trimmed := Trimmed(env, w);
    var one, two := SWEPT[1..], SWEPT[2..];
    assert one[0] == SWEPT[1] && one[1..] == two && two[0] == SWEPT[2] && two[1..] == [];
    assert IsSwept(SWEPT[0]) && IsSwept(SWEPT[1]) && IsSwept(SWEPT[2]);
    var reports := SweptNext(env, SWEPT[0], trimmed);
    var drops := SweptNext(env, SWEPT[1], reports);
    SweepAllTurn(env, SWEPT, trimmed);
    SweepAllTurn(env, one, reports);
    SweepAllTurn(env, two, drops);
  }

  // ----- What is protected

  ghost predicate OccursAt(s: string, part: string, i: nat) { i + |part| <= |s| && s[i..i + |part|] == part }

  lemma {:induction false} OccursLater(s: string, part: string, i: nat)
    requires s != ""
    ensures OccursAt(s[1..], part, i) <==> OccursAt(s, part, i + 1)
  {
    if i + 1 + |part| <= |s| { assert s[1..][i..i + |part|] == s[i + 1..i + 1 + |part|]; }
  }

  lemma {:induction false} ContainsExactly(s: string, part: string)
    ensures Contains(s, part) <==> exists i: nat :: OccursAt(s, part, i)
  {
    assert OccursAt(s, part, 0) <==> part <= s;
    if s != "" {
      var rest := s[1..];
      ContainsExactly(rest, part);
      if Contains(rest, part) {
        var i: nat :| OccursAt(rest, part, i);
        OccursLater(s, part, i);
      }
      if i: nat :| OccursAt(s, part, i) && i > 0 {
        OccursLater(s, part, i - 1);
      }
    }
  }

  /** Sweeps spare exactly the entries with the log's name somewhere in their own. */
  lemma {:induction false} ProtectedExactlyWhen(name: string)
    ensures Protected(name) <==> exists i: nat :: OccursAt(name, "freshcore.log", i)
  {
    ContainsExactly(name, "freshcore.log");
  }

  // ----- The scan

  lemma {:induction false} ScanCompletes(env: Env, root: Option<Node>, packages: seq<PackageInfo>, screened: nat)
    ensures ScanPackages(env, root, packages, screened).ok <==>
      forall i :: screened <= i < screened + |packages| ==> !env.screen(i)
  {
    if packages != [] { ScanCompletes(env, root, packages[1..], screened + 1); }
  }

  /**
   * A maintenance gets to the analysis exactly when the screen is off at one direct check
   * after the sweeps and one for each package. What the idle observations of the sweeps saw
   * does not matter, so the continuous idleness before a maintenance does not extend to its
   * target loop.
   */
  lemma {:induction false} SurveyCompletesExactlyWhen(env: Env, w: World)
    requires ProcessInv(env, w.run)
    ensures SurveyOf(env, w).ok <==>
      forall i :: w.screened <= i <= w.screened + |env.installed(w.listed)| ==> !env.screen(i)
  {
    SweepsKeepLists(env, w);
    ScanCompletes(env, Sweeps(env, w).root, env.installed(w.listed), w.screened + 1);
    SurveyScreens(env, w);
  }

  lemma {:induction false} SurveyScreens(env: Env, w: World)
    requires Sweeps(env, w).listed == w.listed && Sweeps(env, w).screened == w.screened
    ensures SurveyOf(env, w).ok <==>
      !env.screen(w.screened) && ScanPackages(env, Sweeps(env, w).root, env.installed(w.listed), w.screened + 1).ok
  {
  }

  // ----- The target loop

  /** The observations of a complete clean of what is at a target. */
  function TargetVisits(n: Option<Node>): nat { if Listable(n) then VisitsIn(n.value.entries) else 0 }

  /** Nothing but listable directory trees, or not listable at all. */
  ghost predicate TargetCleanable(n: Option<Node>) { Listable(n) ==> AllTraversable(n.value.entries) }

  /** The observations of a complete loop: one before each target, and those of cleaning it. */
  function LoopVisits(root: Option<Node>, ts: seq<MaintenanceTarget>): nat {
    if ts == [] then 0 else 1 + TargetVisits(At(root, ts[0].cacheDir.path)) + LoopVisits(root, ts[1..])
  }

  function LoopSize(root: Option<Node>, ts: seq<MaintenanceTarget>): nat {
    if ts == [] then 0 else DirectorySize(At(root, ts[0].cacheDir.path)) + LoopSize(root, ts[1..])
  }

  ghost predicate LoopCleanable(root: Option<Node>, ts: seq<MaintenanceTarget>) {
    ts == [] || (TargetCleanable(At(root, ts[0].cacheDir.path)) && LoopCleanable(root, ts[1..]))
  }

  /** One list of targets in two trees that agree at all of them. */
  lemma {:induction false} SameLoop(root: Option<Node>, other: Option<Node>, ts: seq<MaintenanceTarget>)
    requires forall k :: 0 <= k < |ts| ==> At(root, ts[k].cacheDir.path) == At(other, ts[k].cacheDir.path)
    ensures LoopVisits(root, ts) == LoopVisits(other, ts) && LoopSize(root, ts) == LoopSize(other, ts)
    ensures LoopCleanable(root, ts) <==> LoopCleanable(other, ts)
  {
    if ts != [] {
      var rest := ts[1..];
      forall k | 0 <= k < |rest| ensures At(root, rest[k].cacheDir.path) == At(other, rest[k].cacheDir.path) {
        assert rest[k] == ts[k + 1];
      }
      SameLoop(root, other, rest);
    }
  }

  /** What one clean with room does to the counters, and when it succeeds. */
  lemma {:induction false} DirectoryVerdict(env: Env, w: World, d: CacheDirInfo)
    requires Room(env, w.run, DirectorySize(At(w.root, d.path)))
    ensures var (after, ok) := CleanDirectory(env, w, d);
      var n := At(w.root, d.path);
      && (ok <==> TargetCleanable(n) && Dark(env, w.run.observed, TargetVisits(n)))
      && (ok ==> after.run.observed == w.run.observed + TargetVisits(n))
      && (ok ==> after.run.bytes <= w.run.bytes + DirectorySize(n))
  {
    if Listable(At(w.root, d.path)) { ChildrenVerdict(env, d.path, At(w.root, d.path).value.entries, w.run); }
  }

  lemma {:induction false} SeparateRest(ts: seq<MaintenanceTarget>)
    requires Separate(ts) && ts != []
    ensures Separate(ts[1..])
    ensures forall k :: 0 <= k < |ts[1..]| ==> Incomparable(ts[0].cacheDir.path, ts[1..][k].cacheDir.path)
  {
  }

  /** A first turn leaves the targets of the rest of the loop as they are. */
  lemma {:induction false} FirstTurnElsewhere(env: Env, w: World, ts: seq<MaintenanceTarget>)
    requires WellFormedRoot(w.root) && Separate(ts) && ts != []
    ensures var after := FirstTurn(env, w, ts);
      && LoopVisits(after.root, ts[1..]) == LoopVisits(w.root, ts[1..])
      && LoopSize(after.root, ts[1..]) == LoopSize(w.root, ts[1..])
      && (LoopCleanable(after.root, ts[1..]) <==> LoopCleanable(w.root, ts[1..]))
  {
    var rest, after := ts[1..], FirstTurn(env, w, ts);
    SeparateRest(ts);
    forall k | 0 <= k < |rest| ensures At(after.root, rest[k].cacheDir.path) == At(w.root, rest[k].cacheDir.path) {
      DirectoryElsewhere(env, w.(run := Observe(env, w.run).1), ts[0].cacheDir, rest[k].cacheDir.path);
    }
    SameLoop(after.root, w.root, rest);
  }

  /** The verdict on a loop, from that on its first turn and that on its rest. */
  lemma {:induction false} LoopUnfolds(env: Env, w: World, ts: seq<MaintenanceTarget>)
    requires ts != []
    ensures CleanTargets(env, w, ts).ok <==>
      && !env.obs(w.run.observed).screenOn
      && CleanDirectory(env, w.(run := Observe(env, w.run).1), ts[0].cacheDir).1
      && CleanTargets(env, FirstTurn(env, w, ts), ts[1..]).ok
  {
  }

  /**
   * With room in the budget for all of its targets, none of which lies in another, the loop
   * completes exactly when every target can be cleaned and the screen stays off for one
   * observation per target and one per node below the children of each.
   */
  lemma {:induction false} LoopWithRoomExactlyWhen(env: Env, w: World, ts: seq<MaintenanceTarget>)
    requires WellFormedRoot(w.root) && Separate(ts) && Room(env, w.run, LoopSize(w.root, ts))
    ensures CleanTargets(env, w, ts).ok <==>
      LoopCleanable(w.root, ts) && Dark(env, w.run.observed, LoopVisits(w.root, ts))
    decreases |ts|
  {
    if ts != [] {
      var v := w.(run := Observe(env, w.run).1);
      var visits, rest := TargetVisits(At(w.root, ts[0].cacheDir.path)), LoopVisits(w.root, ts[1..]);
      LoopUnfolds(env, w, ts);
      DirectoryVerdict(env, v, ts[0].cacheDir);
      DirectoryWellFormed(env, v, ts[0].cacheDir);
      FirstTurnElsewhere(env, w, ts);
      SeparateRest(ts);
      DarkSplits(env, w.run.observed, 1, visits + rest);
      DarkSplits(env, w.run.observed + 1, visits, rest);
      if CleanDirectory(env, v, ts[0].cacheDir).1 {
        LoopWithRoomExactlyWhen(env, FirstTurn(env, w, ts), ts[1..]);
      }
    }
  }

  /**
   * When a maintenance completes, over unrelated packages and with room in the budget for all
   * targets: exactly when the direct screen checks of the scan see the screen off, every
   * target can be cleaned, and the screen stays off from the start of the target loop for as
   * many observations as there are targets and nodes below their children.
   */
  lemma {:induction false} MaintenanceCompletesExactlyWhen(env: Env, w: World, after: World, ok: bool)
      returns (ts: seq<MaintenanceTarget>)
    requires HistoryInv(env, w) && WellFormedRoot(w.root) && Maintained(env, w, after, ok)
    requires Orderly(env.installed(w.listed))
    ensures var survey := SurveyOf(env, w);
      var before := AfterAnalysis(env, survey.world, survey.dirs);
      && (ok ==> survey.ok)
      && (survey.ok ==> AnalyzedAndCleaned(env, survey.world, survey.dirs, ts, after, ok))
      && (survey.ok && Room(env, before.run, LoopSize(before.root, ts)) ==>
            (ok <==> LoopCleanable(before.root, ts) && Dark(env, before.run.observed, LoopVisits(before.root, ts))))
  {
    var survey := SurveyOf(env, w);
    if survey.ok {
      ts :| AnalyzedAndCleaned(env, survey.world, survey.dirs, ts, after, ok);
      var before := AfterAnalysis(env, survey.world, survey.dirs);
      AnalysisReached(env, w);
      SurveySeparate(env, w);
      AnalysisSeparate(ScanOf(env, survey.world, survey.dirs), ts);
      if Room(env, before.run, LoopSize(before.root, ts)) { LoopWithRoomExactlyWhen(env, before, ts); }
    } else {
      ts := [];
    }
  }
}

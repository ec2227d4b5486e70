/**
 * One maintenance as a function of the device: the sweeps, the scan, the analysis and the
 * target loop. `MaintenanceRunner` proves that the methods compute it.
 */
module Maintenance {
  import opened Basics
  import opened FileTree
  import opened StateImage
  import opened StateStorage
  import opened Phone
  import opened Cleaning
  import opened CacheAnalysis
  import opened CacheAnalyzer
  import opened PathPolicy

  /** Everything a maintenance reads or changes, except the state file. */
  datatype World = World(root: Option<Node>, run: Run, store: Store, clocked: nat, screened: nat, listed: nat)

  // ----- Cleaning one target

  /** The loop of `CleanDirectorySafely`: every child must be removable as a directory. */
  function RemoveChildren(env: Env, path: Path, es: seq<Entry>, r: Run): Pass {
    if es == [] then Pass([], r, true, 0, 0, [])
    else
      var o := RemoveTree(env, path + [es[0].name], es[0].node, r);
      var kept := Kept(es[0].name, o.left);
      if !o.ok then Pass(kept + es[1..], o.run, false, 0, 0, o.lost)
      else Behind(kept, RemoveChildren(env, path, es[1..], o.run))
  }

  function CleanRecord(s: PackageState, now: u64): PackageState {
    s.(lastCleanupMs := now, cleanupCount := AsU32(s.cleanupCount + 1), lastSizeBytes := 0)
  }

  /** A completed clean is entered into the log and the store. */
  function Recorded(env: Env, w: World, pkgName: string): World {
    var now := env.wall(w.clocked);
    w.(run := Logged(w.run, Cleaned(pkgName, now)),
       store := Update(w.store, pkgName, CleanRecord(Get(w.store, pkgName), now)),
       clocked := w.clocked + 1)
  }

  function CleanDirectory(env: Env, w: World, d: CacheDirInfo): (World, bool) {
    var n := At(w.root, d.path);
    if !Listable(n) then (w, true)
    else
      var pass := RemoveChildren(env, d.path, n.value.entries, w.run);
      var root := Put(w.root, d.path, Some(n.value.(entries := pass.left)));
      if !pass.ok then (w.(root := root, run := pass.run), false)
      else (Recorded(env, w.(root := root, run := pass.run), d.pkgName), true)
  }

  /** Before the loop ended it had begun to clean the first `begun` targets, and was done with the first `done`. */
  datatype Progress = Progress(world: World, done: nat, begun: nat, ok: bool)

  function CleanTargets(env: Env, w: World, ts: seq<MaintenanceTarget>): (p: Progress)
    decreases |ts|
    ensures p.done <= p.begun <= |ts| && p.begun <= p.done + 1 && (p.ok <==> p.done == |ts|)
  {
    if ts == [] then Progress(w, 0, 0, true)
    else
      var (idle, run) := Observe(env, w.run);
      if idle.NotIdle? then Progress(w.(run := run), 0, 0, false)
      else
        var (after, ok) := CleanDirectory(env, w.(run := run), ts[0].cacheDir);
        if !ok then Progress(after, 0, 1, false)
        else var rest := CleanTargets(env, after, ts[1..]); rest.(done := rest.done + 1, begun := rest.begun + 1)
  }

  lemma {:induction false} CleanTurn(env: Env, path: Path, done: seq<Entry>, es: seq<Entry>, i: nat, r: Run)
    requires i < |es|
    ensures var o := RemoveTree(env, path + [es[i].name], es[i].node, r);
      var kept := Kept(es[i].name, o.left);
      Behind(done, RemoveChildren(env, path, es[i..], r)) ==
      if !o.ok then Pass(done + kept + es[i + 1..], o.run, false, 0, 0, o.lost)
      else Behind(done + kept, RemoveChildren(env, path, es[i + 1..], o.run))
  {
    var o := RemoveTree(env, path + [es[i].name], es[i].node, r);
    var kept := Kept(es[i].name, o.left);
    assert es[i..][1..] == es[i + 1..];
    assert done + (kept + es[i + 1..]) == done + kept + es[i + 1..];
    var pass := RemoveChildren(env, path, es[i + 1..], o.run);
    assert done + (kept + pass.left) == (done + kept) + pass.left;
  }

  // ----- The sweeps

  predicate Contains(s: string, part: string) {
    part <= s || (s != "" && Contains(s[1..], part))
  }

  /** The daemon's own log is kept. */
  predicate Protected(name: string) { Contains(name, "freshcore.log") }

  const SWEPT: seq<Path> := [["data", "tombstones"], ["data", "system", "dropbox"], ["data", "local", "tmp"]]

  /** What a sweep leaves of one entry; how the removal ended does not matter. */
  function SweepEntry(env: Env, path: Path, e: Entry, r: Run): (Option<Node>, Run) {
    if Protected(e.name) then (Some(e.node), r)
    else var o := RemoveTree(env, path + [e.name], e.node, r); (o.left, o.run)
  }

  /** The loop over one swept directory. */
  function SweepChildren(env: Env, path: Path, es: seq<Entry>, r: Run): Pass {
    if es == [] then Pass([], r, true, 0, 0, [])
    else
      var (left, run) := SweepEntry(env, path, es[0], r);
      Behind(Kept(es[0].name, left), SweepChildren(env, path, es[1..], run))
  }

  lemma {:induction false} SweepTurn(env: Env, path: Path, done: seq<Entry>, es: seq<Entry>, i: nat, r: Run)
    requires i < |es|
    ensures var (left, run) := SweepEntry(env, path, es[i], r);
      Behind(done, SweepChildren(env, path, es[i..], r)) ==
      Behind(done + Kept(es[i].name, left), SweepChildren(env, path, es[i + 1..], run))
  {
    var (left, run) := SweepEntry(env, path, es[i], r);
    var kept := Kept(es[i].name, left);
    assert es[i..][1..] == es[i + 1..];
    var pass := SweepChildren(env, path, es[i + 1..], run);
    assert done + (kept + pass.left) == (done + kept) + pass.left;
  }

  function Sweep(env: Env, path: Path, w: World): World {
    var n := At(w.root, path);
    if !Listable(n) then w
    else
      var pass := SweepChildren(env, path, n.value.entries, w.run);
      w.(root := Put(w.root, path, Some(n.value.(entries := pass.left))), run := pass.run)
  }

  function SweepAll(env: Env, paths: seq<Path>, w: World): World {
    if paths == [] then w
    else
      var (idle, run) := Observe(env, w.run);
      if idle.NotIdle? then w.(run := run)
      else SweepAll(env, paths[1..], Sweep(env, paths[0], w.(run := run)))
  }

  /** The two trims only observe; what they trim is not modelled. */
  function Sweeps(env: Env, w: World): World {
    SweepAll(env, SWEPT, w.(run := Observe(env, Observe(env, w.run).1).1))
  }

  // ----- Scanning all packages

  /** The directories found so far, the screen checks made, and whether the screen stayed off. */
  datatype Scanning = Scanning(dirs: seq<CacheDirInfo>, screened: nat, ok: bool)

  function ScanPackages(env: Env, root: Option<Node>, packages: seq<PackageInfo>, screened: nat): Scanning {
    if packages == [] then Scanning([], screened, true)
    else if env.screen(screened) then Scanning([], screened + 1, false)
    else
      var rest := ScanPackages(env, root, packages[1..], screened + 1);
      rest.(dirs := CacheDirsOf(env, root, packages[0]) + rest.dirs)
  }

  // ----- The whole of it

  function ScanOf(env: Env, w: World, dirs: seq<CacheDirInfo>): Scan {
    Scan(env.config, w.root, env.wall(w.clocked), w.store, dirs)
  }

  function AfterAnalysis(env: Env, w: World, dirs: seq<CacheDirInfo>): World {
    var c := ScanOf(env, w, dirs);
    w.(run := Logged(w.run, Analyzed(c.now, c.store)), store := Analyze(c, |dirs|).store, clocked := w.clocked + 1)
  }

  /** Analysis and cleaning, with the targets in some order that ranks them. */
  ghost predicate AnalyzedAndCleaned(env: Env, w: World, dirs: seq<CacheDirInfo>, ts: seq<MaintenanceTarget>,
      after: World, ok: bool) {
    && Ranked(Analyze(ScanOf(env, w, dirs), |dirs|).targets, ts)
    && var p := CleanTargets(env, AfterAnalysis(env, w, dirs), ts); after == p.world && ok == p.ok
  }

  /** Where the sweeps and the scan lead: the world, the directories found, and whether the screen stayed off. */
  datatype Survey = Survey(world: World, dirs: seq<CacheDirInfo>, ok: bool)

  function SurveyOf(env: Env, w: World): Survey {
    var swept := Sweeps(env, w);
    var checked := swept.(screened := swept.screened + 1);
    if env.screen(swept.screened) then Survey(checked, [], false)
    else
      var scan := ScanPackages(env, checked.root, env.installed(checked.listed), checked.screened);
      Survey(checked.(screened := scan.screened, listed := checked.listed + 1), scan.dirs, scan.ok)
  }

  /** `PerformMaintenance`, from `w` to `after`; `ok` is false when it ends in ABORTING. */
  ghost predicate Maintained(env: Env, w: World, after: World, ok: bool) {
    var survey := SurveyOf(env, w);
    if !survey.ok then after == survey.world && !ok
    else exists ts :: AnalyzedAndCleaned(env, survey.world, survey.dirs, ts, after, ok)
  }
}

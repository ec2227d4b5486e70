/** The methods of one maintenance, proved against the functions of `Maintenance`. */
module MaintenanceRunner {
  import opened Basics
  import opened FileTree
  import opened StateStorage
  import opened Phone
  import opened Cleaning
  import opened CacheCleaner
  import opened CacheAnalysis
  import opened CacheAnalyzer
  import opened PathPolicy
  import opened Maintenance

  /** In a loop over the entries of `d` at `path` in `t`, those before `i` have become `done`. */
  ghost predicate InLoop(t: Option<Node>, path: Path, d: Node, done: seq<Entry>, i: nat, root: Option<Node>) {
    && WellFormedRoot(t) && At(t, path) == Some(d) && d.Dir? && i <= |d.entries|
    && Distinct(d.entries) && Apart(done, d.entries, i)
    && root == Put(t, path, Some(d.(entries := done + d.entries[i..])))
  }

  lemma {:induction false} LoopMove(t: Option<Node>, path: Path, d: Node, done: seq<Entry>, i: nat, root: Option<Node>,
      n: Option<Node>)
    requires InLoop(t, path, d, done, i, root) && i < |d.entries|
    ensures var e := d.entries[i];
      && At(root, path + [e.name]) == Some(e.node)
      && InLoop(t, path, d, done + Kept(e.name, n), i + 1, Put(root, path + [e.name], n))
  {
    LoopPut(t, path, d, done, d.entries, i, n);
  }

  class Maintainer {
    const device: Device
    const cleaner: Cleaner
    const analyzer: Analyzer
    const store: PackageStore

    constructor (cleaner: Cleaner, analyzer: Analyzer)
      requires cleaner.Wired() && analyzer.device == cleaner.device
      ensures this.cleaner == cleaner && this.analyzer == analyzer && Wired()
    {
      this.device, this.cleaner, this.analyzer, this.store := cleaner.device, cleaner, analyzer, analyzer.store;
    }

    predicate Wired() {
      && cleaner.Wired() && cleaner.device == device
      && analyzer.device == device && analyzer.store == store
    }

    ghost function Current(): World
      reads device, cleaner.idle, cleaner.diagnostics, store, cleaner.device
    {
      World(device.root, cleaner.Now(), store.states, device.clocked, device.screened, device.listed)
    }

    /** The loop of `CleanDirectorySafely` over the children of `d`, which lies at `path`. */
    method CleanChildren(path: Path, children: seq<string>, ghost d: Node) returns (ok: bool)
      requires Wired() && device.Mounted() && At(device.root, path) == Some(d)
      requires d.Dir? && children == Names(d.entries)
      modifies device`root, device`observed, device`limited, device`log, cleaner.idle, cleaner.diagnostics
      ensures var pass := RemoveChildren(device.env, path, d.entries, old(cleaner.Now()));
        && ok == pass.ok && cleaner.Now() == pass.run
        && device.root == Put(old(device.root), path, Some(d.(entries := pass.left)))
      ensures device.Mounted()
    {
      ghost var t, es := device.root, d.entries;
      ghost var whole := RemoveChildren(device.env, path, es, cleaner.Now());
      ghost var done: seq<Entry> := [];
      LoopStart(t, path, d);
      for i := 0 to |children|
        invariant device.Mounted()
        invariant InLoop(t, path, d, done, i, device.root)
        invariant whole == Behind(done, RemoveChildren(device.env, path, es[i..], cleaner.Now()))
      {
        ghost var e := es[i];
        ghost var o := RemoveTree(device.env, path + [e.name], e.node, cleaner.Now());
        CleanTurn(device.env, path, done, es, i, cleaner.Now());
        LoopMove(t, path, d, done, i, device.root, o.left);
        ok := cleaner.RemoveRecursiveBatched(path + [children[i]], Some(e.node));
        if !ok { return; }
        done := done + Kept(e.name, o.left);
      }
      LoopEnd(done, es);
      ok := true;
    }

    method UpdateRecord(pkgName: string, now: u64)
      requires Wired()
      modifies store, store.disk
      ensures store.states == Update(old(store.states), pkgName, CleanRecord(Get(old(store.states), pkgName), now))
      ensures Saved(old(store.disk.now), store.disk.now, store.states, store.disk.chances(old(store.disk.saves)))
      ensures old(store.Trusted()) ==> store.Trusted()
    {
      var state := store.GetPackageState(pkgName);
      state := state.(lastCleanupMs := now);
      state := state.(cleanupCount := AsU32(state.cleanupCount + 1));
      state := state.(lastSizeBytes := 0);
      assert state == CleanRecord(Get(old(store.states), pkgName), now);
      if KeysMatch(store.states) { UpdateKeepsKeysMatch(store.states, pkgName, state); }
      store.UpdatePackageState(pkgName, state);
      var _ := store.SaveStateAtomic();
    }

    /** Enters a completed clean into the store and saves it. */
    method RecordClean(pkgName: string)
      requires Wired()
      modifies device`log, device`clocked, store, store.disk
      ensures Current() == Recorded(device.env, old(Current()), pkgName)
      ensures Saved(old(store.disk.now), store.disk.now, store.states, store.disk.chances(old(store.disk.saves)))
      ensures old(store.Trusted()) ==> store.Trusted()
    {
      var now := device.GetCurrentTimeMs();
      device.log := device.log + [Cleaned(pkgName, now)];
      UpdateRecord(pkgName, now);
    }

    method CleanDirectorySafely(d: CacheDirInfo) returns (ok: bool)
      requires Wired() && device.Mounted()
      modifies device`root, device`observed, device`limited, device`log, device`clocked
      modifies cleaner.idle, cleaner.diagnostics, store, store.disk
      ensures (Current(), ok) == CleanDirectory(device.env, old(Current()), d)
      ensures if ok && Listable(old(At(device.root, d.path)))
        then Saved(old(store.disk.now), store.disk.now, store.states, store.disk.chances(old(store.disk.saves)))
        else store.disk.now == old(store.disk.now)
      ensures old(store.Trusted()) ==> store.Trusted()
      ensures device.Mounted()
    {
      var listed, children := device.GetDirectoryChildren(d.path);
      if !listed { return true; }
      ok := CleanChildren(d.path, children, At(device.root, d.path).value);
      if ok { RecordClean(d.pkgName); }
    }

    /** The target loop; false when it is aborted. */
    method CleanAll(targets: seq<MaintenanceTarget>) returns (ok: bool)
      requires Wired() && device.Mounted()
      modifies device`root, device`observed, device`limited, device`log, device`clocked
      modifies cleaner.idle, cleaner.diagnostics, store, store.disk
      ensures var p := CleanTargets(device.env, old(Current()), targets); ok == p.ok && Current() == p.world
      ensures old(store.Trusted()) ==> store.Trusted()
      ensures device.Mounted()
    {
      for i := 0 to |targets|
        invariant device.Mounted()
        invariant var p, rest := CleanTargets(device.env, old(Current()), targets),
            CleanTargets(device.env, Current(), targets[i..]);
          p.ok == rest.ok && p.world == rest.world
        invariant old(store.Trusted()) ==> store.Trusted()
      {
        assert targets[i..][1..] == targets[i + 1..];
        var verdict := cleaner.Evaluate();
        if verdict.NotIdle? { return false; }
        var cleaned := CleanDirectorySafely(targets[i].cacheDir);
        if !cleaned { return false; }
      }
      return true;
    }

    /** One child of a swept directory: the daemon's own log is skipped, the rest is removed as far as possible. */
    method SweepChild(path: Path, name: string, ghost n: Node)
      requires Wired() && device.Mounted() && At(device.root, path + [name]) == Some(n)
      modifies device`root, device`observed, device`limited, device`log, cleaner.idle, cleaner.diagnostics
      ensures var swept := SweepEntry(device.env, path, Entry(name, n), old(cleaner.Now()));
        device.root == Put(old(device.root), path + [name], swept.0) && cleaner.Now() == swept.1
      ensures device.Mounted()
    {
      PutSame(device.root, path + [name]);
      if !Protected(name) {
        var _ := cleaner.RemoveRecursiveBatched(path + [name], Some(n));
      }
    }

    /** The loop over the children of one swept directory. */
    method SweepOne(path: Path, children: seq<string>, ghost d: Node)
      requires Wired() && device.Mounted() && At(device.root, path) == Some(d)
      requires d.Dir? && children == Names(d.entries)
      modifies device`root, device`observed, device`limited, device`log, cleaner.idle, cleaner.diagnostics
      ensures var pass := SweepChildren(device.env, path, d.entries, old(cleaner.Now()));
        && cleaner.Now() == pass.run
        && device.root == Put(old(device.root), path, Some(d.(entries := pass.left)))
      ensures device.Mounted()
    {
      ghost var t, es := device.root, d.entries;
      ghost var whole := SweepChildren(device.env, path, es, cleaner.Now());
      ghost var done: seq<Entry> := [];
      LoopStart(t, path, d);
      for i := 0 to |children|
        invariant device.Mounted()
        invariant InLoop(t, path, d, done, i, device.root)
        invariant whole == Behind(done, SweepChildren(device.env, path, es[i..], cleaner.Now()))
      {
        ghost var left := SweepEntry(device.env, path, es[i], cleaner.Now()).0;
        SweepTurn(device.env, path, done, es, i, cleaner.Now());
        LoopMove(t, path, d, done, i, device.root, left);
        SweepChild(path, children[i], es[i].node);
        done := done + Kept(es[i].name, left);
      }
      LoopEnd(done, es);
    }

    method RunSystemMaintenanceSweeps()
      requires Wired() && device.Mounted()
      modifies device`root, device`observed, device`limited, device`log, cleaner.idle, cleaner.diagnostics
      ensures Current() == Sweeps(device.env, old(Current()))
      ensures device.Mounted()
    {
      var _ := cleaner.Evaluate();
      var _ := cleaner.Evaluate();
      ghost var w := Current();
      for i := 0 to |SWEPT|
        invariant device.Mounted()
        invariant SweepAll(device.env, SWEPT, w) == SweepAll(device.env, SWEPT[i..], Current())
      {
        assert SWEPT[i..][1..] == SWEPT[i + 1..];
        var verdict := cleaner.Evaluate();
        if verdict.NotIdle? { return; }
        var listed, children := device.GetDirectoryChildren(SWEPT[i]);
        if listed {
          SweepOne(SWEPT[i], children, At(device.root, SWEPT[i]).value);
        }
      }
    }

    /** The loop over the installed packages, with a screen check before each. */
    method ScanAll(packages: seq<PackageInfo>) returns (ok: bool, dirs: seq<CacheDirInfo>)
      modifies device`screened
      ensures var scan := ScanPackages(device.env, device.root, packages, old(device.screened));
        ok == scan.ok && device.screened == scan.screened && (ok ==> dirs == scan.dirs)
    {
      dirs := [];
      for i := 0 to |packages|
        invariant var scan := ScanPackages(device.env, device.root, packages, old(device.screened));
          var rest := ScanPackages(device.env, device.root, packages[i..], device.screened);
          scan.ok == rest.ok && scan.screened == rest.screened && scan.dirs == dirs + rest.dirs
      {
        assert packages[i..][1..] == packages[i + 1..];
        var on := device.IsScreenOn();
        if on { return false, dirs; }
        var found := ScanPackageCache(device, packages[i]);
        ghost var rest := ScanPackages(device.env, device.root, packages[i + 1..], device.screened);
        assert dirs + (found + rest.dirs) == (dirs + found) + rest.dirs;
        dirs := dirs + found;
      }
      return true, dirs;
    }

    /** The scan as the vector that the analyzer updates in place. */
    method Vector(dirs: seq<CacheDirInfo>) returns (list: array<CacheDirInfo>)
      ensures fresh(list) && list[..] == dirs
    {
      list := new CacheDirInfo[|dirs|](i requires 0 <= i < |dirs| => dirs[i]);
    }

    /** Copies the scan into the vector that the analyzer updates in place, and analyzes it. */
    method AnalyzeAll(dirs: seq<CacheDirInfo>) returns (targets: seq<MaintenanceTarget>)
      requires Wired() && device.Mounted()
      modifies store, store.disk, device`clocked, device`log
      ensures Current() == AfterAnalysis(device.env, old(Current()), dirs)
      ensures Ranked(Analyze(ScanOf(device.env, old(Current()), dirs), |dirs|).targets, targets)
      ensures old(store.Trusted()) ==> store.Trusted()
    {
      ghost var c := ScanOf(device.env, Current(), dirs);
      var list := Vector(dirs);
      targets := analyzer.AnalyzeCaches(list, c);
    }

    method AnalyzeAndClean(dirs: seq<CacheDirInfo>) returns (ok: bool)
      requires Wired() && device.Mounted()
      modifies device`root, device`observed, device`limited, device`log, device`clocked
      modifies cleaner.idle, cleaner.diagnostics, store, store.disk
      ensures exists ts :: AnalyzedAndCleaned(device.env, old(Current()), dirs, ts, Current(), ok)
      ensures old(store.Trusted()) ==> store.Trusted()
      ensures device.Mounted()
    {
      var targets := AnalyzeAll(dirs);
      ok := CleanAll(targets);
      assert AnalyzedAndCleaned(device.env, old(Current()), dirs, targets, Current(), ok);
    }

    /** The sweeps, the screen check and the scan of all installed packages. */
    method SweepAndScan() returns (ok: bool, dirs: seq<CacheDirInfo>)
      requires Wired() && device.Mounted()
      modifies device, cleaner.idle, cleaner.diagnostics
      ensures var survey := SurveyOf(device.env, old(Current()));
        Current() == survey.world && ok == survey.ok && (ok ==> dirs == survey.dirs)
      ensures device.Mounted()
    {
      RunSystemMaintenanceSweeps();
      var on := device.IsScreenOn();
      if on { return false, []; }
      var packages := device.GetInstalledPackages();
      ok, dirs := ScanAll(packages);
    }

    /** `PerformMaintenance` up to the transition that ends it. */
    method PerformMaintenance() returns (ok: bool)
      requires Wired() && device.Mounted()
      modifies device, cleaner.idle, cleaner.diagnostics, store, store.disk
      ensures Maintained(device.env, old(Current()), Current(), ok)
      ensures old(store.Trusted()) ==> store.Trusted()
      ensures device.Mounted()
    {
      var dirs;
      ok, dirs := SweepAndScan();
      if ok {
        ok := AnalyzeAndClean(dirs);
      }
    }
  }
}

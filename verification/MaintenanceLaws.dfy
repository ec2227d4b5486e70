/** What a maintenance does to the records of the store, and what its scan finds. */
module MaintenanceLaws {
  import opened Basics
  import opened FileTree
  import opened StateImage
  import opened StateStorage
  import opened Phone
  import opened Cleaning
  import opened CacheAnalysis
  import opened CacheAnalysisLaws
  import opened PathPolicy
  import opened Maintenance
  import opened CleaningHistory
  import Fnv1a

  // ----- What a clean writes

  /**
   * A completed clean of a target that could be listed writes exactly one record: the clean
   * time, size 0 and one more clean, with scan time, growth rate and hash as they were.
   * Nothing else writes any record.
   */
  lemma {:induction false} CleanWritesExactly(env: Env, w: World, d: CacheDirInfo, hash: u32)
    ensures var (after, ok) := CleanDirectory(env, w, d);
      var s := RecordOf(w.store, hash);
      Lookup(after.store, hash) ==
        if ok && Listable(At(w.root, d.path)) && Fnv1a.Hash(d.pkgName) == hash
        then PackageState(s.hash, s.lastScanMs, env.wall(w.clocked), 0, (s.cleanupCount + 1) % 0x1_0000_0000,
                          s.growthRateBytesPerDay)
        else s
  {
  }

  /** Two records of the same package that tell the same about its scans and its growth. */
  predicate SameScan(s: PackageState, t: PackageState) {
    s.hash == t.hash && s.lastScanMs == t.lastScanMs && s.growthRateBytesPerDay == t.growthRateBytesPerDay
  }

  /** No clean changes a scan time, a growth rate or a hash. */
  lemma {:induction false} CleansKeepScans(env: Env, w: World, ts: seq<MaintenanceTarget>, hash: u32)
    ensures SameScan(Lookup(CleanTargets(env, w, ts).world.store, hash), RecordOf(w.store, hash))
    decreases |ts|
  {
    if ts != [] {
      var (idle, run) := Observe(env, w.run);
      var (after, ok) := CleanDirectory(env, w.(run := run), ts[0].cacheDir);
      CleanWritesExactly(env, w.(run := run), ts[0].cacheDir, hash);
      CleansKeepScans(env, after, ts[1..], hash);
    }
  }

  /**
   * After a maintenance scan times and growth rates are those of its analysis; if it did not get to
   * one, all is as before.
   */
  lemma {:induction false} MaintenanceKeepsScans(env: Env, w: World, after: World, ok: bool, hash: u32)
    requires HistoryInv(env, w) && Maintained(env, w, after, ok)
    ensures var survey := SurveyOf(env, w);
      if survey.ok then
        SameScan(Lookup(after.store, hash),
            Lookup(Analyze(ScanOf(env, survey.world, survey.dirs), |survey.dirs|).store, hash))
      else after.store == w.store
    ensures SurveyOf(env, w).world.store == w.store
  {
    var survey := SurveyOf(env, w);
    SurveyProcess(env, w);
    if survey.ok {
      var ts :| AnalyzedAndCleaned(env, survey.world, survey.dirs, ts, after, ok);
      CleansKeepScans(env, AfterAnalysis(env, survey.world, survey.dirs), ts, hash);
    }
  }

  // ----- The cooldown after a clean

  /**
   * What a completed clean leaves behind rests for six hours exactly when its package grows by less
   * than 500 MiB a day.
   */
  lemma {:induction false} CleanedRestsExactlyWhen(env: Env, w: World, d: CacheDirInfo, later: u64)
    requires CleanDirectory(env, w, d).1 && Listable(At(w.root, d.path))
    ensures var s := Lookup(CleanDirectory(env, w, d).0.store, Fnv1a.Hash(d.pkgName));
      Resting(s, later) <==>
        && env.wall(w.clocked) < later < env.wall(w.clocked) + 21_600_000
        && RecordOf(w.store, Fnv1a.Hash(d.pkgName)).growthRateBytesPerDay < 524_288_000
  {
    CleanWritesExactly(env, w, d, Fnv1a.Hash(d.pkgName));
  }

  /** Growth over some time in bytes per whole day, cut to 32 bits. */
  function DailyRate(grown: nat, ms: nat): u32
    requires ms >= 86_400_000
  {
    grown / (ms / 86_400_000) % 0x1_0000_0000
  }

  /** Whatever a maintenance cleans, each record ends up with the growth rate of the analysis. */
  lemma {:induction false} RateAfterCleaning(env: Env, w: World, dirs: seq<CacheDirInfo>, ts: seq<MaintenanceTarget>,
      after: World, ok: bool, hash: u32)
    requires AnalyzedAndCleaned(env, w, dirs, ts, after, ok)
    ensures Lookup(after.store, hash).growthRateBytesPerDay ==
            Lookup(Analyze(ScanOf(env, w, dirs), |dirs|).store, hash).growthRateBytesPerDay
  {
    CleansKeepScans(env, AfterAnalysis(env, w, dirs), ts, hash);
  }

  /** The first listed directory of the record was measured a day or more after its last scan, and found grown. */
  ghost predicate Grown(c: Scan, hash: u32, i: nat) {
    && FirstListed(c, hash, i) && !c.dirs[i].sizeCalculated
    && var s := RecordOf(c.store, hash);
      && !Resting(s, c.now) && c.now >= s.lastScanMs + 86_400_000
      && DirectorySize(At(c.root, c.dirs[i].path)) % 0x1_0000_0000_0000_0000 > s.lastSizeBytes
  }

  /**
   * The exemption from the cooldown, for the record that a whole maintenance really leaves:
   * a package that grew, was measured and then cleaned rests during the next six hours
   * exactly when its growth per day, cut to 32 bits, is below 500 MiB.
   */
  lemma {:induction false} GrownRestsExactlyWhen(env: Env, w: World, c: Scan, ts: seq<MaintenanceTarget>,
      after: World, ok: bool, hash: u32, i: nat, later: u64)
    requires c == ScanOf(env, w, c.dirs) && AnalyzedAndCleaned(env, w, c.dirs, ts, after, ok)
    requires Grown(c, hash, i) && JustCleaned(Lookup(after.store, hash), later)
    ensures var s, size := RecordOf(c.store, hash), DirectorySize(At(c.root, c.dirs[i].path)) % 0x1_0000_0000_0000_0000;
      Resting(Lookup(after.store, hash), later) <==>
          DailyRate(size - s.lastSizeBytes, c.now - s.lastScanMs) < 524_288_000
  {
    GrownRate(c, hash, i);
    RateAfterCleaning(env, w, c.dirs, ts, after, ok, hash);
  }

  lemma {:induction false} GrownRate(c: Scan, hash: u32, i: nat)
    requires Grown(c, hash, i)
    ensures var s, size := RecordOf(c.store, hash), DirectorySize(At(c.root, c.dirs[i].path)) % 0x1_0000_0000_0000_0000;
      Lookup(Analyze(c, |c.dirs|).store, hash).growthRateBytesPerDay ==
      DailyRate(size - s.lastSizeBytes, c.now - s.lastScanMs)
  {
    RateExactly(c, hash, i);
  }

  // ----- What the scan finds

  /**
   * Everything a scan yields belongs to an installed package that the settings include, and lies at
   * one of its places.
   */
  lemma {:induction false} ScanYields(env: Env, root: Option<Node>, packages: seq<PackageInfo>, screened: nat,
      d: CacheDirInfo)
      returns (p: PackageInfo, place: string)
    requires Resolves(env.realpath) && d in ScanPackages(env, root, packages, screened).dirs
    ensures p in packages && Wanted(env.config, p) && CachePlace(env.config, p, place)
    ensures d == CacheDirInfo(Split(place), p.name, 0, false)
    ensures var n := At(root, Split(place)); n.Some? && n.value.Dir?
    ensures ResolvesInside(env.realpath, place, p.dataDir) || "/sdcard/Android/data/" <= place
  {
    if d in CacheDirsOf(env, root, packages[0]) {
      p := packages[0];
      place := PackageYields(env, root, p, d);
    } else {
      p, place := ScanYields(env, root, packages[1..], screened + 1, d);
    }
  }

  /**
   * A scan that completes finds every place of every included package that is a directory and resolves
   * as it should.
   */
  lemma {:induction false} ScanFinds(env: Env, root: Option<Node>, packages: seq<PackageInfo>, screened: nat,
      p: PackageInfo, place: string)
    requires ScanPackages(env, root, packages, screened).ok
    requires p in packages && Wanted(env.config, p) && CachePlace(env.config, p, place)
    requires At(root, Split(place)).Some? && At(root, Split(place)).value.Dir?
    requires ResolvesInside(env.realpath, place, p.dataDir) || "/sdcard/Android/data/" <= place
    ensures CacheDirInfo(Split(place), p.name, 0, false) in ScanPackages(env, root, packages, screened).dirs
  {
    if p == packages[0] {
      PackageFinds(env, root, p, place);
    } else {
      ScanFinds(env, root, packages[1..], screened + 1, p, place);
    }
  }
}

/** `AnalyzeCaches` over the live store, and the ranking it hands to the cleaner. */
module CacheAnalyzer {
  import opened Basics
  import opened FileTree
  import opened StateStorage
  import opened Phone
  import opened CacheAnalysis

  ghost predicate Descending(ts: seq<MaintenanceTarget>) {
    forall i, j :: 0 <= i < j < |ts| ==> ts[i].priority >= ts[j].priority
  }

  /** All that `std::sort` promises: the same targets, highest priority first, ties in any order. */
  ghost predicate Ranked(ts: seq<MaintenanceTarget>, sorted: seq<MaintenanceTarget>) {
    multiset(sorted) == multiset(ts) && Descending(sorted)
  }

  lemma {:induction false} Inserted(t: MaintenanceTarget, ts: seq<MaintenanceTarget>, k: nat)
    requires k <= |ts|
    ensures multiset(ts[..k] + [t] + ts[k..]) == multiset(ts) + multiset{t}
  {
    assert ts == ts[..k] + ts[k..];
  }

  /** Puts a target behind those that rank at least as high. */
  method Insert(t: MaintenanceTarget, ts: seq<MaintenanceTarget>) returns (r: seq<MaintenanceTarget>)
    requires Descending(ts)
    ensures Descending(r) && multiset(r) == multiset(ts) + multiset{t}
  {
    var k := 0;
    while k < |ts| && ts[k].priority >= t.priority
      invariant k <= |ts|
      invariant k > 0 ==> ts[k - 1].priority >= t.priority
    {
      k := k + 1;
    }
    r := ts[..k] + [t] + ts[k..];
    Inserted(t, ts, k);
  }

  /** Stands in for the library sort; its contract says no more than the library's. */
  method SortByPriority(ts: seq<MaintenanceTarget>) returns (sorted: seq<MaintenanceTarget>)
    ensures Ranked(ts, sorted)
  {
    sorted := [];
    for i := 0 to |ts|
      invariant Ranked(ts[..i], sorted)
    {
      assert ts[..i + 1] == ts[..i] + [ts[i]];
      sorted := Insert(ts[i], sorted);
    }
    assert ts[..|ts|] == ts;
  }

  class Analyzer {
    const device: Device
    const store: PackageStore

    constructor (device: Device, store: PackageStore)
      ensures this.device == device && this.store == store
    {
      this.device, this.store := device, store;
    }

    /** Stage 2 of the scan: measures a directory once. */
    method CalculateCacheSize(d: CacheDirInfo) returns (m: CacheDirInfo)
      requires device.Mounted()
      ensures m == Measured(device.root, d)
    {
      m := d;
      if !d.sizeCalculated {
        var size := device.GetDirectorySize(d.path, At(device.root, d.path));
        m := m.(sizeBytes := AsU64(size), sizeCalculated := true);
      }
    }

    method AnalyzeOne(d: CacheDirInfo, now: u64, ghost c: Scan)
      returns (m: CacheDirInfo, found: seq<MaintenanceTarget>)
      requires device.Mounted()
      requires c.config == device.env.config && c.root == device.root && c.now == now
      modifies store
      ensures (m, store.states, found) == One(c, old(store.states), d)
    {
      found := [];
      var state := store.GetPackageState(d.pkgName);
      if now > state.lastCleanupMs && now - state.lastCleanupMs < COOLDOWN_MS {
        if state.growthRateBytesPerDay < 500 * MIB {
          return d, [];
        }
      }
      m := CalculateCacheSize(d);
      var days := DaysSince(state.lastScanMs, now);
      if days > 0 && m.sizeBytes > state.lastSizeBytes {
        state := state.(growthRateBytesPerDay := AsU32((m.sizeBytes - state.lastSizeBytes) / days));
      }
      state := state.(lastScanMs := now, lastSizeBytes := m.sizeBytes);
      store.UpdatePackageState(d.pkgName, state);
      if ShouldCleanCache(device.env.config, m.sizeBytes) {
        var priority := 1;
        if m.sizeBytes > 1024 * MIB {
          priority := priority + 2;
        } else if m.sizeBytes > 500 * MIB {
          priority := priority + 1;
        }
        if state.growthRateBytesPerDay > 250 * MIB {
          priority := priority + 1;
        }
        found := [MaintenanceTarget(m, priority)];
      }
    }

    /** The loop over the scanned directories. */
    method AnalyzeEach(scanned: array<CacheDirInfo>, now: u64, ghost c: Scan) returns (targets: seq<MaintenanceTarget>)
      requires device.Mounted()
      requires c == Scan(device.env.config, device.root, now, store.states, scanned[..])
      modifies scanned, store
      ensures Analysis(scanned[..], store.states, targets) == Analyze(c, scanned.Length)
    {
      targets := [];
      for i := 0 to scanned.Length
        invariant Analysis(scanned[..], store.states, targets) == Analyze(c, i)
      {
        ghost var a := Analyze(c, i);
        var m, found := AnalyzeOne(scanned[i], now, c);
        scanned[i] := m;
        targets := targets + found;
        assert scanned[..] == a.dirs[i := m];
      }
    }

    method AnalyzeCaches(scanned: array<CacheDirInfo>, ghost c: Scan) returns (targets: seq<MaintenanceTarget>)
      requires device.Mounted()
      requires c == Scan(device.env.config, device.root, device.env.wall(device.clocked), store.states, scanned[..])
      modifies scanned, store, store.disk, device`clocked, device`log
      ensures var a := Analyze(c, |c.dirs|);
        && scanned[..] == a.dirs && store.states == a.store && Ranked(a.targets, targets)
        && device.log == old(device.log) + [Analyzed(c.now, c.store)]
      ensures device.clocked == old(device.clocked) + 1
      ensures Saved(old(store.disk.now), store.disk.now, store.states, store.disk.chances(old(store.disk.saves)))
      ensures old(store.Trusted()) ==> store.Trusted()
    {
      var now := device.GetCurrentTimeMs();
      device.log := device.log + [Analyzed(now, store.states)];
      targets := AnalyzeEach(scanned, now, c);
      if KeysMatch(c.store) { AnalysisKeepsKeysMatch(c, scanned.Length); }
      var _ := store.SaveStateAtomic();
      targets := SortByPriority(targets);
    }
  }
}

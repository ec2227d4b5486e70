/**
 * `AnalyzeCaches` as a fold over the scanned directories, and in closed form: which
 * directories it measures, which it selects, and what it leaves in the shared records.
 */
module CacheAnalysis {
  import opened Basics
  import opened FileTree
  import opened StateImage
  import opened StateStorage
  import Fnv1a

  const COOLDOWN_MS: int := 21_600_000
  const MIB: int := 1_048_576

  datatype CacheDirInfo = CacheDirInfo(path: Path, pkgName: string, sizeBytes: u64, sizeCalculated: bool)

  datatype MaintenanceTarget = MaintenanceTarget(cacheDir: CacheDirInfo, priority: int)

  /** The directories, the store and the targets collected so far. */
  datatype Analysis = Analysis(dirs: seq<CacheDirInfo>, store: Store, targets: seq<MaintenanceTarget>)

  /** What an analysis depends on. */
  datatype Scan = Scan(config: Config, root: Option<Node>, now: u64, store: Store, dirs: seq<CacheDirInfo>)

  /** Cleaned less than six hours ago and not growing massively: skipped this time. */
  predicate CoolingDown(s: PackageState, now: u64) {
    && now > s.lastCleanupMs && now - s.lastCleanupMs < COOLDOWN_MS
    && s.growthRateBytesPerDay < 500 * MIB
  }

  function Measured(root: Option<Node>, d: CacheDirInfo): CacheDirInfo {
    if d.sizeCalculated then d
    else d.(sizeBytes := AsU64(DirectorySize(At(root, d.path))), sizeCalculated := true)
  }

  function DaysSince(past: u64, now: u64): nat { if now > past then (now - past) / 86_400_000 else 0 }

  /** The growth rate after measuring `size`: a 64-bit quotient narrowed to 32 bits, or the old rate. */
  function Growth(s: PackageState, now: u64, size: u64): u32 {
    var days := DaysSince(s.lastScanMs, now);
    if days > 0 && size > s.lastSizeBytes then AsU32((size - s.lastSizeBytes) / days)
    else s.growthRateBytesPerDay
  }

  function Scanned(s: PackageState, now: u64, size: u64): PackageState {
    s.(growthRateBytesPerDay := Growth(s, now, size), lastScanMs := now, lastSizeBytes := size)
  }

  function Threshold(config: Config): u64 { Mebibytes(config.cacheThresholdMb) }

  predicate ShouldCleanCache(config: Config, size: u64) { size >= Threshold(config) }

  function Priority(size: u64, growth: u32): int {
    1 + (if size > 1024 * MIB then 2 else if size > 500 * MIB then 1 else 0) + (if growth > 250 * MIB then 1 else 0)
  }

  /** Which sizes and rates reach each level: 500 MiB, 1 GiB and 250 MiB a day, each to be exceeded. */
  lemma {:induction false} PriorityLevels(size: u64, growth: u32, size': u64, growth': u32)
    ensures 1 <= Priority(size, growth) <= 4
    ensures Priority(size, growth) >= 2 <==> size > 524_288_000 || growth > 262_144_000
    ensures Priority(size, growth) >= 3 <==> size > 1_073_741_824 || (size > 524_288_000 && growth > 262_144_000)
    ensures Priority(size, growth) == 4 <==> size > 1_073_741_824 && growth > 262_144_000
    ensures size <= size' && growth <= growth' ==> Priority(size, growth) <= Priority(size', growth')
    ensures size <= 500 * MIB && size' > 1024 * MIB ==>
        Priority(size, growth) < Priority(size', growth') || (growth > 250 * MIB >= growth')
  {
  }

  /** The first `n` turns of the loop over the scanned directories. */
  function Analyze(c: Scan, n: nat): (a: Analysis)
    requires n <= |c.dirs|
    ensures |a.dirs| == |c.dirs|
  {
    if n == 0 then Analysis(c.dirs, c.store, [])
    else Turn(c, Analyze(c, n - 1), n - 1)
  }

  function Turn(c: Scan, a: Analysis, i: nat): Analysis
    requires i < |a.dirs|
  {
    var (m, store, found) := One(c, a.store, a.dirs[i]);
    Analysis(a.dirs[i := m], store, a.targets + found)
  }

  /** The loop body for one directory: the measured entry, the store, and the target if it is one. */
  function One(c: Scan, store: Store, d: CacheDirInfo): (CacheDirInfo, Store, seq<MaintenanceTarget>) {
    var s := Get(store, d.pkgName);
    if CoolingDown(s, c.now) then (d, store, [])
    else
      var m := Measured(c.root, d);
      var after := Scanned(s, c.now, m.sizeBytes);
      (m, Update(store, d.pkgName, after),
        if ShouldCleanCache(c.config, m.sizeBytes)
        then [MaintenanceTarget(m, Priority(m.sizeBytes, after.growthRateBytesPerDay))] else [])
  }

  // ----- The closed form

  function HashAt(c: Scan, i: nat): u32 requires i < |c.dirs| { Fnv1a.Hash(c.dirs[i].pkgName) }

  function SizeAt(c: Scan, i: nat): u64 requires i < |c.dirs| { Measured(c.root, c.dirs[i]).sizeBytes }

  /** The first of the first `n` directories whose package name has this hash. */
  function FirstOf(c: Scan, n: nat, hash: u32): (i: Option<nat>)
    requires n <= |c.dirs|
    ensures i.Some? ==> i.value < n && HashAt(c, i.value) == hash
  {
    if n == 0 then None
    else var earlier := FirstOf(c, n - 1, hash);
      if earlier.Some? then earlier else if HashAt(c, n - 1) == hash then Some(n - 1) else None
  }

  /** The growth rate a record has once the first of its directories was measured: it changes no more. */
  function SettledGrowth(c: Scan, first: nat): u32
    requires first < |c.dirs|
  {
    Growth(Lookup(c.store, HashAt(c, first)), c.now, SizeAt(c, first))
  }

  /**
   * Directory `i` is measured exactly when its record was not cooling down before the call
   * and, unless it is the first of that record, is not cooling down with the settled rate.
   */
  predicate IsMeasured(c: Scan, i: nat)
    requires i < |c.dirs|
  {
    var s := Lookup(c.store, HashAt(c, i));
    var first := FirstOf(c, i, HashAt(c, i));
    && !CoolingDown(s, c.now)
    && (first.Some? ==> !CoolingDown(s.(growthRateBytesPerDay := SettledGrowth(c, first.value)), c.now))
  }

  function LastMeasured(c: Scan, n: nat, hash: u32): (i: Option<nat>)
    requires n <= |c.dirs|
    ensures i.Some? ==> i.value < n && HashAt(c, i.value) == hash && IsMeasured(c, i.value)
  {
    if n == 0 then None
    else if HashAt(c, n - 1) == hash && IsMeasured(c, n - 1) then Some(n - 1)
    else LastMeasured(c, n - 1, hash)
  }

  /** The two searches find what their names say. */
  lemma {:induction false} FirstAndLast(c: Scan, n: nat, hash: u32, j: nat)
    requires j < n <= |c.dirs| && HashAt(c, j) == hash
    ensures FirstOf(c, n, hash).Some? && FirstOf(c, n, hash).value <= j
    ensures IsMeasured(c, j) ==> LastMeasured(c, n, hash).Some? && LastMeasured(c, n, hash).value >= j
  {
    if j < n - 1 { FirstAndLast(c, n - 1, hash, j); }
  }

  /** What one record looks like after `n` directories. */
  function RecordAfter(c: Scan, n: nat, hash: u32): PackageState
    requires n <= |c.dirs|
  {
    var s := Lookup(c.store, hash);
    var first, last := FirstOf(c, n, hash), LastMeasured(c, n, hash);
    if first.None? || last.None? then s
    else s.(growthRateBytesPerDay := SettledGrowth(c, first.value), lastScanMs := c.now,
        lastSizeBytes := SizeAt(c, last.value))
  }

  function TargetOf(c: Scan, i: nat): MaintenanceTarget
    requires i < |c.dirs|
  {
    var first := FirstOf(c, i + 1, HashAt(c, i));
    MaintenanceTarget(Measured(c.root, c.dirs[i]),
      Priority(SizeAt(c, i), if first.Some? then SettledGrowth(c, first.value) else 0))
  }

  predicate IsSelected(c: Scan, i: nat)
    requires i < |c.dirs|
  {
    IsMeasured(c, i) && ShouldCleanCache(c.config, SizeAt(c, i))
  }

  function Selected(c: Scan, n: nat): seq<MaintenanceTarget>
    requires n <= |c.dirs|
  {
    if n == 0 then []
    else Selected(c, n - 1) + if IsSelected(c, n - 1) then [TargetOf(c, n - 1)] else []
  }

  /** Measuring the first directory of a record settles it; later ones only move the size. */
  lemma {:induction false} TurnOnRecord(c: Scan, n: nat)
    requires n < |c.dirs|
    ensures var hash := HashAt(c, n);
      var s := RecordAfter(c, n, hash);
      && (CoolingDown(s, c.now) <==> !IsMeasured(c, n))
      && (IsMeasured(c, n) ==> Scanned(s, c.now, SizeAt(c, n)) == RecordAfter(c, n + 1, hash))
      && (!IsMeasured(c, n) ==> s == RecordAfter(c, n + 1, hash))
  {
    var hash := HashAt(c, n);
    FirstIsMeasured(c, n, hash);
  }

  /** If any directory of a record is measured then its first one is; otherwise none is. */
  lemma {:induction false} FirstIsMeasured(c: Scan, n: nat, hash: u32)
    requires n <= |c.dirs|
    ensures var first := FirstOf(c, n, hash);
      first.Some? ==> (LastMeasured(c, n, hash).Some? <==> !CoolingDown(Lookup(c.store, hash), c.now))
  {
    if n != 0 { FirstIsMeasured(c, n - 1, hash); }
  }

  lemma {:induction false} OtherRecords(c: Scan, n: nat, hash: u32)
    requires n < |c.dirs| && HashAt(c, n) != hash
    ensures RecordAfter(c, n + 1, hash) == RecordAfter(c, n, hash)
  {
  }

  ghost predicate StoreIsClosedForm(c: Scan, n: nat, m: Store)
    requires n <= |c.dirs|
  {
    forall hash :: RecordIsClosedForm(c, n, m, hash)
  }

  ghost predicate RecordIsClosedForm(c: Scan, n: nat, m: Store, hash: u32)
    requires n <= |c.dirs|
  {
    Lookup(m, hash) == RecordAfter(c, n, hash)
  }

  ghost predicate DirsAreClosedForm(c: Scan, n: nat, dirs: seq<CacheDirInfo>)
    requires n <= |c.dirs|
  {
    |dirs| == |c.dirs| && forall i :: 0 <= i < |c.dirs| ==> DirIsClosedForm(c, n, dirs, i)
  }

  ghost predicate DirIsClosedForm(c: Scan, n: nat, dirs: seq<CacheDirInfo>, i: nat)
    requires i < |c.dirs| == |dirs|
  {
    dirs[i] == if i < n && IsMeasured(c, i) then Measured(c.root, c.dirs[i]) else c.dirs[i]
  }

  /** What one turn does to the record of its directory, and that it leaves the others alone. */
  lemma {:induction false} RecordTurn(c: Scan, n: nat, m: Store, hash: u32)
    requires n < |c.dirs| && RecordIsClosedForm(c, n, m, hash) && RecordIsClosedForm(c, n, m, HashAt(c, n))
    ensures var s := Get(m, c.dirs[n].pkgName);
      && (CoolingDown(s, c.now) <==> !IsMeasured(c, n))
      && RecordIsClosedForm(c, n + 1,
           if CoolingDown(s, c.now) then m else Update(m, c.dirs[n].pkgName, Scanned(s, c.now, SizeAt(c, n))), hash)
  {
    TurnOnRecord(c, n);
    if hash != HashAt(c, n) { OtherRecords(c, n, hash); }
  }

  lemma {:induction false} StoreTurn(c: Scan, n: nat, m: Store)
    requires n < |c.dirs| && StoreIsClosedForm(c, n, m)
    ensures var s := Get(m, c.dirs[n].pkgName);
      && (CoolingDown(s, c.now) <==> !IsMeasured(c, n))
      && StoreIsClosedForm(c, n + 1,
           if CoolingDown(s, c.now) then m else Update(m, c.dirs[n].pkgName, Scanned(s, c.now, SizeAt(c, n))))
  {
    var s := Get(m, c.dirs[n].pkgName);
    var after := if CoolingDown(s, c.now) then m else Update(m, c.dirs[n].pkgName, Scanned(s, c.now, SizeAt(c, n)));
    assert RecordIsClosedForm(c, n, m, HashAt(c, n));
    RecordTurn(c, n, m, HashAt(c, n));
    var next := n + 1;
    forall hash ensures RecordIsClosedForm(c, next, after, hash) {
      assert RecordIsClosedForm(c, n, m, hash);
      RecordTurn(c, n, m, hash);
    }
  }

  /** The growth rate that ranks a measured directory is the settled rate of its record. */
  lemma {:induction false} SettledAt(c: Scan, n: nat)
    requires n < |c.dirs| && IsMeasured(c, n)
    ensures var s := RecordAfter(c, n, HashAt(c, n));
      TargetOf(c, n) == MaintenanceTarget(Measured(c.root, c.dirs[n]),
        Priority(SizeAt(c, n), Scanned(s, c.now, SizeAt(c, n)).growthRateBytesPerDay))
  {
    TurnOnRecord(c, n);
    assert FirstOf(c, n + 1, HashAt(c, n)).Some?;
  }

  lemma {:induction false} DirsTurn(c: Scan, n: nat, dirs: seq<CacheDirInfo>)
    requires n < |c.dirs| && DirsAreClosedForm(c, n, dirs)
    ensures dirs[n] == c.dirs[n]
    ensures DirsAreClosedForm(c, n + 1, if IsMeasured(c, n) then dirs[n := Measured(c.root, c.dirs[n])] else dirs)
  {
    assert DirIsClosedForm(c, n, dirs, n);
    var after := if IsMeasured(c, n) then dirs[n := Measured(c.root, c.dirs[n])] else dirs;
    var next := n + 1;
    forall i | 0 <= i < |c.dirs| ensures DirIsClosedForm(c, next, after, i) {
      assert DirIsClosedForm(c, n, dirs, i);
    }
  }

  lemma {:induction false} TargetsTurn(c: Scan, n: nat, s: PackageState)
    requires n < |c.dirs| && s == RecordAfter(c, n, HashAt(c, n))
    ensures Selected(c, n + 1) == Selected(c, n) +
      if !CoolingDown(s, c.now) && ShouldCleanCache(c.config, SizeAt(c, n))
      then [MaintenanceTarget(Measured(c.root, c.dirs[n]),
              Priority(SizeAt(c, n), Scanned(s, c.now, SizeAt(c, n)).growthRateBytesPerDay))]
      else []
  {
    TurnOnRecord(c, n);
    if IsMeasured(c, n) { SettledAt(c, n); }
  }

  ghost predicate IsClosedForm(c: Scan, n: nat, a: Analysis)
    requires n <= |c.dirs|
  {
    DirsAreClosedForm(c, n, a.dirs) && StoreIsClosedForm(c, n, a.store) && a.targets == Selected(c, n)
  }

  lemma {:induction false} NoTurnIsClosedForm(c: Scan)
    ensures IsClosedForm(c, 0, Analysis(c.dirs, c.store, []))
  {
  }

  /** The three results of a turn at a directory that no earlier turn has touched. */
  lemma {:induction false} TurnParts(c: Scan, n: nat, a: Analysis)
    requires n < |c.dirs| == |a.dirs| && a.dirs[n] == c.dirs[n]
    ensures var s, size, turn := Get(a.store, c.dirs[n].pkgName), SizeAt(c, n), Turn(c, a, n);
      && turn.dirs == (if CoolingDown(s, c.now) then a.dirs else a.dirs[n := Measured(c.root, c.dirs[n])])
      && turn.store == (if CoolingDown(s, c.now) then a.store
           else Update(a.store, c.dirs[n].pkgName, Scanned(s, c.now, size)))
      && turn.targets == a.targets + if !CoolingDown(s, c.now) && ShouldCleanCache(c.config, size)
           then [MaintenanceTarget(Measured(c.root, c.dirs[n]),
                   Priority(size, Scanned(s, c.now, size).growthRateBytesPerDay))]
           else []
  {
    assert a.dirs[n := a.dirs[n]] == a.dirs;
  }

  lemma {:induction false} TurnIsClosedForm(c: Scan, n: nat, next: nat, a: Analysis)
    requires n < |c.dirs| && IsClosedForm(c, n, a) && next == n + 1
    ensures IsClosedForm(c, next, Turn(c, a, n))
  {
    var s := Get(a.store, c.dirs[n].pkgName);
    DirsTurn(c, n, a.dirs);
    assert RecordIsClosedForm(c, n, a.store, HashAt(c, n));
    StoreTurn(c, n, a.store);
    TurnParts(c, n, a);
    TargetsTurn(c, n, s);
  }

  /**
   * The loop computes the closed form: which entries of the list are updated, what is in
   * every record, and the targets in list order. A record's growth rate changes at most
   * once, from the size of its first directory; its clean time and count never change.
   */
  lemma {:induction false} AnalysisIsClosedForm(c: Scan, n: nat)
    requires n <= |c.dirs|
    ensures IsClosedForm(c, n, Analyze(c, n))
  {
    var a := Analyze(c, n);
    if n == 0 {
      NoTurnIsClosedForm(c);
    } else {
      var k := n - 1;
      AnalysisIsClosedForm(c, k);
      TurnIsClosedForm(c, k, n, Analyze(c, k));
      assert a == Turn(c, Analyze(c, k), k);
    }
  }

  // ----- Consequences

  /** Selection reads only what was there before the call: nothing cooling down is ever selected. */
  lemma {:induction false} SelectedNotCooling(c: Scan, n: nat, t: MaintenanceTarget)
    requires n <= |c.dirs| && t in Selected(c, n)
    ensures !CoolingDown(Get(c.store, t.cacheDir.pkgName), c.now)
    ensures ShouldCleanCache(c.config, t.cacheDir.sizeBytes) && 1 <= t.priority <= 4
    ensures exists i :: 0 <= i < n && IsSelected(c, i) && t == TargetOf(c, i)
  {
    if t in Selected(c, n - 1) {
      SelectedNotCooling(c, n - 1, t);
    } else {
      assert IsSelected(c, n - 1) && t == TargetOf(c, n - 1);
    }
  }

  /** The selected positions of the list, in order. */
  function Positions(c: Scan, n: nat): (at: seq<nat>)
    requires n <= |c.dirs|
    ensures forall k :: 0 <= k < |at| ==> at[k] < n
  {
    if n == 0 then [] else Positions(c, n - 1) + if IsSelected(c, n - 1) then [n - 1] else []
  }

  lemma {:induction false} PositionsAreSelected(c: Scan, n: nat, i: nat)
    requires n <= |c.dirs| && i < n
    ensures i in Positions(c, n) <==> IsSelected(c, i)
  {
    if i < n - 1 {
      PositionsAreSelected(c, n - 1, i);
    } else {
      assert n - 1 !in Positions(c, n - 1);
    }
  }

  lemma {:induction false} PositionsIncrease(c: Scan, n: nat, j: nat, k: nat)
    requires n <= |c.dirs| && j < k < |Positions(c, n)|
    ensures Positions(c, n)[j] < Positions(c, n)[k]
  {
    if k < |Positions(c, n - 1)| { PositionsIncrease(c, n - 1, j, k); }
  }

  lemma {:induction false} SelectionCount(c: Scan, n: nat)
    requires n <= |c.dirs|
    ensures |Selected(c, n)| == |Positions(c, n)|
  {
    if n != 0 { SelectionCount(c, n - 1); }
  }

  lemma {:induction false} SelectedAt(c: Scan, n: nat, k: nat)
    requires n <= |c.dirs| && k < |Selected(c, n)|
    ensures |Selected(c, n)| == |Positions(c, n)| && Selected(c, n)[k] == TargetOf(c, Positions(c, n)[k])
  {
    var last := n - 1;
    SelectionCount(c, n);
    SelectionCount(c, last);
    if k < |Selected(c, last)| {
      SelectedAt(c, last, k);
      assert Selected(c, n)[k] == Selected(c, last)[k] && Positions(c, n)[k] == Positions(c, last)[k];
    } else {
      assert Selected(c, n)[k] == TargetOf(c, last) && Positions(c, n)[k] == last;
    }
  }

  /**
   * Target `k` comes from the `k`-th selected position, and a later target from a later
   * position: targets are in list order and no directory yields two.
   */
  lemma {:induction false} SelectionIsExact(c: Scan, n: nat, k: nat)
    requires n <= |c.dirs| && k < |Selected(c, n)|
    ensures |Selected(c, n)| == |Positions(c, n)| && Selected(c, n)[k] == TargetOf(c, Positions(c, n)[k])
    ensures forall j :: 0 <= j < k ==> Positions(c, n)[j] < Positions(c, n)[k]
  {
    SelectedAt(c, n, k);
    forall j | 0 <= j < k ensures Positions(c, n)[j] < Positions(c, n)[k] { PositionsIncrease(c, n, j, k); }
  }

  /** Analyzing leaves clean times, clean counts and hashes alone. */
  lemma {:induction false} AnalysisKeepsHistory(c: Scan, hash: u32)
    ensures var before, after := Lookup(c.store, hash), Lookup(Analyze(c, |c.dirs|).store, hash);
      && after.lastCleanupMs == before.lastCleanupMs
      && after.cleanupCount == before.cleanupCount
      && after.hash == before.hash
  {
    AnalysisIsClosedForm(c, |c.dirs|);
    assert RecordIsClosedForm(c, |c.dirs|, Analyze(c, |c.dirs|).store, hash);
  }

  lemma {:induction false} AnalysisKeepsKeysMatch(c: Scan, n: nat)
    requires n <= |c.dirs| && KeysMatch(c.store)
    ensures KeysMatch(Analyze(c, n).store)
  {
    if n != 0 { AnalysisKeepsKeysMatch(c, n - 1); }
  }

  // ----- What the narrowing of the growth rate does to the cooldown

  /** What `size` amounts to as growth per day since the last scan, before it is narrowed. */
  function Rate(s: PackageState, now: u64, size: u64): nat
    requires DaysSince(s.lastScanMs, now) > 0 && size > s.lastSizeBytes
  {
    (size - s.lastSizeBytes) / DaysSince(s.lastScanMs, now)
  }

  /** The stored rate is the measured one exactly when it fits in 32 bits. */
  lemma {:induction false} GrowthExactlyWhenItFits(s: PackageState, now: u64, size: u64)
    requires DaysSince(s.lastScanMs, now) > 0 && size > s.lastSizeBytes
    ensures Growth(s, now, size) == Rate(s, now, size) <==> Rate(s, now, size) < MOD32
  {
    if Rate(s, now, size) < MOD32 { SmallRate(Rate(s, now, size)); }
  }

  lemma {:induction false} SmallRate(rate: nat)
    requires rate < MOD32
    ensures AsU32(rate) == rate
  {
  }

  /**
   * A package measured, then cleaned, and looked at again within six hours: the cooldown is
   * lifted exactly when the measured rate, less its whole multiples of 4 GiB, is at least
   * 500 MiB a day. So massive growth fails to lift it exactly in the first 500 MiB of every
   * further 4 GiB.
   */
  lemma {:induction false} GrowthLiftsCooldownExactlyWhen(s: PackageState, now: u64, size: u64, cleaned: u64,
      later: u64)
    requires DaysSince(s.lastScanMs, now) > 0 && size > s.lastSizeBytes
    requires cleaned < later && later - cleaned < 21_600_000
    ensures var rate := Rate(s, now, size);
      var seen := Scanned(s, now, size).(lastCleanupMs := cleaned);
      && (!CoolingDown(seen, later) <==> rate % MOD32 >= 524_288_000)
      && (CoolingDown(seen, later) && rate >= 524_288_000 <==> rate / MOD32 >= 1 && rate % MOD32 < 524_288_000)
  {
    var rate := Rate(s, now, size);
    if rate < MOD32 { SmallRate(rate); }
  }

  /** Two packages scanned in November 2023 and again a day later, cleaned at once and looked at an hour after that. */
  const FIRST_SCAN: u64 := 1_700_000_000_000
  const SECOND_SCAN: u64 := 1_700_086_400_000
  const AN_HOUR_LATER: u64 := 1_700_090_000_000

  /** 4 GiB a day is stored as no growth, so the package cools down; 4 GiB and 600 MiB lifts the cooldown. */
  lemma {:induction false} MassiveGrowthWraps()
    ensures var s := PackageState(7, FIRST_SCAN, FIRST_SCAN, 0, 0, 0);
      && Growth(s, SECOND_SCAN, MOD32) == 0
      && CoolingDown(Scanned(s, SECOND_SCAN, MOD32).(lastCleanupMs := SECOND_SCAN), AN_HOUR_LATER)
      && Growth(s, SECOND_SCAN, MOD32 + 600 * MIB) == 600 * MIB
      && !CoolingDown(Scanned(s, SECOND_SCAN, MOD32 + 600 * MIB).(lastCleanupMs := SECOND_SCAN), AN_HOUR_LATER)
  {
    var s := PackageState(7, FIRST_SCAN, FIRST_SCAN, 0, 0, 0);
    assert DaysSince(FIRST_SCAN, SECOND_SCAN) == 1;
  }
}

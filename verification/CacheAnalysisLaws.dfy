/**
 * What one analysis does to a record and which targets it yields, in the numbers of the
 * records and of the disk: six hours are 21 600 000 ms, a day is 86 400 000 ms, 500 MiB are
 * 524 288 000 bytes.
 */
module CacheAnalysisLaws {
  import opened Basics
  import opened FileTree
  import opened StateImage
  import opened StateStorage
  import opened CacheAnalysis
  import Fnv1a

  /** The record of a hash before the call; one that does not exist yet is all zero. */
  function RecordOf(m: Store, hash: u32): PackageState {
    if hash in m then m[hash] else PackageState(hash, 0, 0, 0, 0, 0)
  }

  /** Cleaned less than six hours ago. */
  predicate JustCleaned(s: PackageState, now: u64) { s.lastCleanupMs < now < s.lastCleanupMs + 21_600_000 }

  /** Skipped by the analysis: cleaned less than six hours ago, and not growing by 500 MiB a day. */
  predicate Resting(s: PackageState, now: u64) { JustCleaned(s, now) && s.growthRateBytesPerDay < 524_288_000 }

  /** Directory `i` is the first one listed for its package, or for one with the same hash. */
  ghost predicate FirstListed(c: Scan, hash: u32, i: nat) {
    && i < |c.dirs| && Fnv1a.Hash(c.dirs[i].pkgName) == hash
    && forall j :: 0 <= j < i ==> Fnv1a.Hash(c.dirs[j].pkgName) != hash
  }

  /** Directory `i` is the last one listed for its package, or for one with the same hash. */
  ghost predicate LastListed(c: Scan, hash: u32, i: nat) {
    && i < |c.dirs| && Fnv1a.Hash(c.dirs[i].pkgName) == hash
    && forall j :: i < j < |c.dirs| ==> Fnv1a.Hash(c.dirs[j].pkgName) != hash
  }

  ghost predicate Unlisted(c: Scan, hash: u32) {
    forall j :: 0 <= j < |c.dirs| ==> Fnv1a.Hash(c.dirs[j].pkgName) != hash
  }

  // ----- The growth rate

  /** The rate stays as it was unless a whole day has passed and the directory has grown. */
  lemma {:induction false} GrowthExactly(s: PackageState, now: u64, size: u64)
    ensures Growth(s, now, size) ==
      if now < s.lastScanMs + 86_400_000 || size <= s.lastSizeBytes then s.growthRateBytesPerDay
      else (size - s.lastSizeBytes) / ((now - s.lastScanMs) / 86_400_000) % 0x1_0000_0000
  {
    if now > s.lastScanMs { WholeDays(now - s.lastScanMs); }
  }

  lemma {:induction false} WholeDays(ms: nat)
    ensures ms / 86_400_000 > 0 <==> ms >= 86_400_000
  {
  }

  lemma {:induction false} CoolingExactly(s: PackageState, now: u64)
    ensures CoolingDown(s, now) <==> Resting(s, now)
  {
  }

  lemma {:induction false} SizeAtExactly(c: Scan, i: nat)
    requires i < |c.dirs|
    ensures var d := c.dirs[i];
      SizeAt(c, i) == if d.sizeCalculated then d.sizeBytes
          else DirectorySize(At(c.root, d.path)) % 0x1_0000_0000_0000_0000
  {
  }

  /** The searches of the closed form, in terms of the list. */
  lemma {:induction false} FirstFound(c: Scan, n: nat, hash: u32, i: nat)
    requires FirstListed(c, hash, i) && n <= |c.dirs|
    ensures FirstOf(c, n, hash) == if n <= i then None else Some(i)
  {
    if n > 0 { FirstFound(c, n - 1, hash, i); }
  }

  lemma {:induction false} NoneFound(c: Scan, n: nat, hash: u32)
    requires n <= |c.dirs| && forall j :: 0 <= j < n ==> Fnv1a.Hash(c.dirs[j].pkgName) != hash
    ensures FirstOf(c, n, hash).None? && LastMeasured(c, n, hash).None?
  {
    if n > 0 { NoneFound(c, n - 1, hash); }
  }

  /** The first directory of a record is measured exactly when the record is not resting; if it is, none is. */
  lemma {:induction false} FirstDecides(c: Scan, hash: u32, i: nat)
    requires FirstListed(c, hash, i)
    ensures LastMeasured(c, |c.dirs|, hash).Some? <==> !Resting(RecordOf(c.store, hash), c.now)
    ensures IsMeasured(c, i) <==> !Resting(RecordOf(c.store, hash), c.now)
  {
    FirstFound(c, |c.dirs|, hash, i);
    FirstFound(c, i, hash, i);
    FirstIsMeasured(c, |c.dirs|, hash);
  }

  /** What the call leaves under a hash, in closed form. */
  lemma {:induction false} FinalRecord(c: Scan, hash: u32)
    ensures Lookup(Analyze(c, |c.dirs|).store, hash) == RecordAfter(c, |c.dirs|, hash)
  {
    AnalysisIsClosedForm(c, |c.dirs|);
    assert RecordIsClosedForm(c, |c.dirs|, Analyze(c, |c.dirs|).store, hash);
  }

  lemma {:induction false} FinalRate(c: Scan, hash: u32, i: nat)
    requires FirstListed(c, hash, i)
    ensures var s := RecordOf(c.store, hash);
      Lookup(Analyze(c, |c.dirs|).store, hash).growthRateBytesPerDay ==
      if Resting(s, c.now) then s.growthRateBytesPerDay else Growth(s, c.now, SizeAt(c, i))
  {
    FinalRecord(c, hash);
    FirstDecides(c, hash, i);
    FirstFound(c, |c.dirs|, hash, i);
  }

  /** A record without a listed directory is left alone. */
  lemma {:induction false} UnlistedUntouched(c: Scan, hash: u32)
    requires Unlisted(c, hash)
    ensures Lookup(Analyze(c, |c.dirs|).store, hash) == RecordOf(c.store, hash)
  {
    FinalRecord(c, hash);
    NoneFound(c, |c.dirs|, hash);
  }

  /**
   * What an analysis makes of a growth rate: it changes only if the record is not resting,
   * a whole day has passed since its last scan, and its first listed directory is larger
   * than the recorded size. Then it becomes the growth per whole day, cut to 32 bits.
   */
  lemma {:induction false} RateExactly(c: Scan, hash: u32, i: nat)
    requires FirstListed(c, hash, i)
    ensures var s, after := RecordOf(c.store, hash), Lookup(Analyze(c, |c.dirs|).store, hash);
      var d := c.dirs[i];
      var size := if d.sizeCalculated then d.sizeBytes else DirectorySize(At(c.root, d.path)) % 0x1_0000_0000_0000_0000;
      after.growthRateBytesPerDay ==
        if Resting(s, c.now) || c.now < s.lastScanMs + 86_400_000 || size <= s.lastSizeBytes
            then s.growthRateBytesPerDay
        else (size - s.lastSizeBytes) / ((c.now - s.lastScanMs) / 86_400_000) % 0x1_0000_0000
  {
    FinalRate(c, hash, i);
    SizeAtExactly(c, i);
    GrowthExactly(RecordOf(c.store, hash), c.now, SizeAt(c, i));
  }

  /** The same the other way round: a rate that changed was measured at the first listed directory. */
  lemma {:induction false} RateChangesOnlyByGrowth(c: Scan, hash: u32) returns (i: nat)
    requires Lookup(Analyze(c, |c.dirs|).store, hash).growthRateBytesPerDay != RecordOf(c.store,
        hash).growthRateBytesPerDay
    ensures FirstListed(c, hash, i)
    ensures var s, d := RecordOf(c.store, hash), c.dirs[i];
      var size := if d.sizeCalculated then d.sizeBytes else DirectorySize(At(c.root, d.path)) % 0x1_0000_0000_0000_0000;
      size > s.lastSizeBytes && c.now >= s.lastScanMs + 86_400_000 && !Resting(s, c.now)
  {
    if Unlisted(c, hash) {
      UnlistedUntouched(c, hash);
      assert false;
    }
    var j :| 0 <= j < |c.dirs| && Fnv1a.Hash(c.dirs[j].pkgName) == hash;
    i := FindFirst(c, hash, j);
    RateExactly(c, hash, i);
  }

  lemma {:induction false} FindFirst(c: Scan, hash: u32, j: nat) returns (i: nat)
    requires j < |c.dirs| && Fnv1a.Hash(c.dirs[j].pkgName) == hash
    ensures FirstListed(c, hash, i)
  {
    if FirstListed(c, hash, j) {
      i := j;
    } else {
      var k :| 0 <= k < j && Fnv1a.Hash(c.dirs[k].pkgName) == hash;
      i := FindFirst(c, hash, k);
    }
  }

  // ----- The scan time and the recorded size

  /**
   * A resting record stays as it is; one that was not just cleaned gets the time of the call and the
   * size of its last directory.
   */
  lemma {:induction false} ScanRecorded(c: Scan, hash: u32, i: nat)
    requires LastListed(c, hash, i)
    ensures var s, after := RecordOf(c.store, hash), Lookup(Analyze(c, |c.dirs|).store, hash);
      var d := c.dirs[i];
      && (Resting(s, c.now) ==> after == s)
      && (!JustCleaned(s, c.now) ==>
            && after.lastScanMs == c.now
            && after.lastSizeBytes == if d.sizeCalculated then d.sizeBytes
                 else DirectorySize(At(c.root, d.path)) % 0x1_0000_0000_0000_0000)
  {
    var first := FindFirst(c, hash, i);
    FinalRecord(c, hash);
    FirstDecides(c, hash, first);
    FirstFound(c, |c.dirs|, hash, first);
    if !JustCleaned(RecordOf(c.store, hash), c.now) {
      AwakeIsMeasured(c, i);
      LastFound(c, |c.dirs|, hash, i);
      SizeAtExactly(c, i);
    }
  }

  lemma {:induction false} AwakeIsMeasured(c: Scan, i: nat)
    requires i < |c.dirs| && !JustCleaned(RecordOf(c.store, Fnv1a.Hash(c.dirs[i].pkgName)), c.now)
    ensures IsMeasured(c, i)
  {
  }

  lemma {:induction false} LastFound(c: Scan, n: nat, hash: u32, i: nat)
    requires i < n <= |c.dirs| && Fnv1a.Hash(c.dirs[i].pkgName) == hash && IsMeasured(c, i)
    requires forall j :: i < j < n ==> Fnv1a.Hash(c.dirs[j].pkgName) != hash
    ensures LastMeasured(c, n, hash) == Some(i)
  {
    if n > i + 1 { LastFound(c, n - 1, hash, i); }
  }

  // ----- The targets

  predicate ComesFrom(t: MaintenanceTarget, d: CacheDirInfo) {
    t.cacheDir.path == d.path && t.cacheDir.pkgName == d.pkgName
  }

  /**
   * Every target is a listed directory, with the size on disk, at least the threshold, and
   * ranked by that size and by the rate its record shows once the call is over.
   */
  lemma {:induction false} TargetInNumbers(c: Scan, t: MaintenanceTarget) returns (i: nat)
    requires t in Analyze(c, |c.dirs|).targets
    ensures i < |c.dirs| && ComesFrom(t, c.dirs[i])
    ensures !Resting(RecordOf(c.store, Fnv1a.Hash(t.cacheDir.pkgName)), c.now)
    ensures var d, size := c.dirs[i], t.cacheDir.sizeBytes;
      var rate := Lookup(Analyze(c, |c.dirs|).store, Fnv1a.Hash(d.pkgName)).growthRateBytesPerDay;
      && size == (if d.sizeCalculated then d.sizeBytes else DirectorySize(At(c.root, d.path)) % 0x1_0000_0000_0000_0000)
      && (0 <= c.config.cacheThresholdMb < 0x8000_0000 ==> size >= c.config.cacheThresholdMb * 1_048_576)
      && t.priority == Priority(size, rate)
  {
    var n := |c.dirs|;
    AnalysisIsClosedForm(c, n);
    SelectedNotCooling(c, n, t);
    i :| 0 <= i < n && IsSelected(c, i) && t == TargetOf(c, i);
    SizeAtExactly(c, i);
    TargetRate(c, i);
    if 0 <= c.config.cacheThresholdMb < 0x8000_0000 { MebibytesExactly(c.config.cacheThresholdMb); }
  }

  /** The settled rate that ranks a measured directory is the one its record ends up with. */
  lemma {:induction false} TargetRate(c: Scan, i: nat)
    requires i < |c.dirs| && IsMeasured(c, i)
    ensures TargetOf(c, i).priority ==
      Priority(SizeAt(c, i), Lookup(Analyze(c, |c.dirs|).store, HashAt(c, i)).growthRateBytesPerDay)
  {
    var hash := HashAt(c, i);
    var first := FindFirst(c, hash, i);
    FinalRate(c, hash, first);
    FirstFound(c, i + 1, hash, first);
    MeasuredIsAwake(c, i);
  }

  lemma {:induction false} MeasuredIsAwake(c: Scan, i: nat)
    requires i < |c.dirs| && IsMeasured(c, i)
    ensures !Resting(RecordOf(c.store, HashAt(c, i)), c.now)
  {
  }

  /**
   * No directory that reaches the threshold is passed over, unless its package was cleaned
   * less than six hours ago; and even then not the first directory of one that is growing by
   * 500 MiB a day or more.
   */
  lemma {:induction false} LargeIsSelected(c: Scan, i: nat)
    requires i < |c.dirs|
    requires var hash := Fnv1a.Hash(c.dirs[i].pkgName);
      !JustCleaned(RecordOf(c.store, hash), c.now) ||
          (FirstListed(c, hash, i) && !Resting(RecordOf(c.store, hash), c.now))
    requires 0 <= c.config.cacheThresholdMb < 0x8000_0000
    requires var d := c.dirs[i];
      (if d.sizeCalculated then d.sizeBytes else DirectorySize(At(c.root, d.path)) % 0x1_0000_0000_0000_0000) >=
      c.config.cacheThresholdMb * 1_048_576
    ensures exists t :: t in Analyze(c, |c.dirs|).targets && ComesFrom(t, c.dirs[i])
  {
    var n, hash := |c.dirs|, Fnv1a.Hash(c.dirs[i].pkgName);
    if JustCleaned(RecordOf(c.store, hash), c.now) { FirstDecides(c, hash, i); } else { AwakeIsMeasured(c, i); }
    SizeAtExactly(c, i);
    MebibytesExactly(c.config.cacheThresholdMb);
    AnalysisIsClosedForm(c, n);
    PositionsAreSelected(c, n, i);
    SelectionCount(c, n);
    var k :| 0 <= k < |Positions(c, n)| && Positions(c, n)[k] == i;
    SelectionIsExact(c, n, k);
    assert TargetOf(c, i) in Analyze(c, n).targets && ComesFrom(TargetOf(c, i), c.dirs[i]);
  }
}

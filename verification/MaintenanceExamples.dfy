/** Concrete runs that show what a maintenance does not guarantee. */
module MaintenanceExamples {
  import opened Basics
  import opened FileTree
  import opened StateStorage
  import opened IdleDetection
  import opened Phone
  import opened Cleaning
  import opened CleaningRuns
  import opened CleaningResidue
  import opened CleaningVerdict
  import opened CacheAnalysis
  import opened Maintenance
  import opened MaintenanceRuns
  import opened MaintenanceVerdict
  import opened CleaningHistory

  /** The daemon at its start, on a device with these files. */
  function Fresh(root: Node): World { World(Some(root), Run(0, 0, 0, 0, 0, []), map[], 0, 0, 0) }

  lemma {:induction false} FreshProcess(env: Env, root: Node)
    ensures ProcessInv(env, Fresh(root).run)
  {
  }

  function OneChild(name: string, n: Node): Node { Dir(true, true, [Entry(name, n)]) }

  lemma {:induction false} AtOneChild(name: string, n: Node)
    ensures At(Some(OneChild(name, n)), [name]) == Some(n)
  {
    assert [name][1..] == [];
  }

  // ----- Sweeps go on after NOT_IDLE

  function OneFile(): Node { OneChild("f", Leaf(PlainFile, 1, true)) }

  /** Two crash reports of one file each in /data/tombstones. */
  function TwoReports(): Node {
    OneChild("data", OneChild("tombstones", Dir(true, true, [Entry("a", OneFile()), Entry("b", OneFile())])))
  }

  /** The screen is on for the fourth observation only: the one before the first file. */
  function FlickersOn(i: nat): Observation { Observation(i == 3, 1, true, true, true, false) }

  lemma {:induction false} OneFileAborts(env: Env, path: Path, r: Run)
    requires env.obs(r.observed).screenOn
    ensures RemoveTree(env, path, OneFile(), r).run == Observe(env, r).1
  {
    assert RemoveEntries(env, path, OneFile().entries, 0, 0, r).run == Observe(env, r).1;
  }

  lemma {:induction false} OneFileUnlinks(env: Env, path: Path, r: Run)
    requires !env.obs(r.observed).screenOn && env.config.maxFilesPerBatch == 128
    ensures var log := RemoveTree(env, path, OneFile(), r).run.log;
      |log| >= |r.log| + 2 && log[..|r.log|] == r.log && log[|r.log| + 1] == Unlinked(path + ["f"], 1)
  {
    var es := OneFile().entries;
    var r1 := Observe(env, r).1;
    var step := Visit(env, path + ["f"], es[0].node, 0, 0, r);
    assert step == Step(None, Logged(r1, Unlinked(path + ["f"], 1)), true, 1, 1, []);
    assert es[1..] == [];
    assert RemoveEntries(env, path, es, 0, 0, r) == Behind([], RemoveEntries(env, path, [], 1, 1, step.run));
  }

  /** Of two directories in a row, the removal of the first aborts and that of the second unlinks its file. */
  lemma {:induction false} SecondUnlinks(env: Env, path: Path, r: Run)
    requires env.obs(r.observed).screenOn && !env.obs(r.observed + 1).screenOn && env.config.maxFilesPerBatch == 128
    ensures var log := SweepChildren(env, path, [Entry("a", OneFile()), Entry("b", OneFile())], r).run.log;
      |log| >= |r.log| + 3 && Observe(env, r).1.log <= log && log[|r.log| + 2].Unlinked?
  {
    var es := [Entry("a", OneFile()), Entry("b", OneFile())];
    assert !Protected("a") && !Protected("b");
    OneFileAborts(env, path + ["a"], r);
    var r1 := SweepEntry(env, path, es[0], r).1;
    assert r1 == Observe(env, r).1;
    OneFileUnlinks(env, path + ["b"], r1);
    assert es[1..][0] == es[1] && es[1..][1..] == [];
    assert SweepChildren(env, path, es[1..], r1).run == SweepEntry(env, path, es[1], r1).1;
  }

  lemma {:induction false} ReportsAt()
    ensures At(Some(TwoReports()), SWEPT[0]) == Some(Dir(true, true, [Entry("a", OneFile()), Entry("b", OneFile())]))
  {
    var reports := Dir(true, true, [Entry("a", OneFile()), Entry("b", OneFile())]);
    assert SWEPT[0] == ["data"] + ["tombstones"];
    AtAppend(Some(TwoReports()), ["data"], ["tombstones"]);
    AtOneChild("data", OneChild("tombstones", reports));
    AtOneChild("tombstones", reports);
  }

  /**
   * The abort of one removal does not end the sweeps: from the start of the daemon, the
   * fourth observation is `NotIdle`, and two events later a file is unlinked.
   */
  lemma {:induction false} SweepContinuesAfterNotIdle(env: Env)
    requires env.obs == FlickersOn && env.config.maxFilesPerBatch == 128
    ensures var log := Sweeps(env, Fresh(TwoReports())).run.log;
      |log| >= 6 && log[3].Observed? && log[3].idle.NotIdle? && log[5].Unlinked?
  {
    var w := Fresh(TwoReports());
    var r1 := Observe(env, w.run).1;
    var r2 := Observe(env, r1).1;
    var r3 := Observe(env, r2).1;
    FreshProcess(env, TwoReports());
    ObserveProcess(env, w.run);
    ObserveProcess(env, r1);
    ObserveProcess(env, r2);
    FirstReports(env, w, r3);
    var after := Sweep(env, SWEPT[0], w.(run := r3));
    SweepAllProcess(env, SWEPT[1..], after);
    assert Sweeps(env, w) == SweepAll(env, SWEPT[1..], after);
  }

  lemma {:induction false} FirstReports(env: Env, w: World, r: Run)
    requires env.obs == FlickersOn && env.config.maxFilesPerBatch == 128
    requires w.root == Some(TwoReports()) && r.observed == 3 && |r.log| == 3 && ProcessInv(env, r)
    ensures var after := Sweep(env, SWEPT[0], w.(run := r));
      && ProcessInv(env, after.run) && |after.run.log| >= 6
      && after.run.log[3].Observed? && after.run.log[3].idle.NotIdle? && after.run.log[5].Unlinked?
  {
    ReportsAt();
    var es := [Entry("a", OneFile()), Entry("b", OneFile())];
    SecondUnlinks(env, SWEPT[0], r);
    SweepProcess(env, SWEPT[0], es, r);
    assert SweepChildren(env, SWEPT[0], es, r).run.log[3] == Observe(env, r).1.log[3];
  }

  // ----- Cleaning a target

  const TARGET: CacheDirInfo := CacheDirInfo(["cache"], "com.example", 0, false)

  /** A target with a directory that holds one file of five bytes which cannot be removed. */
  function StuckFile(): Node { OneChild("cache", OneChild("d", OneChild("f", Leaf(PlainFile, 5, false)))) }

  lemma {:induction false} StuckShape()
    ensures var d := OneChild("f", Leaf(PlainFile, 5, false));
      && d.Dir? && Traversable(d) && Slim(d, 1) && Visits(d) == 1 && Residue(d) == Some(d) && Size(d) == 5
  {
    var d := OneChild("f", Leaf(PlainFile, 5, false));
    assert d.entries[1..] == [];
    assert ResidueOf(d.entries) == d.entries;
    assert OwnRemovable(d.entries) == 0;
  }

  lemma {:induction false} StuckTarget(env: Env, path: Path, r: Run)
    requires env.config.maxFilesPerBatch >= 1 && !env.obs(r.observed).screenOn
    ensures var es := [Entry("d", OneChild("f", Leaf(PlainFile, 5, false)))];
      RemoveChildren(env, path, es, r).ok && ResidueOf(es) == es && SizeOf(es) == 5
  {
    var d := OneChild("f", Leaf(PlainFile, 5, false));
    var es := [Entry("d", d)];
    StuckShape();
    SlimMore(d, 1, env.config.maxFilesPerBatch);
    assert es[1..] == [];
    assert VisitsIn(es) == 1;
    ChildrenVerdict(env, path, es, r);
  }

  lemma {:induction false} SlimMore(n: Node, limit: int, more: int)
    requires Slim(n, limit) && limit <= more
    ensures Slim(n, more)
  {
    if n.Dir? {
      forall e | e in n.entries ensures Slim(e.node, more) { SlimMore(e.node, limit, more); }
    }
  }

  /** The recorded size is wrong here: 0 for a target that still holds five bytes. */
  lemma {:induction false} RecordedEmptyIsWrong(env: Env)
    requires env.config.maxFilesPerBatch >= 1 && !env.obs(0).screenOn
    ensures var (after, ok) := CleanDirectory(env, Fresh(StuckFile()), TARGET);
      ok && Get(after.store, TARGET.pkgName).lastSizeBytes == 0 && DirectorySize(At(after.root, TARGET.path)) == 5
  {
    var w := Fresh(StuckFile());
    var es := [Entry("d", OneChild("f", Leaf(PlainFile, 5, false)))];
    var cache := OneChild("d", es[0].node);
    AtOneChild("cache", cache);
    StuckTarget(env, TARGET.path, w.run);
    ChildrenLeaveResidue(env, TARGET.path, es, w.run);
    StuckFormed();
    AtPut(w.root, TARGET.path, Some(cache));
  }

  lemma {:induction false} StuckFormed()
    ensures WellFormed(StuckFile())
  {
    var d := OneChild("f", Leaf(PlainFile, 5, false));
    assert WellFormed(d);
    assert WellFormed(OneChild("d", d));
  }

  /** A target with a plain file beside a directory that could be removed. */
  function PlainFileInside(): Node {
    OneChild("cache", Dir(true, true, [Entry("f", Leaf(PlainFile, 5, true)), Entry("d", Dir(true, true, []))]))
  }

  /** The plain file aborts the clean before anything is removed, whatever the device shows. */
  lemma {:induction false} PlainFileAborts(env: Env)
    ensures CleanDirectory(env, Fresh(PlainFileInside()), TARGET) == (Fresh(PlainFileInside()), false)
  {
    var es := [Entry("f", Leaf(PlainFile, 5, true)), Entry("d", Dir(true, true, []))];
    var cache := Dir(true, true, es);
    AtOneChild("cache", cache);
    assert Kept("f", Some(es[0].node)) + es[1..] == es;
    PutSame(Fresh(PlainFileInside()).root, TARGET.path);
  }
}

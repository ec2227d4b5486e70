/** Which cleans succeed and what a sweep does, as conditions on what lies ahead of the call. */
module MaintenanceVerdict {
  import opened Basics
  import opened FileTree
  import opened Phone
  import opened Cleaning
  import opened CleaningRuns
  import opened CleaningConservation
  import opened CleaningResidue
  import opened CleaningBudget
  import opened CleaningVerdict
  import opened CacheAnalysis
  import opened Maintenance
  import opened MaintenanceRuns
  import opened CleaningHistory

  // ----- Cleaning a target

  /** The observations a complete clean makes: none for the children of the target themselves. */
  function VisitsIn(es: seq<Entry>): nat {
    if es == [] then 0 else Visits(es[0].node) + VisitsIn(es[1..])
  }

  lemma {:induction false} ChildrenVerdict(env: Env, path: Path, es: seq<Entry>, r: Run)
    requires SlimAll(es, env.config.maxFilesPerBatch) || Room(env, r, SizeOf(es))
    ensures var pass := RemoveChildren(env, path, es, r);
      && (pass.ok <==> AllTraversable(es) && Dark(env, r.observed, VisitsIn(es)))
      && (pass.ok ==> pass.run.observed == r.observed + VisitsIn(es) && pass.run.bytes <= r.bytes + SizeOf(es))
  {
    if es != [] {
      var o := RemoveTree(env, path + [es[0].name], es[0].node, r);
      TreeVerdict(env, path + [es[0].name], es[0].node, r);
      DarkSplits(env, r.observed, Visits(es[0].node), VisitsIn(es[1..]));
      AllTraversableSplits(es);
      if o.ok { ChildrenVerdict(env, path, es[1..], o.run); }
    }
  }

  lemma {:induction false} ChildrenOverBudget(env: Env, path: Path, es: seq<Entry>, r: Run)
    requires OverBudget(env, r) && env.config.maxFilesPerBatch >= 1 && RemoveChildren(env, path, es, r).ok
    ensures SlimAll(es, env.config.maxFilesPerBatch)
  {
    if es != [] {
      TreeOverBudget(env, path + [es[0].name], es[0].node, r);
      TreeBalance(env, path + [es[0].name], es[0].node, r);
      ChildrenOverBudget(env, path, es[1..], RemoveTree(env, path + [es[0].name], es[0].node, r).run);
      forall e | e in es ensures Slim(e.node, env.config.maxFilesPerBatch) { assert e == es[0] || e in es[1..]; }
    }
  }

  /** What makes up the target's verdict besides the budget: only listable directory trees in it, and a dark screen. */
  ghost predicate Cleanable(env: Env, es: seq<Entry>, from: nat) {
    AllTraversable(es) && Dark(env, from, VisitsIn(es))
  }

  /**
   * With room in the budget for the whole target, a clean succeeds exactly when the target
   * cannot be listed, or holds nothing but listable directory trees and the screen stays
   * off for as many observations as there are nodes below its children.
   */
  lemma {:induction false} CleanWithRoomExactlyWhen(env: Env, w: World, d: CacheDirInfo)
    requires Room(env, w.run, DirectorySize(At(w.root, d.path)))
    ensures CleanDirectory(env, w, d).1 <==>
      !Listable(At(w.root, d.path)) || Cleanable(env, At(w.root, d.path).value.entries, w.run.observed)
  {
    if Listable(At(w.root, d.path)) { ChildrenVerdict(env, d.path, At(w.root, d.path).value.entries, w.run); }
  }

  /**
   * Over budget the same holds of the targets without a full batch in any directory below them, and no
   * others can be cleaned.
   */
  lemma {:induction false} CleanOverBudgetExactlyWhen(env: Env, w: World, d: CacheDirInfo)
    requires OverBudget(env, w.run) && env.config.maxFilesPerBatch >= 1
    ensures CleanDirectory(env, w, d).1 <==>
      || !Listable(At(w.root, d.path))
      || (Cleanable(env, At(w.root, d.path).value.entries, w.run.observed) &&
          SlimAll(At(w.root, d.path).value.entries, env.config.maxFilesPerBatch))
  {
    if Listable(At(w.root, d.path)) {
      var es := At(w.root, d.path).value.entries;
      if RemoveChildren(env, d.path, es, w.run).ok { ChildrenOverBudget(env, d.path, es, w.run); }
      if SlimAll(es, env.config.maxFilesPerBatch) { ChildrenVerdict(env, d.path, es, w.run); }
    }
  }

  /** Empty directories that can be listed and removed. */
  ghost predicate AllEmpty(es: seq<Entry>) { forall e :: e in es ==> e.node == Dir(true, true, []) }

  lemma {:induction false} EmptyChildren(env: Env, path: Path, es: seq<Entry>, r: Run)
    requires AllEmpty(es)
    ensures var pass := RemoveChildren(env, path, es, r); pass.ok && pass.left == [] && pass.run.observed == r.observed
  {
    if es != [] {
      var o := RemoveTree(env, path + [es[0].name], es[0].node, r);
      assert RemoveEntries(env, path + [es[0].name], [], 0, 0, r) == Pass([], r, true, 0, 0, []);
      EmptyChildren(env, path, es[1..], o.run);
      assert Kept(es[0].name, o.left) == [];
    }
  }

  /** Empty directories inside a target go without a single look at the screen, whether it is on or off. */
  lemma {:induction false} EmptyDirectoriesUnobserved(env: Env, w: World, d: CacheDirInfo)
    requires WellFormedRoot(w.root) && Listable(At(w.root, d.path)) && AllEmpty(At(w.root, d.path).value.entries)
    ensures var (after, ok) := CleanDirectory(env, w, d);
      && ok && after.run.observed == w.run.observed
      && At(after.root, d.path) == Some(At(w.root, d.path).value.(entries := []))
  {
    EmptyChildren(env, d.path, At(w.root, d.path).value.entries, w.run);
    AtPut(w.root, d.path, Some(At(w.root, d.path).value.(entries := [])));
  }

  // ----- Sweeping

  /** A sweep is the sweep of its first `k` entries and then that of the others. */
  lemma {:induction false} SweepSplits(env: Env, path: Path, es: seq<Entry>, k: nat, r: Run)
    requires k <= |es|
    ensures var whole := SweepChildren(env, path, es, r);
      var front := SweepChildren(env, path, es[..k], r);
      var back := SweepChildren(env, path, es[k..], front.run);
      whole.left == front.left + back.left && whole.run == back.run
  {
    if k == 0 {
      assert es[..0] == [] && es[0..] == es;
    } else {
      var e, front := es[0], es[..k];
      var (left, run) := SweepEntry(env, path, e, r);
      CutBehindFirst(es, k);
      SweepSplits(env, path, es[1..], k - 1, run);
      var mid := SweepChildren(env, path, front[1..], run);
      Associative(Kept(e.name, left), mid.left, SweepChildren(env, path, es[k..], mid.run).left);
    }
  }

  lemma {:induction false} CutBehindFirst(es: seq<Entry>, k: nat)
    requires 0 < k <= |es|
    ensures es[..k][0] == es[0] && es[..k][1..] == es[1..][..k - 1] && es[1..][k - 1..] == es[k..]
  {
  }

  /** The screen is on, or off, at every observation from `from` on. */
  ghost predicate Always(env: Env, from: nat, on: bool) { forall i: nat :: from <= i ==> env.obs(i).screenOn == on }

  /** What is left of an entry that is swept while the screen is on. */
  function Untouched(e: Entry): Option<Node> {
    if !Protected(e.name) && e.node == Dir(true, true, []) then None else Some(e.node)
  }

  function UntouchedOf(es: seq<Entry>): seq<Entry> {
    if es == [] then [] else Kept(es[0].name, Untouched(es[0])) + UntouchedOf(es[1..])
  }

  lemma {:induction false} TreeScreenOn(env: Env, path: Path, n: Node, r: Run)
    requires Always(env, r.observed, true)
    ensures var o := RemoveTree(env, path, n, r);
      && o.left == (if n == Dir(true, true, []) then None else Some(n))
      && r.observed <= o.run.observed && UnlinkedFiles(o.run.log) == UnlinkedFiles(r.log)
  {
    if n.Dir? && n.readable {
      if n.entries == [] {
        var run := EndBatch(env, r, 0, 0, true).1;
        AppendCounts(r.log, run.log[|run.log| - 1]);
        AppendCounts(run.log, RemovedDir(path));
      } else {
        ObserveCounts(env, r);
        var e, lost := n.entries[0], [Tally(0, 0)];
        assert Kept(e.name, Some(e.node)) + n.entries[1..] == n.entries;
        assert Visit(env, path + [e.name], e.node, 0, 0, r) == Step(Some(e.node), Observe(env, r).1, false, 0, 0, lost);
        assert RemoveEntries(env, path, n.entries, 0, 0, r) == Pass(n.entries, Observe(env, r).1, false, 0, 0, lost);
      }
    }
  }

  lemma {:induction false} SweepScreenOn(env: Env, path: Path, es: seq<Entry>, r: Run)
    requires Always(env, r.observed, true)
    ensures var pass := SweepChildren(env, path, es, r);
      pass.left == UntouchedOf(es) && UnlinkedFiles(pass.run.log) == UnlinkedFiles(r.log)
  {
    if es != [] {
      TreeScreenOn(env, path + [es[0].name], es[0].node, r);
      SweepScreenOn(env, path, es[1..], SweepEntry(env, path, es[0], r).1);
    }
  }

  /**
   * A sweep does not stop when the screen comes on, but from then on it takes nothing but
   * empty directories: no file is unlinked, and every other entry stays as it is.
   */
  lemma {:induction false} SweepUnderLitScreen(env: Env, path: Path, es: seq<Entry>, k: nat, r: Run)
    requires k <= |es|
    requires Always(env, SweepChildren(env, path, es[..k], r).run.observed, true)
    ensures var front, whole := SweepChildren(env, path, es[..k], r), SweepChildren(env, path, es, r);
      && whole.left == front.left + UntouchedOf(es[k..])
      && UnlinkedFiles(whole.run.log) == UnlinkedFiles(front.run.log)
  {
    SweepSplits(env, path, es, k, r);
    SweepScreenOn(env, path, es[k..], SweepChildren(env, path, es[..k], r).run);
  }

  /** The entry is swept clean: a directory tree that can be listed throughout and is not protected. */
  ghost predicate Sweepable(e: Entry) { !Protected(e.name) && e.node.Dir? && Traversable(e.node) }

  lemma {:induction false} SweepEntryOff(env: Env, path: Path, e: Entry, r: Run)
    requires RunInv(env, r) && Always(env, r.observed, false)
    requires Slim(e.node, env.config.maxFilesPerBatch) || Room(env, r, Size(e.node))
    ensures var (left, run) := SweepEntry(env, path, e, r);
      && RunInv(env, run) && r.observed <= run.observed && run.bytes <= r.bytes + Size(e.node)
      && (Sweepable(e) ==> left == Residue(e.node))
  {
    TreeRuns(env, path + [e.name], e.node, r);
    TreeVerdict(env, path + [e.name], e.node, r);
    TreeLeavesResidue(env, path + [e.name], e.node, r);
    Conservation(env, path + [e.name], e.node, r);
  }

  lemma {:induction false} SweepNoNewNames(env: Env, path: Path, es: seq<Entry>, r: Run, name: string)
    requires Find(es, name).None?
    ensures Find(SweepChildren(env, path, es, r).left, name).None?
  {
    if es != [] {
      var (left, run) := SweepEntry(env, path, es[0], r);
      SweepNoNewNames(env, path, es[1..], run, name);
      FindOfKept(es[0].name, left, SweepChildren(env, path, es[1..], run).left, name);
    }
  }

  lemma {:induction false} SweepOff(env: Env, path: Path, es: seq<Entry>, r: Run, i: nat)
    requires RunInv(env, r) && Always(env, r.observed, false) && Distinct(es)
    requires SlimAll(es, env.config.maxFilesPerBatch) || Room(env, r, SizeOf(es))
    requires i < |es| && Sweepable(es[i])
    ensures Find(SweepChildren(env, path, es, r).left, es[i].name) == Residue(es[i].node)
  {
    var (left, run) := SweepEntry(env, path, es[0], r);
    var rest := SweepChildren(env, path, es[1..], run).left;
    SweepEntryOff(env, path, es[0], r);
    FindOfKept(es[0].name, left, rest, es[i].name);
    if i == 0 {
      FindWitness(es[1..], es[0].name);
      SweepNoNewNames(env, path, es[1..], run, es[0].name);
    } else {
      SweepOff(env, path, es[1..], run, i - 1);
    }
  }

  lemma {:induction false} FindInSecond(a: seq<Entry>, b: seq<Entry>, name: string)
    requires Find(a, name).None?
    ensures Find(a + b, name) == Find(b, name)
  {
    if a == [] {
      assert a + b == b;
    } else {
      FindInSecond(a[1..], b, name);
      assert (a + b)[1..] == a[1..] + b;
    }
  }

  lemma {:induction false} LaterEntry(es: seq<Entry>, k: nat, i: nat)
    requires Distinct(es) && k <= i < |es|
    ensures Distinct(es[k..]) && es[k..][i - k] == es[i] && Find(es[..k], es[i].name).None?
  {
    FindWitness(es[..k], es[i].name);
  }

  /**
   * A sweep goes on after an abort, in every run: whatever halted the removals so far, once
   * the screen stays off each remaining listable directory tree that is not protected is
   * removed down to what resists removal, unless the budget stops it.
   */
  lemma {:induction false} SweepGoesOn(env: Env, path: Path, es: seq<Entry>, k: nat, r: Run, i: nat)
    requires ProcessInv(env, r) && Distinct(es) && k <= i < |es| && Sweepable(es[i])
    requires var mid := SweepChildren(env, path, es[..k], r).run;
      && Always(env, mid.observed, false)
      && (SlimAll(es[k..], env.config.maxFilesPerBatch) || Room(env, mid, SizeOf(es[k..])))
    ensures Find(SweepChildren(env, path, es, r).left, es[i].name) == Residue(es[i].node)
  {
    var front := SweepChildren(env, path, es[..k], r);
    SweepProcess(env, path, es[..k], r);
    SweepSplits(env, path, es, k, r);
    LaterEntry(es, k, i);
    SweepOff(env, path, es[k..], front.run, i - k);
    SweepNoNewNames(env, path, es[..k], r, es[i].name);
    FindInSecond(front.left, SweepChildren(env, path, es[k..], front.run).left, es[i].name);
  }
}

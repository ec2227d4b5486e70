/** What every maintenance does to the log, the totals and the tree. */
module MaintenanceRuns {
  import opened Basics
  import opened FileTree
  import opened StateStorage
  import opened Phone
  import opened Cleaning
  import opened CleaningRuns
  import opened CleaningConservation
  import opened CleaningResidue
  import opened CacheAnalysis
  import opened Maintenance

  /** The invariant of the process: the run invariant, and totals that never claim more than was unlinked. */
  ghost predicate ProcessInv(env: Env, r: Run) {
    RunInv(env, r) && r.bytes <= UnlinkedBytes(r.log) && r.files <= UnlinkedFiles(r.log)
  }

  ghost predicate Later(r: Run, s: Run) { r.log <= s.log && r.observed <= s.observed }

  lemma {:induction false} LaterChain(r: Run, s: Run, t: Run, ok: bool)
    requires Later(r, s) && HaltsLast(r, s, true) && Later(s, t) && HaltsLast(s, t, ok)
    ensures Later(r, t) && HaltsLast(r, t, ok)
    ensures EndsInHalt(s, t) ==> EndsInHalt(r, t)
  {
    forall i | |r.log| <= i < |s.log| ensures t.log[i] == s.log[i] { }
  }

  lemma {:induction false} ObserveProcess(env: Env, r: Run)
    requires ProcessInv(env, r)
    ensures var (idle, s) := Observe(env, r);
      ProcessInv(env, s) && Follows(r, s) && HaltsLast(r, s, !idle.NotIdle?) && (idle.NotIdle? ==> EndsInHalt(r, s))
  {
    ObserveRuns(env, r);
    ObserveCounts(env, r);
  }

  lemma {:induction false} TreeProcess(env: Env, path: Path, n: Node, r: Run)
    requires ProcessInv(env, r)
    ensures var o := RemoveTree(env, path, n, r);
      ProcessInv(env, o.run) && Follows(r, o.run) && HaltsLast(r, o.run, o.ok)
  {
    TreeRuns(env, path, n, r);
    Conservation(env, path, n, r);
  }

  lemma {:induction false} LoggedProcess(env: Env, r: Run, e: Event)
    requires ProcessInv(env, r) && (e.Cleaned? || e.Analyzed?)
    ensures var s := Logged(r, e); ProcessInv(env, s) && Later(r, s) && HaltsLast(r, s, true)
  {
    AppendInv(env, r, e);
    AppendCounts(r.log, e);
  }

  // ----- Cleaning targets

  /** Whether every child of a target can be removed as a directory tree. */
  ghost predicate AllTraversable(es: seq<Entry>) { forall e :: e in es ==> e.node.Dir? && Traversable(e.node) }

  lemma {:induction false} AllTraversableSplits(es: seq<Entry>)
    requires es != []
    ensures AllTraversable(es) <==> es[0].node.Dir? && Traversable(es[0].node) && AllTraversable(es[1..])
  {
    forall e | AllTraversable(es[1..]) && es[0].node.Dir? && Traversable(es[0].node) && e in es
      ensures e.node.Dir? && Traversable(e.node)
    {
      assert e == es[0] || e in es[1..];
    }
  }

  lemma {:induction false} ChildrenFollow(env: Env, path: Path, es: seq<Entry>, r: Run)
    requires ProcessInv(env, r)
    ensures var pass := RemoveChildren(env, path, es, r);
      ProcessInv(env, pass.run) && Follows(r, pass.run) && HaltsLast(r, pass.run, pass.ok)
  {
    if es != [] {
      var o := RemoveTree(env, path + [es[0].name], es[0].node, r);
      TreeProcess(env, path + [es[0].name], es[0].node, r);
      if o.ok {
        ChildrenFollow(env, path, es[1..], o.run);
        var pass := RemoveChildren(env, path, es[1..], o.run);
        Chain(r, o.run, pass.run, pass.ok);
      }
    }
  }

  lemma {:induction false} ChildrenLeaveResidue(env: Env, path: Path, es: seq<Entry>, r: Run)
    ensures RemoveChildren(env, path, es, r).ok ==> RemoveChildren(env, path, es, r).left == ResidueOf(es)
  {
    if es != [] {
      var o := RemoveTree(env, path + [es[0].name], es[0].node, r);
      TreeLeavesResidue(env, path + [es[0].name], es[0].node, r);
      if o.ok { ChildrenLeaveResidue(env, path, es[1..], o.run); }
    }
  }

  /** The children are all removed, or one of them cannot be listed, or something halts. */
  lemma {:induction false} ChildrenStop(env: Env, path: Path, es: seq<Entry>, r: Run)
    requires ProcessInv(env, r)
    ensures var pass := RemoveChildren(env, path, es, r);
      && (pass.ok ==> AllTraversable(es))
      && (!pass.ok && AllTraversable(es) ==> EndsInHalt(r, pass.run))
  {
    if es != [] {
      var o := RemoveTree(env, path + [es[0].name], es[0].node, r);
      AllTraversableSplits(es);
      TreeRuns(env, path + [es[0].name], es[0].node, r);
      if o.ok {
        TreeProcess(env, path + [es[0].name], es[0].node, r);
        ChildrenFollow(env, path, es[1..], o.run);
        ChildrenStop(env, path, es[1..], o.run);
        var pass := RemoveChildren(env, path, es[1..], o.run);
        Chain(r, o.run, pass.run, pass.ok);
      }
    }
  }

  lemma {:induction false} ChildrenProcess(env: Env, path: Path, es: seq<Entry>, r: Run)
    requires ProcessInv(env, r)
    ensures var pass := RemoveChildren(env, path, es, r);
      && ProcessInv(env, pass.run) && Follows(r, pass.run) && HaltsLast(r, pass.run, pass.ok)
      && (pass.ok ==> AllTraversable(es) && pass.left == ResidueOf(es))
      && (!pass.ok && AllTraversable(es) ==> EndsInHalt(r, pass.run))
  {
    ChildrenFollow(env, path, es, r);
    ChildrenLeaveResidue(env, path, es, r);
    ChildrenStop(env, path, es, r);
  }

  lemma {:induction false} DirectoryProcess(env: Env, w: World, d: CacheDirInfo)
    requires ProcessInv(env, w.run)
    ensures var (after, ok) := CleanDirectory(env, w, d);
      ProcessInv(env, after.run) && Later(w.run, after.run) && HaltsLast(w.run, after.run, ok)
  {
    var n := At(w.root, d.path);
    if Listable(n) {
      var pass := RemoveChildren(env, d.path, n.value.entries, w.run);
      ChildrenProcess(env, d.path, n.value.entries, w.run);
      if pass.ok {
        var e := Cleaned(d.pkgName, env.wall(w.clocked));
        LoggedProcess(env, pass.run, e);
        LaterChain(w.run, pass.run, Logged(pass.run, e), true);
      }
    }
  }

  /**
   * When a clean succeeds, for every target and environment: exactly when the target cannot
   * be listed at all, or holds nothing but listable directory trees and nothing halts. One
   * plain file or symlink directly inside a target is enough to abort it.
   */
  lemma {:induction false} CleanSucceedsExactlyWhen(env: Env, w: World, d: CacheDirInfo)
    requires ProcessInv(env, w.run)
    ensures var (after, ok) := CleanDirectory(env, w, d);
      ok <==> !Listable(At(w.root, d.path)) ||
              (AllTraversable(At(w.root, d.path).value.entries) &&
               forall i :: |w.run.log| <= i < |after.run.log| ==> !Halts(after.run.log[i]))
  {
    DirectoryProcess(env, w, d);
    if Listable(At(w.root, d.path)) {
      ChildrenProcess(env, d.path, At(w.root, d.path).value.entries, w.run);
    }
  }

  /**
   * After a successful clean the record claims an empty cache. That is what is on disk
   * exactly when nothing with a size resisted removal.
   */
  lemma {:induction false} RecordedEmptyExactlyWhen(env: Env, w: World, d: CacheDirInfo)
    requires ProcessInv(env, w.run) && WellFormedRoot(w.root)
    requires Listable(At(w.root, d.path)) && CleanDirectory(env, w, d).1
    ensures var after := CleanDirectory(env, w, d).0;
      Get(after.store, d.pkgName).lastSizeBytes == DirectorySize(At(after.root, d.path)) <==>
      SizeOf(ResidueOf(At(w.root, d.path).value.entries)) == 0
  {
    var n := At(w.root, d.path).value;
    ChildrenProcess(env, d.path, n.entries, w.run);
    AtPut(w.root, d.path, Some(n.(entries := ResidueOf(n.entries))));
  }

  lemma {:induction false} ChildrenConserve(env: Env, path: Path, es: seq<Entry>, r: Run)
    ensures var pass := RemoveChildren(env, path, es, r);
      && SizeOf(es) == SizeOf(pass.left) + UnlinkedBytes(pass.run.log) - UnlinkedBytes(r.log)
      && LeavesOf(es) == LeavesOf(pass.left) + UnlinkedFiles(pass.run.log) - UnlinkedFiles(r.log)
  {
    if es != [] {
      var o := RemoveTree(env, path + [es[0].name], es[0].node, r);
      Conservation(env, path + [es[0].name], es[0].node, r);
      if o.ok {
        ChildrenConserve(env, path, es[1..], o.run);
        LoadOfKept(es[0].name, o.left, RemoveChildren(env, path, es[1..], o.run).left);
      } else {
        LoadOfKept(es[0].name, o.left, es[1..]);
      }
    }
  }

  /** A target's measured size is what cleaning it unlinked plus its measured size afterwards, aborted or not. */
  lemma {:induction false} TargetConservation(env: Env, w: World, d: CacheDirInfo)
    requires WellFormedRoot(w.root)
    ensures var after := CleanDirectory(env, w, d).0;
      DirectorySize(At(w.root, d.path)) ==
      DirectorySize(At(after.root, d.path)) + UnlinkedBytes(after.run.log) - UnlinkedBytes(w.run.log)
  {
    var n := At(w.root, d.path);
    if Listable(n) {
      var pass := RemoveChildren(env, d.path, n.value.entries, w.run);
      ChildrenConserve(env, d.path, n.value.entries, w.run);
      AtPut(w.root, d.path, Some(n.value.(entries := pass.left)));
      AppendCounts(pass.run.log, Cleaned(d.pkgName, env.wall(w.clocked)));
    }
  }

  lemma {:induction false} TargetsProcess(env: Env, w: World, ts: seq<MaintenanceTarget>)
    requires ProcessInv(env, w.run)
    ensures var p := CleanTargets(env, w, ts);
      ProcessInv(env, p.world.run) && Later(w.run, p.world.run) && HaltsLast(w.run, p.world.run, p.ok)
    decreases |ts|
  {
    if ts != [] {
      var (idle, run) := Observe(env, w.run);
      ObserveProcess(env, w.run);
      if !idle.NotIdle? {
        var (after, ok) := CleanDirectory(env, w.(run := run), ts[0].cacheDir);
        DirectoryProcess(env, w.(run := run), ts[0].cacheDir);
        LaterChain(w.run, run, after.run, ok);
        if ok {
          TargetsProcess(env, after, ts[1..]);
          var rest := CleanTargets(env, after, ts[1..]);
          LaterChain(w.run, after.run, rest.world.run, rest.ok);
        }
      }
    }
  }

  /** Abort is final in the target loop: no unlink, removal or anything else follows a `NotIdle` observation. */
  lemma {:induction false} AbortIsFinal(env: Env, w: World, ts: seq<MaintenanceTarget>, i: nat)
    requires ProcessInv(env, w.run)
    requires var log := CleanTargets(env, w, ts).world.run.log;
      |w.run.log| <= i < |log| && log[i].Observed? && log[i].idle.NotIdle?
    ensures var p := CleanTargets(env, w, ts); !p.ok && i == |p.world.run.log| - 1
  {
    TargetsProcess(env, w, ts);
  }

  // ----- Rank

  ghost predicate Incomparable(p: Path, q: Path) { !(p <= q) && !(q <= p) }

  ghost predicate Separate(ts: seq<MaintenanceTarget>) {
    forall i, j :: 0 <= i < j < |ts| ==> Incomparable(ts[i].cacheDir.path, ts[j].cacheDir.path)
  }

  lemma {:induction false} DirectoryElsewhere(env: Env, w: World, d: CacheDirInfo, q: Path)
    requires WellFormedRoot(w.root) && Incomparable(d.path, q)
    ensures At(CleanDirectory(env, w, d).0.root, q) == At(w.root, q)
  {
    var n := At(w.root, d.path);
    if Listable(n) {
      var left := RemoveChildren(env, d.path, n.value.entries, w.run).left;
      PutElsewhere(w.root, d.path, Some(n.value.(entries := left)), q);
    }
  }
}

/** Which targets a possibly aborted maintenance gets to, and what it leaves elsewhere. */
module MaintenanceTargets {
  import opened Basics
  import opened FileTree
  import opened IdleDetection
  import opened Phone
  import opened Cleaning
  import opened CleaningResidue
  import opened CleaningBudget
  import opened CleaningShape
  import opened CleaningSettled
  import opened CacheAnalysis
  import opened CacheAnalyzer
  import opened Maintenance
  import opened MaintenanceRuns

  lemma {:induction false} ChildrenWellFormed(env: Env, path: Path, es: seq<Entry>, r: Run)
    requires WellFormedList(es)
    ensures var left := RemoveChildren(env, path, es, r).left; WellFormedList(left) && NamesWithin(left, es)
  {
    if es != [] {
      var e, rest := es[0], es[1..];
      var o := RemoveTree(env, path + [e.name], e.node, r);
      RemovalWellFormed(env, path + [e.name], e.node, r);
      OthersDiffer(es);
      ChildrenWellFormed(env, path, rest, o.run);
      ConsWellFormed(e.name, o.left, if o.ok then RemoveChildren(env, path, rest, o.run).left else rest, rest);
    }
  }

  lemma {:induction false} DirectoryWellFormed(env: Env, w: World, d: CacheDirInfo)
    requires WellFormedRoot(w.root)
    ensures WellFormedRoot(CleanDirectory(env, w, d).0.root)
  {
    var n := At(w.root, d.path);
    if Listable(n) {
      AtWellFormed(w.root, d.path);
      ChildrenWellFormed(env, d.path, n.value.entries, w.run);
      var left := RemoveChildren(env, d.path, n.value.entries, w.run).left;
      PutWellFormed(w.root, d.path, Some(n.value.(entries := left)));
    }
  }

  // ----- What the target loop leaves alone

  /** None of the first `n` targets lies above or below `q`, or at it. */
  ghost predicate ClearOf(ts: seq<MaintenanceTarget>, n: nat, q: Path)
    requires n <= |ts|
  {
    forall i :: 0 <= i < n ==> Incomparable(ts[i].cacheDir.path, q)
  }

  /** None of the first `n` targets other than target `k` lies above or below it, or at the same path. */
  ghost predicate ClearOfOthers(ts: seq<MaintenanceTarget>, n: nat, k: nat)
    requires n <= |ts| && k < |ts|
  {
    forall i :: 0 <= i < n && i != k ==> Incomparable(ts[i].cacheDir.path, ts[k].cacheDir.path)
  }

  lemma {:induction false} ClearRest(ts: seq<MaintenanceTarget>, n: nat, q: Path)
    requires 0 < n <= |ts| && ClearOf(ts, n, q)
    ensures Incomparable(ts[0].cacheDir.path, q) && ClearOf(ts[1..], n - 1, q)
  {
  }

  lemma {:induction false} ClearOfFirst(ts: seq<MaintenanceTarget>, n: nat)
    requires 0 < n <= |ts| && ClearOfOthers(ts, n, 0)
    ensures ClearOf(ts[1..], n - 1, ts[0].cacheDir.path)
  {
  }

  lemma {:induction false} ClearOfLater(ts: seq<MaintenanceTarget>, n: nat, k: nat)
    requires 0 < n <= |ts| && 0 < k < |ts| && ClearOfOthers(ts, n, k)
    ensures Incomparable(ts[0].cacheDir.path, ts[k].cacheDir.path) && ClearOfOthers(ts[1..], n - 1, k - 1)
  {
    assert ts[1..][k - 1] == ts[k];
  }

  /** The world in which the first turn of the loop leaves things. */
  function FirstTurn(env: Env, w: World, ts: seq<MaintenanceTarget>): World
    requires ts != []
  {
    CleanDirectory(env, w.(run := Observe(env, w.run).1), ts[0].cacheDir).0
  }

  /** How the loop relates to its rest behind a first turn that completes. */
  lemma {:induction false} LoopRest(env: Env, w: World, ts: seq<MaintenanceTarget>)
    requires ts != [] && CleanTargets(env, w, ts).done > 0
    ensures !Observe(env, w.run).0.NotIdle? && CleanDirectory(env, w.(run := Observe(env, w.run).1), ts[0].cacheDir).1
    ensures var p, rest := CleanTargets(env, w, ts), CleanTargets(env, FirstTurn(env, w, ts), ts[1..]);
      p == rest.(done := rest.done + 1, begun := rest.begun + 1)
  {
  }

  lemma {:induction false} LoopStopped(env: Env, w: World, ts: seq<MaintenanceTarget>)
    requires ts != [] && CleanTargets(env, w, ts).done == 0
    ensures var p := CleanTargets(env, w, ts);
      && (p.begun == 0 ==> p.world.root == w.root)
      && (p.begun > 0 ==> p.begun == 1 && p.world == FirstTurn(env, w, ts))
  {
  }

  /** Cleaning leaves every path alone that is not above, below or at a target it was begun on. */
  lemma {:induction false} TargetsElsewhere(env: Env, w: World, ts: seq<MaintenanceTarget>, q: Path)
    requires WellFormedRoot(w.root) && ClearOf(ts, CleanTargets(env, w, ts).begun, q)
    ensures At(CleanTargets(env, w, ts).world.root, q) == At(w.root, q)
    decreases |ts|
  {
    var p := CleanTargets(env, w, ts);
    if p.begun > 0 {
      var v := w.(run := Observe(env, w.run).1);
      ClearRest(ts, p.begun, q);
      DirectoryElsewhere(env, v, ts[0].cacheDir, q);
      if p.done > 0 {
        LoopRest(env, w, ts);
        DirectoryWellFormed(env, v, ts[0].cacheDir);
        TargetsElsewhere(env, FirstTurn(env, w, ts), ts[1..], q);
      } else {
        LoopStopped(env, w, ts);
      }
    } else if ts != [] {
      LoopStopped(env, w, ts);
    }
  }

  // ----- What it makes of the targets it processes

  /** A processed target holds its residue; one that could not be listed is as before. */
  ghost predicate Processed(before: Option<Node>, after: Option<Node>) {
    after == if Listable(before) then Some(before.value.(entries := ResidueOf(before.value.entries))) else before
  }

  lemma {:induction false} DirectoryProcessed(env: Env, w: World, d: CacheDirInfo)
    requires WellFormedRoot(w.root) && CleanDirectory(env, w, d).1
    ensures Processed(At(w.root, d.path), At(CleanDirectory(env, w, d).0.root, d.path))
  {
    var n := At(w.root, d.path);
    if Listable(n) {
      ChildrenLeaveResidue(env, d.path, n.value.entries, w.run);
      AtPut(w.root, d.path, Some(n.value.(entries := ResidueOf(n.value.entries))));
    }
  }

  lemma {:induction false} ProcessedSettled(before: Option<Node>, after: Option<Node>)
    requires Processed(before, after)
    ensures Settled(after)
  {
    if Listable(before) { ResidueOfTwice(before.value.entries); }
  }

  lemma {:induction false} FirstProcessed(env: Env, w: World, ts: seq<MaintenanceTarget>)
    requires WellFormedRoot(w.root) && 0 < CleanTargets(env, w, ts).done
    requires ClearOfOthers(ts, CleanTargets(env, w, ts).begun, 0)
    ensures Processed(At(w.root, ts[0].cacheDir.path), At(CleanTargets(env, w, ts).world.root, ts[0].cacheDir.path))
  {
    var v := w.(run := Observe(env, w.run).1);
    LoopRest(env, w, ts);
    DirectoryWellFormed(env, v, ts[0].cacheDir);
    DirectoryProcessed(env, v, ts[0].cacheDir);
    ClearOfFirst(ts, CleanTargets(env, w, ts).begun);
    TargetsElsewhere(env, FirstTurn(env, w, ts), ts[1..], ts[0].cacheDir.path);
  }

  /** Target `k`, processed and with no other target around it: it is left with exactly its residue. */
  lemma {:induction false} TargetProcessed(env: Env, w: World, ts: seq<MaintenanceTarget>, k: nat)
    requires WellFormedRoot(w.root) && k < CleanTargets(env, w, ts).done
    requires ClearOfOthers(ts, CleanTargets(env, w, ts).begun, k)
    ensures Processed(At(w.root, ts[k].cacheDir.path), At(CleanTargets(env, w, ts).world.root, ts[k].cacheDir.path))
    decreases |ts|
  {
    if k == 0 {
      FirstProcessed(env, w, ts);
    } else {
      var v := w.(run := Observe(env, w.run).1);
      LoopRest(env, w, ts);
      DirectoryWellFormed(env, v, ts[0].cacheDir);
      ClearOfLater(ts, CleanTargets(env, w, ts).begun, k);
      DirectoryElsewhere(env, v, ts[0].cacheDir, ts[k].cacheDir.path);
      TargetProcessed(env, FirstTurn(env, w, ts), ts[1..], k - 1);
    }
  }

  // ----- Once settled, always settled: whatever else is cleaned around it

  lemma {:induction false} ChildrenNoNewNames(env: Env, path: Path, es: seq<Entry>, r: Run, name: string)
    requires Find(es, name).None?
    ensures Find(RemoveChildren(env, path, es, r).left, name).None?
  {
    if es != [] {
      var o := RemoveTree(env, path + [es[0].name], es[0].node, r);
      FindOfKept(es[0].name, o.left, es[1..], name);
      if o.ok {
        ChildrenNoNewNames(env, path, es[1..], o.run, name);
        FindOfKept(es[0].name, o.left, RemoveChildren(env, path, es[1..], o.run).left, name);
      }
    }
  }

  lemma {:induction false} ChildrenKeepSettled(env: Env, path: Path, es: seq<Entry>, r: Run, name: string, q: Path)
    requires WellFormedList(es) && Settled(At(Find(es, name), q))
    ensures Settled(At(Find(RemoveChildren(env, path, es, r).left, name), q))
  {
    if es != [] {
      var e, rest := es[0], es[1..];
      var o := RemoveTree(env, path + [e.name], e.node, r);
      RestDistinct(es);
      if e.name == name {
        TreeKeepsSettled(env, path + [e.name], e.node, r, q);
        ChildrenNoNewNames(env, path, rest, o.run, name);
      } else if o.ok {
        ChildrenKeepSettled(env, path, rest, o.run, name, q);
      }
      FindOfKept(e.name, o.left, rest, name);
      FindOfKept(e.name, o.left, RemoveChildren(env, path, rest, o.run).left, name);
    }
  }

  lemma {:induction false} NothingInChildren(env: Env, path: Path, es: seq<Entry>, r: Run)
    requires ResidueOf(es) == es
    ensures RemoveChildren(env, path, es, r).left == es
  {
    if es != [] {
      var kept := Kept(es[0].name, Residue(es[0].node));
      ResidueShrinks(es[1..]);
      assert kept != [];
      assert es[0] == kept[0] && es[1..] == (kept + ResidueOf(es[1..]))[1..] == ResidueOf(es[1..]);
      NothingToRemove(env, path + [es[0].name], es[0].node, r);
      var o := RemoveTree(env, path + [es[0].name], es[0].node, r);
      if o.ok { NothingInChildren(env, path, es[1..], o.run); }
    }
  }

  /** Cleaning above or at a settled path. */
  lemma {:induction false} CleanAboveSettled(env: Env, w: World, d: CacheDirInfo, q: Path)
    requires WellFormedRoot(w.root) && Settled(At(w.root, d.path + q))
    ensures Settled(At(CleanDirectory(env, w, d).0.root, d.path + q))
  {
    var n := At(w.root, d.path);
    if Listable(n) {
      var es := n.value.entries;
      var after := n.value.(entries := RemoveChildren(env, d.path, es, w.run).left);
      AtWellFormed(w.root, d.path);
      AtAppend(w.root, d.path, q);
      AtAppend(Put(w.root, d.path, Some(after)), d.path, q);
      AtPut(w.root, d.path, Some(after));
      if q == [] {
        NothingInChildren(env, d.path, es, w.run);
      } else {
        ChildrenKeepSettled(env, d.path, es, w.run, q[0], q[1..]);
      }
    }
  }

  /** Cleaning below a settled path finds nothing to do. */
  lemma {:induction false} CleanBelowSettled(env: Env, w: World, d: CacheDirInfo, p: Path, q: Path)
    requires WellFormedRoot(w.root) && d.path == p + q && q != [] && Settled(At(w.root, p)) && Listable(At(w.root, p))
    ensures CleanDirectory(env, w, d).0.root == w.root
  {
    var n, above := At(w.root, d.path), At(w.root, p);
    if Listable(n) {
      AtAppend(w.root, p, q);
      AtWellFormed(w.root, p);
      FixedEntry(above.value.entries, q[0]);
      FindWitness(above.value.entries, q[0]);
      FixedBelow(Find(above.value.entries, q[0]), q[1..]);
      NothingInChildren(env, d.path, n.value.entries, w.run);
      PutSame(w.root, d.path);
    }
  }

  lemma {:induction false} UnlistableAbove(env: Env, w: World, d: CacheDirInfo, p: Path, q: Path)
    requires WellFormedRoot(w.root) && d.path == p + q && q != [] && !Listable(At(w.root, p))
    ensures !Listable(At(CleanDirectory(env, w, d).0.root, p))
  {
    var n := At(w.root, d.path);
    if Listable(n) {
      var left := RemoveChildren(env, d.path, n.value.entries, w.run).left;
      assert p <= d.path;
      PutAbove(w.root, d.path, Some(n.value.(entries := left)), p);
    }
  }

  lemma {:induction false} DirectoryKeepsSettled(env: Env, w: World, d: CacheDirInfo, p: Path)
    requires WellFormedRoot(w.root) && Settled(At(w.root, p))
    ensures Settled(At(CleanDirectory(env, w, d).0.root, p))
  {
    if d.path <= p {
      assert p == d.path + p[|d.path|..];
      CleanAboveSettled(env, w, d, p[|d.path|..]);
    } else if p <= d.path {
      var q := d.path[|p|..];
      assert d.path == p + q;
      if Listable(At(w.root, p)) { CleanBelowSettled(env, w, d, p, q); } else { UnlistableAbove(env, w, d, p, q); }
    } else {
      DirectoryElsewhere(env, w, d, p);
    }
  }

  lemma {:induction false} LoopKeepsSettled(env: Env, w: World, ts: seq<MaintenanceTarget>, p: Path)
    requires WellFormedRoot(w.root) && Settled(At(w.root, p))
    ensures Settled(At(CleanTargets(env, w, ts).world.root, p))
    decreases |ts|
  {
    if ts != [] {
      var v := w.(run := Observe(env, w.run).1);
      DirectoryKeepsSettled(env, v, ts[0].cacheDir, p);
      DirectoryWellFormed(env, v, ts[0].cacheDir);
      if CleanTargets(env, w, ts).done > 0 {
        LoopRest(env, w, ts);
        LoopKeepsSettled(env, FirstTurn(env, w, ts), ts[1..], p);
      } else {
        LoopStopped(env, w, ts);
      }
    }
  }

  /** A processed target is settled at the end, whatever other targets lie around it. */
  lemma {:induction false} TargetSettled(env: Env, w: World, ts: seq<MaintenanceTarget>, k: nat)
    requires WellFormedRoot(w.root) && k < CleanTargets(env, w, ts).done
    ensures Settled(At(CleanTargets(env, w, ts).world.root, ts[k].cacheDir.path))
    decreases |ts|
  {
    var v := w.(run := Observe(env, w.run).1);
    LoopRest(env, w, ts);
    DirectoryWellFormed(env, v, ts[0].cacheDir);
    if k == 0 {
      DirectoryProcessed(env, v, ts[0].cacheDir);
      ProcessedSettled(At(v.root, ts[0].cacheDir.path), At(FirstTurn(env, w, ts).root, ts[0].cacheDir.path));
      LoopKeepsSettled(env, FirstTurn(env, w, ts), ts[1..], ts[0].cacheDir.path);
    } else {
      TargetSettled(env, FirstTurn(env, w, ts), ts[1..], k - 1);
    }
  }

  // ----- Rank

  /**
   * Target `k` after the loop: settled if it was processed, and untouched if no target at or around it
   * was begun on.
   */
  ghost predicate RightlyLeft(before: World, p: Progress, ts: seq<MaintenanceTarget>, k: nat)
    requires k < |ts| && p.begun <= |ts|
  {
    var path := ts[k].cacheDir.path;
    && (k < p.done ==> Settled(At(p.world.root, path)))
    && (k < p.done && ClearOfOthers(ts, p.begun, k) ==> Processed(At(before.root, path), At(p.world.root, path)))
    && (k >= p.begun && ClearOf(ts, p.begun, path) ==> At(p.world.root, path) == At(before.root, path))
  }

  /**
   * Cleaning respects rank, for any targets: the processed ones are a prefix and keep nothing
   * removable, targets that cleaning was not begun on are untouched unless one it was begun
   * on lies around them, and none of those outranks one that was processed.
   */
  lemma {:induction false} CleaningRespectsRank(env: Env, w: World, found: seq<MaintenanceTarget>,
      ts: seq<MaintenanceTarget>, i: nat, j: nat)
    requires WellFormedRoot(w.root) && Ranked(found, ts)
    requires i < CleanTargets(env, w, ts).done && CleanTargets(env, w, ts).begun <= j < |ts|
    ensures var p := CleanTargets(env, w, ts);
      RightlyLeft(w, p, ts, i) && RightlyLeft(w, p, ts, j) && ts[i].priority >= ts[j].priority
  {
    TargetOutcome(env, w, ts, i);
    TargetOutcome(env, w, ts, j);
  }

  lemma {:induction false} TargetOutcome(env: Env, w: World, ts: seq<MaintenanceTarget>, k: nat)
    requires WellFormedRoot(w.root) && k < |ts|
    ensures RightlyLeft(w, CleanTargets(env, w, ts), ts, k)
  {
    var p := CleanTargets(env, w, ts);
    if k < p.done { TargetSettled(env, w, ts, k); }
    if k < p.done && ClearOfOthers(ts, p.begun, k) { TargetProcessed(env, w, ts, k); }
    if k >= p.begun && ClearOf(ts, p.begun, ts[k].cacheDir.path) { TargetsElsewhere(env, w, ts, ts[k].cacheDir.path); }
  }

  /**
   * A successful loop leaves nothing removable in any target, and exactly the residue in one with no
   * other around it.
   */
  lemma {:induction false} SuccessProcessesAll(env: Env, w: World, ts: seq<MaintenanceTarget>, k: nat)
    requires WellFormedRoot(w.root) && k < |ts|
    requires CleanTargets(env, w, ts).ok
    ensures var path, after := ts[k].cacheDir.path, CleanTargets(env, w, ts).world.root;
      && Settled(At(after, path))
      && (ClearOfOthers(ts, |ts|, k) ==> Processed(At(w.root, path), At(after, path)))
  {
    TargetOutcome(env, w, ts, k);
  }

  // ----- The sweeps

  /**
   * A sweep never removes a plain file, a symlink or a protected entry directly inside the
   * swept directory: the removal is only ever asked for directories and refuses the rest.
   */
  lemma {:induction false} SweepKeepsPlainFiles(env: Env, path: Path, es: seq<Entry>, r: Run, name: string)
    requires Distinct(es) && Find(es, name).Some?
    requires !Find(es, name).value.Dir? || Protected(name)
    ensures Find(SweepChildren(env, path, es, r).left, name) == Find(es, name)
  {
    var (left, run) := SweepEntry(env, path, es[0], r);
    FindOfKept(es[0].name, left, SweepChildren(env, path, es[1..], run).left, name);
    if es[0].name != name { SweepKeepsPlainFiles(env, path, es[1..], run, name); }
  }
}

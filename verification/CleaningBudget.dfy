/** What the cleanup budget stops. `CleaningVerdict` says what it does not. */
module CleaningBudget {
  import opened Basics
  import opened FileTree
  import opened Phone
  import opened Cleaning
  import opened CleaningRuns

  ghost predicate OverBudget(env: Env, r: Run) { r.bytes > Budget(env.config) }

  /** What the configured budget allows, for every setting that is not negative. */
  lemma {:induction false} BudgetInBytes(config: Config)
    requires 0 <= config.maxCleanupMbPerRun < 0x8000_0000
    ensures Budget(config) == config.maxCleanupMbPerRun * 1_048_576
  {
    MebibytesExactly(config.maxCleanupMbPerRun);
  }

  /** The files and symlinks that are direct children. */
  function OwnLeaves(es: seq<Entry>): nat {
    if es == [] then 0 else (if es[0].node.Leaf? then 1 else 0) + OwnLeaves(es[1..])
  }

  function OwnAt(n: Option<Node>): nat { if n.Some? && n.value.Dir? then OwnLeaves(n.value.entries) else 0 }

  /**
   * The budget is a latch: the totals are never reset, so once one exceeds it no later batch end lets
   * cleaning go on.
   */
  lemma {:induction false} BudgetLatches(env: Env, r: Run, i: nat, j: nat)
    requires RunInv(env, r)
    requires i < j < |r.log| && r.log[i].BatchEnded? && r.log[j].BatchEnded?
    requires r.log[i].total > Budget(env.config)
    ensures !r.log[j].goOn
  {
  }

  lemma {:induction false} OwnLeavesOfKept(name: string, n: Option<Node>, rest: seq<Entry>)
    ensures OwnLeaves(Kept(name, n) + rest) == (if n.Some? && n.value.Leaf? then 1 else 0) + OwnLeaves(rest)
  {
    if n.Some? {
      assert (Kept(name, n) + rest)[1..] == rest;
    } else {
      assert Kept(name, n) + rest == rest;
    }
  }

  // ----- Over budget, no directory frame removes more than one batch of its own files

  lemma {:induction false} VisitOver(env: Env, path: Path, n: Node, files: nat, bytes: nat, r: Run)
    requires RunInv(env, r) && Open(env, files) && OverBudget(env, r)
    requires env.config.maxFilesPerBatch >= 1
    ensures var step := Visit(env, path, n, files, bytes, r);
      var removed := if n.Leaf? && step.left.None? then 1 else 0;
      && RunInv(env, step.run) && OverBudget(env, step.run)
      && (step.left.Some? ==> step.left.value.Leaf? == n.Leaf?)
      && (if step.ok then step.files == files + removed < env.config.maxFilesPerBatch
          else files + removed <= env.config.maxFilesPerBatch)
  {
    VisitRuns(env, path, n, files, bytes, r);
    var (idle, r1) := Observe(env, r);
    ObserveRuns(env, r);
    if !idle.NotIdle? { EntryRuns(env, path, n, r1); }
  }

  lemma {:induction false} EntriesOver(env: Env, path: Path, es: seq<Entry>, files: nat, bytes: nat, r: Run)
    requires RunInv(env, r) && Open(env, files) && OverBudget(env, r)
    requires env.config.maxFilesPerBatch >= 1
    ensures var pass := RemoveEntries(env, path, es, files, bytes, r);
      OwnLeaves(es) - OwnLeaves(pass.left) <= env.config.maxFilesPerBatch - files
  {
    if es != [] {
      var step := Visit(env, path + [es[0].name], es[0].node, files, bytes, r);
      VisitOver(env, path + [es[0].name], es[0].node, files, bytes, r);
      OwnLeavesOfKept(es[0].name, step.left, es[1..]);
      if step.ok {
        EntriesOver(env, path, es[1..], step.files, step.bytes, step.run);
        OwnLeavesOfKept(es[0].name, step.left,
            RemoveEntries(env, path, es[1..], step.files, step.bytes, step.run).left);
      }
    }
  }

  lemma {:induction false} NoNewNames(env: Env, path: Path, es: seq<Entry>, files: nat, bytes: nat, r: Run,
      name: string)
    requires Find(es, name).None?
    ensures Find(RemoveEntries(env, path, es, files, bytes, r).left, name).None?
  {
    if es != [] {
      var step := Visit(env, path + [es[0].name], es[0].node, files, bytes, r);
      FindOfKept(es[0].name, step.left, es[1..], name);
      if step.ok {
        NoNewNames(env, path, es[1..], step.files, step.bytes, step.run, name);
        FindOfKept(es[0].name, step.left, RemoveEntries(env, path, es[1..], step.files, step.bytes, step.run).left,
            name);
      }
    }
  }

  /**
   * A removal that starts over budget takes at most one batch of direct files out of each
   * directory, at every path below the one it was called on, however deep.
   */
  lemma {:induction false} EveryFrameBounded(env: Env, path: Path, n: Node, r: Run, p: Path)
    requires RunInv(env, r) && OverBudget(env, r) && WellFormed(n)
    requires env.config.maxFilesPerBatch >= 1
    ensures OwnAt(At(Some(n), p)) - OwnAt(At(RemoveTree(env, path, n, r).left, p)) <= env.config.maxFilesPerBatch
    decreases n, 0
  {
    if n.Dir? && n.readable {
      if p == [] {
        EntriesOver(env, path, n.entries, 0, 0, r);
      } else {
        FramesBelowBounded(env, path, n.entries, 0, 0, r, p[0], p[1..]);
      }
    }
  }

  lemma {:induction false} FramesBelowBounded(env: Env, path: Path, es: seq<Entry>, files: nat, bytes: nat, r: Run,
      name: string, q: Path)
    requires RunInv(env, r) && Open(env, files) && OverBudget(env, r)
    requires Distinct(es) && forall e :: e in es ==> WellFormed(e.node)
    requires env.config.maxFilesPerBatch >= 1
    ensures var pass := RemoveEntries(env, path, es, files, bytes, r);
      OwnAt(At(Find(es, name), q)) - OwnAt(At(Find(pass.left, name), q)) <= env.config.maxFilesPerBatch
    decreases es, 0
  {
    if es != [] {
      var e, rest := es[0], es[1..];
      var step := Visit(env, path + [e.name], e.node, files, bytes, r);
      VisitOver(env, path + [e.name], e.node, files, bytes, r);
      VisitedFrameBounded(env, path + [e.name], e.node, files, bytes, r, q);
      FindOfKept(e.name, step.left, rest, name);
      FindWitness(rest, e.name);
      if step.ok {
        var pass := RemoveEntries(env, path, rest, step.files, step.bytes, step.run);
        FindOfKept(e.name, step.left, pass.left, name);
        if e.name == name {
          NoNewNames(env, path, rest, step.files, step.bytes, step.run, name);
        } else {
          FramesBelowBounded(env, path, rest, step.files, step.bytes, step.run, name, q);
        }
      }
    }
  }

  lemma {:induction false} VisitedFrameBounded(env: Env, path: Path, n: Node, files: nat, bytes: nat, r: Run, q: Path)
    requires RunInv(env, r) && OverBudget(env, r) && WellFormed(n)
    requires env.config.maxFilesPerBatch >= 1
    ensures OwnAt(At(Some(n), q)) - OwnAt(At(Visit(env, path, n, files, bytes, r).left, q)) <=
        env.config.maxFilesPerBatch
    decreases n, 1
  {
    ObserveRuns(env, r);
    if n.Dir? { EveryFrameBounded(env, path, n, Observe(env, r).1, q); }
  }
}

/**
 * Which removals succeed, as a condition on the tree, the budget and the observations to
 * come: nothing of it refers to what the removal itself logs.
 */
module CleaningVerdict {
  import opened Basics
  import opened FileTree
  import opened IdleDetection
  import opened Phone
  import opened Cleaning
  import opened CleaningRuns
  import opened CleaningConservation
  import opened CleaningResidue
  import opened CleaningBudget

  // ----- What a complete removal takes

  /** The observations that a complete removal makes: one for every node below the directory. */
  function Visits(n: Node): nat
    decreases n, 1
  {
    if n.Dir? then VisitsOf(n.entries) else 0
  }

  function VisitsOf(es: seq<Entry>): nat
    decreases es, 0
  {
    if es == [] then 0 else 1 + Visits(es[0].node) + VisitsOf(es[1..])
  }

  /** The screen is off at the next `n` observations. */
  ghost predicate Dark(env: Env, from: nat, n: nat) {
    forall i :: from <= i < from + n ==> !env.obs(i).screenOn
  }

  ghost predicate TraversableAll(es: seq<Entry>) { forall e :: e in es ==> Traversable(e.node) }

  function Takes(n: Node): nat { if n.Leaf? && n.removable then 1 else 0 }

  /** The direct files and symlinks that can be removed. */
  function OwnRemovable(es: seq<Entry>): nat {
    if es == [] then 0 else Takes(es[0].node) + OwnRemovable(es[1..])
  }

  /** No directory holds enough removable files of its own to fill a batch. */
  ghost predicate Slim(n: Node, limit: int) {
    n.Dir? ==> OwnRemovable(n.entries) < limit && forall e :: e in n.entries ==> Slim(e.node, limit)
  }

  ghost predicate SlimAll(es: seq<Entry>, limit: int) { forall e :: e in es ==> Slim(e.node, limit) }

  /** The process stays within its own limits. */
  ghost predicate Unlimited(env: Env) { forall i: nat :: env.withinLimits(i) }

  /** The totals can take `bytes` more, and the process stays within its own limits. */
  ghost predicate Room(env: Env, r: Run, bytes: nat) {
    r.bytes + bytes <= Budget(env.config) && Unlimited(env)
  }

  // ----- Where no batch end can fail, only the screen decides

  lemma {:induction false} TreeVerdict(env: Env, path: Path, n: Node, r: Run)
    requires Slim(n, env.config.maxFilesPerBatch) || Room(env, r, Size(n))
    ensures var o := RemoveTree(env, path, n, r);
      && (o.ok <==> n.Dir? && Traversable(n) && Dark(env, r.observed, Visits(n)))
      && (o.ok ==> o.run.observed == r.observed + Visits(n) && o.run.bytes <= r.bytes + Size(n))
    decreases n, 0
  {
    if n.Dir? && n.readable {
      EntriesVerdict(env, path, n.entries, 0, 0, r);
      TreeBalance(env, path, n, r);
    }
  }

  lemma {:induction false} EntryVerdict(env: Env, path: Path, n: Node, r: Run)
    requires Slim(n, env.config.maxFilesPerBatch) || Room(env, r, Size(n))
    ensures var step := RemoveEntry(env, path, n, r);
      && (step.ok <==> Traversable(n) && Dark(env, r.observed, Visits(n)))
      && (step.ok ==> step.run.observed == r.observed + Visits(n) && step.run.bytes + step.bytes <= r.bytes + Size(n))
      && step.files <= Takes(n)
    decreases n, 1
  {
    if n.Dir? { TreeVerdict(env, path, n, r); }
  }

  lemma {:induction false} DarkSplits(env: Env, from: nat, m: nat, n: nat)
    ensures Dark(env, from, m + n) <==> Dark(env, from, m) && Dark(env, from + m, n)
  {
  }

  lemma {:induction false} VisitVerdict(env: Env, path: Path, n: Node, files: nat, bytes: nat, r: Run)
    requires (files + Takes(n) < env.config.maxFilesPerBatch && Slim(n, env.config.maxFilesPerBatch)) ||
        Room(env, r, bytes + Size(n))
    ensures var step := Visit(env, path, n, files, bytes, r);
      && (step.ok <==> Traversable(n) && Dark(env, r.observed, 1 + Visits(n)))
      && (step.ok ==>
            && step.run.observed == r.observed + 1 + Visits(n)
            && step.run.bytes + step.bytes <= r.bytes + bytes + Size(n)
            && step.files <= files + Takes(n))
    decreases n, 2
  {
    var r1 := Observe(env, r).1;
    DarkSplits(env, r.observed, 1, Visits(n));
    EntryVerdict(env, path, n, r1);
  }

  lemma {:induction false} EntriesVerdict(env: Env, path: Path, es: seq<Entry>, files: nat, bytes: nat, r: Run)
    requires (files + OwnRemovable(es) < env.config.maxFilesPerBatch && SlimAll(es, env.config.maxFilesPerBatch)) ||
             Room(env, r, bytes + SizeOf(es))
    ensures var pass := RemoveEntries(env, path, es, files, bytes, r);
      && (pass.ok <==> TraversableAll(es) && Dark(env, r.observed, VisitsOf(es)))
      && (pass.ok ==>
            && pass.run.observed == r.observed + VisitsOf(es)
            && pass.run.bytes + pass.bytes <= r.bytes + bytes + SizeOf(es))
    decreases es, 0
  {
    if es != [] {
      var n := es[0].node;
      var step := Visit(env, path + [es[0].name], n, files, bytes, r);
      VisitVerdict(env, path + [es[0].name], n, files, bytes, r);
      DarkSplits(env, r.observed, 1 + Visits(n), VisitsOf(es[1..]));
      TraversableSplits(es);
      if step.ok { EntriesVerdict(env, path, es[1..], step.files, step.bytes, step.run); }
    }
  }

  lemma {:induction false} TraversableSplits(es: seq<Entry>)
    requires es != []
    ensures TraversableAll(es) <==> Traversable(es[0].node) && TraversableAll(es[1..])
  {
    forall e | TraversableAll(es[1..]) && Traversable(es[0].node) && e in es ensures Traversable(e.node) {
      assert e == es[0] || e in es[1..];
    }
  }

  // ----- Over budget, or over the limits of the process

  /** The limits of the process are exceeded for good. */
  ghost predicate Exhausted(env: Env) { forall i: nat :: !env.withinLimits(i) }

  /** No batch end in a loop will let cleaning go on. */
  ghost predicate BatchesFail(env: Env, r: Run) { OverBudget(env, r) || Exhausted(env) }

  lemma {:induction false} VisitOverBudget(env: Env, path: Path, n: Node, files: nat, bytes: nat, r: Run)
    requires BatchesFail(env, r) && Open(env, files) && env.config.maxFilesPerBatch >= 1
    requires Visit(env, path, n, files, bytes, r).ok
    ensures var step := Visit(env, path, n, files, bytes, r);
      && BatchesFail(env, step.run) && Slim(n, env.config.maxFilesPerBatch)
      && step.files == files + Takes(n) < env.config.maxFilesPerBatch
    decreases n, 1
  {
    VisitBalance(env, path, n, files, bytes, r);
    if n.Dir? { TreeOverBudget(env, path, n, Observe(env, r).1); }
  }

  lemma {:induction false} EntriesOverBudget(env: Env, path: Path, es: seq<Entry>, files: nat, bytes: nat, r: Run)
    requires BatchesFail(env, r) && Open(env, files) && env.config.maxFilesPerBatch >= 1
    requires RemoveEntries(env, path, es, files, bytes, r).ok
    ensures files + OwnRemovable(es) < env.config.maxFilesPerBatch && SlimAll(es, env.config.maxFilesPerBatch)
    decreases es, 0
  {
    if es != [] {
      var step := Visit(env, path + [es[0].name], es[0].node, files, bytes, r);
      VisitOverBudget(env, path + [es[0].name], es[0].node, files, bytes, r);
      EntriesOverBudget(env, path, es[1..], step.files, step.bytes, step.run);
      forall e | e in es ensures Slim(e.node, env.config.maxFilesPerBatch) { assert e == es[0] || e in es[1..]; }
    }
  }

  lemma {:induction false} TreeOverBudget(env: Env, path: Path, n: Node, r: Run)
    requires BatchesFail(env, r) && env.config.maxFilesPerBatch >= 1
    requires RemoveTree(env, path, n, r).ok
    ensures Slim(n, env.config.maxFilesPerBatch)
    decreases n, 0
  {
    EntriesOverBudget(env, path, n.entries, 0, 0, r);
  }

  /**
   * What a spent budget stops, for every tree, environment and total above it: a removal
   * still succeeds exactly when it is of a listable directory tree none of whose
   * directories holds a batch of removable files, and the screen stays off for as many
   * observations as the tree has nodes.
   */
  lemma {:induction false} OverBudgetSucceedsExactlyWhen(env: Env, path: Path, n: Node, r: Run)
    requires OverBudget(env, r) && env.config.maxFilesPerBatch >= 1
    ensures RemoveTree(env, path, n, r).ok <==>
      n.Dir? && Traversable(n) && Slim(n, env.config.maxFilesPerBatch) && Dark(env, r.observed, Visits(n))
  {
    if RemoveTree(env, path, n, r).ok { TreeOverBudget(env, path, n, r); }
    if Slim(n, env.config.maxFilesPerBatch) { TreeVerdict(env, path, n, r); }
  }

  /** The same when the process exceeds its own limits, whatever the budget. */
  lemma {:induction false} ExhaustedSucceedsExactlyWhen(env: Env, path: Path, n: Node, r: Run)
    requires Exhausted(env) && env.config.maxFilesPerBatch >= 1
    ensures RemoveTree(env, path, n, r).ok <==>
      n.Dir? && Traversable(n) && Slim(n, env.config.maxFilesPerBatch) && Dark(env, r.observed, Visits(n))
  {
    if RemoveTree(env, path, n, r).ok { TreeOverBudget(env, path, n, r); }
    if Slim(n, env.config.maxFilesPerBatch) { TreeVerdict(env, path, n, r); }
  }

  /** Without a positive batch limit every child ends a batch, so then only an empty directory can be removed. */
  lemma {:induction false} NoBatchSucceedsExactlyWhen(env: Env, path: Path, n: Node, r: Run)
    requires BatchesFail(env, r) && env.config.maxFilesPerBatch < 1
    ensures RemoveTree(env, path, n, r).ok <==> n.Dir? && n.readable && n.entries == []
  {
    if n.Dir? && n.readable && n.entries != [] {
      var e := n.entries[0];
      VisitWithoutBatch(env, path + [e.name], e.node, r);
    }
  }

  lemma {:induction false} VisitWithoutBatch(env: Env, path: Path, n: Node, r: Run)
    requires BatchesFail(env, r) && env.config.maxFilesPerBatch < 1
    ensures !Visit(env, path, n, 0, 0, r).ok
  {
    var r1 := Observe(env, r).1;
    if n.Dir? { TreeBalance(env, path, n, r1); }
  }

  /**
   * A tree without a full batch anywhere is removed or not whatever the totals say: only what the
   * screen shows counts.
   */
  lemma {:induction false} SlimTreesIgnoreBudget(env: Env, path: Path, n: Node, r: Run)
    requires n.Dir? && Traversable(n) && Slim(n, env.config.maxFilesPerBatch)
    ensures RemoveTree(env, path, n, r).ok <==> Dark(env, r.observed, Visits(n))
  {
    TreeVerdict(env, path, n, r);
  }

  // ----- When a removal keeps to the budget

  /** Undisturbed, nothing but the budget can stop a removal: one that fails ends over it. */
  lemma {:induction false} TreeUndisturbed(env: Env, path: Path, n: Node, r: Run)
    requires Unlimited(env) && n.Dir? && Traversable(n) && Dark(env, r.observed, Visits(n))
    ensures var o := RemoveTree(env, path, n, r);
      if o.ok then o.run.observed == r.observed + Visits(n) else OverBudget(env, o.run)
    decreases n, 0
  {
    EntriesUndisturbed(env, path, n.entries, 0, 0, r);
  }

  lemma {:induction false} VisitUndisturbed(env: Env, path: Path, n: Node, files: nat, bytes: nat, r: Run)
    requires Unlimited(env) && Traversable(n) && Dark(env, r.observed, 1 + Visits(n))
    ensures var step := Visit(env, path, n, files, bytes, r);
      if step.ok then step.run.observed == r.observed + 1 + Visits(n) else OverBudget(env, step.run)
    decreases n, 1
  {
    DarkSplits(env, r.observed, 1, Visits(n));
    if n.Dir? { TreeUndisturbed(env, path, n, Observe(env, r).1); }
  }

  lemma {:induction false} EntriesUndisturbed(env: Env, path: Path, es: seq<Entry>, files: nat, bytes: nat, r: Run)
    requires Unlimited(env) && TraversableAll(es) && Dark(env, r.observed, VisitsOf(es))
    ensures var pass := RemoveEntries(env, path, es, files, bytes, r);
      if pass.ok then pass.run.observed == r.observed + VisitsOf(es) else OverBudget(env, pass.run)
    decreases es, 0
  {
    if es != [] {
      var n := es[0].node;
      var step := Visit(env, path + [es[0].name], n, files, bytes, r);
      TraversableSplits(es);
      DarkSplits(env, r.observed, 1 + Visits(n), VisitsOf(es[1..]));
      VisitUndisturbed(env, path + [es[0].name], n, files, bytes, r);
      if step.ok { EntriesUndisturbed(env, path, es[1..], step.files, step.bytes, step.run); }
    }
  }

  /** The bytes below a node that can be removed. */
  function RemovableBytes(n: Node): int { Size(n) - SizeLeft(Residue(n)) }

  /** However a removal ends, it leaves at least the bytes of the residue. */
  lemma {:induction false} TreeLeavesEnough(env: Env, path: Path, n: Node, r: Run)
    ensures SizeLeft(Residue(n)) <= SizeLeft(RemoveTree(env, path, n, r).left)
    decreases n, 0
  {
    if n.Dir? {
      ResidueIsSmaller(n);
      if n.readable { EntriesLeaveEnough(env, path, n.entries, 0, 0, r); }
    } else {
      ResidueIsSmaller(n);
    }
  }

  lemma {:induction false} VisitLeavesEnough(env: Env, path: Path, n: Node, files: nat, bytes: nat, r: Run)
    ensures SizeLeft(Residue(n)) <= SizeLeft(Visit(env, path, n, files, bytes, r).left)
    decreases n, 1
  {
    ResidueIsSmaller(n);
    if n.Dir? { TreeLeavesEnough(env, path, n, Observe(env, r).1); }
  }

  lemma {:induction false} EntriesLeaveEnough(env: Env, path: Path, es: seq<Entry>, files: nat, bytes: nat, r: Run)
    ensures SizeOf(ResidueOf(es)) <= SizeOf(RemoveEntries(env, path, es, files, bytes, r).left)
    decreases es, 0
  {
    if es != [] {
      var e, rest := es[0], es[1..];
      var step := Visit(env, path + [e.name], e.node, files, bytes, r);
      VisitLeavesEnough(env, path + [e.name], e.node, files, bytes, r);
      LoadOfKept(e.name, Residue(e.node), ResidueOf(rest));
      if step.ok {
        EntriesLeaveEnough(env, path, rest, step.files, step.bytes, step.run);
        LoadOfKept(e.name, step.left, RemoveEntries(env, path, rest, step.files, step.bytes, step.run).left);
      } else {
        ResidueOfIsSmaller(rest);
        LoadOfKept(e.name, step.left, rest);
      }
    }
  }

  lemma {:induction false} ResidueIsSmaller(n: Node)
    ensures SizeLeft(Residue(n)) <= Size(n)
    decreases n, 1
  {
    if n.Dir? { ResidueOfIsSmaller(n.entries); }
  }

  lemma {:induction false} ResidueOfIsSmaller(es: seq<Entry>)
    ensures SizeOf(ResidueOf(es)) <= SizeOf(es)
    decreases es, 0
  {
    if es != [] {
      ResidueIsSmaller(es[0].node);
      ResidueOfIsSmaller(es[1..]);
      LoadOfKept(es[0].name, Residue(es[0].node), ResidueOf(es[1..]));
    }
  }

  /** Room for the removable bytes is enough, in every environment and wherever the removal is cut short. */
  lemma {:induction false} RoomKeepsBudget(env: Env, path: Path, n: Node, r: Run)
    requires r.bytes + RemovableBytes(n) <= Budget(env.config)
    ensures !OverBudget(env, RemoveTree(env, path, n, r).run)
  {
    TreeLeavesEnough(env, path, n, r);
    Conservation(env, path, n, r);
  }

  /**
   * An undisturbed removal keeps to the budget exactly when the budget had room for all of
   * the tree's removable bytes from the start. Where it had not, batch ends may stop the
   * removal early, but only after the budget is exceeded.
   */
  lemma {:induction false} BudgetKeptExactlyWhen(env: Env, path: Path, n: Node, r: Run)
    requires n.Dir? && Traversable(n) && Dark(env, r.observed, Visits(n)) && Unlimited(env)
    ensures !OverBudget(env, RemoveTree(env, path, n, r).run) <==> r.bytes + RemovableBytes(n) <= Budget(env.config)
  {
    if r.bytes + RemovableBytes(n) <= Budget(env.config) {
      RoomKeepsBudget(env, path, n, r);
    } else {
      TreeUndisturbed(env, path, n, r);
      TreeLeavesResidue(env, path, n, r);
      Conservation(env, path, n, r);
    }
  }

  /** With room in the budget for the whole tree, the screen alone decides for every tree. */
  lemma {:induction false} SucceedsWithRoomExactlyWhen(env: Env, path: Path, n: Node, r: Run)
    requires Room(env, r, Size(n))
    ensures var o := RemoveTree(env, path, n, r);
      && (o.ok <==> n.Dir? && Traversable(n) && Dark(env, r.observed, Visits(n)))
      && (o.ok ==> o.run.observed == r.observed + Visits(n))
  {
    TreeVerdict(env, path, n, r);
  }

  /** 10 MiB in two directories of one file each. */
  function TwoFiles(): Node {
    var one := Dir(true, true, [Entry("f", Leaf(PlainFile, 5_242_880, true))]);
    Dir(true, true, [Entry("a", one), Entry("b", one)])
  }

  lemma {:induction false} TwoFilesShape()
    ensures var n := TwoFiles();
      n.Dir? && Traversable(n) && Slim(n, 2) && Residue(n) == None && Size(n) == 10_485_760
  {
    var one := TwoFiles().entries[0].node;
    assert OwnRemovable(one.entries) == 1 && Residue(one.entries[0].node) == None &&
        Size(one.entries[0].node) == 5_242_880;
    assert one.entries[1..] == [];
    assert Residue(one) == None && Size(one) == 5_242_880;
    var es := TwoFiles().entries;
    assert es[1..][0] == es[1] && es[1..][1..] == [];
    assert SizeOf(es[1..]) == 5_242_880 && ResidueOf(es[1..]) == [] && OwnRemovable(es[1..]) == 0;
  }

  /** A budget of 1 MiB, batches of two files, and a screen that stays off. */
  function Spendthrift(): Env {
    Env(Config(100, true, true, false, 0, 1, 2), i => Observation(false, 1, true, true, true, false), i => false,
      i => 0, i => true, s => s, i => [])
  }

  lemma {:induction false} SpendthriftBudget()
    ensures Budget(Spendthrift().config) == 1_048_576
  {
    MebibytesExactly(1);
  }

  lemma {:induction false} TwoFilesRemoved(path: Path, r: Run)
    ensures var o := RemoveTree(Spendthrift(), path, TwoFiles(), r);
      o.ok && o.left == None && o.run.bytes == r.bytes + 10_485_760
  {
    TwoFilesShape();
    SlimTreesIgnoreBudget(Spendthrift(), path, TwoFiles(), r);
    TreeLeavesResidue(Spendthrift(), path, TwoFiles(), r);
    Conservation(Spendthrift(), path, TwoFiles(), r);
  }

  /**
   * The budget does not hold: starting from nothing, this removal frees 10 MiB of the 1 MiB
   * allowed, and the next one, over budget from the start, frees as much again.
   */
  lemma {:induction false} BudgetIsExceeded(path: Path, other: Path)
    ensures var env := Spendthrift();
      var o := RemoveTree(env, path, TwoFiles(), Run(0, 0, 0, 0, 0, []));
      var next := RemoveTree(env, other, TwoFiles(), o.run);
      && Budget(env.config) == 1_048_576
      && o.ok && o.left == None && o.run.bytes == 10_485_760 && OverBudget(env, o.run)
      && next.ok && next.left == None && next.run.bytes == 20_971_520
  {
    SpendthriftBudget();
    TwoFilesRemoved(path, Run(0, 0, 0, 0, 0, []));
    TwoFilesRemoved(other, RemoveTree(Spendthrift(), path, TwoFiles(), Run(0, 0, 0, 0, 0, [])).run);
  }
}

/**
 * Three ways of counting one removal agree, wherever it is interrupted: what is on disk
 * before and after, what was unlinked, and what the totals of the run say.
 */
module CleaningConservation {
  import opened Basics
  import opened FileTree
  import opened Phone
  import opened Cleaning

  function UnlinkedBytes(log: seq<Event>): nat {
    if log == [] then 0
    else var e := log[|log| - 1]; UnlinkedBytes(log[..|log| - 1]) + if e.Unlinked? then e.size else 0
  }

  function UnlinkedFiles(log: seq<Event>): nat {
    if log == [] then 0
    else UnlinkedFiles(log[..|log| - 1]) + if log[|log| - 1].Unlinked? then 1 else 0
  }

  function LostBytes(lost: seq<Tally>): nat {
    if lost == [] then 0 else LostBytes(lost[..|lost| - 1]) + lost[|lost| - 1].bytes
  }

  function LostFiles(lost: seq<Tally>): nat {
    if lost == [] then 0 else LostFiles(lost[..|lost| - 1]) + lost[|lost| - 1].files
  }

  function SizeLeft(n: Option<Node>): nat { if n.Some? then Size(n.value) else 0 }

  /** The number of files and symlinks in a tree. */
  function Leaves(n: Node): nat
    decreases n, 1
  {
    match n
    case Leaf(_, _, _) => 1
    case Dir(_, _, es) => LeavesOf(es)
    case Sealed => 0
  }

  function LeavesOf(es: seq<Entry>): nat
    decreases es, 0
  {
    if es == [] then 0 else Leaves(es[0].node) + LeavesOf(es[1..])
  }

  function LeavesLeft(n: Option<Node>): nat { if n.Some? then Leaves(n.value) else 0 }

  /** What a tree holds: bytes as `GetDirectorySize` counts them, and leaves. */
  datatype Load = Load(bytes: nat, leaves: nat)

  function LoadOf(n: Node): Load { Load(Size(n), Leaves(n)) }

  function LoadLeft(n: Option<Node>): Load { Load(SizeLeft(n), LeavesLeft(n)) }

  function LoadIn(es: seq<Entry>): Load { Load(SizeOf(es), LeavesOf(es)) }

  /** With a positive limit, no abandoned batch was full. */
  ghost predicate Partial(lost: seq<Tally>, limit: int) {
    limit >= 1 ==> forall t :: t in lost ==> t.files < limit
  }

  /**
   * From `r` to `s`, the load on disk became `left` and the open batch grew from `before` to
   * `after`, while the batches `lost` were abandoned.
   */
  ghost predicate Balanced(r: Run, s: Run, load: Load, left: Load, before: Tally, after: Tally, lost: seq<Tally>) {
    && load.bytes - left.bytes == UnlinkedBytes(s.log) - UnlinkedBytes(r.log)
    && load.leaves - left.leaves == UnlinkedFiles(s.log) - UnlinkedFiles(r.log)
    && r.bytes <= s.bytes && r.files <= s.files
    && before.bytes + UnlinkedBytes(s.log) - UnlinkedBytes(r.log) == s.bytes - r.bytes + after.bytes + LostBytes(lost)
    && before.files + UnlinkedFiles(s.log) - UnlinkedFiles(r.log) == s.files - r.files + after.files + LostFiles(lost)
  }

  const NONE: Tally := Tally(0, 0)

  lemma {:induction false} AppendCounts(log: seq<Event>, e: Event)
    ensures UnlinkedBytes(log + [e]) == UnlinkedBytes(log) + if e.Unlinked? then e.size else 0
    ensures UnlinkedFiles(log + [e]) == UnlinkedFiles(log) + if e.Unlinked? then 1 else 0
  {
    assert (log + [e])[..|log|] == log;
  }

  lemma {:induction false} AppendLost(lost: seq<Tally>, t: Tally)
    ensures LostBytes(lost + [t]) == LostBytes(lost) + t.bytes
    ensures LostFiles(lost + [t]) == LostFiles(lost) + t.files
  {
    assert (lost + [t])[..|lost|] == lost;
  }

  lemma {:induction false} LoadOfKept(name: string, n: Option<Node>, rest: seq<Entry>)
    ensures SizeOf(Kept(name, n) + rest) == SizeLeft(n) + SizeOf(rest)
    ensures LeavesOf(Kept(name, n) + rest) == LeavesLeft(n) + LeavesOf(rest)
  {
    if n.Some? {
      assert (Kept(name, n) + rest)[1..] == rest;
    } else {
      assert Kept(name, n) + rest == rest;
    }
  }

  /** The final batch end hands the open batch to the totals. */
  lemma {:induction false} EndBatchBalance(env: Env, r: Run, s: Run, load: Load, left: Load, before: Tally, open: Tally,
      final: bool)
    requires Balanced(r, s, load, left, before, open, [])
    ensures Balanced(r, EndBatch(env, s, open.files, open.bytes, final).1, load, left, before, NONE, [])
  {
    var t := EndBatch(env, s, open.files, open.bytes, final).1;
    AppendCounts(s.log, t.log[|t.log| - 1]);
  }

  lemma {:induction false} TreeBalance(env: Env, path: Path, n: Node, r: Run)
    ensures var o := RemoveTree(env, path, n, r);
      && Balanced(r, o.run, LoadOf(n), LoadLeft(o.left), NONE, NONE, o.lost)
      && (o.ok ==> o.lost == []) && |o.lost| <= Height(n) && Partial(o.lost, env.config.maxFilesPerBatch)
    decreases n, 0
  {
    if n.Dir? && n.readable {
      EntriesBalance(env, path, n.entries, 0, 0, r);
      var pass := RemoveEntries(env, path, n.entries, 0, 0, r);
      if pass.ok {
        EndBatchBalance(env, r, pass.run, LoadIn(n.entries), LoadIn(pass.left), NONE, Tally(pass.files, pass.bytes),
            true);
        AppendCounts(EndBatch(env, pass.run, pass.files, pass.bytes, true).1.log, RemovedDir(path));
      }
    }
  }

  lemma {:induction false} EntryBalance(env: Env, path: Path, n: Node, r: Run)
    ensures var step := RemoveEntry(env, path, n, r);
      && Balanced(r, step.run, LoadOf(n), LoadLeft(step.left), NONE, Tally(step.files, step.bytes), step.lost)
      && (step.ok ==> step.lost == []) && (!step.ok ==> step.files == step.bytes == 0)
      && |step.lost| <= Height(n) && Partial(step.lost, env.config.maxFilesPerBatch)
    decreases n, 1
  {
    if n.Dir? {
      TreeBalance(env, path, n, r);
    } else if n.Leaf? {
      AppendCounts(r.log, Unlinked(path, n.size));
    }
  }

  lemma {:induction false} AccountBalance(env: Env, r: Run, step: Step, load: Load, files: nat, bytes: nat)
    requires Balanced(r, step.run, load, LoadLeft(step.left), NONE, Tally(step.files, step.bytes), step.lost)
    requires step.ok ==> step.lost == []
    requires !step.ok ==> step.files == step.bytes == 0
    requires Partial(step.lost, env.config.maxFilesPerBatch)
    requires env.config.maxFilesPerBatch >= 1 ==> files < env.config.maxFilesPerBatch
    ensures var after := Account(env, step, files, bytes);
      && Balanced(r, after.run, load, LoadLeft(after.left), Tally(files, bytes), Tally(after.files, after.bytes),
          after.lost)
      && (after.ok ==> after.lost == []) && (!after.ok ==> after.files == after.bytes == 0)
      && |after.lost| <= |step.lost| + 1
      && Partial(after.lost, env.config.maxFilesPerBatch)
  {
    AppendLost(step.lost, Tally(files, bytes));
    var open := Tally(files + step.files, bytes + step.bytes);
    if step.ok {
      EndBatchBalance(env, r, step.run, load, LoadLeft(step.left), Tally(files, bytes), open, false);
    }
  }

  lemma {:induction false} ObserveCounts(env: Env, r: Run)
    ensures var s := Observe(env, r).1;
      && UnlinkedBytes(s.log) == UnlinkedBytes(r.log) && UnlinkedFiles(s.log) == UnlinkedFiles(r.log)
      && s.files == r.files && s.bytes == r.bytes
  {
    var s := Observe(env, r).1;
    AppendCounts(r.log, s.log[|s.log| - 1]);
  }

  /** An observation before it does not change a balance. */
  lemma {:induction false} BalanceAfterObserving(env: Env, r: Run, s: Run, load: Load, left: Load, before: Tally,
      after: Tally, lost: seq<Tally>)
    requires Balanced(Observe(env, r).1, s, load, left, before, after, lost)
    ensures Balanced(r, s, load, left, before, after, lost)
  {
    ObserveCounts(env, r);
  }

  /** The child at which the frame gives up without touching it; its open batch is lost. */
  lemma {:induction false} AbortBalance(env: Env, n: Node, files: nat, bytes: nat, r: Run)
    requires env.config.maxFilesPerBatch >= 1 ==> files < env.config.maxFilesPerBatch
    ensures var s, lost := Observe(env, r).1, [Tally(files, bytes)];
      && Balanced(r, s, LoadOf(n), LoadOf(n), Tally(files, bytes), NONE, lost)
      && Partial(lost, env.config.maxFilesPerBatch)
  {
    ObserveCounts(env, r);
    AppendLost([], Tally(files, bytes));
    assert [] + [Tally(files, bytes)] == [Tally(files, bytes)];
  }

  /** The balance of one entry, carried over the observation before it and into the open batch behind it. */
  lemma {:induction false} EntryVisited(env: Env, r: Run, entry: Step, load: Load, files: nat, bytes: nat)
    requires Balanced(Observe(env, r).1, entry.run, load, LoadLeft(entry.left), NONE, Tally(entry.files, entry.bytes),
        entry.lost)
    requires (entry.ok ==> entry.lost == []) && (!entry.ok ==> entry.files == entry.bytes == 0)
    requires Partial(entry.lost, env.config.maxFilesPerBatch)
    requires env.config.maxFilesPerBatch >= 1 ==> files < env.config.maxFilesPerBatch
    ensures var step := Account(env, entry, files, bytes);
      && Balanced(r, step.run, load, LoadLeft(step.left), Tally(files, bytes), Tally(step.files, step.bytes), step.lost)
      && (step.ok ==> step.lost == []) && (!step.ok ==> step.files == step.bytes == 0)
      && |step.lost| <= |entry.lost| + 1
      && Partial(step.lost, env.config.maxFilesPerBatch)
  {
    AccountBalance(env, Observe(env, r).1, entry, load, files, bytes);
    var step := Account(env, entry, files, bytes);
    BalanceAfterObserving(env, r, step.run, load, LoadLeft(step.left), Tally(files, bytes),
      Tally(step.files, step.bytes), step.lost);
  }

  lemma {:induction false} VisitBalance(env: Env, path: Path, n: Node, files: nat, bytes: nat, r: Run)
    requires env.config.maxFilesPerBatch >= 1 ==> files < env.config.maxFilesPerBatch
    ensures var step := Visit(env, path, n, files, bytes, r);
      && Balanced(r, step.run, LoadOf(n), LoadLeft(step.left), Tally(files, bytes), Tally(step.files, step.bytes),
          step.lost)
      && (step.ok ==> step.lost == []) && (!step.ok ==> step.files == step.bytes == 0)
      && |step.lost| <= Height(n) + 1
      && Partial(step.lost, env.config.maxFilesPerBatch)
    decreases n, 2
  {
    var (idle, r1) := Observe(env, r);
    if idle.NotIdle? {
      AbortBalance(env, n, files, bytes, r);
    } else {
      EntryBalance(env, path, n, r1);
      EntryVisited(env, r, RemoveEntry(env, path, n, r1), LoadOf(n), files, bytes);
    }
  }

  lemma {:induction false} EntriesBalance(env: Env, path: Path, es: seq<Entry>, files: nat, bytes: nat, r: Run)
    requires env.config.maxFilesPerBatch >= 1 ==> files < env.config.maxFilesPerBatch
    ensures var pass := RemoveEntries(env, path, es, files, bytes, r);
      && Balanced(r, pass.run, LoadIn(es), LoadIn(pass.left), Tally(files, bytes), Tally(pass.files, pass.bytes),
          pass.lost)
      && (pass.ok ==> pass.lost == []) && (!pass.ok ==> pass.files == pass.bytes == 0)
      && |pass.lost| <= HeightOf(es) + 1
      && Partial(pass.lost, env.config.maxFilesPerBatch)
    decreases es, 0
  {
    if es != [] {
      var step := Visit(env, path + [es[0].name], es[0].node, files, bytes, r);
      VisitBalance(env, path + [es[0].name], es[0].node, files, bytes, r);
      if !step.ok {
        LoadOfKept(es[0].name, step.left, es[1..]);
      } else {
        EntriesBalance(env, path, es[1..], step.files, step.bytes, step.run);
        LoadOfKept(es[0].name, step.left, RemoveEntries(env, path, es[1..], step.files, step.bytes, step.run).left);
      }
    }
  }

  lemma {:induction false} LostBound(lost: seq<Tally>, limit: int)
    requires limit >= 1 && Partial(lost, limit)
    ensures LostFiles(lost) <= |lost| * (limit - 1)
  {
    if lost != [] {
      LostBound(lost[..|lost| - 1], limit);
      assert |lost| * (limit - 1) == (|lost| - 1) * (limit - 1) + (limit - 1);
    }
  }

  /**
   * Conservation for every tree, environment and interruption: what was on disk is what
   * was unlinked plus what is left, in bytes and in files; the totals never count more than was unlinked, exactly
   * that much on success, and on an abort they miss exactly the open batches of the frames
   * on the stack, each of them below the batch limit.
   */
  lemma {:induction false} Conservation(env: Env, path: Path, n: Node, r: Run)
    ensures var o := RemoveTree(env, path, n, r);
      var unlinked := UnlinkedBytes(o.run.log) - UnlinkedBytes(r.log);
      var files := UnlinkedFiles(o.run.log) - UnlinkedFiles(r.log);
      && Size(n) == unlinked + SizeLeft(o.left)
      && Leaves(n) == files + LeavesLeft(o.left)
      && o.run.bytes - r.bytes == unlinked - LostBytes(o.lost)
      && o.run.files - r.files == files - LostFiles(o.lost)
      && (o.ok ==> o.run.bytes - r.bytes == unlinked && o.run.files - r.files == files)
      && |o.lost| <= Height(n)
      && (env.config.maxFilesPerBatch >= 1 ==>
            files - (o.run.files - r.files) <= |o.lost| * (env.config.maxFilesPerBatch - 1))
  {
    TreeBalance(env, path, n, r);
    if env.config.maxFilesPerBatch >= 1 {
      LostBound(RemoveTree(env, path, n, r).lost, env.config.maxFilesPerBatch);
    }
  }
}

/** What every removal does to the log and the counters, wherever it is interrupted. */
module CleaningRuns {
  import opened FileTree
  import opened IdleDetection
  import opened Phone
  import opened Cleaning

  ghost predicate SawIdle(e: Event) { e.Observed? && !e.idle.NotIdle? }

  /** Events after which the removal in progress gives up. */
  ghost predicate Halts(e: Event) {
    (e.Observed? && e.idle.NotIdle?) || (e.BatchEnded? && !e.final && !e.goOn)
  }

  /** Every unlink comes right after an observation that was not `NotIdle`. */
  ghost predicate Disciplined(log: seq<Event>) {
    forall i :: 0 <= i < |log| && log[i].Unlinked? ==> i > 0 && SawIdle(log[i - 1])
  }

  /** With a positive limit, batches ended in the loop are full and final ones are not. */
  ghost predicate ExactBatches(log: seq<Event>, limit: int) {
    limit >= 1 ==> forall i :: 0 <= i < |log| && log[i].BatchEnded? ==>
      if log[i].final then 0 <= log[i].files < limit else log[i].files == limit
  }

  /** Totals never shrink, and a batch end that lets cleaning go on found its total within the budget. */
  ghost predicate Budgeted(log: seq<Event>, budget: nat) {
    && (forall i, j :: 0 <= i < j < |log| && log[i].BatchEnded? && log[j].BatchEnded? ==> log[i].total <= log[j].total)
    && (forall i :: 0 <= i < |log| && log[i].BatchEnded? && log[i].goOn ==> log[i].total <= budget)
  }

  ghost predicate TotalIsLast(log: seq<Event>, bytes: nat) {
    forall i :: 0 <= i < |log| && log[i].BatchEnded? ==> log[i].total <= bytes
  }

  /** What holds between any two steps of the daemon. */
  ghost predicate RunInv(env: Env, r: Run) {
    && r.stamp == StampAfter(env.obs, r.observed)
    && Disciplined(r.log)
    && ExactBatches(r.log, env.config.maxFilesPerBatch)
    && Budgeted(r.log, Budget(env.config)) && TotalIsLast(r.log, r.bytes)
  }

  ghost predicate Plain(e: Event) { !e.Analyzed? && !e.Cleaned? }

  /** `s` comes later than `r`, with nothing but cleaning in between. */
  ghost predicate Follows(r: Run, s: Run) {
    && r.log <= s.log && r.observed <= s.observed && r.files <= s.files && r.bytes <= s.bytes
    && forall i :: |r.log| <= i < |s.log| ==> Plain(s.log[i])
  }

  /** Between `r` and `s` nothing halts, except possibly the very last event when `ok` is false. */
  ghost predicate HaltsLast(r: Run, s: Run, ok: bool) {
    forall i :: |r.log| <= i < |s.log| && Halts(s.log[i]) ==> !ok && i == |s.log| - 1
  }

  ghost predicate EndsInHalt(r: Run, s: Run) {
    |r.log| < |s.log| && Halts(s.log[|s.log| - 1])
  }

  /** Every directory from `n` down can be listed. */
  ghost predicate Traversable(n: Node) {
    n.Dir? ==> n.readable && forall e :: e in n.entries ==> Traversable(e.node)
  }

  /** The batch that is open in a frame: within the limit whenever the limit is positive. */
  ghost predicate Open(env: Env, files: int) {
    env.config.maxFilesPerBatch >= 1 ==> files < env.config.maxFilesPerBatch
  }

  lemma {:induction false} ObserveRuns(env: Env, r: Run)
    requires RunInv(env, r)
    ensures var (idle, s) := Observe(env, r);
      && RunInv(env, s) && Follows(r, s) && HaltsLast(r, s, !idle.NotIdle?)
      && idle == IdleAt(env.obs, r.observed, env.config.idleDelayMinutes)
      && s.log != [] && (if idle.NotIdle? then EndsInHalt(r, s) else SawIdle(s.log[|s.log| - 1]))
  {
  }

  lemma {:induction false} EndBatchRuns(env: Env, r: Run, files: nat, bytes: nat, final: bool)
    requires RunInv(env, r)
    requires env.config.maxFilesPerBatch >= 1 ==>
      if final then files < env.config.maxFilesPerBatch else files == env.config.maxFilesPerBatch
    ensures var (goOn, s) := EndBatch(env, r, files, bytes, final);
      && RunInv(env, s) && Follows(r, s) && HaltsLast(r, s, final || goOn)
      && (!final && !goOn ==> EndsInHalt(r, s))
  {
  }

  /** Any event that is not a batch end can be appended, an unlink only after an idle observation. */
  lemma {:induction false} AppendInv(env: Env, r: Run, e: Event)
    requires RunInv(env, r) && !e.BatchEnded?
    requires e.Unlinked? ==> r.log != [] && SawIdle(r.log[|r.log| - 1])
    ensures RunInv(env, Logged(r, e))
  {
  }

  lemma {:induction false} LoggedRuns(env: Env, r: Run, e: Event)
    requires RunInv(env, r)
    requires e.RemovedDir? || (e.Unlinked? && r.log != [] && SawIdle(r.log[|r.log| - 1]))
    ensures RunInv(env, Logged(r, e)) && Follows(r, Logged(r, e)) && HaltsLast(r, Logged(r, e), true)
  {
    AppendInv(env, r, e);
  }

  lemma {:induction false} Chain(r: Run, s: Run, t: Run, ok: bool)
    requires Follows(r, s) && HaltsLast(r, s, true)
    requires Follows(s, t) && HaltsLast(s, t, ok)
    ensures Follows(r, t) && HaltsLast(r, t, ok)
    ensures EndsInHalt(s, t) ==> EndsInHalt(r, t)
  {
    forall i | |r.log| <= i < |s.log| ensures t.log[i] == s.log[i] { }
  }

  /**
   * Every removal keeps the run invariant, only appends to the log, and stops at the first
   * halting event. It succeeds exactly when it was asked for a directory, could list every
   * directory below it, and met no halting event.
   */
  lemma {:induction false} TreeRuns(env: Env, path: Path, n: Node, r: Run)
    requires RunInv(env, r)
    ensures var o := RemoveTree(env, path, n, r);
      && RunInv(env, o.run) && Follows(r, o.run) && HaltsLast(r, o.run, o.ok)
      && (o.ok ==> n.Dir? && Traversable(n))
      && (!o.ok && n.Dir? && Traversable(n) ==> EndsInHalt(r, o.run))
      && (!n.Dir? ==> o.run == r)
    decreases n, 0
  {
    if n.Dir? && n.readable {
      EntriesRuns(env, path, n.entries, 0, 0, r);
      var pass := RemoveEntries(env, path, n.entries, 0, 0, r);
      if pass.ok {
        var s := EndBatch(env, pass.run, pass.files, pass.bytes, true).1;
        EndBatchRuns(env, pass.run, pass.files, pass.bytes, true);
        Chain(r, pass.run, s, true);
        LoggedRuns(env, s, RemovedDir(path));
        Chain(r, s, Logged(s, RemovedDir(path)), true);
      }
    }
  }

  lemma {:induction false} EntryRuns(env: Env, path: Path, n: Node, r: Run)
    requires RunInv(env, r) && r.log != [] && SawIdle(r.log[|r.log| - 1])
    ensures var step := RemoveEntry(env, path, n, r);
      && RunInv(env, step.run) && Follows(r, step.run) && HaltsLast(r, step.run, step.ok)
      && step.files <= 1 && (step.ok ==> Traversable(n))
      && (!step.ok && Traversable(n) ==> EndsInHalt(r, step.run))
    decreases n, 1
  {
    if n.Dir? {
      TreeRuns(env, path, n, r);
    } else if n.Leaf? {
      LoggedRuns(env, r, Unlinked(path, n.size));
    }
  }

  lemma {:induction false} AccountRuns(env: Env, r: Run, step: Step, files: nat, bytes: nat)
    requires RunInv(env, step.run) && Follows(r, step.run) && HaltsLast(r, step.run, step.ok)
    requires Open(env, files) && step.files <= 1
    ensures var after := Account(env, step, files, bytes);
      && RunInv(env, after.run) && Follows(r, after.run) && HaltsLast(r, after.run, after.ok)
      && (after.ok ==> step.ok && Open(env, after.files))
      && (!step.ok ==> !after.ok && after.run == step.run)
      && (step.ok && !after.ok ==> EndsInHalt(r, after.run))
  {
    var f, b := files + step.files, bytes + step.bytes;
    if step.ok && f >= env.config.maxFilesPerBatch {
      var (goOn, s) := EndBatch(env, step.run, f, b, false);
      EndBatchRuns(env, step.run, f, b, false);
      Chain(r, step.run, s, goOn);
    }
  }

  lemma {:induction false} VisitRuns(env: Env, path: Path, n: Node, files: nat, bytes: nat, r: Run)
    requires RunInv(env, r) && Open(env, files)
    ensures var step := Visit(env, path, n, files, bytes, r);
      && RunInv(env, step.run) && Follows(r, step.run) && HaltsLast(r, step.run, step.ok)
      && (step.ok ==> Traversable(n) && Open(env, step.files))
      && (!step.ok && Traversable(n) ==> EndsInHalt(r, step.run))
    decreases n, 2
  {
    var (idle, r1) := Observe(env, r);
    ObserveRuns(env, r);
    if !idle.NotIdle? {
      var step := RemoveEntry(env, path, n, r1);
      EntryRuns(env, path, n, r1);
      Chain(r, r1, step.run, step.ok);
      AccountRuns(env, r, step, files, bytes);
    }
  }

  lemma {:induction false} EntriesRuns(env: Env, path: Path, es: seq<Entry>, files: nat, bytes: nat, r: Run)
    requires RunInv(env, r) && Open(env, files)
    ensures var pass := RemoveEntries(env, path, es, files, bytes, r);
      && RunInv(env, pass.run) && Follows(r, pass.run) && HaltsLast(r, pass.run, pass.ok)
      && (pass.ok ==> Open(env, pass.files) && forall e :: e in es ==> Traversable(e.node))
      && (!pass.ok && (forall e :: e in es ==> Traversable(e.node)) ==> EndsInHalt(r, pass.run))
    decreases es, 0
  {
    if es != [] {
      var step := Visit(env, path + [es[0].name], es[0].node, files, bytes, r);
      VisitRuns(env, path + [es[0].name], es[0].node, files, bytes, r);
      if step.ok {
        EntriesRuns(env, path, es[1..], step.files, step.bytes, step.run);
        var pass := RemoveEntries(env, path, es[1..], step.files, step.bytes, step.run);
        Chain(r, step.run, pass.run, pass.ok);
      }
    }
  }

  /** The verdict in one line: success means a listable tree and no halting event, and nothing else does. */
  lemma {:induction false} SucceedsExactlyWhen(env: Env, path: Path, n: Node, r: Run)
    requires RunInv(env, r)
    ensures var o := RemoveTree(env, path, n, r);
      o.ok <==> n.Dir? && Traversable(n) && forall i :: |r.log| <= i < |o.run.log| ==> !Halts(o.run.log[i])
  {
    TreeRuns(env, path, n, r);
  }
}

/**
 * The recursive batched removal as a function of the tree, the environment and the
 * counters of the run. `CacheCleaner` proves that the methods compute it.
 */
module Cleaning {
  import opened Basics
  import opened FileTree
  import opened IdleDetection
  import opened Phone

  /**
   * What a removal threads along: the screen-off stamp, how many observations and limit
   * checks were made, the totals of the diagnostics module, and the log.
   */
  datatype Run = Run(stamp: u64, observed: nat, limited: nat, files: int, bytes: nat, log: seq<Event>)

  /** A batch that was open when its frame was abandoned; its numbers never reach the totals. */
  datatype Tally = Tally(files: nat, bytes: nat)

  /** `left` is what remains of a node; `lost` the open batches abandoned on an abort, innermost first. */
  datatype Outcome = Outcome(left: Option<Node>, run: Run, ok: bool, lost: seq<Tally>)

  /** The same for one entry of a directory; `files` and `bytes` are what its frame adds to its batch. */
  datatype Step = Step(left: Option<Node>, run: Run, ok: bool, files: nat, bytes: nat, lost: seq<Tally>)

  /** The same for the entries still to visit; `files` and `bytes` are the batch that is open at the end. */
  datatype Pass = Pass(left: seq<Entry>, run: Run, ok: bool, files: nat, bytes: nat, lost: seq<Tally>)

  /** What the totals may reach before batch ends fail. */
  function Budget(config: Config): u64 { Mebibytes(config.maxCleanupMbPerRun) }

  function Observe(env: Env, r: Run): (IdleState, Run) {
    var o := env.obs(r.observed);
    var idle := Verdict(r.stamp, o, env.config.idleDelayMinutes);
    (idle, r.(stamp := NextStamp(r.stamp, o), observed := r.observed + 1, log := r.log + [Observed(o, idle)]))
  }

  function EndBatch(env: Env, r: Run, files: int, bytes: nat, final: bool): (bool, Run) {
    var total := r.bytes + bytes;
    var over := total > Budget(env.config);
    var goOn := !over && env.withinLimits(r.limited);
    (goOn, r.(files := r.files + files, bytes := total,
              limited := if over then r.limited else r.limited + 1,
              log := r.log + [BatchEnded(files, bytes, total, final, goOn)]))
  }

  function Logged(r: Run, e: Event): Run { r.(log := r.log + [e]) }

  /** Removes what can be removed below and including `n`, which lies at `path`. */
  function RemoveTree(env: Env, path: Path, n: Node, r: Run): Outcome
    decreases n, 0
  {
    if !n.Dir? || !n.readable then Outcome(Some(n), r, false, [])
    else
      var pass := RemoveEntries(env, path, n.entries, 0, 0, r);
      if !pass.ok then Outcome(Some(n.(entries := pass.left)), pass.run, false, pass.lost)
      else
        var run := EndBatch(env, pass.run, pass.files, pass.bytes, true).1;
        if pass.left == [] && n.removable then Outcome(None, Logged(run, RemovedDir(path)), true, [])
        else Outcome(Some(n.(entries := pass.left)), run, true, [])
  }

  /** Recurses into a directory and unlinks anything else that `lstat` can examine. */
  function RemoveEntry(env: Env, path: Path, n: Node, r: Run): Step
    decreases n, 1
  {
    match n
    case Dir(_, _, _) => var o := RemoveTree(env, path, n, r); Step(o.left, o.run, o.ok, 0, 0, o.lost)
    case Leaf(_, size, removable) =>
      if removable then Step(None, Logged(r, Unlinked(path, size)), true, 1, size, [])
      else Step(Some(n), r, true, 0, 0, [])
    case Sealed => Step(Some(n), r, true, 0, 0, [])
  }

  /** One turn of the loop over a directory's children, with `files` and `bytes` in the open batch. */
  function Visit(env: Env, path: Path, n: Node, files: nat, bytes: nat, r: Run): Step
    decreases n, 2
  {
    var (idle, r1) := Observe(env, r);
    if idle.NotIdle? then Step(Some(n), r1, false, 0, 0, [Tally(files, bytes)])
    else Account(env, RemoveEntry(env, path, n, r1), files, bytes)
  }

  /** Adds what an entry yielded to the open batch, and ends the batch when it reaches the limit. */
  function Account(env: Env, step: Step, files: nat, bytes: nat): Step {
    if !step.ok then step.(lost := step.lost + [Tally(files, bytes)])
    else
      var f, b := files + step.files, bytes + step.bytes;
      if f < env.config.maxFilesPerBatch then step.(files := f, bytes := b)
      else
        var (goOn, run) := EndBatch(env, step.run, f, b, false);
        Step(step.left, run, goOn, 0, 0, [])
  }

  function RemoveEntries(env: Env, path: Path, es: seq<Entry>, files: nat, bytes: nat, r: Run): Pass
    decreases es, 0
  {
    if es == [] then Pass([], r, true, files, bytes, [])
    else
      var step := Visit(env, path + [es[0].name], es[0].node, files, bytes, r);
      var kept := Kept(es[0].name, step.left);
      if !step.ok then Pass(kept + es[1..], step.run, false, 0, 0, step.lost)
      else Behind(kept, RemoveEntries(env, path, es[1..], step.files, step.bytes, step.run))
  }

  function Behind(done: seq<Entry>, pass: Pass): Pass { pass.(left := done + pass.left) }

  /** How one turn of the loop over `es` moves on what is done and what is still to visit. */
  lemma {:induction false} LoopTurn(env: Env, path: Path, done: seq<Entry>, es: seq<Entry>, i: nat, files: nat,
      bytes: nat, r: Run)
    requires i < |es|
    ensures var step := Visit(env, path + [es[i].name], es[i].node, files, bytes, r);
      var kept := Kept(es[i].name, step.left);
      Behind(done, RemoveEntries(env, path, es[i..], files, bytes, r)) ==
      if !step.ok then Pass(done + kept + es[i + 1..], step.run, false, 0, 0, step.lost)
      else Behind(done + kept, RemoveEntries(env, path, es[i + 1..], step.files, step.bytes, step.run))
  {
    var step := Visit(env, path + [es[i].name], es[i].node, files, bytes, r);
    var kept := Kept(es[i].name, step.left);
    assert es[i..][1..] == es[i + 1..];
    assert done + (kept + es[i + 1..]) == done + kept + es[i + 1..];
    var pass := RemoveEntries(env, path, es[i + 1..], step.files, step.bytes, step.run);
    assert done + (kept + pass.left) == (done + kept) + pass.left;
  }
}

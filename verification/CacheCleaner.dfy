/** The cleaner's methods over the device, proved against the functions of `Cleaning`. */
module CacheCleaner {
  import opened Basics
  import opened FileTree
  import opened IdleDetection
  import opened Phone
  import opened Cleaning

  class IdleDetector {
    const device: Device
    var screenOffTime: u64

    constructor (device: Device)
      ensures this.device == device && screenOffTime == 0
    {
      this.device, screenOffTime := device, 0;
    }

    method EvaluateIdleState() returns (idle: IdleState)
      modifies this, device`observed, device`log
      ensures var o := device.env.obs(old(device.observed));
        && idle == Verdict(old(screenOffTime), o, device.env.config.idleDelayMinutes)
        && screenOffTime == NextStamp(old(screenOffTime), o)
        && device.observed == old(device.observed) + 1
        && device.log == old(device.log) + [Observed(o, idle)]
    {
      var o := device.Observe();
      if o.screenOn {
        screenOffTime := 0;
        idle := NotIdle;
      } else {
        if screenOffTime == 0 {
          screenOffTime := o.now;
        }
        var requiredDelay := RequiredDelay(device.env.config.idleDelayMinutes);
        if AsU64(o.now - screenOffTime) < requiredDelay {
          idle := ScreenOff;
        } else if !o.batterySafe || !o.thermalSafe || !o.memorySafe || o.heavyForeground {
          idle := ScreenOff;
        } else {
          idle := IdleCandidate;
        }
      }
      device.log := device.log + [Observed(o, idle)];
    }
  }

  class Diagnostics {
    const device: Device
    var totalFiles: int
    var totalBytes: nat

    constructor (device: Device)
      ensures this.device == device && totalFiles == 0 && totalBytes == 0
    {
      this.device, totalFiles, totalBytes := device, 0, 0;
    }

    method EndBatch(files: int, bytes: nat, ghost final: bool) returns (goOn: bool)
      modifies this, device`limited, device`log
      ensures totalFiles == old(totalFiles) + files && totalBytes == old(totalBytes) + bytes
      ensures var over := totalBytes > Budget(device.env.config);
        && goOn == (!over && device.env.withinLimits(old(device.limited)))
        && device.limited == (if over then old(device.limited) else old(device.limited) + 1)
        && device.log == old(device.log) + [BatchEnded(files, bytes, totalBytes, final, goOn)]
    {
      totalFiles := totalFiles + files;
      totalBytes := totalBytes + bytes;
      if totalBytes > Budget(device.env.config) {
        goOn := false;
      } else {
        goOn := device.CheckSelfLimits();
      }
      device.log := device.log + [BatchEnded(files, bytes, totalBytes, final, goOn)];
    }
  }

  class Cleaner {
    const device: Device
    const idle: IdleDetector
    const diagnostics: Diagnostics

    constructor (device: Device, idle: IdleDetector, diagnostics: Diagnostics)
      requires idle.device == device && diagnostics.device == device
      ensures this.device == device && this.idle == idle && this.diagnostics == diagnostics && Wired()
    {
      this.device, this.idle, this.diagnostics := device, idle, diagnostics;
    }

    predicate Wired() { idle.device == device && diagnostics.device == device }

    ghost function Now(): Run
      reads device, idle, diagnostics
    {
      Run(idle.screenOffTime, device.observed, device.limited, diagnostics.totalFiles, diagnostics.totalBytes,
          device.log)
    }

    method Evaluate() returns (verdict: IdleState)
      requires Wired()
      modifies idle, device`observed, device`log
      ensures (verdict, Now()) == Observe(device.env, old(Now()))
    {
      verdict := idle.EvaluateIdleState();
    }

    method CloseBatch(files: int, bytes: nat, ghost final: bool) returns (goOn: bool)
      requires Wired()
      modifies diagnostics, device`limited, device`log
      ensures (goOn, Now()) == EndBatch(device.env, old(Now()), files, bytes, final)
    {
      goOn := diagnostics.EndBatch(files, bytes, final);
    }

    /** The body of the loop over children, without the observation: recurse or unlink. */
    method RemoveOne(path: Path, ghost n: Node) returns (ok: bool, files: nat, bytes: nat)
      requires Wired() && device.Mounted() && At(device.root, path) == Some(n)
      modifies device`root, device`observed, device`limited, device`log, idle, diagnostics
      ensures var step := RemoveEntry(device.env, path, n, old(Now()));
        && ok == step.ok && Now() == step.run
        && files == step.files && bytes == step.bytes
        && device.root == Put(old(device.root), path, step.left)
      ensures device.Mounted()
      decreases Height(n), 1
    {
      ok, files, bytes := true, 0, 0;
      PutSame(device.root, path);
      var st := device.Lstat(path);
      match st
      case Missing =>
      case Directory =>
        ok := RemoveRecursiveBatched(path, Some(n));
      case Other(size) =>
        PutWellFormed(device.root, path, None);
        var removed := device.SafeRemove(path);
        if removed {
          files, bytes := 1, size;
        }
    }

    /** One turn of the loop over children: the idle check, the child, and the batch limit. */
    method VisitChild(path: Path, ghost n: Node, filesRemoved: nat, bytesFreed: nat)
      returns (ok: bool, files: nat, bytes: nat)
      requires Wired() && device.Mounted() && At(device.root, path) == Some(n)
      modifies device`root, device`observed, device`limited, device`log, idle, diagnostics
      ensures var step := Visit(device.env, path, n, filesRemoved, bytesFreed, old(Now()));
        && ok == step.ok && Now() == step.run
        && (ok ==> files == step.files && bytes == step.bytes)
        && device.root == Put(old(device.root), path, step.left)
      ensures device.Mounted()
      decreases Height(n), 2
    {
      files, bytes := 0, 0;
      var verdict := Evaluate();
      if verdict.NotIdle? {
        PutSame(device.root, path);
        return false, 0, 0;
      }
      ok, files, bytes := RemoveOne(path, n);
      if !ok { return; }
      files, bytes := filesRemoved + files, bytesFreed + bytes;
      if files >= device.env.config.maxFilesPerBatch {
        ok := CloseBatch(files, bytes, false);
        files, bytes := 0, 0;
      }
    }

    /** The loop over a directory's children; the batch that is open at its end is returned. */
    method VisitChildren(path: Path, children: seq<string>, ghost d: Node)
      returns (ok: bool, filesRemoved: nat, bytesFreed: nat)
      requires Wired() && device.Mounted() && At(device.root, path) == Some(d)
      requires d.Dir? && children == Names(d.entries)
      modifies device`root, device`observed, device`limited, device`log, idle, diagnostics
      ensures var pass := RemoveEntries(device.env, path, d.entries, 0, 0, old(Now()));
        && ok == pass.ok && Now() == pass.run
        && (ok ==> filesRemoved == pass.files && bytesFreed == pass.bytes)
        && device.root == Put(old(device.root), path, Some(d.(entries := pass.left)))
      ensures device.Mounted()
      decreases HeightOf(d.entries), 3
    {
      ghost var t, es := device.root, d.entries;
      ghost var whole := RemoveEntries(device.env, path, es, 0, 0, Now());
      filesRemoved, bytesFreed := 0, 0;
      ghost var done: seq<Entry> := [];
      LoopStart(t, path, d);
      for i := 0 to |children|
        invariant device.Mounted()
        invariant device.root == Put(t, path, Some(d.(entries := done + es[i..])))
        invariant whole == Behind(done, RemoveEntries(device.env, path, es[i..], filesRemoved, bytesFreed, Now()))
        invariant Apart(done, es, i)
      {
        ghost var e := es[i];
        ghost var step := Visit(device.env, path + [e.name], e.node, filesRemoved, bytesFreed, Now());
        LoopTurn(device.env, path, done, es, i, filesRemoved, bytesFreed, Now());
        LoopPut(t, path, d, done, es, i, step.left);
        HeightMember(es, i);
        ok, filesRemoved, bytesFreed := VisitChild(path + [children[i]], e.node, filesRemoved, bytesFreed);
        if !ok { return; }
        done := done + Kept(e.name, step.left);
      }
      LoopEnd(done, es);
      ok := true;
    }

    method RemoveRecursiveBatched(path: Path, ghost n: Option<Node>) returns (ok: bool)
      requires Wired() && device.Mounted() && At(device.root, path) == n
      modifies device`root, device`observed, device`limited, device`log, idle, diagnostics
      ensures n.None? ==> !ok && Now() == old(Now()) && device.root == old(device.root)
      ensures n.Some? ==>
        var o := RemoveTree(device.env, path, n.value, old(Now()));
        ok == o.ok && Now() == o.run && device.root == Put(old(device.root), path, o.left)
      ensures device.Mounted()
      decreases if n.Some? then Height(n.value) else 0, 0
    {
      ghost var t := device.root;
      var listed, children := device.GetDirectoryChildren(path);
      if !listed {
        if n.Some? { PutSame(t, path); }
        return false;
      }
      var filesRemoved, bytesFreed;
      ok, filesRemoved, bytesFreed := VisitChildren(path, children, n.value);
      if !ok { return; }
      var _ := CloseBatch(filesRemoved, bytesFreed, true);
      ghost var left := At(device.root, path);
      AtPut(t, path,
          Some(n.value.(entries := RemoveEntries(device.env, path, n.value.entries, 0, 0, old(Now())).left)));
      PutTwice(t, path, left.value, None);
      PutWellFormed(device.root, path, None);
      var _ := device.SafeRemove(path);
    }
  }
}

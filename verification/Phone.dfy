/**
 * The device the daemon runs on: a mounted file tree, sensors, clocks and the path
 * resolver. Everything it answers is fixed in advance by an `Env`, in the order of asking,
 * so that a statement for all environments covers every behaviour of the device.
 */
module Phone {
  import opened Basics
  import opened FileTree
  import opened IdleDetection
  import opened StateStorage

  datatype PackageInfo = PackageInfo(name: string, dataDir: string, isSystem: bool)

  datatype Env = Env(
    config: Config,
    obs: nat -> Observation,
    screen: nat -> bool,
    wall: nat -> u64,
    withinLimits: nat -> bool,
    realpath: string -> string,
    installed: nat -> seq<PackageInfo>)

  /** What happened, for stating properties of whole runs. */
  datatype Event =
    | Observed(seen: Observation, idle: IdleState)
    | Unlinked(path: Path, size: nat)
    | RemovedDir(path: Path)
    | BatchEnded(files: int, bytes: nat, total: nat, final: bool, goOn: bool)
    | Analyzed(now: u64, before: Store)
    | Cleaned(pkg: string, at: u64)

  datatype Stat = Missing | Directory | Other(size: nat)

  predicate Listable(n: Option<Node>) { n.Some? && n.value.Dir? && n.value.readable }

  function StatOf(n: Option<Node>): Stat {
    if n.None? || n.value.Sealed? then Missing
    else if n.value.Dir? then Directory
    else Other(n.value.size)
  }

  /** Whether `unlink` or `rmdir` would succeed. */
  predicate Removable(n: Option<Node>) {
    n.Some? && !n.value.Sealed? && n.value.removable && (n.value.Dir? ==> n.value.entries == [])
  }

  function RemovalEvent(path: Path, n: Node): Event
    requires !n.Sealed?
  {
    if n.Dir? then RemovedDir(path) else Unlinked(path, n.size)
  }

  class Device {
    const env: Env
    var root: Option<Node>
    /** How many answers of each kind have been given. */
    var observed: nat
    var screened: nat
    var clocked: nat
    var limited: nat
    var listed: nat
    ghost var log: seq<Event>

    constructor (env: Env, root: Option<Node>)
      ensures this.env == env && this.root == root && log == []
      ensures observed == screened == clocked == limited == listed == 0
    {
      this.env, this.root := env, root;
      observed, screened, clocked, limited, listed := 0, 0, 0, 0, 0;
      log := [];
    }

    ghost predicate Mounted() reads this { WellFormedRoot(root) }

    method Observe() returns (o: Observation)
      modifies this`observed
      ensures o == env.obs(old(observed)) && observed == old(observed) + 1
    {
      o := env.obs(observed);
      observed := observed + 1;
    }

    method IsScreenOn() returns (on: bool)
      modifies this`screened
      ensures on == env.screen(old(screened)) && screened == old(screened) + 1
    {
      on := env.screen(screened);
      screened := screened + 1;
    }

    method GetCurrentTimeMs() returns (now: u64)
      modifies this`clocked
      ensures now == env.wall(old(clocked)) && clocked == old(clocked) + 1
    {
      now := env.wall(clocked);
      clocked := clocked + 1;
    }

    method GetInstalledPackages() returns (packages: seq<PackageInfo>)
      modifies this`listed
      ensures packages == env.installed(old(listed)) && listed == old(listed) + 1
    {
      packages := env.installed(listed);
      listed := listed + 1;
    }

    method CheckSelfLimits() returns (ok: bool)
      modifies this`limited
      ensures ok == env.withinLimits(old(limited)) && limited == old(limited) + 1
    {
      ok := env.withinLimits(limited);
      limited := limited + 1;
    }

    method GetDirectoryChildren(path: Path) returns (ok: bool, children: seq<string>)
      ensures ok <==> Listable(At(root, path))
      ensures children == if ok then Names(At(root, path).value.entries) else []
    {
      children := [];
      ok := Listable(At(root, path));
      if !ok { return; }
      var listing := At(root, path).value.entries;
      for i := 0 to |listing|
        invariant children == Names(listing)[..i]
      {
        children := children + [listing[i].name];
      }
    }

    method Lstat(path: Path) returns (st: Stat)
      ensures st == StatOf(At(root, path))
    {
      st := StatOf(At(root, path));
    }

    /** Unlinks a leaf or removes an empty directory. */
    method SafeRemove(path: Path) returns (ok: bool)
      modifies this`root, this`log
      ensures ok <==> Removable(old(At(root, path)))
      ensures root == if ok then Put(old(root), path, None) else old(root)
      ensures log == old(log) + if ok then [RemovalEvent(path, old(At(root, path)).value)] else []
    {
      var n := At(root, path);
      if n.None? || n.value.Sealed? { return false; }
      ok := Removable(n);
      if ok {
        root := Put(root, path, None);
        log := log + [RemovalEvent(path, n.value)];
      }
    }

    /** Sums the leaves below a directory; unreadable directories count nothing. */
    method GetDirectorySize(path: Path, ghost n: Option<Node>) returns (size: nat)
      requires Mounted() && n == At(root, path)
      ensures size == DirectorySize(n)
      decreases if n.Some? then Height(n.value) else 0
    {
      size := 0;
      var ok, children := GetDirectoryChildren(path);
      if !ok { return 0; }
      ghost var es := n.value.entries;
      AtWellFormed(root, path);
      for i := 0 to |children|
        invariant size + SizeOf(es[i..]) == SizeOf(es)
      {
        AtAppend(root, path, [children[i]]);
        FindMember(es, i);
        var st := Lstat(path + [children[i]]);
        assert SizeOf(es[i..]) == Size(es[i].node) + SizeOf(es[i + 1..]);
        match st
        case Missing =>
        case Directory =>
          HeightMember(es, i);
          var below := GetDirectorySize(path + [children[i]], Some(es[i].node));
          size := size + below;
        case Other(bytes) =>
          size := size + bytes;
      }
    }
  }
}

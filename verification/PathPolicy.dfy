/** Which paths count as a package's cache: a string test that is meant as component containment. */
module PathPolicy {
  import opened Basics
  import opened FileTree
  import opened Phone
  import opened CacheAnalysis

  // ----- Path strings and their components

  predicate IsComponent(c: string) { c != "" && '/' !in c && c != "." && c != ".." }

  ghost predicate AllComponents(cs: Path) { forall i :: 0 <= i < |cs| ==> IsComponent(cs[i]) }

  function RenderBelow(cs: Path): string { if cs == [] then "" else ['/'] + cs[0] + RenderBelow(cs[1..]) }

  /** The canonical absolute path with these components. */
  function Render(cs: Path): string { if cs == [] then "/" else RenderBelow(cs) }

  /** `realpath` yields nothing or a canonical absolute path. */
  ghost predicate CanonicalOrEmpty(s: string) { s == "" || exists cs :: AllComponents(cs) && s == Render(cs) }

  ghost predicate Resolves(realpath: string -> string) { forall s :: CanonicalOrEmpty(realpath(s)) }

  /** The length of the part of `s` before its first slash. */
  function Until(s: string): (n: nat)
    ensures n <= |s| && '/' !in s[..n] && (n < |s| ==> s[n] == '/')
  {
    if s == "" || s[0] == '/' then 0 else 1 + Until(s[1..])
  }

  /** The components between slashes; repeated and trailing slashes count nothing. */
  function Split(s: string): Path
    decreases |s|
  {
    if s == "" then []
    else if s[0] == '/' then Split(s[1..])
    else var n := Until(s); if n == 0 then [] else [s[..n]] + Split(s[n..])
  }

  lemma {:induction false} UntilComponent(c: string, rest: string)
    requires '/' !in c && (rest == "" || rest[0] == '/')
    ensures Until(c + rest) == |c|
  {
    if c != "" {
      UntilComponent(c[1..], rest);
      assert (c + rest)[1..] == c[1..] + rest;
      assert c[0] in c;
    } else {
      assert c + rest == rest;
    }
  }

  lemma {:induction false} SplitComponent(c: string, tail: string)
    requires IsComponent(c) && (tail == "" || tail[0] == '/')
    ensures Split(['/'] + (c + tail)) == [c] + Split(tail)
  {
    UntilComponent(c, tail);
    assert c[0] in c && (c + tail)[0] == c[0];
    assert (c + tail)[..|c|] == c && (c + tail)[|c|..] == tail;
    assert (['/'] + (c + tail))[1..] == c + tail;
  }

  lemma {:induction false} SplitAfter(cs: Path, rest: string)
    requires AllComponents(cs) && (rest == "" || rest[0] == '/')
    ensures Split(RenderBelow(cs) + rest) == cs + Split(rest)
  {
    if cs == [] {
      assert RenderBelow(cs) + rest == rest;
      assert [] + Split(rest) == Split(rest);
    } else {
      var c, below := cs[0], RenderBelow(cs[1..]);
      SplitAfter(cs[1..], rest);
      assert RenderBelow(cs) + rest == ['/'] + (c + (below + rest)) by {
        Associative(['/'] + c, below, rest);
        Associative(['/'], c, below + rest);
      }
      SplitComponent(c, below + rest);
      assert [c] + (cs[1..] + Split(rest)) == cs + Split(rest) by {
        Associative([c], cs[1..], Split(rest));
        assert [c] + cs[1..] == cs;
      }
    }
  }

  /** Splitting undoes rendering, so canonical paths and component lists are in one-to-one correspondence. */
  lemma {:induction false} SplitOfRender(cs: Path)
    requires AllComponents(cs)
    ensures Split(Render(cs)) == cs
  {
    SplitAfter(cs, "");
    if cs == [] {
      assert "/"[1..] == "";
    } else {
      assert RenderBelow(cs) + "" == RenderBelow(cs);
      assert cs + [] == cs;
    }
  }

  lemma {:induction false} RenderConcat(a: Path, b: Path)
    ensures RenderBelow(a + b) == RenderBelow(a) + RenderBelow(b)
  {
    if a == [] {
      assert a + b == b;
    } else {
      RenderConcat(a[1..], b);
      assert (a + b)[1..] == a[1..] + b;
    }
  }

  // ----- The containment test

  /** The comparison of `IsPathUnderRoot` on canonical strings. */
  predicate StartsBelow(path: string, root: string) {
    |path| > |root| && path[..|root|] == root && path[|root|] == '/'
  }

  predicate IsPathUnderRoot(realpath: string -> string, path: string, root: string) {
    var canonPath, canonRoot := realpath(path), realpath(root);
    canonPath != "" && canonRoot != "" && StartsBelow(canonPath, canonRoot)
  }

  /** On canonical paths the string test is proper component containment, except below "/", where it always fails. */
  lemma {:induction false} StringTestIsContainment(p: Path, r: Path)
    requires AllComponents(p) && AllComponents(r)
    ensures StartsBelow(Render(p), Render(r)) <==> r != [] && r < p
  {
    var path, root := Render(p), Render(r);
    if r == [] {
      if p != [] { assert p[0][0] in p[0] && path[1] == p[0][0]; }
    } else if r < p {
      assert p == r + p[|r|..];
      RenderConcat(r, p[|r|..]);
    }
    if r != [] && StartsBelow(path, root) {
      var rest := path[|root|..];
      assert path == root + rest;
      SplitAfter(r, rest);
      SplitOfRender(p);
      SplitOfRender(r);
      assert p == r + Split(rest);
      assert r + [] == r;
    }
  }

  /** The position after the last slash, or 0 where there is none. */
  function AfterLastSlash(s: string): (n: nat)
    ensures n <= |s|
  {
    if s == "" then 0 else if s[|s| - 1] == '/' then |s| else AfterLastSlash(s[..|s| - 1])
  }

  predicate IsCacheName(name: string) { name == "cache" || name == "code_cache" }

  predicate IsValidCachePath(realpath: string -> string, path: string, dataDir: string) {
    && IsPathUnderRoot(realpath, path, dataDir)
    && var canon := realpath(path); '/' in canon && IsCacheName(canon[AfterLastSlash(canon)..])
  }

  lemma {:induction false} AfterLastSlashOf(s: string, c: string)
    requires '/' !in c
    ensures AfterLastSlash(s + ['/'] + c) == |s| + 1
  {
    var t := s + ['/'] + c;
    if c == "" {
      assert t == s + ['/'];
    } else {
      assert c[|c| - 1] in c;
      AfterLastSlashOf(s, c[..|c| - 1]);
      assert t[..|t| - 1] == s + ['/'] + c[..|c| - 1];
    }
  }

  lemma {:induction false} LastComponent(p: Path)
    requires p != [] && AllComponents(p)
    ensures var s := Render(p); '/' in s && s[AfterLastSlash(s)..] == p[|p| - 1]
  {
    var init, last := p[..|p| - 1], p[|p| - 1];
    assert p == init + [last];
    RenderConcat(init, [last]);
    assert RenderBelow([last]) == ['/'] + last by {
      assert [last][1..] == [];
      assert ['/'] + last + "" == ['/'] + last;
    }
    var s := RenderBelow(init);
    assert Render(p) == s + ['/'] + last;
    AfterLastSlashOf(s, last);
  }

  /** A path is accepted exactly when it resolves strictly below the data directory to something named as a cache. */
  lemma {:induction false} ValidExactlyWhen(realpath: string -> string, path: string, dataDir: string, p: Path, r: Path)
    requires AllComponents(p) && AllComponents(r)
    requires realpath(path) == Render(p) && realpath(dataDir) == Render(r)
    ensures IsValidCachePath(realpath, path, dataDir) <==>
      r != [] && r < p && (p[|p| - 1] == "cache" || p[|p| - 1] == "code_cache")
  {
    StringTestIsContainment(p, r);
    if r != [] && r < p { LastComponent(p); }
  }

  // ----- Scanning a package

  const EXTERNAL: string := "/sdcard/Android/data/"

  function Candidates(config: Config, pkg: PackageInfo): seq<string> {
    [pkg.dataDir + "/cache", pkg.dataDir + "/code_cache"] +
    if config.includeExternalCache then [EXTERNAL + pkg.name + "/cache"] else []
  }

  predicate Included(config: Config, pkg: PackageInfo) {
    if pkg.isSystem then config.includeSystemApps else config.includeUserApps
  }

  predicate Accepted(env: Env, root: Option<Node>, candidate: string, pkg: PackageInfo) {
    && (IsValidCachePath(env.realpath, candidate, pkg.dataDir) || EXTERNAL <= candidate)
    && StatOf(At(root, Split(candidate))).Directory?
  }

  function Unmeasured(candidate: string, pkg: PackageInfo): CacheDirInfo {
    CacheDirInfo(Split(candidate), pkg.name, 0, false)
  }

  function AcceptedOf(env: Env, root: Option<Node>, cands: seq<string>, pkg: PackageInfo): seq<CacheDirInfo> {
    if cands == [] then []
    else
      var n := |cands| - 1;
      AcceptedOf(env, root, cands[..n], pkg) +
      if Accepted(env, root, cands[n], pkg) then [Unmeasured(cands[n], pkg)] else []
  }

  function CacheDirsOf(env: Env, root: Option<Node>, pkg: PackageInfo): seq<CacheDirInfo> {
    if Included(env.config, pkg) then AcceptedOf(env, root, Candidates(env.config, pkg), pkg) else []
  }

  method ScanPackageCache(device: Device, pkg: PackageInfo) returns (dirs: seq<CacheDirInfo>)
    ensures dirs == CacheDirsOf(device.env, device.root, pkg)
  {
    dirs := [];
    if pkg.isSystem && !device.env.config.includeSystemApps { return; }
    if !pkg.isSystem && !device.env.config.includeUserApps { return; }
    var candidates := [pkg.dataDir + "/cache", pkg.dataDir + "/code_cache"];
    if device.env.config.includeExternalCache {
      candidates := candidates + [EXTERNAL + pkg.name + "/cache"];
    }
    assert candidates == Candidates(device.env.config, pkg);
    for i := 0 to |candidates|
      invariant dirs == AcceptedOf(device.env, device.root, candidates[..i], pkg)
    {
      assert candidates[..i + 1][..i] == candidates[..i];
      if IsValidCachePath(device.env.realpath, candidates[i], pkg.dataDir) || EXTERNAL <= candidates[i] {
        var st := device.Lstat(Split(candidates[i]));
        if st.Directory? {
          dirs := dirs + [Unmeasured(candidates[i], pkg)];
        }
      }
    }
    assert candidates[..|candidates|] == candidates;
  }

  lemma {:induction false} AcceptedOfMember(env: Env, root: Option<Node>, cands: seq<string>, pkg: PackageInfo,
      d: CacheDirInfo)
    requires d in AcceptedOf(env, root, cands, pkg)
    ensures exists i :: 0 <= i < |cands| && Accepted(env, root, cands[i], pkg) && d == Unmeasured(cands[i], pkg)
  {
    var n := |cands| - 1;
    if d in AcceptedOf(env, root, cands[..n], pkg) {
      AcceptedOfMember(env, root, cands[..n], pkg, d);
      var i :| 0 <= i < n && Accepted(env, root, cands[..n][i], pkg) && d == Unmeasured(cands[..n][i], pkg);
      assert cands[i] == cands[..n][i];
    } else {
      assert d == Unmeasured(cands[n], pkg);
    }
  }

  /**
   * Every directory a scan yields carries the package's name, and unless its text starts
   * with the external prefix it resolves strictly below the package's data directory and
   * is called `cache` or `code_cache` there.
   */
  lemma {:induction false} ScanStaysInside(env: Env, root: Option<Node>, pkg: PackageInfo, d: CacheDirInfo)
      returns (candidate: string)
    requires Resolves(env.realpath) && d in CacheDirsOf(env, root, pkg)
    ensures candidate in Candidates(env.config, pkg) && d == Unmeasured(candidate, pkg)
    ensures !(EXTERNAL <= candidate) ==> exists p, r ::
      && AllComponents(p) && AllComponents(r)
      && r != [] && r < p && (p[|p| - 1] == "cache" || p[|p| - 1] == "code_cache")
      && env.realpath(candidate) == Render(p) && env.realpath(pkg.dataDir) == Render(r)
  {
    var cands := Candidates(env.config, pkg);
    AcceptedOfMember(env, root, cands, pkg, d);
    var i :| 0 <= i < |cands| && Accepted(env, root, cands[i], pkg) && d == Unmeasured(cands[i], pkg);
    candidate := cands[i];
    if !(EXTERNAL <= candidate) {
      assert CanonicalOrEmpty(env.realpath(candidate)) && CanonicalOrEmpty(env.realpath(pkg.dataDir));
      var p :| AllComponents(p) && env.realpath(candidate) == Render(p);
      var r :| AllComponents(r) && env.realpath(pkg.dataDir) == Render(r);
      ValidExactlyWhen(env.realpath, candidate, pkg.dataDir, p, r);
    }
  }

  // ----- What a scan of one package finds, and all that it finds

  /** The settings that decide whether a package is looked at, for system and for user packages. */
  predicate Wanted(config: Config, pkg: PackageInfo) {
    (pkg.isSystem && config.includeSystemApps) || (!pkg.isSystem && config.includeUserApps)
  }

  /** The places where a package may keep a cache: two below its data directory, and an external one if configured. */
  predicate CachePlace(config: Config, pkg: PackageInfo, place: string) {
    || place == pkg.dataDir + "/cache"
    || place == pkg.dataDir + "/code_cache"
    || (config.includeExternalCache && place == "/sdcard/Android/data/" + pkg.name + "/cache")
  }

  /** What `realpath` says about a place: strictly below the package's data directory, under a cache name. */
  ghost predicate ResolvesInside(realpath: string -> string, place: string, dataDir: string) {
    exists p, r ::
      && AllComponents(p) && AllComponents(r) && realpath(place) == Render(p) && realpath(dataDir) == Render(r)
      && r != [] && r < p && (p[|p| - 1] == "cache" || p[|p| - 1] == "code_cache")
  }

  lemma {:induction false} PlaceIsCandidate(config: Config, pkg: PackageInfo, place: string)
    ensures CachePlace(config, pkg, place) <==> place in Candidates(config, pkg)
  {
    var cands := Candidates(config, pkg);
    assert cands[0] == pkg.dataDir + "/cache" && cands[1] == pkg.dataDir + "/code_cache";
    assert |cands| == if config.includeExternalCache then 3 else 2;
    if config.includeExternalCache { assert cands[2] == "/sdcard/Android/data/" + pkg.name + "/cache"; }
  }

  lemma {:induction false} AcceptedOfHas(env: Env, root: Option<Node>, cands: seq<string>, pkg: PackageInfo, i: nat)
    requires i < |cands| && Accepted(env, root, cands[i], pkg)
    ensures Unmeasured(cands[i], pkg) in AcceptedOf(env, root, cands, pkg)
  {
    var n := |cands| - 1;
    if i < n {
      assert cands[..n][i] == cands[i];
      AcceptedOfHas(env, root, cands[..n], pkg, i);
    }
  }

  /** Everything a package yields is wanted, lies at one of its places, and is a directory there. */
  lemma {:induction false} PackageYields(env: Env, root: Option<Node>, pkg: PackageInfo, d: CacheDirInfo)
      returns (place: string)
    requires Resolves(env.realpath) && d in CacheDirsOf(env, root, pkg)
    ensures Wanted(env.config, pkg) && CachePlace(env.config, pkg, place)
    ensures d == CacheDirInfo(Split(place), pkg.name, 0, false)
    ensures var n := At(root, Split(place)); n.Some? && n.value.Dir?
    ensures ResolvesInside(env.realpath, place, pkg.dataDir) || "/sdcard/Android/data/" <= place
  {
    var cands := Candidates(env.config, pkg);
    AcceptedOfMember(env, root, cands, pkg, d);
    var i :| 0 <= i < |cands| && Accepted(env, root, cands[i], pkg) && d == Unmeasured(cands[i], pkg);
    place := cands[i];
    PlaceIsCandidate(env.config, pkg, place);
    if !("/sdcard/Android/data/" <= place) {
      assert CanonicalOrEmpty(env.realpath(place)) && CanonicalOrEmpty(env.realpath(pkg.dataDir));
      var p :| AllComponents(p) && env.realpath(place) == Render(p);
      var r :| AllComponents(r) && env.realpath(pkg.dataDir) == Render(r);
      ValidExactlyWhen(env.realpath, place, pkg.dataDir, p, r);
    }
  }

  /** Every place of a wanted package that is a directory and resolves as it should is found. */
  lemma {:induction false} PackageFinds(env: Env, root: Option<Node>, pkg: PackageInfo, place: string)
    requires Wanted(env.config, pkg) && CachePlace(env.config, pkg, place)
    requires At(root, Split(place)).Some? && At(root, Split(place)).value.Dir?
    requires ResolvesInside(env.realpath, place, pkg.dataDir) || "/sdcard/Android/data/" <= place
    ensures CacheDirInfo(Split(place), pkg.name, 0, false) in CacheDirsOf(env, root, pkg)
  {
    var cands := Candidates(env.config, pkg);
    PlaceIsCandidate(env.config, pkg, place);
    if !("/sdcard/Android/data/" <= place) {
      var p, r :| && AllComponents(p) && AllComponents(r)
        && env.realpath(place) == Render(p) && env.realpath(pkg.dataDir) == Render(r)
        && r != [] && r < p && (p[|p| - 1] == "cache" || p[|p| - 1] == "code_cache");
      ValidExactlyWhen(env.realpath, place, pkg.dataDir, p, r);
    }
    var i :| 0 <= i < |cands| && cands[i] == place;
    AcceptedOfHas(env, root, cands, pkg, i);
  }
}

/**
 * The file tree the cleaner works on, as a value: lookups, replacements at a path, and the
 * sizes that `GetDirectorySize` reports. Paths are lists of component names.
 */
module FileTree {
  import opened Basics

  type Path = seq<string>

  datatype LeafKind = PlainFile | Symlink

  /**
   * A leaf is anything `lstat` reports as not a directory; nothing is reached through a
   * symlink. A sealed entry is listed by `readdir` but cannot be examined by `lstat`.
   * `removable` says whether unlinking the node, or removing it once empty, succeeds.
   */
  datatype Node =
    | Leaf(kind: LeafKind, size: nat, removable: bool)
    | Dir(readable: bool, removable: bool, entries: seq<Entry>)
    | Sealed

  datatype Entry = Entry(name: string, node: Node)

  // ----- Names and lookups

  function Names(es: seq<Entry>): (names: seq<string>)
    ensures |names| == |es| && forall i :: 0 <= i < |es| ==> names[i] == es[i].name
  {
    seq(|es|, i requires 0 <= i < |es| => es[i].name)
  }

  ghost predicate Distinct(es: seq<Entry>) {
    forall i, j :: 0 <= i < j < |es| ==> es[i].name != es[j].name
  }

  /** No directory lists a name twice. */
  ghost predicate WellFormed(n: Node) {
    n.Dir? ==> Distinct(n.entries) && forall e :: e in n.entries ==> WellFormed(e.node)
  }

  ghost predicate WellFormedRoot(t: Option<Node>) { t.Some? ==> WellFormed(t.value) }

  function Find(es: seq<Entry>, name: string): Option<Node> {
    if es == [] then None
    else if es[0].name == name then Some(es[0].node)
    else Find(es[1..], name)
  }

  function At(t: Option<Node>, p: Path): Option<Node>
    decreases |p|
  {
    if t.None? || p == [] then t
    else if !t.value.Dir? then None
    else At(Find(t.value.entries, p[0]), p[1..])
  }

  /** An entry list of at most one entry: what is left of `name`. */
  function Kept(name: string, n: Option<Node>): seq<Entry> {
    if n.None? then [] else [Entry(name, n.value)]
  }

  function PutEntry(es: seq<Entry>, name: string, n: Option<Node>): seq<Entry> {
    if es == [] then []
    else if es[0].name == name then Kept(name, n) + es[1..]
    else [es[0]] + PutEntry(es[1..], name, n)
  }

  /** The tree with the node at `p` replaced by `n`, or taken out when `n` is `None`. */
  function Put(t: Option<Node>, p: Path, n: Option<Node>): Option<Node>
    decreases |p|
  {
    if p == [] then n
    else if t.None? || !t.value.Dir? then t
    else
      var es := t.value.entries;
      Some(t.value.(entries := PutEntry(es, p[0], Put(Find(es, p[0]), p[1..], n))))
  }

  // ----- Sizes

  function Size(n: Node): nat
    decreases n, 1
  {
    match n
    case Leaf(_, size, _) => size
    case Dir(readable, _, es) => if readable then SizeOf(es) else 0
    case Sealed => 0
  }

  function SizeOf(es: seq<Entry>): nat
    decreases es, 0
  {
    if es == [] then 0 else Size(es[0].node) + SizeOf(es[1..])
  }

  /** `GetDirectorySize` of what is at a path: zero unless it is a readable directory. */
  function DirectorySize(n: Option<Node>): nat {
    if n.Some? && n.value.Dir? then Size(n.value) else 0
  }

  /** The bytes of all files and symlinks of a tree, seen or not. */
  function AllBytes(n: Node): nat
    decreases n, 1
  {
    match n
    case Leaf(_, size, _) => size
    case Dir(_, _, es) => AllBytesOf(es)
    case Sealed => 0
  }

  function AllBytesOf(es: seq<Entry>): nat
    decreases es, 0
  {
    if es == [] then 0 else AllBytes(es[0].node) + AllBytesOf(es[1..])
  }

  /** The tree without what lies in directories that cannot be listed. */
  function Visible(n: Node): Node
    decreases n, 1
  {
    if !n.Dir? then n else n.(entries := if n.readable then VisibleOf(n.entries) else [])
  }

  function VisibleOf(es: seq<Entry>): seq<Entry>
    decreases es, 0
  {
    if es == [] then [] else [Entry(es[0].name, Visible(es[0].node))] + VisibleOf(es[1..])
  }

  /** `GetDirectorySize` counts every byte outside the directories that it cannot list, and none inside. */
  lemma {:induction false} SizeIsVisible(n: Node)
    ensures Size(n) == AllBytes(Visible(n))
    decreases n, 1
  {
    if n.Dir? && n.readable { SizeOfIsVisible(n.entries); }
  }

  lemma {:induction false} SizeOfIsVisible(es: seq<Entry>)
    ensures SizeOf(es) == AllBytesOf(VisibleOf(es))
    decreases es, 0
  {
    if es != [] {
      SizeIsVisible(es[0].node);
      SizeOfIsVisible(es[1..]);
      assert VisibleOf(es)[1..] == VisibleOf(es[1..]);
    }
  }

  /** How many directories are nested at most, counting the node itself. */
  function Height(n: Node): nat
    decreases n, 1
  {
    if n.Dir? then 1 + HeightOf(n.entries) else 0
  }

  function HeightOf(es: seq<Entry>): nat
    decreases es, 0
  {
    if es == [] then 0
    else if Height(es[0].node) > HeightOf(es[1..]) then Height(es[0].node) else HeightOf(es[1..])
  }

  lemma {:induction false} HeightMember(es: seq<Entry>, i: nat)
    requires i < |es|
    ensures Height(es[i].node) <= HeightOf(es)
  {
    if i != 0 { HeightMember(es[1..], i - 1); }
  }

  // ----- Laws of lookups and replacements

  lemma {:induction false} FindMember(es: seq<Entry>, i: nat)
    requires i < |es| && Distinct(es)
    ensures Find(es, es[i].name) == Some(es[i].node)
  {
    if i != 0 { FindMember(es[1..], i - 1); }
  }

  lemma {:induction false} FindWitness(es: seq<Entry>, name: string)
    ensures Find(es, name).Some? ==>
        exists i :: 0 <= i < |es| && es[i].name == name && Some(es[i].node) == Find(es, name)
    ensures Find(es, name).None? ==> forall i :: 0 <= i < |es| ==> es[i].name != name
  {
    if es != [] {
      FindWitness(es[1..], name);
      if es[0].name != name && Find(es, name).Some? {
        var i :| 0 <= i < |es[1..]| && es[1..][i].name == name && Some(es[1..][i].node) == Find(es, name);
        assert es[i + 1] == es[1..][i];
      }
    }
  }

  lemma {:induction false} AtAppend(t: Option<Node>, p: Path, q: Path)
    ensures At(t, p + q) == At(At(t, p), q)
    decreases |p|
  {
    if p == [] {
      assert p + q == q;
    } else if t.Some? && t.value.Dir? {
      AtAppend(Find(t.value.entries, p[0]), p[1..], q);
      assert (p + q)[0] == p[0] && (p + q)[1..] == p[1..] + q;
    } else if t.Some? {
      assert (p + q) != [];
    }
  }

  lemma {:induction false} AtWellFormed(t: Option<Node>, p: Path)
    requires WellFormedRoot(t)
    ensures WellFormedRoot(At(t, p))
    decreases |p|
  {
    if p != [] && t.Some? && t.value.Dir? {
      FindWitness(t.value.entries, p[0]);
      AtWellFormed(Find(t.value.entries, p[0]), p[1..]);
    }
  }

  lemma {:induction false} PutEntryInside(done: seq<Entry>, e: Entry, rest: seq<Entry>, n: Option<Node>)
    requires forall i :: 0 <= i < |done| ==> done[i].name != e.name
    ensures PutEntry(done + [e] + rest, e.name, n) == done + Kept(e.name, n) + rest
  {
    var es := done + [e] + rest;
    if done == [] {
      assert es[1..] == rest;
    } else {
      PutEntryInside(done[1..], e, rest, n);
      assert es[1..] == done[1..] + [e] + rest;
      assert [done[0]] + (done[1..] + Kept(e.name, n) + rest) == done + Kept(e.name, n) + rest;
    }
  }

  lemma {:induction false} FindInside(done: seq<Entry>, e: Entry, rest: seq<Entry>)
    requires forall i :: 0 <= i < |done| ==> done[i].name != e.name
    ensures Find(done + [e] + rest, e.name) == Some(e.node)
  {
    if done != [] {
      FindInside(done[1..], e, rest);
      assert (done + [e] + rest)[1..] == done[1..] + [e] + rest;
    }
  }

  lemma {:induction false} FindOfKept(name: string, n: Option<Node>, rest: seq<Entry>, other: string)
    ensures Find(Kept(name, n) + rest, other) == if n.Some? && other == name then n else Find(rest, other)
  {
    if n.Some? {
      assert (Kept(name, n) + rest)[1..] == rest;
    } else {
      assert Kept(name, n) + rest == rest;
    }
  }

  lemma {:induction false} RestDistinct(es: seq<Entry>)
    requires Distinct(es) && es != []
    ensures Distinct(es[1..]) && Find(es[1..], es[0].name).None?
  {
    FindWitness(es[1..], es[0].name);
  }

  lemma {:induction false} FindPutEntry(es: seq<Entry>, name: string, n: Option<Node>, other: string)
    requires Distinct(es)
    ensures Find(PutEntry(es, name, n), other) ==
            if other != name then Find(es, other) else if Find(es, name).Some? then n else None
  {
    if es != [] {
      RestDistinct(es);
      if es[0].name == name {
        FindOfKept(name, n, es[1..], other);
      } else {
        FindPutEntry(es[1..], name, n, other);
        FindOfKept(es[0].name, Some(es[0].node), PutEntry(es[1..], name, n), other);
      }
    }
  }

  lemma {:induction false} PutEntryTwice(es: seq<Entry>, name: string, a: Node, b: Option<Node>)
    ensures PutEntry(PutEntry(es, name, Some(a)), name, b) == PutEntry(es, name, b)
  {
    if es != [] {
      PutEntryTwice(es[1..], name, a, b);
      var once := PutEntry(es, name, Some(a));
      assert once[1..] == if es[0].name == name then es[1..] else PutEntry(es[1..], name, Some(a));
    }
  }

  lemma {:induction false} PutEntrySame(es: seq<Entry>, name: string)
    requires Find(es, name).Some?
    ensures PutEntry(es, name, Find(es, name)) == es
  {
    if es[0].name != name { PutEntrySame(es[1..], name); }
  }

  lemma {:induction false} PutEntryAbsent(es: seq<Entry>, name: string, n: Option<Node>)
    requires Find(es, name).None?
    ensures PutEntry(es, name, n) == es
  {
    if es != [] { PutEntryAbsent(es[1..], name, n); }
  }

  lemma {:induction false} PutEntryShape(es: seq<Entry>, name: string, n: Option<Node>) returns (k: nat)
    requires Distinct(es) && Find(es, name).Some?
    ensures k < |es| && es[k].name == name
    ensures PutEntry(es, name, n) == es[..k] + Kept(name, n) + es[k + 1..]
  {
    FindWitness(es, name);
    k :| 0 <= k < |es| && es[k].name == name;
    assert es == es[..k] + [es[k]] + es[k + 1..];
    PutEntryInside(es[..k], es[k], es[k + 1..], n);
  }

  lemma {:induction false} SplicedDistinct(es: seq<Entry>, k: nat, n: Option<Node>)
    requires Distinct(es) && k < |es|
    ensures Distinct(es[..k] + Kept(es[k].name, n) + es[k + 1..])
  {
    var fs := es[..k] + Kept(es[k].name, n) + es[k + 1..];
    var shift := if n.None? then 1 else 0;
    forall i | 0 <= i < |fs| ensures fs[i].name == es[if i < k then i else i + shift].name { }
  }

  lemma {:induction false} PutEntryWellFormed(es: seq<Entry>, name: string, n: Option<Node>)
    requires Distinct(es) && (forall e :: e in es ==> WellFormed(e.node)) && WellFormedRoot(n)
    ensures Distinct(PutEntry(es, name, n)) && forall e :: e in PutEntry(es, name, n) ==> WellFormed(e.node)
  {
    if Find(es, name).None? {
      PutEntryAbsent(es, name, n);
    } else {
      var k := PutEntryShape(es, name, n);
      SplicedDistinct(es, k, n);
    }
  }

  lemma {:induction false} PutWellFormed(t: Option<Node>, p: Path, n: Option<Node>)
    requires WellFormedRoot(t) && WellFormedRoot(n)
    ensures WellFormedRoot(Put(t, p, n))
    decreases |p|
  {
    if p != [] && t.Some? && t.value.Dir? {
      var es := t.value.entries;
      FindWitness(es, p[0]);
      PutWellFormed(Find(es, p[0]), p[1..], n);
      PutEntryWellFormed(es, p[0], Put(Find(es, p[0]), p[1..], n));
    }
  }

  lemma {:induction false} AtPut(t: Option<Node>, p: Path, n: Option<Node>)
    requires WellFormedRoot(t) && At(t, p).Some?
    ensures At(Put(t, p, n), p) == n
    decreases |p|
  {
    if p != [] {
      var es := t.value.entries;
      FindWitness(es, p[0]);
      AtPut(Find(es, p[0]), p[1..], n);
      FindPutEntry(es, p[0], Put(Find(es, p[0]), p[1..], n), p[0]);
    }
  }

  lemma {:induction false} PutTwice(t: Option<Node>, p: Path, a: Node, b: Option<Node>)
    requires WellFormedRoot(t) && At(t, p).Some?
    ensures Put(Put(t, p, Some(a)), p, b) == Put(t, p, b)
    decreases |p|
  {
    if p != [] {
      var es := t.value.entries;
      var inner := Put(Find(es, p[0]), p[1..], Some(a));
      FindWitness(es, p[0]);
      PutTwice(Find(es, p[0]), p[1..], a, b);
      FindPutEntry(es, p[0], inner, p[0]);
      PutEntryTwice(es, p[0], inner.value, Put(Find(es, p[0]), p[1..], b));
    }
  }

  lemma {:induction false} PutSame(t: Option<Node>, p: Path)
    requires At(t, p).Some?
    ensures Put(t, p, At(t, p)) == t
    decreases |p|
  {
    if p != [] {
      PutSame(Find(t.value.entries, p[0]), p[1..]);
      PutEntrySame(t.value.entries, p[0]);
    }
  }

  lemma {:induction false} PutChild(t: Option<Node>, p: Path, d: Node, name: string, n: Option<Node>)
    requires d.Dir? && At(t, p) == Some(d)
    ensures Put(t, p + [name], n) == Put(t, p, Some(d.(entries := PutEntry(d.entries, name, n))))
    decreases |p|
  {
    if p == [] {
      assert p + [name] == [name] && [name][1..] == [];
    } else {
      PutChild(Find(t.value.entries, p[0]), p[1..], d, name, n);
      assert (p + [name])[0] == p[0] && (p + [name])[1..] == p[1..] + [name];
    }
  }

  /** No name in `done` occurs among the entries from `i` on. */
  ghost predicate Apart(done: seq<Entry>, es: seq<Entry>, i: nat) {
    forall k, j {:trigger Differ(done[k], es[j])} :: 0 <= k < |done| && i <= j < |es| ==> Differ(done[k], es[j])
  }

  predicate Differ(a: Entry, b: Entry) { a.name != b.name }

  lemma {:induction false} ApartStep(done: seq<Entry>, es: seq<Entry>, i: nat, n: Option<Node>)
    requires i < |es| && Distinct(es) && Apart(done, es, i)
    ensures done + es[i..] == done + [es[i]] + es[i + 1..]
    ensures forall k :: 0 <= k < |done| ==> done[k].name != es[i].name
    ensures Apart(done + Kept(es[i].name, n), es, i + 1)
  {
    var more := done + Kept(es[i].name, n);
    forall k | 0 <= k < |done| ensures done[k].name != es[i].name { assert Differ(done[k], es[i]); }
    forall k, j | 0 <= k < |more| && i + 1 <= j < |es| ensures Differ(more[k], es[j]) {
      if k < |done| { assert Differ(done[k], es[j]); }
    }
  }

  /** Visiting one entry of a directory in place: what is found there, and what replacing it amounts to. */
  lemma {:induction false} PutSpliced(t: Option<Node>, p: Path, d: Node, done: seq<Entry>, e: Entry, rest: seq<Entry>,
      n: Option<Node>)
    requires WellFormedRoot(t) && At(t, p).Some? && d.Dir?
    requires forall i :: 0 <= i < |done| ==> done[i].name != e.name
    ensures var now := Put(t, p, Some(d.(entries := done + [e] + rest)));
      && At(now, p + [e.name]) == Some(e.node)
      && Put(now, p + [e.name], n) == Put(t, p, Some(d.(entries := done + Kept(e.name, n) + rest)))
  {
    var es := done + [e] + rest;
    var now := Put(t, p, Some(d.(entries := es)));
    AtPut(t, p, Some(d.(entries := es)));
    AtAppend(now, p, [e.name]);
    FindInside(done, e, rest);
    PutChild(now, p, d.(entries := es), e.name, n);
    PutEntryInside(done, e, rest, n);
    PutTwice(t, p, d.(entries := es), Some(d.(entries := done + Kept(e.name, n) + rest)));
  }

  lemma {:induction false} LoopStart(t: Option<Node>, p: Path, d: Node)
    requires WellFormedRoot(t) && At(t, p) == Some(d) && d.Dir?
    ensures t == Put(t, p, Some(d.(entries := [] + d.entries[0..])))
    ensures Distinct(d.entries) && Apart([], d.entries, 0)
  {
    PutSame(t, p);
    AtWellFormed(t, p);
    assert [] + d.entries[0..] == d.entries;
  }

  lemma {:induction false} LoopEnd(done: seq<Entry>, es: seq<Entry>)
    ensures es[|es|..] == [] && done + es[|es|..] == done
  {
  }

  /** One turn of a loop over the entries of `d` at `p`, of which those before `i` have become `done`. */
  lemma {:induction false} LoopPut(t: Option<Node>, p: Path, d: Node, done: seq<Entry>, es: seq<Entry>, i: nat,
      n: Option<Node>)
    requires WellFormedRoot(t) && At(t, p).Some? && d.Dir?
    requires i < |es| && Distinct(es) && Apart(done, es, i)
    ensures var now := Put(t, p, Some(d.(entries := done + es[i..])));
      var kept := done + Kept(es[i].name, n);
      && At(now, p + [es[i].name]) == Some(es[i].node)
      && Put(now, p + [es[i].name], n) == Put(t, p, Some(d.(entries := kept + es[i + 1..])))
      && Apart(kept, es, i + 1)
  {
    ApartStep(done, es, i, n);
    PutSpliced(t, p, d, done, es[i], es[i + 1..], n);
  }

  /** Replacing the subtree at `p` leaves every path that is not below or above it alone. */
  lemma {:induction false} PutElsewhere(t: Option<Node>, p: Path, n: Option<Node>, q: Path)
    requires WellFormedRoot(t) && !(p <= q) && !(q <= p)
    ensures At(Put(t, p, n), q) == At(t, q)
    decreases |p|
  {
    if t.Some? && t.value.Dir? {
      var es := t.value.entries;
      var inner := Put(Find(es, p[0]), p[1..], n);
      FindPutEntry(es, p[0], inner, q[0]);
      if p[0] == q[0] {
        FindWitness(es, p[0]);
        if Find(es, p[0]).Some? {
          PutElsewhere(Find(es, p[0]), p[1..], n, q[1..]);
        }
      }
    }
  }

  /** A directory above `p` keeps its attributes and, other than the one towards `p`, its entries. */
  lemma {:induction false} PutAbove(t: Option<Node>, p: Path, n: Option<Node>, q: Path)
    requires WellFormedRoot(t) && q <= p && q != p && At(t, p).Some?
    ensures var before, after := At(t, q), At(Put(t, p, n), q);
      && before.Some? && before.value.Dir? && after.Some? && after.value.Dir?
      && after.value == before.value.(entries :=
           PutEntry(before.value.entries, p[|q|], Put(Find(before.value.entries, p[|q|]), p[|q| + 1..], n)))
    decreases |p|
  {
    if q != [] {
      var es := t.value.entries;
      FindWitness(es, p[0]);
      PutAbove(Find(es, p[0]), p[1..], n, q[1..]);
      FindPutEntry(es, p[0], Put(Find(es, p[0]), p[1..], n), p[0]);
      assert p[1..][|q| - 1..] == p[|q|..] && p[1..][|q[1..]| + 1..] == p[|q| + 1..];
    }
  }
}

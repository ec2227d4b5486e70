/** Removals keep the tree well formed. */
module CleaningShape {
  import opened Basics
  import opened FileTree
  import opened Phone
  import opened Cleaning

  lemma {:induction false} RemovalWellFormed(env: Env, path: Path, n: Node, r: Run)
    requires WellFormed(n)
    ensures WellFormedRoot(RemoveTree(env, path, n, r).left)
    decreases n, 0
  {
    if n.Dir? && n.readable { EntriesWellFormed(env, path, n.entries, 0, 0, r); }
  }

  lemma {:induction false} VisitWellFormed(env: Env, path: Path, n: Node, files: nat, bytes: nat, r: Run)
    requires WellFormed(n)
    ensures WellFormedRoot(Visit(env, path, n, files, bytes, r).left)
    decreases n, 1
  {
    if n.Dir? { RemovalWellFormed(env, path, n, Observe(env, r).1); }
  }

  ghost predicate NamesWithin(es: seq<Entry>, all: seq<Entry>) {
    forall e :: e in es ==> exists f :: f in all && f.name == e.name
  }

  ghost predicate WellFormedList(es: seq<Entry>) { Distinct(es) && forall e :: e in es ==> WellFormed(e.node) }

  lemma {:induction false} OthersDiffer(es: seq<Entry>)
    requires Distinct(es) && es != []
    ensures forall f :: f in es[1..] ==> f.name != es[0].name
  {
    forall f | f in es[1..] ensures f.name != es[0].name {
      var j :| 0 <= j < |es[1..]| && es[1..][j] == f;
      assert es[j + 1] == f;
    }
  }

  lemma {:induction false} ConsWellFormed(name: string, n: Option<Node>, left: seq<Entry>, rest: seq<Entry>)
    requires WellFormedRoot(n) && WellFormedList(left) && NamesWithin(left, rest)
    requires forall f :: f in rest ==> f.name != name
    ensures WellFormedList(Kept(name, n) + left)
    ensures forall e :: e in Kept(name, n) + left ==> e in left || e.name == name
  {
    if n.Some? {
      forall j | 0 <= j < |left| ensures left[j].name != name { assert left[j] in left; }
    } else {
      assert Kept(name, n) + left == left;
    }
  }

  lemma {:induction false} EntriesWellFormed(env: Env, path: Path, es: seq<Entry>, files: nat, bytes: nat, r: Run)
    requires WellFormedList(es)
    ensures var left := RemoveEntries(env, path, es, files, bytes, r).left;
      WellFormedList(left) && NamesWithin(left, es)
    decreases es, 0
  {
    if es != [] {
      var e, rest := es[0], es[1..];
      var step := Visit(env, path + [e.name], e.node, files, bytes, r);
      VisitWellFormed(env, path + [e.name], e.node, files, bytes, r);
      OthersDiffer(es);
      if step.ok {
        EntriesWellFormed(env, path, rest, step.files, step.bytes, step.run);
        ConsWellFormed(e.name, step.left, RemoveEntries(env, path, rest, step.files, step.bytes, step.run).left, rest);
      } else {
        ConsWellFormed(e.name, step.left, rest, rest);
      }
    }
  }
}

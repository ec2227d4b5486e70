/** Where nothing removable is left, no removal of anything around it brings anything back. */
module CleaningSettled {
  import opened Basics
  import opened FileTree
  import opened Phone
  import opened Cleaning
  import opened CleaningResidue
  import opened CleaningBudget

  /** A directory below which nothing can be removed any more; what cannot be listed counts as settled. */
  ghost predicate Settled(n: Option<Node>) {
    Listable(n) ==> ResidueOf(n.value.entries) == n.value.entries
  }

  /** A node that no removal changes. */
  ghost predicate Fixed(n: Option<Node>) { n.Some? ==> Residue(n.value) == n }

  // ----- Below a settled directory

  lemma {:induction false} FixedBelow(n: Option<Node>, q: Path)
    requires WellFormedRoot(n) && Fixed(n)
    ensures Fixed(At(n, q))
  {
    LookupInResidue(n, q);
  }

  lemma {:induction false} FixedEntry(es: seq<Entry>, name: string)
    requires Distinct(es) && ResidueOf(es) == es
    ensures Fixed(Find(es, name))
  {
    FindInResidue(es, name);
  }

  // ----- One removal

  lemma {:induction false} TreeKeepsSettled(env: Env, path: Path, n: Node, r: Run, q: Path)
    requires WellFormed(n) && Settled(At(Some(n), q))
    ensures Settled(At(RemoveTree(env, path, n, r).left, q))
    decreases n, 0
  {
    if n.Dir? && n.readable {
      if q == [] {
        NothingAmong(env, path, n.entries, 0, 0, r);
      } else {
        EntriesKeepSettled(env, path, n.entries, 0, 0, r, q[0], q[1..]);
      }
    }
  }

  lemma {:induction false} VisitKeepsSettled(env: Env, path: Path, n: Node, files: nat, bytes: nat, r: Run, q: Path)
    requires WellFormed(n) && Settled(At(Some(n), q))
    ensures Settled(At(Visit(env, path, n, files, bytes, r).left, q))
    decreases n, 1
  {
    if n.Dir? { TreeKeepsSettled(env, path, n, Observe(env, r).1, q); }
  }

  lemma {:induction false} EntriesKeepSettled(env: Env, path: Path, es: seq<Entry>, files: nat, bytes: nat, r: Run,
      name: string, q: Path)
    requires Distinct(es) && forall e :: e in es ==> WellFormed(e.node)
    requires Settled(At(Find(es, name), q))
    ensures Settled(At(Find(RemoveEntries(env, path, es, files, bytes, r).left, name), q))
    decreases es, 0
  {
    if es != [] {
      var e, rest := es[0], es[1..];
      var step := Visit(env, path + [e.name], e.node, files, bytes, r);
      RestDistinct(es);
      if e.name == name {
        VisitKeepsSettled(env, path + [e.name], e.node, files, bytes, r, q);
        NoNewNames(env, path, rest, step.files, step.bytes, step.run, name);
      } else if step.ok {
        EntriesKeepSettled(env, path, rest, step.files, step.bytes, step.run, name, q);
      }
      FindOfKept(e.name, step.left, rest, name);
      FindOfKept(e.name, step.left, RemoveEntries(env, path, rest, step.files, step.bytes, step.run).left, name);
    }
  }
}

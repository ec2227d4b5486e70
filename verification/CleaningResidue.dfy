/** What a removal that succeeds leaves behind, and what a second one finds. */
module CleaningResidue {
  import opened Basics
  import opened FileTree
  import opened Phone
  import opened Cleaning
  import opened CleaningConservation

  /** The part of a tree that cannot be removed, independently of any run. */
  function Residue(n: Node): Option<Node>
    decreases n, 1
  {
    match n
    case Leaf(_, _, removable) => if removable then None else Some(n)
    case Sealed => Some(n)
    case Dir(_, removable, es) =>
      var left := ResidueOf(es);
      if left == [] && removable then None else Some(n.(entries := left))
  }

  function ResidueOf(es: seq<Entry>): seq<Entry>
    decreases es, 0
  {
    if es == [] then [] else Kept(es[0].name, Residue(es[0].node)) + ResidueOf(es[1..])
  }

  function ResidueAt(n: Option<Node>): Option<Node> { if n.Some? then Residue(n.value) else None }

  /** A node that cannot be removed even when nothing is below it. */
  ghost predicate Stubborn(n: Option<Node>) {
    n.Some? && (n.value.Sealed? || !n.value.removable)
  }

  // ----- A successful removal leaves exactly the residue

  lemma {:induction false} TreeLeavesResidue(env: Env, path: Path, n: Node, r: Run)
    ensures RemoveTree(env, path, n, r).ok ==> RemoveTree(env, path, n, r).left == Residue(n)
    decreases n, 0
  {
    if n.Dir? && n.readable { EntriesLeaveResidue(env, path, n.entries, 0, 0, r); }
  }

  lemma {:induction false} VisitLeavesResidue(env: Env, path: Path, n: Node, files: nat, bytes: nat, r: Run)
    ensures Visit(env, path, n, files, bytes, r).ok ==> Visit(env, path, n, files, bytes, r).left == Residue(n)
    decreases n, 1
  {
    if n.Dir? { TreeLeavesResidue(env, path, n, Observe(env, r).1); }
  }

  lemma {:induction false} EntriesLeaveResidue(env: Env, path: Path, es: seq<Entry>, files: nat, bytes: nat, r: Run)
    ensures var pass := RemoveEntries(env, path, es, files, bytes, r);
      pass.ok ==> pass.left == ResidueOf(es)
    decreases es, 0
  {
    if es != [] {
      var step := Visit(env, path + [es[0].name], es[0].node, files, bytes, r);
      VisitLeavesResidue(env, path + [es[0].name], es[0].node, files, bytes, r);
      if step.ok { EntriesLeaveResidue(env, path, es[1..], step.files, step.bytes, step.run); }
    }
  }

  // ----- The residue is the stubborn nodes and the directories above them

  lemma {:induction false} FindInResidue(es: seq<Entry>, name: string)
    requires Distinct(es)
    ensures Find(ResidueOf(es), name) == ResidueAt(Find(es, name))
  {
    if es != [] {
      FindInResidue(es[1..], name);
      var left := Residue(es[0].node);
      FindWitness(es[1..], es[0].name);
      if left.Some? {
        assert (Kept(es[0].name, left) + ResidueOf(es[1..]))[1..] == ResidueOf(es[1..]);
      } else {
        assert Kept(es[0].name, left) + ResidueOf(es[1..]) == ResidueOf(es[1..]);
      }
    }
  }

  /** Looking up a path in the residue gives the residue of what is at that path. */
  lemma {:induction false} LookupInResidue(n: Option<Node>, p: Path)
    requires WellFormedRoot(n)
    ensures At(ResidueAt(n), p) == ResidueAt(At(n, p))
    decreases |p|
  {
    if p != [] && n.Some? && n.value.Dir? {
      var es := n.value.entries;
      FindInResidue(es, p[0]);
      FindWitness(es, p[0]);
      LookupInResidue(Find(es, p[0]), p[1..]);
    }
  }

  lemma {:induction false} StubbornBelow(n: Node) returns (q: Path)
    requires Residue(n).Some? && WellFormed(n)
    ensures Stubborn(At(Some(n), q))
    decreases n, 1
  {
    if Stubborn(Some(n)) {
      q := [];
    } else {
      var i, below := StubbornAmong(n.entries);
      FindMember(n.entries, i);
      q := [n.entries[i].name] + below;
    }
  }

  lemma {:induction false} StubbornAmong(es: seq<Entry>) returns (i: nat, q: Path)
    requires ResidueOf(es) != [] && forall e :: e in es ==> WellFormed(e.node)
    ensures i < |es| && Stubborn(At(Some(es[i].node), q))
    decreases es, 0
  {
    if Residue(es[0].node).Some? {
      q := StubbornBelow(es[0].node);
      i := 0;
    } else {
      var j;
      j, q := StubbornAmong(es[1..]);
      i := j + 1;
    }
  }

  lemma {:induction false} StubbornKeeps(n: Node, q: Path)
    requires WellFormed(n) && Stubborn(At(Some(n), q))
    ensures Residue(n).Some?
    decreases |q|
  {
    if q != [] {
      assert n.Dir? && At(Some(n), q) == At(Find(n.entries, q[0]), q[1..]);
      FindWitness(n.entries, q[0]);
      StubbornKeeps(Find(n.entries, q[0]).value, q[1..]);
      FindInResidue(n.entries, q[0]);
    }
  }

  /**
   * Exact residue: a path survives a successful removal exactly when something at or below
   * it is stubborn. What survives keeps its own attributes (`LookupInResidue`).
   */
  lemma {:induction false} ExactResidue(env: Env, path: Path, n: Node, r: Run, p: Path)
    requires WellFormed(n) && RemoveTree(env, path, n, r).ok
    ensures var left := RemoveTree(env, path, n, r).left;
      && At(left, p) == ResidueAt(At(Some(n), p))
      && (At(left, p).Some? <==> exists q :: Stubborn(At(Some(n), p + q)))
  {
    TreeLeavesResidue(env, path, n, r);
    LookupInResidue(Some(n), p);
    AtWellFormed(Some(n), p);
    var m := At(Some(n), p);
    if m.Some? && Residue(m.value).Some? {
      var q := StubbornBelow(m.value);
      AtAppend(Some(n), p, q);
      assert Stubborn(At(Some(n), p + q));
    }
    if exists q :: Stubborn(At(Some(n), p + q)) {
      var q :| Stubborn(At(Some(n), p + q));
      AtAppend(Some(n), p, q);
      StubbornKeeps(m.value, q);
    }
  }

  // ----- A second removal

  lemma {:induction false} ResidueTwice(n: Node)
    ensures Residue(n).Some? ==> Residue(Residue(n).value) == Residue(n)
    decreases n, 1
  {
    if n.Dir? { ResidueOfTwice(n.entries); }
  }

  lemma {:induction false} ResidueOfTwice(es: seq<Entry>)
    ensures ResidueOf(ResidueOf(es)) == ResidueOf(es)
    decreases es, 0
  {
    if es != [] {
      ResidueTwice(es[0].node);
      ResidueOfTwice(es[1..]);
      var kept := Kept(es[0].name, Residue(es[0].node));
      assert kept != [] ==> (kept + ResidueOf(es[1..]))[1..] == ResidueOf(es[1..]);
      assert kept == [] ==> kept + ResidueOf(es[1..]) == ResidueOf(es[1..]);
    }
  }

  /** Where nothing can be removed, no run changes anything, aborted or not. */
  lemma {:induction false} NothingToRemove(env: Env, path: Path, n: Node, r: Run)
    requires Residue(n) == Some(n)
    ensures RemoveTree(env, path, n, r).left == Some(n)
    decreases n, 0
  {
    if n.Dir? && n.readable { NothingAmong(env, path, n.entries, 0, 0, r); }
  }

  lemma {:induction false} NothingAt(env: Env, path: Path, n: Node, files: nat, bytes: nat, r: Run)
    requires Residue(n) == Some(n)
    ensures Visit(env, path, n, files, bytes, r).left == Some(n)
    decreases n, 1
  {
    if n.Dir? { NothingToRemove(env, path, n, Observe(env, r).1); }
  }

  lemma {:induction false} ResidueShrinks(es: seq<Entry>)
    ensures |ResidueOf(es)| <= |es|
  {
    if es != [] { ResidueShrinks(es[1..]); }
  }

  lemma {:induction false} NothingAmong(env: Env, path: Path, es: seq<Entry>, files: nat, bytes: nat, r: Run)
    requires ResidueOf(es) == es
    ensures RemoveEntries(env, path, es, files, bytes, r).left == es
    decreases es, 0
  {
    if es != [] {
      var kept := Kept(es[0].name, Residue(es[0].node));
      ResidueShrinks(es[1..]);
      assert kept != [];
      assert es[0] == kept[0] && es[1..] == (kept + ResidueOf(es[1..]))[1..] == ResidueOf(es[1..]);
      NothingAt(env, path + [es[0].name], es[0].node, files, bytes, r);
      var step := Visit(env, path + [es[0].name], es[0].node, files, bytes, r);
      if step.ok { NothingAmong(env, path, es[1..], step.files, step.bytes, step.run); }
    }
  }

  /**
   * After a successful removal a second one finds nothing: whatever is observed and however
   * it ends, it leaves the residue as it is, unlinks no file and frees no byte.
   */
  lemma {:induction false} SecondRunRemovesNothing(env: Env, path: Path, n: Node, r: Run, later: Env, s: Run)
    requires RemoveTree(env, path, n, r).ok && RemoveTree(env, path, n, r).left.Some?
    ensures var left := RemoveTree(env, path, n, r).left.value;
      var o := RemoveTree(later, path, left, s);
      && o.left == Some(left)
      && UnlinkedFiles(o.run.log) == UnlinkedFiles(s.log)
      && UnlinkedBytes(o.run.log) == UnlinkedBytes(s.log)
      && o.run.bytes == s.bytes
  {
    TreeLeavesResidue(env, path, n, r);
    ResidueTwice(n);
    var left := RemoveTree(env, path, n, r).left.value;
    NothingToRemove(later, path, left, s);
    Conservation(later, path, left, s);
    TreeBalance(later, path, left, s);
  }
}

/** Staging the payloads of a commit, and the setting the commit then works in. The worktree
    may change between any two copies, so each root is copied from a tree of its own. */
module Staging {
  import opened Paths
  import opened Trees
  import opened Manifests
  import opened Diffs
  import opened Layout
  import opened Records
  import opened Journal
  import opened Undo

  predicate PathsClean(roots: seq<Change>) {
    forall c | c in roots :: Clean(c.path)
  }

  /** The first `k` roots are staged: what is in the apply tree is one of their payloads or a
      directory above one. */
  ghost predicate StagedTo(roots: seq<Change>, k: nat, apply: Tree) {
    && k <= |roots| && IsTree(apply)
    && (forall i | 0 <= i < k :: roots[i].after.Some? <==> roots[i].path in apply)
    && (forall x | x in apply :: StagedFor(roots, k, apply, x))
  }

  ghost predicate StagedFor(roots: seq<Change>, k: nat, apply: Tree, x: Path)
    requires k <= |roots|
  {
    exists i | 0 <= i < k ::
      roots[i].after.Some? && (Above(roots[i].path, x) || (Inside(x, roots[i].path) && DirectoryAt(apply, x)))
  }

  /** The place of the next root is free, and its parents can be made. */
  lemma NextPlaceFree(roots: seq<Change>, k: nat, apply: Tree, x: Path)
    requires Antichain(roots) && PathsClean(roots) && StagedTo(roots, k, apply) && k < |roots| && x in apply
    ensures !Above(roots[k].path, x)
    ensures Inside(x, roots[k].path) ==> DirectoryAt(apply, x)
  {
    var p := roots[k].path;
    assert roots[k] in roots;
    assert StagedFor(roots, k, apply, x);
    forall i | 0 <= i < k
      ensures !(Above(roots[i].path, x) && (Above(p, x) || Above(x, p)))
      ensures !(Above(p, x) && Inside(x, roots[i].path))
    {
      OneRoot(roots, i, k, x);
      AboveTransitive(roots[i].path, x, p);
      AboveTransitive(p, x, roots[i].path);
    }
  }

  lemma ParentsStage(roots: seq<Change>, k: nat, apply: Tree)
    requires Antichain(roots) && PathsClean(roots) && StagedTo(roots, k, apply) && k < |roots|
    ensures MakeParents(apply, roots[k].path).Some? && roots[k].path !in apply && roots[k].path != []
  {
    var p := roots[k].path;
    assert roots[k] in roots;
    forall a | a in Ancestors(p) && a in apply ensures DirectoryAt(apply, a) {
      NextPlaceFree(roots, k, apply, a);
    }
    if p in apply { NextPlaceFree(roots, k, apply, p); }
  }

  lemma CopyIsTree(roots: seq<Change>, k: nat, apply: Tree, view: Tree)
    requires Antichain(roots) && PathsClean(roots) && StagedTo(roots, k, apply) && k < |roots| && IsTree(view)
    requires roots[k].path != [] && roots[k].path !in apply && CopyEntry(view, roots[k].path, apply).Some?
    ensures IsTree(CopyEntry(view, roots[k].path, apply).value)
  {
    var p := roots[k].path;
    assert roots[k] in roots;
    var made := MakeParents(apply, p).value;
    MakeParentsKeepsTree(apply, p);
    var t := CopyEntry(view, p, apply).value;
    forall x | x in t ensures Clean(x) {
      assert Look(t, x).Some?;
    }
    forall a, x | x in t && Inside(a, x) ensures DirectoryAt(t, a) {
      assert Look(t, x).Some?;
      AboveTransitive(p, a, x);
      Comparable(a, p, x);
      if Above(p, a) {
        assert DirectoryAt(view, a);
        assert Look(t, a) == Look(view, a);
      } else {
        assert Look(t, a) == Look(made, a);
        if Above(p, x) {
          assert a in Ancestors(p);
        } else {
          assert DirectoryAt(made, a);
        }
      }
    }
  }

  /** Copying one payload stages one root more and leaves the others as they are. */
  lemma StageOne(roots: seq<Change>, k: nat, apply: Tree, view: Tree)
    requires Antichain(roots) && PathsClean(roots) && StagedTo(roots, k, apply) && k < |roots| && IsTree(view)
    requires roots[k].after.Some? && roots[k].path != [] && roots[k].path !in apply
    requires CopyEntry(view, roots[k].path, apply).Some?
    ensures var t := CopyEntry(view, roots[k].path, apply).value;
      && StagedTo(roots, k + 1, t)
      && (forall x | Above(roots[k].path, x) :: Look(t, x) == Look(view, x))
      && (forall i, x | 0 <= i < |roots| && i != k && Above(roots[i].path, x) :: Look(t, x) == Look(apply, x))
  {
    hide IsTree, StagedFor, MakeParents, CopyEntry, PathsClean;
    var p := roots[k].path;
    CopyIsTree(roots, k, apply, view);
    var made := MakeParents(apply, p).value;
    var t := CopyEntry(view, p, apply).value;
    forall i, x | 0 <= i < |roots| && i != k && Above(roots[i].path, x) ensures Look(t, x) == Look(apply, x) {
      OneRoot(roots, i, k, x);
      AboveTransitive(roots[i].path, x, p);
      assert Look(t, x) == Look(made, x);
    }
    forall i | 0 <= i < k + 1 ensures roots[i].after.Some? <==> roots[i].path in t {
      assert Above(roots[i].path, roots[i].path);
      assert i != k ==> Look(t, roots[i].path) == Look(apply, roots[i].path);
      assert i == k ==> Look(t, p) == Look(view, p);
    }
    forall x | x in t ensures StagedFor(roots, k + 1, t, x) {
      StagedOrigin(roots, k, apply, view, x);
    }
  }

  lemma StagedOrigin(roots: seq<Change>, k: nat, apply: Tree, view: Tree, x: Path)
    requires StagedTo(roots, k, apply) && k < |roots| && roots[k].after.Some?
    requires roots[k].path != [] && roots[k].path !in apply && CopyEntry(view, roots[k].path, apply).Some?
    requires x in CopyEntry(view, roots[k].path, apply).value
    ensures StagedFor(roots, k + 1, CopyEntry(view, roots[k].path, apply).value, x)
  {
    var p := roots[k].path;
    var made := MakeParents(apply, p).value;
    var t := CopyEntry(view, p, apply).value;
    assert Look(t, x).Some?;
    if !Above(p, x) {
      assert Look(t, x) == Look(made, x);
      if x in apply {
        assert StagedFor(roots, k, apply, x);
        var i :| 0 <= i < k && roots[i].after.Some?
          && (Above(roots[i].path, x) || (Inside(x, roots[i].path) && DirectoryAt(apply, x)));
      }
    }
  }

  /** A deletion stages nothing. */
  lemma SkipOne(roots: seq<Change>, k: nat, apply: Tree)
    requires Antichain(roots) && PathsClean(roots) && StagedTo(roots, k, apply) && k < |roots| && roots[k].after.None?
    ensures StagedTo(roots, k + 1, apply)
  {
    if roots[k].path in apply { NextPlaceFree(roots, k, apply, roots[k].path); }
    forall x | x in apply ensures StagedFor(roots, k + 1, apply, x) {
      assert StagedFor(roots, k, apply, x);
      var i :| 0 <= i < k && roots[i].after.Some?
        && (Above(roots[i].path, x) || (Inside(x, roots[i].path) && DirectoryAt(apply, x)));
    }
  }

  /** The first `k` payloads are the subtrees of one view of the worktree. */
  ghost predicate PayloadIs(roots: seq<Change>, k: nat, apply: Tree, view: Tree) {
    k <= |roots| && forall i, x | 0 <= i < k && Above(roots[i].path, x) && roots[i].after.Some? ::
      Look(apply, x) == Look(view, x)
  }

  /** Every new subtree is in the view and free of special files. */
  ghost predicate CanStage(roots: seq<Change>, view: Tree) {
    forall c | c in roots && c.after.Some? ::
      c.path in view && forall x | x in view && Above(c.path, x) :: !view[x].Special?
  }

  /** Stages one root from the worktree as it is now; None where copying raises. */
  method StageRoot(roots: seq<Change>, k: nat, apply: Tree, now: Tree) returns (next: Option<Tree>)
    requires Antichain(roots) && PathsClean(roots) && StagedTo(roots, k, apply) && k < |roots| && IsTree(now)
    ensures next.Some? ==> StagedTo(roots, k + 1, next.value)
    ensures next.Some? && PayloadIs(roots, k, apply, now) ==> PayloadIs(roots, k + 1, next.value, now)
    ensures roots[k].after.None? ==> next == Some(apply)
    ensures next.None? ==> !CanStage(roots, now)
  {
    if roots[k].after.None? {
      SkipOne(roots, k, apply);
      return Some(apply);
    }
    ParentsStage(roots, k, apply);
    next := CopyEntry(now, roots[k].path, apply);
    if next.Some? {
      StageOne(roots, k, apply, now);
    } else {
      assert roots[k] in roots;
    }
  }

  // ----- the setting

  function PlannedOps(roots: seq<Change>): (ops: seq<CommitOperation>)
    ensures |ops| == |roots| && forall i | 0 <= i < |ops| :: ops[i] == Planned(roots[i])
  {
    seq(|roots|, i requires 0 <= i < |roots| => Planned(roots[i]))
  }

  /** The roots of the diff between the visible workspace and a staged tree, the staged apply
      tree and the whole workspace make a good setting. */
  lemma SettingOf(base: Tree, s: Tree, excluded: set<Name>, roots: seq<Change>, apply: Tree)
    requires IsTree(base) && RootsOf(Visible(base, excluded), s, roots) && StagedTo(roots, |roots|, apply)
    requires forall x | x in s :: !IsExcluded(x, excluded)
    ensures GoodSetting(Setting(base, apply, roots))
    ensures forall c | c in roots :: !IsExcluded(c.path, excluded)
  {
    var v := Visible(base, excluded);
    forall c | c in roots
      ensures GoodRoot(Setting(base, apply, roots), c) && !IsExcluded(c.path, excluded)
    {
      var i :| 0 <= i < |roots| && roots[i] == c;
      assert c.path in v || c.path in s;
      assert c.before.Some? <==> c.path in base;
      forall a | Inside(a, c.path) ensures DirectoryAt(base, a) {
        assert DirectoryAt(v, a);
      }
    }
  }

  /** Before the first move the flags, all false, describe the disk. */
  lemma InitialShape(g: Setting)
    requires GoodSetting(g)
    ensures Shape(g, PlannedOps(g.roots), Disk(g.base, g.payload, map[])) && Progress(PlannedOps(g.roots), 0)
  {
    var ops := PlannedOps(g.roots);
    assert forall i | 0 <= i < |ops| :: CellsOf(ops)[i] == Cell(InWorkspace, InApply);
  }

  // ----- what the workspace is in the end

  /** The tree a commit must leave: the staged tree beside the excluded entries of the workspace. */
  function Target(base: Tree, s: Tree, excluded: set<Name>): Tree {
    Visible(s, excluded) + Hidden(base, excluded)
  }

  /** When every payload is the staged subtree, a workspace with every operation finished is
      the target: the staged tree with the excluded entries untouched. */
  lemma FinishedIsTarget(g: Setting, ops: seq<CommitOperation>, d: Disk, s: Tree, excluded: set<Name>)
    requires Shape(g, ops, d) && Progress(ops, |ops|)
    requires RootsOf(Visible(g.base, excluded), s, g.roots)
    requires IsTree(s) && forall x | x in s :: !IsExcluded(x, excluded)
    requires forall i, x | 0 <= i < |g.roots| && Above(g.roots[i].path, x) && g.roots[i].after.Some? ::
      Look(g.payload, x) == Look(s, x)
    ensures d.workspace == Target(g.base, s, excluded)
  {
    var t := Target(g.base, s, excluded);
    forall x ensures Look(d.workspace, x) == Look(t, x) {
      if i :| 0 <= i < |g.roots| && Above(g.roots[i].path, x) {
        FinishedAtRoot(g, ops, d, s, excluded, i, x);
      } else {
        assert !Covered(g.roots, x);
        assert Look(d.workspace, x) == Look(g.base, x);
        assert Look(Visible(g.base, excluded), x) == Look(s, x);
      }
    }
    SameTree(d.workspace, t);
  }

  lemma FinishedAtRoot(g: Setting, ops: seq<CommitOperation>, d: Disk, s: Tree, excluded: set<Name>, i: nat, x: Path)
    requires Shape(g, ops, d) && Progress(ops, |ops|)
    requires RootsOf(Visible(g.base, excluded), s, g.roots)
    requires IsTree(s) && forall x | x in s :: !IsExcluded(x, excluded)
    requires forall i, x | 0 <= i < |g.roots| && Above(g.roots[i].path, x) && g.roots[i].after.Some? ::
      Look(g.payload, x) == Look(s, x)
    requires i < |g.roots| && Above(g.roots[i].path, x)
    ensures Look(d.workspace, x) == Look(Target(g.base, s, excluded), x)
  {
    var c := g.roots[i];
    assert c in g.roots && OperationFor(ops[i], c) && Finished(ops[i]);
    assert CellsOf(ops)[i] == CellOf(ops[i]);
    assert c.path in Visible(g.base, excluded) || c.path in s;
    ExcludedAbove(c.path, x, excluded);
    if c.after.None? && c.path !in s && x in s { NothingBelowAbsent(s, c.path, x); }
    assert c.after.Some? <==> c.path in s;
  }

  /** Operations never touch excluded entries. */
  lemma HiddenUntouched(g: Setting, ops: seq<CommitOperation>, d: Disk, excluded: set<Name>)
    requires Shape(g, ops, d) && forall c | c in g.roots :: !IsExcluded(c.path, excluded)
    ensures Hidden(d.workspace, excluded) == Hidden(g.base, excluded)
  {
    var h, k := Hidden(d.workspace, excluded), Hidden(g.base, excluded);
    forall x ensures Look(h, x) == Look(k, x) {
      if IsExcluded(x, excluded) {
        forall i | 0 <= i < |g.roots| ensures !Above(g.roots[i].path, x) {
          assert g.roots[i] in g.roots;
          if Above(g.roots[i].path, x) { ExcludedAbove(g.roots[i].path, x, excluded); }
        }
        assert Look(d.workspace, x) == Look(g.base, x);
      }
    }
    SameTree(h, k);
  }
}

/** Directory trees and the few system calls the broker moves entries with.
    A tree maps the relative path of every entry below one root to its node; the root
    directory itself is implicit. */
module Trees {
  import opened Paths

  datatype Node =
    | File(mode: nat, content: string)
    | Directory(mode: nat)
    | Symlink(mode: nat, target: string)
    | Special(mode: nat, device: string)

  type Tree = map<Path, Node>

  /** What `mkdir(parents=True)` makes; no theorem depends on the mode. */
  const NEW_DIRECTORY: Node := Directory(493)

  predicate DirectoryAt(t: Tree, x: Path) {
    x in t && t[x].Directory?
  }

  /** Every entry sits in directories that are themselves entries. */
  ghost predicate IsTree(t: Tree) {
    && (forall p | p in t :: Clean(p))
    && forall a, p | p in t && Inside(a, p) :: DirectoryAt(t, a)
  }

  function Look(t: Tree, x: Path): Option<Node> {
    if x in t then Some(t[x]) else None
  }

  lemma SameTree(t: Tree, u: Tree)
    requires forall x :: Look(t, x) == Look(u, x)
    ensures t == u
  {
    forall x ensures x in t <==> x in u {
      assert Look(t, x) == Look(u, x);
    }
    forall x | x in t ensures t[x] == u[x] {
      assert Look(t, x) == Look(u, x);
    }
  }

  lemma NothingBelowAbsent(t: Tree, a: Path, x: Path)
    requires IsTree(t) && a != [] && !DirectoryAt(t, a) && Above(a, x) && a != x
    ensures x !in t
  {
    assert Inside(a, x);
  }

  // ----- visible and excluded entries

  predicate IsExcluded(x: Path, excluded: set<Name>) {
    x != [] && x[0] in excluded
  }

  function Visible(t: Tree, excluded: set<Name>): Tree {
    map p | p in t && !IsExcluded(p, excluded) :: t[p]
  }

  function Hidden(t: Tree, excluded: set<Name>): Tree {
    map p | p in t && IsExcluded(p, excluded) :: t[p]
  }

  lemma ExcludedAbove(a: Path, x: Path, excluded: set<Name>)
    requires Above(a, x) && a != []
    ensures IsExcluded(a, excluded) <==> IsExcluded(x, excluded)
  {
  }

  lemma VisibleIsTree(t: Tree, excluded: set<Name>)
    requires IsTree(t)
    ensures IsTree(Visible(t, excluded))
  {
  }

  /** The visible part of one tree beside the excluded part of another is again a tree. */
  lemma JoinIsTree(t: Tree, u: Tree, excluded: set<Name>)
    requires IsTree(t) && IsTree(u)
    ensures IsTree(Visible(t, excluded) + Hidden(u, excluded))
  {
    var j := Visible(t, excluded) + Hidden(u, excluded);
    forall a, p | p in j && Inside(a, p) ensures DirectoryAt(j, a) {
      ExcludedAbove(a, p, excluded);
      if !IsExcluded(p, excluded) { assert DirectoryAt(t, a); } else { assert DirectoryAt(u, a); }
    }
  }

  // ----- system calls

  /** The parent of `p` exists as a directory. */
  predicate HasParent(t: Tree, p: Path) {
    forall a | a in Ancestors(p) :: DirectoryAt(t, a)
  }

  /** `p.parent.mkdir(parents=True, exist_ok=True)`: None when an ancestor is not a directory. */
  function MakeParents(t: Tree, p: Path): (r: Option<Tree>)
    ensures r.Some? <==> forall a | a in Ancestors(p) && a in t :: DirectoryAt(t, a)
    ensures r.Some? ==>
      forall x :: Look(r.value, x) == (if x !in t && Inside(x, p) then Some(NEW_DIRECTORY) else Look(t, x))
    ensures r.Some? ==> HasParent(r.value, p)
  {
    if forall a | a in Ancestors(p) && a in t :: DirectoryAt(t, a) then
      Some(t + map a | a in Ancestors(p) && a !in t :: NEW_DIRECTORY)
    else
      None
  }

  lemma MakeParentsKeepsTree(t: Tree, p: Path)
    requires IsTree(t) && Clean(p) && MakeParents(t, p).Some?
    ensures IsTree(MakeParents(t, p).value)
  {
    var u := MakeParents(t, p).value;
    forall x | x in u ensures Clean(x) {
      assert Look(u, x).Some?;
      if x !in t {
        forall n | n in x ensures CleanName(n) { assert n in p; }
      }
    }
    forall a, x | x in u && Inside(a, x) ensures DirectoryAt(u, a) {
      assert Look(u, x).Some?;
      if x !in t {
        AboveTransitive(a, x, p);
        assert a in Ancestors(p);
      }
    }
  }

  /** Where the entry `x` below `from` lands when `from` becomes `to`. */
  function Rebase(x: Path, from: Path, to: Path): (y: Path)
    requires Above(from, x)
    ensures Above(to, y) && |y| == |to| + |x| - |from|
  {
    to + x[|from|..]
  }

  lemma RebaseBack(x: Path, from: Path, to: Path)
    requires Above(from, x)
    ensures Rebase(Rebase(x, from, to), to, from) == x
  {
  }

  datatype Renaming = Renamed(source: Tree, target: Tree) | RenameError

  /** `os.rename(source/sp, target/dp)` between two roots of one filesystem. A non-directory
      replaces a non-directory, a directory replaces an empty directory, and everything below
      the entry moves along. */
  function Rename(source: Tree, sp: Path, target: Tree, dp: Path): (r: Renaming)
    requires sp != [] && dp != []
    ensures sp in source && HasParent(target, dp) && dp !in target ==> r.Renamed?
    ensures r.Renamed? ==> sp in source && HasParent(target, dp)
    ensures r.Renamed? ==> forall x :: Look(r.source, x) == if Above(sp, x) then None else Look(source, x)
    ensures r.Renamed? ==>
      forall x :: Look(r.target, x) == (if Above(dp, x) then Look(source, Rebase(x, dp, sp)) else Look(target, x))
  {
    if sp !in source || !HasParent(target, dp) then RenameError
    else if dp in target && source[sp].Directory? &&
      (!target[dp].Directory? || exists x | x in target :: Inside(dp, x)) then RenameError
    else if dp in target && !source[sp].Directory? && target[dp].Directory? then RenameError
    else
      var left := map x | x in source && !Above(sp, x) :: source[x];
      var kept := map x | x in target && !Above(dp, x) :: target[x];
      var landed := set x | x in source && Above(sp, x) :: Rebase(x, sp, dp);
      Landing(source, sp, dp);
      var moved := map y | y in landed && Above(dp, y) && Rebase(y, dp, sp) in source :: source[Rebase(y, dp, sp)];
      Renamed(left, kept + moved)
  }

  /** An entry in the way is replaced exactly if neither it nor the moved entry is a directory,
      or both are and it is empty. */
  predicate MayReplace(n: Node, target: Tree, dp: Path)
    requires dp in target
  {
    if n.Directory? then target[dp].Directory? && !exists x | x in target :: Inside(dp, x) else !target[dp].Directory?
  }

  lemma RenameExact(source: Tree, sp: Path, target: Tree, dp: Path)
    requires sp != [] && dp != []
    ensures Rename(source, sp, target, dp).Renamed? <==>
      sp in source && HasParent(target, dp) && (dp in target ==> MayReplace(source[sp], target, dp))
    ensures Rename(source, sp, target, dp).Renamed? ==>
      var r := Rename(source, sp, target, dp);
      && (forall x :: Look(r.source, x) == if Above(sp, x) then None else Look(source, x))
      && forall x :: Look(r.target, x) == (if Above(dp, x) then Look(source, Rebase(x, dp, sp)) else Look(target, x))
  {
  }

  lemma Landing(source: Tree, sp: Path, dp: Path)
    ensures var landed := set x | x in source && Above(sp, x) :: Rebase(x, sp, dp);
      forall y :: Above(dp, y) && Rebase(y, dp, sp) in source ==> y in landed
  {
    forall y | Above(dp, y) && Rebase(y, dp, sp) in source
      ensures y in set x | x in source && Above(sp, x) :: Rebase(x, sp, dp)
    {
      RebaseBack(y, dp, sp);
    }
  }

  lemma RebaseInside(a: Path, x: Path, from: Path, to: Path)
    requires Above(from, a) && Inside(a, x) && to != []
    ensures Above(from, x) && Inside(Rebase(a, from, to), Rebase(x, from, to))
  {
    AboveTransitive(from, a, x);
    assert x[|from|..][..|a| - |from|] == a[|from|..];
  }

  lemma RenameKeepsTrees(source: Tree, sp: Path, target: Tree, dp: Path)
    requires IsTree(source) && IsTree(target) && Clean(sp) && Clean(dp)
    requires Rename(source, sp, target, dp).Renamed?
    ensures IsTree(Rename(source, sp, target, dp).source)
    ensures IsTree(Rename(source, sp, target, dp).target)
  {
    var r := Rename(source, sp, target, dp);
    forall p | p in r.source ensures Clean(p) {
      assert Look(r.source, p).Some?;
    }
    forall a, p | p in r.source && Inside(a, p) ensures DirectoryAt(r.source, a) {
      assert Look(r.source, p).Some?;
      if Above(sp, a) { AboveTransitive(sp, a, p); }
    }
    forall p | p in r.target ensures Clean(p) {
      assert Look(r.target, p).Some?;
      if Above(dp, p) {
        var y := Rebase(p, dp, sp);
        forall n | n in p ensures CleanName(n) {
          if n !in dp { assert n in p[|dp|..]; assert n in y; }
        }
      }
    }
    forall a, p | p in r.target && Inside(a, p) ensures DirectoryAt(r.target, a) {
      assert Look(r.target, p).Some?;
      if Above(dp, a) {
        RebaseInside(a, p, dp, sp);
        assert DirectoryAt(source, Rebase(a, dp, sp));
        assert Look(r.target, a) == Look(source, Rebase(a, dp, sp));
      } else {
        assert Look(r.target, a) == Look(target, a);
        if Above(dp, p) {
          Comparable(a, dp, p);
          assert a in Ancestors(dp);
        }
      }
    }
  }

  /** Where `copy_entry(view/p, target/p)` puts its copy: a file copied onto a directory lands
      in it, under the same name. */
  function CopyPlace(view: Tree, p: Path, target: Tree): (d: Path)
    requires p != []
    ensures d != [] && Above(p, d)
  {
    if p in view && view[p].File? && DirectoryAt(target, p) then p + [p[|p| - 1]] else p
  }

  predicate NoSpecialBelow(view: Tree, p: Path) {
    forall x | x in view && Above(p, x) :: !view[x].Special?
  }

  /** `copy_entry(view/p, target/p)`: the entry and everything below it, without following
      links; None when it is missing, when a special file is met, when a parent of the copy is
      not a directory, or when the place is taken, unless a file replaces a file. */
  function CopyEntry(view: Tree, p: Path, target: Tree): (r: Option<Tree>)
    requires p != []
    ensures p !in target ==> (r.Some? <==> p in view && NoSpecialBelow(view, p) && MakeParents(target, p).Some?)
    ensures p !in target && r.Some? ==>
      forall x :: Look(r.value, x) == (if Above(p, x) then Look(view, x) else Look(MakeParents(target, p).value, x))
  {
    if p !in view || !NoSpecialBelow(view, p) then None else
      match MakeParents(target, p)
      case None => None
      case Some(t) =>
        assert Look(t, p) == Look(target, p);
        var d := CopyPlace(view, p, t);
        if d in t && !(view[p].File? && t[d].File?) then None else
          var kept := map x | x in t && !Above(d, x) :: t[x];
          var landed := set x | x in view && Above(p, x) :: Rebase(x, p, d);
          Landing(view, p, d);
          assert d == p ==> forall x | Above(p, x) :: Rebase(x, d, p) == x;
          var copied := map y | y in landed && Above(d, y) && Rebase(y, d, p) in view :: view[Rebase(y, d, p)];
          Some(kept + copied)
  }

  /** What a copy onto an existing entry does: a link or a directory is refused, a file replaces
      a file and lands inside a directory; nothing else changes. */
  lemma CopyOnto(view: Tree, p: Path, target: Tree)
    requires p != [] && p in view && NoSpecialBelow(view, p) && p in target && HasParent(target, p)
    ensures var d := CopyPlace(view, p, target);
      CopyEntry(view, p, target).Some? <==> view[p].File? && (d in target ==> target[d].File?)
    ensures var d := CopyPlace(view, p, target); var r := CopyEntry(view, p, target);
      r.Some? ==> forall x :: Look(r.value, x) == (if Above(d, x) then Look(view, Rebase(x, d, p)) else Look(target, x))
  {
    var t := MakeParents(target, p).value;
    SameTree(t, target);
    Landing(view, p, CopyPlace(view, p, target));
  }
}

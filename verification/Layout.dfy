/** The shape of workspace, apply and quarantine trees while a commit moves its operation roots.
    Every root has an old subtree (from the baseline) and a new one (the staged payload); the
    three trees are determined by where each of them is. The lemmas below move one subtree:
    each shows that the rename meets its conditions, lands on nothing, and keeps the shape. */
module Layout {
  import opened Paths
  import opened Trees
  import opened Manifests
  import opened Diffs

  datatype OldPlace = InWorkspace | InQuarantine
  datatype NewPlace = InApply | Installed | SetAside

  datatype Cell = Cell(old_: OldPlace, new_: NewPlace)

  /** `base` is the workspace when the lock was taken, `payload` the apply tree once staged. */
  datatype Setting = Setting(base: Tree, payload: Tree, roots: seq<Change>)

  predicate NoDeeper(roots: seq<Change>, i: nat, j: nat)
    requires i < |roots| && j < |roots|
  {
    |roots[i].path| <= |roots[j].path|
  }

  /** The order of operation_roots, to be used for one pair of roots at a time. */
  ghost predicate ShortestFirst(roots: seq<Change>) {
    forall i: nat, j: nat | i < j < |roots| :: NoDeeper(roots, i, j)
  }

  ghost predicate GoodSetting(g: Setting) {
    && IsTree(g.base) && IsTree(g.payload)
    && Antichain(g.roots) && ShortestFirst(g.roots)
    && forall c | c in g.roots :: GoodRoot(g, c)
  }

  ghost predicate GoodRoot(g: Setting, c: Change) {
    && Clean(c.path)
    && (c.before.Some? <==> c.path in g.base)
    && (c.after.Some? <==> c.path in g.payload)
    && forall a | Inside(a, c.path) :: DirectoryAt(g.base, a)
  }

  /** Only what exists is moved, and nothing is installed over an old subtree. */
  ghost predicate GoodCells(g: Setting, cells: seq<Cell>) {
    && |cells| == |g.roots|
    && forall i | 0 <= i < |cells| ::
         && (cells[i].old_ == InQuarantine ==> g.roots[i].before.Some?)
         && (cells[i].new_ != InApply ==> g.roots[i].after.Some?)
         && (cells[i].new_ == Installed && g.roots[i].before.Some? ==> cells[i].old_ == InQuarantine)
  }

  // ----- the three trees

  function CellView(g: Setting, cell: Cell, x: Path): Option<Node> {
    if cell.new_ == Installed then Look(g.payload, x)
    else if cell.old_ == InWorkspace then Look(g.base, x)
    else None
  }

  ghost predicate WorkspaceOk(g: Setting, cells: seq<Cell>, w: Tree)
    requires |cells| == |g.roots|
  {
    && IsTree(w)
    && (forall i, x | 0 <= i < |cells| && Above(g.roots[i].path, x) :: Look(w, x) == CellView(g, cells[i], x))
    && (forall x | !Covered(g.roots, x) :: Look(w, x) == Look(g.base, x))
  }

  ghost predicate ApplyOk(g: Setting, cells: seq<Cell>, apply: Tree)
    requires |cells| == |g.roots|
  {
    && IsTree(apply)
    && forall i, x | 0 <= i < |cells| && Above(g.roots[i].path, x) ::
         Look(apply, x) == if cells[i].new_ == InApply then Look(g.payload, x) else None
  }

  /** Where an installed payload is put when a commit is undone. */
  function Aside(reserved: Name, p: Path): Path {
    [reserved] + p
  }

  /** Why `x` is in the quarantine: it belongs to a backup, to a payload set aside, or it is a
      directory made on the way to one of them. */
  ghost predicate Explained(g: Setting, cells: seq<Cell>, reserved: Option<Name>, q: Tree, x: Path)
    requires |cells| == |g.roots|
  {
    || (exists i | 0 <= i < |cells| :: cells[i].old_ == InQuarantine && Above(g.roots[i].path, x))
    || (reserved.Some? && exists i | 0 <= i < |cells| ::
      cells[i].new_ == SetAside && Above(Aside(reserved.value, g.roots[i].path), x))
    || (DirectoryAt(q, x) && exists i | 0 <= i < |cells| :: g.roots[i].before.Some? && Inside(x, g.roots[i].path))
    || (DirectoryAt(q, x) && reserved.Some? && exists i | 0 <= i < |cells| ::
          g.roots[i].after.Some? && Inside(x, Aside(reserved.value, g.roots[i].path)))
  }

  /** Before any undoing, `reserved` is None and nothing is set aside. */
  ghost predicate QuarantineOk(g: Setting, cells: seq<Cell>, reserved: Option<Name>, q: Tree)
    requires |cells| == |g.roots|
  {
    && IsTree(q)
    && (reserved.None? ==> forall i | 0 <= i < |cells| :: cells[i].new_ != SetAside)
    && (forall i, x | 0 <= i < |cells| && cells[i].old_ == InQuarantine && Above(g.roots[i].path, x) ::
      Look(q, x) == Look(g.base, x))
    && (reserved.Some? ==> forall i, x | 0 <= i < |cells| && cells[i].new_ == SetAside && Above(g.roots[i].path, x) ::
         Look(q, Aside(reserved.value, x)) == Look(g.payload, x))
    && (reserved.Some? ==>
      forall i, k | 0 <= i < |cells| && 0 <= k < |cells| && cells[i].old_ == InQuarantine
      && cells[k].new_ == SetAside ::
         Disjoint(g.roots[i].path, Aside(reserved.value, g.roots[k].path)))
    && (forall x | x in q :: Explained(g, cells, reserved, q, x))
  }

  /** Neither path is the other or lies below it. */
  predicate Disjoint(p: Path, q: Path) {
    !Above(p, q) && !Above(q, p)
  }

  lemma AsideAbove(reserved: Name, p: Path, x: Path)
    ensures Above(Aside(reserved, p), Aside(reserved, x)) <==> Above(p, x)
    ensures p != [] ==> (Inside(Aside(reserved, p), Aside(reserved, x)) <==> Inside(p, x))
    ensures Aside(reserved, p) == Aside(reserved, x) <==> p == x
  {
    assert Aside(reserved, p)[1..] == p && Aside(reserved, x)[1..] == x;
    if Above(p, x) { assert [reserved] + p <= [reserved] + x; }
    if Above(Aside(reserved, p), Aside(reserved, x)) {
      assert p == Aside(reserved, x)[1..][..|p|];
    }
  }

  // ----- facts every move needs

  /** The directories above a root stay put. */
  lemma ParentsStay(g: Setting, cells: seq<Cell>, w: Tree, i: nat)
    requires GoodSetting(g) && |cells| == |g.roots| && i < |cells| && WorkspaceOk(g, cells, w)
    ensures HasParent(w, g.roots[i].path)
    ensures MakeParents(w, g.roots[i].path) == Some(w)
  {
    var p := g.roots[i].path;
    assert g.roots[i] in g.roots;
    forall a | Inside(a, p) ensures DirectoryAt(w, a) {
      assert DirectoryAt(g.base, a);
      forall j | 0 <= j < |g.roots| ensures !Above(g.roots[j].path, a) {
        AboveTransitive(g.roots[j].path, a, p);
      }
      assert Look(w, a) == Look(g.base, a);
    }
    assert forall a | a in Ancestors(p) && a in w :: DirectoryAt(w, a);
    SameTree(MakeParents(w, p).value, w);
  }

  // ----- commit: move the old subtree to quarantine

  lemma BackupPathFree(g: Setting, cells: seq<Cell>, q: Tree, i: nat, x: Path)
    requires GoodSetting(g) && |cells| == |g.roots| && i < |cells| && QuarantineOk(g, cells, None, q)
    requires cells[i].old_ == InWorkspace && x in q
    ensures !Above(g.roots[i].path, x)
    ensures Inside(x, g.roots[i].path) ==> DirectoryAt(q, x)
  {
    var p := g.roots[i].path;
    assert Explained(g, cells, None, q, x);
    forall k | 0 <= k < |cells|
      ensures k != i ==> !(Above(g.roots[k].path, x) && (Above(p, x) || Above(x, p)))
      ensures !(Above(p, x) && Inside(x, g.roots[k].path))
    {
      OneRoot(g.roots, i, k, x);
      AboveTransitive(g.roots[k].path, x, p);
      AboveTransitive(p, x, g.roots[k].path);
    }
  }

  lemma BackupParents(g: Setting, cells: seq<Cell>, q: Tree, i: nat)
    requires GoodSetting(g) && |cells| == |g.roots| && i < |cells| && QuarantineOk(g, cells, None, q)
    requires g.roots[i].before.Some? && cells[i].old_ == InWorkspace
    ensures MakeParents(q, g.roots[i].path).Some?
    ensures QuarantineOk(g, cells, None, MakeParents(q, g.roots[i].path).value)
  {
    var p := g.roots[i].path;
    assert g.roots[i] in g.roots;
    forall a | a in Ancestors(p) && a in q ensures DirectoryAt(q, a) {
      BackupPathFree(g, cells, q, i, a);
    }
    var made := MakeParents(q, p).value;
    MakeParentsKeepsTree(q, p);
    forall x | x in made ensures Explained(g, cells, None, made, x) {
      assert Look(made, x).Some?;
      if x in q { assert Explained(g, cells, None, q, x); }
    }
    forall k, x | 0 <= k < |cells| && cells[k].old_ == InQuarantine && Above(g.roots[k].path, x)
      ensures Look(made, x) == Look(g.base, x)
    {
      AboveTransitive(g.roots[k].path, x, p);
      assert Look(made, x) == Look(q, x);
    }
  }

  lemma MoveBackup(g: Setting, cells: seq<Cell>, w: Tree, q: Tree, i: nat)
    requires GoodSetting(g) && |cells| == |g.roots| && i < |cells|
    requires WorkspaceOk(g, cells, w) && QuarantineOk(g, cells, None, q)
    requires g.roots[i].before.Some? && cells[i] == Cell(InWorkspace, InApply) && HasParent(q, g.roots[i].path)
    ensures var p := g.roots[i].path; p in w && p !in q && p != []
    ensures var p := g.roots[i].path; var r := Rename(w, p, q, p); var moved := cells[i := Cell(InQuarantine, InApply)];
      r.Renamed? && WorkspaceOk(g, moved, r.source) && QuarantineOk(g, moved, None, r.target)
  {
    var p := g.roots[i].path;
    assert g.roots[i] in g.roots && Above(p, p);
    assert Look(w, p) == Look(g.base, p);
    if p in q { BackupPathFree(g, cells, q, i, p); }
    var r := Rename(w, p, q, p);
    RenameKeepsTrees(w, p, q, p);
    WorkspaceLoses(g, cells, w, r.source, i, Cell(InQuarantine, InApply));
    QuarantineGains(g, cells, w, q, r.target, i);
  }

  /** Taking root `i` out of the workspace. */
  lemma WorkspaceLoses(g: Setting, cells: seq<Cell>, w: Tree, w': Tree, i: nat, cell: Cell)
    requires GoodSetting(g) && |cells| == |g.roots| && i < |cells| && WorkspaceOk(g, cells, w) && IsTree(w')
    requires forall x :: Look(w', x) == if Above(g.roots[i].path, x) then None else Look(w, x)
    requires forall x | Above(g.roots[i].path, x) :: CellView(g, cell, x) == None
    ensures WorkspaceOk(g, cells[i := cell], w')
  {
    var moved := cells[i := cell];
    forall k, x | 0 <= k < |moved| && Above(g.roots[k].path, x) ensures Look(w', x) == CellView(g, moved[k], x) {
      OneRoot(g.roots, i, k, x);
    }
    assert forall x | !Covered(g.roots, x) :: !Above(g.roots[i].path, x);
  }

  /** Putting a subtree at root `i` of the workspace. */
  lemma WorkspaceGains(g: Setting, cells: seq<Cell>, w: Tree, w': Tree, i: nat, cell: Cell)
    requires GoodSetting(g) && |cells| == |g.roots| && i < |cells| && WorkspaceOk(g, cells, w) && IsTree(w')
    requires forall x :: Look(w', x) == if Above(g.roots[i].path, x) then CellView(g, cell, x) else Look(w, x)
    ensures WorkspaceOk(g, cells[i := cell], w')
  {
    var moved := cells[i := cell];
    forall k, x | 0 <= k < |moved| && Above(g.roots[k].path, x) ensures Look(w', x) == CellView(g, moved[k], x) {
      OneRoot(g.roots, i, k, x);
    }
    assert forall x | !Covered(g.roots, x) :: !Above(g.roots[i].path, x);
  }

  lemma QuarantineGains(g: Setting, cells: seq<Cell>, w: Tree, q: Tree, q': Tree, i: nat)
    requires GoodSetting(g) && |cells| == |g.roots| && i < |cells|
    requires WorkspaceOk(g, cells, w) && QuarantineOk(g, cells, None, q) && IsTree(q')
    requires cells[i] == Cell(InWorkspace, InApply)
    requires var p := g.roots[i].path;
      forall x :: Look(q', x) == if Above(p, x) then Look(w, Rebase(x, p, p)) else Look(q, x)
    ensures QuarantineOk(g, cells[i := Cell(InQuarantine, InApply)], None, q')
  {
    var p := g.roots[i].path;
    var moved := cells[i := Cell(InQuarantine, InApply)];
    forall k, x | 0 <= k < |moved| && moved[k].old_ == InQuarantine && Above(g.roots[k].path, x)
      ensures Look(q', x) == Look(g.base, x)
    {
      OneRoot(g.roots, i, k, x);
      if Above(p, x) { RebaseBack(x, p, p); }
    }
    forall x | x in q' ensures Explained(g, moved, None, q', x) {
      assert Look(q', x).Some?;
      if Above(p, x) {
        assert moved[i].old_ == InQuarantine;
      } else {
        assert Explained(g, cells, None, q, x);
        if k :| 0 <= k < |cells| && cells[k].old_ == InQuarantine && Above(g.roots[k].path, x) {
          assert moved[k].old_ == InQuarantine;
        }
      }
    }
  }

  // ----- commit: install the new subtree

  lemma Install(g: Setting, cells: seq<Cell>, w: Tree, apply: Tree, i: nat)
    requires GoodSetting(g) && |cells| == |g.roots| && i < |cells|
    requires WorkspaceOk(g, cells, w) && ApplyOk(g, cells, apply)
    requires g.roots[i].after.Some? && cells[i].new_ == InApply
    requires cells[i].old_ == (if g.roots[i].before.Some? then InQuarantine else InWorkspace)
    ensures var p := g.roots[i].path; p in apply && p !in w && p != [] && HasParent(w, p)
    ensures var p := g.roots[i].path; var r := Rename(apply, p, w, p);
      var moved := cells[i := cells[i].(new_ := Installed)];
      r.Renamed? && ApplyOk(g, moved, r.source) && WorkspaceOk(g, moved, r.target)
  {
    var p := g.roots[i].path;
    assert g.roots[i] in g.roots && Above(p, p);
    ParentsStay(g, cells, w, i);
    assert Look(w, p) == CellView(g, cells[i], p) && Look(apply, p) == Look(g.payload, p);
    var r := Rename(apply, p, w, p);
    RenameKeepsTrees(apply, p, w, p);
    var moved := cells[i := cells[i].(new_ := Installed)];
    forall x | Above(p, x) ensures Look(r.target, x) == Look(g.payload, x) {
      assert Rebase(x, p, p) == x;
    }
    WorkspaceGains(g, cells, w, r.target, i, cells[i].(new_ := Installed));
    ApplyLoses(g, cells, apply, r.source, i, cells[i].(new_ := Installed));
  }

  lemma ApplyLoses(g: Setting, cells: seq<Cell>, apply: Tree, apply': Tree, i: nat, cell: Cell)
    requires GoodSetting(g) && |cells| == |g.roots| && i < |cells| && ApplyOk(g, cells, apply) && IsTree(apply')
    requires forall x :: Look(apply', x) == if Above(g.roots[i].path, x) then None else Look(apply, x)
    requires cell.new_ != InApply
    ensures ApplyOk(g, cells[i := cell], apply')
  {
    var moved := cells[i := cell];
    forall k, x | 0 <= k < |moved| && Above(g.roots[k].path, x)
      ensures Look(apply', x) == if moved[k].new_ == InApply then Look(g.payload, x) else None
    {
      OneRoot(g.roots, i, k, x);
    }
  }

  // ----- undo: set the new subtree aside

  /** The place for setting root `i` aside is empty and lies in no backup. */
  ghost predicate AsideFree(g: Setting, cells: seq<Cell>, reserved: Name, q: Tree, i: nat)
    requires |cells| == |g.roots| && i < |cells|
  {
    && (forall k | 0 <= k < |cells| && cells[k].old_ == InQuarantine ::
      !Above(g.roots[k].path, Aside(reserved, g.roots[i].path)))
    && Aside(reserved, g.roots[i].path) !in q
  }

  lemma AsidePathFree(g: Setting, cells: seq<Cell>, reserved: Name, q: Tree, i: nat, x: Path)
    requires GoodSetting(g) && |cells| == |g.roots| && i < |cells| && QuarantineOk(g, cells, Some(reserved), q)
    requires AsideFree(g, cells, reserved, q, i) && cells[i].new_ != SetAside && x in q
    ensures !Above(Aside(reserved, g.roots[i].path), x)
    ensures Inside(x, Aside(reserved, g.roots[i].path)) ==> DirectoryAt(q, x)
  {
    var d := Aside(reserved, g.roots[i].path);
    assert Above(d, x) && x != d ==> Inside(d, x);
    assert Explained(g, cells, Some(reserved), q, x);
    forall k | 0 <= k < |cells|
      ensures var p := g.roots[k].path; Above(p, x) && Above(x, d) ==> Above(p, d)
      ensures var p := Aside(reserved, g.roots[k].path); k != i ==> !(Above(p, x) && Above(x, d))
    {
      AsideAbove(reserved, g.roots[k].path, g.roots[i].path);
      AboveTransitive(g.roots[k].path, x, d);
      AboveTransitive(Aside(reserved, g.roots[k].path), x, d);
    }
  }

  lemma AsideParents(g: Setting, cells: seq<Cell>, reserved: Name, q: Tree, i: nat)
    requires GoodSetting(g) && |cells| == |g.roots| && i < |cells| && QuarantineOk(g, cells, Some(reserved), q)
    requires AsideFree(g, cells, reserved, q, i) && cells[i].new_ != SetAside && CleanName(reserved)
    requires g.roots[i].after.Some?
    ensures MakeParents(q, Aside(reserved, g.roots[i].path)).Some?
    ensures QuarantineOk(g, cells, Some(reserved), MakeParents(q, Aside(reserved, g.roots[i].path)).value)
    ensures AsideFree(g, cells, reserved, MakeParents(q, Aside(reserved, g.roots[i].path)).value, i)
  {
    var d := Aside(reserved, g.roots[i].path);
    assert g.roots[i] in g.roots;
    forall a | a in Ancestors(d) && a in q ensures DirectoryAt(q, a) {
      AsidePathFree(g, cells, reserved, q, i, a);
    }
    var made := MakeParents(q, d).value;
    assert Look(made, d) == Look(q, d);
    AsideClean(reserved, g.roots[i].path);
    MakeParentsKeepsTree(q, d);
    forall x | x in made ensures Explained(g, cells, Some(reserved), made, x) {
      assert Look(made, x).Some?;
      if x in q { assert Explained(g, cells, Some(reserved), q, x); }
    }
    forall k, x | 0 <= k < |cells| && cells[k].old_ == InQuarantine && Above(g.roots[k].path, x)
      ensures Look(made, x) == Look(g.base, x)
    {
      AboveTransitive(g.roots[k].path, x, d);
      assert Look(made, x) == Look(q, x);
    }
    forall k, x | 0 <= k < |cells| && cells[k].new_ == SetAside && Above(g.roots[k].path, x)
      ensures Look(made, Aside(reserved, x)) == Look(g.payload, x)
    {
      AsideAbove(reserved, x, g.roots[i].path);
      AboveTransitive(g.roots[k].path, x, g.roots[i].path);
      assert Look(made, Aside(reserved, x)) == Look(q, Aside(reserved, x));
    }
  }

  lemma AsideClean(reserved: Name, p: Path)
    requires CleanName(reserved) && Clean(p)
    ensures Clean(Aside(reserved, p))
  {
  }

  lemma MoveAside(g: Setting, cells: seq<Cell>, reserved: Name, w: Tree, q: Tree, i: nat)
    requires GoodSetting(g) && |cells| == |g.roots| && i < |cells| && CleanName(reserved)
    requires WorkspaceOk(g, cells, w) && QuarantineOk(g, cells, Some(reserved), q)
    requires GoodCells(g, cells) && cells[i].new_ == Installed && AsideFree(g, cells, reserved, q, i)
    requires HasParent(q, Aside(reserved, g.roots[i].path))
    ensures var p := g.roots[i].path; p in w && p != [] && Aside(reserved, p) !in q
    ensures var p := g.roots[i].path; var r := Rename(w, p, q, Aside(reserved, p));
      var moved := cells[i := cells[i].(new_ := SetAside)];
      r.Renamed? && WorkspaceOk(g, moved, r.source) && QuarantineOk(g, moved, Some(reserved), r.target)
  {
    var p := g.roots[i].path;
    var d := Aside(reserved, p);
    assert g.roots[i] in g.roots && Above(p, p);
    assert Look(w, p) == Look(g.payload, p);
    var r := Rename(w, p, q, d);
    AsideClean(reserved, p);
    RenameKeepsTrees(w, p, q, d);
    var cell := cells[i].(new_ := SetAside);
    forall x | Above(p, x) ensures CellView(g, cell, x) == None {
      if g.roots[i].before.None? && x in g.base { NothingBelowAbsent(g.base, p, x); }
    }
    WorkspaceLoses(g, cells, w, r.source, i, cell);
    AsideGains(g, cells, reserved, w, q, r.target, i);
  }

  lemma AsideGains(g: Setting, cells: seq<Cell>, reserved: Name, w: Tree, q: Tree, q': Tree, i: nat)
    requires GoodSetting(g) && |cells| == |g.roots| && i < |cells|
    requires WorkspaceOk(g, cells, w) && QuarantineOk(g, cells, Some(reserved), q) && IsTree(q')
    requires GoodCells(g, cells) && cells[i].new_ == Installed && AsideFree(g, cells, reserved, q, i)
    requires var p := g.roots[i].path; var d := Aside(reserved, p);
      forall x :: Look(q', x) == if Above(d, x) then Look(w, Rebase(x, d, p)) else Look(q, x)
    ensures QuarantineOk(g, cells[i := cells[i].(new_ := SetAside)], Some(reserved), q')
  {
    var p := g.roots[i].path;
    var d := Aside(reserved, p);
    var moved := cells[i := cells[i].(new_ := SetAside)];
    AsideDisjoint(g, cells, reserved, q, i);
    forall k, x | 0 <= k < |moved| && moved[k].old_ == InQuarantine && Above(g.roots[k].path, x)
      ensures Look(q', x) == Look(g.base, x)
    {
      assert cells[k].old_ == InQuarantine;
      Comparable(g.roots[k].path, d, x);
    }
    forall k, x | 0 <= k < |moved| && moved[k].new_ == SetAside && Above(g.roots[k].path, x)
      ensures Look(q', Aside(reserved, x)) == Look(g.payload, x)
    {
      AsideHolds(g, cells, reserved, w, q, q', i, k, x);
    }
    forall x | x in q' ensures Explained(g, moved, Some(reserved), q', x) {
      AsideExplained(g, cells, reserved, w, q, q', i, x);
    }
  }

  /** The payloads set aside, the latest among them, are in their places. */
  lemma AsideHolds(g: Setting, cells: seq<Cell>, reserved: Name, w: Tree, q: Tree, q': Tree, i: nat, k: nat, x: Path)
    requires GoodSetting(g) && |cells| == |g.roots| && i < |cells| && k < |cells| && Above(g.roots[k].path, x)
    requires WorkspaceOk(g, cells, w) && QuarantineOk(g, cells, Some(reserved), q) && cells[i].new_ == Installed
    requires var p := g.roots[i].path; var d := Aside(reserved, p);
      forall x :: Look(q', x) == if Above(d, x) then Look(w, Rebase(x, d, p)) else Look(q, x)
    ensures k == i || cells[k].new_ == SetAside ==> Look(q', Aside(reserved, x)) == Look(g.payload, x)
  {
    var p := g.roots[i].path;
    AsideAbove(reserved, p, x);
    OneRoot(g.roots, i, k, x);
    if k == i {
      assert Rebase(Aside(reserved, x), Aside(reserved, p), p) == x;
    }
  }

  lemma AsideExplained(g: Setting, cells: seq<Cell>, reserved: Name, w: Tree, q: Tree, q': Tree, i: nat, x: Path)
    requires |cells| == |g.roots| && i < |cells| && QuarantineOk(g, cells, Some(reserved), q) && x in q'
    requires var p := g.roots[i].path; var d := Aside(reserved, p);
      forall x :: Look(q', x) == if Above(d, x) then Look(w, Rebase(x, d, p)) else Look(q, x)
    ensures Explained(g, cells[i := cells[i].(new_ := SetAside)], Some(reserved), q', x)
  {
    var moved := cells[i := cells[i].(new_ := SetAside)];
    assert Look(q', x).Some?;
    if Above(Aside(reserved, g.roots[i].path), x) {
      assert moved[i].new_ == SetAside;
    } else {
      ExplainedStays(g, cells, moved, reserved, q, q', x);
    }
  }

  /** A backup still in quarantine keeps clear of the place for root `i`. */
  lemma AsideDisjoint(g: Setting, cells: seq<Cell>, reserved: Name, q: Tree, i: nat)
    requires GoodSetting(g) && |cells| == |g.roots| && i < |cells| && AsideFree(g, cells, reserved, q, i)
    requires GoodCells(g, cells) && QuarantineOk(g, cells, Some(reserved), q)
    ensures forall k | 0 <= k < |cells| && cells[k].old_ == InQuarantine ::
      Disjoint(g.roots[k].path, Aside(reserved, g.roots[i].path))
  {
    var d := Aside(reserved, g.roots[i].path);
    forall k | 0 <= k < |cells| && cells[k].old_ == InQuarantine ensures Disjoint(g.roots[k].path, d) {
      var p := g.roots[k].path;
      assert g.roots[k] in g.roots && Above(p, p) && Look(q, p) == Look(g.base, p);
      assert Above(d, p) && d != p ==> Inside(d, p);
    }
  }

  lemma ExplainedStays(g: Setting, cells: seq<Cell>, moved: seq<Cell>, reserved: Name, q: Tree, q': Tree, x: Path)
    requires |cells| == |g.roots| == |moved| && Explained(g, cells, Some(reserved), q, x) && Look(q', x) == Look(q, x)
    requires forall k | 0 <= k < |cells| && cells[k].old_ == InQuarantine && Above(g.roots[k].path, x) ::
      moved[k].old_ == InQuarantine
    requires forall k | 0 <= k < |cells| && cells[k].new_ == SetAside :: moved[k].new_ == SetAside
    ensures Explained(g, moved, Some(reserved), q', x)
  {
    if k :| 0 <= k < |cells| && cells[k].old_ == InQuarantine && Above(g.roots[k].path, x) {
      assert moved[k].old_ == InQuarantine;
    } else if k :| 0 <= k < |cells| && cells[k].new_ == SetAside && Above(Aside(reserved, g.roots[k].path), x) {
      assert moved[k].new_ == SetAside;
    }
  }

  // ----- undo: put the old subtree back

  lemma PutBack(g: Setting, cells: seq<Cell>, reserved: Name, w: Tree, q: Tree, i: nat)
    requires GoodSetting(g) && |cells| == |g.roots| && i < |cells|
    requires WorkspaceOk(g, cells, w) && QuarantineOk(g, cells, Some(reserved), q)
    requires g.roots[i].before.Some? && cells[i].old_ == InQuarantine && cells[i].new_ != Installed
    ensures var p := g.roots[i].path; p in q && p !in w && p != [] && HasParent(w, p)
    ensures var p := g.roots[i].path; var r := Rename(q, p, w, p);
      var moved := cells[i := cells[i].(old_ := InWorkspace)];
      r.Renamed? && WorkspaceOk(g, moved, r.target) && QuarantineOk(g, moved, Some(reserved), r.source)
  {
    var p := g.roots[i].path;
    assert g.roots[i] in g.roots && Above(p, p);
    ParentsStay(g, cells, w, i);
    assert Look(w, p) == CellView(g, cells[i], p) && Look(q, p) == Look(g.base, p);
    var r := Rename(q, p, w, p);
    RenameKeepsTrees(q, p, w, p);
    forall x | Above(p, x) ensures Look(r.target, x) == Look(g.base, x) {
      assert Rebase(x, p, p) == x;
    }
    WorkspaceGains(g, cells, w, r.target, i, cells[i].(old_ := InWorkspace));
    QuarantineLoses(g, cells, reserved, q, r.source, i);
  }

  lemma QuarantineLoses(g: Setting, cells: seq<Cell>, reserved: Name, q: Tree, q': Tree, i: nat)
    requires GoodSetting(g) && |cells| == |g.roots| && i < |cells|
    requires QuarantineOk(g, cells, Some(reserved), q) && IsTree(q')
    requires cells[i].old_ == InQuarantine
    requires forall x :: Look(q', x) == if Above(g.roots[i].path, x) then None else Look(q, x)
    ensures QuarantineOk(g, cells[i := cells[i].(old_ := InWorkspace)], Some(reserved), q')
  {
    var p := g.roots[i].path;
    var moved := cells[i := cells[i].(old_ := InWorkspace)];
    forall k, x | 0 <= k < |moved| && moved[k].old_ == InQuarantine && Above(g.roots[k].path, x)
      ensures Look(q', x) == Look(g.base, x)
    {
      OneRoot(g.roots, i, k, x);
    }
    forall k, x | 0 <= k < |moved| && moved[k].new_ == SetAside && Above(g.roots[k].path, x)
      ensures Look(q', Aside(reserved, x)) == Look(g.payload, x)
    {
      assert Disjoint(p, Aside(reserved, g.roots[k].path));
      AsideAbove(reserved, g.roots[k].path, x);
      Comparable(p, Aside(reserved, g.roots[k].path), Aside(reserved, x));
    }
    forall x | x in q' ensures Explained(g, moved, Some(reserved), q', x) {
      assert Look(q', x).Some?;
      assert x in q;
      ExplainedStays(g, cells, moved, reserved, q, q', x);
    }
  }
}

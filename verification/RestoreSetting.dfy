/** Why a restore may start from any workspace with the committed manifest: its visible part
    is fixed by the digest, and the excluded part plays no role. */
module RestoreSetting {
  import opened Paths
  import opened Trees
  import opened Manifests
  import opened Diffs
  import opened Layout
  import opened Records
  import opened Undo
  import opened UndoOutcome
  import opened Journal

  /** The baseline to be restored into workspace `w`: what was visible then beside what is
      excluded now. */
  function Restored(g: Setting, w: Tree, excluded: set<Name>): Setting {
    Setting(Visible(g.base, excluded) + Hidden(w, excluded), g.payload, g.roots)
  }

  predicate VisibleRoots(g: Setting, excluded: set<Name>) {
    forall c | c in g.roots :: !IsExcluded(c.path, excluded)
  }

  lemma RestoredBaseAt(g: Setting, w: Tree, excluded: set<Name>, x: Path)
    ensures Look(Restored(g, w, excluded).base, x) == if IsExcluded(x, excluded) then Look(w, x) else Look(g.base, x)
  {
  }

  lemma RestoredIsGood(g: Setting, w: Tree, excluded: set<Name>)
    requires GoodSetting(g) && VisibleRoots(g, excluded) && IsTree(w)
    ensures GoodSetting(Restored(g, w, excluded))
  {
    var r := Restored(g, w, excluded);
    JoinIsTree(g.base, w, excluded);
    forall c | c in g.roots ensures GoodRoot(r, c) {
      assert GoodRoot(g, c);
      RestoredBaseAt(g, w, excluded, c.path);
      forall a | Inside(a, c.path) ensures DirectoryAt(r.base, a) {
        assert DirectoryAt(g.base, a);
        ExcludedAbove(a, c.path, excluded);
        RestoredBaseAt(g, w, excluded, a);
      }
    }
  }

  lemma SameBelowRoot(g: Setting, w: Tree, excluded: set<Name>, i: nat, x: Path)
    requires GoodSetting(g) && VisibleRoots(g, excluded) && i < |g.roots| && Above(g.roots[i].path, x)
    ensures !IsExcluded(x, excluded) && Look(Restored(g, w, excluded).base, x) == Look(g.base, x)
  {
    assert g.roots[i] in g.roots && GoodRoot(g, g.roots[i]);
    ExcludedAbove(g.roots[i].path, x, excluded);
    RestoredBaseAt(g, w, excluded, x);
  }

  lemma WorkspaceFits(g: Setting, cells: seq<Cell>, after: Tree, w: Tree, excluded: set<Name>)
    requires GoodSetting(g) && VisibleRoots(g, excluded) && |cells| == |g.roots| && WorkspaceOk(g, cells, after)
      && IsTree(w)
    requires Visible(w, excluded) == Visible(after, excluded)
    ensures WorkspaceOk(Restored(g, w, excluded), cells, w)
  {
    var r := Restored(g, w, excluded);
    forall x | !IsExcluded(x, excluded) ensures Look(w, x) == Look(after, x) {
      assert Look(Visible(w, excluded), x) == Look(Visible(after, excluded), x);
    }
    forall i, x | 0 <= i < |cells| && Above(g.roots[i].path, x) ensures Look(w, x) == CellView(r, cells[i], x) {
      SameBelowRoot(g, w, excluded, i, x);
      assert Look(after, x) == CellView(g, cells[i], x);
    }
    forall x | !Covered(g.roots, x) ensures Look(w, x) == Look(r.base, x) {
      RestoredBaseAt(g, w, excluded, x);
    }
  }

  lemma QuarantineFits(g: Setting, cells: seq<Cell>, q: Tree, w: Tree, excluded: set<Name>)
    requires GoodSetting(g) && VisibleRoots(g, excluded) && |cells| == |g.roots| && QuarantineOk(g, cells, None, q)
    ensures QuarantineOk(Restored(g, w, excluded), cells, None, q)
  {
    var r := Restored(g, w, excluded);
    forall i, x | 0 <= i < |cells| && cells[i].old_ == InQuarantine && Above(g.roots[i].path, x)
      ensures Look(q, x) == Look(r.base, x) {
      SameBelowRoot(g, w, excluded, i, x);
    }
    forall x | x in q ensures Explained(r, cells, None, q, x) {
      assert Explained(g, cells, None, q, x);
    }
  }

  /** From any workspace whose visible part is the committed one, with the quarantine as the
      commit left it, everything is in place for the undo. */
  lemma ReadyToRestore(g: Setting, ops: seq<CommitOperation>, after: Disk, w: Tree, excluded: set<Name>, reserved: Name)
    requires Shape(g, ops, after) && VisibleRoots(g, excluded) && IsTree(w) && CleanName(reserved)
    requires Visible(w, excluded) == Visible(after.workspace, excluded)
    ensures OperationsFor(ops, Restored(g, w, excluded).roots) && UndoneFrom(ops, CellsOf(ops), |ops|)
    ensures UndoOk(Restored(g, w, excluded), CellsOf(ops), reserved, UndoState(w, after.quarantine, false))
  {
    var r := Restored(g, w, excluded);
    RestoredIsGood(g, w, excluded);
    WorkspaceFits(g, CellsOf(ops), after.workspace, w, excluded);
    QuarantineFits(g, CellsOf(ops), after.quarantine, w, excluded);
    ReadyToUndo(r, ops, after.(workspace := w), reserved);
  }

  /** Excluded entries, which alone may have changed, do not bear on whether a restore returns. */
  lemma RestoredReturns(g: Setting, ops: seq<CommitOperation>, w: Tree, excluded: set<Name>, reserved: Name, q0: Tree)
    requires GoodSetting(g) && OperationsFor(ops, g.roots) && VisibleRoots(g, excluded)
    ensures Returns(Restored(g, w, excluded), ops, reserved, q0) <==> Returns(g, ops, reserved, q0)
  {
    var r := Restored(g, w, excluded);
    forall i, j | 0 <= i <= j < |ops| && Above(ops[i].path, Aside(reserved, ops[j].path))
      ensures SameThere(r, reserved, ops[j].path) <==> SameThere(g, reserved, ops[j].path)
    {
      assert OperationFor(ops[i], g.roots[i]) && g.roots[i] in g.roots;
      forall y | Above(ops[j].path, y) ensures Look(r.base, Aside(reserved, y)) == Look(g.base, Aside(reserved, y)) {
        AsideAbove(reserved, ops[j].path, y);
        AboveTransitive(ops[i].path, Aside(reserved, ops[j].path), Aside(reserved, y));
        SeenBelowRoot(g, w, excluded, ops[i].path, Aside(reserved, y));
      }
    }
  }

  lemma SeenBelowRoot(g: Setting, w: Tree, excluded: set<Name>, p: Path, x: Path)
    requires p != [] && !IsExcluded(p, excluded) && Above(p, x)
    ensures Look(Restored(g, w, excluded).base, x) == Look(g.base, x)
  {
    ExcludedAbove(p, x, excluded);
    RestoredBaseAt(g, w, excluded, x);
  }
}

/** Undoing a commit: what the reversed loop of a restore does to workspace and quarantine
    when no system call fails by itself, and exactly when it gives the baseline back. */
module Undo {
  import opened Paths
  import opened Trees
  import opened Manifests
  import opened Diffs
  import opened Layout
  import opened Records

  /** Where rollback and restore put the payloads they take out, inside the quarantine. */
  const FAILED_NEW: Name := "_failed_new"
  const RESTORE_CURRENT: Name := "_restore_current"

  /** `landed` remembers whether a rename ever hit an existing path. */
  datatype UndoState = UndoState(workspace: Tree, quarantine: Tree, landed: bool)

  function SetAsideOne(s: UndoState, reserved: Name, p: Path): Option<UndoState>
    requires p != []
  {
    if p !in s.workspace then None else
      match MakeParents(s.quarantine, Aside(reserved, p))
      case None => None
      case Some(q) =>
        match Rename(s.workspace, p, q, Aside(reserved, p))
        case RenameError => None
        case Renamed(w', q') => Some(UndoState(w', q', s.landed || Aside(reserved, p) in q))
  }

  function PutBackOne(s: UndoState, p: Path): Option<UndoState>
    requires p != []
  {
    if p !in s.quarantine then None else
      match MakeParents(s.workspace, p)
      case None => None
      case Some(w) =>
        match Rename(s.quarantine, p, w, p)
        case RenameError => None
        case Renamed(q', w') => Some(UndoState(w', q', s.landed || p in w))
  }

  function Uninstall(s: UndoState, reserved: Name, op: CommitOperation): Option<UndoState>
    requires op.path != []
  {
    if op.installed then SetAsideOne(s, reserved, op.path) else Some(s)
  }

  function Reinstate(s: UndoState, op: CommitOperation): Option<UndoState>
    requires op.path != []
  {
    if op.backupMoved then PutBackOne(s, op.path) else Some(s)
  }

  /** One turn of the loop in restore; None where it raises. */
  function UndoOne(s: UndoState, reserved: Name, op: CommitOperation): Option<UndoState> {
    if op.path == [] then None else
      match Uninstall(s, reserved, op)
      case None => None
      case Some(t) => Reinstate(t, op)
  }

  /** The loop over the first `k` operations, last first. */
  function UndoFrom(s: UndoState, reserved: Name, ops: seq<CommitOperation>, k: nat): Option<UndoState>
    requires k <= |ops|
    decreases k
  {
    if k == 0 then Some(s) else
      match UndoOne(s, reserved, ops[k - 1])
      case None => None
      case Some(t) => UndoFrom(t, reserved, ops, k - 1)
  }

  // ----- when the names do not clash

  /** Setting root `j` aside meets the backup of root `i`, or a directory made for it. */
  predicate Clash(roots: seq<Change>, reserved: Name, i: nat, j: nat)
    requires i < |roots| && j < |roots|
  {
    && roots[i].before.Some? && roots[j].after.Some?
    && ((i <= j && Above(roots[i].path, Aside(reserved, roots[j].path)))
      || Inside(Aside(reserved, roots[j].path), roots[i].path))
  }

  predicate NoClash(roots: seq<Change>, reserved: Name) {
    forall i, j | 0 <= i < |roots| && 0 <= j < |roots| :: !Clash(roots, reserved, i, j)
  }

  /** No operation path starts with the reserved name: a plan can be checked for this at sight. */
  predicate Unreserved(roots: seq<Change>, reserved: Name) {
    forall c | c in roots :: c.path != [] && c.path[0] != reserved
  }

  /** No place aside is at, above or below any backup, whatever the order of the turns. */
  predicate Apart(roots: seq<Change>, reserved: Name) {
    forall i, j | 0 <= i < |roots| && 0 <= j < |roots| && roots[i].before.Some? && roots[j].after.Some? ::
      !Above(roots[i].path, Aside(reserved, roots[j].path)) && !Inside(Aside(reserved, roots[j].path), roots[i].path)
  }

  lemma UnreservedApart(roots: seq<Change>, reserved: Name)
    requires Unreserved(roots, reserved)
    ensures Apart(roots, reserved) && NoClash(roots, reserved)
  {
    forall i, j | 0 <= i < |roots| && 0 <= j < |roots|
      ensures !Above(roots[i].path, Aside(reserved, roots[j].path))
        && !Inside(Aside(reserved, roots[j].path), roots[i].path)
    {
      assert roots[i] in roots && roots[i].path[0] != reserved;
    }
  }

  function CellOf(op: CommitOperation): Cell {
    Cell(if op.backupMoved then InQuarantine else InWorkspace, if op.installed then Installed else InApply)
  }

  /** Operations below `k` are as the journal says, the others are undone. */
  ghost predicate UndoneFrom(ops: seq<CommitOperation>, cells: seq<Cell>, k: nat) {
    && |cells| == |ops| && k <= |ops|
    && (forall i | 0 <= i < k :: cells[i] == CellOf(ops[i]))
    && (forall i | k <= i < |ops| :: cells[i].old_ == InWorkspace && cells[i].new_ != Installed)
  }

  ghost predicate UndoOk(g: Setting, cells: seq<Cell>, reserved: Name, s: UndoState) {
    && GoodSetting(g) && GoodCells(g, cells) && CleanName(reserved)
    && WorkspaceOk(g, cells, s.workspace) && QuarantineOk(g, cells, Some(reserved), s.quarantine)
  }

  /** Everything undone is the baseline. */
  lemma AllBack(g: Setting, cells: seq<Cell>, w: Tree)
    requires |cells| == |g.roots| && WorkspaceOk(g, cells, w)
    requires forall i | 0 <= i < |cells| :: cells[i].old_ == InWorkspace && cells[i].new_ != Installed
    ensures w == g.base
  {
    forall x ensures Look(w, x) == Look(g.base, x) {
      if Covered(g.roots, x) {
        var i :| 0 <= i < |g.roots| && Above(g.roots[i].path, x);
        assert Look(w, x) == CellView(g, cells[i], x);
      }
    }
    SameTree(w, g.base);
  }

  /** The same during an undo, also one that broke off, if no place aside meets a backup: each old
      entry below a root is in exactly one of workspace and quarantine, each payload entry in
      exactly one of apply tree, workspace and the place aside, and everything else is where it
      was. */
  lemma NothingLostUndoing(g: Setting, cells: seq<Cell>, reserved: Name, s: UndoState, apply: Tree, i: nat, x: Path)
    requires UndoOk(g, cells, reserved, s) && ApplyOk(g, cells, apply) && Apart(g.roots, reserved)
    requires i < |cells| && Above(g.roots[i].path, x)
    ensures x in g.base ==> (x in s.quarantine <==> cells[i].old_ == InQuarantine)
    ensures x in g.base && cells[i].old_ == InQuarantine ==> s.quarantine[x] == g.base[x]
    ensures x in g.payload ==>
      (x in apply <==> cells[i].new_ == InApply) && (Aside(reserved, x) in s.quarantine <==> cells[i].new_ == SetAside)
    ensures x in g.payload && cells[i].new_ == InApply ==> apply[x] == g.payload[x]
    ensures x in g.payload && cells[i].new_ == SetAside ==> s.quarantine[Aside(reserved, x)] == g.payload[x]
    ensures Look(s.workspace, x) ==
      if cells[i].new_ == Installed then Look(g.payload, x) else if cells[i].old_ == InWorkspace then Look(g.base, x)
        else None
    ensures cells[i].new_ == Installed && cells[i].old_ == InWorkspace ==> x !in g.base
  {
    assert Look(s.workspace, x) == CellView(g, cells[i], x);
    assert Look(apply, x) == if cells[i].new_ == InApply then Look(g.payload, x) else None;
    if cells[i].old_ == InQuarantine { assert Look(s.quarantine, x) == Look(g.base, x); }
    if cells[i].new_ == SetAside { assert Look(s.quarantine, Aside(reserved, x)) == Look(g.payload, x); }
    assert g.roots[i] in g.roots && GoodRoot(g, g.roots[i]);
    if g.roots[i].before.None? && x in g.base { NothingBelowAbsent(g.base, g.roots[i].path, x); }
    if x in g.base { OldNotTwice(g, cells, reserved, s.quarantine, i, x); }
    if g.roots[i].after.None? && x in g.payload { NothingBelowAbsent(g.payload, g.roots[i].path, x); }
    if x in g.payload { PayloadNotTwice(g, cells, reserved, s.quarantine, i, x); }
  }

  lemma OldNotTwice(g: Setting, cells: seq<Cell>, reserved: Name, q: Tree, i: nat, x: Path)
    requires GoodSetting(g) && GoodCells(g, cells) && QuarantineOk(g, cells, Some(reserved), q)
      && Apart(g.roots, reserved)
    requires i < |cells| && Above(g.roots[i].path, x) && g.roots[i].before.Some?
    ensures cells[i].old_ == InWorkspace ==> x !in q
  {
    forall k | 0 <= k < |cells|
      ensures cells[i].old_ == InWorkspace ==> !(cells[k].old_ == InQuarantine && Above(g.roots[k].path, x))
      ensures g.roots[k].after.Some? ==> !Above(Aside(reserved, g.roots[k].path), x)
      ensures !Inside(x, g.roots[k].path)
      ensures g.roots[k].after.Some? ==> !Inside(x, Aside(reserved, g.roots[k].path))
    {
      OneRoot(g.roots, i, k, x);
      AboveTransitive(g.roots[i].path, x, g.roots[k].path);
      AboveTransitive(g.roots[i].path, x, Aside(reserved, g.roots[k].path));
      Comparable(g.roots[i].path, Aside(reserved, g.roots[k].path), x);
    }
    assert x in q ==> Explained(g, cells, Some(reserved), q, x);
  }

  lemma PayloadNotTwice(g: Setting, cells: seq<Cell>, reserved: Name, q: Tree, i: nat, x: Path)
    requires GoodSetting(g) && GoodCells(g, cells) && QuarantineOk(g, cells, Some(reserved), q)
      && Apart(g.roots, reserved)
    requires i < |cells| && Above(g.roots[i].path, x) && g.roots[i].after.Some?
    ensures cells[i].new_ != SetAside ==> Aside(reserved, x) !in q
  {
    var d := Aside(reserved, x);
    assert g.roots[i] in g.roots && g.roots[i].path != [] && x != [];
    AsideAbove(reserved, g.roots[i].path, x);
    forall k | 0 <= k < |cells|
      ensures g.roots[k].before.Some? ==> !Above(g.roots[k].path, d) && !Inside(d, g.roots[k].path)
      ensures !Inside(d, Aside(reserved, g.roots[k].path))
      ensures cells[i].new_ != SetAside ==> !(cells[k].new_ == SetAside && Above(Aside(reserved, g.roots[k].path), d))
    {
      Comparable(g.roots[k].path, Aside(reserved, g.roots[i].path), d);
      AboveTransitive(Aside(reserved, g.roots[i].path), d, g.roots[k].path);
      AsideAbove(reserved, g.roots[k].path, x);
      AsideAbove(reserved, x, g.roots[k].path);
      OneRoot(g.roots, i, k, x);
      AboveTransitive(g.roots[i].path, x, g.roots[k].path);
    }
    assert d in q ==> Explained(g, cells, Some(reserved), q, d);
  }

  /** An undo takes nothing out of the apply tree and puts nothing into it. */
  ghost predicate SameApply(cells: seq<Cell>, next: seq<Cell>) {
    |cells| == |next| && forall i | 0 <= i < |cells| :: cells[i].new_ == InApply <==> next[i].new_ == InApply
  }

  lemma ApplyStays(g: Setting, cells: seq<Cell>, next: seq<Cell>, apply: Tree)
    requires |cells| == |g.roots| && ApplyOk(g, cells, apply) && SameApply(cells, next)
    ensures ApplyOk(g, next, apply)
  {
  }

  /** What is in the way of setting root `j` aside at its turn: a backup not yet put back, or a
      directory that was made in quarantine for one. */
  predicate Blocks(ops: seq<CommitOperation>, q: Tree, reserved: Name, i: nat, j: nat)
    requires i < |ops| && j < |ops|
  {
    && ops[j].installed
    && ((i <= j && ops[i].backupMoved && Above(ops[i].path, Aside(reserved, ops[j].path)))
        || (ops[i].beforeKind.Some? && Inside(Aside(reserved, ops[j].path), ops[i].path)
          && Aside(reserved, ops[j].path) in q))
  }

  /** The exact condition for undoing what the flags say from quarantine `q`. */
  predicate Unblocked(ops: seq<CommitOperation>, q: Tree, reserved: Name) {
    forall i, j | 0 <= i < |ops| && 0 <= j < |ops| :: !Blocks(ops, q, reserved, i, j)
  }

  /** Without a clash among the roots nothing is ever blocked, however far a commit got. */
  lemma NoClashUnblocked(g: Setting, ops: seq<CommitOperation>, cells: seq<Cell>, q: Tree, reserved: Name)
    requires OperationsFor(ops, g.roots) && UndoneFrom(ops, cells, |ops|) && GoodCells(g, cells)
      && NoClash(g.roots, reserved)
    ensures Unblocked(ops, q, reserved)
  {
    forall i, j | 0 <= i < |ops| && 0 <= j < |ops| ensures !Blocks(ops, q, reserved, i, j) {
      assert OperationFor(ops[i], g.roots[i]) && OperationFor(ops[j], g.roots[j]);
      assert cells[i] == CellOf(ops[i]) && cells[j] == CellOf(ops[j]);
      assert !Clash(g.roots, reserved, i, j);
    }
  }

  /** The places of the payloads still to be set aside are no directories made for backups. */
  ghost predicate PlacesFree(ops: seq<CommitOperation>, q: Tree, reserved: Name, k: nat) {
    && k <= |ops|
    && forall i, j | 0 <= i < |ops| && 0 <= j < k && ops[j].installed && ops[i].beforeKind.Some?
         && Inside(Aside(reserved, ops[j].path), ops[i].path) :: Aside(reserved, ops[j].path) !in q
  }

  lemma FreeAtTurn(g: Setting, ops: seq<CommitOperation>, cells: seq<Cell>, reserved: Name, s: UndoState, i: nat)
    requires UndoOk(g, cells, reserved, s) && i < |ops| && OperationsFor(ops, g.roots) && UndoneFrom(ops, cells, i + 1)
    requires ops[i].installed && PlacesFree(ops, s.quarantine, reserved, i + 1)
    requires forall k | 0 <= k <= i && ops[k].backupMoved :: !Above(ops[k].path, Aside(reserved, ops[i].path))
    ensures AsideFree(g, cells, reserved, s.quarantine, i)
  {
    var d := Aside(reserved, g.roots[i].path);
    forall k | 0 <= k < |ops|
      ensures ops[k].path == g.roots[k].path && (ops[k].beforeKind.Some? <==> g.roots[k].before.Some?)
      ensures cells[k].old_ == InQuarantine ==> !Above(g.roots[k].path, d)
      ensures k != i ==> !Above(Aside(reserved, g.roots[k].path), d)
      ensures !Inside(d, Aside(reserved, g.roots[k].path))
    {
      assert OperationFor(ops[k], g.roots[k]);
      if k <= i { assert cells[k] == CellOf(ops[k]); }
      AsideAbove(reserved, g.roots[k].path, g.roots[i].path);
      AsideAbove(reserved, g.roots[i].path, g.roots[k].path);
    }
    assert d in s.quarantine ==> Explained(g, cells, Some(reserved), s.quarantine, d);
    assert cells[i] == CellOf(ops[i]);
  }

  /** Setting a payload aside adds nothing to quarantine but on the way to its place and below. */
  lemma SetAsideAdds(s: UndoState, reserved: Name, p: Path, t: UndoState, x: Path)
    requires p != [] && SetAsideOne(s, reserved, p) == Some(t)
    ensures x in t.quarantine && !Inside(x, Aside(reserved, p)) && !Above(Aside(reserved, p), x) ==> x in s.quarantine
  {
    var q := MakeParents(s.quarantine, Aside(reserved, p)).value;
    if !Inside(x, Aside(reserved, p)) && !Above(Aside(reserved, p), x) {
      assert Look(t.quarantine, x) == Look(q, x) == Look(s.quarantine, x);
    }
  }

  lemma PutBackAdds(s: UndoState, p: Path, t: UndoState, x: Path)
    requires p != [] && PutBackOne(s, p) == Some(t)
    ensures x in t.quarantine ==> x in s.quarantine
  {
    assert Look(t.quarantine, x) == if Above(p, x) then None else Look(s.quarantine, x);
  }

  lemma PlacesAfterSetAside(g: Setting, ops: seq<CommitOperation>, s: UndoState, reserved: Name, k: nat, u: UndoState)
    requires Antichain(g.roots) && OperationsFor(ops, g.roots) && 0 < k <= |ops|
      && PlacesFree(ops, s.quarantine, reserved, k)
    requires ops[k - 1].path != [] && Uninstall(s, reserved, ops[k - 1]) == Some(u)
    ensures PlacesFree(ops, u.quarantine, reserved, k - 1)
  {
    forall i, j | 0 <= i < |ops| && 0 <= j < k - 1 && ops[j].installed && ops[i].beforeKind.Some?
      && Inside(Aside(reserved, ops[j].path), ops[i].path)
      ensures Aside(reserved, ops[j].path) !in u.quarantine
    {
      assert OperationFor(ops[j], g.roots[j]) && OperationFor(ops[k - 1], g.roots[k - 1]);
      AsideAbove(reserved, ops[j].path, ops[k - 1].path);
      AsideAbove(reserved, ops[k - 1].path, ops[j].path);
      if ops[k - 1].installed { SetAsideAdds(s, reserved, ops[k - 1].path, u, Aside(reserved, ops[j].path)); }
    }
  }

  lemma PlacesAfterPutBack(ops: seq<CommitOperation>, u: UndoState, reserved: Name, k: nat, op: CommitOperation,
                           t: UndoState)
    requires PlacesFree(ops, u.quarantine, reserved, k) && op.path != [] && Reinstate(u, op) == Some(t)
    ensures PlacesFree(ops, t.quarantine, reserved, k)
  {
    forall i, j | 0 <= i < |ops| && 0 <= j < k && ops[j].installed && ops[i].beforeKind.Some?
      && Inside(Aside(reserved, ops[j].path), ops[i].path)
      ensures Aside(reserved, ops[j].path) !in t.quarantine
    {
      if op.backupMoved { PutBackAdds(u, op.path, t, Aside(reserved, ops[j].path)); }
    }
  }

  lemma SetAsideStep(g: Setting, cells: seq<Cell>, reserved: Name, s: UndoState, i: nat)
    requires UndoOk(g, cells, reserved, s) && i < |cells| && cells[i].new_ == Installed
    requires AsideFree(g, cells, reserved, s.quarantine, i)
    ensures g.roots[i].path != []
    ensures var r := SetAsideOne(s, reserved, g.roots[i].path); var moved := cells[i := cells[i].(new_ := SetAside)];
      r.Some? && r.value.landed == s.landed && UndoOk(g, moved, reserved, r.value)
  {
    AsideParents(g, cells, reserved, s.quarantine, i);
    var q := MakeParents(s.quarantine, Aside(reserved, g.roots[i].path)).value;
    MoveAside(g, cells, reserved, s.workspace, q, i);
    SetAsideOneIs(s, reserved, g.roots[i].path, q);
    CellsMoved(g, cells, i, cells[i].(new_ := SetAside));
  }

  lemma PutBackStep(g: Setting, cells: seq<Cell>, reserved: Name, s: UndoState, i: nat)
    requires UndoOk(g, cells, reserved, s) && i < |cells| && cells[i].old_ == InQuarantine && cells[i].new_ != Installed
    ensures g.roots[i].path != []
    ensures var r := PutBackOne(s, g.roots[i].path); var moved := cells[i := cells[i].(old_ := InWorkspace)];
      r.Some? && r.value.landed == s.landed && UndoOk(g, moved, reserved, r.value)
  {
    var p := g.roots[i].path;
    assert g.roots[i] in g.roots;
    ParentsStay(g, cells, s.workspace, i);
    PutBack(g, cells, reserved, s.workspace, s.quarantine, i);
    PutBackOneIs(s, p);
    CellsMoved(g, cells, i, cells[i].(old_ := InWorkspace));
  }

  lemma CellsMoved(g: Setting, cells: seq<Cell>, i: nat, cell: Cell)
    requires GoodCells(g, cells) && i < |cells|
    requires || (cell == cells[i].(old_ := InWorkspace) && cell.new_ != Installed)
             || (cell == cells[i].(new_ := SetAside) && cells[i].new_ == Installed)
    ensures GoodCells(g, cells[i := cell])
  {
  }

  lemma PutBackOneIs(s: UndoState, p: Path)
    requires p != [] && p in s.quarantine && p !in s.workspace && MakeParents(s.workspace, p) == Some(s.workspace)
    requires Rename(s.quarantine, p, s.workspace, p).Renamed?
    ensures var r := Rename(s.quarantine, p, s.workspace, p);
      PutBackOne(s, p) == Some(UndoState(r.target, r.source, s.landed))
  {
  }

  lemma SetAsideOneIs(s: UndoState, reserved: Name, p: Path, q: Tree)
    requires p != [] && p in s.workspace && MakeParents(s.quarantine, Aside(reserved, p)) == Some(q)
    requires Aside(reserved, p) !in q && Rename(s.workspace, p, q, Aside(reserved, p)).Renamed?
    ensures var r := Rename(s.workspace, p, q, Aside(reserved, p));
      SetAsideOne(s, reserved, p) == Some(UndoState(r.source, r.target, s.landed))
  {
  }

  lemma UninstallStep(g: Setting, ops: seq<CommitOperation>, cells: seq<Cell>, reserved: Name, s: UndoState, i: nat)
    returns (t: UndoState, next: seq<Cell>)
    requires i < |ops| && OperationsFor(ops, g.roots) && UndoneFrom(ops, cells, i + 1) && UndoOk(g, cells, reserved, s)
    requires ops[i].installed ==> AsideFree(g, cells, reserved, s.quarantine, i)
    ensures ops[i].path != [] && Uninstall(s, reserved, ops[i]) == Some(t) && t.landed == s.landed
    ensures |next| == |cells| && next == cells[i := next[i]] && next[i].old_ == cells[i].old_
      && next[i].new_ != Installed
    ensures UndoOk(g, next, reserved, t)
  {
    assert g.roots[i] in g.roots && OperationFor(ops[i], g.roots[i]);
    t, next := s, cells;
    if ops[i].installed {
      SetAsideStep(g, cells, reserved, s, i);
      t, next := SetAsideOne(s, reserved, ops[i].path).value, cells[i := cells[i].(new_ := SetAside)];
    }
  }

  lemma ReinstateStep(g: Setting, ops: seq<CommitOperation>, cells: seq<Cell>, reserved: Name, s: UndoState, i: nat)
    returns (t: UndoState, next: seq<Cell>)
    requires i < |ops| == |cells| && OperationsFor(ops, g.roots)
    requires UndoOk(g, cells, reserved, s) && cells[i].new_ != Installed && cells[i].old_ == CellOf(ops[i]).old_
    ensures ops[i].path != [] && Reinstate(s, ops[i]) == Some(t) && t.landed == s.landed
    ensures |next| == |cells| && next == cells[i := next[i]] && next[i].old_ == InWorkspace && next[i].new_ != Installed
    ensures UndoOk(g, next, reserved, t)
  {
    assert g.roots[i] in g.roots && OperationFor(ops[i], g.roots[i]);
    t, next := s, cells;
    if ops[i].backupMoved {
      PutBackStep(g, cells, reserved, s, i);
      t, next := PutBackOne(s, ops[i].path).value, cells[i := cells[i].(old_ := InWorkspace)];
    }
  }

  /** One turn of an unblocked undo. */
  lemma UndoStep(g: Setting, ops: seq<CommitOperation>, cells: seq<Cell>, reserved: Name, s: UndoState, k: nat)
    returns (t: UndoState, next: seq<Cell>)
    requires 0 < k <= |ops| && OperationsFor(ops, g.roots) && UndoneFrom(ops, cells, k) && UndoOk(g, cells, reserved, s)
    requires PlacesFree(ops, s.quarantine, reserved, k) && NoneAbove(ops, reserved)
    ensures UndoOne(s, reserved, ops[k - 1]) == Some(t) && t.landed == s.landed
    ensures UndoneFrom(ops, next, k - 1) && UndoOk(g, next, reserved, t)
  {
    hide UndoOk, Rename, PlacesFree, OperationFor, OperationsFor;
    if ops[k - 1].installed { FreeAtTurn(g, ops, cells, reserved, s, k - 1); }
    var u, half := UninstallStep(g, ops, cells, reserved, s, k - 1);
    t, next := ReinstateStep(g, ops, half, reserved, u, k - 1);
    CellsUndone(ops, cells, half, next, k);
  }

  lemma CellsUndone(ops: seq<CommitOperation>, cells: seq<Cell>, half: seq<Cell>, next: seq<Cell>, k: nat)
    requires 0 < k <= |ops| && UndoneFrom(ops, cells, k) && |half| == |cells| == |next|
    requires half == cells[k - 1 := half[k - 1]] && next == half[k - 1 := next[k - 1]]
    requires next[k - 1].old_ == InWorkspace && next[k - 1].new_ != Installed
    ensures UndoneFrom(ops, next, k - 1)
  {
    forall i | 0 <= i < |ops| && i != k - 1 ensures next[i] == cells[i] {
      assert next[i] == half[i];
    }
  }

  /** The places stay free through a turn. */
  lemma PlacesAfterTurn(g: Setting, ops: seq<CommitOperation>, s: UndoState, reserved: Name, k: nat, t: UndoState)
    requires Antichain(g.roots) && OperationsFor(ops, g.roots) && 0 < k <= |ops|
      && PlacesFree(ops, s.quarantine, reserved, k)
    requires UndoOne(s, reserved, ops[k - 1]) == Some(t)
    ensures PlacesFree(ops, t.quarantine, reserved, k - 1)
  {
    var u := Uninstall(s, reserved, ops[k - 1]).value;
    PlacesAfterSetAside(g, ops, s, reserved, k, u);
    PlacesAfterPutBack(ops, u, reserved, k - 1, ops[k - 1], t);
  }

  /** No payload is to be set aside inside a backup that is put back in its turn or later. */
  predicate NoneAbove(ops: seq<CommitOperation>, reserved: Name) {
    forall i, j | 0 <= i <= j < |ops| && ops[i].backupMoved && ops[j].installed ::
      !Above(ops[i].path, Aside(reserved, ops[j].path))
  }

  lemma UnblockedSplits(ops: seq<CommitOperation>, q: Tree, reserved: Name)
    requires Unblocked(ops, q, reserved)
    ensures NoneAbove(ops, reserved) && PlacesFree(ops, q, reserved, |ops|)
  {
    forall i, j | 0 <= i < |ops| && 0 <= j < |ops|
      ensures i <= j && ops[i].backupMoved && ops[j].installed ==> !Above(ops[i].path, Aside(reserved, ops[j].path))
      ensures ops[j].installed && ops[i].beforeKind.Some? && Inside(Aside(reserved, ops[j].path), ops[i].path) ==>
        Aside(reserved, ops[j].path) !in q
    {
      assert !Blocks(ops, q, reserved, i, j);
    }
  }

  lemma {:induction false} UndoRuns(g: Setting, ops: seq<CommitOperation>, cells: seq<Cell>, reserved: Name,
                                    s: UndoState, k: nat)
    requires OperationsFor(ops, g.roots) && UndoneFrom(ops, cells, k) && UndoOk(g, cells, reserved, s)
    requires PlacesFree(ops, s.quarantine, reserved, k) && NoneAbove(ops, reserved)
    ensures var r := UndoFrom(s, reserved, ops, k);
      r.Some? && r.value.workspace == g.base && r.value.landed == s.landed
    decreases k
  {
    if k == 0 {
      AllBack(g, cells, s.workspace);
    } else {
      var t, next := UndoStep(g, ops, cells, reserved, s, k);
      PlacesAfterTurn(g, ops, s, reserved, k, t);
      UndoRuns(g, ops, next, reserved, t, k - 1);
    }
  }

  /** Unblocked, the loop succeeds, lands on nothing, and ends at the baseline, from whatever
      point the journal had reached. */
  lemma UndoGivesBaseline(g: Setting, ops: seq<CommitOperation>, cells: seq<Cell>, reserved: Name, s: UndoState)
    requires OperationsFor(ops, g.roots) && UndoneFrom(ops, cells, |ops|) && UndoOk(g, cells, reserved, s)
    requires Unblocked(ops, s.quarantine, reserved)
    ensures var r := UndoFrom(s, reserved, ops, |ops|);
      r.Some? && r.value.workspace == g.base && r.value.landed == s.landed
  {
    UnblockedSplits(ops, s.quarantine, reserved);
    UndoRuns(g, ops, cells, reserved, s, |ops|);
  }
}

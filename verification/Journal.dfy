/** The commit loop on values: what the flags of the operations say about the disk, what each
    move does to both, and what the last saved journal still tells after a crash. */
module Journal {
  import opened Paths
  import opened Trees
  import opened Manifests
  import opened Diffs
  import opened Layout
  import opened Records
  import opened Undo
  import opened UndoExact

  datatype Disk = Disk(workspace: Tree, apply: Tree, quarantine: Tree)

  function CellsOf(ops: seq<CommitOperation>): (cells: seq<Cell>)
    ensures |cells| == |ops| && forall i | 0 <= i < |ops| :: cells[i] == CellOf(ops[i])
  {
    seq(|ops|, i requires 0 <= i < |ops| => CellOf(ops[i]))
  }

  /** The disk looks exactly as the flags say. */
  ghost predicate Shape(g: Setting, ops: seq<CommitOperation>, d: Disk) {
    && GoodSetting(g) && OperationsFor(ops, g.roots) && GoodCells(g, CellsOf(ops))
    && WorkspaceOk(g, CellsOf(ops), d.workspace)
    && ApplyOk(g, CellsOf(ops), d.apply)
    && QuarantineOk(g, CellsOf(ops), None, d.quarantine)
  }

  predicate Untouched(op: CommitOperation) {
    !op.backupMoved && !op.installed
  }

  predicate Finished(op: CommitOperation) {
    (op.backupMoved <==> op.beforeKind.Some?) && (op.installed <==> op.afterKind.Some?)
  }

  /** The loop has finished the first `k` operations and not begun the others. */
  predicate Progress(ops: seq<CommitOperation>, k: nat) {
    && k <= |ops|
    && (forall i | 0 <= i < k :: Finished(ops[i]))
    && (forall i | k <= i < |ops| :: Untouched(ops[i]))
  }

  /** Every operation carried out means every flag set. */
  lemma FinishedIsDone(g: Setting, ops: seq<CommitOperation>)
    requires OperationsFor(ops, g.roots) && Progress(ops, |ops|)
    ensures Done(ops, g.roots)
  {
    forall i | 0 <= i < |ops|
      ensures (ops[i].backupMoved <==> g.roots[i].before.Some?) && (ops[i].installed <==> g.roots[i].after.Some?)
    {
      assert OperationFor(ops[i], g.roots[i]) && Finished(ops[i]);
    }
  }

  lemma SameCells(ops: seq<CommitOperation>, i: nat, op: CommitOperation)
    requires i < |ops|
    ensures CellsOf(ops[i := op]) == CellsOf(ops)[i := CellOf(op)]
  {
  }

  /** A change of phase moves nothing. */
  lemma PhaseKeepsShape(g: Setting, ops: seq<CommitOperation>, d: Disk, i: nat, phase: Phase)
    requires Shape(g, ops, d) && i < |ops|
    ensures Shape(g, ops[i := ops[i].(phase := phase)], d)
  {
    SameCells(ops, i, ops[i].(phase := phase));
    assert CellsOf(ops[i := ops[i].(phase := phase)]) == CellsOf(ops);
    assert OperationFor(ops[i], g.roots[i]);
  }

  lemma BackupParentsKeepShape(g: Setting, ops: seq<CommitOperation>, d: Disk, i: nat)
    requires Shape(g, ops, d) && i < |ops| && ops[i].beforeKind.Some? && Untouched(ops[i])
    ensures MakeParents(d.quarantine, ops[i].path).Some? && ops[i].path in d.workspace
    ensures Shape(g, ops, d.(quarantine := MakeParents(d.quarantine, ops[i].path).value))
    ensures HasParent(MakeParents(d.quarantine, ops[i].path).value, ops[i].path)
  {
    assert OperationFor(ops[i], g.roots[i]) && g.roots[i] in g.roots;
    BackupParents(g, CellsOf(ops), d.quarantine, i);
    assert Above(ops[i].path, ops[i].path);
    assert Look(d.workspace, ops[i].path) == Look(g.base, ops[i].path);
  }

  function BackedUp(op: CommitOperation): CommitOperation {
    op.(backupMoved := true, phase := BackupMoved)
  }

  function InPlace(op: CommitOperation): CommitOperation {
    op.(installed := true, phase := InstalledPhase)
  }

  lemma GoodCellsAfter(g: Setting, cells: seq<Cell>, i: nat, cell: Cell)
    requires GoodCells(g, cells) && i < |cells|
    requires cell.old_ == InQuarantine ==> g.roots[i].before.Some?
    requires cell.new_ != InApply ==> g.roots[i].after.Some?
    requires cell.new_ == Installed && g.roots[i].before.Some? ==> cell.old_ == InQuarantine
    ensures GoodCells(g, cells[i := cell])
  {
  }

  /** Rename of the old subtree into quarantine: it cannot fail for lack of source or parent, it
      lands on nothing, and setting the flag makes flags and disk agree again. */
  lemma BackupKeepsShape(g: Setting, ops: seq<CommitOperation>, d: Disk, i: nat)
    requires Shape(g, ops, d) && i < |ops| && ops[i].beforeKind.Some? && Untouched(ops[i])
    requires HasParent(d.quarantine, ops[i].path)
    ensures var p := ops[i].path; p != [] && p in d.workspace && p !in d.quarantine
    ensures var r := Rename(d.workspace, ops[i].path, d.quarantine, ops[i].path);
      r.Renamed? && Shape(g, ops[i := BackedUp(ops[i])], d.(workspace := r.source, quarantine := r.target))
  {
    assert OperationFor(ops[i], g.roots[i]) && g.roots[i] in g.roots;
    MoveBackup(g, CellsOf(ops), d.workspace, d.quarantine, i);
    SameCells(ops, i, BackedUp(ops[i]));
    GoodCellsAfter(g, CellsOf(ops), i, Cell(InQuarantine, InApply));
    ApplyUnchanged(g, CellsOf(ops), d.apply, i, Cell(InQuarantine, InApply));
  }

  lemma ApplyUnchanged(g: Setting, cells: seq<Cell>, apply: Tree, i: nat, cell: Cell)
    requires |cells| == |g.roots| && i < |cells| && ApplyOk(g, cells, apply)
    requires cell.new_ == InApply <==> cells[i].new_ == InApply
    ensures ApplyOk(g, cells[i := cell], apply)
  {
  }

  lemma QuarantineUnchanged(g: Setting, cells: seq<Cell>, q: Tree, i: nat, cell: Cell)
    requires |cells| == |g.roots| && i < |cells| && QuarantineOk(g, cells, None, q)
    requires cell.old_ == cells[i].old_ && cell.new_ != SetAside
    ensures QuarantineOk(g, cells[i := cell], None, q)
  {
    var moved := cells[i := cell];
    forall x | x in q ensures Explained(g, moved, None, q, x) {
      assert Explained(g, cells, None, q, x);
      if k :| 0 <= k < |cells| && cells[k].old_ == InQuarantine && Above(g.roots[k].path, x) {
        assert moved[k].old_ == InQuarantine;
      }
    }
  }

  /** Rename of the payload into place: its parent directory is there without `mkdir` having
      made anything, it lands on nothing, and the flag makes flags and disk agree again. */
  lemma InstallKeepsShape(g: Setting, ops: seq<CommitOperation>, d: Disk, i: nat)
    requires Shape(g, ops, d) && i < |ops| && ops[i].afterKind.Some? && !ops[i].installed
    requires ops[i].backupMoved <==> ops[i].beforeKind.Some?
    ensures var p := ops[i].path;
      p != [] && p in d.apply && p !in d.workspace && MakeParents(d.workspace, p) == Some(d.workspace)
    ensures var r := Rename(d.apply, ops[i].path, d.workspace, ops[i].path);
      r.Renamed? && Shape(g, ops[i := InPlace(ops[i])], d.(apply := r.source, workspace := r.target))
  {
    assert OperationFor(ops[i], g.roots[i]) && g.roots[i] in g.roots;
    ParentsStay(g, CellsOf(ops), d.workspace, i);
    Install(g, CellsOf(ops), d.workspace, d.apply, i);
    var cell := CellOf(ops[i]).(new_ := Installed);
    SameCells(ops, i, InPlace(ops[i]));
    GoodCellsAfter(g, CellsOf(ops), i, cell);
    QuarantineUnchanged(g, CellsOf(ops), d.quarantine, i, cell);
  }

  /** Nothing is lost and nothing is doubled: at every moment of the loop each old entry below a
      root is in exactly one of workspace and quarantine, each payload entry in exactly one of
      apply tree and workspace, and everything else is where it was. */
  lemma NothingLost(g: Setting, ops: seq<CommitOperation>, d: Disk, x: Path)
    requires Shape(g, ops, d)
    ensures !Covered(g.roots, x) ==> Look(d.workspace, x) == Look(g.base, x)
    ensures forall i | 0 <= i < |ops| && Above(ops[i].path, x) && x in g.base ::
      && (x in d.quarantine <==> ops[i].backupMoved)
      && (if ops[i].backupMoved then d.quarantine[x] == g.base[x] else Look(d.workspace, x) == Some(g.base[x]))
      && (ops[i].backupMoved && !ops[i].installed ==> x !in d.workspace)
    ensures forall i | 0 <= i < |ops| && Above(ops[i].path, x) && x in g.payload ::
      && (x in d.apply <==> !ops[i].installed)
      && (if ops[i].installed then Look(d.workspace, x) == Some(g.payload[x]) else d.apply[x] == g.payload[x])
  {
    forall i | 0 <= i < |ops| && Above(ops[i].path, x) && x in g.base
      ensures x in d.quarantine <==> ops[i].backupMoved
      ensures if ops[i].backupMoved then d.quarantine[x] == g.base[x] else Look(d.workspace, x) == Some(g.base[x])
      ensures ops[i].backupMoved && !ops[i].installed ==> x !in d.workspace
    {
      OldEntryOnce(g, ops, d, i, x);
    }
    forall i | 0 <= i < |ops| && Above(ops[i].path, x) && x in g.payload
      ensures x in d.apply <==> !ops[i].installed
      ensures if ops[i].installed then Look(d.workspace, x) == Some(g.payload[x]) else d.apply[x] == g.payload[x]
    {
      PayloadEntryOnce(g, ops, d, i, x);
    }
  }

  lemma OldEntryOnce(g: Setting, ops: seq<CommitOperation>, d: Disk, i: nat, x: Path)
    requires Shape(g, ops, d) && i < |ops| && Above(ops[i].path, x) && x in g.base
    ensures x in d.quarantine <==> ops[i].backupMoved
    ensures if ops[i].backupMoved then d.quarantine[x] == g.base[x] else Look(d.workspace, x) == Some(g.base[x])
    ensures ops[i].backupMoved && !ops[i].installed ==> x !in d.workspace
  {
    assert OperationFor(ops[i], g.roots[i]) && g.roots[i] in g.roots && GoodRoot(g, g.roots[i]);
    assert CellsOf(ops)[i] == CellOf(ops[i]);
    if ops[i].path != x { assert Inside(ops[i].path, x); }
    assert Look(d.workspace, x) == CellView(g, CellsOf(ops)[i], x);
    if ops[i].backupMoved {
      assert Look(d.quarantine, x) == Look(g.base, x);
    } else if x in d.quarantine {
      BackupPathFree(g, CellsOf(ops), d.quarantine, i, x);
    }
  }

  lemma PayloadEntryOnce(g: Setting, ops: seq<CommitOperation>, d: Disk, i: nat, x: Path)
    requires Shape(g, ops, d) && i < |ops| && Above(ops[i].path, x) && x in g.payload
    ensures x in d.apply <==> !ops[i].installed
    ensures if ops[i].installed then Look(d.workspace, x) == Some(g.payload[x]) else d.apply[x] == g.payload[x]
  {
    assert OperationFor(ops[i], g.roots[i]) && CellsOf(ops)[i] == CellOf(ops[i]);
    assert Look(d.workspace, x) == CellView(g, CellsOf(ops)[i], x);
    assert Look(d.apply, x) == if ops[i].installed then None else Look(g.payload, x);
  }

  // ----- crash points

  predicate InFlight(op: CommitOperation) {
    op.phase == MovingBackup || op.phase == Installing
  }

  /** Whether the old subtree is in quarantine, told from the journal and one existence check. */
  predicate InferMoved(op: CommitOperation, quarantine: Tree) {
    op.backupMoved || (op.phase == MovingBackup && op.path in quarantine)
  }

  predicate InferInstalled(op: CommitOperation, apply: Tree) {
    op.installed || (op.phase == Installing && op.path !in apply)
  }

  function InferOne(op: CommitOperation, d: Disk): CommitOperation {
    op.(backupMoved := InferMoved(op, d.quarantine), installed := InferInstalled(op, d.apply))
  }

  function Infer(saved: seq<CommitOperation>, d: Disk): (ops: seq<CommitOperation>)
    ensures |ops| == |saved| && forall i | 0 <= i < |ops| :: ops[i] == InferOne(saved[i], d)
  {
    seq(|saved|, i requires 0 <= i < |saved| => InferOne(saved[i], d))
  }

  /** The saved operation is at most one rename behind the one in memory. */
  predicate Behind(saved: CommitOperation, op: CommitOperation) {
    && saved.path == op.path && saved.changeKind == op.changeKind && saved.backup == op.backup
    && saved.beforeKind == op.beforeKind && saved.afterKind == op.afterKind
    && (if saved.phase == MovingBackup then !saved.backupMoved && op.beforeKind.Some?
      else saved.backupMoved == op.backupMoved)
    && (if saved.phase == Installing then !saved.installed && op.afterKind.Some? else saved.installed == op.installed)
  }

  predicate Journaled(saved: seq<CommitOperation>, ops: seq<CommitOperation>) {
    && |saved| == |ops|
    && (forall i | 0 <= i < |ops| :: Behind(saved[i], ops[i]))
    && (forall i, j | 0 <= i < |ops| && 0 <= j < |ops| && InFlight(saved[i]) && InFlight(saved[j]) :: i == j)
  }

  /** At a crash the journal and the existence of backup and staged path say where everything is. */
  ghost predicate CrashReadable(g: Setting, saved: seq<CommitOperation>, d: Disk) {
    && Shape(g, Infer(saved, d), d)
    && (forall i, j | 0 <= i < |saved| && 0 <= j < |saved| && InFlight(saved[i]) && InFlight(saved[j]) :: i == j)
  }

  lemma InferenceIsRight(g: Setting, saved: seq<CommitOperation>, ops: seq<CommitOperation>, d: Disk)
    requires Shape(g, ops, d) && Journaled(saved, ops)
    ensures CrashReadable(g, saved, d)
  {
    var inferred := Infer(saved, d);
    forall i | 0 <= i < |ops| ensures CellOf(inferred[i]) == CellOf(ops[i]) && OperationFor(inferred[i], g.roots[i]) {
      PlacesShow(g, ops, d, i);
      assert Behind(saved[i], ops[i]);
      assert OperationFor(ops[i], g.roots[i]);
    }
    assert CellsOf(inferred) == CellsOf(ops);
  }

  lemma PlacesShow(g: Setting, ops: seq<CommitOperation>, d: Disk, i: nat)
    requires Shape(g, ops, d) && i < |ops|
    ensures ops[i].beforeKind.Some? ==> (ops[i].path in d.quarantine <==> ops[i].backupMoved)
    ensures ops[i].afterKind.Some? ==> (ops[i].path in d.apply <==> !ops[i].installed)
  {
    var p := ops[i].path;
    assert OperationFor(ops[i], g.roots[i]) && g.roots[i] in g.roots && Above(p, p);
    assert CellsOf(ops)[i] == CellOf(ops[i]);
    if p in d.quarantine && !ops[i].backupMoved {
      BackupPathFree(g, CellsOf(ops), d.quarantine, i, p);
    }
    if ops[i].backupMoved { assert Look(d.quarantine, p) == Look(g.base, p); }
    assert Look(d.apply, p) == if ops[i].installed then None else Look(g.payload, p);
  }

  /** From any readable crash point of the commit loop, undoing what the journal and the disk
      show brings the baseline back and lands on nothing if and only if nothing moved is in the
      way; without a clash among the roots nothing ever is. */
  lemma CrashRecovers(g: Setting, saved: seq<CommitOperation>, d: Disk, reserved: Name)
    requires CrashReadable(g, saved, d) && CleanName(reserved)
    ensures var ops := Infer(saved, d);
      var r := UndoFrom(UndoState(d.workspace, d.quarantine, false), reserved, ops, |ops|);
      Unblocked(ops, d.quarantine, reserved) <==> r.Some? && !r.value.landed && r.value.workspace == g.base
    ensures NoClash(g.roots, reserved) ==> Unblocked(Infer(saved, d), d.quarantine, reserved)
  {
    var ops := Infer(saved, d);
    ReadyToUndo(g, ops, d, reserved);
    UndoExactly(g, ops, CellsOf(ops), reserved, UndoState(d.workspace, d.quarantine, false));
    if NoClash(g.roots, reserved) { NoClashUnblocked(g, ops, CellsOf(ops), d.quarantine, reserved); }
  }

  /** A shape with nothing set aside is a starting point for either undo. */
  lemma ReadyToUndo(g: Setting, ops: seq<CommitOperation>, d: Disk, reserved: Name)
    requires GoodSetting(g) && OperationsFor(ops, g.roots) && GoodCells(g, CellsOf(ops)) && CleanName(reserved)
    requires WorkspaceOk(g, CellsOf(ops), d.workspace) && QuarantineOk(g, CellsOf(ops), None, d.quarantine)
    ensures UndoneFrom(ops, CellsOf(ops), |ops|)
    ensures UndoOk(g, CellsOf(ops), reserved, UndoState(d.workspace, d.quarantine, false))
  {
    var cells := CellsOf(ops);
    forall x | x in d.quarantine ensures Explained(g, cells, Some(reserved), d.quarantine, x) {
      assert Explained(g, cells, None, d.quarantine, x);
    }
  }

  // ----- one rename together with its journal

  /** Only operation `k` may be in flight, and no flag contradicts a phase. */
  ghost predicate OnlyInFlight(ops: seq<CommitOperation>, k: nat) {
    && (forall i | 0 <= i < |ops| && i != k :: !InFlight(ops[i]))
    && forall i | 0 <= i < |ops| :: Behind(ops[i], ops[i])
  }

  lemma BackupJournaled(saved: seq<CommitOperation>, ops: seq<CommitOperation>, k: nat)
    requires Journaled(saved, ops) && OnlyInFlight(ops, k) && k < |ops|
    requires Untouched(ops[k]) && ops[k].beforeKind.Some? && saved[k].phase == MovingBackup
    ensures Journaled(saved, ops[k := BackedUp(ops[k])]) && OnlyInFlight(ops[k := BackedUp(ops[k])], k)
  {
    var next := ops[k := BackedUp(ops[k])];
    forall i | 0 <= i < |next| ensures Behind(saved[i], next[i]) && Behind(next[i], next[i]) {
      assert Behind(saved[i], ops[i]) && Behind(ops[i], ops[i]);
    }
  }

  lemma InstallJournaled(saved: seq<CommitOperation>, ops: seq<CommitOperation>, k: nat)
    requires Journaled(saved, ops) && OnlyInFlight(ops, k) && k < |ops|
    requires !ops[k].installed && ops[k].afterKind.Some? && saved[k].phase == Installing
    ensures Journaled(saved, ops[k := InPlace(ops[k])]) && OnlyInFlight(ops[k := InPlace(ops[k])], k)
  {
    var next := ops[k := InPlace(ops[k])];
    forall i | 0 <= i < |next| ensures Behind(saved[i], next[i]) && Behind(next[i], next[i]) {
      assert Behind(saved[i], ops[i]) && Behind(ops[i], ops[i]);
    }
  }

  lemma BackupMove(g: Setting, saved: seq<CommitOperation>, ops: seq<CommitOperation>, d: Disk, k: nat)
    requires Shape(g, ops, d) && Journaled(saved, ops) && OnlyInFlight(ops, k) && k < |ops|
    requires Untouched(ops[k]) && ops[k].beforeKind.Some? && saved[k].phase == MovingBackup
      && HasParent(d.quarantine, ops[k].path)
    ensures ops[k].path != [] && ops[k].path !in d.quarantine
    ensures var r := Rename(d.workspace, ops[k].path, d.quarantine, ops[k].path);
      var next := ops[k := BackedUp(ops[k])];
      r.Renamed? && var d' := d.(workspace := r.source, quarantine := r.target);
      Shape(g, next, d') && Journaled(saved, next) && OnlyInFlight(next, k) && CrashReadable(g, saved, d')
  {
    BackupKeepsShape(g, ops, d, k);
    BackupJournaled(saved, ops, k);
    var r := Rename(d.workspace, ops[k].path, d.quarantine, ops[k].path);
    InferenceIsRight(g, saved, ops[k := BackedUp(ops[k])], d.(workspace := r.source, quarantine := r.target));
  }

  lemma InstallMove(g: Setting, saved: seq<CommitOperation>, ops: seq<CommitOperation>, d: Disk, k: nat)
    requires Shape(g, ops, d) && Journaled(saved, ops) && OnlyInFlight(ops, k) && k < |ops|
    requires !ops[k].installed && ops[k].afterKind.Some? && saved[k].phase == Installing
    requires ops[k].backupMoved <==> ops[k].beforeKind.Some?
    ensures ops[k].path != [] && ops[k].path !in d.workspace
    ensures var r := Rename(d.apply, ops[k].path, d.workspace, ops[k].path); var next := ops[k := InPlace(ops[k])];
      r.Renamed? && var d' := d.(apply := r.source, workspace := r.target);
      Shape(g, next, d') && Journaled(saved, next) && OnlyInFlight(next, k) && CrashReadable(g, saved, d')
  {
    InstallKeepsShape(g, ops, d, k);
    InstallJournaled(saved, ops, k);
    var r := Rename(d.apply, ops[k].path, d.workspace, ops[k].path);
    InferenceIsRight(g, saved, ops[k := InPlace(ops[k])], d.(apply := r.source, workspace := r.target));
  }

  /** The directories for a backup are made, which moves nothing. */
  lemma BackupRoom(g: Setting, saved: seq<CommitOperation>, ops: seq<CommitOperation>, d: Disk, k: nat)
    requires Shape(g, ops, d) && Journaled(saved, ops) && k < |ops| && ops[k].beforeKind.Some? && Untouched(ops[k])
    ensures var q := MakeParents(d.quarantine, ops[k].path);
      q.Some? && HasParent(q.value, ops[k].path) && Shape(g, ops, d.(quarantine := q.value))
        && CrashReadable(g, saved, d.(quarantine := q.value))
  {
    BackupParentsKeepShape(g, ops, d, k);
    InferenceIsRight(g, saved, ops, d.(quarantine := MakeParents(d.quarantine, ops[k].path).value));
  }

  /** The directories for an install are there. */
  lemma InstallRoom(g: Setting, ops: seq<CommitOperation>, d: Disk, k: nat)
    requires Shape(g, ops, d) && k < |ops|
    ensures MakeParents(d.workspace, ops[k].path) == Some(d.workspace)
  {
    assert OperationFor(ops[k], g.roots[k]);
    ParentsStay(g, CellsOf(ops), d.workspace, k);
  }

  /** The target of a backup has not disappeared. */
  lemma TargetThere(g: Setting, ops: seq<CommitOperation>, d: Disk, k: nat)
    requires Shape(g, ops, d) && k < |ops| && ops[k].beforeKind.Some? && Untouched(ops[k])
    ensures ops[k].path in d.workspace
  {
    BackupParentsKeepShape(g, ops, d, k);
  }
}

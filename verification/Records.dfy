/** The commit journal: one record per commit, one operation per root. */
module Records {
  import opened Paths
  import opened Manifests
  import opened Diffs

  datatype Phase = Pending | MovingBackup | BackupMoved | Installing | InstalledPhase | Complete | RolledBackPhase
    | RestoredPhase

  datatype CommitOperation = CommitOperation(
    path: Path, changeKind: ChangeKind, beforeKind: Option<EntryKind>, afterKind: Option<EntryKind>,
    backup: Option<Path>, installed: bool, backupMoved: bool, phase: Phase)

  datatype CommitStatus = Prepared | CommittedStatus | RolledBackStatus | RollbackFailedStatus | RestoredStatus

  function KindOf(e: Option<ManifestEntry>): Option<EntryKind> {
    match e case Some(entry) => Some(entry.kind) case None => None
  }

  /** The operation as first written for a root; the backup path is relative to the quarantine. */
  function Planned(c: Change): CommitOperation {
    CommitOperation(c.path, c.kind, KindOf(c.before), KindOf(c.after),
                    if c.before.Some? then Some(c.path) else None, false, false, Pending)
  }

  /** The operations of a record stand for these roots, in order. */
  predicate OperationsFor(ops: seq<CommitOperation>, roots: seq<Change>) {
    && |ops| == |roots|
    && forall i | 0 <= i < |ops| :: OperationFor(ops[i], roots[i])
  }

  predicate OperationFor(op: CommitOperation, c: Change) {
    && op.path == c.path
    && op.changeKind == c.kind
    && op.beforeKind == KindOf(c.before)
    && op.afterKind == KindOf(c.after)
    && op.backup == (if c.before.Some? then Some(c.path) else None)
  }

  /** What the record of a commit says of each root: its path and kinds, and a backup path exactly if
      something was there before. */
  lemma OperationsTell(ops: seq<CommitOperation>, roots: seq<Change>, i: nat)
    requires OperationsFor(ops, roots) && i < |ops|
    ensures i < |roots| && ops[i].path == roots[i].path && ops[i].changeKind == roots[i].kind
    ensures ops[i].beforeKind == match roots[i].before case Some(e) => Some(e.kind) case None => None
    ensures ops[i].afterKind == match roots[i].after case Some(e) => Some(e.kind) case None => None
    ensures ops[i].backup == if roots[i].before.Some? then Some(roots[i].path) else None
  {
    assert OperationFor(ops[i], roots[i]);
  }

  /** The operations as first written have moved nothing. */
  lemma PlannedTells(c: Change)
    ensures OperationFor(Planned(c), c)
    ensures !Planned(c).installed && !Planned(c).backupMoved && Planned(c).phase == Pending
  {
  }
}

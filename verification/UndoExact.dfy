/** The other half, for a clean undo: one that raises nothing, lands on nothing and ends at the
    baseline. The quarantine holds the backups and, under a reserved top-level name, the payloads
    set aside; a backup stored under that same name is the one thing that keeps an undo from being
    clean. When an undo that is not clean gives the baseline is said in module UndoOutcome. */
module UndoExact {
  import opened Paths
  import opened Trees
  import opened Manifests
  import opened Diffs
  import opened Layout
  import opened Records
  import opened Undo

  ghost predicate Trees2(s: UndoState) {
    IsTree(s.workspace) && IsTree(s.quarantine)
  }

  lemma PresentAbove(t: Tree, p: Path, x: Path)
    requires IsTree(t) && x in t && Above(p, x) && p != []
    ensures p in t
  {
    if p != x { assert Inside(p, x) && DirectoryAt(t, p); }
  }

  lemma SetAsideTracks(s: UndoState, reserved: Name, p: Path, t: UndoState)
    requires Trees2(s) && Clean(p) && CleanName(reserved)
    requires SetAsideOne(s, reserved, p) == Some(t) && !t.landed
    ensures !s.landed && Trees2(t)
    ensures Aside(reserved, p) !in s.quarantine && Aside(reserved, p) in t.quarantine
    ensures forall x | x in s.quarantine :: x in t.quarantine
    ensures forall x | x in s.workspace && !Above(p, x) :: x in t.workspace
  {
    var d := Aside(reserved, p);
    AsideClean(reserved, p);
    var q := MakeParents(s.quarantine, d).value;
    MakeParentsKeepsTree(s.quarantine, d);
    RenameKeepsTrees(s.workspace, p, q, d);
    assert Rebase(d, d, p) == p;
    assert Look(t.quarantine, d) == Look(s.workspace, p);
    assert Look(q, d) == None;
    forall x | x in s.quarantine ensures x in t.quarantine && x != d {
      assert Look(q, x) == Look(s.quarantine, x);
      if Above(d, x) { PresentAbove(q, d, x); }
      assert Look(t.quarantine, x) == Look(q, x);
    }
    forall x | x in s.workspace && !Above(p, x) ensures x in t.workspace {
      assert Look(t.workspace, x) == Look(s.workspace, x);
    }
  }

  lemma PutBackTracks(s: UndoState, p: Path, t: UndoState)
    requires Trees2(s) && Clean(p)
    requires PutBackOne(s, p) == Some(t) && !t.landed
    ensures !s.landed && Trees2(t)
    ensures forall x | x in s.quarantine && !Above(p, x) :: x in t.quarantine
    ensures forall x | x in s.quarantine && Above(p, x) :: x in t.workspace
    ensures forall x | x in s.workspace :: x in t.workspace
  {
    var w := MakeParents(s.workspace, p).value;
    MakeParentsKeepsTree(s.workspace, p);
    RenameKeepsTrees(s.quarantine, p, w, p);
    forall x | x in s.quarantine && !Above(p, x) ensures x in t.quarantine {
      assert Look(t.quarantine, x) == Look(s.quarantine, x);
    }
    forall x | x in s.quarantine && Above(p, x) ensures x in t.workspace {
      assert Rebase(x, p, p) == x;
      assert Look(t.workspace, x) == Look(s.quarantine, x);
    }
    forall x | x in s.workspace ensures x in t.workspace {
      assert Look(w, x) == Look(s.workspace, x);
      if Above(p, x) { PresentAbove(w, p, x); }
      assert Look(t.workspace, x) == Look(w, x);
    }
  }

  ghost predicate UninstallTracked(s: UndoState, reserved: Name, op: CommitOperation, u: UndoState) {
    var d := Aside(reserved, op.path);
    && (op.installed ==> d !in s.quarantine && d in u.quarantine)
    && (forall x | x in s.quarantine :: x in u.quarantine)
    && (forall x | x in s.workspace && !Above(op.path, x) :: x in u.workspace)
  }

  ghost predicate ReinstateTracked(u: UndoState, op: CommitOperation, t: UndoState) {
    && (forall x | x in u.quarantine && !Above(op.path, x) :: x in t.quarantine)
    && (op.backupMoved ==> forall x | x in u.quarantine && Above(op.path, x) :: x in t.workspace)
    && (!op.backupMoved ==> forall x | x in u.quarantine :: x in t.quarantine)
    && (forall x | x in u.workspace :: x in t.workspace)
  }

  /** What one turn of the loop does to a single path, as long as no rename hits anything. */
  ghost predicate TurnTracked(s: UndoState, reserved: Name, op: CommitOperation, t: UndoState) {
    var d := Aside(reserved, op.path);
    && (forall x | x in s.quarantine && !Above(op.path, x) :: x in t.quarantine)
    && (op.backupMoved ==> forall x | x in s.quarantine && Above(op.path, x) :: x in t.workspace)
    && (forall x | x in s.workspace && !Above(op.path, x) :: x in t.workspace)
    && (op.installed ==> d !in s.quarantine)
    && (op.installed ==> if op.backupMoved && Above(op.path, d) then d in t.workspace else d in t.quarantine)
  }

  lemma HalvesTrack(s: UndoState, reserved: Name, op: CommitOperation, u: UndoState, t: UndoState)
    requires UninstallTracked(s, reserved, op, u) && ReinstateTracked(u, op, t)
    ensures TurnTracked(s, reserved, op, t)
  {
  }

  lemma TurnTracks(s: UndoState, reserved: Name, op: CommitOperation, t: UndoState)
    requires Trees2(s) && Clean(op.path) && CleanName(reserved)
    requires UndoOne(s, reserved, op) == Some(t) && !t.landed
    ensures !s.landed && Trees2(t) && TurnTracked(s, reserved, op, t)
  {
    var u := Uninstall(s, reserved, op).value;
    if u.landed { NotForgotten(u, op, t); }
    UninstallTracks(s, reserved, op, u);
    ReinstateTracks(u, op, t);
    HalvesTrack(s, reserved, op, u, t);
  }

  lemma NotForgotten(u: UndoState, op: CommitOperation, t: UndoState)
    requires op.path != [] && Reinstate(u, op) == Some(t) && u.landed
    ensures t.landed
  {
  }

  lemma UninstallTracks(s: UndoState, reserved: Name, op: CommitOperation, u: UndoState)
    requires Trees2(s) && Clean(op.path) && CleanName(reserved)
    requires Uninstall(s, reserved, op) == Some(u) && !u.landed
    ensures !s.landed && Trees2(u) && UninstallTracked(s, reserved, op, u)
  {
    if op.installed { SetAsideTracks(s, reserved, op.path, u); }
  }

  lemma ReinstateTracks(u: UndoState, op: CommitOperation, t: UndoState)
    requires Trees2(u) && Clean(op.path)
    requires Reinstate(u, op) == Some(t) && !t.landed
    ensures !u.landed && Trees2(t) && ReinstateTracked(u, op, t)
  {
    if op.backupMoved { PutBackTracks(u, op.path, t); }
  }

  /** Every root that existed was moved away, every root that exists now was installed. */
  ghost predicate Done(ops: seq<CommitOperation>, roots: seq<Change>) {
    && OperationsFor(ops, roots)
    && forall i | 0 <= i < |ops| ::
         (ops[i].backupMoved <==> roots[i].before.Some?) && (ops[i].installed <==> roots[i].after.Some?)
  }

  ghost predicate Fits(g: Setting, ops: seq<CommitOperation>, reserved: Name) {
    && GoodSetting(g) && OperationsFor(ops, g.roots) && CleanName(reserved)
  }

  /** The states of a run that landed on nothing; `run[k]` is the one with `k` operations left. */
  ghost predicate CleanRun(run: seq<UndoState>, reserved: Name, ops: seq<CommitOperation>) {
    && |run| == |ops| + 1
    && forall k | 0 <= k < |ops| :: TurnTracked(run[k + 1], reserved, ops[k], run[k])
  }

  /** `landed` is never forgotten. */
  lemma {:induction false} CleanStart(reserved: Name, ops: seq<CommitOperation>, s: UndoState, k: nat)
    requires k <= |ops| && UndoFrom(s, reserved, ops, k).Some? && !UndoFrom(s, reserved, ops, k).value.landed
    ensures !s.landed
    decreases k
  {
    if k > 0 {
      CleanStart(reserved, ops, UndoOne(s, reserved, ops[k - 1]).value, k - 1);
    }
  }

  /** The first turn of a clean run. */
  lemma FirstTurn(g: Setting, ops: seq<CommitOperation>, reserved: Name, s: UndoState, k: nat, final: UndoState)
    returns (t: UndoState)
    requires Fits(g, ops, reserved) && 0 < k <= |ops| && Trees2(s)
    requires UndoFrom(s, reserved, ops, k) == Some(final) && !final.landed
    ensures UndoFrom(t, reserved, ops, k - 1) == Some(final) && Trees2(t) && TurnTracked(s, reserved, ops[k - 1], t)
  {
    t := UndoOne(s, reserved, ops[k - 1]).value;
    assert g.roots[k - 1] in g.roots && OperationFor(ops[k - 1], g.roots[k - 1]);
    CleanStart(reserved, ops, t, k - 1);
    TurnTracks(s, reserved, ops[k - 1], t);
  }

  lemma {:induction false} RunOf(g: Setting, ops: seq<CommitOperation>, reserved: Name, s: UndoState, k: nat,
                                 final: UndoState)
    returns (run: seq<UndoState>)
    requires Fits(g, ops, reserved) && k <= |ops| && Trees2(s)
    requires UndoFrom(s, reserved, ops, k) == Some(final) && !final.landed
    ensures CleanRun(run, reserved, ops[..k]) && run[0] == final && run[k] == s
    decreases k
  {
    if k == 0 {
      run := [s];
    } else {
      var t := FirstTurn(g, ops, reserved, s, k, final);
      var rest := RunOf(g, ops, reserved, t, k - 1, final);
      run := ExtendRun(rest, reserved, ops, k, s);
    }
  }

  lemma ExtendRun(rest: seq<UndoState>, reserved: Name, ops: seq<CommitOperation>, k: nat, s: UndoState)
    returns (run: seq<UndoState>)
    requires 0 < k <= |ops| && CleanRun(rest, reserved, ops[..k - 1])
      && TurnTracked(s, reserved, ops[k - 1], rest[k - 1])
    ensures CleanRun(run, reserved, ops[..k]) && run == rest + [s]
  {
    run := rest + [s];
    forall m | 0 <= m < k ensures TurnTracked(run[m + 1], reserved, ops[..k][m], run[m]) {
      if m < k - 1 { assert TurnTracked(rest[m + 1], reserved, ops[..k - 1][m], rest[m]); }
    }
  }

  ghost predicate RunFits(g: Setting, ops: seq<CommitOperation>, reserved: Name, run: seq<UndoState>) {
    && Antichain(g.roots) && OperationsFor(ops, g.roots) && CleanRun(run, reserved, ops)
  }

  /** A path in the workspace, not below any operation still to be undone, is there at the end. */
  lemma {:induction false} StaysInWorkspace(g: Setting, ops: seq<CommitOperation>, reserved: Name, run: seq<UndoState>,
                                            k: nat, i: nat, x: Path)
    requires RunFits(g, ops, reserved, run) && k <= i < |ops|
    requires x in run[k].workspace && Above(g.roots[i].path, x)
    ensures x in run[0].workspace
    decreases k
  {
    if k > 0 {
      assert TurnTracked(run[k - 1 + 1], reserved, ops[k - 1], run[k - 1]);
      assert OperationFor(ops[k - 1], g.roots[k - 1]);
      OneRoot(g.roots, i, k - 1, x);
      StaysInWorkspace(g, ops, reserved, run, k - 1, i, x);
    }
  }

  /** What lies in the backup of root `i` is carried into the workspace with it. */
  lemma {:induction false} BackupComesBack(g: Setting, ops: seq<CommitOperation>, reserved: Name, run: seq<UndoState>,
                                           k: nat, i: nat, x: Path)
    requires RunFits(g, ops, reserved, run) && i < k <= |ops|
    requires ops[i].backupMoved && Above(g.roots[i].path, x) && x in run[k].quarantine
    ensures x in run[0].workspace
    decreases k
  {
    assert TurnTracked(run[k - 1 + 1], reserved, ops[k - 1], run[k - 1]);
    assert OperationFor(ops[k - 1], g.roots[k - 1]);
    OneRoot(g.roots, i, k - 1, x);
    if k - 1 == i {
      StaysInWorkspace(g, ops, reserved, run, i, i, x);
    } else {
      BackupComesBack(g, ops, reserved, run, k - 1, i, x);
    }
  }

  /** A path that no remaining operation above `j` covers stays in the quarantine until `j`'s turn. */
  lemma {:induction false} StaysInQuarantine(g: Setting, ops: seq<CommitOperation>, reserved: Name, run: seq<UndoState>,
                                             k: nat, j: nat, x: Path)
    requires RunFits(g, ops, reserved, run) && j <= k <= |ops|
    requires x in run[k].quarantine && forall m | j <= m < k :: !Above(g.roots[m].path, x)
    ensures x in run[j].quarantine
    decreases k
  {
    if k > j {
      assert TurnTracked(run[k - 1 + 1], reserved, ops[k - 1], run[k - 1]);
      assert OperationFor(ops[k - 1], g.roots[k - 1]);
      StaysInQuarantine(g, ops, reserved, run, k - 1, j, x);
    }
  }

  /** First kind: root `j` is set aside inside the backup of root `i`, undone later or by the
      same turn. The payload comes back with the backup, where the baseline has nothing. */
  lemma FirstKindSpoils(g: Setting, ops: seq<CommitOperation>, reserved: Name, run: seq<UndoState>, i: nat, j: nat)
    requires RunFits(g, ops, reserved, run) && i <= j < |ops|
    requires ops[i].backupMoved && ops[j].installed
    requires Above(g.roots[i].path, Aside(reserved, g.roots[j].path))
    requires forall x | x in g.base && Above(g.roots[i].path, x) :: x in run[|ops|].quarantine
    ensures run[0].workspace != g.base
  {
    var d := Aside(reserved, g.roots[j].path);
    assert TurnTracked(run[j + 1], reserved, ops[j], run[j]);
    assert OperationFor(ops[j], g.roots[j]);
    forall m | j < m < |ops| ensures !Above(g.roots[m].path, d) { OneRoot(g.roots, i, m, d); }
    if d in g.base {
      StaysInQuarantine(g, ops, reserved, run, |ops|, j + 1, d);
    }
    OneRoot(g.roots, i, j, d);
    if i == j {
      StaysInWorkspace(g, ops, reserved, run, i, i, d);
    } else {
      BackupComesBack(g, ops, reserved, run, j, i, d);
    }
  }

  /** Second kind: the place for root `j` is a directory made for a backup below it. */
  lemma SecondKindLands(g: Setting, ops: seq<CommitOperation>, reserved: Name, run: seq<UndoState>, i: nat, j: nat)
    requires Antichain(g.roots) && OperationsFor(ops, g.roots) && i < |ops| && j < |ops|
    requires ops[j].installed && Inside(Aside(reserved, g.roots[j].path), g.roots[i].path)
    requires |run| == |ops| + 1 && Aside(reserved, g.roots[j].path) in run[|ops|].quarantine
    ensures !CleanRun(run, reserved, ops)
  {
    var d := Aside(reserved, g.roots[j].path);
    if CleanRun(run, reserved, ops) {
      forall m | 0 <= m < |ops| ensures !Above(g.roots[m].path, d) {
        AboveTransitive(g.roots[m].path, d, g.roots[i].path);
      }
      assert TurnTracked(run[j + 1], reserved, ops[j], run[j]);
      StaysInQuarantine(g, ops, reserved, run, |ops|, j + 1, d);
    }
  }

  /** What is in the way spoils the undo. */
  lemma BlockSpoils(g: Setting, ops: seq<CommitOperation>, cells: seq<Cell>, reserved: Name, s: UndoState, i: nat,
                    j: nat)
    requires Fits(g, ops, reserved) && UndoneFrom(ops, cells, |ops|) && UndoOk(g, cells, reserved, s)
    requires i < |ops| && j < |ops| && Blocks(ops, s.quarantine, reserved, i, j)
    ensures var r := UndoFrom(s, reserved, ops, |ops|);
      r.None? || r.value.landed || r.value.workspace != g.base
  {
    assert OperationFor(ops[i], g.roots[i]) && OperationFor(ops[j], g.roots[j]) && cells[i] == CellOf(ops[i]);
    var r := UndoFrom(s, reserved, ops, |ops|);
    if r.Some? && !r.value.landed {
      var run := RunOf(g, ops, reserved, s, |ops|, r.value);
      assert ops[..|ops|] == ops;
      if ops[i].beforeKind.Some? && Inside(Aside(reserved, ops[j].path), ops[i].path)
        && Aside(reserved, ops[j].path) in s.quarantine {
        SecondKindLands(g, ops, reserved, run, i, j);
      } else {
        BackupIsWhole(g, cells, reserved, s, i);
        FirstKindSpoils(g, ops, reserved, run, i, j);
      }
    }
  }

  lemma BackupIsWhole(g: Setting, cells: seq<Cell>, reserved: Name, s: UndoState, i: nat)
    requires UndoOk(g, cells, reserved, s) && i < |cells| && cells[i].old_ == InQuarantine
    ensures forall x | x in g.base && Above(g.roots[i].path, x) :: x in s.quarantine
    ensures g.roots[i].path in s.quarantine
  {
    assert g.roots[i] in g.roots && Above(g.roots[i].path, g.roots[i].path);
    forall x | x in g.base && Above(g.roots[i].path, x) ensures x in s.quarantine {
      assert Look(s.quarantine, x) == Look(g.base, x);
    }
  }

  /** Clean undo, from whatever point the flags describe: it ends at the baseline without a rename
      landing on anything if and only if nothing that was moved is in the way. */
  lemma UndoExactly(g: Setting, ops: seq<CommitOperation>, cells: seq<Cell>, reserved: Name, s: UndoState)
    requires Fits(g, ops, reserved) && UndoneFrom(ops, cells, |ops|) && UndoOk(g, cells, reserved, s) && !s.landed
    ensures var r := UndoFrom(s, reserved, ops, |ops|);
      Unblocked(ops, s.quarantine, reserved) <==> r.Some? && !r.value.landed && r.value.workspace == g.base
  {
    if Unblocked(ops, s.quarantine, reserved) {
      UndoGivesBaseline(g, ops, cells, reserved, s);
    } else {
      var i, j :| 0 <= i < |ops| && 0 <= j < |ops| && Blocks(ops, s.quarantine, reserved, i, j);
      BlockSpoils(g, ops, cells, reserved, s, i, j);
    }
  }

  /** After a complete commit the way is free exactly if the names of the roots do not clash,
      which can be told from the plan. */
  lemma DoneUnblocked(g: Setting, ops: seq<CommitOperation>, cells: seq<Cell>, reserved: Name, s: UndoState)
    requires Done(ops, g.roots) && UndoneFrom(ops, cells, |ops|) && UndoOk(g, cells, reserved, s)
    ensures Unblocked(ops, s.quarantine, reserved) <==> NoClash(g.roots, reserved)
  {
    if NoClash(g.roots, reserved) {
      NoClashUnblocked(g, ops, cells, s.quarantine, reserved);
    }
    forall i, j | 0 <= i < |ops| && 0 <= j < |ops| && Clash(g.roots, reserved, i, j)
      ensures Blocks(ops, s.quarantine, reserved, i, j) {
      assert OperationFor(ops[i], g.roots[i]) && OperationFor(ops[j], g.roots[j]) && cells[i] == CellOf(ops[i]);
      BackupIsWhole(g, cells, reserved, s, i);
      if Inside(Aside(reserved, ops[j].path), ops[i].path) {
        assert DirectoryAt(s.quarantine, Aside(reserved, ops[j].path));
      }
    }
    if Unblocked(ops, s.quarantine, reserved) {
      forall i, j | 0 <= i < |ops| && 0 <= j < |ops| ensures !Clash(g.roots, reserved, i, j) {
        assert !Blocks(ops, s.quarantine, reserved, i, j);
      }
    }
  }

  /** Clean restore, from any workspace and quarantine a completed commit leaves behind: it ends at
      the baseline without a rename landing on anything if and only if no names clash. */
  lemma RestoreExact(g: Setting, ops: seq<CommitOperation>, cells: seq<Cell>, reserved: Name, s: UndoState)
    requires Done(ops, g.roots) && UndoneFrom(ops, cells, |ops|) && UndoOk(g, cells, reserved, s) && !s.landed
    ensures var r := UndoFrom(s, reserved, ops, |ops|);
      NoClash(g.roots, reserved) <==> r.Some? && !r.value.landed && r.value.workspace == g.base
  {
    DoneUnblocked(g, ops, cells, reserved, s);
    UndoExactly(g, ops, cells, reserved, s);
  }
}

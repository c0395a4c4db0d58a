/** The loop bodies of rollback and restore with failing calls, proved against the turns of
    module Undo, and, in an orderly layout, against the places of the subtrees. */
module UndoTurns {
  import opened Paths
  import opened Trees
  import opened Manifests
  import opened Diffs
  import opened Layout
  import opened Records
  import opened Undo
  import opened UndoExact
  import opened UndoCalls
  import opened Journal

  /** Root `i` is as its operation says, and if it is to be set aside its place is free. */
  ghost predicate Orderly(g: Setting, cells: seq<Cell>, reserved: Name, s: UndoState, i: nat, op: CommitOperation) {
    && UndoOk(g, cells, reserved, s) && i < |cells| && op.path == g.roots[i].path
    && (cells[i].new_ == Installed ==> AsideFree(g, cells, reserved, s.quarantine, i))
  }

  /** Where no place meets a backup, each is free at any time. */
  lemma ApartFree(g: Setting, cells: seq<Cell>, reserved: Name, q: Tree, i: nat)
    requires GoodSetting(g) && GoodCells(g, cells) && i < |cells| && Apart(g.roots, reserved)
    requires QuarantineOk(g, cells, Some(reserved), q)
    ensures cells[i].new_ == Installed ==> AsideFree(g, cells, reserved, q, i)
  {
    if cells[i].new_ == Installed {
      assert Above(g.roots[i].path, g.roots[i].path);
      PayloadNotTwice(g, cells, reserved, q, i, g.roots[i].path);
    }
  }

  /** Root `i` may have moved, the accounting holds, and nothing was landed on. */
  ghost predicate Turned(g: Setting, cells: seq<Cell>, next: seq<Cell>, reserved: Name, s: UndoState, t: UndoState,
                         i: nat) {
    && UndoOk(g, next, reserved, t) && t.landed == s.landed
    && i < |next| == |cells| && next == cells[i := next[i]] && SameApply(cells, next)
  }

  lemma TurnedTwice(g: Setting, cells: seq<Cell>, mid: seq<Cell>, next: seq<Cell>, reserved: Name, s: UndoState,
                    u: UndoState, t: UndoState, i: nat)
    requires Turned(g, cells, mid, reserved, s, u, i) && Turned(g, mid, next, reserved, u, t, i)
    ensures Turned(g, cells, next, reserved, s, t, i)
  {
    assert next == cells[i := next[i]];
  }

  lemma DisplaceOrderly(g: Setting, cells: seq<Cell>, reserved: Name, s: UndoState, i: nat, op: CommitOperation,
                        t: UndoState, ok: bool, fault: bool)
    requires Orderly(g, cells, reserved, s, i, op) && cells[i].new_ == Installed && op.path != []
    requires DisplaceResult(s, reserved, op.path, t, ok, fault)
    requires !ok ==> t == s || MakeParents(s.quarantine, Aside(reserved, op.path)) == Some(t.quarantine)
    ensures ok || fault
    ensures Turned(g, cells, if ok then cells[i := cells[i].(new_ := SetAside)] else cells, reserved, s, t, i)
  {
    SetAsideStep(g, cells, reserved, s, i);
    DisplaceParents(g, cells, reserved, s, i, op.path);
    if !ok && t != s {
      assert t == s.(quarantine := MakeParents(s.quarantine, Aside(reserved, op.path)).value);
    }
  }

  lemma ReinstateOrderly(g: Setting, cells: seq<Cell>, reserved: Name, s: UndoState, i: nat, op: CommitOperation,
                         t: UndoState, ok: bool, fault: bool)
    requires Orderly(g, cells, reserved, s, i, op) && cells[i].old_ == InQuarantine && cells[i].new_ != Installed
      && op.path != []
    requires ReinstateResult(s, op.path, t, ok, fault)
    requires !ok ==> t == s || MakeParents(s.workspace, op.path) == Some(t.workspace)
    ensures ok || fault
    ensures Turned(g, cells, if ok then cells[i := cells[i].(old_ := InWorkspace)] else cells, reserved, s, t, i)
  {
    if ok {
      ReinstateDone(g, cells, reserved, s, i, op.path, t);
    } else {
      NothingMade(g, cells, reserved, s, i, t);
      ReinstatePossible(g, cells, reserved, s, i, op.path);
    }
  }

  lemma ReinstateDone(g: Setting, cells: seq<Cell>, reserved: Name, s: UndoState, i: nat, p: Path, t: UndoState)
    requires UndoOk(g, cells, reserved, s) && i < |cells| && p == g.roots[i].path && p != []
    requires cells[i].old_ == InQuarantine && cells[i].new_ != Installed && PutBackOne(s, p) == Some(t)
    ensures Turned(g, cells, cells[i := cells[i].(old_ := InWorkspace)], reserved, s, t, i)
  {
    PutBackStep(g, cells, reserved, s, i);
    OneTurned(g, cells, cells[i := cells[i].(old_ := InWorkspace)], reserved, s, t, i);
  }

  lemma OneTurned(g: Setting, cells: seq<Cell>, next: seq<Cell>, reserved: Name, s: UndoState, t: UndoState, i: nat)
    requires UndoOk(g, next, reserved, t) && t.landed == s.landed && i < |cells| == |next|
      && next == cells[i := next[i]]
    requires next[i].new_ == InApply <==> cells[i].new_ == InApply
    ensures Turned(g, cells, next, reserved, s, t, i)
  {
  }

  lemma ReinstatePossible(g: Setting, cells: seq<Cell>, reserved: Name, s: UndoState, i: nat, p: Path)
    requires UndoOk(g, cells, reserved, s) && i < |cells| && p == g.roots[i].path && p != []
    requires cells[i].old_ == InQuarantine && cells[i].new_ != Installed
    ensures PutBackOne(s, p).Some?
  {
    PutBackStep(g, cells, reserved, s, i);
  }

  /** Putting a backup back makes no directory: its parents are there. */
  lemma NothingMade(g: Setting, cells: seq<Cell>, reserved: Name, s: UndoState, i: nat, t: UndoState)
    requires UndoOk(g, cells, reserved, s) && i < |cells| && t.landed == s.landed && t.quarantine == s.quarantine
    requires t == s || MakeParents(s.workspace, g.roots[i].path) == Some(t.workspace)
    ensures t == s
  {
    ParentsStay(g, cells, s.workspace, i);
  }

  lemma MakeParentsHidden(s: UndoState, p: Path, t: UndoState, excluded: set<Name>)
    requires p != [] && !IsExcluded(p, excluded) && MakeParents(s.workspace, p) == Some(t.workspace)
    ensures SameHidden(s, t, excluded)
  {
    var h, k := Hidden(t.workspace, excluded), Hidden(s.workspace, excluded);
    forall x ensures Look(h, x) == Look(k, x) {
      if IsExcluded(x, excluded) {
        assert !Inside(x, p) by {
          if Inside(x, p) { ExcludedAbove(x, p, excluded); }
        }
        assert Look(t.workspace, x) == Look(s.workspace, x);
      }
    }
    SameTree(h, k);
  }

  lemma BackHidden(s: UndoState, p: Path, t: UndoState, ok: bool, excluded: set<Name>)
    requires p != [] && !IsExcluded(p, excluded)
    requires if ok then PutBackOne(s, p) == Some(t) else t == s || MakeParents(s.workspace, p) == Some(t.workspace)
    ensures SameHidden(s, t, excluded)
  {
    if ok {
      PutBackHidden(s, p, t, excluded);
    } else if t != s {
      MakeParentsHidden(s, p, t, excluded);
    }
  }

  /** The first half of a turn: set the payload aside if it is there to be set aside. */
  method UninstallTurn(faults: nat -> bool, calls: nat, s: UndoState, reserved: Name, op: CommitOperation,
                       excluded: set<Name>, ghost g: Setting, ghost cells: seq<Cell>, ghost i: nat)
    returns (t: UndoState, ok: bool, calls': nat, ghost next: seq<Cell>)
    requires Trees2(s) && Clean(op.path) && CleanName(reserved) && !IsExcluded(op.path, excluded)
    requires op.installed ==> op.path in s.workspace
    ensures calls' >= calls && Trees2(t) && SameHidden(s, t, excluded)
    ensures ok ==> Uninstall(s, reserved, op) == Some(t)
    ensures !ok ==> FaultIn(faults, calls, calls') || (Uninstall(s, reserved, op) == None && t == s)
    ensures Orderly(g, cells, reserved, s, i, op) && (op.installed <==> cells[i].new_ == Installed) ==>
      && Turned(g, cells, next, reserved, s, t, i) && next[i].old_ == cells[i].old_
      && (ok ==> next[i].new_ != Installed) && (!ok ==> FaultIn(faults, calls, calls'))
  {
    t, ok, calls', next := s, true, calls, cells;
    if op.installed {
      t, ok, calls' := Displace(faults, calls, s, reserved, op.path);
      if ok {
        SetAsideHidden(s, reserved, op.path, t, excluded);
      }
      if Orderly(g, cells, reserved, s, i, op) && cells[i].new_ == Installed {
        DisplaceOrderly(g, cells, reserved, s, i, op, t, ok, FaultIn(faults, calls, calls'));
        next := if ok then cells[i := cells[i].(new_ := SetAside)] else cells;
      }
    }
  }

  /** The second half: put the backup back. */
  method ReinstateTurn(faults: nat -> bool, calls: nat, s: UndoState, reserved: Name, op: CommitOperation,
                       excluded: set<Name>, ghost g: Setting, ghost cells: seq<Cell>, ghost i: nat)
    returns (t: UndoState, ok: bool, calls': nat, ghost next: seq<Cell>)
    requires Trees2(s) && Clean(op.path) && CleanName(reserved) && !IsExcluded(op.path, excluded)
    requires op.backupMoved ==> op.path in s.quarantine
    ensures calls' >= calls && Trees2(t) && SameHidden(s, t, excluded)
    ensures ok ==> Reinstate(s, op) == Some(t)
    ensures !ok ==> FaultIn(faults, calls, calls') || (Reinstate(s, op) == None && t == s)
    ensures Orderly(g, cells, reserved, s, i, op) && (op.backupMoved <==> cells[i].old_ == InQuarantine)
            && cells[i].new_ != Installed ==>
      && Turned(g, cells, next, reserved, s, t, i) && next[i].new_ == cells[i].new_
      && (ok ==> next[i].old_ == InWorkspace) && (!ok ==> FaultIn(faults, calls, calls'))
  {
    t, ok, calls', next := s, true, calls, cells;
    if op.backupMoved {
      t, ok, calls' := PutBackCalls(faults, calls, s, op.path);
      BackHidden(s, op.path, t, ok, excluded);
      if Orderly(g, cells, reserved, s, i, op) && cells[i].old_ == InQuarantine && cells[i].new_ != Installed {
        ReinstateOrderly(g, cells, reserved, s, i, op, t, ok, FaultIn(faults, calls, calls'));
        next := if ok then cells[i := cells[i].(old_ := InWorkspace)] else cells;
      }
    }
  }

  ghost predicate PathsFit(ops: seq<CommitOperation>, excluded: set<Name>) {
    forall i | 0 <= i < |ops| :: Clean(ops[i].path) && !IsExcluded(ops[i].path, excluded)
  }

  function LookedAt(op: CommitOperation, w: Tree): CommitOperation {
    op.(installed := op.installed && op.path in w)
  }

  function CheckedBackup(op: CommitOperation, q: Tree): CommitOperation {
    op.(backupMoved := op.backupMoved && op.path in q)
  }

  /** One turn of the rollback loop; `ok` is false where its OSError handler is entered. */
  method RollbackTurn(faults: nat -> bool, calls: nat, s: UndoState, reserved: Name, op: CommitOperation,
                      excluded: set<Name>, ghost g: Setting, ghost cells: seq<Cell>, ghost i: nat)
    returns (t: UndoState, ok: bool, calls': nat, ghost next: seq<Cell>)
    requires Trees2(s) && Clean(op.path) && CleanName(reserved) && !IsExcluded(op.path, excluded)
    ensures calls' >= calls && Trees2(t) && SameHidden(s, t, excluded)
    ensures ok ==> GuardedOne(s, reserved, op) == Some(t)
    ensures ok || !FaultIn(faults, calls, calls') ==> TurnAfter(s, reserved, op) == t
    ensures !ok ==> FaultIn(faults, calls, calls') || GuardedOne(s, reserved, op) == None
    ensures Orderly(g, cells, reserved, s, i, op) && cells[i] == CellOf(op) ==>
      && Turned(g, cells, next, reserved, s, t, i)
      && (ok ==> next[i].old_ == InWorkspace && next[i].new_ != Installed) && (!ok ==> FaultIn(faults, calls, calls'))
  {
    if Orderly(g, cells, reserved, s, i, op) && cells[i] == CellOf(op) {
      WhereFlagsSay(g, cells, reserved, s, i, op);
      assert LookedAt(op, s.workspace) == op;
    }
    var first := LookedAt(op, s.workspace);
    t, ok, calls', next := UninstallTurn(faults, calls, s, reserved, first, excluded, g, cells, i);
    ghost var u := t;
    if !ok {
      GuardedStops(s, reserved, op);
      return;
    }
    if Orderly(g, next, reserved, t, i, op) && next[i].old_ == CellOf(op).old_ {
      BackupWhereFlagSays(g, next, reserved, t, i, op);
      assert CheckedBackup(op, t.quarantine) == op;
    }
    ghost var mid := next;
    t, ok, calls', next :=
      ReinstateTurn(faults, calls', t, reserved, CheckedBackup(op, t.quarantine), excluded, g, next, i);
    GuardedTurn(s, reserved, op, u);
    if Turned(g, cells, mid, reserved, s, u, i) && Turned(g, mid, next, reserved, u, t, i) {
      TurnedTwice(g, cells, mid, next, reserved, s, u, t, i);
    }
  }

  lemma GuardedStops(s: UndoState, reserved: Name, op: CommitOperation)
    requires op.path != []
    ensures Uninstall(s, reserved, LookedAt(op, s.workspace)) == None ==>
      GuardedOne(s, reserved, op) == None && TurnAfter(s, reserved, op) == s
  {
  }

  lemma GuardedTurn(s: UndoState, reserved: Name, op: CommitOperation, u: UndoState)
    requires op.path != [] && Uninstall(s, reserved, LookedAt(op, s.workspace)) == Some(u)
    ensures var r := Reinstate(u, CheckedBackup(op, u.quarantine));
      GuardedOne(s, reserved, op) == r && TurnAfter(s, reserved, op) == match r case Some(t) => t case None => u
  {
  }

  lemma WhereFlagsSay(g: Setting, cells: seq<Cell>, reserved: Name, s: UndoState, i: nat, op: CommitOperation)
    requires Orderly(g, cells, reserved, s, i, op) && cells[i] == CellOf(op)
    ensures op.installed ==> op.path in s.workspace
  {
    assert g.roots[i] in g.roots && Above(op.path, op.path);
    if op.installed { assert Look(s.workspace, op.path) == Look(g.payload, op.path); }
  }

  lemma BackupWhereFlagSays(g: Setting, cells: seq<Cell>, reserved: Name, s: UndoState, i: nat, op: CommitOperation)
    requires Orderly(g, cells, reserved, s, i, op) && cells[i].old_ == CellOf(op).old_
    ensures op.backupMoved ==> op.path in s.quarantine
  {
    assert g.roots[i] in g.roots && Above(op.path, op.path);
    if op.backupMoved { assert Look(s.quarantine, op.path) == Look(g.base, op.path); }
  }

  /** What the layout still says while operations below `k` wait to be undone. */
  ghost predicate Waiting(g: Setting, ops: seq<CommitOperation>, cells: seq<Cell>, reserved: Name, s: UndoState,
                          k: nat) {
    && UndoOk(g, cells, reserved, s) && |cells| == |ops| && k <= |ops|
    && forall i | 0 <= i < k :: cells[i] == CellOf(ops[i])
  }

  lemma NextWaiting(g: Setting, ops: seq<CommitOperation>, cells: seq<Cell>, next: seq<Cell>, reserved: Name,
                    t: UndoState, k: nat)
    requires 0 < k <= |ops| == |cells| == |next| && next == cells[k - 1 := next[k - 1]]
    requires forall i | 0 <= i < k :: cells[i] == CellOf(ops[i])
    requires UndoOk(g, next, reserved, t)
    ensures Waiting(g, ops, next, reserved, t, k - 1)
  {
  }

  /** The loop of _rollback_failed_commit. Where no place aside meets a backup the layout stays
      orderly whatever fails, nothing is landed on, and only a failing call can leave an error.
      Without a failing call the loop is LoopAfter with the errors of LoopErrors, and whenever it
      records no error it is GuardedFrom. An operation without an error is undone. */
  method RollbackLoop(faults: nat -> bool, calls: nat, s0: UndoState, reserved: Name, ops: seq<CommitOperation>,
                      excluded: set<Name>, ghost g: Setting)
    returns (s: UndoState, errors: seq<Path>, calls': nat)
    requires Trees2(s0) && CleanName(reserved) && PathsFit(ops, excluded)
    requires OperationsFor(ops, g.roots) && UndoOk(g, CellsOf(ops), reserved, s0)
    ensures calls' >= calls && Trees2(s) && SameHidden(s0, s, excluded)
    ensures ops == [] ==> calls' == calls
    ensures errors == [] ==> GuardedFrom(s0, reserved, ops, |ops|) == Some(s)
    ensures errors == [] || !FaultIn(faults, calls, calls') ==> LoopAfter(s0, reserved, ops, |ops|) == s
    ensures errors != [] ==> FaultIn(faults, calls, calls') || GuardedFrom(s0, reserved, ops, |ops|) == None
    ensures !FaultIn(faults, calls, calls') ==> errors == LoopErrors(s0, reserved, ops, |ops|)
    ensures Apart(g.roots, reserved) ==> InPlaces(g, ops, errors, reserved, s) && s.landed == s0.landed
    ensures Apart(g.roots, reserved) ==> if errors == [] then s.workspace == g.base else FaultIn(faults, calls, calls')
  {
    hide RollingBack, Apart, UndoOk, InPlaces, Rename, SameHidden;
    s, errors, calls' := s0, [], calls;
    var k := |ops|;
    ghost var start := calls;
    LoopBegins(faults, start, g, ops, reserved, excluded, s0);
    while k > 0
      invariant 0 <= k <= |ops|
      invariant RollingBack(faults, start, calls', g, ops, reserved, excluded, s0, s, k, errors)
    {
      var t, ok, c := RollbackPass(faults, start, calls', s0, s, reserved, ops, k, excluded, g, errors);
      s, calls' := t, c;
      k := k - 1;
      if !ok { errors := errors + [ops[k].path]; }
    }
    LoopEnds(faults, start, calls', g, ops, reserved, excluded, s0, s, errors);
  }

  /** Every subtree is where some cells say, what was in the apply tree still is, and the operations
      without an error are undone. */
  ghost predicate InPlaces(g: Setting, ops: seq<CommitOperation>, errors: seq<Path>, reserved: Name, s: UndoState) {
    exists cells :: PlacedBy(g, ops, cells, errors, reserved, s)
  }

  ghost predicate PlacedBy(g: Setting, ops: seq<CommitOperation>, cells: seq<Cell>, errors: seq<Path>, reserved: Name,
                           s: UndoState) {
    UndoOk(g, cells, reserved, s) && SameApply(CellsOf(ops), cells) && UndoneBut(ops, cells, 0, errors)
  }

  /** Operations from `k` on are undone, but for those whose paths were recorded as errors. */
  ghost predicate UndoneBut(ops: seq<CommitOperation>, cells: seq<Cell>, k: nat, errors: seq<Path>) {
    |cells| == |ops| && k <= |ops| && forall i | k <= i < |ops| && ops[i].path !in errors :: IsUndone(cells[i])
  }

  /** The old subtree is in the workspace, and the payload is not. */
  predicate IsUndone(cell: Cell) {
    cell.old_ == InWorkspace && cell.new_ != Installed
  }

  /** The errors after a turn. */
  function WithTurn(errors: seq<Path>, ok: bool, op: CommitOperation): seq<Path> {
    if ok then errors else errors + [op.path]
  }

  /** What a rollback loop keeps while operations below `k` wait. */
  ghost predicate RollingBack(faults: nat -> bool, start: nat, calls: nat, g: Setting, ops: seq<CommitOperation>,
                              reserved: Name, excluded: set<Name>, s0: UndoState, s: UndoState, k: nat,
                              errors: seq<Path>) {
    exists cells :: RollingWith(faults, start, calls, g, ops, cells, reserved, excluded, s0, s, k, errors)
  }

  ghost predicate RollingWith(faults: nat -> bool, start: nat, calls: nat, g: Setting, ops: seq<CommitOperation>,
                              cells: seq<Cell>, reserved: Name, excluded: set<Name>, s0: UndoState, s: UndoState,
                              k: nat, errors: seq<Path>) {
    && k <= |ops| && start <= calls && Trees2(s) && SameHidden(s0, s, excluded) && (ops == [] ==> calls == start)
    && (errors == [] ==> GuardedFrom(s0, reserved, ops, |ops|) == GuardedFrom(s, reserved, ops, k))
    && (errors == [] || !FaultIn(faults, start, calls) ==>
      LoopAfter(s0, reserved, ops, |ops|) == LoopAfter(s, reserved, ops, k))
    && (!FaultIn(faults, start, calls) ==>
      LoopErrors(s0, reserved, ops, |ops|) == errors + LoopErrors(s, reserved, ops, k))
    && (errors != [] ==> FaultIn(faults, start, calls) || GuardedFrom(s0, reserved, ops, |ops|) == None)
    && LoopOk(g, ops, cells, reserved, s0, s, k, errors, FaultIn(faults, start, calls))
  }

  /** The accounting of a rollback loop where no place aside meets a backup. */
  ghost predicate LoopOk(g: Setting, ops: seq<CommitOperation>, cells: seq<Cell>, reserved: Name, s0: UndoState,
                         s: UndoState, k: nat, errors: seq<Path>, fault: bool) {
    Apart(g.roots, reserved) ==>
      LoopCells(g, ops, cells, reserved, s, k, errors) && s.landed == s0.landed && (errors != [] ==> fault)
  }

  ghost predicate LoopCells(g: Setting, ops: seq<CommitOperation>, cells: seq<Cell>, reserved: Name, s: UndoState,
                            k: nat, errors: seq<Path>) {
    && Waiting(g, ops, cells, reserved, s, k) && SameApply(CellsOf(ops), cells)
    && UndoneBut(ops, cells, k, errors)
  }

  lemma LoopBegins(faults: nat -> bool, start: nat, g: Setting, ops: seq<CommitOperation>, reserved: Name,
                   excluded: set<Name>, s0: UndoState)
    requires Trees2(s0) && OperationsFor(ops, g.roots) && UndoOk(g, CellsOf(ops), reserved, s0)
    ensures RollingBack(faults, start, start, g, ops, reserved, excluded, s0, s0, |ops|, [])
  {
    assert RollingWith(faults, start, start, g, ops, CellsOf(ops), reserved, excluded, s0, s0, |ops|, []);
  }

  /** One turn of the loop. */
  method RollbackPass(faults: nat -> bool, ghost start: nat, calls: nat, ghost s0: UndoState, s: UndoState,
                      reserved: Name, ops: seq<CommitOperation>, k: nat, excluded: set<Name>, ghost g: Setting,
                      ghost errors: seq<Path>)
    returns (t: UndoState, ok: bool, calls': nat)
    requires CleanName(reserved) && PathsFit(ops, excluded) && OperationsFor(ops, g.roots) && 0 < k <= |ops|
    requires RollingBack(faults, start, calls, g, ops, reserved, excluded, s0, s, k, errors)
    ensures RollingBack(faults, start, calls', g, ops, reserved, excluded, s0, t, k - 1,
                        WithTurn(errors, ok, ops[k - 1]))
  {
    ghost var cells :| RollingWith(faults, start, calls, g, ops, cells, reserved, excluded, s0, s, k, errors);
    ghost var next;
    t, ok, calls', next := RollbackIteration(faults, calls, s, reserved, ops, k, excluded, g, cells);
    RollsOn(faults, start, calls, calls', g, ops, cells, next, reserved, excluded, s0, s, t, k, errors, ok);
  }

  lemma CellsGoOn(g: Setting, ops: seq<CommitOperation>, cells: seq<Cell>, next: seq<Cell>, reserved: Name,
                  s: UndoState, t: UndoState, k: nat, errors: seq<Path>, ok: bool)
    requires 0 < k <= |ops| && LoopCells(g, ops, cells, reserved, s, k, errors)
    requires Waiting(g, ops, next, reserved, t, k - 1) && SameApply(cells, next)
    requires next == cells[k - 1 := next[k - 1]] && (ok ==> IsUndone(next[k - 1]))
    ensures LoopCells(g, ops, next, reserved, t, k - 1, WithTurn(errors, ok, ops[k - 1]))
  {
    hide UndoOk;
    SameApplyChain(CellsOf(ops), cells, next);
  }

  lemma RollsOn(faults: nat -> bool, start: nat, calls: nat, c: nat, g: Setting, ops: seq<CommitOperation>,
                cells: seq<Cell>, next: seq<Cell>, reserved: Name, excluded: set<Name>, s0: UndoState, s: UndoState,
                t: UndoState, k: nat, errors: seq<Path>, ok: bool)
    requires 0 < k <= |ops| && RollingWith(faults, start, calls, g, ops, cells, reserved, excluded, s0, s, k, errors)
    requires calls <= c && Trees2(t) && SameHidden(s, t, excluded)
    requires TurnTaken(faults, calls, c, s, reserved, ops[k - 1], t, ok) && ops[k - 1].path != []
    requires Apart(g.roots, reserved) && Waiting(g, ops, cells, reserved, s, k) ==>
      TurnAccounted(g, ops, cells, next, reserved, s, t, k, ok, FaultIn(faults, calls, c))
    ensures RollingBack(faults, start, c, g, ops, reserved, excluded, s0, t, k - 1, WithTurn(errors, ok, ops[k - 1]))
  {
    hide UndoneBut, SameApply, Waiting, GuardedOne, TurnAfter;
    FaultsJoin(faults, start, calls, c);
    if Apart(g.roots, reserved) { CellsGoOn(g, ops, cells, next, reserved, s, t, k, errors, ok); }
    var errors' := WithTurn(errors, ok, ops[k - 1]);
    assert errors + LoopErrors(s, reserved, ops, k) == errors' + LoopErrors(t, reserved, ops, k - 1)
      || FaultIn(faults, calls, c);
    assert RollingWith(faults, start, c, g, ops, next, reserved, excluded, s0, t, k - 1, errors');
  }

  /** What a turn of the rollback loop did, but for failing calls. */
  ghost predicate TurnTaken(faults: nat -> bool, calls: nat, c: nat, s: UndoState, reserved: Name, op: CommitOperation,
                            t: UndoState, ok: bool) {
    && (ok ==> GuardedOne(s, reserved, op) == Some(t))
    && (ok || !FaultIn(faults, calls, c) ==> TurnAfter(s, reserved, op) == t)
    && (!ok ==> FaultIn(faults, calls, c) || GuardedOne(s, reserved, op) == None)
  }

  /** The accounting of one turn. */
  ghost predicate TurnAccounted(g: Setting, ops: seq<CommitOperation>, cells: seq<Cell>, next: seq<Cell>,
                                reserved: Name, s: UndoState, t: UndoState, k: nat, ok: bool, fault: bool)
    requires 0 < k <= |ops|
  {
    && Waiting(g, ops, next, reserved, t, k - 1) && SameApply(cells, next) && t.landed == s.landed
    && |cells| == |ops| && next == cells[k - 1 := next[k - 1]] && (ok ==> IsUndone(next[k - 1])) && (!ok ==> fault)
  }

  lemma FaultsJoin(faults: nat -> bool, a: nat, b: nat, c: nat)
    requires a <= b <= c
    ensures FaultIn(faults, a, c) <==> FaultIn(faults, a, b) || FaultIn(faults, b, c)
  {
  }

  lemma LoopEnds(faults: nat -> bool, start: nat, calls: nat, g: Setting, ops: seq<CommitOperation>, reserved: Name,
                 excluded: set<Name>, s0: UndoState, s: UndoState, errors: seq<Path>)
    requires RollingBack(faults, start, calls, g, ops, reserved, excluded, s0, s, 0, errors)
    ensures start <= calls && Trees2(s) && SameHidden(s0, s, excluded) && (ops == [] ==> calls == start)
    ensures errors == [] ==> GuardedFrom(s0, reserved, ops, |ops|) == Some(s)
    ensures errors == [] || !FaultIn(faults, start, calls) ==> LoopAfter(s0, reserved, ops, |ops|) == s
    ensures errors != [] ==> FaultIn(faults, start, calls) || GuardedFrom(s0, reserved, ops, |ops|) == None
    ensures !FaultIn(faults, start, calls) ==> errors == LoopErrors(s0, reserved, ops, |ops|)
    ensures Apart(g.roots, reserved) ==> InPlaces(g, ops, errors, reserved, s) && s.landed == s0.landed
    ensures Apart(g.roots, reserved) ==> if errors == [] then s.workspace == g.base else FaultIn(faults, start, calls)
  {
    hide SameHidden;
    var cells :| RollingWith(faults, start, calls, g, ops, cells, reserved, excluded, s0, s, 0, errors);
    assert errors + LoopErrors(s, reserved, ops, 0) == errors;
    if Apart(g.roots, reserved) {
      assert PlacedBy(g, ops, cells, errors, reserved, s);
      if errors == [] { AllBack(g, cells, s.workspace); }
    }
  }

  lemma SameApplyChain(a: seq<Cell>, b: seq<Cell>, c: seq<Cell>)
    ensures SameApply(a, b) && SameApply(b, c) ==> SameApply(a, c)
  {
  }

  /** An undo in which nothing is in the way, up to the first trouble. */
  ghost predicate Unhindered(g: Setting, ops: seq<CommitOperation>, cells: seq<Cell>, reserved: Name, s: UndoState,
                             k: nat) {
    && OperationsFor(ops, g.roots) && UndoOk(g, cells, reserved, s) && UndoneFrom(ops, cells, k)
    && PlacesFree(ops, s.quarantine, reserved, k) && NoneAbove(ops, reserved)
  }

  /** What a restore loop keeps, broken off or not, if nothing was in the way. */
  ghost predicate Restoring(g: Setting, ops: seq<CommitOperation>, cells: seq<Cell>, reserved: Name, s0: UndoState,
                            s: UndoState, k: nat, ok: bool, fault: bool) {
    && UndoOk(g, cells, reserved, s) && SameApply(CellsOf(ops), cells) && s.landed == s0.landed
    && (if ok then Unhindered(g, ops, cells, reserved, s, k) else fault)
  }

  /** The loop of restore, which raises at the first trouble. If nothing is in the way, the layout
      stays orderly whatever fails, nothing is landed on, and only a failing call can stop it. */
  method RestoreLoop(faults: nat -> bool, calls: nat, s0: UndoState, reserved: Name, ops: seq<CommitOperation>,
                     excluded: set<Name>, ghost g: Setting)
    returns (s: UndoState, ok: bool, calls': nat, ghost cells: seq<Cell>)
    requires Trees2(s0) && CleanName(reserved) && PathsFit(ops, excluded)
    ensures calls' >= calls && Trees2(s) && SameHidden(s0, s, excluded)
    ensures ok ==> UndoFrom(s0, reserved, ops, |ops|) == Some(s)
    ensures !ok ==> FaultIn(faults, calls, calls') || UndoFrom(s0, reserved, ops, |ops|) == None
    ensures Unhindered(g, ops, CellsOf(ops), reserved, s0, |ops|) ==>
      && Restoring(g, ops, cells, reserved, s0, s, 0, ok, FaultIn(faults, calls, calls'))
      && (ok ==> s.workspace == g.base)
  {
    hide Rename, PathsFit;
    s, ok, calls', cells := s0, true, calls, CellsOf(ops);
    ghost var free := Unhindered(g, ops, CellsOf(ops), reserved, s0, |ops|);
    var k := |ops|;
    while k > 0 && ok
      invariant 0 <= k <= |ops| && calls' >= calls && Trees2(s) && SameHidden(s0, s, excluded)
      invariant ok ==> UndoFrom(s0, reserved, ops, |ops|) == UndoFrom(s, reserved, ops, k)
      invariant !ok ==> FaultIn(faults, calls, calls') || UndoFrom(s0, reserved, ops, |ops|) == None
      invariant free ==> Restoring(g, ops, cells, reserved, s0, s, k, ok, FaultIn(faults, calls, calls'))
      decreases k
    {
      var t, done, c;
      ghost var next;
      t, done, c, next := RestoreIteration(faults, calls', s, reserved, ops, k, excluded, g, cells);
      FaultsJoin(faults, calls, calls', c);
      if free { RestoresOn(g, ops, cells, next, reserved, s0, s, t, k, done, FaultIn(faults, calls, c)); }
      s, ok, calls', cells := t, done, c, next;
      k := k - 1;
    }
    if free && ok {
      AllBack(g, cells, s.workspace);
    }
  }

  lemma RestoresOn(g: Setting, ops: seq<CommitOperation>, cells: seq<Cell>, next: seq<Cell>, reserved: Name,
                   s0: UndoState, s: UndoState, t: UndoState, k: nat, done: bool, fault: bool)
    requires 0 < k <= |ops| && SameApply(CellsOf(ops), cells) && s.landed == s0.landed
    requires Turned(g, cells, next, reserved, s, t, k - 1)
    requires if done then Unhindered(g, ops, next, reserved, t, k - 1) else fault
    ensures Restoring(g, ops, next, reserved, s0, t, k - 1, done, fault)
  {
    SameApplyChain(CellsOf(ops), cells, next);
  }

  method RestoreTurn(faults: nat -> bool, calls: nat, s: UndoState, reserved: Name, op: CommitOperation,
                     excluded: set<Name>, ghost g: Setting, ghost cells: seq<Cell>, ghost i: nat)
    returns (t: UndoState, ok: bool, calls': nat, ghost next: seq<Cell>)
    requires Trees2(s) && Clean(op.path) && CleanName(reserved) && !IsExcluded(op.path, excluded)
    ensures calls' >= calls && Trees2(t) && SameHidden(s, t, excluded)
    ensures ok ==> UndoOne(s, reserved, op) == Some(t)
    ensures !ok ==> FaultIn(faults, calls, calls') || UndoOne(s, reserved, op) == None
    ensures Orderly(g, cells, reserved, s, i, op) && cells[i] == CellOf(op) ==>
      && Turned(g, cells, next, reserved, s, t, i)
      && (ok ==> next[i].old_ == InWorkspace && next[i].new_ != Installed) && (!ok ==> FaultIn(faults, calls, calls'))
  {
    if Orderly(g, cells, reserved, s, i, op) && cells[i] == CellOf(op) {
      WhereFlagsSay(g, cells, reserved, s, i, op);
    }
    if op.installed && op.path !in s.workspace {
      return s, false, calls, cells;
    }
    t, ok, calls', next := UninstallTurn(faults, calls, s, reserved, op, excluded, g, cells, i);
    if ok { ok, calls' := SyncAfter(op.installed, faults, calls'); }
    if !ok { return; }
    if Orderly(g, next, reserved, t, i, op) && next[i].old_ == CellOf(op).old_ {
      BackupWhereFlagSays(g, next, reserved, t, i, op);
    }
    if op.backupMoved && op.path !in t.quarantine {
      return t, false, calls', next;
    }
    ghost var u, mid := t, next;
    t, ok, calls', next := ReinstateTurn(faults, calls', t, reserved, op, excluded, g, next, i);
    if Turned(g, cells, mid, reserved, s, u, i) && Turned(g, mid, next, reserved, u, t, i) {
      TurnedTwice(g, cells, mid, next, reserved, s, u, t, i);
    }
    if ok { ok, calls' := SyncAfter(op.backupMoved, faults, calls'); }
  }

  /** fsync_directory after a rename, which stays done if this fails. */
  method SyncAfter(moved: bool, faults: nat -> bool, calls: nat) returns (ok: bool, calls': nat)
    ensures calls' >= calls && (!ok ==> FaultIn(faults, calls, calls'))
  {
    ok, calls' := true, calls;
    if moved { ok, calls' := !faults(calls), calls + 1; }
  }

  method RollbackIteration(faults: nat -> bool, calls: nat, s: UndoState, reserved: Name, ops: seq<CommitOperation>,
                           k: nat, excluded: set<Name>, ghost g: Setting, ghost cells: seq<Cell>)
    returns (t: UndoState, ok: bool, calls': nat, ghost next: seq<Cell>)
    requires Trees2(s) && CleanName(reserved) && PathsFit(ops, excluded) && 0 < k <= |ops|
      && OperationsFor(ops, g.roots)
    ensures calls' >= calls && Trees2(t) && SameHidden(s, t, excluded)
    ensures TurnTaken(faults, calls, calls', s, reserved, ops[k - 1], t, ok) && ops[k - 1].path != []
    ensures Apart(g.roots, reserved) && Waiting(g, ops, cells, reserved, s, k) ==>
      TurnAccounted(g, ops, cells, next, reserved, s, t, k, ok, FaultIn(faults, calls, calls'))
  {
    hide Apart, Rename, SameHidden, SameApply, Trees2, IsTree;
    assert OperationFor(ops[k - 1], g.roots[k - 1]);
    if Apart(g.roots, reserved) && Waiting(g, ops, cells, reserved, s, k) {
      ApartFree(g, cells, reserved, s.quarantine, k - 1);
    }
    t, ok, calls', next := RollbackTurn(faults, calls, s, reserved, ops[k - 1], excluded, g, cells, k - 1);
    if Apart(g.roots, reserved) && Waiting(g, ops, cells, reserved, s, k) {
      NextWaiting(g, ops, cells, next, reserved, t, k);
    }
  }

  method RestoreIteration(faults: nat -> bool, calls: nat, s: UndoState, reserved: Name, ops: seq<CommitOperation>,
                          k: nat, excluded: set<Name>, ghost g: Setting, ghost cells: seq<Cell>)
    returns (t: UndoState, ok: bool, calls': nat, ghost next: seq<Cell>)
    requires Trees2(s) && CleanName(reserved) && PathsFit(ops, excluded) && 0 < k <= |ops|
    ensures calls' >= calls && Trees2(t) && SameHidden(s, t, excluded)
    ensures ok ==> UndoFrom(s, reserved, ops, k) == UndoFrom(t, reserved, ops, k - 1)
    ensures !ok ==> FaultIn(faults, calls, calls') || UndoFrom(s, reserved, ops, k) == None
    ensures Unhindered(g, ops, cells, reserved, s, k) ==>
      && Turned(g, cells, next, reserved, s, t, k - 1)
      && (if ok then Unhindered(g, ops, next, reserved, t, k - 1) else FaultIn(faults, calls, calls'))
  {
    if Unhindered(g, ops, cells, reserved, s, k) { UnhinderedTurn(g, ops, cells, reserved, s, k); }
    t, ok, calls', next := RestoreTurn(faults, calls, s, reserved, ops[k - 1], excluded, g, cells, k - 1);
    if Unhindered(g, ops, cells, reserved, s, k) && ok {
      UnhinderedNext(g, ops, cells, next, reserved, s, t, k);
    }
  }

  lemma UnhinderedTurn(g: Setting, ops: seq<CommitOperation>, cells: seq<Cell>, reserved: Name, s: UndoState, k: nat)
    requires 0 < k <= |ops| && Unhindered(g, ops, cells, reserved, s, k)
    ensures Orderly(g, cells, reserved, s, k - 1, ops[k - 1]) && cells[k - 1] == CellOf(ops[k - 1])
  {
    assert OperationFor(ops[k - 1], g.roots[k - 1]);
    if ops[k - 1].installed { FreeAtTurn(g, ops, cells, reserved, s, k - 1); }
  }

  lemma UnhinderedNext(g: Setting, ops: seq<CommitOperation>, cells: seq<Cell>, next: seq<Cell>, reserved: Name,
                       s: UndoState, t: UndoState, k: nat)
    requires 0 < k <= |ops| && Unhindered(g, ops, cells, reserved, s, k) && UndoOne(s, reserved, ops[k - 1]) == Some(t)
    requires Turned(g, cells, next, reserved, s, t, k - 1) && next[k - 1].old_ == InWorkspace
      && next[k - 1].new_ != Installed
    ensures Unhindered(g, ops, next, reserved, t, k - 1)
  {
    PlacesAfterTurn(g, ops, s, reserved, k, t);
    NextWaiting(g, ops, cells, next, reserved, t, k);
  }
}

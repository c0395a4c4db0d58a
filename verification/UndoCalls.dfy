/** One turn of an undo loop as the calls it makes, any of which may fail. */
module UndoCalls {
  import opened Paths
  import opened Trees
  import opened Manifests
  import opened Diffs
  import opened Layout
  import opened Records
  import opened Undo
  import opened UndoExact

  /** Some call numbered from `start` up to `end` fails. */
  ghost predicate FaultIn(faults: nat -> bool, start: nat, end: nat) {
    exists n: nat | start <= n < end :: faults(n)
  }

  /** Root `i` is installed and may be set aside. */
  ghost predicate CanDisplace(g: Setting, cells: seq<Cell>, reserved: Name, s: UndoState, i: nat, p: Path) {
    && UndoOk(g, cells, reserved, s) && i < |cells| && p == g.roots[i].path
    && cells[i].new_ == Installed && AsideFree(g, cells, reserved, s.quarantine, i)
  }

  lemma DisplaceParents(g: Setting, cells: seq<Cell>, reserved: Name, s: UndoState, i: nat, p: Path)
    requires CanDisplace(g, cells, reserved, s, i, p)
    ensures MakeParents(s.quarantine, Aside(reserved, p)).Some?
    ensures UndoOk(g, cells, reserved, s.(quarantine := MakeParents(s.quarantine, Aside(reserved, p)).value))
  {
    AsideParents(g, cells, reserved, s.quarantine, i);
  }

  /** What setting one payload aside guarantees, in general and in an orderly layout. */
  ghost predicate DisplaceResult(s: UndoState, reserved: Name, p: Path, t: UndoState, ok: bool, fault: bool)
    requires p != []
  {
    && Trees2(t)
    && (ok ==> SetAsideOne(s, reserved, p) == Some(t))
    && (!ok ==> t.workspace == s.workspace && t.landed == s.landed)
    && (!ok ==> fault || (SetAsideOne(s, reserved, p) == None && t == s))
  }

  ghost predicate ReinstateResult(s: UndoState, p: Path, t: UndoState, ok: bool, fault: bool)
    requires p != []
  {
    && Trees2(t)
    && (ok ==> PutBackOne(s, p) == Some(t))
    && (!ok ==> t.landed == s.landed && t.quarantine == s.quarantine)
    && (!ok ==> fault || (PutBackOne(s, p) == None && t == s))
  }

  /** Excluded entries are out of reach of an operation. */
  predicate SameHidden(s: UndoState, t: UndoState, excluded: set<Name>) {
    Hidden(t.workspace, excluded) == Hidden(s.workspace, excluded)
  }

  lemma SetAsideHidden(s: UndoState, reserved: Name, p: Path, t: UndoState, excluded: set<Name>)
    requires p != [] && SetAsideOne(s, reserved, p) == Some(t) && !IsExcluded(p, excluded)
    ensures SameHidden(s, t, excluded)
  {
    var h, k := Hidden(t.workspace, excluded), Hidden(s.workspace, excluded);
    forall x ensures Look(h, x) == Look(k, x) {
      if IsExcluded(x, excluded) {
        if Above(p, x) { ExcludedAbove(p, x, excluded); }
        assert Look(t.workspace, x) == Look(s.workspace, x);
      }
    }
    SameTree(h, k);
  }

  lemma PutBackHidden(s: UndoState, p: Path, t: UndoState, excluded: set<Name>)
    requires p != [] && PutBackOne(s, p) == Some(t) && !IsExcluded(p, excluded)
    ensures SameHidden(s, t, excluded)
  {
    var w := MakeParents(s.workspace, p).value;
    var h, k := Hidden(t.workspace, excluded), Hidden(s.workspace, excluded);
    forall x ensures Look(h, x) == Look(k, x) {
      if IsExcluded(x, excluded) {
        assert x != [] && !Above(p, x) && !Inside(x, p) by {
          if Above(p, x) { ExcludedAbove(p, x, excluded); }
          if Inside(x, p) { ExcludedAbove(x, p, excluded); }
        }
        assert Look(w, x) == Look(s.workspace, x);
        assert Look(t.workspace, x) == Look(w, x);
      }
    }
    SameTree(h, k);
  }

  lemma SetAsideTrees(s: UndoState, reserved: Name, p: Path, q: Tree)
    requires Trees2(s) && Clean(p) && CleanName(reserved) && MakeParents(s.quarantine, Aside(reserved, p)) == Some(q)
    ensures IsTree(q)
    ensures var r := Rename(s.workspace, p, q, Aside(reserved, p)); r.Renamed? ==> IsTree(r.source) && IsTree(r.target)
  {
    AsideClean(reserved, p);
    MakeParentsKeepsTree(s.quarantine, Aside(reserved, p));
    if Rename(s.workspace, p, q, Aside(reserved, p)).Renamed? {
      RenameKeepsTrees(s.workspace, p, q, Aside(reserved, p));
    }
  }

  /** Where something is in the way of a rename, no directory had to be made on the way to it. */
  lemma RefusedMakesNothing(t: Tree, d: Path, made: Tree)
    requires IsTree(t) && MakeParents(t, d) == Some(made)
    ensures d in made ==> made == t
  {
    assert Look(made, d) == Look(t, d);
    if d in t { SameTree(made, t); }
  }

  /** `displaced.parent.mkdir(...)` and `os.rename(destination, displaced)`. */
  method Displace(faults: nat -> bool, calls: nat, s: UndoState, reserved: Name, p: Path)
    returns (t: UndoState, ok: bool, calls': nat)
    requires Trees2(s) && Clean(p) && CleanName(reserved) && p in s.workspace
    ensures calls' >= calls && DisplaceResult(s, reserved, p, t, ok, FaultIn(faults, calls, calls'))
    ensures !ok ==> t == s || MakeParents(s.quarantine, Aside(reserved, p)) == Some(t.quarantine)
  {
    t, calls' := s, calls + 1;
    if faults(calls) { return t, false, calls'; }
    var made := MakeParents(s.quarantine, Aside(reserved, p));
    if made.None? { return t, false, calls'; }
    SetAsideTrees(s, reserved, p, made.value);
    t, calls' := s.(quarantine := made.value), calls + 2;
    if faults(calls + 1) { return t, false, calls'; }
    match Rename(t.workspace, p, t.quarantine, Aside(reserved, p))
    case RenameError =>
      RefusedMakesNothing(s.quarantine, Aside(reserved, p), made.value);
      return t, false, calls';
    case Renamed(w, q) => return UndoState(w, q, s.landed || Aside(reserved, p) in made.value), true, calls';
  }

  lemma PutBackTrees(s: UndoState, p: Path, w: Tree)
    requires Trees2(s) && Clean(p) && MakeParents(s.workspace, p) == Some(w)
    ensures IsTree(w)
    ensures var r := Rename(s.quarantine, p, w, p); r.Renamed? ==> IsTree(r.source) && IsTree(r.target)
  {
    MakeParentsKeepsTree(s.workspace, p);
    if Rename(s.quarantine, p, w, p).Renamed? { RenameKeepsTrees(s.quarantine, p, w, p); }
  }

  /** `destination.parent.mkdir(...)` and `os.rename(backup, destination)`. */
  method PutBackCalls(faults: nat -> bool, calls: nat, s: UndoState, p: Path)
    returns (t: UndoState, ok: bool, calls': nat)
    requires Trees2(s) && Clean(p) && p in s.quarantine
    ensures calls' >= calls && ReinstateResult(s, p, t, ok, FaultIn(faults, calls, calls'))
    ensures !ok ==> t == s || MakeParents(s.workspace, p) == Some(t.workspace)
  {
    t, calls' := s, calls + 1;
    if faults(calls) { return t, false, calls'; }
    var made := MakeParents(s.workspace, p);
    if made.None? { return t, false, calls'; }
    PutBackTrees(s, p, made.value);
    t, calls' := s.(workspace := made.value), calls + 2;
    if faults(calls + 1) { return t, false, calls'; }
    match Rename(t.quarantine, p, t.workspace, p)
    case RenameError =>
      RefusedMakesNothing(s.workspace, p, made.value);
      return t, false, calls';
    case Renamed(q, w) => return UndoState(w, q, s.landed || p in made.value), true, calls';
  }

  // ----- the turn of a rollback, which checks before it moves and goes on after an error

  function GuardedUninstall(s: UndoState, reserved: Name, op: CommitOperation): Option<UndoState>
    requires op.path != []
  {
    if op.installed && op.path in s.workspace then SetAsideOne(s, reserved, op.path) else Some(s)
  }

  function GuardedReinstate(s: UndoState, op: CommitOperation): Option<UndoState>
    requires op.path != []
  {
    if op.backupMoved && op.path in s.quarantine then PutBackOne(s, op.path) else Some(s)
  }

  /** A rollback looks before it moves: it passes over what is not there. */
  lemma GuardsPass(s: UndoState, reserved: Name, op: CommitOperation)
    requires op.path != [] && (op.installed ==> op.path !in s.workspace)
      && (op.backupMoved ==> op.path !in s.quarantine)
    ensures GuardedOne(s, reserved, op) == Some(s)
  {
  }

  /** One turn of the rollback loop without a failing call; None where an OSError is caught. */
  function GuardedOne(s: UndoState, reserved: Name, op: CommitOperation): Option<UndoState> {
    if op.path == [] then None else
      match GuardedUninstall(s, reserved, op)
      case None => None
      case Some(t) => GuardedReinstate(t, op)
  }

  /** The rollback loop over the first `k` operations; None once an error was recorded. */
  function GuardedFrom(s: UndoState, reserved: Name, ops: seq<CommitOperation>, k: nat): Option<UndoState>
    requires k <= |ops|
    decreases k
  {
    if k == 0 then Some(s) else
      match GuardedOne(s, reserved, ops[k - 1])
      case None => None
      case Some(t) => GuardedFrom(t, reserved, ops, k - 1)
  }

  /** A turn of the rollback loop without a failing call, error or not: a refused half changes
      nothing. */
  function TurnAfter(s: UndoState, reserved: Name, op: CommitOperation): UndoState {
    if op.path == [] then s else
      match GuardedUninstall(s, reserved, op)
      case None => s
      case Some(u) => match GuardedReinstate(u, op) case None => u case Some(t) => t
  }

  /** The rollback loop over the first `k` operations, which goes on after an error. */
  function LoopAfter(s: UndoState, reserved: Name, ops: seq<CommitOperation>, k: nat): UndoState
    requires k <= |ops|
    decreases k
  {
    if k == 0 then s else LoopAfter(TurnAfter(s, reserved, ops[k - 1]), reserved, ops, k - 1)
  }

  /** The errors that loop records, in its order. */
  function LoopErrors(s: UndoState, reserved: Name, ops: seq<CommitOperation>, k: nat): seq<Path>
    requires k <= |ops|
    decreases k
  {
    if k == 0 then [] else
      (if GuardedOne(s, reserved, ops[k - 1]).None? then [ops[k - 1].path] else [])
      + LoopErrors(TurnAfter(s, reserved, ops[k - 1]), reserved, ops, k - 1)
  }

  /** What the first `k` operations say was moved is where they say. */
  ghost predicate Present(s: UndoState, ops: seq<CommitOperation>, k: nat) {
    && k <= |ops|
    && (forall i | 0 <= i < k && ops[i].installed :: ops[i].path in s.workspace)
    && (forall i | 0 <= i < k && ops[i].backupMoved :: ops[i].path in s.quarantine)
  }

  /** With everything present the checks change nothing, as long as no rename hits anything. */
  lemma GuardsIdle(s: UndoState, reserved: Name, op: CommitOperation)
    requires Trees2(s) && Clean(op.path) && CleanName(reserved)
    requires op.installed ==> op.path in s.workspace
    requires op.backupMoved ==> op.path in s.quarantine
    ensures UndoOne(s, reserved, op) == GuardedOne(s, reserved, op)
      || (GuardedOne(s, reserved, op).Some? && GuardedOne(s, reserved, op).value.landed
        && (UndoOne(s, reserved, op).Some? ==> UndoOne(s, reserved, op).value.landed))
  {
    var u := Uninstall(s, reserved, op);
    assert u == GuardedUninstall(s, reserved, op);
    if u.Some? && !u.value.landed {
      UninstallTracks(s, reserved, op, u.value);
    }
    if u.Some? && u.value.landed {
      GuardedRemembers(u.value, op);
    }
  }

  lemma GuardedRemembers(u: UndoState, op: CommitOperation)
    requires op.path != [] && u.landed
    ensures GuardedReinstate(u, op).Some? ==> GuardedReinstate(u, op).value.landed
    ensures Reinstate(u, op).Some? ==> Reinstate(u, op).value.landed
  {
  }

  lemma {:induction false} GuardedCleanStart(reserved: Name, ops: seq<CommitOperation>, s: UndoState, k: nat)
    requires k <= |ops| && GuardedFrom(s, reserved, ops, k).Some? && !GuardedFrom(s, reserved, ops, k).value.landed
    ensures !s.landed
    decreases k
  {
    if k > 0 {
      GuardedCleanStart(reserved, ops, GuardedOne(s, reserved, ops[k - 1]).value, k - 1);
    }
  }

  /** A clean end: no error, and no rename landed on anything. */
  predicate CleanEnd(r: Option<UndoState>) {
    r.Some? && !r.value.landed
  }

  /** The first turn of a clean run is clean. */
  lemma {:induction false} FirstIsClean(ops: seq<CommitOperation>, reserved: Name, s: UndoState, k: nat)
    requires 0 < k <= |ops| && UndoFrom(s, reserved, ops, k).Some? && !UndoFrom(s, reserved, ops, k).value.landed
    ensures CleanEnd(UndoOne(s, reserved, ops[k - 1]))
  {
    CleanStart(reserved, ops, UndoOne(s, reserved, ops[k - 1]).value, k - 1);
  }

  lemma {:induction false} FirstGuardedIsClean(ops: seq<CommitOperation>, reserved: Name, s: UndoState, k: nat)
    requires 0 < k <= |ops| && GuardedFrom(s, reserved, ops, k).Some? && !GuardedFrom(s, reserved, ops, k).value.landed
    ensures CleanEnd(GuardedOne(s, reserved, ops[k - 1]))
  {
    GuardedCleanStart(reserved, ops, GuardedOne(s, reserved, ops[k - 1]).value, k - 1);
  }

  lemma {:induction false} CleanTurn(g: Setting, ops: seq<CommitOperation>, reserved: Name, s: UndoState, k: nat)
    requires GoodSetting(g) && OperationsFor(ops, g.roots) && CleanName(reserved)
    requires Trees2(s) && Present(s, ops, k) && 0 < k && CleanEnd(UndoOne(s, reserved, ops[k - 1]))
    ensures var t := UndoOne(s, reserved, ops[k - 1]).value; Trees2(t) && Present(t, ops, k - 1)
  {
    assert g.roots[k - 1] in g.roots && OperationFor(ops[k - 1], g.roots[k - 1]);
    var t := UndoOne(s, reserved, ops[k - 1]).value;
    TurnTracks(s, reserved, ops[k - 1], t);
    StillPresent(g, ops, reserved, s, t, k);
  }

  /** With everything present, one clean turn of either loop is a turn of the other. */
  lemma {:induction false} SameTurn(g: Setting, ops: seq<CommitOperation>, reserved: Name, s: UndoState, k: nat)
    requires GoodSetting(g) && OperationsFor(ops, g.roots) && CleanName(reserved)
    requires Trees2(s) && Present(s, ops, k) && 0 < k
    ensures CleanEnd(UndoOne(s, reserved, ops[k - 1])) || CleanEnd(GuardedOne(s, reserved, ops[k - 1])) ==>
      UndoOne(s, reserved, ops[k - 1]) == GuardedOne(s, reserved, ops[k - 1])
  {
    assert g.roots[k - 1] in g.roots && OperationFor(ops[k - 1], g.roots[k - 1]);
    GuardsIdle(s, reserved, ops[k - 1]);
  }

  /** The rollback loop and the restore loop have the same clean runs. */
  lemma {:induction false} GuardedIsUndo(g: Setting, ops: seq<CommitOperation>, reserved: Name, s: UndoState, k: nat)
    requires GoodSetting(g) && OperationsFor(ops, g.roots) && CleanName(reserved)
    requires Trees2(s) && Present(s, ops, k)
    ensures CleanEnd(UndoFrom(s, reserved, ops, k)) <==> CleanEnd(GuardedFrom(s, reserved, ops, k))
    ensures CleanEnd(UndoFrom(s, reserved, ops, k)) ==>
      UndoFrom(s, reserved, ops, k) == GuardedFrom(s, reserved, ops, k)
    decreases k
  {
    if k > 0 {
      if CleanEnd(UndoFrom(s, reserved, ops, k)) { FirstIsClean(ops, reserved, s, k); }
      if CleanEnd(GuardedFrom(s, reserved, ops, k)) { FirstGuardedIsClean(ops, reserved, s, k); }
      SameTurn(g, ops, reserved, s, k);
      var t := UndoOne(s, reserved, ops[k - 1]);
      if CleanEnd(t) {
        CleanTurn(g, ops, reserved, s, k);
        GuardedIsUndo(g, ops, reserved, t.value, k - 1);
      }
    }
  }

  lemma StillPresent(g: Setting, ops: seq<CommitOperation>, reserved: Name, s: UndoState, t: UndoState, k: nat)
    requires Antichain(g.roots) && OperationsFor(ops, g.roots) && 0 < k <= |ops|
    requires Present(s, ops, k) && TurnTracked(s, reserved, ops[k - 1], t)
    ensures Present(t, ops, k - 1)
  {
    forall i | 0 <= i < k - 1 ensures !Above(ops[k - 1].path, ops[i].path) {
      assert OperationFor(ops[k - 1], g.roots[k - 1]) && OperationFor(ops[i], g.roots[i]);
    }
  }

  lemma PresentAtStart(g: Setting, ops: seq<CommitOperation>, cells: seq<Cell>, reserved: Name, s: UndoState)
    requires OperationsFor(ops, g.roots) && UndoneFrom(ops, cells, |ops|) && UndoOk(g, cells, reserved, s)
    ensures Present(s, ops, |ops|) && Trees2(s)
  {
    forall i | 0 <= i < |ops|
      ensures ops[i].installed ==> ops[i].path in s.workspace
      ensures ops[i].backupMoved ==> ops[i].path in s.quarantine
    {
      assert OperationFor(ops[i], g.roots[i]) && g.roots[i] in g.roots && Above(ops[i].path, ops[i].path);
      assert cells[i] == CellOf(ops[i]);
      if ops[i].backupMoved { assert Look(s.quarantine, ops[i].path) == Look(g.base, ops[i].path); }
      if ops[i].installed { assert Look(s.workspace, ops[i].path) == Look(g.payload, ops[i].path); }
    }
  }

  /** Clean rollback, from whatever point the commit loop had reached: it ends without an error, without
      landing on anything and at the baseline, if and only if nothing moved is in the way. */
  lemma RollbackExact(g: Setting, ops: seq<CommitOperation>, cells: seq<Cell>, reserved: Name, s: UndoState)
    requires OperationsFor(ops, g.roots) && UndoneFrom(ops, cells, |ops|) && UndoOk(g, cells, reserved, s) && !s.landed
    ensures var r := GuardedFrom(s, reserved, ops, |ops|);
      Unblocked(ops, s.quarantine, reserved) <==> CleanEnd(r) && r.value.workspace == g.base
  {
    PresentAtStart(g, ops, cells, reserved, s);
    GuardedIsUndo(g, ops, reserved, s, |ops|);
    UndoExactly(g, ops, cells, reserved, s);
  }
}

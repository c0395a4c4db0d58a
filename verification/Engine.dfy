/** The commit engine: commit under the workspace lock, its rollback, and restore, as methods
    over mutable trees and a mutable journal. Every call into the system may fail, and the
    agent may change the worktree between any two of them. */
module Engine {
  import opened Paths
  import opened Trees
  import opened Manifests
  import opened Scans
  import opened Diffs
  import opened Layout
  import opened Records
  import opened Undo
  import opened UndoExact
  import opened UndoCalls
  import opened UndoOutcome
  import opened UndoTurns
  import opened Journal
  import opened Staging
  import opened RestoreSetting
  import opened Policy

  datatype SavedRecord = SavedRecord(ops: seq<CommitOperation>, status: CommitStatus)

  /** What a crash would leave behind. */
  datatype CrashPoint = CrashPoint(saved: seq<CommitOperation>, disk: Disk)

  /** The rename of an old subtree into quarantine; `hit` tells whether its place was taken. */
  method RenameToQuarantine(ghost g: Setting, ghost saved: seq<CommitOperation>, ghost ops: seq<CommitOperation>,
                            d: Disk, ghost k: nat, p: Path)
    returns (r: Option<Disk>, hit: bool)
    requires Shape(g, ops, d) && Journaled(saved, ops) && OnlyInFlight(ops, k) && k < |ops| && p == ops[k].path
    requires Untouched(ops[k]) && ops[k].beforeKind.Some? && saved[k].phase == MovingBackup
      && HasParent(d.quarantine, p)
    ensures r.Some? && !hit
    ensures var next := ops[k := BackedUp(ops[k])];
      Shape(g, next, r.value) && Journaled(saved, next) && OnlyInFlight(next, k) && CrashReadable(g, saved, r.value)
  {
    BackupMove(g, saved, ops, d, k);
    hit := p in d.quarantine;
    match Rename(d.workspace, p, d.quarantine, p)
    case RenameError => r := None;
    case Renamed(w, q) => r := Some(d.(workspace := w, quarantine := q));
  }

  /** The rename of a staged payload into its place in the workspace. */
  method RenameIntoPlace(ghost g: Setting, ghost saved: seq<CommitOperation>, ghost ops: seq<CommitOperation>, d: Disk,
                         ghost k: nat, p: Path)
    returns (r: Option<Disk>, hit: bool)
    requires Shape(g, ops, d) && Journaled(saved, ops) && OnlyInFlight(ops, k) && k < |ops| && p == ops[k].path
    requires !ops[k].installed && ops[k].afterKind.Some? && saved[k].phase == Installing
    requires ops[k].backupMoved <==> ops[k].beforeKind.Some?
    ensures r.Some? && !hit
    ensures var next := ops[k := InPlace(ops[k])];
      Shape(g, next, r.value) && Journaled(saved, next) && OnlyInFlight(next, k) && CrashReadable(g, saved, r.value)
  {
    InstallMove(g, saved, ops, d, k);
    hit := p in d.workspace;
    match Rename(d.apply, p, d.workspace, p)
    case RenameError => r := None;
    case Renamed(a, w) => r := Some(d.(apply := a, workspace := w));
  }

  /** One turn: a payload is copied from the worktree as this call finds it. */
  method StageTurn(faults: nat -> bool, agent: nat -> Tree, calls: nat, roots: seq<Change>, k: nat, apply: Tree,
                   ghost view: Tree)
    returns (next: Option<Tree>, calls': nat)
    requires Antichain(roots) && PathsClean(roots) && AgentReal(agent) && StagedTo(roots, k, apply) && k < |roots|
    ensures calls <= calls' <= calls + 1 && (next.Some? ==> StagedTo(roots, k + 1, next.value))
    ensures next.Some? && Calm(agent, calls, calls', view) && PayloadIs(roots, k, apply, view) ==>
      PayloadIs(roots, k + 1, next.value, view)
    ensures next.None? ==>
      FaultIn(faults, calls, calls') || (Calm(agent, calls, calls', view) ==> !CanStage(roots, view))
  {
    calls' := calls;
    if roots[k].after.Some? {
      calls' := calls + 1;
      if faults(calls) { return None, calls'; }
      next := StageRoot(roots, k, apply, agent(calls));
      assert Calm(agent, calls, calls', view) ==> agent(calls) == view;
    } else {
      next := StageRoot(roots, k, apply, map[]);
    }
  }

  /** The loop that copies every payload into the apply tree and plans the operations. */
  method StageAll(faults: nat -> bool, agent: nat -> Tree, calls: nat, roots: seq<Change>, ghost view: Tree)
    returns (apply: Tree, ops: seq<CommitOperation>, ok: bool, calls': nat)
    requires Antichain(roots) && PathsClean(roots) && AgentReal(agent)
    ensures calls <= calls' <= calls + |roots|
    ensures ok ==> ops == PlannedOps(roots) && StagedTo(roots, |roots|, apply)
    ensures ok && Calm(agent, calls, calls', view) ==> PayloadIs(roots, |roots|, apply, view)
    ensures !ok ==> FaultIn(faults, calls, calls') || (Calm(agent, calls, calls', view) ==> !CanStage(roots, view))
  {
    apply, ops, ok, calls' := map[], [], true, calls;
    var k := 0;
    while k < |roots|
      invariant 0 <= k <= |roots| == |PlannedOps(roots)| && calls <= calls' <= calls + k
      invariant |ops| == k && forall i | 0 <= i < k :: ops[i] == Planned(roots[i])
      invariant StagedTo(roots, k, apply)
      invariant Calm(agent, calls, calls', view) ==> PayloadIs(roots, k, apply, view)
    {
      var next, c := StageTurn(faults, agent, calls', roots, k, apply, view);
      calls' := c;
      if next.None? {
        return apply, ops, false, calls';
      }
      apply, ops, k := next.value, ops + [Planned(roots[k])], k + 1;
    }
    ok := true;
  }

  /** What a restore finds of a committed record: `after` is the disk the commit left, of which
      only the quarantine and the visible part of the workspace have to be untouched. */
  ghost predicate Restorable(g: Setting, ops: seq<CommitOperation>, after: Disk, s: UndoState, excluded: set<Name>) {
    && Shape(g, ops, after) && Progress(ops, |ops|) && VisibleRoots(g, excluded)
    && !s.landed && s.quarantine == after.quarantine
    && Visible(s.workspace, excluded) == Visible(after.workspace, excluded)
  }

  /** The moves of a restore. If no names clash, the layout of a restorable state stays orderly
      whatever fails and nothing is landed on. Without a failing call they bring the visible
      baseline back exactly if the undo returns, and without landing on anything exactly if no
      names clash. */
  method RestoreTree(faults: nat -> bool, calls: nat, s0: UndoState, ops: seq<CommitOperation>, excluded: set<Name>,
                     ghost g: Setting, ghost after: Disk)
    returns (s: UndoState, ok: bool, c: nat)
    requires Trees2(s0) && PathsFit(ops, excluded)
    ensures c >= calls && Trees2(s) && Hidden(s.workspace, excluded) == Hidden(s0.workspace, excluded)
    ensures Restorable(g, ops, after, s0, excluded) && NoClash(g.roots, RESTORE_CURRENT) ==>
      Accounted(Restored(g, s0.workspace, excluded), RESTORE_CURRENT, s, after.apply)
    ensures Restorable(g, ops, after, s0, excluded) && !FaultIn(faults, calls, c) ==>
      RestoreRight(g, ops, s0.quarantine, ok && Visible(s.workspace, excluded) == Visible(g.base, excluded), s.landed)
  {
    ghost var r := Restored(g, s0.workspace, excluded);
    if Restorable(g, ops, after, s0, excluded) {
      RestoreSetUp(g, ops, after, s0, excluded);
    }
    ghost var cells;
    s, ok, c, cells := RestoreLoop(faults, calls, s0, RESTORE_CURRENT, ops, excluded, r);
    if Restorable(g, ops, after, s0, excluded) {
      if NoClash(g.roots, RESTORE_CURRENT) { RestoreAccounted(r, ops, after, cells, s); }
      RestoredVisible(g, s0.workspace, s.workspace, excluded);
    }
  }

  /** How a restore went that no failing call disturbed: `good` when it gave the baseline back. */
  ghost predicate RestoreRight(g: Setting, ops: seq<CommitOperation>, q0: Tree, good: bool, landed: bool) {
    && (good <==> Returns(g, ops, RESTORE_CURRENT, q0))
    && (good && !landed <==> NoClash(g.roots, RESTORE_CURRENT))
  }

  lemma RestoreAccounted(r: Setting, ops: seq<CommitOperation>, after: Disk, cells: seq<Cell>, s: UndoState)
    requires UndoOk(r, cells, RESTORE_CURRENT, s) && SameApply(CellsOf(ops), cells) && !s.landed
    requires |CellsOf(ops)| == |r.roots| && ApplyOk(r, CellsOf(ops), after.apply)
    ensures Accounted(r, RESTORE_CURRENT, s, after.apply)
  {
    ApplyStays(r, CellsOf(ops), cells, after.apply);
    assert AccountedBy(r, cells, RESTORE_CURRENT, s, after.apply);
  }

  /** A restorable state starts the undo loop, which is exact. */
  lemma RestoreSetUp(g: Setting, ops: seq<CommitOperation>, after: Disk, s0: UndoState, excluded: set<Name>)
    requires Restorable(g, ops, after, s0, excluded) && Trees2(s0)
    ensures var r := Restored(g, s0.workspace, excluded);
      && |CellsOf(ops)| == |r.roots| && ApplyOk(r, CellsOf(ops), after.apply)
      && (NoClash(g.roots, RESTORE_CURRENT) ==> Unhindered(r, ops, CellsOf(ops), RESTORE_CURRENT, s0, |ops|))
    ensures var end := UndoFrom(s0, RESTORE_CURRENT, ops, |ops|);
      RestoreRight(g, ops, s0.quarantine, end.Some? && end.value.workspace == Restored(g, s0.workspace, excluded).base,
                   end.Some? && end.value.landed)
  {
    RestoreStartsHere(g, ops, after, s0, excluded);
    RestoreIsExact(Restored(g, s0.workspace, excluded), ops, after, s0);
    RestoredReturns(g, ops, s0.workspace, excluded, RESTORE_CURRENT, s0.quarantine);
  }

  lemma RestoreStartsHere(g: Setting, ops: seq<CommitOperation>, after: Disk, s0: UndoState, excluded: set<Name>)
    requires Restorable(g, ops, after, s0, excluded) && Trees2(s0)
    ensures RestoreStarts(Restored(g, s0.workspace, excluded), ops, after, s0) && !s0.landed && Progress(ops, |ops|)
    ensures GoodSetting(g) && OperationsFor(ops, g.roots) && VisibleRoots(g, excluded)
  {
    ReadyToRestore(g, ops, after, s0.workspace, excluded, RESTORE_CURRENT);
    SamePayload(g, Restored(g, s0.workspace, excluded), ops, after);
    assert s0 == UndoState(s0.workspace, after.quarantine, false);
  }

  lemma SamePayload(g: Setting, r: Setting, ops: seq<CommitOperation>, d: Disk)
    requires Shape(g, ops, d) && r.payload == g.payload && r.roots == g.roots
    ensures |CellsOf(ops)| == |r.roots| && ApplyOk(r, CellsOf(ops), d.apply)
  {
  }

  ghost predicate RestoreStarts(r: Setting, ops: seq<CommitOperation>, after: Disk, s0: UndoState) {
    && |CellsOf(ops)| == |r.roots|
    && OperationsFor(ops, r.roots) && UndoneFrom(ops, CellsOf(ops), |ops|)
    && UndoOk(r, CellsOf(ops), RESTORE_CURRENT, s0)
    && ApplyOk(r, CellsOf(ops), after.apply)
  }

  lemma RestoreIsExact(r: Setting, ops: seq<CommitOperation>, after: Disk, s0: UndoState)
    requires RestoreStarts(r, ops, after, s0) && Progress(ops, |ops|) && !s0.landed
    ensures var end := UndoFrom(s0, RESTORE_CURRENT, ops, |ops|);
      RestoreRight(r, ops, s0.quarantine, end.Some? && end.value.workspace == r.base, end.Some? && end.value.landed)
    ensures NoClash(r.roots, RESTORE_CURRENT) ==> Unhindered(r, ops, CellsOf(ops), RESTORE_CURRENT, s0, |ops|)
  {
    FinishedIsDone(r, ops);
    RestoreExact(r, ops, CellsOf(ops), RESTORE_CURRENT, s0);
    ReturnsExact(r, ops, CellsOf(ops), RESTORE_CURRENT, s0);
    DoneUnblocked(r, ops, CellsOf(ops), RESTORE_CURRENT, s0);
    if NoClash(r.roots, RESTORE_CURRENT) { UnblockedSplits(ops, s0.quarantine, RESTORE_CURRENT); }
  }

  /** Every subtree is where the cells say, and no rename has hit anything. */
  ghost predicate AccountedBy(g: Setting, cells: seq<Cell>, reserved: Name, s: UndoState, apply: Tree) {
    UndoOk(g, cells, reserved, s) && ApplyOk(g, cells, apply) && !s.landed
  }

  /** Every subtree is accounted for: module Undo says what that means for each entry. */
  ghost predicate Accounted(g: Setting, reserved: Name, s: UndoState, apply: Tree) {
    exists cells :: AccountedBy(g, cells, reserved, s, apply)
  }

  /** The moves of a rollback from whatever point the journal had reached. */
  method UndoTree(faults: nat -> bool, calls: nat, s0: UndoState, ops: seq<CommitOperation>, excluded: set<Name>,
                  ghost g: Setting, ghost d: Disk)
    returns (s: UndoState, errors: seq<Path>, c: nat)
    requires Shape(g, ops, d) && PathsFit(ops, excluded) && s0 == UndoState(d.workspace, d.quarantine, false)
    ensures c >= calls && Trees2(s) && Hidden(s.workspace, excluded) == Hidden(s0.workspace, excluded)
    ensures ops == [] ==> c == calls
    ensures Apart(g.roots, FAILED_NEW) ==> AccountedBut(g, ops, errors, s, d.apply)
    ensures LoopRight(g, ops, d.quarantine, errors, s.workspace, s.landed, !FaultIn(faults, calls, c))
  {
    ReadyToUndo(g, ops, d, FAILED_NEW);
    s, errors, c := RollbackLoop(faults, calls, s0, FAILED_NEW, ops, excluded, g);
    if Apart(g.roots, FAILED_NEW) { RollbackAccounted(g, ops, d, errors, s); }
    UndoIsExact(g, ops, d, s0);
    if errors == [] { SilentRollback(g, ops, CellsOf(ops), FAILED_NEW, s0, s); }
  }

  /** What a rollback meets is decided by what it found: whether an undisturbed undo returns, whether
      nothing moved is in the way, whether the loop recovers, whether no payload goes back inside a
      backup, and which turns are refused. */
  datatype Prospect = Prospect(comesBack: bool, free: bool, recovers: bool, unmixed: bool, refused: seq<Path>)

  ghost function Ahead(g: Setting, found: seq<CommitOperation>, quarantine: Tree): Prospect {
    Prospect(Returns(g, found, FAILED_NEW, quarantine), Unblocked(found, quarantine, FAILED_NEW),
             Recovers(g, found, FAILED_NEW, quarantine), Unmixed(g, found, FAILED_NEW),
             TurnedDown(found, Turns(g.payload, found, FAILED_NEW, quarantine, 0), |found|))
  }

  /** What the undo loop of a rollback did to what it found, with the errors it recorded; `calm` when
      no call failed. Without an error it gave the baseline back exactly if no payload
      went back inside a backup. Undisturbed it did both exactly if the undo returns, without
      landing on anything exactly if nothing moved was in the way, it left the baseline, error or
      not, exactly if the undo recovers, and its errors are the refused turns. */
  ghost predicate LoopRight(g: Setting, found: seq<CommitOperation>, quarantine: Tree, errors: seq<Path>, w: Tree,
                            landed: bool, calm: bool) {
    && (errors == [] ==> (w == g.base <==> Ahead(g, found, quarantine).unmixed))
    && (calm ==> (errors == [] && w == g.base <==> Ahead(g, found, quarantine).comesBack))
    && (calm ==> (errors == [] && w == g.base && !landed <==> Ahead(g, found, quarantine).free))
    && (calm ==> (w == g.base <==> Ahead(g, found, quarantine).recovers))
    && (calm ==> errors == Ahead(g, found, quarantine).refused)
  }

  /** After a rollback: every subtree is accounted for, and an operation without an error is undone. */
  ghost predicate AccountedBut(g: Setting, found: seq<CommitOperation>, errors: seq<Path>, s: UndoState, apply: Tree) {
    exists cells :: AccountedBy(g, cells, FAILED_NEW, s, apply) && UndoneBut(found, cells, 0, errors)
  }

  lemma RollbackAccounted(g: Setting, ops: seq<CommitOperation>, d: Disk, errors: seq<Path>, s: UndoState)
    requires Shape(g, ops, d) && InPlaces(g, ops, errors, FAILED_NEW, s) && !s.landed
    ensures AccountedBut(g, ops, errors, s, d.apply)
  {
    var cells :| PlacedBy(g, ops, cells, errors, FAILED_NEW, s);
    ApplyStays(g, CellsOf(ops), cells, d.apply);
    assert AccountedBy(g, cells, FAILED_NEW, s, d.apply);
  }

  /** The undisturbed loop on what a rollback finds. */
  lemma UndoIsExact(g: Setting, ops: seq<CommitOperation>, d: Disk, s0: UndoState)
    requires Shape(g, ops, d) && s0 == UndoState(d.workspace, d.quarantine, false)
    ensures var s := LoopAfter(s0, FAILED_NEW, ops, |ops|); var clean := GuardedFrom(s0, FAILED_NEW, ops, |ops|).Some?;
      && (clean ==> GuardedFrom(s0, FAILED_NEW, ops, |ops|) == Some(s))
      && (clean && s.workspace == g.base <==> Returns(g, ops, FAILED_NEW, d.quarantine))
      && (clean && s.workspace == g.base && !s.landed <==> Unblocked(ops, d.quarantine, FAILED_NEW))
      && (s.workspace == g.base <==> Recovers(g, ops, FAILED_NEW, d.quarantine))
      && LoopErrors(s0, FAILED_NEW, ops, |ops|) ==
           TurnedDown(ops, Turns(g.payload, ops, FAILED_NEW, d.quarantine, 0), |ops|)
  {
    ReadyToUndo(g, ops, d, FAILED_NEW);
    OutcomeExact(g, ops, CellsOf(ops), FAILED_NEW, s0);
    ReturnsExact(g, ops, CellsOf(ops), FAILED_NEW, s0);
    RollbackExact(g, ops, CellsOf(ops), FAILED_NEW, s0);
  }

  /** Without a clash among the roots nothing blocks a rollback, however far a commit got. */
  lemma NothingBlocks(g: Setting, ops: seq<CommitOperation>, d: Disk)
    requires Shape(g, ops, d)
    ensures NoClash(g.roots, FAILED_NEW) ==> Unblocked(ops, d.quarantine, FAILED_NEW)
  {
    ReadyToUndo(g, ops, d, FAILED_NEW);
    if NoClash(g.roots, FAILED_NEW) { NoClashUnblocked(g, ops, CellsOf(ops), d.quarantine, FAILED_NEW); }
  }

  /** How a rollback ends: with the baseline verified, with the error that it is incomplete, or
      with a failure of its own bookkeeping. */
  datatype RollbackEnd = Verified | Incomplete | Interrupted

  /** What the signed plan fixes, as far as the engine is concerned; the policy digest stands
      for the whole policy. */
  datatype PlanFacts = PlanFacts(baselineDigest: TreeDigest, stagedDigest: TreeDigest, policy: GuardPolicy,
                                 changes: seq<Change>, verdict: Verdict)

  /** The plan is what planning made of these two trees under this policy. */
  ghost predicate PlanFits(plan: PlanFacts, policy: GuardPolicy, rules: CaseRules, b: Tree, s: Tree) {
    && HasDigest(b, plan.baselineDigest) && HasDigest(s, plan.stagedDigest) && plan.policy == policy
    && plan.changes == TreeDiff(b, s)
    && plan.verdict == VerdictOf(policy, rules, EntriesOf(b), EntriesOf(s), plan.changes)
  }

  /** Changes and verdict of the plan are those of some tree with its staged digest, and there is only
      one. */
  ghost predicate Reproduced(plan: PlanFacts, rules: CaseRules, b: Tree) {
    exists s ::
      && HasDigest(b, plan.baselineDigest) && HasDigest(s, plan.stagedDigest) && plan.changes == TreeDiff(b, s)
      && plan.verdict == VerdictOf(plan.policy, rules, EntriesOf(b), EntriesOf(s), plan.changes)
  }

  /** Nothing but a failing call or the agent can keep this commit from succeeding. */
  ghost predicate Unobstructed(policy: GuardPolicy, rules: CaseRules, excluded: set<Name>, maxEntries: nat,
                               maxBytes: nat, plan: PlanFacts, workspace: Tree, view: Tree) {
    && IsTree(view) && PlanFits(plan, policy, rules, Visible(workspace, excluded), Visible(view, excluded))
    && !ScanRejects(workspace, excluded, {}, maxEntries, maxBytes)
    && !ScanRejects(view, excluded, {}, maxEntries, maxBytes)
    && CanStage(Roots(plan.changes), view)
  }

  /** How a commit under the lock ends: done; refused before anything in the workspace moved;
      failed with the baseline verified again; or failed with the rollback itself in trouble. */
  datatype CommitEnd = Committed | Refused | RolledBackEnd | RollbackIncomplete | RollbackInterrupted

  predicate Failed(end: CommitEnd) {
    end != Committed && end != Refused
  }

  /** The decisive calls of a commit attempt: the one that saves the record as committed, the first
      of the exception handler, with the journal and the quarantine it found and the paths of the
      operations whose undo went wrong, and the one by which the handler saves the record. A refusal
      ends at `handler`. */
  datatype Marks = Marks(sealed: Option<nat>, handler: nat, noted: nat, found: seq<CommitOperation>, quarantine: Tree,
                         errors: seq<Path>)

  /** The record was saved as committed, the call that followed failed, and the handler could not
      save the record again. */
  predicate LeftCommitted(faults: nat -> bool, marks: Marks) {
    marks.sealed.Some? && !faults(marks.sealed.value) && faults(marks.sealed.value + 1) && faults(marks.noted)
  }

  /** The save of the committed record went well. */
  predicate SealHolds(faults: nat -> bool, sealed: nat) {
    !faults(sealed) && !faults(sealed + 1)
  }

  /** What the saved record says is decided by these calls. */
  predicate RecordTells(faults: nat -> bool, marks: Marks, end: CommitEnd, saved: Option<SavedRecord>, calls: nat) {
    && (end == Committed ==>
      marks.sealed.Some? && SealHolds(faults, marks.sealed.value) && calls == marks.sealed.value + 2)
    && (Failed(end) ==> (saved.Some? && saved.value.status == CommittedStatus <==> LeftCommitted(faults, marks)))
  }

  /** How a rollback from `marks` went. When no call fails from there on it ends with the baseline
      verified exactly if the undo of what it found returns, and without landing on anything
      exactly if nothing moved was in the way. When none fails before `noted`, the workspace is the
      baseline exactly if the undo recovers. A record that says rolled_back stands over the
      baseline exactly if no payload went back inside a backup. */
  ghost predicate UndoneBy(faults: nat -> bool, g: Setting, marks: Marks, end: CommitEnd, w: Tree, landed: bool,
                           saved: Option<SavedRecord>, calls: nat) {
    && (!FaultIn(faults, marks.handler, calls) ==>
          (end == RolledBackEnd <==> Ahead(g, marks.found, marks.quarantine).comesBack))
    && (!FaultIn(faults, marks.handler, calls) ==>
          (end == RolledBackEnd && !landed <==> Ahead(g, marks.found, marks.quarantine).free))
    && (!FaultIn(faults, marks.handler, marks.noted) ==>
          (w == g.base <==> Ahead(g, marks.found, marks.quarantine).recovers))
    && (!FaultIn(faults, marks.handler, marks.noted) && Ahead(g, marks.found, marks.quarantine).free ==> w == g.base)
    && (saved.Some? && saved.value.status == RolledBackStatus ==>
      (w == g.base <==> Ahead(g, marks.found, marks.quarantine).unmixed))
    && (!FaultIn(faults, marks.handler, marks.noted) ==>
      marks.errors == Ahead(g, marks.found, marks.quarantine).refused)
    && RecordNotes(marks.found, marks.errors, saved)
  }

  /** A record saved after a rollback says rolled_back exactly if no error was recorded, and marks as
      rolled back exactly the operations without one. */
  predicate RecordNotes(found: seq<CommitOperation>, errors: seq<Path>, saved: Option<SavedRecord>) {
    saved.Some? && (saved.value.status == RolledBackStatus || saved.value.status == RollbackFailedStatus) ==>
      (saved.value.status == RolledBackStatus <==> errors == []) && NotedAs(found, errors, saved.value.ops)
  }

  predicate NotedAs(found: seq<CommitOperation>, errors: seq<Path>, ops: seq<CommitOperation>) {
    |ops| == |found| && forall i | 0 <= i < |found| ::
      ops[i] == found[i].(phase := if found[i].path in errors then found[i].phase else RolledBackPhase)
  }

  lemma HowItWent(faults: nat -> bool, g: Setting, marks: Marks, r: RollbackEnd, status: CommitStatus,
                  w: Tree, landed: bool, was: Option<SavedRecord>, saved: Option<SavedRecord>, calls: nat)
    requires marks.handler <= marks.noted <= calls && status == if marks.errors == [] then RolledBackStatus
      else RollbackFailedStatus
    requires LoopRight(g, marks.found, marks.quarantine, marks.errors, w, landed,
                       !FaultIn(faults, marks.handler, marks.noted))
    requires r == Verified ==> marks.errors == [] && w == g.base
    requires !FaultIn(faults, marks.noted, calls) && marks.errors == [] && w == g.base ==> r == Verified
    requires saved == was || (saved.Some? && saved.value.status == status)
    requires RecordNotes(marks.found, marks.errors, saved)
    requires WroteBefore(faults, marks.sealed, was)
    ensures UndoneBy(faults, g, marks, EndOf(r), w, landed, saved, calls)
  {
    FaultsJoin(faults, marks.handler, marks.noted, calls);
  }

  /** What the saved record says when a rollback that found `was` saved is over. */
  lemma RecordTold(faults: nat -> bool, marks: Marks, r: RollbackEnd, now: SavedRecord, was: Option<SavedRecord>,
                   saved: Option<SavedRecord>, calls: nat, excluded: set<Name>)
    requires now.status == RolledBackStatus || now.status == RollbackFailedStatus
    requires saved == if faults(marks.noted) then was else Some(now)
    requires (r != Interrupted ==> !faults(marks.noted)) && (r == Verified ==> now.status == RolledBackStatus)
    requires WroteBefore(faults, marks.sealed, was)
    requires PathsFit(now.ops, excluded) && (was.Some? ==> PathsFit(was.value.ops, excluded))
    ensures StatusFits(EndOf(r), saved) && RecordTells(faults, marks, EndOf(r), saved, calls)
    ensures saved.Some? ==> PathsFit(saved.value.ops, excluded)
  {
  }

  /** What a try block that failed has saved. */
  predicate WroteBefore(faults: nat -> bool, sealed: Option<nat>, was: Option<SavedRecord>) {
    && (was == None ==> sealed == None)
    && (was.Some? ==> was.value.status == if sealed.Some? && !faults(sealed.value) then CommittedStatus else Prepared)
    && (sealed.Some? ==> faults(sealed.value) || faults(sealed.value + 1))
  }

  function EndOf(r: RollbackEnd): CommitEnd {
    match r case Verified => RolledBackEnd case Incomplete => RollbackIncomplete case Interrupted => RollbackInterrupted
  }

  /** The calls of an attempt whose plan changes nothing. */
  predicate Timed(marks: Marks, end: CommitEnd, start: int) {
    && (end == Refused ==> marks.handler <= start + 6)
    && (end == Committed ==> marks.sealed.Some?)
    && (end != Refused && marks.sealed.Some? ==> marks.sealed.value == start + 9)
    && (Failed(end) ==>
      marks.noted == marks.handler <= start + 11 && (marks.sealed.None? ==> marks.handler <= start + 9))
  }

  /** What the saved record says after a commit attempt. It may claim a commit that was undone
      only if the rollback could not save the record again. */
  predicate StatusFits(end: CommitEnd, saved: Option<SavedRecord>) {
    match end
    case Committed => saved.Some? && saved.value.status == CommittedStatus
    case Refused => saved == None
    case RolledBackEnd => saved.Some? && saved.value.status == RolledBackStatus
    case RollbackIncomplete => saved.Some? && saved.value.status != CommittedStatus
      && saved.value.status != RestoredStatus
    case RollbackInterrupted => saved.Some? ==> saved.value.status != RestoredStatus
  }

  predicate SamePaths(a: seq<CommitOperation>, b: seq<CommitOperation>) {
    |a| == |b| && forall i | 0 <= i < |a| :: a[i].path == b[i].path
  }

  lemma PathsFitSame(a: seq<CommitOperation>, b: seq<CommitOperation>, excluded: set<Name>)
    ensures (SamePaths(a, b) || Journaled(a, b)) && PathsFit(b, excluded) ==> PathsFit(a, excluded)
  {
    if Journaled(a, b) {
      assert forall i | 0 <= i < |a| :: Behind(a[i], b[i]) && a[i].path == b[i].path;
    }
  }

  class CommitEngine {
    const policy: GuardPolicy
    const rules: CaseRules
    const excluded: set<Name>
    const maxEntries: nat
    const maxBytes: nat
    /** Whether the n-th call into the system fails. */
    const faults: nat -> bool
    /** The worktree as the n-th call finds it. */
    const agent: nat -> Tree

    var calls: nat
    var disk: Disk
    var ops: seq<CommitOperation>
    var status: CommitStatus
    var saved: Option<SavedRecord>

    /** Whether a rename ever hit an existing path; an observation, not part of the record. */
    var landed: bool

    /** The setting of the commit in progress and every state a crash could leave. */
    ghost var g: Setting
    ghost var history: seq<CrashPoint>

    /** The engine for one commit or, given the operations of a record, for one restore. */
    constructor (disk: Disk, ops: seq<CommitOperation>, policy: GuardPolicy, rules: CaseRules, excluded: set<Name>,
                 maxEntries: nat, maxBytes: nat, faults: nat -> bool, calls: nat, agent: nat -> Tree, ghost g: Setting)
      ensures this.policy == policy && this.rules == rules && this.excluded == excluded
      ensures this.maxEntries == maxEntries && this.maxBytes == maxBytes && this.faults == faults && this.agent == agent
      ensures this.disk == disk && this.ops == ops && this.g == g
      ensures this.calls == calls && saved == None && history == [] && !landed
    {
      this.policy, this.rules := policy, rules;
      this.excluded, this.maxEntries, this.maxBytes := excluded, maxEntries, maxBytes;
      this.faults, this.agent := faults, agent;
      this.calls, this.disk, this.ops, this.g := calls, disk, ops, g;
      status, saved, history, landed := Prepared, None, [], false;
    }

    /** Workspace and quarantine as an undo sees them. */
    function OnDisk(): UndoState
      reads `disk, `landed
    {
      UndoState(disk.workspace, disk.quarantine, landed)
    }

    /** One call into the system. */
    method Call() returns (ok: bool)
      modifies `calls
      ensures ok == !faults(old(calls)) && calls == old(calls) + 1
    {
      ok := !faults(calls);
      calls := calls + 1;
    }

    /** Scans one root; None where scan_tree raises. */
    method Scan(t: Tree) returns (m: Option<Manifest>)
      requires IsTree(t)
      modifies `calls
      ensures calls == old(calls) + 1
      ensures m.Some? ==> IsManifestOf(m.value, Visible(t, excluded)) && !faults(old(calls))
      ensures m.None? <==> faults(old(calls)) || ScanRejects(t, excluded, {}, maxEntries, maxBytes)
    {
      m := ScanAt(faults, calls, t, excluded, maxEntries, maxBytes);
      calls := calls + 1;
    }

    // ----- commit: the journalled moves

    /** The disk is as the flags say, the saved journal is at most one rename behind, every
        crash so far would have been readable, and no rename has hit anything. */
    ghost predicate Moving()
      reads `g, `ops, `disk, `saved, `history, `landed, `status
    {
      && Shape(g, ops, disk)
      && saved.Some? && Journaled(saved.value.ops, ops) && Underway(saved.value.status, status)
      && CrashesReadable()
      && !landed
    }

    /** Every crash so far would have left a record from which the true flags follow. */
    ghost predicate CrashesReadable()
      reads `g, `history
    {
      forall h | h in history :: CrashReadable(g, h.saved, h.disk)
    }

    /** The record is saved as prepared, or as committed with the record in memory. */
    predicate Underway(written: CommitStatus, now: CommitStatus) {
      (now == Prepared || now == CommittedStatus) && (written == Prepared || written == now)
    }

    /** _save_commit: the write may fail before or after the record is in place. */
    method Save() returns (ok: bool)
      requires Moving() && exists k: nat :: OnlyInFlight(ops, k)
      modifies `calls, `saved, `history
      ensures Moving() && calls == old(calls) + (if faults(old(calls)) then 1 else 2)
      ensures saved == if faults(old(calls)) then old(saved) else Some(SavedRecord(ops, status))
      ensures ok <==> !faults(old(calls)) && !faults(old(calls) + 1)
      ensures !ok ==> FaultIn(faults, old(calls), calls)
    {
      ok := Call();
      if !ok { return; }
      saved := Some(SavedRecord(ops, status));
      InferenceIsRight(g, ops, ops, disk);
      history := history + [CrashPoint(ops, disk)];
      ok := Call();
    }

    method SetPhase(k: nat, phase: Phase)
      requires Moving() && k < |ops| && OnlyInFlight(ops, k)
      requires phase == MovingBackup ==> !ops[k].backupMoved && ops[k].beforeKind.Some?
      requires phase == Installing ==> !ops[k].installed && ops[k].afterKind.Some?
      modifies `ops
      ensures ops == old(ops)[k := old(ops)[k].(phase := phase)]
      ensures Moving() && OnlyInFlight(ops, k)
    {
      PhaseKeepsShape(g, ops, disk, k, phase);
      ops := ops[k := ops[k].(phase := phase)];
    }

    method MakeBackupParents(k: nat) returns (ok: bool)
      requires Moving() && k < |ops| && ops[k].beforeKind.Some? && Untouched(ops[k])
      modifies `calls, `disk, `history
      ensures Moving() && calls == old(calls) + 1
      ensures ok ==> HasParent(disk.quarantine, ops[k].path)
      ensures !ok ==> FaultIn(faults, old(calls), calls)
    {
      hide CrashReadable, Shape;
      ok := Call();
      if !ok { return; }
      BackupRoom(g, saved.value.ops, ops, disk, k);
      match MakeParents(disk.quarantine, ops[k].path)
      case None => ok := false;
      case Some(q) =>
        disk := disk.(quarantine := q);
        history := history + [CrashPoint(saved.value.ops, disk)];
    }

    /** The rename into quarantine, with the flag set before anything else can raise. */
    method MoveToQuarantine(k: nat) returns (ok: bool)
      requires Moving() && k < |ops| && OnlyInFlight(ops, k) && ops[k].beforeKind.Some? && Untouched(ops[k])
      requires HasParent(disk.quarantine, ops[k].path) && saved.value.ops[k].phase == MovingBackup
      modifies `calls, `disk, `ops, `history, `landed
      ensures Moving() && calls == old(calls) + 1
      ensures ok ==> OnlyInFlight(ops, k) && ops == old(ops)[k := BackedUp(old(ops)[k])]
      ensures ok ==> ops[k].backupMoved && ops[k].phase == BackupMoved
      ensures !ok ==> ops == old(ops) && FaultIn(faults, old(calls), calls)
    {
      hide Shape, CrashReadable, HasParent;
      ok := Call();
      if !ok { return; }
      var hit: bool;
      var moved: Option<Disk>;
      moved, hit := RenameToQuarantine(g, saved.value.ops, ops, disk, k, ops[k].path);
      landed := landed || hit;
      if moved.None? { return false; }
      disk := moved.value;
      ops := ops[k := BackedUp(ops[k])];
      history := history + [CrashPoint(saved.value.ops, disk)];
    }

    method MoveIntoPlace(k: nat) returns (ok: bool)
      requires Moving() && k < |ops| && OnlyInFlight(ops, k) && ops[k].afterKind.Some? && !ops[k].installed
      requires (ops[k].backupMoved <==> ops[k].beforeKind.Some?) && saved.value.ops[k].phase == Installing
      modifies `calls, `disk, `ops, `history, `landed
      ensures Moving() && calls == old(calls) + 1
      ensures ok ==> OnlyInFlight(ops, k) && ops == old(ops)[k := InPlace(old(ops)[k])]
      ensures ok ==> ops[k].installed && ops[k].phase == InstalledPhase
      ensures !ok ==> ops == old(ops) && FaultIn(faults, old(calls), calls)
    {
      hide Shape, CrashReadable, HasParent;
      ok := Call();
      if !ok { return; }
      var hit: bool;
      var moved: Option<Disk>;
      moved, hit := RenameIntoPlace(g, saved.value.ops, ops, disk, k, ops[k].path);
      landed := landed || hit;
      if moved.None? { return false; }
      disk := moved.value;
      ops := ops[k := InPlace(ops[k])];
      history := history + [CrashPoint(saved.value.ops, disk)];
    }

    /** `destination.parent.mkdir(parents=True, exist_ok=True)` before an install: it finds every
        directory in place. */
    method MakeDestinationParents(k: nat) returns (ok: bool)
      requires Moving() && k < |ops| && ops[k].afterKind.Some? && !ops[k].installed
      requires ops[k].backupMoved <==> ops[k].beforeKind.Some?
      modifies `calls, `disk
      ensures Moving() && disk == old(disk) && calls == old(calls) + 1
      ensures !ok ==> FaultIn(faults, old(calls), calls)
    {
      ok := Call();
      if !ok { return; }
      InstallRoom(g, ops, disk, k);
      match MakeParents(disk.workspace, ops[k].path)
      case None => ok := false;
      case Some(w) => disk := disk.(workspace := w);
    }

    /** fsync_directory, which moves nothing. */
    method Sync() returns (ok: bool)
      modifies `calls
      ensures calls == old(calls) + 1 && (!ok ==> FaultIn(faults, old(calls), calls))
    {
      ok := Call();
    }

    /** The first half of one turn: the old subtree goes to quarantine. */
    method BackupStep(k: nat) returns (ok: bool)
      requires Moving() && k < |ops| && Progress(ops, k) && OnlyInFlight(ops, k)
      modifies `calls, `disk, `ops, `saved, `history, `landed
      ensures Moving() && calls >= old(calls)
      ensures ok ==> OnlyInFlight(ops, k) && |ops| == |old(ops)| && ops == old(ops)[k := ops[k]]
      ensures ok ==>
        OperationFor(ops[k], g.roots[k]) && (ops[k].backupMoved <==> ops[k].beforeKind.Some?) && !ops[k].installed
      ensures ok && old(saved == Some(SavedRecord(ops, status))) ==> saved == Some(SavedRecord(ops, status))
      ensures !ok ==> FaultIn(faults, old(calls), calls)
    {
      hide CrashReadable;
      assert OperationFor(ops[k], g.roots[k]);
      if ops[k].beforeKind.None? { return true; }
      TargetThere(g, ops, disk, k);
      if ops[k].path !in disk.workspace { return false; }
      ok := AnnounceBackup(k);
      if !ok { return; }
      ok := PerformBackup(k);
    }

    /** Makes room in quarantine and journals the coming rename. */
    method AnnounceBackup(k: nat) returns (ok: bool)
      requires Moving() && k < |ops| && OnlyInFlight(ops, k) && ops[k].beforeKind.Some? && Untouched(ops[k])
      modifies `calls, `disk, `ops, `saved, `history
      ensures Moving() && calls >= old(calls)
      ensures ok ==> ops == old(ops)[k := old(ops)[k].(phase := MovingBackup)] && OnlyInFlight(ops, k)
      ensures ok ==> HasParent(disk.quarantine, ops[k].path) && saved == Some(SavedRecord(ops, status))
      ensures !ok ==> FaultIn(faults, old(calls), calls)
    {
      ok := MakeBackupParents(k);
      if !ok { return; }
      SetPhase(k, MovingBackup);
      ok := Save();
    }

    /** The rename, two directory syncs, and the journal entry that it is done. */
    method PerformBackup(k: nat) returns (ok: bool)
      requires Moving() && k < |ops| && OnlyInFlight(ops, k) && ops[k].beforeKind.Some? && Untouched(ops[k])
      requires HasParent(disk.quarantine, ops[k].path) && ops[k].phase == MovingBackup
        && saved == Some(SavedRecord(ops, status))
      modifies `calls, `disk, `ops, `saved, `history, `landed
      ensures Moving() && calls >= old(calls)
      ensures ok ==> ops == old(ops)[k := BackedUp(old(ops)[k])] && OnlyInFlight(ops, k)
      ensures ok ==> saved == Some(SavedRecord(ops, status))
      ensures !ok ==> FaultIn(faults, old(calls), calls)
    {
      ok := MoveToQuarantine(k);
      if !ok { return; }
      ok := Sync();
      if !ok { return; }
      ok := Sync();
      if !ok { return; }
      ok := Save();
    }

    /** The second half: the payload takes its place. */
    method InstallStep(k: nat) returns (ok: bool)
      requires Moving() && k < |ops| && OnlyInFlight(ops, k) && OperationFor(ops[k], g.roots[k])
      requires (ops[k].backupMoved <==> ops[k].beforeKind.Some?) && !ops[k].installed
      modifies `calls, `disk, `ops, `saved, `history, `landed
      ensures Moving() && calls >= old(calls)
      ensures ok ==> OnlyInFlight(ops, k) && |ops| == |old(ops)| && ops == old(ops)[k := ops[k]]
      ensures ok ==> Finished(ops[k])
      ensures ok && old(saved == Some(SavedRecord(ops, status))) ==> saved == Some(SavedRecord(ops, status))
      ensures !ok ==> FaultIn(faults, old(calls), calls)
    {
      if ops[k].afterKind.None? { return true; }
      ok := MakeDestinationParents(k);
      if !ok { return; }
      ok := PerformInstall(k);
    }

    /** Journals the coming rename. */
    method AnnounceInstall(k: nat) returns (ok: bool)
      requires Moving() && k < |ops| && OnlyInFlight(ops, k) && ops[k].afterKind.Some? && !ops[k].installed
      modifies `calls, `ops, `saved, `history
      ensures Moving() && calls >= old(calls)
      ensures ok ==> ops == old(ops)[k := old(ops)[k].(phase := Installing)] && OnlyInFlight(ops, k)
      ensures ok ==> saved == Some(SavedRecord(ops, status))
      ensures !ok ==> FaultIn(faults, old(calls), calls)
    {
      SetPhase(k, Installing);
      ok := Save();
    }

    /** Journals the coming rename, performs it, and journals that it is done. */
    method PerformInstall(k: nat) returns (ok: bool)
      requires Moving() && k < |ops| && OnlyInFlight(ops, k) && ops[k].afterKind.Some? && !ops[k].installed
      requires ops[k].backupMoved <==> ops[k].beforeKind.Some?
      modifies `calls, `disk, `ops, `saved, `history, `landed
      ensures Moving() && calls >= old(calls)
      ensures ok ==> ops == old(ops)[k := InPlace(old(ops)[k])] && OnlyInFlight(ops, k)
      ensures ok ==> saved == Some(SavedRecord(ops, status))
      ensures !ok ==> FaultIn(faults, old(calls), calls)
    {
      hide CrashReadable, Shape;
      ok := AnnounceInstall(k);
      if ok { ok := InstallAnnounced(k); }
    }

    /** The rename, the directory sync, and the journal entry that it is done. */
    method InstallAnnounced(k: nat) returns (ok: bool)
      requires Moving() && k < |ops| && OnlyInFlight(ops, k) && ops[k].afterKind.Some? && !ops[k].installed
      requires (ops[k].backupMoved <==> ops[k].beforeKind.Some?) && saved.value.ops[k].phase == Installing
      modifies `calls, `disk, `ops, `saved, `history, `landed
      ensures Moving() && calls >= old(calls)
      ensures ok ==> ops == old(ops)[k := InPlace(old(ops)[k])] && OnlyInFlight(ops, k)
      ensures ok ==> saved == Some(SavedRecord(ops, status))
      ensures !ok ==> FaultIn(faults, old(calls), calls)
    {
      ok := MoveIntoPlace(k);
      if !ok { return; }
      ok := Sync();
      if !ok { return; }
      ok := Save();
    }

    /** One turn of the loop. */
    method MoveOne(k: nat) returns (ok: bool)
      requires Moving() && k < |ops| && Progress(ops, k) && OnlyInFlight(ops, k)
      modifies `calls, `disk, `ops, `saved, `history, `landed
      ensures Moving() && calls >= old(calls)
      ensures ok ==> OnlyInFlight(ops, k) && |ops| == |old(ops)| && ops == old(ops)[k := ops[k]] && Finished(ops[k])
      ensures ok && old(saved == Some(SavedRecord(ops, status))) ==> saved == Some(SavedRecord(ops, status))
      ensures !ok ==> FaultIn(faults, old(calls), calls)
    {
      hide Shape, CrashReadable, Progress;
      ok := BackupStep(k);
      if !ok { return; }
      ok := InstallStep(k);
    }

    /** The loop over the operations. */
    method MoveAll() returns (ok: bool)
      requires Moving() && Progress(ops, 0) && OnlyInFlight(ops, 0) && saved == Some(SavedRecord(ops, status))
      requires forall i | 0 <= i < |ops| :: !InFlight(ops[i])
      modifies `calls, `disk, `ops, `saved, `history, `landed
      ensures Moving() && calls >= old(calls)
      ensures ok ==> Progress(ops, |ops|) && OnlyInFlight(ops, 0)
      ensures ok ==> saved == Some(SavedRecord(ops, status))
      ensures old(ops) == [] ==> ok && calls == old(calls)
      ensures !ok ==> FaultIn(faults, old(calls), calls)
    {
      hide CrashReadable, Shape;
      var k := 0;
      while k < |ops|
        invariant 0 <= k <= |ops| == |old(ops)| && Moving() && Progress(ops, k) && calls >= old(calls)
        invariant forall i | 0 <= i < |ops| :: !InFlight(ops[i]) && Behind(ops[i], ops[i])
        invariant saved == Some(SavedRecord(ops, status))
        invariant old(ops) == [] ==> calls == old(calls)
      {
        ok := MoveOne(k);
        if !ok { return; }
        k := k + 1;
      }
      return true;
    }

    // ----- commit: staging

    /** Copies every payload into the apply tree and writes the planned operations. */
    method StagePayloads(roots: seq<Change>, ghost view: Tree) returns (ok: bool)
      requires Antichain(roots) && PathsClean(roots) && disk.apply == map[] && AgentReal(agent)
      modifies `calls, `disk, `ops
      ensures disk == old(disk).(apply := disk.apply) && old(calls) <= calls <= old(calls) + |roots|
      ensures ok ==> ops == PlannedOps(roots) && StagedTo(roots, |roots|, disk.apply)
      ensures ok && Calm(agent, old(calls), calls, view) ==> PayloadIs(roots, |roots|, disk.apply, view)
      ensures !ok ==>
        FaultIn(faults, old(calls), calls) || (Calm(agent, old(calls), calls, view) ==> !CanStage(roots, view))
    {
      var apply;
      apply, ops, ok, calls := StageAll(faults, agent, calls, roots, view);
      disk := disk.(apply := apply);
    }

    // ----- commit: the final check

    /** The final scan, and the record marked committed; `sealed` is the first call of its save. */
    method Finish(stagedDigest: TreeDigest) returns (ok: bool, ghost sealed: Option<nat>)
      requires Moving() && Progress(ops, |ops|) && OnlyInFlight(ops, 0) && status == Prepared
      modifies `calls, `ops, `status, `saved, `history
      ensures Moving() && calls > old(calls) && Progress(ops, |ops|)
      ensures ok ==> HasDigest(Visible(disk.workspace, excluded), stagedDigest)
      ensures ok ==> saved == Some(SavedRecord(ops, CommittedStatus))
      ensures ok ==> AllComplete(ops)
      ensures SealedBy(ok, sealed) && (sealed == None || sealed == Some(old(calls) + 1))
        && (sealed == None ==> calls == old(calls) + 1)
      ensures !ok ==>
        || FaultIn(faults, old(calls), calls)
        || ScanRejects(disk.workspace, excluded, {}, maxEntries, maxBytes)
        || !HasDigest(Visible(disk.workspace, excluded), stagedDigest)
    {
      sealed := None;
      var m := Scan(disk.workspace);
      if m.None? { return false, sealed; }
      if m.value.digest != stagedDigest { return false, sealed; }
      sealed := Some(calls);
      ok := Seal();
    }

    /** The record marked committed, and saved. */
    method Seal() returns (ok: bool)
      requires Moving() && Progress(ops, |ops|) && OnlyInFlight(ops, 0) && status == Prepared
      modifies `calls, `ops, `status, `saved, `history
      ensures Moving() && Progress(ops, |ops|) && calls == old(calls) + (if faults(old(calls)) then 1 else 2)
      ensures AllComplete(ops)
      ensures saved == if faults(old(calls)) then old(saved) else Some(SavedRecord(ops, CommittedStatus))
      ensures ok <==> !faults(old(calls)) && !faults(old(calls) + 1)
      ensures !ok ==> FaultIn(faults, old(calls), calls)
    {
      hide Shape, CrashReadable;
      status := CommittedStatus;
      CompleteKeepsShape(g, ops, disk, saved.value.ops);
      ops := Completed(ops);
      ok := Save();
    }

    /** The record was to be saved as committed by call `sealed`, the last but one if that works. */
    ghost predicate SealedBy(ok: bool, sealed: Option<nat>)
      reads `saved, `calls
    {
      && (ok ==> sealed.Some?) && saved.Some?
      && saved.value.status == (if sealed.Some? && !faults(sealed.value) then CommittedStatus else Prepared)
      && (sealed.Some? ==> (ok <==> !faults(sealed.value) && !faults(sealed.value + 1)))
      && (sealed.Some? ==> calls == sealed.value + (if faults(sealed.value) then 1 else 2))
    }

    // ----- rollback

    /** _rollback_failed_commit, called by the exception handler. How it goes is decided by what
        the handler found and by which of its calls fail; the saved record is that of the try
        block if the save of the handler fails. */
    method Rollback(baselineDigest: TreeDigest, ghost sealed: Option<nat>) returns (end: CommitEnd, ghost marks: Marks)
      requires Shape(g, ops, disk) && !landed && HasDigest(Visible(g.base, excluded), baselineDigest)
      requires !ScanRejects(g.base, excluded, {}, maxEntries, maxBytes)
        && Hidden(disk.workspace, excluded) == Hidden(g.base, excluded)
      requires WroteBefore(faults, sealed, saved) && PathsFit(ops, excluded)
        && (saved.Some? ==> PathsFit(saved.value.ops, excluded))
      modifies `calls, `disk, `ops, `status, `saved, `landed
      ensures marks == Marks(sealed, old(calls), marks.noted, old(ops), old(disk.quarantine), marks.errors)
      ensures old(calls) <= marks.noted < calls && Failed(end) && (old(ops) == [] ==> marks.noted == old(calls))
      ensures Hidden(disk.workspace, excluded) == Hidden(g.base, excluded) && IsTree(disk.workspace)
        && IsTree(disk.quarantine)
      ensures end == RolledBackEnd ==> disk.workspace == g.base
      ensures StatusFits(end, saved) && (saved.Some? ==> PathsFit(saved.value.ops, excluded))
      ensures RecordTells(faults, marks, end, saved, calls)
        && UndoneBy(faults, g, marks, end, disk.workspace, landed, saved, calls)
      ensures Apart(g.roots, FAILED_NEW) ==> AccountedBut(g, marks.found, marks.errors, OnDisk(), disk.apply)
    {
      hide Shape, LoopRight, NoClash, Apart, UndoneBy, AccountedBut, RecordTells, StatusFits, NotedAs;
      marks := Marks(sealed, calls, calls, ops, disk.quarantine, []);
      var complete;
      ghost var errors;
      complete, errors := UndoMoves();
      marks := marks.(noted := calls, errors := errors);
      end := Conclude(complete, baselineDigest, marks);
    }

    /** After the undo loop: how the rollback ends, and what that says. */
    method Conclude(complete: bool, baselineDigest: TreeDigest, ghost marks: Marks) returns (end: CommitEnd)
      requires IsTree(disk.workspace) && Hidden(disk.workspace, excluded) == Hidden(g.base, excluded)
      requires HasDigest(Visible(g.base, excluded), baselineDigest)
        && !ScanRejects(g.base, excluded, {}, maxEntries, maxBytes)
      requires marks.handler <= marks.noted == calls && (complete <==> marks.errors == [])
      requires status == (if complete then RolledBackStatus else RollbackFailedStatus)
        && NotedAs(marks.found, marks.errors, ops)
      requires LoopRight(g, marks.found, marks.quarantine, marks.errors, disk.workspace, landed,
                         !FaultIn(faults, marks.handler, calls))
      requires WroteBefore(faults, marks.sealed, saved) && PathsFit(ops, excluded)
        && (saved.Some? ==> PathsFit(saved.value.ops, excluded))
      modifies `calls, `saved
      ensures calls > old(calls) && Failed(end) && (end == RolledBackEnd ==> disk.workspace == g.base)
      ensures StatusFits(end, saved) && (saved.Some? ==> PathsFit(saved.value.ops, excluded))
      ensures RecordTells(faults, marks, end, saved, calls)
        && UndoneBy(faults, g, marks, end, disk.workspace, landed, saved, calls)
    {
      hide LoopRight, UndoneBy, NotedAs, Hidden, HasDigest, ScanRejects, RecordTells;
      ghost var was := saved;
      var r := NoteRollback(complete, baselineDigest);
      HowItWent(faults, g, marks, r, status, disk.workspace, landed, was, saved, calls);
      RecordTold(faults, marks, r, SavedRecord(ops, status), was, saved, calls, excluded);
      end := EndOf(r);
    }

    lemma SameTreeByDigest(w: Tree, d: TreeDigest)
      requires HasDigest(Visible(g.base, excluded), d) && HasDigest(Visible(w, excluded), d)
        && Hidden(w, excluded) == Hidden(g.base, excluded)
      ensures w == g.base
    {
      DigestDeterminesTree(Visible(w, excluded), Visible(g.base, excluded), d);
      WholeTree(w, g.base, excluded);
    }

    /** What follows the undo loop: the record, the scan if no error was recorded, the audit event. */
    method NoteRollback(complete: bool, baselineDigest: TreeDigest) returns (end: RollbackEnd)
      requires IsTree(disk.workspace) && Hidden(disk.workspace, excluded) == Hidden(g.base, excluded)
      requires HasDigest(Visible(g.base, excluded), baselineDigest)
        && !ScanRejects(g.base, excluded, {}, maxEntries, maxBytes)
      modifies `calls, `saved
      ensures calls > old(calls) && saved == if faults(old(calls)) then old(saved) else Some(SavedRecord(ops, status))
      ensures end != Interrupted ==> !faults(old(calls))
      ensures end == Verified ==> complete && disk.workspace == g.base
      ensures !FaultIn(faults, old(calls), calls) && complete && disk.workspace == g.base ==> end == Verified
    {
      hide ScanRejects, IsTree, Hidden, Visible, IsManifestOf;
      BaselineScans(disk.workspace, g.base, baselineDigest);
      var ok := Call();
      if !ok { return Interrupted; }
      saved := Some(SavedRecord(ops, status));
      ok := Call();
      if !ok { return Interrupted; }
      end := Incomplete;
      if complete {
        var m := Scan(disk.workspace);
        if m.None? { return Interrupted; }
        if m.value.digest == baselineDigest {
          SameTreeByDigest(disk.workspace, baselineDigest);
          end := Verified;
        }
      }
      ok := Call();
      if !ok { end := Interrupted; }
    }

    /** The undo loop of the rollback, with the status it leaves in the record. */
    method UndoMoves() returns (complete: bool, ghost errors: seq<Path>)
      requires Shape(g, ops, disk) && !landed && PathsFit(ops, excluded)
      modifies `calls, `disk, `ops, `status, `landed
      ensures calls >= old(calls) && (old(ops) == [] ==> calls == old(calls))
      ensures IsTree(disk.workspace) && IsTree(disk.quarantine) && disk.apply == old(disk.apply)
      ensures Hidden(disk.workspace, excluded) == Hidden(old(disk.workspace), excluded)
      ensures PathsFit(ops, excluded) && status == if complete then RolledBackStatus else RollbackFailedStatus
      ensures (complete <==> errors == []) && NotedAs(old(ops), errors, ops)
      ensures Apart(g.roots, FAILED_NEW) ==> AccountedBut(g, old(ops), errors, OnDisk(), disk.apply)
      ensures LoopRight(g, old(ops), old(disk.quarantine), errors, disk.workspace, landed,
                        !FaultIn(faults, old(calls), calls))
    {
      hide Shape, PathsFit, Apart, AccountedBut, LoopRight;
      hide Ahead;
      var failed := MoveBack();
      errors := failed;
      complete := failed == [];
      PathsFitSame(RolledBack(ops, failed), ops, excluded);
      ops := RolledBack(ops, failed);
      status := if complete then RolledBackStatus else RollbackFailedStatus;
    }

    /** The loop itself; it returns the paths whose turns went wrong. */
    method MoveBack() returns (errors: seq<Path>)
      requires Shape(g, ops, disk) && !landed && PathsFit(ops, excluded)
      modifies `calls, `disk, `landed
      ensures calls >= old(calls) && (ops == [] ==> calls == old(calls))
      ensures IsTree(disk.workspace) && IsTree(disk.quarantine) && disk.apply == old(disk.apply)
      ensures Hidden(disk.workspace, excluded) == Hidden(old(disk.workspace), excluded)
      ensures Apart(g.roots, FAILED_NEW) ==> AccountedBut(g, ops, errors, OnDisk(), disk.apply)
      ensures LoopRight(g, ops, old(disk.quarantine), errors, disk.workspace, landed,
                        !FaultIn(faults, old(calls), calls))
    {
      hide Ahead;
      var s, c;
      s, errors, c := UndoTree(faults, calls, OnDisk(), ops, excluded, g, disk);
      calls, landed := c, s.landed;
      disk := disk.(workspace := s.workspace, quarantine := s.quarantine);
    }

    // ----- commit under the lock

    /** Scans both trees, rebinds the plan to them and re-evaluates the policy. */
    method CheckPlan(plan: PlanFacts, baseline: Manifest, ghost view: Tree, ghost good: bool)
      returns (ok: bool, ghost s: Tree)
      requires Genuine(baseline) && baseline.digest == plan.baselineDigest
      requires IsTree(disk.workspace) && AgentReal(agent)
      requires good ==> Unobstructed(policy, rules, excluded, maxEntries, maxBytes, plan, disk.workspace, view)
      modifies `calls
      ensures old(calls) <= calls <= old(calls) + 3 && (ok ==> calls == old(calls) + 3)
      ensures ok ==> !ScanRejects(disk.workspace, excluded, {}, maxEntries, maxBytes)
      ensures ok ==> PlanFits(plan, policy, rules, Visible(disk.workspace, excluded), s)
      ensures ok ==> IsTree(s) && (forall x | x in s :: !IsExcluded(x, excluded))
      ensures ok && Calm(agent, old(calls), calls, view) ==> s == Visible(view, excluded)
      ensures !ok && good ==> FaultIn(faults, old(calls), calls) || !Calm(agent, old(calls), calls, view)
    {
      var live, staged;
      live, staged, s := ScanBoth(view);
      ok := false;
      if live.Some? && staged.Some? {
        SameDigest(live.value, baseline, plan, Visible(disk.workspace, excluded));
        PlanFitsIff(plan, policy, rules, Visible(disk.workspace, excluded), s, live.value, staged.value);
        if live.value.digest == plan.baselineDigest && staged.value.digest == plan.stagedDigest
          && plan.policy == policy {
          var fits := Reevaluate(plan, baseline.entries, staged.value.entries);
          if fits { ok := Call(); }
        }
      }
    }

    ghost predicate ScanTrouble(view: Tree)
      reads `disk
    {
      ScanRejects(disk.workspace, excluded, {}, maxEntries, maxBytes)
        || ScanRejects(view, excluded, {}, maxEntries, maxBytes)
    }

    /** The two scans at the beginning. */
    method ScanBoth(ghost view: Tree) returns (live: Option<Manifest>, staged: Option<Manifest>, ghost s: Tree)
      requires IsTree(disk.workspace) && AgentReal(agent)
      modifies `calls
      ensures old(calls) < calls <= old(calls) + 2 && (live.Some? && staged.Some? ==> calls == old(calls) + 2)
      ensures live.Some? ==>
        IsManifestOf(live.value, Visible(disk.workspace, excluded))
        && !ScanRejects(disk.workspace, excluded, {}, maxEntries, maxBytes)
      ensures staged.Some? ==>
        IsManifestOf(staged.value, s) && IsTree(s) && (forall x | x in s :: !IsExcluded(x, excluded))
      ensures staged.Some? && Calm(agent, old(calls), calls, view) ==> s == Visible(view, excluded)
      ensures live.None? || staged.None? ==>
        FaultIn(faults, old(calls), calls) || ScanTrouble(view) || !Calm(agent, old(calls), calls, view)
    {
      s, staged := map[], None;
      live := Scan(disk.workspace);
      if live.Some? {
        var now := agent(calls);
        staged := Scan(now);
        s := Visible(now, excluded);
        VisibleIsTree(now, excluded);
      }
    }

    /** The diff and the verdict computed again are those of the plan. */
    method Reevaluate(plan: PlanFacts, before: Entries, after: Entries) returns (same: bool)
      requires CleanKeys(before) && CleanKeys(after)
      ensures same <==>
        plan.changes == Diff(before, after) && plan.verdict == VerdictOf(policy, rules, before, after, plan.changes)
    {
      var changes := DiffManifests(before, after);
      NamedChanges(before, after);
      var verdict := Evaluate(policy, rules, before, after, changes);
      same := changes == plan.changes && verdict == plan.verdict;
    }

    /** Everything between the checks and the first journal entry: the two broker directories,
        the operation roots, the payloads, and the scan that closes the copy race. */
    method StageCommit(plan: PlanFacts, ghost s: Tree, ghost view: Tree, ghost good: bool) returns (ok: bool)
      requires good ==> IsTree(view) && s == Visible(view, excluded) && !StagingTrouble(plan, view)
      requires RootsOf(Visible(disk.workspace, excluded), s, Roots(plan.changes)) && PathsClean(Roots(plan.changes))
      requires IsTree(disk.workspace) && AgentReal(agent) && forall x | x in s :: !IsExcluded(x, excluded)
      modifies `calls, `disk, `ops, `g
      ensures calls >= old(calls) && disk.workspace == old(disk.workspace)
      ensures Roots(plan.changes) == [] ==> calls <= old(calls) + 3 && (ok ==> calls == old(calls) + 3)
      ensures ok ==>
        Shape(g, ops, disk) && ops == PlannedOps(g.roots) && g.base == disk.workspace && g.roots == Roots(plan.changes)
      ensures ok ==> forall c | c in g.roots :: !IsExcluded(c.path, excluded)
      ensures ok ==> Seen(old(calls), calls, plan.stagedDigest)
      ensures ok && good && Calm(agent, old(calls), calls, view) ==> Undisturbed(plan, view)
      ensures !ok && good ==> FaultIn(faults, old(calls), calls) || !Calm(agent, old(calls), calls, view)
    {
      var roots := OperationRoots(plan.changes);
      ok := StageTrees(roots, plan.stagedDigest, view);
      if ok {
        g := Setting(disk.workspace, disk.apply, roots);
        PlacedSetting(disk.workspace, s, excluded, roots, disk.apply);
      }
    }

    /** The two broker directories, the payloads, and the scan that closes the copy race. */
    method StageTrees(roots: seq<Change>, stagedDigest: TreeDigest, ghost view: Tree) returns (ok: bool)
      requires Antichain(roots) && PathsClean(roots) && AgentReal(agent)
      modifies `calls, `disk, `ops
      ensures calls >= old(calls) && disk.workspace == old(disk.workspace) && disk.quarantine == map[]
      ensures roots == [] ==> calls <= old(calls) + 3 && (ok ==> calls == old(calls) + 3)
      ensures ok ==> ops == PlannedOps(roots) && StagedTo(roots, |roots|, disk.apply)
      ensures ok && Calm(agent, old(calls), calls, view) ==> PayloadIs(roots, |roots|, disk.apply, view)
      ensures ok ==> Seen(old(calls), calls, stagedDigest)
      ensures !ok ==>
        || FaultIn(faults, old(calls), calls) || !Calm(agent, old(calls), calls, view) || !CanStage(roots, view)
        || ScanRejects(view, excluded, {}, maxEntries, maxBytes) || !HasDigest(Visible(view, excluded), stagedDigest)
    {
      ok := MakeBrokerDirectories();
      if ok { ok := StagePayloads(roots, view); }
      if ok { ok := Rescan(stagedDigest, view); }
    }

    /** The fresh quarantine and apply directories of this commit. */
    method MakeBrokerDirectories() returns (ok: bool)
      modifies `calls, `disk
      ensures old(calls) < calls <= old(calls) + 2 && (ok ==> calls == old(calls) + 2)
      ensures disk == Disk(old(disk.workspace), map[], map[])
      ensures !ok ==> FaultIn(faults, old(calls), calls)
    {
      disk := disk.(apply := map[], quarantine := map[]);
      ok := Call();
      if ok { ok := Call(); }
    }

    /** Between these two calls the worktree was seen with digest `d`. */
    ghost predicate Seen(start: nat, end: nat, d: TreeDigest) {
      exists n: nat :: start <= n < end && HasDigest(Visible(agent(n), excluded), d)
    }

    /** The scan that closes the copy race. */
    method Rescan(stagedDigest: TreeDigest, ghost view: Tree) returns (ok: bool)
      requires AgentReal(agent)
      modifies `calls
      ensures calls == old(calls) + 1 && (ok ==> HasDigest(Visible(agent(old(calls)), excluded), stagedDigest))
      ensures !ok ==>
        || FaultIn(faults, old(calls), calls) || !Calm(agent, old(calls), calls, view)
        || ScanRejects(view, excluded, {}, maxEntries, maxBytes) || !HasDigest(Visible(view, excluded), stagedDigest)
    {
      var now := agent(calls);
      var m := Scan(now);
      ok := m.Some? && m.value.digest == stagedDigest;
    }

    /** Why staging may fail although nothing interferes. */
    ghost predicate StagingTrouble(plan: PlanFacts, view: Tree) {
      || !CanStage(Roots(plan.changes), view)
      || ScanRejects(view, excluded, {}, maxEntries, maxBytes)
      || !HasDigest(Visible(view, excluded), plan.stagedDigest)
    }

    /** The first journal entry, all moves, and the final check: lines of the try block from the
        record on. */
    method RunJournal(stagedDigest: TreeDigest) returns (ok: bool, ghost sealed: Option<nat>)
      requires Shape(g, ops, disk) && ops == PlannedOps(g.roots) && history == [] && !landed && saved == None
      modifies `calls, `disk, `ops, `status, `saved, `history, `landed
      ensures saved.Some? ==> Journaled(saved.value.ops, ops)
      ensures calls > old(calls) && Shape(g, ops, disk) && !landed
      ensures CrashesReadable()
      ensures ok ==> HasDigest(Visible(disk.workspace, excluded), stagedDigest)
      ensures ok ==> Progress(ops, |ops|) && saved == Some(SavedRecord(ops, CommittedStatus))
      ensures ok ==> AllComplete(ops)
      ensures if ok then sealed.Some? && SealHolds(faults, sealed.value) && calls == sealed.value + 2
        else WroteBefore(faults, sealed, saved)
      ensures g.roots == [] ==> ops == [] && calls <= old(calls) + 5
      ensures g.roots == [] ==>
        (sealed == None || sealed == Some(old(calls) + 3)) && (sealed == None ==> calls <= old(calls) + 3)
      ensures !ok ==> FaultIn(faults, old(calls), calls) || FinalTrouble(g, ops, disk, stagedDigest)
    {
      sealed := None;
      ok := OpenJournal();
      if ok { ok, sealed := MoveAndFinish(stagedDigest); }
    }

    /** The moves and the final check, once the journal is open. */
    method MoveAndFinish(stagedDigest: TreeDigest) returns (ok: bool, ghost sealed: Option<nat>)
      requires Moving() && Progress(ops, 0) && OnlyInFlight(ops, 0) && saved == Some(SavedRecord(ops, Prepared))
        && status == Prepared
      requires forall i | 0 <= i < |ops| :: !InFlight(ops[i])
      modifies `calls, `disk, `ops, `status, `saved, `history, `landed
      ensures Moving() && calls >= old(calls) && SealedBy(ok, sealed)
      ensures ok ==> HasDigest(Visible(disk.workspace, excluded), stagedDigest)
      ensures ok ==> Progress(ops, |ops|) && saved == Some(SavedRecord(ops, CommittedStatus))
      ensures ok ==> AllComplete(ops)
      ensures old(ops) == [] ==> ops == [] && calls <= old(calls) + 3
      ensures old(ops) == [] ==>
        (sealed == None || sealed == Some(old(calls) + 1)) && (sealed == None ==> calls <= old(calls) + 1)
      ensures !ok ==> FaultIn(faults, old(calls), calls) || FinalTrouble(g, ops, disk, stagedDigest)
    {
      sealed := None;
      ok := MoveAll();
      if ok { ok, sealed := Finish(stagedDigest); }
    }

    /** The first journal entry. */
    method OpenJournal() returns (ok: bool)
      requires Shape(g, ops, disk) && ops == PlannedOps(g.roots) && history == [] && !landed && saved == None
      modifies `calls, `status, `saved, `history
      ensures calls == old(calls) + (if faults(old(calls)) then 1 else 2) && status == Prepared
      ensures if faults(old(calls)) then saved == None && CrashesReadable()
        else Moving() && saved == Some(SavedRecord(ops, Prepared))
      ensures ok <==> !faults(old(calls)) && !faults(old(calls) + 1)
      ensures !ok ==> FaultIn(faults, old(calls), calls)
      ensures Progress(ops, 0) && OnlyInFlight(ops, 0) && forall i | 0 <= i < |ops| :: !InFlight(ops[i])
    {
      hide Shape, CrashReadable;
      PlannedQuiet(g.roots);
      status := Prepared;
      ok := Call();
      if !ok { return; }
      saved := Some(SavedRecord(ops, status));
      InferenceIsRight(g, ops, ops, disk);
      history := [CrashPoint(ops, disk)];
      ok := Call();
    }

    /** Every operation was carried out, yet the workspace cannot be scanned or is not the
        approved one: a payload was not what was approved. */
    ghost predicate FinalTrouble(g: Setting, ops: seq<CommitOperation>, d: Disk, stagedDigest: TreeDigest) {
      && Shape(g, ops, d) && Progress(ops, |ops|)
      && (ScanRejects(d.workspace, excluded, {}, maxEntries, maxBytes)
        || !HasDigest(Visible(d.workspace, excluded), stagedDigest))
    }

    /** The body of commit under the workspace lock. Whatever fails and whatever the agent does to
        the worktree meanwhile, the workspace ends as exactly the approved tree or exactly the
        tree it was, unless a call of the handler's undo loop fails or, without one, the undo of
        what was moved by then does not recover; no names that clash, and it does. When no call
        fails before, and the worktree is left alone, a plan without obstruction is committed. The
        saved record claims a commit that was undone exactly if the three calls of LeftCommitted
        went that way; it says rolled_back over another tree than the baseline exactly if a payload
        went back inside a backup. */
    method CommitUnderLock(plan: PlanFacts, baseline: Manifest, ghost view: Tree)
      returns (end: CommitEnd, ghost marks: Marks)
      requires Genuine(baseline) && baseline.digest == plan.baselineDigest
      requires IsTree(disk.workspace) && AgentReal(agent) && history == [] && !landed && saved == None
      modifies `calls, `disk, `ops, `status, `saved, `history, `landed, `g
      ensures old(calls) <= marks.handler <= marks.noted <= calls
      ensures end != Refused ==> g.base == old(disk.workspace) && g.roots == Roots(plan.changes)
      ensures end != Refused ==>
        plan.policy == policy && HasDigest(Visible(old(disk.workspace), excluded), plan.baselineDigest)
      ensures end != Refused ==> Reproduced(plan, rules, Visible(old(disk.workspace), excluded))
      ensures end != Refused ==> Seen(old(calls), calls, plan.stagedDigest)
      ensures end == Committed ==>
        && HasDigest(Visible(disk.workspace, excluded), plan.stagedDigest)
        && saved == Some(SavedRecord(ops, CommittedStatus)) && Kept(disk, plan.baselineDigest, plan.stagedDigest)
      ensures end == Committed ==> AllComplete(ops)
      ensures Hidden(disk.workspace, excluded) == Hidden(old(disk.workspace), excluded) && IsTree(disk.workspace)
      ensures StatusFits(end, saved) && (saved.Some? ==> PathsFit(saved.value.ops, excluded) && IsTree(disk.quarantine))
      ensures end == Refused || end == RolledBackEnd ==> disk.workspace == old(disk.workspace)
      ensures CrashesReadable()
      ensures Failed(end) && NoClash(g.roots, FAILED_NEW) && !FaultIn(faults, marks.handler, marks.noted) ==>
        disk.workspace == old(disk.workspace)
      ensures Failed(end) && NoClash(g.roots, FAILED_NEW) && !FaultIn(faults, marks.handler, calls) ==>
        end == RolledBackEnd
      ensures Failed(end) ==> UndoneBy(faults, g, marks, end, disk.workspace, landed, saved, calls)
      ensures Failed(end) && NoClash(g.roots, FAILED_NEW) ==> Unblocked(marks.found, marks.quarantine, FAILED_NEW)
      ensures Failed(end) && Apart(g.roots, FAILED_NEW) ==>
        AccountedBut(g, marks.found, marks.errors, OnDisk(), disk.apply)
      ensures RecordTells(faults, marks, end, saved, calls)
      ensures Calm(agent, old(calls), marks.handler, view)
              && Unobstructed(policy, rules, excluded, maxEntries, maxBytes, plan, old(disk.workspace), view) ==>
        end == Committed || FaultIn(faults, old(calls), marks.handler)
      ensures Roots(plan.changes) == [] ==> Timed(marks, end, old(calls))
    {
      hide Unobstructed, Shape, UndoneBy, NoClash, Apart, Unblocked, AccountedBut, Kept, Hidden, HasDigest, ScanRejects,
        Reproduced, AllComplete;
      ghost var start := calls;
      end := Refused;
      var ok :=
        Prepare(plan, baseline, view,
                Unobstructed(policy, rules, excluded, maxEntries, maxBytes, plan, disk.workspace, view));
      marks := Marks(None, calls, calls, [], map[], []);
      ghost var mid := calls;
      if ok {
        end, marks := RunOrUndo(plan, view);
        FaultsJoin(faults, start, mid, marks.handler);
        CalmBefore(agent, start, mid, marks.handler, view);
      }
    }

    /** The checks and the staging. */
    method Prepare(plan: PlanFacts, baseline: Manifest, ghost view: Tree, ghost good: bool) returns (ok: bool)
      requires Genuine(baseline) && baseline.digest == plan.baselineDigest
      requires IsTree(disk.workspace) && AgentReal(agent)
      requires good ==> Unobstructed(policy, rules, excluded, maxEntries, maxBytes, plan, disk.workspace, view)
      modifies `calls, `disk, `ops, `g
      ensures calls >= old(calls) && disk.workspace == old(disk.workspace)
      ensures Roots(plan.changes) == [] ==> calls <= old(calls) + 6 && (ok ==> calls == old(calls) + 6)
      ensures ok ==> plan.policy == policy && !ScanRejects(disk.workspace, excluded, {}, maxEntries, maxBytes)
      ensures ok ==> Reproduced(plan, rules, Visible(disk.workspace, excluded))
      ensures ok ==>
        Shape(g, ops, disk) && ops == PlannedOps(g.roots) && g.base == disk.workspace && g.roots == Roots(plan.changes)
      ensures ok ==>
        HasDigest(Visible(g.base, excluded), plan.baselineDigest) && forall c | c in g.roots ::
        !IsExcluded(c.path, excluded)
      ensures ok ==> Seen(old(calls), calls, plan.stagedDigest)
      ensures ok && good && Calm(agent, old(calls), calls, view) ==> Undisturbed(plan, view)
      ensures !ok && good ==> FaultIn(faults, old(calls), calls) || !Calm(agent, old(calls), calls, view)
    {
      hide Shape, Undisturbed, Unobstructed, RootsOf, PathsClean, HasDigest, ScanRejects;
      ghost var s, calm;
      ok, s, calm := CheckRoots(plan, baseline, view, good);
      if ok { ok := StageCommit(plan, s, view, calm); }
    }

    /** The checks, with what they say about the operation roots; `calm` when nothing interfered. */
    method CheckRoots(plan: PlanFacts, baseline: Manifest, ghost view: Tree, ghost good: bool)
      returns (ok: bool, ghost s: Tree, ghost calm: bool)
      requires Genuine(baseline) && baseline.digest == plan.baselineDigest
      requires IsTree(disk.workspace) && AgentReal(agent)
      requires good ==> Unobstructed(policy, rules, excluded, maxEntries, maxBytes, plan, disk.workspace, view)
      modifies `calls
      ensures old(calls) <= calls <= old(calls) + 3 && (ok ==> calls == old(calls) + 3)
      ensures ok ==> plan.policy == policy && !ScanRejects(disk.workspace, excluded, {}, maxEntries, maxBytes)
      ensures ok ==> Reproduced(plan, rules, Visible(disk.workspace, excluded))
      ensures ok ==> HasDigest(Visible(disk.workspace, excluded), plan.baselineDigest)
      ensures ok ==>
        RootsOf(Visible(disk.workspace, excluded), s, Roots(plan.changes)) && PathsClean(Roots(plan.changes))
      ensures ok ==> forall x | x in s :: !IsExcluded(x, excluded)
      ensures calm <==> good && Calm(agent, old(calls), calls, view)
      ensures ok && calm ==> IsTree(view) && s == Visible(view, excluded) && !StagingTrouble(plan, view)
      ensures !ok && good ==> FaultIn(faults, old(calls), calls) || !Calm(agent, old(calls), calls, view)
    {
      hide ScanRejects, StagingTrouble, PlanFits, RootsOf, PathsClean, HasDigest, Calm, FaultIn;
      ok, s := CheckPlan(plan, baseline, view, good);
      calm := good && Calm(agent, old(calls), calls, view);
      if ok {
        if calm { NoStagingTrouble(plan, disk.workspace, view); }
        RootsForPlan(plan, policy, rules, disk.workspace, s, excluded);
      }
    }

    lemma NoStagingTrouble(plan: PlanFacts, workspace: Tree, view: Tree)
      requires Unobstructed(policy, rules, excluded, maxEntries, maxBytes, plan, workspace, view)
      ensures !StagingTrouble(plan, view)
    {
    }

    /** From the first journal entry to the end: all moves and the final check, or the rollback. */
    method RunOrUndo(plan: PlanFacts, ghost view: Tree) returns (end: CommitEnd, ghost marks: Marks)
      requires Shape(g, ops, disk) && ops == PlannedOps(g.roots) && history == [] && !landed
        && g.base == disk.workspace && saved == None
      requires HasDigest(Visible(g.base, excluded), plan.baselineDigest) && forall c | c in g.roots ::
        !IsExcluded(c.path, excluded)
      requires !ScanRejects(g.base, excluded, {}, maxEntries, maxBytes)
      modifies `calls, `disk, `ops, `status, `saved, `history, `landed
      ensures old(calls) <= marks.handler <= marks.noted <= calls
      ensures end == Committed ==>
        && HasDigest(Visible(disk.workspace, excluded), plan.stagedDigest)
        && saved == Some(SavedRecord(ops, CommittedStatus)) && Kept(disk, plan.baselineDigest, plan.stagedDigest)
      ensures end == Committed ==> AllComplete(ops)
      ensures Hidden(disk.workspace, excluded) == Hidden(g.base, excluded) && IsTree(disk.workspace)
        && IsTree(disk.quarantine)
      ensures end != Refused && (end == RolledBackEnd ==> disk.workspace == g.base)
      ensures StatusFits(end, saved) && (saved.Some? ==> PathsFit(saved.value.ops, excluded))
      ensures CrashesReadable()
      ensures Failed(end) && NoClash(g.roots, FAILED_NEW) ==> Unblocked(marks.found, marks.quarantine, FAILED_NEW)
      ensures Failed(end) && NoClash(g.roots, FAILED_NEW) && !FaultIn(faults, marks.handler, marks.noted) ==>
        disk.workspace == g.base
      ensures Failed(end) && NoClash(g.roots, FAILED_NEW) && !FaultIn(faults, marks.handler, calls) ==>
        end == RolledBackEnd
      ensures Failed(end) ==>
        UndoneBy(faults, g, marks, end, disk.workspace, landed, saved, calls) && (Apart(g.roots, FAILED_NEW) ==>
        AccountedBut(g, marks.found, marks.errors, OnDisk(), disk.apply))
      ensures RecordTells(faults, marks, end, saved, calls)
      ensures end != Committed && Undisturbed(plan, view) ==> FaultIn(faults, old(calls), marks.handler)
      ensures g.roots == [] ==> Timed(marks, end, old(calls) - 6)
    {
      hide NoClash, Apart, Unblocked, AccountedBut, Hidden, HasDigest, ScanRejects;
      ghost var sealed;
      var ok;
      ok, sealed := TryJournal(plan, view);
      if ok { return Committed, Marks(sealed, calls, calls, ops, disk.quarantine, []); }
      end, marks := Rollback(plan.baselineDigest, sealed);
    }

    /** The try block, with what its outcome says for a plan that nothing disturbs. */
    method TryJournal(plan: PlanFacts, ghost view: Tree) returns (ok: bool, ghost sealed: Option<nat>)
      requires Shape(g, ops, disk) && ops == PlannedOps(g.roots) && history == [] && !landed
        && g.base == disk.workspace && saved == None
      requires forall c | c in g.roots :: !IsExcluded(c.path, excluded)
      modifies `calls, `disk, `ops, `status, `saved, `history, `landed
      ensures PathsFit(ops, excluded) && (saved.Some? ==> PathsFit(saved.value.ops, excluded))
      ensures NoClash(g.roots, FAILED_NEW) ==> Unblocked(ops, disk.quarantine, FAILED_NEW)
      ensures calls > old(calls) && Shape(g, ops, disk) && !landed && CrashesReadable()
      ensures ok ==> HasDigest(Visible(disk.workspace, excluded), plan.stagedDigest)
      ensures ok ==> Progress(ops, |ops|) && saved == Some(SavedRecord(ops, CommittedStatus))
      ensures ok ==> AllComplete(ops)
      ensures if ok then sealed.Some? && SealHolds(faults, sealed.value) && calls == sealed.value + 2
        else WroteBefore(faults, sealed, saved)
      ensures g.roots == [] ==> ops == [] && calls <= old(calls) + 5
      ensures g.roots == [] ==>
        (sealed == None || sealed == Some(old(calls) + 3)) && (sealed == None ==> calls <= old(calls) + 3)
      ensures Hidden(disk.workspace, excluded) == Hidden(g.base, excluded)
      ensures !ok && Undisturbed(plan, view) ==> FaultIn(faults, old(calls), calls)
    {
      ok, sealed := RunJournal(plan.stagedDigest);
      HiddenUntouched(g, ops, disk, excluded);
      HandlerReady(saved);
      if Undisturbed(plan, view) { NoFinalTrouble(plan, view, ops, disk); }
    }

    lemma HandlerReady(saved: Option<SavedRecord>)
      requires Shape(g, ops, disk) && VisibleRoots(g, excluded) && (saved.Some? ==> Journaled(saved.value.ops, ops))
      ensures PathsFit(ops, excluded) && (saved.Some? ==> PathsFit(saved.value.ops, excluded))
      ensures NoClash(g.roots, FAILED_NEW) ==> Unblocked(ops, disk.quarantine, FAILED_NEW)
    {
      RootPathsFit(g, ops, excluded);
      NothingBlocks(g, ops, disk);
      if saved.Some? { PathsFitSame(saved.value.ops, ops, excluded); }
    }

    /** The payloads are the approved subtrees, and the approved tree can be scanned. */
    ghost predicate Undisturbed(plan: PlanFacts, view: Tree)
      reads `g
    {
      && IsTree(view) && RootsOf(Visible(g.base, excluded), Visible(view, excluded), g.roots)
      && PayloadIs(g.roots, |g.roots|, g.payload, view)
      && HasDigest(Visible(view, excluded), plan.stagedDigest) && !ScanRejects(view, excluded, {}, maxEntries, maxBytes)
    }

    lemma NoFinalTrouble(plan: PlanFacts, view: Tree, ops: seq<CommitOperation>, d: Disk)
      requires Undisturbed(plan, view) && forall c | c in g.roots :: !IsExcluded(c.path, excluded)
      ensures !FinalTrouble(g, ops, d, plan.stagedDigest)
    {
      if FinalTrouble(g, ops, d, plan.stagedDigest) {
        CalmIsApproved(g, ops, d, view, excluded, maxEntries, maxBytes);
      }
    }

    // ----- restore

    /** The workspace has the committed manifest, and both it and the old baseline are within
        the limits of a scan. */
    ghost predicate RestoreDue(afterDigest: TreeDigest)
      reads `g, `disk
    {
      && HasDigest(Visible(disk.workspace, excluded), afterDigest)
      && !ScanRejects(disk.workspace, excluded, {}, maxEntries, maxBytes)
      && !ScanRejects(g.base, excluded, {}, maxEntries, maxBytes)
    }

    /** The record and the quarantine are as a commit left them, which had the disk `after`. */
    ghost predicate Kept(after: Disk, beforeDigest: TreeDigest, afterDigest: TreeDigest)
      reads `g, `ops, `disk
    {
      && Shape(g, ops, after) && Progress(ops, |ops|) && VisibleRoots(g, excluded)
      && disk.quarantine == after.quarantine
      && HasDigest(Visible(g.base, excluded), beforeDigest)
      && HasDigest(Visible(after.workspace, excluded), afterDigest)
    }

    /** restore: refused unless the workspace has the committed manifest; when it succeeds the
        workspace has the baseline manifest; excluded entries are never touched. With a record
        and quarantine as a commit left them, and without a failing call, it succeeds if and only
        if the undo returns, and without landing on anything if and only if no names clash; and
        then every subtree stays accounted for whatever fails. */
    method Restore(beforeDigest: TreeDigest, afterDigest: TreeDigest, ghost after: Disk) returns (end: RestoreEnd)
      requires IsTree(disk.workspace) && IsTree(disk.quarantine) && PathsFit(ops, excluded) && !landed
      modifies `calls, `disk, `ops, `status, `saved, `landed
      ensures calls >= old(calls) && Hidden(disk.workspace, excluded) == Hidden(old(disk.workspace), excluded)
      ensures IsTree(disk.workspace) && IsTree(disk.quarantine)
      ensures end == RestoreRefused ==> disk == old(disk) && saved == old(saved)
      ensures saved != old(saved) ==> saved == Some(SavedRecord(AllRestored(old(ops)), RestoredStatus))
      ensures end == RestoreDone ==> saved.Some? && saved.value.status == RestoredStatus
      ensures end != RestoreRefused ==> HasDigest(Visible(old(disk.workspace), excluded), afterDigest)
      ensures end == RestoreDone || saved != old(saved) ==> HasDigest(Visible(disk.workspace, excluded), beforeDigest)
      ensures old(Kept(after, beforeDigest, afterDigest) && RestoreDue(afterDigest))
              && !FaultIn(faults, old(calls), calls) ==>
        RestoreRight(g, old(ops), old(disk.quarantine), end == RestoreDone, landed)
      ensures old(Kept(after, beforeDigest, afterDigest)) && NoClash(g.roots, RESTORE_CURRENT)
              && end != RestoreRefused ==>
        Accounted(Restored(g, old(disk.workspace), excluded), RESTORE_CURRENT, OnDisk(), after.apply)
    {
      var ok := IsCommitted(beforeDigest, afterDigest, after);
      if !ok { return RestoreRefused; }
      end := RestoreChecked(beforeDigest, after);
    }

    /** The old baseline has the recorded digest and is within the limits of a scan. */
    ghost predicate BaseKnown(beforeDigest: TreeDigest)
      reads `g
    {
      HasDigest(Visible(g.base, excluded), beforeDigest) && !ScanRejects(g.base, excluded, {}, maxEntries, maxBytes)
    }

    /** What follows the first scan. */
    method RestoreChecked(beforeDigest: TreeDigest, ghost after: Disk) returns (end: RestoreEnd)
      requires IsTree(disk.workspace) && IsTree(disk.quarantine) && PathsFit(ops, excluded)
      modifies `calls, `disk, `ops, `status, `saved, `landed
      ensures calls >= old(calls) && Hidden(disk.workspace, excluded) == Hidden(old(disk.workspace), excluded)
      ensures IsTree(disk.workspace) && IsTree(disk.quarantine) && end != RestoreRefused
      ensures saved != old(saved) ==> saved == Some(SavedRecord(AllRestored(old(ops)), RestoredStatus))
      ensures end == RestoreDone ==> saved.Some? && saved.value.status == RestoredStatus
      ensures end == RestoreDone || saved != old(saved) ==> HasDigest(Visible(disk.workspace, excluded), beforeDigest)
      ensures old(Restorable(g, ops, after, OnDisk(), excluded)) && BaseKnown(beforeDigest)
              && !FaultIn(faults, old(calls), calls) ==>
        RestoreRight(g, old(ops), old(disk.quarantine), end == RestoreDone, landed)
      ensures old(Restorable(g, ops, after, OnDisk(), excluded)) && NoClash(g.roots, RESTORE_CURRENT) ==>
        Accounted(Restored(g, old(disk.workspace), excluded), RESTORE_CURRENT, OnDisk(), after.apply)
    {
      hide Restorable, NoClash, RestoreRight, Accounted, Hidden, PathsFit;
      var ok := RestoreMoves(after);
      BaselineScans(disk.workspace, g.base, beforeDigest);
      end := RestoreFailed;
      if ok { end := ConfirmRestore(beforeDigest); }
    }

    /** The scan that refuses to overwrite later work. */
    method IsCommitted(ghost beforeDigest: TreeDigest, afterDigest: TreeDigest, ghost after: Disk) returns (ok: bool)
      requires IsTree(disk.workspace) && !landed
      modifies `calls
      ensures calls >= old(calls)
      ensures ok ==> HasDigest(Visible(disk.workspace, excluded), afterDigest)
      ensures ok && Kept(after, beforeDigest, afterDigest) ==> Restorable(g, ops, after, OnDisk(), excluded)
      ensures !ok ==> FaultIn(faults, old(calls), calls) || !RestoreDue(afterDigest)
    {
      var m := Scan(disk.workspace);
      ok := m.Some? && m.value.digest == afterDigest;
      if ok && Kept(after, beforeDigest, afterDigest) {
        DigestDeterminesTree(Visible(disk.workspace, excluded), Visible(after.workspace, excluded), afterDigest);
      }
    }

    lemma BaselineScans(w: Tree, base: Tree, d: TreeDigest)
      ensures HasDigest(Visible(base, excluded), d) ==>
        (HasDigest(Visible(w, excluded), d) <==> Visible(w, excluded) == Visible(base, excluded))
      ensures Visible(w, excluded) == Visible(base, excluded) && ScanRejects(w, excluded, {}, maxEntries, maxBytes) ==>
        ScanRejects(base, excluded, {}, maxEntries, maxBytes)
    {
      if HasDigest(Visible(w, excluded), d) && HasDigest(Visible(base, excluded), d) {
        DigestDeterminesTree(Visible(w, excluded), Visible(base, excluded), d);
      }
      if Visible(w, excluded) == Visible(base, excluded) {
        ScanSeesVisible(w, base, excluded, maxEntries, maxBytes);
      }
    }

    method RestoreMoves(ghost after: Disk) returns (ok: bool)
      requires IsTree(disk.workspace) && IsTree(disk.quarantine) && PathsFit(ops, excluded)
      modifies `calls, `disk, `landed
      ensures calls >= old(calls) && IsTree(disk.workspace) && IsTree(disk.quarantine)
      ensures Hidden(disk.workspace, excluded) == Hidden(old(disk.workspace), excluded)
      ensures Restorable(g, ops, after, old(OnDisk()), excluded) ==>
        && (!FaultIn(faults, old(calls), calls) ==>
              RestoreRight(g, ops, old(disk.quarantine), ok
                && Visible(disk.workspace, excluded) == Visible(g.base, excluded), landed))
        && (NoClash(g.roots, RESTORE_CURRENT) ==>
              Accounted(Restored(g, old(disk.workspace), excluded), RESTORE_CURRENT, OnDisk(), after.apply))
    {
      var s, c;
      s, ok, c := RestoreTree(faults, calls, OnDisk(), ops, excluded, g, after);
      calls, landed := c, s.landed;
      disk := disk.(workspace := s.workspace, quarantine := s.quarantine);
    }

    /** The scan after the moves, the record, and the audit event. */
    method ConfirmRestore(beforeDigest: TreeDigest) returns (end: RestoreEnd)
      requires IsTree(disk.workspace)
      modifies `calls, `ops, `status, `saved
      ensures calls >= old(calls) && end != RestoreRefused
      ensures saved != old(saved) ==> saved == Some(SavedRecord(AllRestored(old(ops)), RestoredStatus))
      ensures end == RestoreDone ==> saved.Some? && saved.value.status == RestoredStatus
      ensures end == RestoreDone || saved != old(saved) ==> HasDigest(Visible(disk.workspace, excluded), beforeDigest)
      ensures !FaultIn(faults, old(calls), calls) && HasDigest(Visible(disk.workspace, excluded), beforeDigest) ==>
        end == RestoreDone || ScanRejects(disk.workspace, excluded, {}, maxEntries, maxBytes)
    {
      end := RestoreFailed;
      var m := Scan(disk.workspace);
      if m.Some? && m.value.digest == beforeDigest {
        ops, status := AllRestored(ops), RestoredStatus;
        var ok := Call();
        if ok {
          saved := Some(SavedRecord(ops, status));
          ok := Call();
        }
        if ok { ok := Call(); }
        if ok { end := RestoreDone; }
      }
    }
  }

  /** How a restore ends: refused before anything moved, done, or raised on the way. */
  datatype RestoreEnd = RestoreRefused | RestoreDone | RestoreFailed

  function AllRestored(ops: seq<CommitOperation>): (r: seq<CommitOperation>)
    ensures |r| == |ops| && forall i | 0 <= i < |r| :: r[i].phase == RestoredPhase
    ensures forall i | 0 <= i < |r| :: r[i].(phase := ops[i].phase) == ops[i]
  {
    seq(|ops|, i requires 0 <= i < |ops| => ops[i].(phase := RestoredPhase))
  }

  /** Given equal excluded parts, a workspace is the restored baseline exactly when its visible
      part is that of the old baseline. */
  lemma RestoredVisible(g: Setting, w: Tree, w': Tree, excluded: set<Name>)
    requires Hidden(w', excluded) == Hidden(w, excluded)
    ensures w' == Restored(g, w, excluded).base <==> Visible(w', excluded) == Visible(g.base, excluded)
  {
    var t := Restored(g, w, excluded).base;
    assert Visible(t, excluded) == Visible(g.base, excluded) && Hidden(t, excluded) == Hidden(w, excluded);
    if Visible(w', excluded) == Visible(g.base, excluded) {
      WholeTree(w', t, excluded);
    }
  }

  lemma RootPathsFit(g: Setting, ops: seq<CommitOperation>, excluded: set<Name>)
    requires GoodSetting(g) && OperationsFor(ops, g.roots) && forall c | c in g.roots :: !IsExcluded(c.path, excluded)
    ensures PathsFit(ops, excluded)
  {
    forall i | 0 <= i < |ops| ensures Clean(ops[i].path) && !IsExcluded(ops[i].path, excluded) {
      assert OperationFor(ops[i], g.roots[i]) && g.roots[i] in g.roots;
    }
  }

  /** Undisturbed, the finished commit has left the staged tree beside the excluded entries. */
  lemma CalmIsApproved(g: Setting, ops: seq<CommitOperation>, d: Disk, view: Tree, excluded: set<Name>, maxEntries: nat,
                       maxBytes: nat)
    requires Shape(g, ops, d) && Progress(ops, |ops|) && IsTree(view)
    requires RootsOf(Visible(g.base, excluded), Visible(view, excluded), g.roots)
      && PayloadIs(g.roots, |g.roots|, g.payload, view)
    requires forall c | c in g.roots :: !IsExcluded(c.path, excluded)
    ensures d.workspace == Target(g.base, Visible(view, excluded), excluded)
    ensures Visible(d.workspace, excluded) == Visible(view, excluded)
    ensures ScanRejects(d.workspace, excluded, {}, maxEntries, maxBytes) ==>
      ScanRejects(view, excluded, {}, maxEntries, maxBytes)
  {
    VisibleIsTree(view, excluded);
    PayloadVisible(g, view, excluded);
    FinishedIsTarget(g, ops, d, Visible(view, excluded), excluded);
    TargetVisible(g.base, view, excluded);
    ScanSeesVisible(d.workspace, view, excluded, maxEntries, maxBytes);
  }

  /** What was staged from the worktree below visible roots is visible in it. */
  lemma PayloadVisible(g: Setting, view: Tree, excluded: set<Name>)
    requires PayloadIs(g.roots, |g.roots|, g.payload, view) && forall c | c in g.roots :: !IsExcluded(c.path, excluded)
    requires GoodSetting(g)
    ensures forall i, x | 0 <= i < |g.roots| && Above(g.roots[i].path, x) && g.roots[i].after.Some? ::
      Look(g.payload, x) == Look(Visible(view, excluded), x)
  {
    forall i, x | 0 <= i < |g.roots| && Above(g.roots[i].path, x) && g.roots[i].after.Some?
      ensures Look(g.payload, x) == Look(Visible(view, excluded), x)
    {
      assert g.roots[i] in g.roots;
      ExcludedAbove(g.roots[i].path, x, excluded);
    }
  }

  lemma TargetVisible(base: Tree, view: Tree, excluded: set<Name>)
    ensures Visible(Target(base, Visible(view, excluded), excluded), excluded) == Visible(view, excluded)
  {
  }

  lemma PlannedQuiet(roots: seq<Change>)
    ensures Progress(PlannedOps(roots), 0) && OnlyInFlight(PlannedOps(roots), 0)
      && Journaled(PlannedOps(roots), PlannedOps(roots))
    ensures forall i | 0 <= i < |roots| :: !InFlight(PlannedOps(roots)[i])
  {
  }

  lemma PlacedSetting(base: Tree, s: Tree, excluded: set<Name>, roots: seq<Change>, apply: Tree)
    requires IsTree(base) && RootsOf(Visible(base, excluded), s, roots) && StagedTo(roots, |roots|, apply)
    requires forall x | x in s :: !IsExcluded(x, excluded)
    ensures Shape(Setting(base, apply, roots), PlannedOps(roots), Disk(base, apply, map[]))
    ensures forall c | c in roots :: !IsExcluded(c.path, excluded)
  {
    SettingOf(base, s, excluded, roots, apply);
    InitialShape(Setting(base, apply, roots));
  }

  /** The operation roots of a fitting plan. */
  lemma RootsForPlan(plan: PlanFacts, policy: GuardPolicy, rules: CaseRules, workspace: Tree, s: Tree,
                     excluded: set<Name>)
    requires PlanFits(plan, policy, rules, Visible(workspace, excluded), s) && IsTree(workspace) && IsTree(s)
    ensures RootsOf(Visible(workspace, excluded), s, Roots(plan.changes)) && PathsClean(Roots(plan.changes))
  {
    VisibleIsTree(workspace, excluded);
    DigestedIsAcceptable(Visible(workspace, excluded), plan.baselineDigest);
    DigestedIsAcceptable(s, plan.stagedDigest);
    OperationRootsOfTrees(Visible(workspace, excluded), s);
  }

  lemma DigestedIsAcceptable(t: Tree, d: TreeDigest)
    requires IsTree(t) && HasDigest(t, d)
    ensures AcceptableTree(t)
  {
    forall p | p in t ensures Acceptable(p) {
      assert p in EntriesOf(t);
    }
  }

  /** Equal digests: the manifest just scanned is the stored baseline. */
  lemma SameDigest(live: Manifest, baseline: Manifest, plan: PlanFacts, b: Tree)
    requires IsManifestOf(live, b) && Genuine(baseline) && baseline.digest == plan.baselineDigest
    ensures live.digest == plan.baselineDigest ==> baseline.entries == live.entries
  {
    DigestDeterminesEntries(live.entries, baseline.entries);
  }

  lemma PlanFitsIff(plan: PlanFacts, policy: GuardPolicy, rules: CaseRules, b: Tree, s: Tree, mb: Manifest,
                    ms: Manifest)
    requires IsManifestOf(mb, b) && IsManifestOf(ms, s)
    ensures PlanFits(plan, policy, rules, b, s) <==>
      && mb.digest == plan.baselineDigest && ms.digest == plan.stagedDigest && plan.policy == policy
      && plan.changes == Diff(mb.entries, ms.entries)
      && plan.verdict == VerdictOf(policy, rules, mb.entries, ms.entries, plan.changes)
  {
    ScannedDigest(mb, b, plan.baselineDigest);
    ScannedDigest(ms, s, plan.stagedDigest);
  }

  lemma ScannedDigest(m: Manifest, t: Tree, d: TreeDigest)
    requires IsManifestOf(m, t)
    ensures m.entries == EntriesOf(t) && CleanKeys(EntriesOf(t)) && (HasDigest(t, d) <==> m.digest == d)
  {
  }

  lemma NamedChanges(before: Entries, after: Entries)
    requires CleanKeys(before) && CleanKeys(after)
    ensures Named(Diff(before, after))
  {
    DiffContents(before, after);
    forall c | c in Diff(before, after) ensures c.path != [] {
      assert c.path in before.Keys || c.path in after.Keys;
    }
  }

  predicate AllComplete(ops: seq<CommitOperation>) {
    forall op | op in ops :: op.phase == Complete
  }

  /** `operation.phase = "complete"` for every operation. */
  function Completed(ops: seq<CommitOperation>): (r: seq<CommitOperation>)
    ensures |r| == |ops| && forall i | 0 <= i < |r| :: r[i] == ops[i].(phase := Complete)
  {
    seq(|ops|, i requires 0 <= i < |ops| => ops[i].(phase := Complete))
  }

  /** The phases a rollback leaves behind. */
  function RolledBack(ops: seq<CommitOperation>, errors: seq<Path>): (r: seq<CommitOperation>)
    ensures |r| == |ops|
  {
    seq(|ops|, i requires 0 <= i < |ops| => if ops[i].path in errors then ops[i] else ops[i].(phase := RolledBackPhase))
  }

  lemma CompleteKeepsShape(g: Setting, ops: seq<CommitOperation>, d: Disk, saved: seq<CommitOperation>)
    requires Shape(g, ops, d) && Journaled(saved, ops) && Progress(ops, |ops|)
    ensures Shape(g, Completed(ops), d) && Journaled(saved, Completed(ops)) && OnlyInFlight(Completed(ops), 0)
    ensures Progress(Completed(ops), |ops|)
  {
    var done := Completed(ops);
    forall i | 0 <= i < |ops|
      ensures OperationFor(done[i], g.roots[i]) && Behind(saved[i], done[i]) && Behind(done[i], done[i]) {
      assert OperationFor(ops[i], g.roots[i]) && Behind(saved[i], ops[i]);
    }
    assert CellsOf(done) == CellsOf(ops);
  }
}

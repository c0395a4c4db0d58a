/** Many brokers on one workspace. Each goes through lock, checks and single renames at its own
    pace; only taking the lock looks at the lock. Whenever the lock is free, the workspace has
    moved along a link of an approved plan, back along one, or not at all, unless an undo was
    blocked or a call failed in it. */
module LockHistory {
  import opened Paths
  import opened Trees
  import opened Manifests
  import opened Scans
  import opened Diffs
  import opened Layout
  import opened Records
  import opened Undo
  import opened UndoExact
  import opened UndoCalls
  import opened UndoOutcome
  import opened Journal
  import opened Staging
  import opened RestoreSetting

  /** What an approved plan may make of the workspace, and its restore undo. */
  datatype Link = Link(before: TreeDigest, after: TreeDigest)

  /** Where a broker is. An undo has operations `k` and above behind it; `half` says that the
      payload of operation `k - 1` is already set aside. `back` is None in a rollback. It is
      `spoiled` when it was blocked from the start or one of its turns broke off. */
  datatype Activity =
    | Idle
    | Entered
    | Moving(g: Setting, ops: seq<CommitOperation>, apply: Tree, quarantine: Tree, link: Link)
    | Undoing(g: Setting, ops: seq<CommitOperation>, quarantine: Tree, k: nat, half: bool, back: Option<Link>,
              spoiled: bool)

  /** A workspace as it was left when the lock was released; `torn` if by an undo gone wrong. */
  datatype Generation = Generation(tree: Tree, torn: bool)

  /** `generations` are the workspaces seen while the lock was free, the latest last. */
  datatype World = World(workspace: Tree, lock: Option<nat>, brokers: seq<Activity>, generations: seq<Generation>)

  function Reserves(back: Option<Link>): Name {
    if back == None then FAILED_NEW else RESTORE_CURRENT
  }

  datatype Move =
    | TryLock
    | GiveUp
    | BeginCommit(payload: Tree, roots: seq<Change>, link: Link)
    | BackUp(k: nat)
    | Install(k: nat)
    | Fail
    | FinishCommit
    | BeginRestore(g: Setting, ops: seq<CommitOperation>, after: Disk, link: Link)
    | SetAsideNext
    | PutBackNext
    | FinishUndo
    | BreakOff(workspace: Tree, quarantine: Tree)

  function At(w: World, i: nat, a: Activity): World
    requires i < |w.brokers|
  {
    w.(brokers := w.brokers[i := a])
  }

  /** The lock file is removed, and the workspace is as others will find it. */
  function Release(w: World, i: nat, torn: bool): World
    requires i < |w.brokers|
  {
    At(w, i, Idle).(lock := None, generations := w.generations + [Generation(w.workspace, torn)])
  }

  /** The checks under the lock: the workspace has the plan's baseline, and what is staged fits
      it; whether the payload is the approved one is only checked in the end. */
  ghost predicate CommitStart(excluded: set<Name>, links: set<Link>, workspace: Tree, m: Move)
    requires m.BeginCommit?
  {
    && m.link in links && HasDigest(Visible(workspace, excluded), m.link.before)
    && GoodSetting(Setting(workspace, m.payload, m.roots))
    && VisibleRoots(Setting(workspace, m.payload, m.roots), excluded)
  }

  /** The checks of a restore: the workspace has the committed manifest, and the quarantine is as
      the commit left it. */
  ghost predicate RestoreStart(excluded: set<Name>, links: set<Link>, workspace: Tree, m: Move)
    requires m.BeginRestore?
  {
    && m.link in links && Shape(m.g, m.ops, m.after) && VisibleRoots(m.g, excluded)
    && HasDigest(Visible(m.g.base, excluded), m.link.before)
    && HasDigest(Visible(m.after.workspace, excluded), m.link.after)
    && HasDigest(Visible(workspace, excluded), m.link.after)
  }

  ghost predicate BackUpStep(w: World, i: nat, k: nat, w': World)
    requires i < |w.brokers| && w.brokers[i].Moving?
  {
    var a := w.brokers[i];
    && k < |a.ops| && Progress(a.ops, k) && a.ops[k].beforeKind.Some? && a.ops[k].path != []
    && MakeParents(a.quarantine, a.ops[k].path).Some?
    && var r := Rename(w.workspace, a.ops[k].path, MakeParents(a.quarantine, a.ops[k].path).value, a.ops[k].path);
    && r.Renamed?
    && w' == At(w, i, Moving(a.g, a.ops[k := BackedUp(a.ops[k])], a.apply, r.target, a.link)).(workspace := r.source)
  }

  ghost predicate InstallNext(w: World, i: nat, k: nat, w': World)
    requires i < |w.brokers| && w.brokers[i].Moving?
  {
    var a := w.brokers[i];
    && k < |a.ops| && a.ops[k].afterKind.Some? && !a.ops[k].installed
    && (a.ops[k].backupMoved <==> a.ops[k].beforeKind.Some?)
    && a.ops[k].path != [] && MakeParents(w.workspace, a.ops[k].path).Some?
    && var r := Rename(a.apply, a.ops[k].path, MakeParents(w.workspace, a.ops[k].path).value, a.ops[k].path);
    && r.Renamed?
    && w' == At(w, i,
                Moving(a.g, a.ops[k := InPlace(a.ops[k])], r.source, a.quarantine, a.link)).(workspace := r.target)
  }

  /** Half a turn as its loop makes it: a rollback looks before it moves, a restore raises. */
  function HalfTurn(a: Activity, s: UndoState): Option<UndoState>
    requires a.Undoing? && 0 < a.k <= |a.ops| && a.ops[a.k - 1].path != []
  {
    var op := a.ops[a.k - 1];
    if a.back == None then (if a.half then GuardedReinstate(s, op) else GuardedUninstall(s, FAILED_NEW, op))
    else if a.half then Reinstate(s, op) else Uninstall(s, RESTORE_CURRENT, op)
  }

  ghost predicate UndoHalf(w: World, i: nat, m: Move, w': World)
    requires i < |w.brokers| && w.brokers[i].Undoing?
  {
    var a := w.brokers[i];
    && 0 < a.k <= |a.ops| && a.ops[a.k - 1].path != [] && a.half == m.PutBackNext?
    && var r := HalfTurn(a, UndoState(w.workspace, a.quarantine, false));
    && r.Some?
    && var k := if a.half then a.k - 1 else a.k;
    w' == At(w, i, a.(quarantine := r.value.quarantine, k := k, half := !a.half)).(workspace := r.value.workspace)
  }

  /** A call fails in an undo, or a rename cannot be made: a rollback goes on with the next
      operation, a restore raises. What the turn had done by then stays. */
  ghost predicate BreakOffStep(w: World, i: nat, m: Move, w': World)
    requires i < |w.brokers| && w.brokers[i].Undoing? && m.BreakOff?
  {
    var a := w.brokers[i];
    && IsTree(m.workspace) && IsTree(m.quarantine)
    && var left := w.(workspace := m.workspace);
    if a.back == None
    then 0 < a.k && w' == At(left, i, a.(quarantine := m.quarantine, k := a.k - 1, half := false, spoiled := true))
    else w' == Release(left, i, true)
  }

  ghost predicate Next(excluded: set<Name>, links: set<Link>, w: World, i: nat, m: Move, w': World) {
    && i < |w.brokers|
    && var a := w.brokers[i];
    match m
    case TryLock => a.Idle? && (if w.lock.None? then w' == At(w, i, Entered).(lock := Some(i)) else w' == w)
    case GiveUp => a.Entered? && w' == Release(w, i, false)
    case BeginCommit(payload, roots, link) =>
      a.Entered? && CommitStart(excluded, links, w.workspace, m)
      && w' == At(w, i, Moving(Setting(w.workspace, payload, roots), PlannedOps(roots), payload, map[], link))
    case BackUp(k) => a.Moving? && BackUpStep(w, i, k, w')
    case Install(k) => a.Moving? && InstallNext(w, i, k, w')
    case Fail =>
      a.Moving?
        && w' == At(w, i,
                    Undoing(a.g, a.ops, a.quarantine, |a.ops|, false, None,
                            !Unblocked(a.ops, a.quarantine, FAILED_NEW)))
    case FinishCommit =>
      a.Moving? && Progress(a.ops, |a.ops|) && HasDigest(Visible(w.workspace, excluded), a.link.after)
        && w' == Release(w, i, false)
    case BeginRestore(g, ops, after, link) =>
      a.Entered? && RestoreStart(excluded, links, w.workspace, m)
      && w' == At(w, i, Undoing(Restored(g, w.workspace, excluded), ops, after.quarantine, |ops|, false, Some(link),
                                !Unblocked(ops, after.quarantine, RESTORE_CURRENT)))
    case SetAsideNext => a.Undoing? && UndoHalf(w, i, m, w')
    case PutBackNext => a.Undoing? && UndoHalf(w, i, m, w')
    case FinishUndo => a.Undoing? && a.k == 0 && !a.half && w' == Release(w, i, a.spoiled)
    case BreakOff(_, _) => a.Undoing? && BreakOffStep(w, i, m, w')
  }

  // ----- the invariant

  /** One generation follows from another: along a link, back along it, or not at all. */
  ghost predicate Linked(excluded: set<Name>, links: set<Link>, v: Tree, w: Tree) {
    || v == w
    || (Hidden(v, excluded) == Hidden(w, excluded) && exists l | l in links ::
          || (HasDigest(Visible(v, excluded), l.before) && HasDigest(Visible(w, excluded), l.after))
          || (HasDigest(Visible(v, excluded), l.after) && HasDigest(Visible(w, excluded), l.before)))
  }

  ghost predicate Traced(excluded: set<Name>, links: set<Link>, generations: seq<Generation>) {
    forall j | 0 < j < |generations| ::
      generations[j].torn || Linked(excluded, links, generations[j - 1].tree, generations[j].tree)
  }

  /** The journal and the trees agree on what is still to be undone, and nothing is in the way. */
  ghost predicate UndoCells(g: Setting, ops: seq<CommitOperation>, cells: seq<Cell>, reserved: Name, s: UndoState,
                            k: nat, half: bool) {
    && OperationsFor(ops, g.roots) && UndoOk(g, cells, reserved, s) && |cells| == |ops| && k <= |ops|
    && NoneAbove(ops, reserved)
    && (if half then k > 0 && UndoneFrom(ops, cells[k - 1 := CellOf(ops[k - 1])], k)
                     && cells[k - 1].new_ != Installed && cells[k - 1].old_ == CellOf(ops[k - 1]).old_
                     && PlacesFree(ops, s.quarantine, reserved, k - 1)
        else UndoneFrom(ops, cells, k) && PlacesFree(ops, s.quarantine, reserved, k))
  }

  ghost predicate UndoAt(g: Setting, ops: seq<CommitOperation>, reserved: Name, s: UndoState, k: nat, half: bool) {
    exists cells :: UndoCells(g, ops, cells, reserved, s, k, half)
  }

  /** What an undo works on, spoiled or not. */
  ghost predicate UndoReal(a: Activity)
    requires a.Undoing?
  {
    && IsTree(a.quarantine) && a.k <= |a.ops| && (a.half ==> a.k > 0)
    && forall i | 0 <= i < |a.ops| :: Clean(a.ops[i].path) && a.ops[i].path != []
  }

  /** What holds for the broker inside, given the generation it found. */
  ghost predicate HoldsWithin(excluded: set<Name>, links: set<Link>, last: Tree, workspace: Tree, a: Activity) {
    match a
    case Idle => false
    case Entered => workspace == last
    case Moving(g, ops, apply, quarantine, link) =>
      && Shape(g, ops, Disk(workspace, apply, quarantine)) && g.base == last && VisibleRoots(g, excluded)
      && link in links && HasDigest(Visible(last, excluded), link.before)
    case Undoing(g, ops, quarantine, k, half, back, spoiled) =>
      && UndoReal(a)
      && (!spoiled ==>
        UndoAt(g, ops, Reserves(back), UndoState(workspace, quarantine, false), k, half)
        && Linked(excluded, links, last, g.base))
  }

  /** At most one broker is inside, the one that holds the lock; the generations form a path, and
      while the lock is free the workspace is the last of them. */
  ghost predicate WellOrdered(excluded: set<Name>, links: set<Link>, w: World) {
    && |w.generations| > 0 && Traced(excluded, links, w.generations) && IsTree(w.workspace)
    && (forall i | 0 <= i < |w.brokers| && w.brokers[i] != Idle :: w.lock == Some(i))
    && match w.lock
       case None => w.workspace == Latest(w)
       case Some(i) => i < |w.brokers| && HoldsWithin(excluded, links, Latest(w), w.workspace, w.brokers[i])
  }

  function Latest(w: World): Tree
    requires |w.generations| > 0
  {
    w.generations[|w.generations| - 1].tree
  }

  lemma TracedExtends(excluded: set<Name>, links: set<Link>, generations: seq<Generation>, next: Generation)
    requires |generations| > 0 && Traced(excluded, links, generations)
    requires next.torn || Linked(excluded, links, generations[|generations| - 1].tree, next.tree)
    ensures Traced(excluded, links, generations + [next])
  {
    var all := generations + [next];
    forall j | 0 < j < |all| ensures all[j].torn || Linked(excluded, links, all[j - 1].tree, all[j].tree) {
      if j < |generations| { assert all[j - 1] == generations[j - 1] && all[j] == generations[j]; }
    }
  }

  /** Leaving keeps order if what is left behind is linked to what was found, or torn. */
  lemma Leaves(excluded: set<Name>, links: set<Link>, w: World, i: nat, workspace: Tree, torn: bool)
    requires WellOrdered(excluded, links, w) && i < |w.brokers| && w.brokers[i] != Idle && IsTree(workspace)
    requires torn || Linked(excluded, links, Latest(w), workspace)
    ensures WellOrdered(excluded, links, Release(w.(workspace := workspace), i, torn))
  {
    TracedExtends(excluded, links, w.generations, Generation(workspace, torn));
  }

  /** Moving on inside keeps order if the broker's own condition holds again. */
  lemma Continues(excluded: set<Name>, links: set<Link>, w: World, i: nat, a: Activity, workspace: Tree)
    requires WellOrdered(excluded, links, w) && i < |w.brokers| && w.brokers[i] != Idle && IsTree(workspace)
    requires HoldsWithin(excluded, links, Latest(w), workspace, a)
    ensures WellOrdered(excluded, links, At(w, i, a).(workspace := workspace))
  {
  }

  /** The flags and the trees of a commit moved on together. */
  lemma MovesOn(excluded: set<Name>, links: set<Link>, w: World, i: nat, ops: seq<CommitOperation>, d: Disk)
    requires WellOrdered(excluded, links, w) && i < |w.brokers| && w.brokers[i].Moving? && IsTree(d.workspace)
    requires Shape(w.brokers[i].g, ops, d)
    ensures WellOrdered(excluded, links,
                        At(w, i, Moving(w.brokers[i].g, ops, d.apply, d.quarantine,
                                        w.brokers[i].link)).(workspace := d.workspace))
  {
    Continues(excluded, links, w, i, Moving(w.brokers[i].g, ops, d.apply, d.quarantine, w.brokers[i].link),
              d.workspace);
  }

  lemma BackUpKeeps(g: Setting, ops: seq<CommitOperation>, d: Disk, k: nat)
    requires Shape(g, ops, d) && k < |ops| && Progress(ops, k) && ops[k].beforeKind.Some?
    ensures ops[k].path != [] && MakeParents(d.quarantine, ops[k].path).Some?
    ensures var r := Rename(d.workspace, ops[k].path, MakeParents(d.quarantine, ops[k].path).value, ops[k].path);
      r.Renamed? && IsTree(r.source) && Shape(g, ops[k := BackedUp(ops[k])], Disk(r.source, d.apply, r.target))
  {
    assert Untouched(ops[k]);
    BackupParentsKeepShape(g, ops, d, k);
    BackupKeepsShape(g, ops, d.(quarantine := MakeParents(d.quarantine, ops[k].path).value), k);
  }

  lemma InstallKeeps(g: Setting, ops: seq<CommitOperation>, d: Disk, k: nat)
    requires Shape(g, ops, d) && k < |ops| && ops[k].afterKind.Some? && !ops[k].installed
      && (ops[k].backupMoved <==> ops[k].beforeKind.Some?)
    ensures ops[k].path != [] && MakeParents(d.workspace, ops[k].path).Some?
    ensures var r := Rename(d.apply, ops[k].path, MakeParents(d.workspace, ops[k].path).value, ops[k].path);
      r.Renamed? && IsTree(r.target) && Shape(g, ops[k := InPlace(ops[k])], Disk(r.target, r.source, d.quarantine))
  {
    InstallKeepsShape(g, ops, d, k);
  }

  lemma SetAsideKeeps(g: Setting, ops: seq<CommitOperation>, reserved: Name, s: UndoState, k: nat)
    requires UndoAt(g, ops, reserved, s, k, false) && 0 < k
    ensures k <= |ops| && ops[k - 1].path != []
    ensures var r := Uninstall(s, reserved, ops[k - 1]);
      r == GuardedUninstall(s, reserved, ops[k - 1]) && r.Some? && r.value.landed == s.landed
        && UndoAt(g, ops, reserved, r.value, k, true)
  {
    hide Rename, PlacesFree, Unblocked;
    var cells :| UndoCells(g, ops, cells, reserved, s, k, false);
    ReadyForTurn(g, ops, cells, reserved, s, k);
    var t, next := UninstallStep(g, ops, cells, reserved, s, k - 1);
    PlacesAfterSetAside(g, ops, s, reserved, k, t);
    assert next[k - 1 := CellOf(ops[k - 1])] == cells;
    assert UndoCells(g, ops, next, reserved, t, k, true);
  }

  lemma ReadyForTurn(g: Setting, ops: seq<CommitOperation>, cells: seq<Cell>, reserved: Name, s: UndoState, k: nat)
    requires UndoCells(g, ops, cells, reserved, s, k, false) && 0 < k
    ensures ops[k - 1].installed ==>
      AsideFree(g, cells, reserved, s.quarantine, k - 1) && ops[k - 1].path in s.workspace
  {
    assert OperationFor(ops[k - 1], g.roots[k - 1]);
    if ops[k - 1].installed {
      FreeAtTurn(g, ops, cells, reserved, s, k - 1);
      StandsThere(g, cells, reserved, s, k - 1);
    }
  }

  /** What the cells say was moved is where they say. */
  lemma StandsThere(g: Setting, cells: seq<Cell>, reserved: Name, s: UndoState, i: nat)
    requires UndoOk(g, cells, reserved, s) && i < |cells|
    ensures cells[i].new_ == Installed ==> g.roots[i].path in s.workspace
    ensures cells[i].old_ == InQuarantine ==> g.roots[i].path in s.quarantine
  {
    var p := g.roots[i].path;
    assert g.roots[i] in g.roots && Above(p, p);
    assert Look(s.workspace, p) == CellView(g, cells[i], p);
    if cells[i].old_ == InQuarantine { assert Look(s.quarantine, p) == Look(g.base, p); }
  }

  lemma PutBackKeeps(g: Setting, ops: seq<CommitOperation>, reserved: Name, s: UndoState, k: nat)
    requires UndoAt(g, ops, reserved, s, k, true)
    ensures 0 < k <= |ops| && ops[k - 1].path != []
    ensures var r := Reinstate(s, ops[k - 1]);
      r == GuardedReinstate(s, ops[k - 1]) && r.Some? && r.value.landed == s.landed
        && UndoAt(g, ops, reserved, r.value, k - 1, false)
  {
    hide Rename, UndoOk, PlacesFree, Unblocked;
    var cells :| UndoCells(g, ops, cells, reserved, s, k, true);
    assert OperationFor(ops[k - 1], g.roots[k - 1]);
    StandsThere(g, cells, reserved, s, k - 1);
    var t, next := ReinstateStep(g, ops, cells, reserved, s, k - 1);
    PlacesAfterPutBack(ops, s, reserved, k - 1, ops[k - 1], t);
    CellsPutBack(ops, cells, next, k);
    assert UndoCells(g, ops, next, reserved, t, k - 1, false);
  }

  lemma CellsPutBack(ops: seq<CommitOperation>, cells: seq<Cell>, next: seq<Cell>, k: nat)
    requires 0 < k <= |ops| == |cells| == |next| && UndoneFrom(ops, cells[k - 1 := CellOf(ops[k - 1])], k)
    requires next == cells[k - 1 := next[k - 1]] && next[k - 1].old_ == InWorkspace && next[k - 1].new_ != Installed
    ensures UndoneFrom(ops, next, k - 1)
  {
    var before := cells[k - 1 := CellOf(ops[k - 1])];
    forall i | 0 <= i < k - 1 ensures next[i] == CellOf(ops[i]) { assert next[i] == cells[i] == before[i]; }
    forall i | k - 1 <= i < |ops| ensures next[i].old_ == InWorkspace && next[i].new_ != Installed {
      if i >= k { assert next[i] == cells[i] == before[i]; }
    }
  }

  /** The next half turn of an undo that is not spoiled is possible and keeps to the journal. */
  lemma HalfKeeps(a: Activity, s: UndoState)
    requires a.Undoing? && UndoAt(a.g, a.ops, Reserves(a.back), s, a.k, a.half) && (a.half || a.k > 0) && !s.landed
    ensures 0 < a.k <= |a.ops| && a.ops[a.k - 1].path != [] && HalfTurn(a, s).Some? && !HalfTurn(a, s).value.landed
    ensures UndoAt(a.g, a.ops, Reserves(a.back), HalfTurn(a, s).value, if a.half then a.k - 1 else a.k, !a.half)
  {
    if a.half {
      PutBackKeeps(a.g, a.ops, Reserves(a.back), s, a.k);
    } else {
      SetAsideKeeps(a.g, a.ops, Reserves(a.back), s, a.k);
    }
  }

  /** Half a turn leaves trees, whatever it does. */
  lemma HalfTrees(a: Activity, s: UndoState)
    requires a.Undoing? && UndoReal(a) && 0 < a.k && Trees2(s) && HalfTurn(a, s).Some?
    ensures Trees2(HalfTurn(a, s).value)
  {
    hide Rename, MakeParents, HasParent, IsTree, SetAsideOne, Aside;
    var op := a.ops[a.k - 1];
    if HalfTurn(a, s).value != s {
      if a.half { PutBackKeepsTrees(s, op.path, HalfTurn(a, s).value); }
      else { SetAsideKeepsTrees(s, Reserves(a.back), op.path, HalfTurn(a, s).value); }
    }
  }

  lemma UndoneIsBase(g: Setting, ops: seq<CommitOperation>, reserved: Name, s: UndoState)
    requires UndoAt(g, ops, reserved, s, 0, false)
    ensures s.workspace == g.base
  {
    var cells :| UndoCells(g, ops, cells, reserved, s, 0, false);
    AllBack(g, cells, s.workspace);
  }

  lemma FailKeeps(g: Setting, ops: seq<CommitOperation>, d: Disk)
    requires Shape(g, ops, d) && Unblocked(ops, d.quarantine, FAILED_NEW)
    ensures UndoAt(g, ops, FAILED_NEW, UndoState(d.workspace, d.quarantine, false), |ops|, false)
  {
    ReadyToUndo(g, ops, d, FAILED_NEW);
    UnblockedSplits(ops, d.quarantine, FAILED_NEW);
    assert UndoCells(g, ops, CellsOf(ops), FAILED_NEW, UndoState(d.workspace, d.quarantine, false), |ops|, false);
  }

  lemma RestoreEnters(excluded: set<Name>, links: set<Link>, w: Tree, m: Move)
    requires m.BeginRestore? && RestoreStart(excluded, links, w, m) && IsTree(w)
    ensures var r := Restored(m.g, w, excluded);
      && GoodSetting(r) && OperationsFor(m.ops, r.roots)
      && (Unblocked(m.ops, m.after.quarantine, RESTORE_CURRENT) ==>
            UndoAt(r, m.ops, RESTORE_CURRENT, UndoState(w, m.after.quarantine, false), |m.ops|, false))
      && Linked(excluded, links, w, r.base)
  {
    var r := Restored(m.g, w, excluded);
    DigestDeterminesTree(Visible(w, excluded), Visible(m.after.workspace, excluded), m.link.after);
    ReadyToRestore(m.g, m.ops, m.after, w, excluded, RESTORE_CURRENT);
    if Unblocked(m.ops, m.after.quarantine, RESTORE_CURRENT) {
      UnblockedSplits(m.ops, m.after.quarantine, RESTORE_CURRENT);
      assert UndoCells(r, m.ops, CellsOf(m.ops), RESTORE_CURRENT, UndoState(w, m.after.quarantine, false), |m.ops|,
                       false);
    }
    RestoreLinks(excluded, links, w, m.g, m.link);
  }

  /** The operations of a setting are real ones. */
  lemma OperationsReal(g: Setting, ops: seq<CommitOperation>)
    requires GoodSetting(g) && OperationsFor(ops, g.roots)
    ensures forall i | 0 <= i < |ops| :: Clean(ops[i].path) && ops[i].path != []
  {
    forall i | 0 <= i < |ops| ensures Clean(ops[i].path) && ops[i].path != [] {
      assert OperationFor(ops[i], g.roots[i]) && g.roots[i] in g.roots;
    }
  }

  lemma RestoreLinks(excluded: set<Name>, links: set<Link>, w: Tree, g: Setting, link: Link)
    requires link in links && HasDigest(Visible(g.base, excluded), link.before)
      && HasDigest(Visible(w, excluded), link.after)
    ensures Linked(excluded, links, w, Restored(g, w, excluded).base)
  {
    var t := Restored(g, w, excluded).base;
    assert Visible(t, excluded) == Visible(g.base, excluded) && Hidden(t, excluded) == Hidden(w, excluded);
  }

  lemma EnteredKeepsOrder(excluded: set<Name>, links: set<Link>, w: World, i: nat, m: Move, w': World)
    requires WellOrdered(excluded, links, w) && Next(excluded, links, w, i, m, w') && w.brokers[i].Entered?
    ensures WellOrdered(excluded, links, w')
  {
    hide StagedTo, RootsOf, Antichain, GoodSetting, Covered;
    match m
    case GiveUp => Leaves(excluded, links, w, i, w.workspace, false);
    case BeginCommit(payload, roots, link) =>
      InitialShape(Setting(w.workspace, payload, roots));
      Continues(excluded, links, w, i,
                Moving(Setting(w.workspace, payload, roots), PlannedOps(roots), payload, map[], link), w.workspace);
    case BeginRestore(g, ops, after, link) =>
      RestoreEnters(excluded, links, w.workspace, m);
      OperationsReal(Restored(g, w.workspace, excluded), ops);
      Continues(excluded, links, w, i, w'.brokers[i], w.workspace);
  }

  lemma BackUpKeepsOrder(excluded: set<Name>, links: set<Link>, w: World, i: nat, k: nat, w': World)
    requires WellOrdered(excluded, links, w) && i < |w.brokers| && w.brokers[i].Moving? && BackUpStep(w, i, k, w')
    ensures WellOrdered(excluded, links, w')
  {
    var a := w.brokers[i];
    BackUpKeeps(a.g, a.ops, Disk(w.workspace, a.apply, a.quarantine), k);
    var r := Rename(w.workspace, a.ops[k].path, MakeParents(a.quarantine, a.ops[k].path).value, a.ops[k].path);
    MovesOn(excluded, links, w, i, a.ops[k := BackedUp(a.ops[k])], Disk(r.source, a.apply, r.target));
  }

  lemma InstallKeepsOrder(excluded: set<Name>, links: set<Link>, w: World, i: nat, k: nat, w': World)
    requires WellOrdered(excluded, links, w) && i < |w.brokers| && w.brokers[i].Moving? && InstallNext(w, i, k, w')
    ensures WellOrdered(excluded, links, w')
  {
    var a := w.brokers[i];
    InstallKeeps(a.g, a.ops, Disk(w.workspace, a.apply, a.quarantine), k);
    var r := Rename(a.apply, a.ops[k].path, MakeParents(w.workspace, a.ops[k].path).value, a.ops[k].path);
    MovesOn(excluded, links, w, i, a.ops[k := InPlace(a.ops[k])], Disk(r.target, r.source, a.quarantine));
  }

  lemma MovingKeepsOrder(excluded: set<Name>, links: set<Link>, w: World, i: nat, m: Move, w': World)
    requires WellOrdered(excluded, links, w) && Next(excluded, links, w, i, m, w') && w.brokers[i].Moving?
    ensures WellOrdered(excluded, links, w')
  {
    var a := w.brokers[i];
    match m
    case BackUp(k) => BackUpKeepsOrder(excluded, links, w, i, k, w');
    case Install(k) => InstallKeepsOrder(excluded, links, w, i, k, w');
    case Fail =>
      if Unblocked(a.ops, a.quarantine, FAILED_NEW) { FailKeeps(a.g, a.ops, Disk(w.workspace, a.apply, a.quarantine)); }
      OperationsReal(a.g, a.ops);
      Continues(excluded, links, w, i, w'.brokers[i], w.workspace);
    case FinishCommit =>
      HiddenUntouched(a.g, a.ops, Disk(w.workspace, a.apply, a.quarantine), excluded);
      Leaves(excluded, links, w, i, w.workspace, false);
  }

  lemma HalfKeepsOrder(excluded: set<Name>, links: set<Link>, w: World, i: nat, m: Move, w': World)
    requires WellOrdered(excluded, links, w) && i < |w.brokers| && w.brokers[i].Undoing? && UndoHalf(w, i, m, w')
    ensures WellOrdered(excluded, links, w')
  {
    var a := w.brokers[i];
    var s := UndoState(w.workspace, a.quarantine, false);
    HalfTrees(a, s);
    if !a.spoiled { HalfKeeps(a, s); }
    var t := HalfTurn(a, s).value;
    assert !a.spoiled ==> t == UndoState(t.workspace, t.quarantine, false);
    Continues(excluded, links, w, i, w'.brokers[i], t.workspace);
  }

  lemma BreakOffKeepsOrder(excluded: set<Name>, links: set<Link>, w: World, i: nat, m: Move, w': World)
    requires WellOrdered(excluded, links, w) && i < |w.brokers| && w.brokers[i].Undoing? && m.BreakOff?
      && BreakOffStep(w, i, m, w')
    ensures WellOrdered(excluded, links, w')
  {
    if w.brokers[i].back == None {
      Continues(excluded, links, w, i, w'.brokers[i], m.workspace);
    } else {
      Leaves(excluded, links, w, i, m.workspace, true);
    }
  }

  lemma UndoingKeepsOrder(excluded: set<Name>, links: set<Link>, w: World, i: nat, m: Move, w': World)
    requires WellOrdered(excluded, links, w) && Next(excluded, links, w, i, m, w') && w.brokers[i].Undoing?
    ensures WellOrdered(excluded, links, w')
  {
    var a := w.brokers[i];
    match m
    case FinishUndo =>
      if !a.spoiled { UndoneIsBase(a.g, a.ops, Reserves(a.back), UndoState(w.workspace, a.quarantine, false)); }
      Leaves(excluded, links, w, i, w.workspace, a.spoiled);
    case BreakOff(_, _) => BreakOffKeepsOrder(excluded, links, w, i, m, w');
    case SetAsideNext => HalfKeepsOrder(excluded, links, w, i, m, w');
    case PutBackNext => HalfKeepsOrder(excluded, links, w, i, m, w');
  }

  /** Every step of every broker keeps order. */
  lemma NextKeepsOrder(excluded: set<Name>, links: set<Link>, w: World, i: nat, m: Move, w': World)
    requires WellOrdered(excluded, links, w) && Next(excluded, links, w, i, m, w')
    ensures WellOrdered(excluded, links, w')
  {
    match w.brokers[i]
    case Idle =>
    case Entered => EnteredKeepsOrder(excluded, links, w, i, m, w');
    case Moving(_, _, _, _, _) => MovingKeepsOrder(excluded, links, w, i, m, w');
    case Undoing(_, _, _, _, _, _, _) => UndoingKeepsOrder(excluded, links, w, i, m, w');
  }

  // ----- runs

  ghost predicate Interleaving(excluded: set<Name>, links: set<Link>, worlds: seq<World>, who: seq<nat>,
                               moves: seq<Move>) {
    && |worlds| == |moves| + 1 && |who| == |moves|
    && IsTree(worlds[0].workspace) && worlds[0].lock == None
    && worlds[0].generations == [Generation(worlds[0].workspace, false)]
    && (forall i | 0 <= i < |worlds[0].brokers| :: worlds[0].brokers[i] == Idle)
    && forall j | 0 <= j < |moves| :: NextAt(excluded, links, worlds, who, moves, j)
  }

  ghost predicate NextAt(excluded: set<Name>, links: set<Link>, worlds: seq<World>, who: seq<nat>, moves: seq<Move>,
                         j: nat)
    requires j < |moves| && |worlds| == |moves| + 1 && |who| == |moves|
  {
    Next(excluded, links, worlds[j], who[j], moves[j], worlds[j + 1])
  }

  lemma {:induction false} OrderThroughout(excluded: set<Name>, links: set<Link>, worlds: seq<World>, who: seq<nat>,
                                           moves: seq<Move>, j: nat)
    requires Interleaving(excluded, links, worlds, who, moves) && j < |worlds|
    ensures WellOrdered(excluded, links, worlds[j])
  {
    if j > 0 {
      OrderThroughout(excluded, links, worlds, who, moves, j - 1);
      assert NextAt(excluded, links, worlds, who, moves, j - 1);
      NextKeepsOrder(excluded, links, worlds[j - 1], who[j - 1], moves[j - 1], worlds[j]);
    }
  }

  /** However the brokers interleave, no two are ever inside at once; and whenever the lock is
      free the workspace is the last of a history that starts where the run started and in which
      each generation is the plan tree, the baseline, or the very tree before it, unless it was
      torn by an undo. */
  lemma HistoryIsAPath(excluded: set<Name>, links: set<Link>, worlds: seq<World>, who: seq<nat>, moves: seq<Move>,
                       j: nat)
    requires Interleaving(excluded, links, worlds, who, moves) && j < |worlds|
    ensures forall p, q | 0 <= p < |worlds[j].brokers| && 0 <= q < |worlds[j].brokers| ::
      worlds[j].brokers[p] != Idle && worlds[j].brokers[q] != Idle ==> p == q
    ensures |worlds[j].generations| > 0 && Traced(excluded, links, worlds[j].generations)
      && worlds[j].generations[0].tree == worlds[0].workspace
    ensures worlds[j].lock == None ==> worlds[j].workspace == Latest(worlds[j])
  {
    OrderThroughout(excluded, links, worlds, who, moves, j);
    FirstStays(excluded, links, worlds, who, moves, j);
  }

  lemma {:induction false} FirstStays(excluded: set<Name>, links: set<Link>, worlds: seq<World>, who: seq<nat>,
                                      moves: seq<Move>, j: nat)
    requires Interleaving(excluded, links, worlds, who, moves) && j < |worlds|
    ensures |worlds[j].generations| > 0 && worlds[j].generations[0].tree == worlds[0].workspace
  {
    if j > 0 {
      FirstStays(excluded, links, worlds, who, moves, j - 1);
      assert NextAt(excluded, links, worlds, who, moves, j - 1);
      GenerationsGrow(excluded, links, worlds[j - 1], who[j - 1], moves[j - 1], worlds[j]);
    }
  }

  lemma GenerationsGrow(excluded: set<Name>, links: set<Link>, w: World, i: nat, m: Move, w': World)
    requires Next(excluded, links, w, i, m, w')
    ensures w.generations <= w'.generations
  {
  }

  /** An undo that is not spoiled is never stuck: its next half turn is possible, or it is over. */
  lemma UndoNeverStuck(excluded: set<Name>, links: set<Link>, w: World, i: nat)
    requires WellOrdered(excluded, links, w) && i < |w.brokers| && w.brokers[i].Undoing? && !w.brokers[i].spoiled
    ensures exists m: Move, w': World :: !m.BreakOff? && Next(excluded, links, w, i, m, w')
  {
    var a := w.brokers[i];
    var s := UndoState(w.workspace, a.quarantine, false);
    if a.k == 0 && !a.half {
      assert Next(excluded, links, w, i, FinishUndo, Release(w, i, false));
    } else {
      HalfKeeps(a, s);
      var t := HalfTurn(a, s).value;
      var m := if a.half then PutBackNext else SetAsideNext;
      var k := if a.half then a.k - 1 else a.k;
      var w' := At(w, i, a.(quarantine := t.quarantine, k := k, half := !a.half)).(workspace := t.workspace);
      assert UndoHalf(w, i, m, w');
      assert !m.BreakOff? && Next(excluded, links, w, i, m, w');
    }
  }

  // ----- when nothing is torn

  /** No turn breaks off in this step, and no undo begins that is blocked. */
  ghost predicate Smooth(w: World, i: nat, m: Move)
    requires i < |w.brokers|
  {
    && !m.BreakOff?
    && (m.Fail? && w.brokers[i].Moving? ==> Unblocked(w.brokers[i].ops, w.brokers[i].quarantine, FAILED_NEW))
    && (m.BeginRestore? ==> Unblocked(m.ops, m.after.quarantine, RESTORE_CURRENT))
  }

  ghost predicate SmoothAt(worlds: seq<World>, who: seq<nat>, moves: seq<Move>, j: nat)
    requires j < |moves| && |worlds| == |moves| + 1 && |who| == |moves|
  {
    who[j] < |worlds[j].brokers| ==> Smooth(worlds[j], who[j], moves[j])
  }

  predicate Untorn(w: World) {
    && (forall j | 0 <= j < |w.generations| :: !w.generations[j].torn)
    && (forall i | 0 <= i < |w.brokers| && w.brokers[i].Undoing? :: !w.brokers[i].spoiled)
  }

  lemma SmoothKeeps(excluded: set<Name>, links: set<Link>, w: World, i: nat, m: Move, w': World)
    requires Next(excluded, links, w, i, m, w') && Smooth(w, i, m) && Untorn(w)
    ensures Untorn(w')
  {
  }

  /** A run in which no turn of an undo breaks off and no undo begins blocked tears nothing: then
      every generation is linked to the one before it. */
  lemma {:induction false} SmoothRunsTearNothing(excluded: set<Name>, links: set<Link>, worlds: seq<World>,
                                                 who: seq<nat>, moves: seq<Move>, j: nat)
    requires Interleaving(excluded, links, worlds, who, moves) && j < |worlds|
    requires forall n | 0 <= n < j :: SmoothAt(worlds, who, moves, n)
    ensures Untorn(worlds[j])
  {
    if j > 0 {
      SmoothRunsTearNothing(excluded, links, worlds, who, moves, j - 1);
      assert NextAt(excluded, links, worlds, who, moves, j - 1) && SmoothAt(worlds, who, moves, j - 1);
      SmoothKeeps(excluded, links, worlds[j - 1], who[j - 1], moves[j - 1], worlds[j]);
    }
  }
}

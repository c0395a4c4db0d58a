/** A commit that meets no trouble can always be carried through: for any two trees the payloads
    can be staged and the loop over the operations can be finished, and it ends at the staged
    tree. */
module Completed {
  import opened Paths
  import opened Trees
  import opened Manifests
  import opened Diffs
  import opened Layout
  import opened Records
  import opened Undo
  import opened Journal
  import opened Staging
  import opened RestoreSetting

  /** All payloads of one view of the worktree can be staged. */
  lemma {:induction false} StagesAll(roots: seq<Change>, k: nat, view: Tree) returns (apply: Tree)
    requires Antichain(roots) && PathsClean(roots) && IsTree(view) && CanStage(roots, view) && k <= |roots|
    ensures StagedTo(roots, k, apply) && PayloadIs(roots, k, apply, view)
    decreases k
  {
    apply := map[];
    if k > 0 {
      apply := StagesAll(roots, k - 1, view);
      if roots[k - 1].after.None? {
        SkipOne(roots, k - 1, apply);
      } else {
        assert roots[k - 1] in roots;
        ParentsStage(roots, k - 1, apply);
        StageOne(roots, k - 1, apply, view);
        apply := CopyEntry(view, roots[k - 1].path, apply).value;
      }
    }
  }

  /** The two renames of operation `k`. */
  lemma OneCompletes(g: Setting, ops: seq<CommitOperation>, d: Disk, k: nat)
    returns (next: seq<CommitOperation>, d': Disk)
    requires Shape(g, ops, d) && Progress(ops, k) && k < |ops|
    ensures Shape(g, next, d') && Progress(next, k + 1) && |next| == |ops|
  {
    var mid, m := BackupCompletes(g, ops, d, k);
    next, d' := InstallCompletes(g, mid, m, k);
    OneFinished(ops, mid, next, k);
  }

  lemma BackupCompletes(g: Setting, ops: seq<CommitOperation>, d: Disk, k: nat)
    returns (next: seq<CommitOperation>, d': Disk)
    requires Shape(g, ops, d) && k < |ops| && Untouched(ops[k])
    ensures Shape(g, next, d') && |next| == |ops| && next == ops[k := next[k]]
    ensures next[k].beforeKind == ops[k].beforeKind && next[k].afterKind == ops[k].afterKind && !next[k].installed
    ensures next[k].backupMoved <==> next[k].beforeKind.Some?
  {
    next, d' := ops, d;
    if ops[k].beforeKind.Some? {
      BackupParentsKeepShape(g, ops, d, k);
      d' := d.(quarantine := MakeParents(d.quarantine, ops[k].path).value);
      BackupKeepsShape(g, ops, d', k);
      var r := Rename(d'.workspace, ops[k].path, d'.quarantine, ops[k].path);
      next, d' := ops[k := BackedUp(ops[k])], d'.(workspace := r.source, quarantine := r.target);
    }
  }

  lemma InstallCompletes(g: Setting, ops: seq<CommitOperation>, d: Disk, k: nat)
    returns (next: seq<CommitOperation>, d': Disk)
    requires Shape(g, ops, d) && k < |ops| && !ops[k].installed && (ops[k].backupMoved <==> ops[k].beforeKind.Some?)
    ensures Shape(g, next, d') && |next| == |ops| && next == ops[k := next[k]] && Finished(next[k])
  {
    next, d' := ops, d;
    if ops[k].afterKind.Some? {
      InstallKeepsShape(g, ops, d, k);
      var r := Rename(d.apply, ops[k].path, d.workspace, ops[k].path);
      next, d' := ops[k := InPlace(ops[k])], d.(apply := r.source, workspace := r.target);
    }
  }

  lemma OneFinished(ops: seq<CommitOperation>, mid: seq<CommitOperation>, next: seq<CommitOperation>, k: nat)
    requires Progress(ops, k) && k < |ops| == |mid| == |next| && mid == ops[k := mid[k]] && next == mid[k := next[k]]
      && Finished(next[k])
    ensures Progress(next, k + 1)
  {
    forall i | 0 <= i < |ops| && i != k ensures next[i] == ops[i] {
      assert next[i] == mid[i];
    }
  }

  /** From any point between two operations the loop can be finished. */
  lemma {:induction false} LoopCompletes(g: Setting, ops: seq<CommitOperation>, d: Disk, k: nat)
    returns (done: seq<CommitOperation>, d': Disk)
    requires Shape(g, ops, d) && Progress(ops, k)
    ensures Shape(g, done, d') && Progress(done, |done|)
    decreases |ops| - k
  {
    if k == |ops| {
      done, d' := ops, d;
    } else {
      var next, moved := OneCompletes(g, ops, d, k);
      done, d' := LoopCompletes(g, next, moved, k + 1);
    }
  }

  predicate NoSpecials(t: Tree) {
    forall x | x in t :: !t[x].Special?
  }

  /** The roots of a diff can be staged from a tree without special files. */
  lemma RootsStage(b: Tree, s: Tree, roots: seq<Change>)
    requires RootsOf(b, s, roots) && NoSpecials(s)
    ensures CanStage(roots, s) && PathsClean(roots)
  {
    forall c | c in roots && c.after.Some?
      ensures c.path in s && forall x | x in s && Above(c.path, x) :: !s[x].Special? {
      assert c.after == Lookup(EntriesOf(s), c.path);
    }
  }

  /** For any workspace and any staged tree without special files there is a complete run of the
      commit, and it leaves exactly the staged tree beside the excluded entries. */
  lemma CommitCompletes(base: Tree, s: Tree, excluded: set<Name>)
    returns (g: Setting, ops: seq<CommitOperation>, d: Disk)
    requires IsTree(base) && AcceptableTree(Visible(base, excluded)) && AcceptableTree(s) && NoSpecials(s)
    requires forall x | x in s :: !IsExcluded(x, excluded)
    ensures Shape(g, ops, d) && Progress(ops, |ops|) && g.base == base && VisibleRoots(g, excluded)
    ensures g.roots == Roots(TreeDiff(Visible(base, excluded), s)) && PayloadIs(g.roots, |g.roots|, g.payload, s)
    ensures d.workspace == Target(base, s, excluded)
  {
    var roots := Roots(TreeDiff(Visible(base, excluded), s));
    OperationRootsOfTrees(Visible(base, excluded), s);
    RootsStage(Visible(base, excluded), s, roots);
    var apply := StagesAll(roots, |roots|, s);
    SettingOf(base, s, excluded, roots, apply);
    g := Setting(base, apply, roots);
    InitialShape(g);
    ops, d := LoopCompletes(g, PlannedOps(roots), Disk(base, apply, map[]), 0);
    FinishedIsTarget(g, ops, d, s, excluded);
  }
}

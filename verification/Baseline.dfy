/** How a transaction begins: the disposable worktree is a copy that leaves out, at every depth,
    the names that match an excluded name read as a pattern, while scans leave out the excluded
    names themselves, and at the top only. */
module Baseline {
  import opened Paths
  import opened Trees
  import opened Manifests
  import opened Scans
  import opened Diffs
  import opened UndoCalls

  /** Some entry the scan records lies at or below a name the copy leaves out. */
  predicate LosesEntries(t: Tree, excluded: set<Name>, ignored: Name -> bool) {
    exists x | x in t :: !IsExcluded(x, excluded) && !Taken(x, ignored)
  }

  predicate Taken(x: Path, ignored: Name -> bool) {
    forall k | 0 <= k < |x| :: !ignored(x[k])
  }

  function Copied(t: Tree, ignored: Name -> bool): Tree {
    map x | x in t && Taken(x, ignored) :: t[x]
  }

  /** `shutil.copytree` with ignored names; it raises in the end if it met a special file. */
  function CopyWorkspace(t: Tree, ignored: Name -> bool): Option<Tree> {
    if NoSpecial(t, ignored) then Some(Copied(t, ignored)) else None
  }

  /** The workspace has no special file where the copy would meet it. */
  predicate NoSpecial(t: Tree, ignored: Name -> bool) {
    forall x | x in t && Taken(x, ignored) :: !t[x].Special?
  }

  lemma CopiedIsTree(t: Tree, ignored: Name -> bool)
    requires IsTree(t)
    ensures IsTree(Copied(t, ignored))
  {
    var copy := Copied(t, ignored);
    forall a, p | p in copy && Inside(a, p) ensures DirectoryAt(copy, a) {
      assert forall k | 0 <= k < |a| :: a[k] == p[k];
    }
  }

  /** A scan of the copy sees what a scan of the workspace sees exactly if no entry is lost. */
  lemma CopyMatches(t: Tree, excluded: set<Name>, ignored: Name -> bool)
    ensures Visible(Copied(t, ignored), excluded) == Visible(t, excluded) <==> !LosesEntries(t, excluded, ignored)
  {
    var seen, visible := Visible(Copied(t, ignored), excluded), Visible(t, excluded);
    if LosesEntries(t, excluded, ignored) {
      var x :| x in t && !IsExcluded(x, excluded) && !Taken(x, ignored);
      assert x in visible && x !in seen;
    } else {
      forall x ensures Look(seen, x) == Look(visible, x) {
      }
      SameTree(seen, visible);
    }
  }

  /** The copy meets a special file exactly if one lies outside the names it leaves out, and loses an
      entry exactly if one at or below such a name, at any depth, is not excluded at the top. */
  lemma CopyMisses(t: Tree, excluded: set<Name>, ignored: Name -> bool)
    ensures NoSpecial(t, ignored) <==>
      forall x | x in t && t[x].Special? :: exists k | 0 <= k < |x| :: ignored(x[k])
    ensures LosesEntries(t, excluded, ignored) <==>
      !forall x, k | x in t && 0 <= k < |x| && ignored(x[k]) :: x[0] in excluded
  {
  }

  /** The copy is the tree without what lies at or below a name that is left out. */
  lemma CopiedAt(t: Tree, ignored: Name -> bool, x: Path)
    ensures Look(Copied(t, ignored), x) == if exists k | 0 <= k < |x| :: ignored(x[k]) then None else Look(t, x)
  {
  }

  datatype Begun = Begun(baseline: Manifest, worktree: Tree)

  /** What begin takes from the workspace, which others may change between its three visits.
      What it returns is always a worktree with exactly the recorded baseline. In a workspace
      that stays as it is it succeeds if and only if the workspace can be scanned, the copy meets
      no special file, and no recorded entry is lost by it. */
  method TakeBaseline(faults: nat -> bool, calls: nat, world: nat -> Tree, excluded: set<Name>, ignored: Name -> bool,
                      maxEntries: nat, maxBytes: nat, ghost w: Tree)
    returns (r: Option<Begun>, c: nat)
    requires AgentReal(world)
    ensures calls <= c <= calls + 4 && (r.Some? ==> c == calls + 4)
    ensures r.Some? ==>
      && r.value.baseline.digest == DigestOf(EntriesOf(Visible(world(calls), excluded)))
      && r.value.worktree == Copied(world(calls + 1), ignored)
      && HasDigest(Visible(world(calls + 2), excluded), r.value.baseline.digest)
    ensures r.Some? ==>
      Genuine(r.value.baseline) && IsTree(r.value.worktree)
      && HasDigest(Visible(r.value.worktree, excluded), r.value.baseline.digest)
    ensures !FaultIn(faults, calls, c) && Calm(world, calls, c, w) ==>
      (r.Some? <==>
        !ScanRejects(w, excluded, {}, maxEntries, maxBytes) && NoSpecial(w, ignored)
        && !LosesEntries(w, excluded, ignored))
  {
    r, c := None, calls + 1;
    var before := ScanAt(faults, calls, world(calls), excluded, maxEntries, maxBytes);
    if before.None? { return; }
    c := calls + 2;
    if faults(calls + 1) { return; }
    var copy := CopyWorkspace(world(calls + 1), ignored);
    CopiedIsTree(world(calls + 1), ignored);
    if copy.None? { return; }
    c := calls + 3;
    var after := ScanAt(faults, calls + 2, world(calls + 2), excluded, maxEntries, maxBytes);
    if after.None? { return; }
    c := calls + 4;
    var staged := ScanAt(faults, calls + 3, copy.value, excluded, maxEntries, maxBytes);
    if staged.Some? && after.value.digest == before.value.digest && staged.value.digest == before.value.digest {
      r := Some(Begun(before.value, copy.value));
    }
    if Calm(world, calls, c, w) {
      BeginExact(w, excluded, ignored, maxEntries, maxBytes, before.value.digest, copy.value);
      assert after.value.digest == before.value.digest by {
        assert HasDigest(Visible(w, excluded), after.value.digest)
          && HasDigest(Visible(w, excluded), before.value.digest);
      }
    }
  }

  lemma BeginExact(w: Tree, excluded: set<Name>, ignored: Name -> bool, maxEntries: nat, maxBytes: nat, d: TreeDigest,
                   copy: Tree)
    requires IsTree(w) && HasDigest(Visible(w, excluded), d) && copy == Copied(w, ignored)
    requires !ScanRejects(w, excluded, {}, maxEntries, maxBytes)
    ensures HasDigest(Visible(copy, excluded), d) <==> !LosesEntries(w, excluded, ignored)
    ensures !LosesEntries(w, excluded, ignored) ==> !ScanRejects(copy, excluded, {}, maxEntries, maxBytes)
  {
    CopyMatches(w, excluded, ignored);
    if HasDigest(Visible(copy, excluded), d) {
      DigestDeterminesTree(Visible(copy, excluded), Visible(w, excluded), d);
    }
    if !LosesEntries(w, excluded, ignored) && ScanRejects(copy, excluded, {}, maxEntries, maxBytes) {
      ScanSeesVisible(copy, w, excluded, maxEntries, maxBytes);
    }
  }
}

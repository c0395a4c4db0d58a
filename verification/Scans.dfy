/** Trees as their digests show them, and the scan as one call into the system, made while the
    agent or somebody else may be changing the tree. */
module Scans {
  import opened Paths
  import opened Trees
  import opened Manifests
  import opened Diffs

  /** `t` has the manifest digest `d`. */
  ghost predicate HasDigest(t: Tree, d: TreeDigest) {
    EntriesOk(EntriesOf(t)) && CleanKeys(EntriesOf(t)) && DigestOf(EntriesOf(t)) == d
  }

  lemma DigestDeterminesTree(t: Tree, u: Tree, d: TreeDigest)
    requires HasDigest(t, d) && HasDigest(u, d)
    ensures t == u
  {
    DigestDeterminesEntries(EntriesOf(t), EntriesOf(u));
    EntriesDetermineTree(t, u);
  }

  lemma WholeTree(t: Tree, u: Tree, excluded: set<Name>)
    requires Visible(t, excluded) == Visible(u, excluded) && Hidden(t, excluded) == Hidden(u, excluded)
    ensures t == u
  {
    forall x ensures Look(t, x) == Look(u, x) {
      assert Look(Visible(t, excluded), x) == Look(Visible(u, excluded), x);
      assert Look(Hidden(t, excluded), x) == Look(Hidden(u, excluded), x);
    }
    SameTree(t, u);
  }

  lemma ScanSeesVisible(t: Tree, u: Tree, excluded: set<Name>, maxEntries: nat, maxBytes: nat)
    requires Visible(t, excluded) == Visible(u, excluded)
    ensures ScanRejects(t, excluded, {}, maxEntries, maxBytes) ==> ScanRejects(u, excluded, {}, maxEntries, maxBytes)
  {
    forall p ensures p in Scope(t, excluded) <==> p in Scope(u, excluded) {
      assert p in Visible(t, excluded) <==> p in Visible(u, excluded);
    }
    assert Scope(t, excluded) == Scope(u, excluded);
    if e :| ScanRefuses(t, excluded, {}, maxEntries, maxBytes, e) {
      assert ScanRefuses(u, excluded, {}, maxEntries, maxBytes, e);
    }
  }

  /** What others leave in a directory is always a tree. */
  ghost predicate AgentReal(agent: nat -> Tree) {
    forall n: nat :: IsTree(agent(n))
  }

  /** Nobody touches the directory between two calls. */
  ghost predicate Calm(agent: nat -> Tree, start: nat, end: nat, view: Tree) {
    forall n: nat | start <= n < end :: agent(n) == view
  }

  lemma CalmBefore(agent: nat -> Tree, start: nat, mid: nat, end: nat, view: Tree)
    requires mid <= end
    ensures Calm(agent, start, end, view) ==> Calm(agent, start, mid, view)
  {
  }

  /** Scans one root in call number `calls`; None where scan_tree raises. */
  method ScanAt(faults: nat -> bool, calls: nat, t: Tree, excluded: set<Name>, maxEntries: nat, maxBytes: nat)
    returns (m: Option<Manifest>)
    requires IsTree(t)
    ensures m.Some? ==>
      IsManifestOf(m.value, Visible(t, excluded)) && Genuine(m.value) && HasDigest(Visible(t, excluded), m.value.digest)
    ensures m.None? <==> faults(calls) || ScanRejects(t, excluded, {}, maxEntries, maxBytes)
  {
    if faults(calls) { return None; }
    var r := ScanTree(t, excluded, {}, maxEntries, maxBytes);
    match r
    case Scanned(manifest) => m := Some(manifest);
    case ScanFailed(_) => m := None;
  }
}

/** What a scan records and when it refuses, told from the nodes of the tree. */
module ScanFacts {
  import opened Paths
  import opened Trees
  import opened Sums
  import opened Manifests

  /** The bytes in the files of a tree. */
  function ContentAt(t: Tree): Path -> int {
    p => if p in t && t[p].File? then |t[p].content| else 0
  }

  ghost function ContentBytes(t: Tree): int {
    Sum(t.Keys, ContentAt(t))
  }

  lemma BytesAreContents(t: Tree)
    ensures TotalBytes(EntriesOf(t)) == ContentBytes(t)
  {
    assert EntriesOf(t).Keys == t.Keys;
    SumSame(t.Keys, SizeAt(EntriesOf(t)), ContentAt(t));
  }

  /** A manifest of `t` has one entry for each node, which shows its kind, mode, size, digest and
      link target; its totals are those of the files, and its digest lists the entries in the
      order of their texts. */
  lemma ManifestShows(m: Manifest, t: Tree)
    requires IsManifestOf(m, t)
    ensures m.entries.Keys == t.Keys
    ensures forall p | p in t ::
      var e, n := m.entries[p], t[p];
      && e.path == p && e.mode == n.mode && e.size == (if n.File? then |n.content| else 0)
      && (n.File? ==> e.kind == FileEntry && e.digest == Sha256(n.content))
      && (n.Directory? ==> e.kind == DirectoryEntry && e.digest == NoDigest)
      && (n.Symlink? ==> e.kind == SymlinkEntry && e.digest == Sha256(n.target))
      && (n.Special? ==> e.kind == SpecialEntry && e.digest == Sha256("special:" + n.device))
      && e.linkTarget == (if n.Symlink? then Some(n.target) else None)
    ensures m.totalFiles == |set p | p in t && t[p].File?| && m.totalBytes == ContentBytes(t)
    ensures var l := m.digest.listing;
      && (forall e :: e in l <==> e.path in t && e == m.entries[e.path])
      && forall i, j | 0 <= i < j < |l| :: TextLE(l[i].path, l[j].path) && l[i].path != l[j].path
  {
    hide EntryOk, Acceptable, Clean, TextLE, TotalBytes, ContentBytes, Listing;
    BytesAreContents(t);
    FilesAreFiles(t);
    ListingShows(m.entries);
  }

  lemma FilesAreFiles(t: Tree)
    ensures TotalFiles(EntriesOf(t)) == |set p | p in t && t[p].File?|
  {
    var entries := EntriesOf(t);
    TotalFilesCounts(entries);
    assert (set p | p in entries && entries[p].kind == FileEntry) == set p | p in t && t[p].File?;
  }

  lemma ListingShows(entries: Entries)
    requires AllClean(entries.Keys) && WellKeyed(entries)
    ensures var l := Listing(entries);
      && (forall e :: e in l <==> e.path in entries && e == entries[e.path])
      && forall i, j | 0 <= i < j < |l| :: TextLE(l[i].path, l[j].path) && l[i].path != l[j].path
  {
    SortedPathsSorted(entries.Keys);
    var keys, l := SortedPaths(entries.Keys), Listing(entries);
    forall e ensures e in l <==> e.path in entries && e == entries[e.path] { ListingMembers(entries, e); }
    forall i | 0 <= i < |l| ensures l[i].path == keys[i] { assert keys[i] in entries; }
  }

  /** A name that reads as an absolute path or a drive. */
  predicate LooksAbsolute(n: Name) {
    n != "" && (n[0] == '/' || n[0] == '\\' || (|n| >= 2 && n[1] == ':'))
  }

  /** The entries of a workspace that a scan looks at. */
  function Shown(t: Tree, excluded: set<Name>): set<Path>
    requires IsTree(t)
  {
    set p | p in t && p[0] !in excluded
  }

  /** Why a scan may refuse a tree: a top-level name that reads as absolute or as a drive, an entry
      on another device that is not a link, too many entries, or too many bytes. */
  lemma RefusalMeans(t: Tree, excluded: set<Name>, foreign: set<Path>, maxEntries: nat, maxBytes: nat)
    requires IsTree(t)
    ensures ScanRefuses(t, excluded, foreign, maxEntries, maxBytes, UnsafeName) <==>
      exists p :: p in Shown(t, excluded) && LooksAbsolute(p[0])
    ensures ScanRefuses(t, excluded, foreign, maxEntries, maxBytes, MountBoundary) <==>
      exists p :: p in Shown(t, excluded) && p in foreign && !t[p].Symlink?
    ensures ScanRefuses(t, excluded, foreign, maxEntries, maxBytes, TooManyEntries) <==>
      |Shown(t, excluded)| > maxEntries
    ensures ScanRefuses(t, excluded, foreign, maxEntries, maxBytes, TooManyBytes) <==>
      Sum(Shown(t, excluded), ContentAt(t)) > maxBytes
  {
    hide TotalBytes, Visible, IsTree;
    ShownIsScope(t, excluded);
    ShownBytes(t, excluded);
  }

  lemma ShownIsScope(t: Tree, excluded: set<Name>)
    requires IsTree(t)
    ensures Shown(t, excluded) == Scope(t, excluded)
    ensures forall p | p in t :: p != [] && (Acceptable(p) <==> !LooksAbsolute(p[0]))
  {
    forall p | p in t ensures p != [] && (Acceptable(p) <==> !LooksAbsolute(p[0])) {
      assert Clean(p) && CleanName(p[0]);
    }
  }

  lemma ShownBytes(t: Tree, excluded: set<Name>)
    requires IsTree(t)
    ensures TotalBytes(EntriesOf(Visible(t, excluded))) == Sum(Shown(t, excluded), ContentAt(t))
  {
    BytesAreContents(Visible(t, excluded));
    ShownIsVisible(t, excluded);
  }

  /** What a scan says of a workspace: the entries it looks at are those of its manifest. */
  lemma ShownIsVisible(t: Tree, excluded: set<Name>)
    requires IsTree(t)
    ensures Visible(t, excluded).Keys == Shown(t, excluded)
    ensures forall p | p in Shown(t, excluded) :: Visible(t, excluded)[p] == t[p]
    ensures ContentBytes(Visible(t, excluded)) == Sum(Shown(t, excluded), ContentAt(t))
  {
    SumSame(Shown(t, excluded), ContentAt(Visible(t, excluded)), ContentAt(t));
    assert Visible(t, excluded).Keys == Shown(t, excluded);
  }

  /** verify_manifest accepts a manifest if and only if every key is a path a workspace may have and
      the path of its entry, sizes and modes are not negative, only files have a size, exactly the
      links have a target, exactly the directories have no digest and all others a SHA-256 digest,
      the totals are those of the file entries, and the digest lists the entries. */
  lemma GenuineExactly(m: Manifest)
    requires AllClean(m.entries.Keys)
    ensures Genuine(m) <==>
      && (forall p | p in m.entries ::
            var e := m.entries[p];
            && e.path == p && !LooksAbsolute(p[0]) && e.mode >= 0
            && e.size >= 0 && (e.size > 0 ==> e.kind == FileEntry) && (e.linkTarget.Some? <==> e.kind == SymlinkEntry)
            && (if e.kind == DirectoryEntry then e.digest == NoDigest else e.digest.Sha256?))
      && m.totalFiles == |set p | p in m.entries && m.entries[p].kind == FileEntry|
      && m.totalBytes == TotalBytes(m.entries) && m.digest == DigestOf(m.entries)
  {
    TotalFilesCounts(m.entries);
    forall p | p in m.entries ensures Acceptable(p) <==> !LooksAbsolute(p[0]) {
      assert CleanName(p[0]);
    }
  }

  /** A manifest that is accepted is determined by its digest: whatever else is altered shows. */
  lemma DigestDeterminesManifest(m: Manifest, n: Manifest)
    requires Genuine(m) && Genuine(n) && m.digest == n.digest
    ensures m == n
  {
    DigestDeterminesEntries(m.entries, n.entries);
  }
}

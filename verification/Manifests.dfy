/** Manifests of trees: the flat form a scan records, its digest, its totals and its limits. */
module Manifests {
  import opened Paths
  import opened Trees
  import opened Sums

  datatype EntryKind = FileEntry | DirectoryEntry | SymlinkEntry | SpecialEntry

  /** SHA-256 as an injective constructor; a stored record may hold text that is no digest. */
  datatype Digest = NoDigest | Sha256(payload: string) | NotADigest(text: string)

  datatype ManifestEntry = ManifestEntry(path: Path, kind: EntryKind, mode: int, size: int,
                                         digest: Digest, linkTarget: Option<string>)

  type Entries = map<Path, ManifestEntry>

  /** The tree digest hashes the listing of the entries in text order and nothing else. */
  datatype TreeDigest = TreeDigest(listing: seq<ManifestEntry>)

  datatype Manifest = Manifest(entries: Entries, digest: TreeDigest, totalFiles: int, totalBytes: int)

  function Describe(p: Path, n: Node): ManifestEntry {
    match n
    case File(mode, content) => ManifestEntry(p, FileEntry, mode, |content|, Sha256(content), None)
    case Directory(mode) => ManifestEntry(p, DirectoryEntry, mode, 0, NoDigest, None)
    case Symlink(mode, target) => ManifestEntry(p, SymlinkEntry, mode, 0, Sha256(target), Some(target))
    case Special(mode, device) => ManifestEntry(p, SpecialEntry, mode, 0, Sha256("special:" + device), None)
  }

  lemma DescribeInjective(p: Path, m: Node, n: Node)
    requires Describe(p, m) == Describe(p, n)
    ensures m == n
  {
    if m.Special? {
      assert ("special:" + m.device)[8..] == m.device;
      assert ("special:" + n.device)[8..] == n.device;
    }
  }

  function EntriesOf(t: Tree): Entries {
    map p | p in t :: Describe(p, t[p])
  }

  lemma EntriesDetermineTree(t: Tree, u: Tree)
    requires EntriesOf(t) == EntriesOf(u)
    ensures t == u
  {
    forall x ensures Look(t, x) == Look(u, x) {
      assert x in EntriesOf(t) <==> x in EntriesOf(u);
      if x in t {
        assert EntriesOf(t)[x] == EntriesOf(u)[x];
        DescribeInjective(x, t[x], u[x]);
      }
    }
    SameTree(t, u);
  }

  function Lookup(entries: Entries, p: Path): Option<ManifestEntry> {
    if p in entries then Some(entries[p]) else None
  }

  // ----- digests

  function Listing(entries: Entries): (r: seq<ManifestEntry>)
    requires AllClean(entries.Keys)
  {
    var keys := SortedPaths(entries.Keys);
    seq(|keys|, i requires 0 <= i < |keys| => assert keys[i] in entries.Keys; entries[keys[i]])
  }

  function DigestOf(entries: Entries): TreeDigest
    requires AllClean(entries.Keys)
  {
    TreeDigest(Listing(entries))
  }

  predicate WellKeyed(entries: Entries) {
    forall p | p in entries :: entries[p].path == p
  }

  lemma ListingMembers(entries: Entries, e: ManifestEntry)
    requires AllClean(entries.Keys) && WellKeyed(entries)
    ensures e in Listing(entries) <==> e.path in entries && entries[e.path] == e
  {
    var keys := SortedPaths(entries.Keys);
    var l := Listing(entries);
    if e in l {
      var i :| 0 <= i < |l| && l[i] == e;
      assert keys[i] in entries.Keys;
    }
    if e.path in entries && entries[e.path] == e {
      assert e.path in keys;
      var i :| 0 <= i < |keys| && keys[i] == e.path;
      assert l[i] == e;
    }
  }

  /** Equal digests mean equal entry maps, whatever the roots are. */
  lemma DigestDeterminesEntries(a: Entries, b: Entries)
    requires AllClean(a.Keys) && AllClean(b.Keys) && WellKeyed(a) && WellKeyed(b)
    ensures DigestOf(a) == DigestOf(b) <==> a == b
  {
    if DigestOf(a) == DigestOf(b) {
      forall p ensures p in a <==> p in b
      {
        if p in a { ListingMembers(a, a[p]); ListingMembers(b, a[p]); }
        if p in b { ListingMembers(a, b[p]); ListingMembers(b, b[p]); }
      }
      forall p | p in a ensures a[p] == b[p] {
        ListingMembers(a, a[p]);
        ListingMembers(b, a[p]);
      }
    }
  }

  // ----- totals

  function SizeOf(e: ManifestEntry): int {
    if e.kind == FileEntry then e.size else 0
  }

  function SizeAt(entries: Entries): Path -> int {
    p => if p in entries then SizeOf(entries[p]) else 0
  }

  ghost function TotalBytes(entries: Entries): int {
    Sum(entries.Keys, SizeAt(entries))
  }

  function FileAt(entries: Entries): Path -> int {
    p => if p in entries && entries[p].kind == FileEntry then 1 else 0
  }

  /** The number of regular files. */
  ghost function TotalFiles(entries: Entries): int {
    Sum(entries.Keys, FileAt(entries))
  }

  lemma TotalFilesCounts(entries: Entries)
    ensures TotalFiles(entries) == |set p | p in entries && entries[p].kind == FileEntry|
  {
    CountIsSum(entries.Keys, FileAt(entries));
    assert (set p | p in entries && entries[p].kind == FileEntry)
      == set p | p in entries.Keys && FileAt(entries)(p) == 1;
  }

  // ----- verify_manifest

  predicate EntryOk(p: Path, e: ManifestEntry) {
    && Acceptable(p)
    && e.path == p
    && e.size >= 0 && e.mode >= 0
    && (e.kind != FileEntry ==> e.size == 0)
    && (e.kind == SymlinkEntry <==> e.linkTarget.Some?)
    && (if e.kind == DirectoryEntry then e.digest == NoDigest else e.digest.Sha256?)
  }

  ghost predicate EntriesOk(entries: Entries) {
    forall p | p in entries :: EntryOk(p, entries[p])
  }

  ghost predicate Genuine(m: Manifest) {
    && EntriesOk(m.entries)
    && m.totalFiles == TotalFiles(m.entries)
    && m.totalBytes == TotalBytes(m.entries)
    && AllClean(m.entries.Keys)
    && m.digest == DigestOf(m.entries)
  }

  /** verify_manifest: whether a stored manifest is accepted. */
  method VerifyManifest(m: Manifest) returns (ok: bool)
    ensures ok <==> Genuine(m)
  {
    var totalFiles, totalBytes := 0, 0;
    var pending := m.entries.Keys;
    assert m.entries.Keys - pending == {};
    while pending != {}
      invariant pending <= m.entries.Keys
      invariant forall p | p in m.entries && p !in pending :: EntryOk(p, m.entries[p])
      invariant totalFiles == Sum(m.entries.Keys - pending, FileAt(m.entries))
      invariant totalBytes == Sum(m.entries.Keys - pending, SizeAt(m.entries))
      decreases pending
    {
      var key :| key in pending;
      var entry := m.entries[key];
      if !EntryOk(key, entry) {
        return false;
      }
      SumOneMore(m.entries.Keys, pending, key, FileAt(m.entries));
      SumOneMore(m.entries.Keys, pending, key, SizeAt(m.entries));
      if entry.kind == FileEntry {
        totalFiles := totalFiles + 1;
        totalBytes := totalBytes + entry.size;
      }
      pending := pending - {key};
    }
    assert m.entries.Keys - pending == m.entries.Keys;
    if totalFiles != m.totalFiles || totalBytes != m.totalBytes {
      return false;
    }
    return DigestOf(m.entries) == m.digest;
  }

  lemma SumOneMore(keys: set<Path>, pending: set<Path>, key: Path, f: Path -> int)
    requires pending <= keys && key in pending
    ensures Sum(keys - (pending - {key}), f) == Sum(keys - pending, f) + f(key)
  {
    SumInsert(keys - pending, f, key);
    assert keys - (pending - {key}) == keys - pending + {key};
  }

  lemma DescribedIsOk(t: Tree)
    requires IsTree(t) && forall p | p in t :: Acceptable(p)
    ensures EntriesOk(EntriesOf(t)) && WellKeyed(EntriesOf(t)) && AllClean(EntriesOf(t).Keys)
  {
  }

  // ----- scan_tree

  datatype ScanError = UnsafeName | MountBoundary | TooManyEntries | TooManyBytes

  datatype ScanResult = Scanned(manifest: Manifest) | ScanFailed(error: ScanError)

  /** The paths the scan must record. */
  function Scope(t: Tree, excluded: set<Name>): set<Path> {
    set p | p in t && !IsExcluded(p, excluded)
  }

  predicate Crosses(t: Tree, foreign: set<Path>, p: Path) {
    p in t && p in foreign && !t[p].Symlink?
  }

  ghost predicate ScanRefuses(t: Tree, excluded: set<Name>, foreign: set<Path>, maxEntries: nat, maxBytes: nat,
                              error: ScanError) {
    match error
    case UnsafeName => exists p | p in Scope(t, excluded) :: !Acceptable(p)
    case MountBoundary => exists p | p in Scope(t, excluded) :: Crosses(t, foreign, p)
    case TooManyEntries => |Scope(t, excluded)| > maxEntries
    case TooManyBytes => TotalBytes(EntriesOf(Visible(t, excluded))) > maxBytes
  }

  /** Each recorded entry describes an entry in scope that has no reason to be refused. */
  ghost predicate Right(t: Tree, excluded: set<Name>, foreign: set<Path>, entries: Entries) {
    && entries.Keys <= Scope(t, excluded)
    && forall p | p in entries :: entries[p] == Describe(p, t[p]) && Acceptable(p) && !Crosses(t, foreign, p)
  }

  lemma RightExtends(t: Tree, excluded: set<Name>, foreign: set<Path>, entries: Entries, p: Path)
    requires Right(t, excluded, foreign, entries)
    requires p in Scope(t, excluded) && Acceptable(p) && !Crosses(t, foreign, p)
    ensures Right(t, excluded, foreign, entries[p := Describe(p, t[p])])
  {
  }

  /** One walk over a tree. `foreign` holds the entries that lie on another device than the root. */
  class Scanner {
    const tree: Tree
    const excluded: set<Name>
    const foreign: set<Path>
    const maxEntries: nat
    const maxBytes: nat
    var entries: Entries
    var totalFiles: nat
    var totalBytes: nat

    constructor (tree: Tree, excluded: set<Name>, foreign: set<Path>, maxEntries: nat, maxBytes: nat)
      requires IsTree(tree)
      ensures this.tree == tree && this.excluded == excluded && this.foreign == foreign
      ensures this.maxEntries == maxEntries && this.maxBytes == maxBytes
      ensures Recorded() && entries == map[]
    {
      this.tree, this.excluded, this.foreign := tree, excluded, foreign;
      this.maxEntries, this.maxBytes := maxEntries, maxBytes;
      entries, totalFiles, totalBytes := map[], 0, 0;
    }

    /** What has been recorded is right and within every limit. */
    ghost predicate Recorded()
      reads this
    {
      && IsTree(tree)
      && Right(tree, excluded, foreign, entries)
      && totalFiles == TotalFiles(entries)
      && totalBytes == TotalBytes(entries)
      && |entries| <= maxEntries
      && totalBytes <= maxBytes
    }

    /** `p` must be recorded by the walk of `directory`. */
    ghost predicate Under(directory: Path, p: Path) {
      p in tree && !IsExcluded(p, excluded) && Above(directory, p) && p != directory
    }

    ghost function Remaining(directory: Path): set<Path> {
      set p | p in tree && Under(directory, p)
    }

    function Children(directory: Path): set<Path> {
      set p | p in tree && Above(directory, p) && |p| == |directory| + 1
    }

    /** `r` lists the children of a directory, each once. */
    ghost predicate ListsChildren(directory: Path, r: seq<Path>) {
      && (forall p :: p in r <==> p in Children(directory))
      && forall i, j | 0 <= i < j < |r| :: r[i] != r[j]
    }

    /** The listing of a directory in name order; no result of the scan depends on the order. */
    method SortedChildren(directory: Path) returns (r: seq<Path>)
      requires IsTree(tree)
      ensures ListsChildren(directory, r)
    {
      r := SortedPaths(Children(directory));
      SortedPathsSorted(Children(directory));
    }

    /** Adds one entry to the record; the limits are checked after each entry. */
    method Record(relative: Path) returns (error: Option<ScanError>)
      requires Recorded() && relative in Scope(tree, excluded) && relative !in entries
      modifies this
      ensures error.None? ==> Recorded() && entries == old(entries)[relative := Describe(relative, tree[relative])]
      ensures error.Some? ==> ScanRefuses(tree, excluded, foreign, maxEntries, maxBytes, error.value)
    {
      hide IsTree, Right, Crosses, Acceptable, Visible, TotalBytes, DirectoryAt;
      if !Acceptable(relative) { return Some(UnsafeName); }
      if Crosses(tree, foreign, relative) { return Some(MountBoundary); }
      var entry := Describe(relative, tree[relative]);
      RecordBytes(entries, relative, entry);
      RecordFiles(entries, relative, entry);
      RightExtends(tree, excluded, foreign, entries, relative);
      if entry.kind == FileEntry {
        totalFiles := totalFiles + 1;
        totalBytes := totalBytes + entry.size;
      }
      entries := entries[relative := entry];
      if |entries| > maxEntries {
        WithinScope(tree, excluded, foreign, entries);
        return Some(TooManyEntries);
      }
      if totalBytes > maxBytes {
        WithinScope(tree, excluded, foreign, entries);
        return Some(TooManyBytes);
      }
      return None;
    }

    /** Records one directory entry and, when it is a directory, all that lies below it. */
    method Visit(child: Path) returns (error: Option<ScanError>)
      requires Recorded() && child in Scope(tree, excluded)
      requires child !in entries && forall p | Under(child, p) :: p !in entries
      modifies this
      ensures error.None? ==>
        Recorded() && forall p :: p in entries <==> p in old(entries) || p == child || Under(child, p)
      ensures error.Some? ==> ScanRefuses(tree, excluded, foreign, maxEntries, maxBytes, error.value)
      decreases |Remaining(child)|, 2
    {
      error := Record(child);
      if error.None? {
        if tree[child].Directory? {
          error := Walk(child);
        } else {
          LeafHasNothing(child);
        }
      }
    }

    /** One child in its turn, unless it is excluded at the top. */
    method VisitNext(directory: Path, children: seq<Path>, k: nat) returns (error: Option<ScanError>)
      requires Recorded() && k < |children| && children[k] in Children(directory)
      requires directory != [] ==> directory in Scope(tree, excluded)
      requires forall p | Above(children[k], p) && Under(directory, p) :: p !in entries
      modifies this
      ensures error.None? ==>
        Recorded() && forall p :: p in entries <==> p in old(entries) || (Under(directory, p) && Above(children[k], p))
      ensures error.Some? ==> ScanRefuses(tree, excluded, foreign, maxEntries, maxBytes, error.value)
      decreases |Remaining(directory)|, 0
    {
      if directory == [] && children[k][0] in excluded {
        ExcludedChild(directory, children, k);
        return None;
      }
      IncludedChild(directory, children, k);
      error := Visit(children[k]);
    }

    method Walk(directory: Path) returns (error: Option<ScanError>)
      requires Recorded() && forall p | Under(directory, p) :: p !in entries
      requires directory != [] ==> directory in Scope(tree, excluded)
      modifies this
      ensures error.None? ==> Recorded() && forall p :: p in entries <==> p in old(entries) || Under(directory, p)
      ensures error.Some? ==> ScanRefuses(tree, excluded, foreign, maxEntries, maxBytes, error.value)
      decreases |Remaining(directory)|, 1
    {
      hide IsTree, ScanRefuses, Right, Acceptable, Visible, Describe, DirectoryAt;
      var children := SortedChildren(directory);
      var k := 0;
      while k < |children|
        invariant 0 <= k <= |children|
        invariant Recorded()
        invariant forall p :: p in entries <==> p in old(entries) || WalkedBelow(directory, children, k, p)
      {
        NextChild(directory, children, k);
        error := VisitNext(directory, children, k);
        if error.Some? { return; }
        k := k + 1;
      }
      AllWalked(directory, children);
      return None;
    }

    lemma LeafHasNothing(child: Path)
      requires IsTree(tree) && child in tree && !tree[child].Directory?
      ensures forall p :: !Under(child, p)
    {
      forall p ensures !Under(child, p) {
        if Under(child, p) { NothingBelowAbsent(tree, child, p); }
      }
    }

    /** `p` is to be recorded and lies at or below one of the first `k` children. */
    ghost predicate WalkedBelow(directory: Path, children: seq<Path>, k: nat, p: Path)
      requires k <= |children|
    {
      Under(directory, p) && exists i | 0 <= i < k :: Above(children[i], p)
    }

    lemma NextChild(directory: Path, children: seq<Path>, k: nat)
      requires IsTree(tree) && k < |children| && ListsChildren(directory, children)
      ensures children[k] in Children(directory)
      ensures forall p | Above(children[k], p) :: !WalkedBelow(directory, children, k, p)
      ensures forall p :: WalkedBelow(directory, children, k + 1, p) <==>
        WalkedBelow(directory, children, k, p) || (Under(directory, p) && Above(children[k], p))
    {
      var child := children[k];
      assert forall i | 0 <= i <= k :: children[i] in children;
      forall p, i | 0 <= i < k && Above(children[i], p) && Above(child, p) ensures false {
        Comparable(children[i], child, p);
      }
      forall p ensures WalkedBelow(directory, children, k + 1, p) <==>
        WalkedBelow(directory, children, k, p) || (Under(directory, p) && Above(child, p))
      {
        if WalkedBelow(directory, children, k + 1, p) {
          var i :| 0 <= i < k + 1 && Above(children[i], p);
        }
      }
    }

    lemma ExcludedChild(directory: Path, children: seq<Path>, k: nat)
      requires k < |children| && children[k] in Children(directory) && IsExcluded(children[k], excluded)
      ensures forall p | Above(children[k], p) :: !Under(directory, p)
    {
      forall p | Above(children[k], p) ensures !Under(directory, p) {
        ExcludedAbove(children[k], p, excluded);
      }
    }

    lemma IncludedChild(directory: Path, children: seq<Path>, k: nat)
      requires k < |children| && children[k] in Children(directory)
      requires directory != [] ==> directory in Scope(tree, excluded)
      requires directory == [] ==> children[k][0] !in excluded
      ensures children[k] in Scope(tree, excluded) && Under(directory, children[k])
      ensures forall p :: Under(directory, p) && Above(children[k], p) <==> p == children[k] || Under(children[k], p)
      ensures |Remaining(children[k])| < |Remaining(directory)|
    {
      var child := children[k];
      assert directory != [] ==> child[0] == directory[0];
      forall p | p == child || Under(child, p) ensures Under(directory, p) {
        AboveTransitive(directory, child, p);
      }
      assert child in Remaining(directory) && child !in Remaining(child);
      assert forall p | p in Remaining(child) :: p in Remaining(directory);
      SmallerSet(Remaining(child), Remaining(directory));
    }

    lemma AllWalked(directory: Path, children: seq<Path>)
      requires IsTree(tree) && ListsChildren(directory, children)
      ensures forall p :: WalkedBelow(directory, children, |children|, p) <==> Under(directory, p)
    {
      forall p | Under(directory, p) ensures exists i | 0 <= i < |children| :: Above(children[i], p) {
        var child := p[..|directory| + 1];
        assert Above(directory, child) && Above(child, p);
        assert child != p ==> Inside(child, p) && DirectoryAt(tree, child);
        assert child in Children(directory);
        assert child in children;
        var i :| 0 <= i < |children| && children[i] == child;
      }
    }
  }

  lemma SmallerSet(a: set<Path>, b: set<Path>)
    requires a < b
    ensures |a| < |b|
  {
    assert b == a + (b - a);
    var x :| x in b - a;
    assert |b - a| > 0;
  }

  lemma RecordBytes(before: Entries, p: Path, e: ManifestEntry)
    requires p !in before
    ensures TotalBytes(before[p := e]) == TotalBytes(before) + SizeOf(e)
  {
    var entries := before[p := e];
    assert entries.Keys == before.Keys + {p};
    SumInsert(before.Keys, SizeAt(entries), p);
    SumSame(before.Keys, SizeAt(entries), SizeAt(before));
  }

  lemma RecordFiles(before: Entries, p: Path, e: ManifestEntry)
    requires p !in before
    ensures TotalFiles(before[p := e]) == TotalFiles(before) + (if e.kind == FileEntry then 1 else 0)
  {
    var entries := before[p := e];
    assert entries.Keys == before.Keys + {p};
    SumInsert(before.Keys, FileAt(entries), p);
    SumSame(before.Keys, FileAt(entries), FileAt(before));
  }

  /** Counts and bytes of a part of the record never exceed those of the whole tree, so an
      early abort is never premature. */
  lemma {:induction false} WithinScope(t: Tree, excluded: set<Name>, foreign: set<Path>, entries: Entries)
    requires Right(t, excluded, foreign, entries)
    ensures |entries| <= |Scope(t, excluded)|
    ensures TotalBytes(entries) <= TotalBytes(EntriesOf(Visible(t, excluded)))
  {
    hide EntryOk, Above, Inside, IsExcluded, Clean;
    var all := EntriesOf(Visible(t, excluded));
    assert all.Keys == Scope(t, excluded);
    var more := all.Keys - entries.Keys;
    assert all.Keys == entries.Keys + more;
    SumSame(entries.Keys, SizeAt(entries), SizeAt(all));
    SumMonotone(entries.Keys, all.Keys, SizeAt(all));
  }

  ghost predicate ScanRejects(t: Tree, excluded: set<Name>, foreign: set<Path>, maxEntries: nat, maxBytes: nat) {
    exists e :: ScanRefuses(t, excluded, foreign, maxEntries, maxBytes, e)
  }

  ghost predicate IsManifestOf(m: Manifest, t: Tree) {
    && m.entries == EntriesOf(t)
    && EntriesOk(m.entries) && AllClean(m.entries.Keys)
    && m.totalFiles == TotalFiles(m.entries)
    && m.totalBytes == TotalBytes(m.entries)
    && m.digest == DigestOf(m.entries)
  }

  /** scan_tree: fails exactly when the visible tree holds a bad name, a foreign entry, or
      exceeds a limit; otherwise its manifest is the flat form of the visible tree. */
  method ScanTree(tree: Tree, excluded: set<Name>, foreign: set<Path>, maxEntries: nat, maxBytes: nat)
    returns (r: ScanResult)
    requires IsTree(tree)
    ensures r.ScanFailed? <==> ScanRejects(tree, excluded, foreign, maxEntries, maxBytes)
    ensures r.ScanFailed? ==> ScanRefuses(tree, excluded, foreign, maxEntries, maxBytes, r.error)
    ensures r.Scanned? ==> IsManifestOf(r.manifest, Visible(tree, excluded)) && Genuine(r.manifest)
  {
    var scanner := new Scanner(tree, excluded, foreign, maxEntries, maxBytes);
    var error := scanner.Walk([]);
    if error.Some? {
      return ScanFailed(error.value);
    }
    ScanComplete(tree, excluded, foreign, maxEntries, maxBytes, scanner.entries, scanner.totalFiles,
                 scanner.totalBytes);
    r := Scanned(Manifest(scanner.entries, DigestOf(scanner.entries), scanner.totalFiles, scanner.totalBytes));
  }

  lemma ScanComplete(t: Tree, excluded: set<Name>, foreign: set<Path>, maxEntries: nat, maxBytes: nat,
                     entries: Entries, files: int, bytes: int)
    requires IsTree(t) && Right(t, excluded, foreign, entries)
    requires forall p :: p in entries <==> p in t && !IsExcluded(p, excluded) && Above([], p) && p != []
    requires |entries| <= maxEntries && bytes <= maxBytes && bytes == TotalBytes(entries)
      && files == TotalFiles(entries)
    ensures !ScanRejects(t, excluded, foreign, maxEntries, maxBytes)
    ensures AllClean(entries.Keys) && EntriesOk(entries)
    ensures IsManifestOf(Manifest(entries, DigestOf(entries), files, bytes), Visible(t, excluded))
  {
    RightComplete(t, excluded, foreign, entries);
    NothingRefused(t, excluded, foreign, maxEntries, maxBytes, entries);
  }

  lemma RightComplete(t: Tree, excluded: set<Name>, foreign: set<Path>, entries: Entries)
    requires IsTree(t) && Right(t, excluded, foreign, entries)
    requires forall p :: p in entries <==> p in t && !IsExcluded(p, excluded) && Above([], p) && p != []
    ensures entries == EntriesOf(Visible(t, excluded)) && EntriesOk(entries)
    ensures forall p | p in t && !IsExcluded(p, excluded) :: p in entries
  {
    hide DigestOf, Acceptable;
    forall p | p in t && !IsExcluded(p, excluded) ensures p in entries {
      assert Clean(p) && Above([], p);
    }
  }

  lemma NothingRefused(t: Tree, excluded: set<Name>, foreign: set<Path>, maxEntries: nat, maxBytes: nat,
                       entries: Entries)
    requires Right(t, excluded, foreign, entries)
    requires forall p | p in t && !IsExcluded(p, excluded) :: p in entries
    requires entries == EntriesOf(Visible(t, excluded))
    requires |entries| <= maxEntries && TotalBytes(entries) <= maxBytes
    ensures !ScanRejects(t, excluded, foreign, maxEntries, maxBytes)
  {
    assert Scope(t, excluded) == entries.Keys;
    forall e ensures !ScanRefuses(t, excluded, foreign, maxEntries, maxBytes, e) {
      match e
      case UnsafeName =>
      case MountBoundary =>
      case TooManyEntries => assert |entries.Keys| == |entries|;
      case TooManyBytes =>
    }
  }
}

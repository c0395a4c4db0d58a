/** The exact diff of two manifests and the subtree roots it collapses to. */
module Diffs {
  import opened Paths
  import opened Trees
  import opened Manifests

  datatype ChangeKind = Add | Modify | Delete | TypeChange

  datatype Change = Change(path: Path, kind: ChangeKind, before: Option<ManifestEntry>, after: Option<ManifestEntry>)

  predicate EntryChanged(before: ManifestEntry, after: ManifestEntry) {
    if before.kind == DirectoryEntry then before.mode != after.mode
    else
      || before.mode != after.mode || before.size != after.size || before.digest != after.digest
      || before.linkTarget != after.linkTarget
  }

  /** What the diff says about one path. */
  function ChangeAt(before: Entries, after: Entries, p: Path): Option<Change> {
    match (Lookup(before, p), Lookup(after, p))
    case (None, None) => None
    case (None, Some(new_)) => Some(Change(p, Add, None, Some(new_)))
    case (Some(old_), None) => Some(Change(p, Delete, Some(old_), None))
    case (Some(old_), Some(new_)) =>
      if old_.kind != new_.kind then Some(Change(p, TypeChange, Some(old_), Some(new_)))
      else if EntryChanged(old_, new_) then Some(Change(p, Modify, Some(old_), Some(new_)))
      else None
  }

  function Collect(before: Entries, after: Entries, keys: seq<Path>): seq<Change> {
    if keys == [] then [] else
      var last := keys[|keys| - 1];
      var earlier := Collect(before, after, keys[..|keys| - 1]);
      match ChangeAt(before, after, last)
      case None => earlier
      case Some(c) => earlier + [c]
  }

  predicate CleanKeys(entries: Entries) {
    AllClean(entries.Keys)
  }

  function Diff(before: Entries, after: Entries): seq<Change>
    requires CleanKeys(before) && CleanKeys(after)
  {
    Collect(before, after, SortedPaths(before.Keys + after.Keys))
  }

  /** diff_manifests. */
  method DiffManifests(before: Entries, after: Entries) returns (changes: seq<Change>)
    requires CleanKeys(before) && CleanKeys(after)
    ensures changes == Diff(before, after)
  {
    hide EntryChanged, Clean;
    changes := [];
    var allPaths := SortedPaths(before.Keys + after.Keys);
    for k := 0 to |allPaths|
      invariant changes == Collect(before, after, allPaths[..k])
    {
      var path := allPaths[k];
      assert allPaths[..k + 1][..k] == allPaths[..k];
      var previous, next := Lookup(before, path), Lookup(after, path);
      if previous.None? && next.Some? {
        changes := changes + [Change(path, Add, None, next)];
        continue;
      }
      if previous.Some? && next.None? {
        changes := changes + [Change(path, Delete, previous, None)];
        continue;
      }
      assert path in before.Keys + after.Keys;
      if previous.value.kind != next.value.kind {
        changes := changes + [Change(path, TypeChange, previous, next)];
        continue;
      }
      if EntryChanged(previous.value, next.value) {
        changes := changes + [Change(path, Modify, previous, next)];
      }
    }
    assert allPaths[..|allPaths|] == allPaths;
  }

  // ----- what a diff contains

  ghost predicate DistinctPaths(changes: seq<Change>) {
    forall i, j | 0 <= i < j < |changes| :: changes[i].path != changes[j].path
  }

  ghost predicate DistinctKeys(keys: seq<Path>) {
    forall i, j | 0 <= i < j < |keys| :: keys[i] != keys[j]
  }

  lemma {:induction false} CollectMember(before: Entries, after: Entries, keys: seq<Path>, c: Change)
    ensures c in Collect(before, after, keys) <==> c.path in keys && ChangeAt(before, after, c.path) == Some(c)
  {
    if keys != [] {
      var n := |keys| - 1;
      CollectMember(before, after, keys[..n], c);
      assert keys == keys[..n] + [keys[n]];
    }
  }

  lemma {:induction false} CollectDistinct(before: Entries, after: Entries, keys: seq<Path>)
    requires DistinctKeys(keys)
    ensures DistinctPaths(Collect(before, after, keys))
  {
    if keys != [] {
      var n := |keys| - 1;
      CollectDistinct(before, after, keys[..n]);
      var earlier := Collect(before, after, keys[..n]);
      forall i | 0 <= i < |earlier| ensures earlier[i].path != keys[n] {
        CollectMember(before, after, keys[..n], earlier[i]);
      }
    }
  }

  /** The listing is in strictly increasing text order. */
  ghost predicate InTextOrder(changes: seq<Change>) {
    forall i, j | 0 <= i < j < |changes| :: TextLE(changes[i].path, changes[j].path)
  }

  lemma {:induction false} CollectOrdered(before: Entries, after: Entries, keys: seq<Path>)
    requires SortedByText(keys)
    ensures InTextOrder(Collect(before, after, keys))
  {
    if keys != [] {
      var n := |keys| - 1;
      CollectOrdered(before, after, keys[..n]);
      var earlier := Collect(before, after, keys[..n]);
      forall i | 0 <= i < |earlier| ensures TextLE(earlier[i].path, keys[n]) {
        CollectMember(before, after, keys[..n], earlier[i]);
        var k :| 0 <= k < n && keys[k] == earlier[i].path;
      }
    }
  }

  /** One change per path, in text order, and a change is listed exactly when ChangeAt gives it. */
  lemma DiffContents(before: Entries, after: Entries)
    requires CleanKeys(before) && CleanKeys(after)
    ensures DistinctPaths(Diff(before, after)) && InTextOrder(Diff(before, after))
    ensures forall c :: c in Diff(before, after) <==> ChangeAt(before, after, c.path) == Some(c)
  {
    var keys := SortedPaths(before.Keys + after.Keys);
    SortedPathsSorted(before.Keys + after.Keys);
    assert DistinctKeys(keys);
    CollectDistinct(before, after, keys);
    CollectOrdered(before, after, keys);
    forall c ensures c in Diff(before, after) <==> ChangeAt(before, after, c.path) == Some(c) {
      CollectMember(before, after, keys, c);
      if ChangeAt(before, after, c.path) == Some(c) {
        assert c.path in before.Keys + after.Keys;
      }
    }
  }

  /** The diff in terms of the two entry maps: each change carries the entries of its path, and the
      kind says on which sides there is one and how the two differ. */
  lemma DiffKinds(before: Entries, after: Entries, p: Path)
    requires CleanKeys(before) && CleanKeys(after)
    ensures forall c | c in Diff(before, after) ::
      && c.before == (if c.path in before then Some(before[c.path]) else None)
      && c.after == (if c.path in after then Some(after[c.path]) else None)
    ensures (exists c :: c in Diff(before, after) && c.path == p && c.kind == Add) <==> p !in before && p in after
    ensures (exists c :: c in Diff(before, after) && c.path == p && c.kind == Delete) <==> p in before && p !in after
    ensures (exists c :: c in Diff(before, after) && c.path == p && c.kind == TypeChange) <==>
      p in before && p in after && before[p].kind != after[p].kind
    ensures EntriesOk(before) && EntriesOk(after) ==>
      ((exists c :: c in Diff(before, after) && c.path == p && c.kind == Modify) <==>
        p in before && p in after && before[p].kind == after[p].kind && before[p] != after[p])
  {
    hide Diff, Collect, Clean;
    DiffContents(before, after);
    match ChangeAt(before, after, p)
    case None =>
    case Some(c) => assert c in Diff(before, after) && c.path == p;
  }

  /** For accepted manifests the comparison misses nothing: a path is changed exactly when its
      two entries differ. */
  lemma ChangedIffDifferent(before: Entries, after: Entries, p: Path)
    requires EntriesOk(before) && EntriesOk(after)
    ensures ChangeAt(before, after, p).Some? <==> Lookup(before, p) != Lookup(after, p)
  {
  }

  // ----- the diff as a patch

  function ApplyOne(entries: Entries, c: Change): Entries {
    match c.after
    case Some(e) => entries[c.path := e]
    case None => map p | p in entries && p != c.path :: entries[p]
  }

  function Patch(entries: Entries, changes: seq<Change>): Entries
    decreases |changes|
  {
    if changes == [] then entries else Patch(ApplyOne(entries, changes[0]), changes[1..])
  }

  lemma {:induction false} PatchUntouched(entries: Entries, changes: seq<Change>, p: Path)
    requires forall c | c in changes :: c.path != p
    ensures Lookup(Patch(entries, changes), p) == Lookup(entries, p)
    decreases |changes|
  {
    if changes != [] {
      assert changes[0] in changes;
      PatchUntouched(ApplyOne(entries, changes[0]), changes[1..], p);
    }
  }

  lemma {:induction false} PatchTouched(entries: Entries, changes: seq<Change>, c: Change)
    requires c in changes && DistinctPaths(changes)
    ensures Lookup(Patch(entries, changes), c.path) == c.after
    decreases |changes|
  {
    var next := ApplyOne(entries, changes[0]);
    if changes[0] == c {
      assert forall d | d in changes[1..] :: d.path != c.path;
      PatchUntouched(next, changes[1..], c.path);
    } else {
      PatchTouched(next, changes[1..], c);
    }
  }

  lemma PatchAt(before: Entries, after: Entries, p: Path)
    requires EntriesOk(before) && EntriesOk(after) && CleanKeys(before) && CleanKeys(after)
    ensures Lookup(Patch(before, Diff(before, after)), p) == Lookup(after, p)
  {
    var changes := Diff(before, after);
    DiffContents(before, after);
    ChangedIffDifferent(before, after, p);
    match ChangeAt(before, after, p)
    case Some(c) => PatchTouched(before, changes, c);
    case None => PatchUntouched(before, changes, p);
  }

  /** Applying the diff to the baseline gives the staged entries. */
  lemma DiffIsExactPatch(before: Entries, after: Entries)
    requires EntriesOk(before) && EntriesOk(after) && CleanKeys(before) && CleanKeys(after)
    ensures Patch(before, Diff(before, after)) == after
  {
    forall p { PatchAt(before, after, p); }
    LookupDetermines(Patch(before, Diff(before, after)), after);
  }

  /** The diff is empty exactly when there is nothing to change. */
  lemma DiffEmptyIff(before: Entries, after: Entries)
    requires EntriesOk(before) && EntriesOk(after) && CleanKeys(before) && CleanKeys(after)
    ensures Diff(before, after) == [] <==> before == after
  {
    DiffIsExactPatch(before, after);
    var changes := Diff(before, after);
    if changes != [] {
      var c := changes[0];
      assert c in changes;
      DiffContents(before, after);
      ChangedIffDifferent(before, after, c.path);
    }
  }

  lemma LookupDetermines(a: Entries, b: Entries)
    requires forall p :: Lookup(a, p) == Lookup(b, p)
    ensures a == b
  {
    forall p ensures p in a <==> p in b {
      assert Lookup(a, p) == Lookup(b, p);
    }
    forall p | p in a ensures a[p] == b[p] {
      assert Lookup(a, p) == Lookup(b, p);
    }
  }

  // ----- operation roots

  predicate DirectoryChange(c: Change) {
    || (c.before.Some? && c.before.value.kind == DirectoryEntry)
    || (c.after.Some? && c.after.value.kind == DirectoryEntry)
  }

  /** The sort key: depth first, then text. */
  predicate DepthLE(c: Change, d: Change) {
    |c.path| < |d.path| || (|c.path| == |d.path| && TextLE(c.path, d.path))
  }

  function Insert(c: Change, sorted: seq<Change>): seq<Change> {
    if sorted == [] then [c]
    else if DepthLE(c, sorted[0]) then [c] + sorted
    else [sorted[0]] + Insert(c, sorted[1..])
  }

  /** `sorted(changes, key=...)`, a stable sort. */
  function ByDepth(changes: seq<Change>): seq<Change> {
    if changes == [] then [] else Insert(changes[0], ByDepth(changes[1..]))
  }

  predicate CoveredBy(selected: seq<Change>, c: Change) {
    exists d | d in selected :: DirectoryChange(d) && Above(d.path, c.path)
  }

  function Select(sorted: seq<Change>): seq<Change> {
    if sorted == [] then [] else
      var last := sorted[|sorted| - 1];
      var earlier := Select(sorted[..|sorted| - 1]);
      if CoveredBy(earlier, last) then earlier else earlier + [last]
  }

  function Roots(changes: seq<Change>): seq<Change> {
    Select(ByDepth(changes))
  }

  /** operation_roots. */
  method OperationRoots(changes: seq<Change>) returns (selected: seq<Change>)
    ensures selected == Roots(changes)
  {
    selected := [];
    var selectedParts: seq<Path> := [];
    var sorted := ByDepth(changes);
    for k := 0 to |sorted|
      invariant selected == Select(sorted[..k])
      invariant forall p :: p in selectedParts <==> exists d | d in selected :: DirectoryChange(d) && d.path == p
    {
      var change := sorted[k];
      assert sorted[..k + 1][..k] == sorted[..k];
      if exists parent | parent in selectedParts :: Above(parent, change.path) {
        assert CoveredBy(selected, change);
        continue;
      }
      selected := selected + [change];
      if DirectoryChange(change) {
        selectedParts := selectedParts + [change.path];
      }
    }
    assert sorted[..|sorted|] == sorted;
  }

  ghost predicate DepthSorted(changes: seq<Change>) {
    forall i, j | 0 <= i < j < |changes| :: |changes[i].path| <= |changes[j].path|
  }

  lemma {:induction false} InsertMembers(c: Change, sorted: seq<Change>)
    ensures forall d :: d in Insert(c, sorted) <==> d == c || d in sorted
    ensures |Insert(c, sorted)| == |sorted| + 1
    decreases |sorted|
  {
    if sorted != [] && !DepthLE(c, sorted[0]) {
      InsertMembers(c, sorted[1..]);
      assert sorted == [sorted[0]] + sorted[1..];
    }
  }

  lemma {:induction false} InsertSorted(c: Change, sorted: seq<Change>)
    requires DepthSorted(sorted)
    ensures DepthSorted(Insert(c, sorted))
    decreases |sorted|
  {
    if sorted != [] && !DepthLE(c, sorted[0]) {
      InsertSorted(c, sorted[1..]);
      InsertMembers(c, sorted[1..]);
      var r := Insert(c, sorted[1..]);
      forall i | 0 <= i < |r| ensures |sorted[0].path| <= |r[i].path| {
        assert r[i] in r;
      }
    }
  }

  lemma {:induction false} InsertDistinct(c: Change, sorted: seq<Change>)
    requires DistinctPaths(sorted) && forall d | d in sorted :: d.path != c.path
    ensures DistinctPaths(Insert(c, sorted))
    decreases |sorted|
  {
    if sorted != [] && !DepthLE(c, sorted[0]) {
      InsertDistinct(c, sorted[1..]);
      InsertMembers(c, sorted[1..]);
      var r := Insert(c, sorted[1..]);
      forall i | 0 <= i < |r| ensures sorted[0].path != r[i].path {
        assert r[i] in r;
      }
    }
  }

  lemma {:induction false} ByDepthKeeps(changes: seq<Change>)
    ensures DepthSorted(ByDepth(changes))
    ensures forall c :: c in ByDepth(changes) <==> c in changes
    ensures DistinctPaths(changes) ==> DistinctPaths(ByDepth(changes))
  {
    if changes != [] {
      ByDepthKeeps(changes[1..]);
      InsertMembers(changes[0], ByDepth(changes[1..]));
      InsertSorted(changes[0], ByDepth(changes[1..]));
      assert changes == [changes[0]] + changes[1..];
      if DistinctPaths(changes) {
        InsertDistinct(changes[0], ByDepth(changes[1..]));
      }
    }
  }

  /** What selection keeps, for changes with distinct paths sorted by depth. */
  ghost predicate Selection(sorted: seq<Change>, selected: seq<Change>) {
    && DepthSorted(selected) && DistinctPaths(selected)
    && (forall c | c in selected :: c in sorted)
    && (forall c | c in sorted && c !in selected :: CoveredBy(selected, c))
    && (forall c, d | c in selected && d in selected && d != c && DirectoryChange(d) :: !Above(d.path, c.path))
  }

  lemma {:induction false} SelectIsSelection(sorted: seq<Change>)
    requires DepthSorted(sorted) && DistinctPaths(sorted)
    ensures Selection(sorted, Select(sorted))
  {
    if sorted != [] {
      var n := |sorted| - 1;
      SelectIsSelection(sorted[..n]);
      assert sorted == sorted[..n] + [sorted[n]];
      ExtendSelection(sorted[..n], Select(sorted[..n]), sorted[n]);
    }
  }

  lemma ExtendSelection(sorted: seq<Change>, selected: seq<Change>, c: Change)
    requires Selection(sorted, selected)
    requires forall d | d in sorted :: d.path != c.path && |d.path| <= |c.path|
    ensures Selection(sorted + [c], if CoveredBy(selected, c) then selected else selected + [c])
  {
    if !CoveredBy(selected, c) {
      var more := selected + [c];
      assert forall i | 0 <= i < |selected| :: selected[i] in selected;
      forall d | d in sorted + [c] && d !in more ensures CoveredBy(more, d) {
        assert CoveredBy(selected, d);
      }
      forall d | d in selected ensures !Above(c.path, d.path) {
        assert |d.path| <= |c.path| && d.path != c.path;
      }
    }
  }

  /** Shorter paths first, those of one length in the order of their texts. */
  ghost predicate InRootOrder(changes: seq<Change>) {
    forall i, j | 0 <= i < j < |changes| ::
      |changes[i].path| < |changes[j].path|
      || (|changes[i].path| == |changes[j].path| && TextLE(changes[i].path, changes[j].path))
  }

  lemma DepthTotal(c: Change, d: Change)
    ensures DepthLE(c, d) || DepthLE(d, c)
  {
    StrTotal(Text(c.path), Text(d.path));
  }

  lemma DepthTransitive(a: Change, b: Change, c: Change)
    ensures DepthLE(a, b) && DepthLE(b, c) ==> DepthLE(a, c)
  {
    if TextLE(a.path, b.path) && TextLE(b.path, c.path) { StrTransitive(Text(a.path), Text(b.path), Text(c.path)); }
  }

  lemma {:induction false} InsertInOrder(c: Change, sorted: seq<Change>)
    requires InRootOrder(sorted)
    ensures InRootOrder(Insert(c, sorted))
    decreases |sorted|
  {
    if sorted != [] {
      var rest := sorted[1..];
      if DepthLE(c, sorted[0]) {
        forall i | 0 <= i < |sorted| ensures DepthLE(c, sorted[i]) {
          DepthTransitive(c, sorted[0], sorted[i]);
        }
      } else {
        InsertInOrder(c, rest);
        InsertMembers(c, rest);
        DepthTotal(c, sorted[0]);
        var r := Insert(c, rest);
        forall i | 0 <= i < |r| ensures DepthLE(sorted[0], r[i]) {
          assert r[i] in r;
        }
      }
    }
  }

  lemma {:induction false} ByDepthInOrder(changes: seq<Change>)
    ensures InRootOrder(ByDepth(changes))
  {
    if changes != [] {
      ByDepthInOrder(changes[1..]);
      InsertInOrder(changes[0], ByDepth(changes[1..]));
    }
  }

  lemma {:induction false} SelectInOrder(sorted: seq<Change>)
    requires InRootOrder(sorted)
    ensures InRootOrder(Select(sorted)) && forall c | c in Select(sorted) :: c in sorted
  {
    if sorted != [] {
      var n := |sorted| - 1;
      SelectInOrder(sorted[..n]);
      var earlier := Select(sorted[..n]);
      forall i | 0 <= i < |earlier| ensures DepthLE(earlier[i], sorted[n]) {
        assert earlier[i] in sorted[..n];
      }
    }
  }

  /** The roots come shorter paths first, then in the order of their texts. */
  lemma RootsInOrder(changes: seq<Change>)
    ensures InRootOrder(Roots(changes))
  {
    ByDepthInOrder(changes);
    SelectInOrder(ByDepth(changes));
  }

  // ----- the roots of the diff of two trees

  ghost predicate AcceptableTree(t: Tree) {
    IsTree(t) && forall p | p in t :: Acceptable(p)
  }

  /** No root lies at or below another one. */
  ghost predicate Antichain(roots: seq<Change>) {
    forall i, j | 0 <= i < |roots| && 0 <= j < |roots| && i != j :: !Above(roots[i].path, roots[j].path)
  }

  ghost predicate Covered(roots: seq<Change>, x: Path) {
    exists i | 0 <= i < |roots| :: Above(roots[i].path, x)
  }

  function TreeDiff(b: Tree, s: Tree): seq<Change>
    requires CleanKeys(EntriesOf(b)) && CleanKeys(EntriesOf(s))
  {
    Diff(EntriesOf(b), EntriesOf(s))
  }

  /** A path is in the diff of two trees exactly when the trees differ there, with the
      entries of both sides. */
  lemma TreeDiffAt(b: Tree, s: Tree, p: Path)
    requires AcceptableTree(b) && AcceptableTree(s)
    ensures (exists c :: c in TreeDiff(b, s) && c.path == p) <==> Look(b, p) != Look(s, p)
    ensures forall c | c in TreeDiff(b, s) && c.path == p ::
      c.before == Lookup(EntriesOf(b), p) && c.after == Lookup(EntriesOf(s), p) && p != []
  {
    DescribedIsOk(b);
    DescribedIsOk(s);
    DiffContents(EntriesOf(b), EntriesOf(s));
    ChangedIffDifferent(EntriesOf(b), EntriesOf(s), p);
    if p in b && p in s && Describe(p, b[p]) == Describe(p, s[p]) {
      DescribeInjective(p, b[p], s[p]);
    }
    if Look(b, p) != Look(s, p) {
      var c := ChangeAt(EntriesOf(b), EntriesOf(s), p).value;
      assert c in TreeDiff(b, s) && c.path == p;
    }
  }

  /** A changed path with a changed or present path below it is a directory on one side. */
  lemma DirectoryAbove(b: Tree, s: Tree, d: Change, x: Path)
    requires AcceptableTree(b) && AcceptableTree(s)
    requires d in TreeDiff(b, s) && Above(d.path, x) && d.path != x && (x in b || x in s)
    ensures DirectoryChange(d)
  {
    TreeDiffAt(b, s, d.path);
    assert Inside(d.path, x);
    if x in b { assert DirectoryAt(b, d.path); } else { assert DirectoryAt(s, d.path); }
  }

  ghost predicate Selected(b: Tree, s: Tree, roots: seq<Change>)
    requires CleanKeys(EntriesOf(b)) && CleanKeys(EntriesOf(s))
  {
    Selection(ByDepth(TreeDiff(b, s)), roots) && forall c :: c in ByDepth(TreeDiff(b, s)) <==> c in TreeDiff(b, s)
  }

  lemma TreeRootsSelected(b: Tree, s: Tree)
    requires AcceptableTree(b) && AcceptableTree(s)
    ensures Selected(b, s, Roots(TreeDiff(b, s)))
  {
    DiffContents(EntriesOf(b), EntriesOf(s));
    ByDepthKeeps(TreeDiff(b, s));
    SelectIsSelection(ByDepth(TreeDiff(b, s)));
  }

  lemma RootsApart(b: Tree, s: Tree, roots: seq<Change>, c: Change, d: Change)
    requires AcceptableTree(b) && AcceptableTree(s) && Selected(b, s, roots)
    requires c in roots && d in roots && c != d
    ensures !Above(d.path, c.path)
  {
    if Above(d.path, c.path) {
      var i :| 0 <= i < |roots| && roots[i] == c;
      var j :| 0 <= j < |roots| && roots[j] == d;
      TreeDiffAt(b, s, c.path);
      DirectoryAbove(b, s, d, c.path);
    }
  }

  lemma RootsCover(b: Tree, s: Tree, roots: seq<Change>, x: Path)
    requires AcceptableTree(b) && AcceptableTree(s) && Selected(b, s, roots)
    requires Look(b, x) != Look(s, x)
    ensures Covered(roots, x)
  {
    TreeDiffAt(b, s, x);
    var c :| c in TreeDiff(b, s) && c.path == x;
    if c in roots {
      var i :| 0 <= i < |roots| && roots[i] == c;
      assert Above(roots[i].path, x);
    } else {
      assert CoveredBy(roots, c);
      var d :| d in roots && Above(d.path, c.path);
      var i :| 0 <= i < |roots| && roots[i] == d;
      assert Above(roots[i].path, x);
    }
  }

  lemma AboveRootUnchanged(b: Tree, s: Tree, roots: seq<Change>, c: Change, a: Path)
    requires AcceptableTree(b) && AcceptableTree(s) && Selected(b, s, roots)
    requires c in roots && Inside(a, c.path)
    ensures Look(b, a) == Look(s, a) && DirectoryAt(b, a)
  {
    TreeDiffAt(b, s, c.path);
    if Look(b, a) != Look(s, a) {
      RootsCover(b, s, roots, a);
      var i :| 0 <= i < |roots| && Above(roots[i].path, a);
      assert roots[i] in roots;
      AboveTransitive(roots[i].path, a, c.path);
      RootsApart(b, s, roots, c, roots[i]);
      assert false;
    }
    if c.path in b { assert DirectoryAt(b, a); } else { assert DirectoryAt(s, a); }
  }

  /** What the commit engine needs of its operation roots. */
  ghost predicate RootsOf(b: Tree, s: Tree, roots: seq<Change>) {
    && Antichain(roots) && DepthSorted(roots)
    && (forall c | c in roots :: Clean(c.path) && Look(b, c.path) != Look(s, c.path))
    && (forall c | c in roots :: c.before == Lookup(EntriesOf(b), c.path) && c.after == Lookup(EntriesOf(s), c.path))
    && (forall x | Look(b, x) != Look(s, x) :: Covered(roots, x))
    && (forall c, a | c in roots && Inside(a, c.path) :: Look(b, a) == Look(s, a) && DirectoryAt(b, a))
  }

  lemma RootsAntichain(b: Tree, s: Tree, roots: seq<Change>)
    requires AcceptableTree(b) && AcceptableTree(s) && Selected(b, s, roots)
    ensures Antichain(roots)
  {
    forall i, j | 0 <= i < |roots| && 0 <= j < |roots| && i != j ensures !Above(roots[i].path, roots[j].path) {
      RootsApart(b, s, roots, roots[j], roots[i]);
    }
  }

  /** The roots of the diff of two trees: an antichain of changes that covers every change,
      outside of which the trees agree, and above which both have the same directories. */
  lemma OperationRootsOfTrees(b: Tree, s: Tree)
    requires AcceptableTree(b) && AcceptableTree(s)
    ensures RootsOf(b, s, Roots(TreeDiff(b, s)))
  {
    var roots := Roots(TreeDiff(b, s));
    TreeRootsSelected(b, s);
    RootsAntichain(b, s, roots);
    forall c | c in roots
      ensures Clean(c.path) && Look(b, c.path) != Look(s, c.path)
      ensures c.before == Lookup(EntriesOf(b), c.path) && c.after == Lookup(EntriesOf(s), c.path)
    {
      TreeDiffAt(b, s, c.path);
    }
    forall x | Look(b, x) != Look(s, x) ensures Covered(roots, x) {
      RootsCover(b, s, roots, x);
    }
    forall c, a | c in roots && Inside(a, c.path) ensures Look(b, a) == Look(s, a) && DirectoryAt(b, a) {
      AboveRootUnchanged(b, s, roots, c, a);
    }
  }

  /** Each path lies below at most one root. */
  lemma OneRoot(roots: seq<Change>, i: nat, j: nat, x: Path)
    requires Antichain(roots) && i < |roots| && j < |roots|
    ensures Above(roots[i].path, x) && Above(roots[j].path, x) ==> i == j
  {
    Comparable(roots[i].path, roots[j].path, x);
  }
}

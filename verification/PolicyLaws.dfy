/** Laws of the result policy: order does not matter, more changes never weaken the decision,
    an automatic allow destroys nothing, and the summary balances on a true diff. */
module PolicyLaws {
  import opened Paths
  import opened Trees
  import opened Sums
  import opened Manifests
  import opened Diffs
  import opened Policy

  // ----- order and growth

  function Without(changes: seq<Change>, j: nat): (r: seq<Change>)
    requires j < |changes|
    ensures |r| == |changes| - 1
  {
    changes[..j] + changes[j + 1..]
  }

  lemma {:induction false} TotalConcat(a: seq<Change>, b: seq<Change>, f: Change -> int)
    ensures Total(a + b, f) == Total(a, f) + Total(b, f)
    decreases |b|
  {
    if b == [] {
      assert a + b == a;
    } else {
      var n := |b| - 1;
      TotalConcat(a, b[..n], f);
      assert (a + b)[..|a + b| - 1] == a + b[..n];
    }
  }

  lemma TotalOne(c: Change, f: Change -> int)
    ensures Total([c], f) == f(c)
  {
    assert [c][..0] == [];
  }

  lemma {:induction false} TotalWithout(changes: seq<Change>, j: nat, f: Change -> int)
    requires j < |changes|
    ensures Total(changes, f) == Total(Without(changes, j), f) + f(changes[j])
  {
    var head, one, tail := changes[..j], [changes[j]], changes[j + 1..];
    TotalConcat(head, tail, f);
    TotalConcat(head, one, f);
    TotalConcat(head + one, tail, f);
    TotalOne(changes[j], f);
    assert changes == head + one + tail;
  }

  lemma MultisetWithout(changes: seq<Change>, j: nat)
    requires j < |changes|
    ensures multiset(Without(changes, j)) == multiset(changes) - multiset{changes[j]}
  {
    assert changes == changes[..j] + [changes[j]] + changes[j + 1..];
  }

  /** Totals of nonnegative quantities only grow when changes are added anywhere. */
  lemma {:induction false} TotalGrows(a: seq<Change>, b: seq<Change>, f: Change -> int)
    requires multiset(a) <= multiset(b) && forall c | c in b :: f(c) >= 0
    ensures Total(a, f) <= Total(b, f)
    ensures multiset(a) == multiset(b) ==> Total(a, f) == Total(b, f)
    ensures |a| <= |b|
    decreases |a|
  {
    if a == [] {
      TotalNonNegativeOn(b, f);
      assert multiset(b) == multiset{} ==> |b| == 0 by { assert |multiset(b)| == |b|; }
    } else {
      var n := |a| - 1;
      var c := a[n];
      assert a == a[..n] + [c];
      assert c in multiset(b);
      var j :| 0 <= j < |b| && b[j] == c;
      MultisetWithout(b, j);
      TotalWithout(b, j, f);
      TotalGrows(a[..n], Without(b, j), f);
    }
  }

  lemma {:induction false} TotalNonNegativeOn(changes: seq<Change>, f: Change -> int)
    requires forall c | c in changes :: f(c) >= 0
    ensures Total(changes, f) >= 0
  {
    if changes != [] { TotalNonNegativeOn(changes[..|changes| - 1], f); }
  }

  /** What is found depends on which changes there are. */
  lemma {:induction false} GatherMember(changes: seq<Change>, f: Change -> seq<Finding>, x: Finding)
    ensures x in Gather(changes, f) <==> exists c | c in changes :: x in f(c)
  {
    if changes != [] {
      var n := |changes| - 1;
      GatherMember(changes[..n], f, x);
      assert changes == changes[..n] + [changes[n]];
    }
  }

  lemma FindingsGrow(p: GuardPolicy, rules: CaseRules, a: seq<Change>, b: seq<Change>, x: Finding)
    requires forall c | c in a :: c in b
    requires x in AllFindings(p, rules, a)
    ensures x in AllFindings(p, rules, b)
  {
    GatherMember(a, FindingsAt(p, rules), x);
    GatherMember(b, FindingsAt(p, rules), x);
  }

  lemma MembersOf(a: seq<Change>, b: seq<Change>)
    requires multiset(a) <= multiset(b)
    ensures forall c | c in a :: c in b
  {
    forall c | c in a ensures c in b {
      assert c in multiset(a);
      assert c in multiset(b);
    }
  }

  predicate SizesOk(changes: seq<Change>) {
    forall c | c in changes && c.after.Some? :: c.after.value.size >= 0
  }

  function Strength(d: Decision): nat {
    match d case Allow => 0 case RequireApproval => 1 case Deny => 2
  }

  /** The decision for a fixed baseline never weakens when changes are added to the list. */
  lemma DecisionNeverWeakens(p: GuardPolicy, rules: CaseRules, baseline: Entries, s1: Entries, s2: Entries,
                             a: seq<Change>, b: seq<Change>)
    requires Named(a) && Named(b) && SizesOk(b) && multiset(a) <= multiset(b)
    ensures Strength(VerdictOf(p, rules, baseline, s1, a).decision)
      <= Strength(VerdictOf(p, rules, baseline, s2, b).decision)
  {
    MembersOf(a, b);
    var n := |baseline|;
    ErrorsGrow(p, rules, n, a, b);
    if FindingsOf(p, rules, n, b) == [] && AllAdd(b) {
      AllowShrinks(p, rules, n, a, b);
    }
    DecisionOrder(FindingsOf(p, rules, n, a), a, FindingsOf(p, rules, n, b), b);
  }

  lemma DecisionOrder(fa: seq<Finding>, a: seq<Change>, fb: seq<Finding>, b: seq<Change>)
    requires HasError(fa) ==> HasError(fb)
    requires fb == [] && AllAdd(b) ==> fa == [] && AllAdd(a)
    ensures Strength(DecisionFor(fa, a)) <= Strength(DecisionFor(fb, b))
  {
  }

  lemma ErrorsGrow(p: GuardPolicy, rules: CaseRules, n: nat, a: seq<Change>, b: seq<Change>)
    requires Named(a) && Named(b) && multiset(a) <= multiset(b) && forall c | c in a :: c in b
    ensures HasError(FindingsOf(p, rules, n, a)) ==> HasError(FindingsOf(p, rules, n, b))
  {
    HasErrorConcat(AllFindings(p, rules, a), PlanFindings(p, n, a));
    HasErrorConcat(AllFindings(p, rules, b), PlanFindings(p, n, b));
    if HasError(AllFindings(p, rules, a)) {
      var f :| f in AllFindings(p, rules, a) && f.severity == Error;
      FindingsGrow(p, rules, a, b, f);
    }
    if HasError(PlanFindings(p, n, a)) {
      PlanErrors(p, n, a);
      PlanErrors(p, n, b);
      TotalGrows(a, b, OfKind(Delete));
      if MassDeletion(p, n, Count(a, Delete)) { MoreDeletions(p, n, Count(a, Delete), Count(b, Delete)); }
    }
  }

  lemma PlanErrors(p: GuardPolicy, n: nat, a: seq<Change>)
    ensures HasError(PlanFindings(p, n, a)) <==>
      (MassDeletion(p, n, Count(a, Delete)) && !p.allowMassDelete) || |a| > p.maxTotalChanges
  {
    var mass :=
      One(MassDeletion(p, n, Count(a, Delete)) && !p.allowMassDelete, Finding(MassDeletionDenied, Error, None));
    var budget := One(|a| > p.maxTotalChanges, Finding(ChangeBudgetExceeded, Error, None));
    var adds := One(AddBudgetExceeded(p, a), Finding(AutomaticAddBudgetExceeded, Warning, None));
    HasErrorConcat(mass + budget, adds);
    HasErrorConcat(mass, budget);
    if MassDeletion(p, n, Count(a, Delete)) && !p.allowMassDelete { assert mass[0] in mass; }
    if |a| > p.maxTotalChanges { assert budget[0] in budget; }
  }

  lemma MoreDeletions(p: GuardPolicy, n: nat, d: nat, e: nat)
    requires MassDeletion(p, n, d) && d <= e
    ensures MassDeletion(p, n, e)
  {
    if n > 0 && d as real / n as real >= p.hardDeleteFraction {
      assert e as real / n as real >= d as real / n as real;
    }
  }

  lemma AllowShrinks(p: GuardPolicy, rules: CaseRules, n: nat, a: seq<Change>, b: seq<Change>)
    requires Named(a) && Named(b) && SizesOk(b) && multiset(a) <= multiset(b) && forall c | c in a :: c in b
    requires FindingsOf(p, rules, n, b) == [] && AllAdd(b)
    ensures FindingsOf(p, rules, n, a) == [] && AllAdd(a)
  {
    var fa := AllFindings(p, rules, a);
    if fa != [] {
      assert fa[0] in fa;
      FindingsGrow(p, rules, a, b, fa[0]);
    }
    PlanQuiet(p, n, a, b);
  }

  lemma PlanQuiet(p: GuardPolicy, n: nat, a: seq<Change>, b: seq<Change>)
    requires SizesOk(b) && multiset(a) <= multiset(b) && forall c | c in a :: c in b
    requires PlanFindings(p, n, b) == [] && AllAdd(b)
    ensures PlanFindings(p, n, a) == []
  {
    TotalGrows(a, b, OfKind(Delete));
    TotalGrows(a, b, AddedBytes());
    if MassDeletion(p, n, Count(a, Delete)) { MoreDeletions(p, n, Count(a, Delete), Count(b, Delete)); }
  }

  /** Reordering the changes changes neither the decision nor the summary. */
  lemma OrderIrrelevant(p: GuardPolicy, rules: CaseRules, baseline: Entries, staged: Entries, a: seq<Change>,
                        b: seq<Change>)
    requires Named(a) && Named(b) && SizesOk(a) && SizesOk(b) && multiset(a) == multiset(b)
    requires forall c | c in a && c.before.Some? :: c.before.value.size >= 0
    ensures VerdictOf(p, rules, baseline, staged, a).decision == VerdictOf(p, rules, baseline, staged, b).decision
    ensures VerdictOf(p, rules, baseline, staged, a).summary == VerdictOf(p, rules, baseline, staged, b).summary
  {
    DecisionNeverWeakens(p, rules, baseline, staged, staged, a, b);
    DecisionNeverWeakens(p, rules, baseline, staged, staged, b, a);
    SummarySame(baseline, staged, a, b);
  }

  lemma SummarySame(baseline: Entries, staged: Entries, a: seq<Change>, b: seq<Change>)
    requires SizesOk(a) && SizesOk(b) && multiset(a) == multiset(b)
    requires forall c | c in a && c.before.Some? :: c.before.value.size >= 0
    ensures SummaryOf(baseline, staged, a) == SummaryOf(baseline, staged, b)
  {
    MembersOf(b, a);
    TotalGrows(a, b, OfKind(Add));
    TotalGrows(a, b, OfKind(Modify));
    TotalGrows(a, b, OfKind(Delete));
    TotalGrows(a, b, OfKind(TypeChange));
    TotalGrows(a, b, AddedBytes());
    TotalGrows(a, b, ReplacementBytes());
    TotalGrows(a, b, RemovedBytes());
    TotalGrows(b, a, OfKind(Add));
  }

  // ----- automatic allow

  /** When the diff of two trees is allowed without approval, every baseline entry is present
      unchanged in the staged tree and no operation root has anything to back up. */
  lemma AllowIsNonDestructive(p: GuardPolicy, rules: CaseRules, b: Tree, s: Tree)
    requires AcceptableTree(b) && AcceptableTree(s)
    requires VerdictOf(p, rules, EntriesOf(b), EntriesOf(s), TreeDiff(b, s)).decision == Allow
    ensures forall x | x in b :: Look(s, x) == Look(b, x)
    ensures forall c | c in Roots(TreeDiff(b, s)) :: c.kind == Add && c.before.None? && c.after.Some?
  {
    AddsOnlyKeep(b, s);
    TreeRootsSelected(b, s);
    forall c | c in Roots(TreeDiff(b, s)) ensures c.kind == Add && c.before.None? && c.after.Some? {
      assert c in TreeDiff(b, s);
      AddHasNoBefore(b, s, c);
    }
  }

  lemma AddsOnlyKeep(b: Tree, s: Tree)
    requires AcceptableTree(b) && AcceptableTree(s) && AllAdd(TreeDiff(b, s))
    ensures forall x | x in b :: Look(s, x) == Look(b, x)
  {
    forall x | x in b ensures Look(s, x) == Look(b, x) {
      TreeDiffAt(b, s, x);
      if Look(s, x) != Look(b, x) {
        var c :| c in TreeDiff(b, s) && c.path == x;
        AddHasNoBefore(b, s, c);
      }
    }
  }

  lemma AddHasNoBefore(b: Tree, s: Tree, c: Change)
    requires AcceptableTree(b) && AcceptableTree(s) && c in TreeDiff(b, s) && c.kind == Add
    ensures c.before.None? && c.after.Some?
  {
    DiffContents(EntriesOf(b), EntriesOf(s));
  }

  // ----- the books balance

  function Here(entries: Entries): Path -> int {
    (p: Path) => if p in entries then 1 else 0
  }

  /** What one path contributes to a total over the diff. */
  function Contribution(before: Entries, after: Entries, f: Change -> int): Path -> int {
    (p: Path) => match ChangeAt(before, after, p) case Some(c) => f(c) case None => 0
  }

  function KeySet(keys: seq<Path>): set<Path> {
    set p | p in keys
  }

  lemma CollectStep(before: Entries, after: Entries, keys: seq<Path>, f: Change -> int)
    requires keys != []
    ensures var n := |keys| - 1;
      Total(Collect(before, after, keys), f) == Total(Collect(before, after, keys[..n]), f)
        + Contribution(before, after, f)(keys[n])
  {
    var n := |keys| - 1;
    var earlier := Collect(before, after, keys[..n]);
    match ChangeAt(before, after, keys[n])
    case None =>
    case Some(c) => assert (earlier + [c])[..|earlier + [c]| - 1] == earlier;
  }

  lemma KeySetStep(keys: seq<Path>, f: Path -> int)
    requires DistinctKeys(keys) && keys != []
    ensures var n := |keys| - 1; Sum(KeySet(keys), f) == Sum(KeySet(keys[..n]), f) + f(keys[n])
  {
    var n := |keys| - 1;
    assert KeySet(keys) == KeySet(keys[..n]) + {keys[n]};
    SumInsert(KeySet(keys[..n]), f, keys[n]);
  }

  lemma {:induction false} CollectTotal(before: Entries, after: Entries, keys: seq<Path>, f: Change -> int)
    requires DistinctKeys(keys)
    ensures Total(Collect(before, after, keys), f) == Sum(KeySet(keys), Contribution(before, after, f))
    decreases |keys|
  {
    if keys == [] {
      assert KeySet(keys) == {};
    } else {
      CollectTotal(before, after, keys[..|keys| - 1], f);
      CollectStep(before, after, keys, f);
      KeySetStep(keys, Contribution(before, after, f));
    }
  }

  /** A total over the diff is a sum over all paths of both sides. */
  lemma DiffTotal(before: Entries, after: Entries, f: Change -> int)
    requires CleanKeys(before) && CleanKeys(after)
    ensures Total(Diff(before, after), f) == Sum(before.Keys + after.Keys, Contribution(before, after, f))
  {
    hide SortedPaths, Contribution, Clean;
    var keys := SortedPaths(before.Keys + after.Keys);
    SortedPathsSorted(before.Keys + after.Keys);
    CollectTotal(before, after, keys, f);
    assert KeySet(keys) == before.Keys + after.Keys;
  }

  lemma {:induction false} SumAdds(keys: set<Path>, f: Path -> int, g: Path -> int, h: Path -> int)
    requires forall p | p in keys :: h(p) == f(p) + g(p)
    ensures Sum(keys, h) == Sum(keys, f) + Sum(keys, g)
    decreases |keys|
  {
    if keys != {} {
      var p :| p in keys;
      SumRemove(keys, f, p);
      SumRemove(keys, g, p);
      SumRemove(keys, h, p);
      SumAdds(keys - {p}, f, g, h);
    }
  }

  /** Paths outside the map contribute nothing. */
  lemma SumOnKeys(entries: Entries, keys: set<Path>, f: Path -> int)
    requires entries.Keys <= keys && forall p | p !in entries :: f(p) == 0
    ensures Sum(keys, f) == Sum(entries.Keys, f)
  {
    var rest := keys - entries.Keys;
    SumUnion(entries.Keys, rest, f);
    assert entries.Keys + rest == keys;
    SumZero(rest, f);
  }

  lemma {:induction false} SumZero(keys: set<Path>, f: Path -> int)
    requires forall p | p in keys :: f(p) == 0
    ensures Sum(keys, f) == 0
    decreases |keys|
  {
    if keys != {} {
      var p :| p in keys;
      SumRemove(keys, f, p);
      SumZero(keys - {p}, f);
    }
  }

  lemma HereCounts(entries: Entries, keys: set<Path>)
    requires entries.Keys <= keys
    ensures Sum(keys, Here(entries)) == |entries|
  {
    SumOnKeys(entries, keys, Here(entries));
    CountIsSum(entries.Keys, Here(entries));
    assert (set p | p in entries.Keys && Here(entries)(p) == 1) == entries.Keys;
  }

  /** Staged entries and deletions together are the baseline entries and additions together. */
  lemma EntriesBalance(before: Entries, after: Entries)
    requires CleanKeys(before) && CleanKeys(after)
    ensures |after| + Count(Diff(before, after), Delete) == |before| + Count(Diff(before, after), Add)
  {
    var keys := before.Keys + after.Keys;
    DiffTotal(before, after, OfKind(Delete));
    DiffTotal(before, after, OfKind(Add));
    HereCounts(before, keys);
    HereCounts(after, keys);
    EntriesBalanceOver(before, after, keys);
  }

  lemma EntriesBalanceOver(before: Entries, after: Entries, keys: set<Path>)
    ensures Sum(keys, Here(after)) + Sum(keys, Contribution(before, after, OfKind(Delete)))
      == Sum(keys, Here(before)) + Sum(keys, Contribution(before, after, OfKind(Add)))
  {
    var del, add := Contribution(before, after, OfKind(Delete)), Contribution(before, after, OfKind(Add));
    var both := (p: Path) => Here(after)(p) + del(p);
    SumAdds(keys, Here(after), del, both);
    forall p | p in keys ensures both(p) == Here(before)(p) + add(p) {
      PathKinds(before, after, p);
    }
    SumAdds(keys, Here(before), add, both);
  }

  lemma PathKinds(before: Entries, after: Entries, p: Path)
    ensures Contribution(before, after, OfKind(Delete))(p) == if p in before && p !in after then 1 else 0
    ensures Contribution(before, after, OfKind(Add))(p) == if p !in before && p in after then 1 else 0
  {
    match ChangeAt(before, after, p)
    case None =>
    case Some(c) => assert OfKind(Delete)(c) == (if c.kind == Delete then 1 else 0)
      && OfKind(Add)(c) == (if c.kind == Add then 1 else 0);
  }

  /** The four counts add up to the number of changes. */
  lemma {:induction false} KindsPartition(changes: seq<Change>)
    ensures Count(changes, Add) + Count(changes, Modify) + Count(changes, Delete)
      + Count(changes, TypeChange) == |changes|
  {
    if changes != [] { KindsPartition(changes[..|changes| - 1]); }
  }

  /** The sizes that modified files had before. */
  function ModifiedFrom(): Change -> int {
    (c: Change) => if c.kind == Modify && IsKind(c.before, FileEntry) then c.before.value.size else 0
  }

  /** Staged bytes are baseline bytes plus what was added and put in place, minus what was
      removed and what modified files held before. */
  lemma BytesBalance(before: Entries, after: Entries)
    requires CleanKeys(before) && CleanKeys(after) && EntriesOk(before) && EntriesOk(after)
    ensures var changes := Diff(before, after);
      TotalBytes(after) + Total(changes, RemovedBytes()) + Total(changes, ModifiedFrom())
        == TotalBytes(before) + Total(changes, AddedBytes()) + Total(changes, ReplacementBytes())
  {
    var keys := before.Keys + after.Keys;
    DiffTotal(before, after, RemovedBytes());
    DiffTotal(before, after, ModifiedFrom());
    DiffTotal(before, after, AddedBytes());
    DiffTotal(before, after, ReplacementBytes());
    SumOnKeys(after, keys, SizeAt(after));
    SumOnKeys(before, keys, SizeAt(before));
    BytesBalanceOver(before, after, keys);
  }

  lemma BytesBalanceOver(before: Entries, after: Entries, keys: set<Path>)
    requires EntriesOk(before) && EntriesOk(after)
    ensures Sum(keys, SizeAt(after)) + Sum(keys, Contribution(before, after, RemovedBytes()))
      + Sum(keys, Contribution(before, after, ModifiedFrom()))
      == Sum(keys, SizeAt(before)) + Sum(keys, Contribution(before, after, AddedBytes()))
        + Sum(keys, Contribution(before, after, ReplacementBytes()))
  {
    var removed, from := Contribution(before, after, RemovedBytes()), Contribution(before, after, ModifiedFrom());
    var added, replaced := Contribution(before, after, AddedBytes()), Contribution(before, after, ReplacementBytes());
    var out := (p: Path) => removed(p) + from(p);
    var in_ := (p: Path) => added(p) + replaced(p);
    var both := (p: Path) => SizeAt(after)(p) + out(p);
    SumAdds(keys, removed, from, out);
    SumAdds(keys, added, replaced, in_);
    SumAdds(keys, SizeAt(after), out, both);
    forall p | p in keys ensures both(p) == SizeAt(before)(p) + in_(p) {
      PathBalance(before, after, p);
    }
    SumAdds(keys, SizeAt(before), in_, both);
  }

  lemma PathBalance(before: Entries, after: Entries, p: Path)
    requires EntriesOk(before) && EntriesOk(after)
    ensures SizeAt(after)(p) + Contribution(before, after, RemovedBytes())(p)
      + Contribution(before, after, ModifiedFrom())(p)
      == SizeAt(before)(p) + Contribution(before, after, AddedBytes())(p)
        + Contribution(before, after, ReplacementBytes())(p)
  {
    ChangedIffDifferent(before, after, p);
  }

  /** Under a deletion gate at one half, a plan over a baseline large enough to be gated that is
      not denied keeps more than half of the baseline paths. */
  lemma MostPathsKept(p: GuardPolicy, rules: CaseRules, before: Entries, after: Entries)
    requires CleanKeys(before) && CleanKeys(after)
    requires !p.allowMassDelete && p.hardDeleteFraction <= 0.5 && |before| >= p.massDeleteMinBaselineEntries
      && |before| > 0
    requires VerdictOf(p, rules, before, after, Diff(before, after)).decision != Deny
    ensures |set x | x in before && x in after| * 2 > |before|
  {
    var changes := Diff(before, after);
    var d := Count(changes, Delete);
    HasErrorConcat(AllFindings(p, rules, changes), PlanFindings(p, |before|, changes));
    PlanErrors(p, |before|, changes);
    KeptAndDeleted(before, after);
    if d * 2 >= |before| {
      HalfIsMass(p, |before|, d);
    }
  }

  lemma HalfIsMass(p: GuardPolicy, n: nat, d: nat)
    requires n > 0 && d * 2 >= n && p.hardDeleteFraction <= 0.5 && n >= p.massDeleteMinBaselineEntries
    ensures MassDeletion(p, n, d)
  {
    assert d as real * 2.0 >= n as real;
    assert d as real / n as real >= 0.5;
  }

  lemma KeptAndDeleted(before: Entries, after: Entries)
    requires CleanKeys(before) && CleanKeys(after)
    ensures |set x | x in before && x in after| + Count(Diff(before, after), Delete) == |before|
  {
    var keys := before.Keys + after.Keys;
    DiffTotal(before, after, OfKind(Delete));
    HereCounts(before, keys);
    KeptCounts(before, after, keys);
    KeptOver(before, after, keys);
  }

  lemma KeptCounts(before: Entries, after: Entries, keys: set<Path>)
    requires before.Keys <= keys
    ensures Sum(keys, Shared(before, after)) == |set x | x in before && x in after|
  {
    CountIsSum(keys, Shared(before, after));
    assert (set p | p in keys && Shared(before, after)(p) == 1) == set x | x in before && x in after;
  }

  function Shared(before: Entries, after: Entries): Path -> int {
    (p: Path) => if p in before && p in after then 1 else 0
  }

  lemma KeptOver(before: Entries, after: Entries, keys: set<Path>)
    ensures Sum(keys, Shared(before, after))
      + Sum(keys, Contribution(before, after, OfKind(Delete))) == Sum(keys, Here(before))
  {
    forall p | p in keys
      ensures Here(before)(p) == Shared(before, after)(p) + Contribution(before, after, OfKind(Delete))(p) {
      PathKinds(before, after, p);
    }
    SumAdds(keys, Shared(before, after), Contribution(before, after, OfKind(Delete)), Here(before));
  }
}

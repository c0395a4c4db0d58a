/** What the policy decides, told from the changes themselves: which findings there are, when a plan
    is denied, when it is allowed outright, and what the summary of a true diff counts. */
module PolicyReasons {
  import opened Paths
  import opened Sums
  import opened Manifests
  import opened Diffs
  import opened Symlinks
  import opened Policy
  import opened PolicyLaws

  // ----- reasons in one change

  /** Below a top-level name that is protected, up to case folding. */
  ghost predicate UnderProtected(p: GuardPolicy, rules: CaseRules, c: Change) {
    exists name, top ::
      name in p.protectedTopLevel && c.path != [] && top == c.path[0] && rules.casefold(name) == rules.casefold(top)
  }

  /** A device, socket or the like is there afterwards, or was there and nothing is any more. */
  ghost predicate TouchesSpecial(c: Change) {
    || (c.after.Some? && c.after.value.kind == SpecialEntry)
    || (c.after.None? && c.before.Some? && c.before.value.kind == SpecialEntry)
  }

  /** A new or changed symbolic link. */
  ghost predicate BringsLink(c: Change) {
    c.kind != Delete && c.after.Some? && c.after.value.kind == SymlinkEntry
  }

  /** The link has no usable target, an absolute one, or one that rises above the workspace on the way
      or ends below a protected name. */
  ghost predicate UnsafeLink(p: GuardPolicy, rules: CaseRules, c: Change) {
    BringsLink(c) &&
    match c.after.value.linkTarget
    case None => true
    case Some(target) =>
      || target == "" || '\0' in target
      || target[0] == '/' || target[0] == '\\' || (|target| >= 2 && target[1] == ':')
      || (c.path != [] && LeadsAstray(p, rules, c.path, Parts(Normalized(target))))
  }

  ghost predicate LeadsAstray(p: GuardPolicy, rules: CaseRules, link: Path, parts: seq<string>)
    requires link != []
  {
    || (exists k :: 0 <= k <= |parts| && Height(link, parts, k) < 0)
    || exists name, top :: name in p.protectedTopLevel && EndsBelow(link, parts, |parts|, top)
         && rules.casefold(rules.casefold(name)) == rules.casefold(top)
  }

  /** A new file that may be executed, or whose name ends like a program's. */
  ghost predicate AddsProgram(p: GuardPolicy, rules: CaseRules, c: Change) {
    && c.kind == Add && c.path != [] && c.after.Some? && c.after.value.kind == FileEntry
    && ((exists bit | bit in {1, 8, 64} :: (c.after.value.mode / bit) % 2 == 1)
      || exists tail :: TailOf(c.path[|c.path| - 1], tail) && rules.lower(tail) in p.executableSuffixes)
  }

  /** `tail` runs from the last dot of the name, unless that is its first or last character; then it
      is empty. */
  ghost predicate TailOf(name: string, tail: string) {
    || (exists i | 0 < i < |name| - 1 :: name[i] == '.' && '.' !in name[i + 1..] && tail == name[i..])
    || (tail == "" && forall i | 0 < i < |name| - 1 :: name[i] == '.' ==> '.' in name[i + 1..])
  }

  /** A name like those of credentials and keys. */
  ghost predicate LooksSecret(p: GuardPolicy, rules: CaseRules, c: Change) {
    c.path != [] &&
    var name := rules.lower(c.path[|c.path| - 1]);
    || (exists s :: s in p.sensitiveNames && rules.lower(s) == name)
    || (|name| >= 5 && name[..5] == ".env.")
    || (|name| >= 4 && name[|name| - 4..] in {".pem", ".key", ".p12", ".pfx"})
  }

  // ----- reasons in the whole plan

  function Deletions(changes: seq<Change>): set<nat> {
    set i: nat | i < |changes| && changes[i].kind == Delete
  }

  /** From the minimal size of the baseline on: that many deletions, or that share of it. */
  ghost predicate DeletesTooMuch(p: GuardPolicy, baselineCount: nat, changes: seq<Change>) {
    var d := |Deletions(changes)|;
    && !p.allowMassDelete && d > 0 && baselineCount >= p.massDeleteMinBaselineEntries
    && (d >= p.hardDeleteEntries
      || (baselineCount > 0 && d as real >= p.hardDeleteFraction * baselineCount as real))
  }

  ghost predicate OverAddBudget(p: GuardPolicy, changes: seq<Change>) {
    && changes != [] && (forall c | c in changes :: c.kind == Add)
    && (|changes| > p.autoAddMaxEntries || Total(changes, AddedBytes()) > p.autoAddMaxBytes)
  }

  // ----- findings

  lemma {:induction false} LastDotAt(name: string)
    ensures -1 <= LastDot(name) < |name|
    ensures LastDot(name) >= 0 ==> name[LastDot(name)] == '.'
    ensures forall i | LastDot(name) < i < |name| :: name[i] != '.'
  {
    if name != "" { LastDotAt(name[..|name| - 1]); }
  }

  lemma SuffixIsTail(name: string, tail: string)
    ensures TailOf(name, tail) <==> tail == Suffix(name)
  {
    LastDotAt(name);
    var i := LastDot(name);
    if 0 < i < |name| - 1 {
      assert '.' !in name[i + 1..];
      forall j | 0 < j < |name| - 1 && name[j] == '.' && j != i ensures '.' in name[j + 1..] {
        assert name[j + 1..][i - j - 1] == '.';
      }
    } else {
      forall j | 0 < j < |name| - 1 && name[j] == '.' ensures '.' in name[j + 1..] {
        assert name[j + 1..][i - j - 1] == '.';
      }
    }
  }

  lemma ReasonsAgree(p: GuardPolicy, rules: CaseRules, c: Change)
    requires c.path != []
    ensures Protected(p, rules, c.path) <==> UnderProtected(p, rules, c)
    ensures IsKind(Judged(c), SpecialEntry) <==> TouchesSpecial(c)
    ensures Sensitive(p, rules, c.path) <==> LooksSecret(p, rules, c)
  {
    var name := rules.lower(c.path[|c.path| - 1]);
    assert ".env." <= name <==> |name| >= 5 && name[..5] == ".env.";
  }

  lemma ProgramsAgree(p: GuardPolicy, rules: CaseRules, c: Change)
    ensures AddsExecutable(p, rules, c) <==> AddsProgram(p, rules, c)
  {
    if c.path != [] && c.after.Some? {
      var mode := c.after.value.mode;
      assert ExecutableMode(mode) <==> exists bit | bit in {1, 8, 64} :: (mode / bit) % 2 == 1 by {
        assert mode / 1 == mode && 1 in {1, 8, 64} && 8 in {1, 8, 64} && 64 in {1, 8, 64};
      }
      var name := c.path[|c.path| - 1];
      SuffixIsTail(name, Suffix(name));
      forall tail ensures TailOf(name, tail) <==> tail == Suffix(name) { SuffixIsTail(name, tail); }
    }
  }

  lemma LinksAgree(p: GuardPolicy, rules: CaseRules, c: Change)
    requires c.path != []
    ensures SymlinkFinding(p, rules, c).Some? <==> BringsLink(c)
    ensures BringsLink(c) ==>
      var r := Reason(c.path, c.after.value.linkTarget, rules.casefold, FoldAll(p.protectedTopLevel, rules.casefold));
      && (r.Some? <==> UnsafeLink(p, rules, c))
      && SymlinkFinding(p, rules, c) == Some(if r.Some? then Finding(UnsafeSymlinkTarget(r.value), Error, Some(c.path))
                                             else Finding(SymlinkChange, Warning, Some(c.path)))
  {
    if BringsLink(c) {
      var target := c.after.value.linkTarget;
      var protected := FoldAll(p.protectedTopLevel, rules.casefold);
      ReasonExactly(c.path, target, rules.casefold, protected);
      if !Malformed(target) { FoldedNames(p, rules, c.path, Parts(Normalized(target.value))); }
    }
  }

  lemma FoldedNames(p: GuardPolicy, rules: CaseRules, link: Path, parts: seq<string>)
    requires link != []
    ensures var protected := FoldAll(p.protectedTopLevel, rules.casefold);
      (exists name, top :: name in protected && EndsBelow(link, parts, |parts|, top)
        && rules.casefold(name) == rules.casefold(top)) <==>
      exists name, top :: name in p.protectedTopLevel && EndsBelow(link, parts, |parts|, top)
        && rules.casefold(rules.casefold(name)) == rules.casefold(top)
  {
    var protected := FoldAll(p.protectedTopLevel, rules.casefold);
    forall name | name in p.protectedTopLevel ensures rules.casefold(name) in protected {
      var i :| 0 <= i < |p.protectedTopLevel| && p.protectedTopLevel[i] == name;
      assert protected[i] == rules.casefold(name);
    }
    forall name, top | name in protected && EndsBelow(link, parts, |parts|, top)
      && rules.casefold(name) == rules.casefold(top)
      ensures exists n :: n in p.protectedTopLevel && rules.casefold(n) == name
    {
      var i :| 0 <= i < |protected| && protected[i] == name;
      assert p.protectedTopLevel[i] in p.protectedTopLevel;
    }
  }

  lemma {:induction false} DeletionsCount(changes: seq<Change>)
    ensures Count(changes, Delete) == |Deletions(changes)|
  {
    if changes == [] {
      assert Deletions(changes) == {};
    } else {
      var n := |changes| - 1;
      DeletionsCount(changes[..n]);
      assert Deletions(changes) == Deletions(changes[..n]) + (if changes[n].kind == Delete then {n} else {});
    }
  }

  lemma PlanReasonsAgree(p: GuardPolicy, baselineCount: nat, changes: seq<Change>)
    ensures MassDeletion(p, baselineCount, Count(changes, Delete)) && !p.allowMassDelete <==>
      DeletesTooMuch(p, baselineCount, changes)
    ensures AddBudgetExceeded(p, changes) <==> OverAddBudget(p, changes)
  {
    DeletionsCount(changes);
    if baselineCount > 0 { ShareOf(|Deletions(changes)|, baselineCount, p.hardDeleteFraction); }
  }

  lemma ShareOf(d: nat, n: nat, f: real)
    requires n > 0
    ensures d as real / n as real >= f <==> d as real >= f * n as real
  {
  }

  // ----- findings and decisions

  /** What calls for a finding about one change. */
  ghost predicate FoundIn(p: GuardPolicy, rules: CaseRules, c: Change, f: Finding) {
    c.path != [] && f.path == Some(c.path) &&
    match f.code
    case ProtectedPathChange => f.severity == Error && UnderProtected(p, rules, c)
    case SpecialFileChange => f.severity == Error && TouchesSpecial(c)
    case UnsafeSymlinkTarget(reason) =>
      && f.severity == Error && BringsLink(c)
      && Reason(c.path, c.after.value.linkTarget, rules.casefold, FoldAll(p.protectedTopLevel, rules.casefold))
        == Some(reason)
    case SymlinkChange => f.severity == Warning && BringsLink(c) && !UnsafeLink(p, rules, c)
    case ExecutableFileAdded => f.severity == Warning && AddsProgram(p, rules, c)
    case SensitivePathChange => f.severity == Warning && LooksSecret(p, rules, c)
    case _ => false
  }

  /** What calls for a finding about the plan as a whole. */
  ghost predicate FoundOverall(p: GuardPolicy, baselineCount: nat, changes: seq<Change>, f: Finding) {
    f.path == None &&
    match f.code
    case MassDeletionDenied => f.severity == Error && DeletesTooMuch(p, baselineCount, changes)
    case ChangeBudgetExceeded => f.severity == Error && |changes| > p.maxTotalChanges
    case AutomaticAddBudgetExceeded => f.severity == Warning && OverAddBudget(p, changes)
    case _ => false
  }

  lemma FindingsInOne(p: GuardPolicy, rules: CaseRules, c: Change, f: Finding)
    requires c.path != []
    ensures f in FindingsFor(p, rules, c) <==> FoundIn(p, rules, c, f)
  {
    hide UnderProtected, TouchesSpecial, LooksSecret, AddsProgram, Protected, Sensitive, AddsExecutable, UnsafeLink;
    ReasonsAgree(p, rules, c);
    ProgramsAgree(p, rules, c);
    LinksAgree(p, rules, c);
  }

  lemma FindingsOverall(p: GuardPolicy, baselineCount: nat, changes: seq<Change>, f: Finding)
    ensures f in PlanFindings(p, baselineCount, changes) <==> FoundOverall(p, baselineCount, changes, f)
  {
    PlanReasonsAgree(p, baselineCount, changes);
  }

  /** The findings of a plan are exactly those that its changes call for. */
  lemma FindingsExactly(p: GuardPolicy, rules: CaseRules, baselineCount: nat, changes: seq<Change>, f: Finding)
    requires Named(changes)
    ensures f in FindingsOf(p, rules, baselineCount, changes) <==>
      (exists c :: c in changes && FoundIn(p, rules, c, f)) || FoundOverall(p, baselineCount, changes, f)
  {
    hide FoundIn, FoundOverall, FindingsFor, PlanFindings;
    GatherMember(changes, FindingsAt(p, rules), f);
    forall c | c in changes ensures f in FindingsAt(p, rules)(c) <==> FoundIn(p, rules, c, f) {
      FindingsInOne(p, rules, c, f);
    }
    FindingsOverall(p, baselineCount, changes, f);
  }

  /** The order of the rules. */
  function Rank(code: Code): nat {
    match code
    case ProtectedPathChange => 0
    case SpecialFileChange => 1
    case UnsafeSymlinkTarget(_) => 2
    case SymlinkChange => 2
    case ExecutableFileAdded => 3
    case SensitivePathChange => 4
    case MassDeletionDenied => 5
    case ChangeBudgetExceeded => 6
    case AutomaticAddBudgetExceeded => 7
  }

  /** Findings about changes come first, by path; those about the same path or the plan, by rule. */
  ghost predicate Precedes(f: Finding, g: Finding) {
    || (f.path == g.path && Rank(f.code) < Rank(g.code))
    || (f.path.Some? && g.path.None?)
    || (f.path.Some? && g.path.Some? && f.path != g.path && TextLE(f.path.value, g.path.value))
  }

  ghost predicate Ordered(fs: seq<Finding>) {
    forall i, j | 0 <= i < j < |fs| :: Precedes(fs[i], fs[j])
  }

  lemma JoinOrdered(a: seq<Finding>, b: seq<Finding>)
    requires Ordered(a) && Ordered(b) && forall f, g | f in a && g in b :: Precedes(f, g)
    ensures Ordered(a + b)
  {
    hide Precedes;
    forall i, j | 0 <= i < j < |a + b| ensures Precedes((a + b)[i], (a + b)[j]) {
      if i < |a| <= j { assert a[i] in a && b[j - |a|] in b; }
    }
  }

  lemma {:induction false} GatheredInOrder(p: GuardPolicy, rules: CaseRules, changes: seq<Change>)
    requires Named(changes) && DistinctPaths(changes) && InTextOrder(changes)
    ensures Ordered(AllFindings(p, rules, changes))
    ensures forall f | f in AllFindings(p, rules, changes) :: exists c :: c in changes && f.path == Some(c.path)
  {
    hide FindingsFor, TextLE;
    if changes != [] {
      var n := |changes| - 1;
      var c := changes[n];
      assert c in changes;
      GatheredInOrder(p, rules, changes[..n]);
      InOrderInOne(p, rules, c);
      var earlier, now := AllFindings(p, rules, changes[..n]), FindingsFor(p, rules, c);
      assert AllFindings(p, rules, changes) == earlier + now;
      forall f, g | f in earlier && g in now
        ensures Precedes(f, g) && exists d :: d in changes && f.path == Some(d.path) {
        var d :| d in changes[..n] && f.path == Some(d.path);
        var i :| 0 <= i < n && changes[i] == d;
        assert d in changes && TextLE(changes[i].path, changes[n].path);
      }
      JoinOrdered(earlier, now);
    }
  }

  /** Findings about one path, by rules below `rank`. */
  ghost predicate OrderedAt(fs: seq<Finding>, rank: nat, path: Option<Path>) {
    Ordered(fs) && forall f | f in fs :: Rank(f.code) < rank && f.path == path
  }

  lemma OneMore(fs: seq<Finding>, rank: nat, path: Option<Path>, condition: bool, f: Finding)
    requires OrderedAt(fs, rank, path) && f.path == path && Rank(f.code) >= rank
    ensures OrderedAt(fs + One(condition, f), Rank(f.code) + 1, path)
  {
    JoinOrdered(fs, One(condition, f));
  }

  lemma InOrderInOne(p: GuardPolicy, rules: CaseRules, c: Change)
    requires c.path != []
    ensures OrderedAt(FindingsFor(p, rules, c), 5, Some(c.path))
  {
    var path := Some(c.path);
    var found := SymlinkFinding(p, rules, c);
    var link := if found.Some? then found.value else Finding(SymlinkChange, Warning, path);
    assert link.path == path && Rank(link.code) == 2;
    FiveInOrder(Protected(p, rules, c.path), IsKind(Judged(c), SpecialEntry), found.Some?, link,
                AddsExecutable(p, rules, c), Sensitive(p, rules, c.path), path);
    assert (match found case Some(f) => [f] case None => []) == One(found.Some?, link);
  }

  lemma FiveInOrder(a: bool, b: bool, l: bool, link: Finding, d: bool, e: bool, path: Option<Path>)
    requires link.path == path && Rank(link.code) == 2
    ensures OrderedAt(
      One(a, Finding(ProtectedPathChange, Error, path)) + One(b, Finding(SpecialFileChange, Error, path)) + One(l, link)
        + One(d, Finding(ExecutableFileAdded, Warning, path)) + One(e, Finding(SensitivePathChange, Warning, path)),
      5, path)
  {
    hide Ordered;
    var f1, f2 := Finding(ProtectedPathChange, Error, path), Finding(SpecialFileChange, Error, path);
    var f4, f5 := Finding(ExecutableFileAdded, Warning, path), Finding(SensitivePathChange, Warning, path);
    FirstInOrder(path, a, f1);
    OneMore(One(a, f1), 1, path, b, f2);
    OneMore(One(a, f1) + One(b, f2), 2, path, l, link);
    OneMore(One(a, f1) + One(b, f2) + One(l, link), 3, path, d, f4);
    OneMore(One(a, f1) + One(b, f2) + One(l, link) + One(d, f4), 4, path, e, f5);
  }

  lemma FirstInOrder(path: Option<Path>, condition: bool, f: Finding)
    requires f.path == path
    ensures OrderedAt(One(condition, f), Rank(f.code) + 1, path)
  {
  }

  lemma PlanInOrder(p: GuardPolicy, baselineCount: nat, changes: seq<Change>)
    ensures Ordered(PlanFindings(p, baselineCount, changes))
    ensures forall f | f in PlanFindings(p, baselineCount, changes) :: f.path == None
  {
    hide MassDeletion, AddBudgetExceeded;
  }

  /** The findings about a true diff come in the order of its paths and of the rules, each once; those
      about the plan as a whole come last. */
  lemma FindingsInOrder(p: GuardPolicy, rules: CaseRules, baselineCount: nat, before: Entries, after: Entries)
    requires CleanKeys(before) && CleanKeys(after)
    ensures Named(Diff(before, after)) && Ordered(FindingsOf(p, rules, baselineCount, Diff(before, after)))
  {
    var changes := Diff(before, after);
    DiffContents(before, after);
    forall c | c in changes ensures c.path != [] {
      assert c.path in before.Keys || c.path in after.Keys;
    }
    hide AllFindings, PlanFindings, Diff;
    GatheredInOrder(p, rules, changes);
    PlanInOrder(p, baselineCount, changes);
    JoinOrdered(AllFindings(p, rules, changes), PlanFindings(p, baselineCount, changes));
  }

  /** The change alone denies the plan. */
  ghost predicate Forbidden(p: GuardPolicy, rules: CaseRules, c: Change) {
    UnderProtected(p, rules, c) || TouchesSpecial(c) || UnsafeLink(p, rules, c)
  }

  /** The change alone needs no approval: it adds a directory or a file that is no program, does not
      look like a secret and touches nothing protected. */
  ghost predicate Harmless(p: GuardPolicy, rules: CaseRules, c: Change) {
    && c.kind == Add && !UnderProtected(p, rules, c) && !TouchesSpecial(c) && !BringsLink(c)
    && !AddsProgram(p, rules, c) && !LooksSecret(p, rules, c)
  }

  lemma ErrorsInOne(p: GuardPolicy, rules: CaseRules, c: Change)
    requires c.path != []
    ensures (exists f :: FoundIn(p, rules, c, f) && f.severity == Error) <==> Forbidden(p, rules, c)
  {
    hide UnderProtected, TouchesSpecial, LooksSecret, AddsProgram, UnsafeLink, BringsLink;
    ReasonsFound(p, rules, c);
    LinkFound(p, rules, c);
    forall f | FoundIn(p, rules, c, f) && f.severity == Error ensures Forbidden(p, rules, c) {
    }
  }

  lemma QuietInOne(p: GuardPolicy, rules: CaseRules, c: Change)
    requires c.path != [] && c.kind == Add
    ensures (exists f :: FoundIn(p, rules, c, f)) <==> !Harmless(p, rules, c)
  {
    hide UnderProtected, TouchesSpecial, LooksSecret, AddsProgram, UnsafeLink, BringsLink;
    ReasonsFound(p, rules, c);
    LinkFound(p, rules, c);
    forall f | FoundIn(p, rules, c, f) ensures !Harmless(p, rules, c) {
    }
  }

  lemma ReasonsFound(p: GuardPolicy, rules: CaseRules, c: Change)
    requires c.path != []
    ensures UnderProtected(p, rules, c) || TouchesSpecial(c) ==>
      exists f :: FoundIn(p, rules, c, f) && f.severity == Error
    ensures AddsProgram(p, rules, c) || LooksSecret(p, rules, c) ==> exists f :: FoundIn(p, rules, c, f)
  {
    hide UnderProtected, TouchesSpecial, LooksSecret, AddsProgram, UnsafeLink, BringsLink;
    var path := Some(c.path);
    if UnderProtected(p, rules, c) { assert FoundIn(p, rules, c, Finding(ProtectedPathChange, Error, path)); }
    if TouchesSpecial(c) { assert FoundIn(p, rules, c, Finding(SpecialFileChange, Error, path)); }
    if AddsProgram(p, rules, c) { assert FoundIn(p, rules, c, Finding(ExecutableFileAdded, Warning, path)); }
    if LooksSecret(p, rules, c) { assert FoundIn(p, rules, c, Finding(SensitivePathChange, Warning, path)); }
  }

  lemma LinkFound(p: GuardPolicy, rules: CaseRules, c: Change)
    requires c.path != []
    ensures UnsafeLink(p, rules, c) ==> BringsLink(c) && exists f :: FoundIn(p, rules, c, f) && f.severity == Error
    ensures BringsLink(c) ==> exists f :: FoundIn(p, rules, c, f)
    ensures forall f | FoundIn(p, rules, c, f) && f.code.UnsafeSymlinkTarget? :: UnsafeLink(p, rules, c)
  {
    LinksAgree(p, rules, c);
    if BringsLink(c) {
      var r := Reason(c.path, c.after.value.linkTarget, rules.casefold, FoldAll(p.protectedTopLevel, rules.casefold));
      if r.Some? {
        assert FoundIn(p, rules, c, Finding(UnsafeSymlinkTarget(r.value), Error, Some(c.path)));
      } else {
        assert FoundIn(p, rules, c, Finding(SymlinkChange, Warning, Some(c.path)));
      }
    }
  }

  /** A plan is denied if and only if one of its changes is forbidden, it deletes too much, or it has
      too many changes. It is allowed outright if and only if it is not, and each of its changes is
      harmless, and together they keep within the budget for additions. All others need approval. */
  lemma DecisionExactly(p: GuardPolicy, rules: CaseRules, baseline: Entries, staged: Entries, changes: seq<Change>)
    requires Named(changes)
    ensures var v := VerdictOf(p, rules, baseline, staged, changes);
      v.decision == Deny <==>
        || (exists c :: c in changes && Forbidden(p, rules, c))
        || DeletesTooMuch(p, |baseline|, changes) || |changes| > p.maxTotalChanges
    ensures var v := VerdictOf(p, rules, baseline, staged, changes);
      v.decision == Allow <==>
        && (forall c | c in changes :: Harmless(p, rules, c))
        && |changes| <= p.maxTotalChanges && !OverAddBudget(p, changes)
  {
    DenyExactly(p, rules, |baseline|, changes);
    AllowExactly(p, rules, |baseline|, changes);
  }

  lemma DenyExactly(p: GuardPolicy, rules: CaseRules, n: nat, changes: seq<Change>)
    requires Named(changes)
    ensures HasError(FindingsOf(p, rules, n, changes)) <==>
      || (exists c :: c in changes && Forbidden(p, rules, c))
      || DeletesTooMuch(p, n, changes) || |changes| > p.maxTotalChanges
  {
    hide FindingsOf, DeletesTooMuch, Forbidden, FoundIn;
    var fs := FindingsOf(p, rules, n, changes);
    if f :| f in fs && f.severity == Error {
      FindingsExactly(p, rules, n, changes, f);
      forall c | c in changes ensures FoundIn(p, rules, c, f) ==> Forbidden(p, rules, c) { ErrorsInOne(p, rules, c); }
    }
    if c :| c in changes && Forbidden(p, rules, c) {
      ErrorsInOne(p, rules, c);
      var f :| FoundIn(p, rules, c, f) && f.severity == Error;
      FindingsExactly(p, rules, n, changes, f);
    }
    FindingsExactly(p, rules, n, changes, Finding(MassDeletionDenied, Error, None));
    FindingsExactly(p, rules, n, changes, Finding(ChangeBudgetExceeded, Error, None));
  }

  lemma AllowExactly(p: GuardPolicy, rules: CaseRules, n: nat, changes: seq<Change>)
    requires Named(changes)
    ensures FindingsOf(p, rules, n, changes) == [] && AllAdd(changes) <==>
      && (forall c | c in changes :: Harmless(p, rules, c))
      && |changes| <= p.maxTotalChanges && !OverAddBudget(p, changes)
  {
    hide FindingsOf, Harmless, FoundIn, OverAddBudget, DeletesTooMuch;
    var fs := FindingsOf(p, rules, n, changes);
    if AllAdd(changes) {
      if fs != [] {
        FindingsExactly(p, rules, n, changes, fs[0]);
        forall c | c in changes
          ensures FoundIn(p, rules, c, fs[0]) ==> !Harmless(p, rules, c) { QuietInOne(p, rules, c); }
        NoDeletions(p, n, changes);
      } else {
        forall c | c in changes ensures Harmless(p, rules, c) {
          QuietInOne(p, rules, c);
          forall f ensures !FoundIn(p, rules, c, f) { FindingsExactly(p, rules, n, changes, f); }
        }
        FindingsExactly(p, rules, n, changes, Finding(ChangeBudgetExceeded, Error, None));
        FindingsExactly(p, rules, n, changes, Finding(AutomaticAddBudgetExceeded, Warning, None));
      }
    } else {
      var c :| c in changes && c.kind != Add;
      assert !Harmless(p, rules, c) by { HarmlessAdds(p, rules, c); }
    }
  }

  lemma HarmlessAdds(p: GuardPolicy, rules: CaseRules, c: Change)
    ensures Harmless(p, rules, c) ==> c.kind == Add
  {
  }

  lemma NoDeletions(p: GuardPolicy, n: nat, changes: seq<Change>)
    requires AllAdd(changes)
    ensures !DeletesTooMuch(p, n, changes)
  {
    assert Deletions(changes) == {};
  }

  // ----- the summary of a true diff

  function AddedPaths(before: Entries, after: Entries): set<Path> {
    after.Keys - before.Keys
  }

  /** Paths whose entry is of another kind afterwards. */
  function RetypedPaths(before: Entries, after: Entries): set<Path> {
    set p | p in before && p in after && before[p].kind != after[p].kind
  }

  /** Paths whose entry is of the same kind and differs. */
  function EditedPaths(before: Entries, after: Entries): set<Path> {
    set p | p in before && p in after && before[p].kind == after[p].kind && before[p] != after[p]
  }

  /** The summary of a true diff counts paths and bytes by what became of them. */
  lemma SummaryExactly(before: Entries, after: Entries)
    requires CleanKeys(before) && CleanKeys(after) && EntriesOk(before) && EntriesOk(after)
    ensures var s := SummaryOf(before, after, Diff(before, after));
      && s.added == |AddedPaths(before, after)| && s.deleted == |AddedPaths(after, before)|
      && s.modified == |EditedPaths(before, after)| && s.typeChanged == |RetypedPaths(before, after)|
      && s.totalChanges == s.added + s.modified + s.deleted + s.typeChanged
      && s.baselineEntries == |before| && s.stagedEntries == |after|
    ensures var s := SummaryOf(before, after, Diff(before, after));
      && s.addedBytes == Sum(AddedPaths(before, after), SizeAt(after))
      && s.replacementBytes == Sum(EditedPaths(before, after) + RetypedPaths(before, after), SizeAt(after))
      && s.removedBytes == Sum(AddedPaths(after, before) + RetypedPaths(before, after), SizeAt(before))
  {
    hide SummaryOf, AddedPaths, RetypedPaths, EditedPaths;
    KindsCounted(before, after);
    BytesCounted(before, after);
  }

  lemma KindsCounted(before: Entries, after: Entries)
    requires CleanKeys(before) && CleanKeys(after) && EntriesOk(before) && EntriesOk(after)
    ensures var s := SummaryOf(before, after, Diff(before, after));
      && s.added == |AddedPaths(before, after)| && s.deleted == |AddedPaths(after, before)|
      && s.modified == |EditedPaths(before, after)| && s.typeChanged == |RetypedPaths(before, after)|
      && s.totalChanges == s.added + s.modified + s.deleted + s.typeChanged
      && s.baselineEntries == |before| && s.stagedEntries == |after|
  {
    hide Contribution, OfKind, CleanKeys, EntriesOk, Diff;
    KindsPartition(Diff(before, after));
    forall p { KindAt(before, after, p); }
    KindCounts(before, after, Add, AddedPaths(before, after));
    KindCounts(before, after, Delete, AddedPaths(after, before));
    KindCounts(before, after, Modify, EditedPaths(before, after));
    KindCounts(before, after, TypeChange, RetypedPaths(before, after));
  }

  lemma BytesCounted(before: Entries, after: Entries)
    requires CleanKeys(before) && CleanKeys(after) && EntriesOk(before) && EntriesOk(after)
    ensures var s := SummaryOf(before, after, Diff(before, after));
      && s.addedBytes == Sum(AddedPaths(before, after), SizeAt(after))
      && s.replacementBytes == Sum(EditedPaths(before, after) + RetypedPaths(before, after), SizeAt(after))
      && s.removedBytes == Sum(AddedPaths(after, before) + RetypedPaths(before, after), SizeAt(before))
  {
    hide Contribution, AddedBytes, ReplacementBytes, RemovedBytes, CleanKeys, EntriesOk, Diff, SizeAt;
    forall p { BytesAt(before, after, p); }
    BytesOver(before, after, AddedBytes(), AddedPaths(before, after), SizeAt(after));
    BytesOver(before, after, ReplacementBytes(), EditedPaths(before, after) + RetypedPaths(before, after),
              SizeAt(after));
    BytesOver(before, after, RemovedBytes(), AddedPaths(after, before) + RetypedPaths(before, after), SizeAt(before));
  }

  lemma KindAt(before: Entries, after: Entries, p: Path)
    requires EntriesOk(before) && EntriesOk(after)
    ensures Contribution(before, after, OfKind(Add))(p) == if p in AddedPaths(before, after) then 1 else 0
    ensures Contribution(before, after, OfKind(Delete))(p) == if p in AddedPaths(after, before) then 1 else 0
    ensures Contribution(before, after, OfKind(Modify))(p) == if p in EditedPaths(before, after) then 1 else 0
    ensures Contribution(before, after, OfKind(TypeChange))(p) == if p in RetypedPaths(before, after) then 1 else 0
  {
    ChangedIffDifferent(before, after, p);
  }

  lemma BytesAt(before: Entries, after: Entries, p: Path)
    requires EntriesOk(before) && EntriesOk(after)
    ensures Contribution(before, after, AddedBytes())(p) ==
      if p in AddedPaths(before, after) then SizeAt(after)(p) else 0
    ensures Contribution(before, after, ReplacementBytes())(p) ==
      if p in EditedPaths(before, after) + RetypedPaths(before, after) then SizeAt(after)(p) else 0
    ensures Contribution(before, after, RemovedBytes())(p) ==
      if p in AddedPaths(after, before) + RetypedPaths(before, after) then SizeAt(before)(p) else 0
  {
    ChangedIffDifferent(before, after, p);
  }

  lemma KindCounts(before: Entries, after: Entries, kind: ChangeKind, paths: set<Path>)
    requires CleanKeys(before) && CleanKeys(after) && paths <= before.Keys + after.Keys
    requires forall p | p in before.Keys + after.Keys ::
      Contribution(before, after, OfKind(kind))(p) == if p in paths then 1 else 0
    ensures Count(Diff(before, after), kind) == |paths|
  {
    var f := Contribution(before, after, OfKind(kind));
    DiffTotal(before, after, OfKind(kind));
    CountIsSum(before.Keys + after.Keys, f);
    assert (set p | p in before.Keys + after.Keys && f(p) == 1) == paths;
  }

  lemma BytesOver(before: Entries, after: Entries, f: Change -> int, paths: set<Path>, size: Path -> int)
    requires CleanKeys(before) && CleanKeys(after) && paths <= before.Keys + after.Keys
    requires forall p | p in before.Keys + after.Keys ::
      Contribution(before, after, f)(p) == if p in paths then size(p) else 0
    ensures Total(Diff(before, after), f) == Sum(paths, size)
  {
    var keys, g := before.Keys + after.Keys, Contribution(before, after, f);
    DiffTotal(before, after, f);
    SumUnion(paths, keys - paths, g);
    assert paths + (keys - paths) == keys;
    SumZero(keys - paths, g);
    SumSame(paths, g, size);
  }
}

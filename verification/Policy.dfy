/** The result policy: decision, findings and summary of a diff. */
module Policy {
  import opened Paths
  import opened Manifests
  import opened Diffs
  import opened Symlinks

  datatype Decision = Allow | RequireApproval | Deny

  datatype Severity = Error | Warning

  datatype Code =
    | ProtectedPathChange | SpecialFileChange | UnsafeSymlinkTarget(reason: UnsafeReason) | SymlinkChange
    | ExecutableFileAdded | SensitivePathChange | MassDeletionDenied | ChangeBudgetExceeded | AutomaticAddBudgetExceeded

  datatype Finding = Finding(code: Code, severity: Severity, path: Option<Path>)

  datatype GuardPolicy = GuardPolicy(
    autoAddMaxEntries: int, autoAddMaxBytes: int, maxTotalChanges: int, hardDeleteEntries: int,
    hardDeleteFraction: real, massDeleteMinBaselineEntries: int, allowMassDelete: bool,
    protectedTopLevel: seq<string>, sensitiveNames: seq<string>, executableSuffixes: seq<string>)

  /** Case mapping is the platform's; nothing below depends on what it does. */
  datatype CaseRules = CaseRules(lower: string -> string, casefold: string -> string)

  datatype Summary = Summary(totalChanges: nat, added: nat, modified: nat, deleted: nat, typeChanged: nat,
                             addedBytes: int, replacementBytes: int, removedBytes: int,
                             baselineEntries: nat, stagedEntries: nat)

  // ----- one change

  predicate ExecutableMode(mode: int) {
    (mode / 64) % 2 == 1 || (mode / 8) % 2 == 1 || mode % 2 == 1
  }

  function LastDot(name: string): int {
    if name == "" then -1
    else if name[|name| - 1] == '.' then |name| - 1
    else LastDot(name[..|name| - 1])
  }

  /** `PurePath.suffix` of a final component. */
  function Suffix(name: string): string {
    var i := LastDot(name);
    if 0 < i < |name| - 1 then name[i..] else ""
  }

  predicate EndsWith(s: string, tail: string) {
    |tail| <= |s| && s[|s| - |tail|..] == tail
  }

  predicate Sensitive(p: GuardPolicy, rules: CaseRules, path: Path) {
    path != [] &&
    var name := rules.lower(path[|path| - 1]);
    || (exists s | s in p.sensitiveNames :: rules.lower(s) == name)
    || ".env." <= name
    || EndsWith(name, ".pem") || EndsWith(name, ".key") || EndsWith(name, ".p12") || EndsWith(name, ".pfx")
  }

  predicate Protected(p: GuardPolicy, rules: CaseRules, path: Path) {
    path != [] && exists name | name in p.protectedTopLevel :: rules.casefold(name) == rules.casefold(path[0])
  }

  function FoldAll(names: seq<string>, fold: string -> string): (r: seq<string>)
    ensures |r| == |names| && forall i | 0 <= i < |r| :: r[i] == fold(names[i])
  {
    seq(|names|, i requires 0 <= i < |names| => fold(names[i]))
  }

  predicate IsKind(e: Option<ManifestEntry>, kind: EntryKind) {
    e.Some? && e.value.kind == kind
  }

  predicate AddsExecutable(p: GuardPolicy, rules: CaseRules, c: Change) {
    && c.path != [] && c.kind == Add && IsKind(c.after, FileEntry)
    && (ExecutableMode(c.after.value.mode) || rules.lower(Suffix(c.path[|c.path| - 1])) in p.executableSuffixes)
  }

  function SymlinkFinding(p: GuardPolicy, rules: CaseRules, c: Change): (r: Option<Finding>)
    requires c.path != []
  {
    if IsKind(c.after, SymlinkEntry) && c.kind != Delete then
      match Reason(c.path, c.after.value.linkTarget, rules.casefold, FoldAll(p.protectedTopLevel, rules.casefold))
      case Some(reason) => Some(Finding(UnsafeSymlinkTarget(reason), Error, Some(c.path)))
      case None => Some(Finding(SymlinkChange, Warning, Some(c.path)))
    else None
  }

  function One(condition: bool, f: Finding): seq<Finding> {
    if condition then [f] else []
  }

  /** The entry a change is judged by: the new one, or the old one when there is no new one. */
  function Judged(c: Change): Option<ManifestEntry> {
    if c.after.Some? then c.after else c.before
  }

  /** What the policy finds in one change. */
  function FindingsFor(p: GuardPolicy, rules: CaseRules, c: Change): seq<Finding>
    requires c.path != []
  {
    One(Protected(p, rules, c.path), Finding(ProtectedPathChange, Error, Some(c.path)))
    + One(IsKind(Judged(c), SpecialEntry), Finding(SpecialFileChange, Error, Some(c.path)))
    + (match SymlinkFinding(p, rules, c) case Some(f) => [f] case None => [])
    + One(AddsExecutable(p, rules, c), Finding(ExecutableFileAdded, Warning, Some(c.path)))
    + One(Sensitive(p, rules, c.path), Finding(SensitivePathChange, Warning, Some(c.path)))
  }

  predicate Named(changes: seq<Change>) {
    forall c | c in changes :: c.path != []
  }

  function Gather(changes: seq<Change>, f: Change -> seq<Finding>): seq<Finding> {
    if changes == [] then [] else Gather(changes[..|changes| - 1], f) + f(changes[|changes| - 1])
  }

  function FindingsAt(p: GuardPolicy, rules: CaseRules): Change -> seq<Finding> {
    (c: Change) => if c.path == [] then [] else FindingsFor(p, rules, c)
  }

  function AllFindings(p: GuardPolicy, rules: CaseRules, changes: seq<Change>): seq<Finding> {
    Gather(changes, FindingsAt(p, rules))
  }

  // ----- totals over a list of changes

  function Total(changes: seq<Change>, f: Change -> int): int {
    if changes == [] then 0 else Total(changes[..|changes| - 1], f) + f(changes[|changes| - 1])
  }

  function OfKind(kind: ChangeKind): Change -> int {
    (c: Change) => if c.kind == kind then 1 else 0
  }

  function AddedBytes(): Change -> int {
    (c: Change) => if c.kind == Add && IsKind(c.after, FileEntry) then c.after.value.size else 0
  }

  function ReplacementBytes(): Change -> int {
    (c: Change) => if (c.kind == Modify || c.kind == TypeChange) && IsKind(c.after, FileEntry) then c.after.value.size
      else 0
  }

  function RemovedBytes(): Change -> int {
    (c: Change) => if (c.kind == Delete || c.kind == TypeChange) && IsKind(c.before, FileEntry) then c.before.value.size
      else 0
  }

  lemma {:induction false} TotalNonNegative(changes: seq<Change>, f: Change -> int)
    requires forall c :: f(c) >= 0
    ensures Total(changes, f) >= 0
  {
    if changes != [] { TotalNonNegative(changes[..|changes| - 1], f); }
  }

  function Count(changes: seq<Change>, kind: ChangeKind): (n: nat)
  {
    TotalNonNegative(changes, OfKind(kind));
    Total(changes, OfKind(kind))
  }

  function SummaryOf(baseline: Entries, staged: Entries, changes: seq<Change>): Summary {
    Summary(|changes|, Count(changes, Add), Count(changes, Modify), Count(changes, Delete), Count(changes, TypeChange),
            Total(changes, AddedBytes()), Total(changes, ReplacementBytes()), Total(changes, RemovedBytes()),
            |baseline|, |staged|)
  }

  // ----- the whole list

  predicate MassDeletion(p: GuardPolicy, baselineCount: nat, deleteCount: nat) {
    && baselineCount >= p.massDeleteMinBaselineEntries
    && deleteCount > 0
    && (deleteCount >= p.hardDeleteEntries
      || (baselineCount > 0 && deleteCount as real / baselineCount as real >= p.hardDeleteFraction))
  }

  predicate AddOnly(changes: seq<Change>) {
    changes != [] && forall c | c in changes :: c.kind == Add
  }

  predicate AddBudgetExceeded(p: GuardPolicy, changes: seq<Change>) {
    AddOnly(changes) && (|changes| > p.autoAddMaxEntries || Total(changes, AddedBytes()) > p.autoAddMaxBytes)
  }

  function PlanFindings(p: GuardPolicy, baselineCount: nat, changes: seq<Change>): seq<Finding> {
    One(MassDeletion(p, baselineCount, Count(changes, Delete)) && !p.allowMassDelete,
        Finding(MassDeletionDenied, Error, None))
    + One(|changes| > p.maxTotalChanges, Finding(ChangeBudgetExceeded, Error, None))
    + One(AddBudgetExceeded(p, changes), Finding(AutomaticAddBudgetExceeded, Warning, None))
  }

  function FindingsOf(p: GuardPolicy, rules: CaseRules, baselineCount: nat, changes: seq<Change>): seq<Finding> {
    AllFindings(p, rules, changes) + PlanFindings(p, baselineCount, changes)
  }

  predicate HasError(findings: seq<Finding>) {
    exists f | f in findings :: f.severity == Error
  }

  predicate AllAdd(changes: seq<Change>) {
    forall c | c in changes :: c.kind == Add
  }

  /** The decision read off the findings and the kinds of change. */
  function DecisionFor(findings: seq<Finding>, changes: seq<Change>): Decision {
    if HasError(findings) then Deny
    else if findings != [] || !AllAdd(changes) then RequireApproval
    else Allow
  }

  // ----- evaluate

  /** The part of the evaluation loop that looks for reasons in one change. */
  method Inspect(p: GuardPolicy, rules: CaseRules, change: Change)
    returns (findings: seq<Finding>, destructive: bool, hardDeny: bool)
    requires change.path != []
    ensures findings == FindingsFor(p, rules, change)
    ensures hardDeny <==> HasError(findings)
    ensures !hardDeny ==> (destructive <==> findings != [] || change.kind != Add)
  {
    hide Sensitive;
    findings, destructive, hardDeny := [], false, false;
    var path := Some(change.path);
    if Protected(p, rules, change.path) {
      hardDeny := true;
      findings := findings + [Finding(ProtectedPathChange, Error, path)];
    }
    if change.kind == Modify || change.kind == Delete || change.kind == TypeChange {
      destructive := true;
    }
    var entry := if change.after.Some? then change.after else change.before;
    if entry.Some? && entry.value.kind == SpecialEntry {
      hardDeny := true;
      findings := findings + [Finding(SpecialFileChange, Error, path)];
    }
    assert hardDeny <==> HasError(findings);
    if change.after.Some? && change.after.value.kind == SymlinkEntry && change.kind != Delete {
      destructive := true;
      var reason := UnsafeSymlinkReason(change.path, change.after.value.linkTarget, rules.casefold,
                                        FoldAll(p.protectedTopLevel, rules.casefold));
      if reason.Some? {
        hardDeny := true;
        findings := findings + [Finding(UnsafeSymlinkTarget(reason.value), Error, path)];
      } else {
        findings := findings + [Finding(SymlinkChange, Warning, path)];
      }
    }
    assert hardDeny <==> HasError(findings);
    if AddsExecutable(p, rules, change) {
      destructive := true;
      findings := findings + [Finding(ExecutableFileAdded, Warning, path)];
    }
    if Sensitive(p, rules, change.path) {
      destructive := true;
      findings := findings + [Finding(SensitivePathChange, Warning, path)];
    }
  }

  lemma HasErrorConcat(a: seq<Finding>, b: seq<Finding>)
    ensures HasError(a + b) <==> HasError(a) || HasError(b)
  {
    if HasError(a) { var f :| f in a && f.severity == Error; assert f in a + b; }
    if HasError(b) { var f :| f in b && f.severity == Error; assert f in a + b; }
  }

  lemma NextTotal(changes: seq<Change>, k: nat, f: Change -> int)
    requires k < |changes|
    ensures Total(changes[..k + 1], f) == Total(changes[..k], f) + f(changes[k])
  {
    assert changes[..k + 1][..k] == changes[..k];
  }

  /** The loop over the changes: findings in order, and the two flags agree with them. */
  method InspectAll(p: GuardPolicy, rules: CaseRules, changes: seq<Change>)
    returns (findings: seq<Finding>, destructive: bool, hardDeny: bool)
    requires Named(changes)
    ensures findings == AllFindings(p, rules, changes)
    ensures hardDeny <==> HasError(findings)
    ensures !hardDeny ==> (destructive <==> findings != [] || !AllAdd(changes))
  {
    findings, destructive, hardDeny := [], false, false;
    for k := 0 to |changes|
      invariant findings == AllFindings(p, rules, changes[..k])
      invariant hardDeny <==> HasError(findings)
      invariant !hardDeny ==> (destructive <==> findings != [] || !AllAdd(changes[..k]))
    {
      assert changes[k] in changes;
      var more, d, h := Inspect(p, rules, changes[k]);
      assert more == FindingsAt(p, rules)(changes[k]);
      assert changes[..k + 1][..k] == changes[..k];
      HasErrorConcat(findings, more);
      assert AllAdd(changes[..k + 1]) <==> AllAdd(changes[..k]) && changes[k].kind == Add;
      findings := findings + more;
      destructive := destructive || d;
      hardDeny := hardDeny || h;
    }
    assert changes[..|changes|] == changes;
  }

  ghost predicate Counted(counts: map<ChangeKind, nat>, changes: seq<Change>) {
    && counts.Keys == {Add, Modify, Delete, TypeChange}
    && forall kind | kind in counts :: counts[kind] == Count(changes, kind)
  }

  lemma CountedNext(counts: map<ChangeKind, nat>, changes: seq<Change>, k: nat)
    requires k < |changes| && Counted(counts, changes[..k])
    ensures var kind := changes[k].kind; kind in counts && Counted(counts[kind := counts[kind] + 1], changes[..k + 1])
  {
    var kind := changes[k].kind;
    forall other | other in counts
      ensures counts[kind := counts[kind] + 1][other] == Count(changes[..k + 1], other)
    {
      NextTotal(changes, k, OfKind(other));
    }
  }

  /** Counts and byte totals of the same loop. */
  method Tally(changes: seq<Change>)
    returns (counts: map<ChangeKind, nat>, addedBytes: int, replacementBytes: int, removedBytes: int)
    ensures Counted(counts, changes)
    ensures addedBytes == Total(changes, AddedBytes())
    ensures replacementBytes == Total(changes, ReplacementBytes())
    ensures removedBytes == Total(changes, RemovedBytes())
  {
    counts := map[Add := 0, Modify := 0, Delete := 0, TypeChange := 0];
    addedBytes, replacementBytes, removedBytes := 0, 0, 0;
    for k := 0 to |changes|
      invariant Counted(counts, changes[..k])
      invariant addedBytes == Total(changes[..k], AddedBytes())
      invariant replacementBytes == Total(changes[..k], ReplacementBytes())
      invariant removedBytes == Total(changes[..k], RemovedBytes())
    {
      var change := changes[k];
      CountedNext(counts, changes, k);
      NextTotal(changes, k, AddedBytes());
      NextTotal(changes, k, ReplacementBytes());
      NextTotal(changes, k, RemovedBytes());
      counts := counts[change.kind := counts[change.kind] + 1];
      if change.kind == Add && IsKind(change.after, FileEntry) {
        addedBytes := addedBytes + change.after.value.size;
      }
      if (change.kind == Modify || change.kind == TypeChange) && IsKind(change.after, FileEntry) {
        replacementBytes := replacementBytes + change.after.value.size;
      }
      if (change.kind == Delete || change.kind == TypeChange) && IsKind(change.before, FileEntry) {
        removedBytes := removedBytes + change.before.value.size;
      }
    }
    assert changes[..|changes|] == changes;
  }

  datatype Verdict = Verdict(decision: Decision, findings: seq<Finding>, summary: Summary)

  function VerdictOf(p: GuardPolicy, rules: CaseRules, baseline: Entries, staged: Entries,
                     changes: seq<Change>): Verdict {
    var findings := FindingsOf(p, rules, |baseline|, changes);
    Verdict(DecisionFor(findings, changes), findings, SummaryOf(baseline, staged, changes))
  }

  /** The checks on the whole list, after the loop. */
  method InspectPlan(p: GuardPolicy, baselineCount: nat, changes: seq<Change>, deleteCount: nat, addedBytes: int)
    returns (findings: seq<Finding>, destructive: bool, hardDeny: bool)
    requires deleteCount == Count(changes, Delete) && addedBytes == Total(changes, AddedBytes())
    ensures findings == PlanFindings(p, baselineCount, changes)
    ensures hardDeny <==> HasError(findings)
    ensures !hardDeny ==> (destructive <==> findings != [])
  {
    findings, destructive, hardDeny := [], false, false;
    if MassDeletion(p, baselineCount, deleteCount) && !p.allowMassDelete {
      hardDeny := true;
      findings := findings + [Finding(MassDeletionDenied, Error, None)];
    }
    if |changes| > p.maxTotalChanges {
      hardDeny := true;
      findings := findings + [Finding(ChangeBudgetExceeded, Error, None)];
    }
    assert hardDeny <==> HasError(findings);
    var addOnly := changes != [] && forall c | c in changes :: c.kind == Add;
    if addOnly && (|changes| > p.autoAddMaxEntries || addedBytes > p.autoAddMaxBytes) {
      destructive := true;
      findings := findings + [Finding(AutomaticAddBudgetExceeded, Warning, None)];
    }
  }

  /** GuardPolicy.evaluate: the decision set from the flags is the one the findings call for. */
  method Evaluate(p: GuardPolicy, rules: CaseRules, baseline: Entries, staged: Entries, changes: seq<Change>)
    returns (v: Verdict)
    requires Named(changes)
    ensures v == VerdictOf(p, rules, baseline, staged, changes)
    ensures v.decision == Deny <==> HasError(v.findings)
    ensures v.decision == Allow <==> v.findings == [] && AllAdd(changes)
  {
    var findings, destructive, hardDeny := InspectAll(p, rules, changes);
    var counts, addedBytes, replacementBytes, removedBytes := Tally(changes);
    var more, d, h := InspectPlan(p, |baseline|, changes, counts[Delete], addedBytes);
    HasErrorConcat(findings, more);
    findings, destructive, hardDeny := findings + more, destructive || d, hardDeny || h;
    var decision := if hardDeny then Deny else if destructive then RequireApproval else Allow;
    v := Verdict(decision, findings,
                 Summary(|changes|, counts[Add], counts[Modify], counts[Delete], counts[TypeChange],
                         addedBytes, replacementBytes, removedBytes, |baseline|, |staged|));
  }
}

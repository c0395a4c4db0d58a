/** Two commits that leave the saved records at odds with each other, for every configuration and
    policy and every workspace a transaction can begin in. The agent does nothing, so the plan
    changes nothing; the calls are numbered from the construction of the broker. */
module CutOffs {
  import opened Paths
  import opened Trees
  import opened Manifests
  import opened Scans
  import opened Diffs
  import opened UndoCalls
  import opened Records
  import opened Layout
  import opened Journal
  import opened Staging
  import opened Policy
  import opened Engine
  import opened Texts
  import opened Protocol
  import opened Runs
  import opened Broker

  /** Without changes there is nothing to find, nothing to deny and nothing to do. */
  lemma EmptyPlan(policy: GuardPolicy, rules: CaseRules, t: Tree, facts: PlanFacts)
    requires policy.maxTotalChanges >= 0 && PlanFits(facts, policy, rules, t, t)
    ensures facts.changes == [] && Roots(facts.changes) == [] && facts.verdict.decision == Allow
  {
    TreeDiffEmpty(t);
    assert ByDepth([]) == [] && Select([]) == [];
    assert AllFindings(policy, rules, []) == [] && Count([], Delete) == 0;
  }

  lemma TreeDiffEmpty(t: Tree)
    requires CleanKeys(EntriesOf(t)) && EntriesOk(EntriesOf(t))
    ensures TreeDiff(t, t) == []
  {
    DiffEmptyIff(EntriesOf(t), EntriesOf(t));
  }

  /** What begin has saved, in a workspace nobody else touches. */
  ghost predicate BegunOn(c: Config, s: State, tx: Transaction, worktree: Tree, root: Root, w: Tree) {
    && tx.id in s.transactions && s.transactions[tx.id] == tx && tx.state == Open && tx.root == root
    && Genuine(tx.baseline)
    && tx.baselineDigest == tx.baseline.digest
    && tx.id in s.worktrees && s.worktrees[tx.id] == worktree && IsTree(worktree)
    && root in s.workspaces && s.workspaces[root] == w
    && HasDigest(Visible(w, c.excluded), tx.baselineDigest) && Visible(worktree, c.excluded) == Visible(w, c.excluded)
  }

  lemma BeginLeads(c: Config, s: State, e: Event, s': State, root: Root, w: Tree)
    requires Step(c, s, e, s') && e.Began? && e.tx.root == root && root in s.workspaces && s.workspaces[root] == w
    requires HasDigest(Visible(w, c.excluded), e.tx.baselineDigest)
    ensures BegunOn(c, s', e.tx, e.worktree, root, w)
  {
    DigestDeterminesTree(Visible(w, c.excluded), Visible(e.worktree, c.excluded), e.tx.baselineDigest);
  }

  lemma MayPlan(c: Config, s: State, tx: Transaction, worktree: Tree, root: Root, w: Tree)
    requires BegunOn(c, s, tx, worktree, root, w) && !ScanRejects(w, c.excluded, {}, c.maxEntries, c.maxBytes)
    ensures CanPlan(c, s, tx.id, 60) && !ScanRejects(worktree, c.excluded, {}, c.maxEntries, c.maxBytes)
  {
    if ScanRejects(worktree, c.excluded, {}, c.maxEntries, c.maxBytes) {
      ScanSeesVisible(worktree, w, c.excluded, c.maxEntries, c.maxBytes);
    }
  }

  lemma PlanLeads(c: Config, s: State, p: CommitPlan, s': State, tx: Transaction, worktree: Tree, root: Root, w: Tree)
    requires BegunOn(c, s, tx, worktree, root, w) && Step(c, s, PlanMade(p, true), s') && p.core.txId == tx.id
    requires !ScanRejects(w, c.excluded, {}, c.maxEntries, c.maxBytes) && s.policy.maxTotalChanges >= 0
    requires p.core.createdAt == 0 && p.core.expiresAt == 60
    ensures ChecksPass(c, s', p.core.planId, None, 0, 0) && PlanUnobstructed(c, s', p.core.planId, worktree)
    ensures Roots(s'.plans[p.core.planId].core.facts.changes) == []
  {
    hide HasDigest, ScanRejects, Sound, Genuine, TreeDiff, VerdictOf;
    MayPlan(c, s, tx, worktree, root, w);
    var facts := p.core.facts;
    assert PlanFits(facts, s.policy, c.rules, Visible(w, c.excluded), Visible(worktree, c.excluded));
    EmptyPlan(s.policy, c.rules, Visible(w, c.excluded), facts);
    assert CanStage(Roots(facts.changes), worktree);
  }

  /** A broker that has begun one transaction and done nothing else. */
  ghost predicate BegunGuard(guard: WorkspaceGuard, tx: Transaction, worktree: Tree, root: Root, w: Tree)
    reads guard
  {
    && guard.Valid() && |guard.events| == 1 && !guard.events[0].CommitTried?
    && BegunOn(guard.c, guard.store, tx, worktree, root, w)
  }

  method BeginNothing(c: Config, policy: GuardPolicy, faults: nat -> bool, root: Root, w: Tree, task: string)
    returns (guard: WorkspaceGuard, tx: Transaction)
    requires IsTree(w) && CanBegin(c, task, w) && NoFaultBefore(faults, 16)
    ensures fresh(guard) && guard.c == c && guard.faults == faults && guard.clock == (n => 0) && guard.calls == 9
    ensures tx.id in guard.store.worktrees && BegunGuard(guard, tx, guard.store.worktrees[tx.id], root, w)
    ensures guard.store.policy == policy
  {
    guard := new WorkspaceGuard(c, faults, n => 0, policy, map[root := w]);
    ghost var s0 := guard.store;
    var begun, e := guard.Begin(root, task, n => w, w);
    tx := begun.value;
    assert StepAt(c, guard.states, guard.events, 0);
    BeginLeads(c, s0, e, guard.store, root, w);
  }

  /** A broker whose second call has planned that transaction. */
  ghost predicate PlannedGuard(guard: WorkspaceGuard, planId: Id, view: Tree)
    reads guard
  {
    && guard.Valid() && |guard.events| == 2 && IsTree(view)
    && ChecksPass(guard.c, guard.store, planId, None, guard.clock(guard.ticks), guard.clock(guard.ticks + 1))
    && PlanUnobstructed(guard.c, guard.store, planId, view)
    && Roots(guard.store.plans[planId].core.facts.changes) == []
  }

  method PlanNothing(guard: WorkspaceGuard, tx: Transaction, root: Root, ghost w: Tree) returns (planId: Id, view: Tree)
    requires tx.id in guard.store.worktrees && BegunGuard(guard, tx, guard.store.worktrees[tx.id], root, w)
    requires guard.store.policy.maxTotalChanges >= 0
      && !ScanRejects(w, guard.c.excluded, {}, guard.c.maxEntries, guard.c.maxBytes)
    requires NoFaultBefore(guard.faults, 16) && guard.calls == 9 && guard.clock == (n => 0)
    modifies guard
    ensures guard.calls == 16 && PlannedGuard(guard, planId, view) && Books(guard.store)
  {
    view := guard.store.worktrees[tx.id];
    ghost var s1 := guard.store;
    MayPlan(guard.c, s1, tx, view, root, w);
    var p := MakePlan60(guard, tx.id);
    planId := p.core.planId;
    PlanLeads(guard.c, s1, p, guard.store, tx, view, root, w);
  }

  method MakePlan60(guard: WorkspaceGuard, txId: Id) returns (p: CommitPlan)
    requires guard.Valid() && |guard.events| == 1 && !guard.events[0].CommitTried?
      && CanPlan(guard.c, guard.store, txId, 60)
    requires NoFaultBefore(guard.faults, 16) && guard.calls == 9 && guard.clock == (n => 0)
    modifies guard
    ensures guard.Valid() && guard.calls == 16 && |guard.events| == 2 && Books(guard.store)
    ensures Step(guard.c, old(guard.store), PlanMade(p, true), guard.store)
    ensures p.core.txId == txId && p.core.createdAt == 0 && p.core.expiresAt == 60
  {
    var plan, e := guard.Plan(txId, 60);
    p := plan.value;
    assert StepAt(guard.c, guard.states, guard.events, 1);
    BooksOfTwo(guard);
  }

  lemma BooksOfTwo(guard: WorkspaceGuard)
    requires guard.Valid() && |guard.events| == 2 && !guard.events[0].CommitTried? && !guard.events[1].CommitTried?
    ensures Books(guard.store)
  {
    hide Sound, Effect, Grounds, Real;
    guard.BooksDecided();
    assert Books(guard.states[2]);
  }

  /** Exactly these calls fail. */
  ghost predicate FailAt(faults: nat -> bool, calls: set<nat>) {
    forall n: nat :: faults(n) <==> n in calls
  }

  ghost predicate NoFaultBefore(faults: nat -> bool, end: nat) {
    forall n: nat | n < end :: !faults(n)
  }

  /** Call 28 is the first after the last journal entry. */
  lemma FirstAfterSeal(faults: nat -> bool, m: Marks, end: CommitEnd)
    requires CommitTimes(faults, m, end) && FailAt(faults, {28})
    ensures end == Committed && CutOff(faults, m, end) && !PlanSavedBy(faults, m, end, true)
  {
    assert faults(28);
  }

  /** Calls 26 and 27 save the record as committed; call 28 is the handler's first. */
  lemma SealAndNote(faults: nat -> bool, m: Marks, end: CommitEnd)
    requires CommitTimes(faults, m, end) && FailAt(faults, {27, 28})
    ensures Failed(end) && CutOff(faults, m, end)
  {
    assert faults(27) && faults(28);
  }

  /** The third call of a broker commits the plan of the untouched worktree. */
  ghost predicate NothingCommitted(guard: WorkspaceGuard, faults: nat -> bool, e: Event)
    reads guard
  {
    && guard.Valid() && guard.faults == faults && |guard.events| == 3 && |guard.marks| == 3 && e == guard.events[2]
    && e.CommitTried? && CommitTimes(faults, guard.marks[2], e.end)
    && (BooksKept(e) <==> !CutOff(faults, guard.marks[2], e.end))
    && PlanSavedBy(faults, guard.marks[2], e.end, e.planSaved)
  }

  ghost predicate CommitTimes(faults: nat -> bool, m: Marks, end: CommitEnd) {
    && Timed(m, end, 17) && (end == Committed || FaultIn(faults, 17, m.handler))
    && (end == Committed ==> SealHolds(faults, m.sealed.value))
  }

  /** A worktree that nobody touches. */
  function Left(view: Tree): nat -> Tree {
    n => view
  }

  lemma LeftIsCalm(view: Tree)
    requires IsTree(view)
    ensures AgentReal(Left(view)) && forall start: nat, end: nat :: Calm(Left(view), start, end, view)
  {
  }

  method CommitNothing(guard: WorkspaceGuard, planId: Id, view: Tree) returns (ghost e: Event, ghost m: Marks)
    requires guard.calls == 16 && PlannedGuard(guard, planId, view) && !guard.faults(16)
    modifies guard
    ensures guard.Valid() && guard.events == old(guard.events) + [e]
      && guard.states == old(guard.states) + [guard.store]
    ensures guard.marks == old(guard.marks) + [m] && e.CommitTried?
    ensures Timed(m, e.end, 17) && (e.end == Committed || FaultIn(guard.faults, 17, m.handler))
    ensures e.end == Committed ==> m.sealed.Some? && SealHolds(guard.faults, m.sealed.value)
    ensures (BooksKept(e) <==> !CutOff(guard.faults, m, e.end)) && PlanSavedBy(guard.faults, m, e.end, e.planSaved)
  {
    var done;
    LeftIsCalm(view);
    done, e, m := guard.Commit(planId, None, Left(view), view);
  }

  /** Begin, plan and commit. */
  method BeginPlanCommit(c: Config, policy: GuardPolicy, faults: nat -> bool, root: Root, w: Tree, task: string)
    returns (guard: WorkspaceGuard, ghost e: Event)
    requires policy.maxTotalChanges >= 0 && IsTree(w) && CanBegin(c, task, w) && NoFaultBefore(faults, 17)
    ensures fresh(guard) && NothingCommitted(guard, faults, e) && Books(guard.states[2])
  {
    hide Marked, OnTime, NothingCommitted, Books;
    var tx;
    guard, tx := BeginNothing(c, policy, faults, root, w, task);
    var planId, view := PlanNothing(guard, tx, root, w);
    ghost var m;
    ghost var events, states, marks := guard.events, guard.states, guard.marks;
    ghost var before := guard.store;
    e, m := CommitNothing(guard, planId, view);
    NothingRecorded(guard, events, states, marks, before, e, m);
  }

  lemma NothingRecorded(guard: WorkspaceGuard, events: seq<Event>, states: seq<State>, marks: seq<Marks>, before: State,
                        e: Event, m: Marks)
    requires guard.Valid() && guard.events == events + [e] && guard.states == states + [guard.store]
      && guard.marks == marks + [m]
    requires |events| == 2 && |states| == 3 && states[2] == before && Books(before) && e.CommitTried?
    requires CommitTimes(guard.faults, m, e.end) && (BooksKept(e) <==> !CutOff(guard.faults, m, e.end))
    requires PlanSavedBy(guard.faults, m, e.end, e.planSaved)
    ensures NothingCommitted(guard, guard.faults, e) && Books(guard.states[2])
  {
    assert guard.states[2] == before && |guard.marks| == 3 && guard.marks[2] == m;
  }

  /** The books were in order before this commit, and are no longer. */
  lemma Disorder(guard: WorkspaceGuard, e: Event)
    requires NothingCommitted(guard, guard.faults, e) && Books(guard.states[2])
      && CutOff(guard.faults, guard.marks[2], e.end)
    ensures !Books(guard.store)
  {
    guard.BooksAfterCommit();
  }

  /** A commit that succeeds as far as the workspace and its record are concerned; then call 28
      fails, and the record says committed while its plan stays pending. */
  method PlanLeftPending(c: Config, policy: GuardPolicy, root: Root, w: Tree, task: string)
    returns (guard: WorkspaceGuard, ghost e: Event)
    requires policy.maxTotalChanges >= 0 && IsTree(w) && CanBegin(c, task, w)
    ensures fresh(guard) && NothingCommitted(guard, n => n in {28}, e) && e.end == Committed
    ensures Books(guard.states[2]) && !Books(guard.store) && LeftPending(guard.store, e.planId, guard.store.nextId - 1)
  {
    hide Run, Marked, OnTime, Books;
    guard, e := BeginPlanCommit(c, policy, n => n in {28}, root, w, task);
    FirstAfterSeal(guard.faults, guard.marks[2], e.end);
    Disorder(guard, e);
    PendingAfter(guard, e);
  }

  /** The record says committed, and its plan does not. */
  predicate LeftPending(s: State, planId: Id, id: int) {
    && id in s.commits && s.commits[id].status == CommittedStatus && s.commits[id].planId == planId
    && planId in s.plans && s.plans[planId].state == PendingPlan
  }

  lemma PendingAfter(guard: WorkspaceGuard, e: Event)
    requires NothingCommitted(guard, guard.faults, e) && e.end == Committed && !e.planSaved
    ensures LeftPending(guard.store, e.planId, guard.store.nextId - 1)
  {
    assert StepAt(guard.c, guard.states, guard.events, 2);
  }

  /** Such a commit cannot be restored: the call returns without having done anything. */
  method PendingNotRestored(c: Config, policy: GuardPolicy, root: Root, w: Tree, task: string, ghost g: Setting,
                            ghost after: Disk)
    returns (guard: WorkspaceGuard, ghost left: State, done: bool)
    requires policy.maxTotalChanges >= 0 && IsTree(w) && CanBegin(c, task, w)
    ensures fresh(guard) && guard.Valid() && |guard.events| == 4 && guard.events[2].CommitTried?
    ensures guard.events[2].end == Committed && left == guard.states[3]
    ensures LeftPending(left, guard.events[2].planId, left.nextId - 1)
    ensures !done && guard.events[3] == Quiet && guard.store == left
  {
    hide Marked, OnTime, Books, CanBegin;
    ghost var e, refused;
    guard, e := PlanLeftPending(c, policy, root, w, task);
    left := guard.store;
    done, refused := guard.Restore(guard.store.nextId - 1, g, after);
  }

  /** A commit that is undone: call 27 fails after the record was saved as committed, call 28 when
      the handler saves it again, and the record claims a commit that did not happen. */
  method RecordLeftCommitted(c: Config, policy: GuardPolicy, root: Root, w: Tree, task: string)
    returns (guard: WorkspaceGuard, ghost e: Event)
    requires policy.maxTotalChanges >= 0 && IsTree(w) && CanBegin(c, task, w)
    ensures fresh(guard) && NothingCommitted(guard, n => n in {27, 28}, e) && Failed(e.end)
    ensures e.record.Some? && e.record.value.status == CommittedStatus
    ensures Books(guard.states[2]) && !Books(guard.store)
  {
    hide Run, Marked, OnTime, Books;
    guard, e := BeginPlanCommit(c, policy, n => n in {27, 28}, root, w, task);
    SealAndNote(guard.faults, guard.marks[2], e.end);
    Disorder(guard, e);
  }
}

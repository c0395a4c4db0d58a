/** What each call checks before it does anything, field by field of the saved records. */
module Checks {
  import opened Paths
  import opened Texts
  import opened Trees
  import opened Manifests
  import opened Scans
  import opened Baseline
  import opened Records
  import opened Policy
  import opened Engine
  import opened Protocol
  import opened Broker

  /** begin: an acceptable task id, and a workspace that can be scanned, with no special file outside
      the names the copy leaves out, and no entry at or below such a name, at any depth, that a scan
      would record. */
  lemma BeginChecks(c: Config, task: string, w: Tree)
    ensures CanBegin(c, task, w) <==>
      && AcceptText(task, 256).Some? && !ScanRejects(w, c.excluded, {}, c.maxEntries, c.maxBytes)
      && (forall x | x in w && w[x].Special? :: exists k | 0 <= k < |x| :: c.ignored(x[k]))
      && forall x, k | x in w && 0 <= k < |x| && c.ignored(x[k]) :: x[0] in c.excluded
  {
    CopyMisses(w, c.excluded, c.ignored);
  }

  /** plan: a lifetime of one second to an hour, an open or planned transaction, the workspace as it
      was when the transaction began, and both trees within the limits of a scan. */
  lemma PlanChecks(c: Config, s: State, txId: Id, ttl: int)
    ensures CanPlan(c, s, txId, ttl) <==>
      && 1 <= ttl <= 3600 && txId in s.transactions && txId in s.worktrees && s.transactions[txId].root in s.workspaces
      && var tx, w, t := s.transactions[txId], s.workspaces[s.transactions[txId].root], s.worktrees[txId];
      && tx.state != CommittedState && tx.state != Discarded && HasDigest(Visible(w, c.excluded), tx.baselineDigest)
      && !ScanRejects(w, c.excluded, {}, c.maxEntries, c.maxBytes)
      && !ScanRejects(t, c.excluded, {}, c.maxEntries, c.maxBytes)
  {
  }

  /** approve: an acceptable actor, a lifetime of one second to a quarter of an hour, and a pending
      plan that has not expired and is not denied. */
  lemma ApproveChecks(s: State, planId: Id, actor: string, ttl: int, now: int)
    ensures CanApprove(s, planId, actor, ttl, now) <==>
      && AcceptText(actor, 256).Some? && 1 <= ttl <= 900
      && planId in s.plans && s.plans[planId].state != CommittedPlan && now < s.plans[planId].core.expiresAt
      && (s.plans[planId].core.facts.verdict.decision == Allow
        || s.plans[planId].core.facts.verdict.decision == RequireApproval)
  {
  }

  /** The token lives for `ttl` seconds, or until its plan expires if that is sooner. */
  lemma TokenLifetime(core: TokenCore, actor: string, ttl: int, now: int)
    ensures GrantedFor(core, actor, ttl, now) <==>
      && AcceptText(actor, 256) == Some(core.actor) && core.createdAt == now
      && core.expiresAt == if core.fingerprint.expiresAt < now + ttl then core.fingerprint.expiresAt else now + ttl
  {
  }

  /** commit: a pending plan that has not expired and is not denied; where it needs approval, a token
      signed by the broker for exactly this plan, alive, of a lifetime in range, and not outliving the
      plan; a planned transaction with the task, the root and the baseline of the plan; and a stored
      baseline that verifies. */
  lemma CommitChecks(c: Config, s: State, planId: Id, token: Option<ApprovalToken>, freshAt: int, tokenAt: int)
    ensures ChecksPass(c, s, planId, token, freshAt, tokenAt) <==>
      && planId in s.plans
      && var plan, core := s.plans[planId], s.plans[planId].core;
      && plan.state == PendingPlan && freshAt < core.expiresAt
      && (core.facts.verdict.decision == Allow
        || (core.facts.verdict.decision == RequireApproval && token.Some? && Binds(c.key, token.value, core, tokenAt)))
      && core.txId in s.transactions && core.root in s.workspaces
      && var tx := s.transactions[core.txId];
      && tx.state == PlannedState && tx.task == core.task && tx.root == core.root
      && tx.baselineDigest == core.facts.baselineDigest && Genuine(tx.baseline)
  {
  }

  /** The broker signed this token for this plan, and it is alive. */
  predicate Binds(key: nat, token: ApprovalToken, core: PlanCore, now: int) {
    && token.signature == Mac(key, token.core) && token.core.planId == core.planId && token.core.fingerprint == core
    && AcceptText(token.core.actor, 256).Some?
    && 0 <= token.core.createdAt && token.core.createdAt < token.core.expiresAt <= token.core.createdAt + 900
    && now < token.core.expiresAt <= core.expiresAt
  }

  /** restore: a record that says committed, of a plan that does too, with the transaction, the root
      and both digests of that plan. */
  lemma RestoreChecks(s: State, id: Id)
    ensures RestoreReady(s, id) <==>
      && id in s.commits && id in s.quarantines && s.commits[id].planId in s.plans
      && var r, plan := s.commits[id], s.plans[s.commits[id].planId];
      && r.status == CommittedStatus && plan.state == CommittedPlan
      && r.txId == plan.core.txId && r.root == plan.core.root && r.before == plan.core.facts.baselineDigest
      && r.after == plan.core.facts.stagedDigest && r.root in s.workspaces
  {
  }

  // ----- what each call leaves

  /** Begin saves an open transaction under a new identifier, with a worktree that has its baseline. */
  lemma BeginLeaves(c: Config, s: State, e: Event, s': State)
    requires Sound(s) && Step(c, s, e, s') && e.Began?
    ensures e.tx.id !in s.transactions && e.tx.id in s'.transactions && e.tx.id in s'.worktrees
    ensures s'.transactions[e.tx.id].state == Open && s'.transactions[e.tx.id] == e.tx
    ensures HasDigest(Visible(s'.worktrees[e.tx.id], c.excluded), e.tx.baseline.digest)
    ensures forall id | id in s.transactions :: id in s'.transactions && s'.transactions[id] == s.transactions[id]
    ensures s'.plans == s.plans && s'.issued == s.issued && s'.commits == s.commits && s'.workspaces == s.workspaces
  {
    assert forall id | id in s.transactions :: TransactionOk(s, id);
  }

  /** Plan saves a pending plan under a new identifier, and then its transaction as planned. */
  lemma PlanLeaves(c: Config, s: State, e: Event, s': State)
    requires Sound(s) && Step(c, s, e, s') && e.PlanMade?
    ensures var core := e.plan.core;
      && core.planId !in s.plans && core.planId in s'.plans && s'.plans[core.planId] == CommitPlan(core, PendingPlan)
      && core.txId in s'.transactions && core.txId in s.transactions && s'.transactions.Keys == s.transactions.Keys
      && s'.transactions[core.txId].state == (if e.marked then PlannedState else s.transactions[core.txId].state)
    ensures forall id | id in s.plans :: id in s'.plans && s'.plans[id] == s.plans[id]
    ensures forall id | id in s.transactions && id != e.plan.core.txId :: s'.transactions[id] == s.transactions[id]
    ensures s'.issued == s.issued && s'.commits == s.commits && s'.workspaces == s.workspaces
  {
    hide Grounds, TreesReal, TransactionOk, TokenOk, RecordOk, MatchesTransaction;
    assert forall id | id in s.plans :: PlanOk(s, id);
  }

  /** Approve saves a token under a new identifier, for the plan as it is, and nothing else. */
  lemma ApproveLeaves(c: Config, s: State, e: Event, s': State)
    requires Sound(s) && Step(c, s, e, s') && e.Approved?
    ensures e.grant.tokenId !in s.issued && e.grant.tokenId in s'.issued && s'.issued[e.grant.tokenId] == e.grant
    ensures e.grant.planId in s.plans && e.grant.fingerprint == s.plans[e.grant.planId].core
    ensures forall id | id in s.issued :: id in s'.issued && s'.issued[id] == s.issued[id]
    ensures s'.transactions == s.transactions && s'.plans == s.plans && s'.commits == s.commits
      && s'.workspaces == s.workspaces
  {
    assert forall id | id in s.issued :: TokenOk(s, id);
  }

  /** Commit changes the workspace of its plan, adds its record under a new identifier, and marks plan
      and transaction as committed where they were saved. */
  lemma CommitLeaves(c: Config, s: State, e: Event, s': State)
    requires Sound(s) && Step(c, s, e, s') && e.CommitTried?
    ensures e.planId in s.plans && e.planId in s'.plans
    ensures var core := s.plans[e.planId].core;
      && s'.plans[e.planId] == CommitPlan(core, if e.planSaved then CommittedPlan else PendingPlan)
      && core.txId in s'.transactions
      && s'.transactions[core.txId].state == (if e.txSaved then CommittedState else PlannedState)
      && core.root in s'.workspaces && s'.workspaces[core.root] == e.workspace
    ensures e.record.Some? ==>
      && s.nextId !in s.commits && s.nextId in s'.commits && s'.commits[s.nextId] == e.record.value
      && e.record.value.planId == e.planId && e.record.value.createdAt == s'.now
  {
    hide Grounds, TreesReal, PlanOk, TransactionOk, TokenOk, StatusFits;
    assert forall id | id in s.commits :: RecordOk(s, id);
  }

  /** It changes nothing else. */
  lemma CommitLeavesAlone(c: Config, s: State, e: Event, s': State)
    requires Step(c, s, e, s') && e.CommitTried?
    ensures e.planId in s.plans && s'.plans.Keys == s.plans.Keys && s'.transactions.Keys == s.transactions.Keys
    ensures forall id | id in s.plans && id != e.planId :: s'.plans[id] == s.plans[id]
    ensures var core := s.plans[e.planId].core;
      && (forall id | id in s.transactions && id != core.txId :: s'.transactions[id] == s.transactions[id])
      && (forall root | root in s.workspaces && root != core.root ::
            root in s'.workspaces && s'.workspaces[root] == s.workspaces[root])
    ensures forall id | id in s.commits && id < s.nextId :: id in s'.commits && s'.commits[id] == s.commits[id]
    ensures s'.issued == s.issued && s'.worktrees == s.worktrees
  {
    hide Grounds, TreesReal, StatusFits, MatchesTransaction, RecordMatches;
  }

  /** Restore changes the workspace and the quarantine of its record, and marks that record. */
  lemma RestoreLeaves(c: Config, s: State, e: Event, s': State)
    requires Step(c, s, e, s') && e.RestoreTried?
    ensures e.commitId in s.commits && s'.commits.Keys == s.commits.Keys
    ensures var r := s.commits[e.commitId];
      && r.root in s'.workspaces && s'.workspaces[r.root] == e.workspace
      && (e.outcome == RestoreDone ==> s'.commits[e.commitId].status == RestoredStatus)
      && (s'.commits[e.commitId].status == CommittedStatus ==> s'.commits[e.commitId] == r)
      && (forall id | id in s.commits && id != e.commitId :: s'.commits[id] == s.commits[id])
      && (forall root | root in s.workspaces && root != r.root ::
            root in s'.workspaces && s'.workspaces[root] == s.workspaces[root])
      && (s'.commits[e.commitId].status == RestoredStatus ==> HasDigest(Visible(e.workspace, c.excluded), r.before))
    ensures s'.plans == s.plans && s'.transactions == s.transactions && s'.issued == s.issued
  {
  }

  /** Discard removes its transaction, or marks it if the removal fails; a committed one stays. */
  lemma DiscardLeaves(c: Config, s: State, e: Event, s': State)
    requires Step(c, s, e, s') && e.DiscardTried?
    ensures e.txId in s.transactions && s.transactions[e.txId].state != CommittedState
    ensures if e.removed then e.txId !in s'.transactions && e.txId !in s'.worktrees
            else e.txId in s'.transactions && s'.transactions[e.txId].state == Discarded
    ensures forall id | id in s.transactions && id != e.txId ::
      id in s'.transactions && s'.transactions[id] == s.transactions[id]
    ensures s'.plans == s.plans && s'.issued == s.issued && s'.commits == s.commits && s'.workspaces == s.workspaces
  {
  }
}

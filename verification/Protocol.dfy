/** The saved state of the protocol and what one API call may do to it. Calls that raise are
    events too: what they had saved by then stays saved. */
module Protocol {
  import opened Paths
  import opened Texts
  import opened Trees
  import opened Manifests
  import opened Scans
  import opened Diffs
  import opened Layout
  import opened Records
  import opened Journal
  import opened RestoreSetting
  import opened UndoTurns
  import opened Policy
  import opened Engine

  type Id = nat
  type Root = string

  const MAX_PLAN_TTL := 3600
  const MAX_APPROVAL_TTL := 900
  const MAX_TASK_ID_LENGTH := 256
  const MAX_ACTOR_LENGTH := 256

  /** `ignored` tells which names match one of the excluded names read as a pattern. */
  datatype Config = Config(rules: CaseRules, excluded: set<Name>, ignored: Name -> bool, maxEntries: nat, maxBytes: nat,
    key: nat)

  datatype TransactionState = Open | PlannedState | CommittedState | Discarded

  /** A transaction with the baseline manifest stored beside it. */
  datatype Transaction = Transaction(id: Id, task: string, root: Root, baseline: Manifest, baselineDigest: TreeDigest,
                                     createdAt: int, state: TransactionState)

  /** Everything the fingerprint covers; as hashes are ideal it stands for the fingerprint too. */
  datatype PlanCore = PlanCore(planId: Id, txId: Id, task: string, root: Root, facts: PlanFacts, createdAt: int,
    expiresAt: int)

  datatype PlanState = PendingPlan | CommittedPlan

  datatype CommitPlan = CommitPlan(core: PlanCore, state: PlanState)

  datatype TokenCore = TokenCore(tokenId: Id, planId: Id, fingerprint: PlanCore, actor: string, createdAt: int,
    expiresAt: int)

  /** An ideal signature names the key and what was signed. */
  datatype TokenSignature = Mac(key: nat, core: TokenCore) | ForgedMac(text: string)

  datatype ApprovalToken = ApprovalToken(core: TokenCore, signature: TokenSignature)

  datatype CommitRecord = CommitRecord(planId: Id, txId: Id, root: Root, ops: seq<CommitOperation>,
                                       before: TreeDigest, after: TreeDigest, createdAt: int, status: CommitStatus)

  /** What the broker has saved, and the trees it works on. `now` is the last clock reading. */
  datatype State = State(
    policy: GuardPolicy, transactions: map<Id, Transaction>, plans: map<Id, CommitPlan>, issued: map<Id, TokenCore>,
    commits: map<Id, CommitRecord>, quarantines: map<Id, Tree>, workspaces: map<Root, Tree>, worktrees: map<Id, Tree>,
    nextId: Id, now: int)

  /** One API call, or something the outside world does. */
  datatype Event =
    | Quiet
    | Began(tx: Transaction, worktree: Tree)
    | PlanMade(plan: CommitPlan, marked: bool)
    | Approved(grant: TokenCore, freshAt: int)
    | CommitTried(planId: Id, token: Option<ApprovalToken>, freshAt: int, tokenAt: int, end: CommitEnd,
                  record: Option<CommitRecord>, workspace: Tree, quarantine: Tree, planSaved: bool, txSaved: bool)
    | RestoreTried(commitId: Id, outcome: RestoreEnd, left: CommitRecord, workspace: Tree, quarantine: Tree)
    | DiscardTried(txId: Id, removed: bool)
    | AgentWrote(txId: Id, worktree: Tree)
    | UserWrote(root: Root, workspace: Tree)
    | PolicyChanged(policy: GuardPolicy)

  // ----- checks

  predicate Decided(core: PlanCore, decision: Decision) {
    core.facts.verdict.decision == decision
  }

  /** _verify_approval. */
  predicate TokenAccepted(key: nat, token: ApprovalToken, plan: CommitPlan, now: int) {
    var t := token.core;
    && token.signature == Mac(key, t) && AcceptText(t.actor, MAX_ACTOR_LENGTH).Some?
    && 0 <= t.createdAt < t.expiresAt && t.expiresAt - t.createdAt <= MAX_APPROVAL_TTL
    && now < t.expiresAt && t.expiresAt <= plan.core.expiresAt
    && t.planId == plan.core.planId && t.fingerprint == plan.core
  }

  /** What commit checks before it takes the lock. */
  predicate CommitAllowed(key: nat, plan: CommitPlan, token: Option<ApprovalToken>, freshAt: int, tokenAt: int) {
    && plan.state == PendingPlan && freshAt < plan.core.expiresAt && !Decided(plan.core, Deny)
    && (Decided(plan.core, RequireApproval) ==> token.Some? && TokenAccepted(key, token.value, plan, tokenAt))
  }

  predicate MatchesTransaction(core: PlanCore, tx: Transaction) {
    core.task == tx.task && core.root == tx.root && core.facts.baselineDigest == tx.baselineDigest
  }

  predicate RecordMatches(r: CommitRecord, core: PlanCore) {
    r.txId == core.txId && r.root == core.root && r.before == core.facts.baselineDigest
      && r.after == core.facts.stagedDigest
  }

  /** The quarantine still holds what restoring this record takes. */
  ghost predicate Keeps(c: Config, r: CommitRecord, quarantine: Tree) {
    exists g: Setting, after: Disk :: KeptBy(c, r, quarantine, g, after)
  }

  ghost predicate KeptBy(c: Config, r: CommitRecord, quarantine: Tree, g: Setting, after: Disk) {
    && Shape(g, r.ops, after) && Progress(r.ops, |r.ops|) && VisibleRoots(g, c.excluded)
    && quarantine == after.quarantine
    && HasDigest(Visible(g.base, c.excluded), r.before) && HasDigest(Visible(after.workspace, c.excluded), r.after)
  }

  // ----- what each event does to the saved records

  predicate BeganEffect(s: State, e: Event, s': State)
    requires e.Began?
  {
    var tx := e.tx;
    && tx.id == s.nextId && tx.state == Open && tx.baselineDigest == tx.baseline.digest && tx.createdAt == s'.now
    && tx.root in s.workspaces
    && s' == s.(transactions := s.transactions[tx.id := tx], worktrees := s.worktrees[tx.id := e.worktree],
                nextId := s.nextId + 1, now := s'.now)
  }

  /** A plan lives at most an hour. */
  predicate PlanEffect(s: State, e: Event, s': State)
    requires e.PlanMade?
  {
    var core := e.plan.core;
    && core.planId == s.nextId && core.txId in s.transactions && core.txId in s.worktrees && core.root in s.workspaces
    && (s.transactions[core.txId].state == Open || s.transactions[core.txId].state == PlannedState)
    && MatchesTransaction(core, s.transactions[core.txId])
    && core.createdAt == s'.now && core.createdAt < core.expiresAt <= core.createdAt + MAX_PLAN_TTL
    && e.plan.state == PendingPlan
    && s' == s.(plans := s.plans[core.planId := e.plan],
                transactions :=
                  if e.marked then s.transactions[core.txId := s.transactions[core.txId].(state := PlannedState)]
                  else s.transactions,
                nextId := s.nextId + 1, now := s'.now)
  }

  /** A token lives at most a quarter of an hour, and no longer than its plan. */
  predicate ApproveEffect(s: State, e: Event, s': State)
    requires e.Approved?
  {
    var t := e.grant;
    && t.planId in s.plans && t.tokenId == s.nextId && t.fingerprint == s.plans[t.planId].core
    && s.plans[t.planId].state == PendingPlan && e.freshAt < t.fingerprint.expiresAt && !Decided(t.fingerprint, Deny)
    && t.createdAt == s'.now && t.expiresAt <= t.fingerprint.expiresAt && t.expiresAt <= t.createdAt + MAX_APPROVAL_TTL
    && s' == s.(issued := s.issued[t.tokenId := t], nextId := s.nextId + 1, now := s'.now)
  }

  /** What commit finds in the saved records. */
  predicate CommitReady(s: State, planId: Id) {
    && planId in s.plans && s.plans[planId].state == PendingPlan
    && var core := s.plans[planId].core;
    && core.txId in s.transactions && s.transactions[core.txId].state == PlannedState
    && MatchesTransaction(core, s.transactions[core.txId])
    && core.root in s.workspaces
  }

  function SavedAs(record: Option<CommitRecord>): Option<SavedRecord> {
    match record case Some(r) => Some(SavedRecord(r.ops, r.status)) case None => None
  }

  predicate CommitEffect(s: State, e: Event, s': State)
    requires e.CommitTried?
  {
    && CommitReady(s, e.planId)
    && var core := s.plans[e.planId].core;
    && (e.record.Some? ==>
      RecordMatches(e.record.value, core) && e.record.value.planId == e.planId && e.record.value.createdAt == s'.now)
    && StatusFits(e.end, SavedAs(e.record))
    && (e.planSaved ==> e.end == Committed) && (e.txSaved ==> e.planSaved)
    && (e.end == Refused || e.end == RolledBackEnd ==> e.workspace == s.workspaces[core.root])
    && s' == s.(workspaces := s.workspaces[core.root := e.workspace],
                commits := if e.record.Some? then s.commits[s.nextId := e.record.value] else s.commits,
                quarantines := if e.record.Some? then s.quarantines[s.nextId := e.quarantine] else s.quarantines,
                plans := if e.planSaved then s.plans[e.planId := CommitPlan(core, CommittedPlan)] else s.plans,
                transactions :=
                  if e.txSaved then s.transactions[core.txId := s.transactions[core.txId].(state := CommittedState)]
                  else s.transactions,
                nextId := s.nextId + 1, now := s'.now)
  }

  /** What restore finds in the saved records. */
  predicate RestoreReady(s: State, id: Id) {
    && id in s.commits && id in s.quarantines && s.commits[id].status == CommittedStatus
    && var r := s.commits[id];
    && r.planId in s.plans && s.plans[r.planId].state == CommittedPlan && RecordMatches(r, s.plans[r.planId].core)
    && r.root in s.workspaces
  }

  predicate RestoreEffect(s: State, e: Event, s': State)
    requires e.RestoreTried?
  {
    && RestoreReady(s, e.commitId)
    && var r := s.commits[e.commitId];
    && e.left == r.(ops := e.left.ops, status := e.left.status)
    && (e.left == r || e.left.status == RestoredStatus)
    && (e.outcome == RestoreRefused ==>
      e.left == r && e.quarantine == s.quarantines[e.commitId] && e.workspace == s.workspaces[r.root])
    && (e.outcome == RestoreDone ==> e.left.status == RestoredStatus)
    && s' == s.(workspaces := s.workspaces[r.root := e.workspace], commits := s.commits[e.commitId := e.left],
                quarantines := s.quarantines[e.commitId := e.quarantine], now := s'.now)
  }

  predicate DiscardEffect(s: State, e: Event, s': State)
    requires e.DiscardTried?
  {
    && e.txId in s.transactions && s.transactions[e.txId].state != CommittedState
    && s' == s.(transactions := if e.removed then s.transactions - {e.txId}
                                else s.transactions[e.txId := s.transactions[e.txId].(state := Discarded)],
                worktrees := if e.removed then s.worktrees - {e.txId} else s.worktrees, now := s'.now)
  }

  predicate Effect(s: State, e: Event, s': State) {
    match e
    case Quiet => s' == s.(now := s'.now)
    case Began(_, _) => BeganEffect(s, e, s')
    case PlanMade(_, _) => PlanEffect(s, e, s')
    case Approved(_, _) => ApproveEffect(s, e, s')
    case CommitTried(_, _, _, _, _, _, _, _, _, _) => CommitEffect(s, e, s')
    case RestoreTried(_, _, _, _, _) => RestoreEffect(s, e, s')
    case DiscardTried(_, _) => DiscardEffect(s, e, s')
    case AgentWrote(txId, t) => txId in s.worktrees && s' == s.(worktrees := s.worktrees[txId := t], now := s'.now)
    case UserWrote(root, t) => root in s.workspaces && s' == s.(workspaces := s.workspaces[root := t], now := s'.now)
    case PolicyChanged(policy) => s' == s.(policy := policy, now := s'.now)
  }

  // ----- what each event does to the trees

  /** What a commit under the lock does to the workspace of its plan. */
  ghost predicate CommitMoves(c: Config, w: Tree, policy: GuardPolicy, facts: PlanFacts, e: Event)
    requires e.CommitTried?
  {
    && Hidden(e.workspace, c.excluded) == Hidden(w, c.excluded)
    && (e.end != Refused ==> facts.policy == policy && HasDigest(Visible(w, c.excluded), facts.baselineDigest))
    && (e.end == Committed ==>
      HasDigest(Visible(e.workspace, c.excluded), facts.stagedDigest) && e.record.Some?
      && Keeps(c, e.record.value, e.quarantine))
  }

  ghost predicate RestoreGrounds(c: Config, w: Tree, r: CommitRecord, e: Event)
    requires e.RestoreTried?
  {
    && Hidden(e.workspace, c.excluded) == Hidden(w, c.excluded)
    && (e.outcome != RestoreRefused ==> HasDigest(Visible(w, c.excluded), r.after))
    && (e.left.status == RestoredStatus ==> HasDigest(Visible(e.workspace, c.excluded), r.before))
  }

  /** Every tree and every list of operations that an event brings is well formed. */
  ghost predicate TreesReal(c: Config, e: Event) {
    match e
    case Began(tx, t) => Genuine(tx.baseline) && IsTree(t)
    case CommitTried(_, _, _, _, _, record, w, q, _, _) =>
      IsTree(w) && (record.Some? ==> IsTree(q) && PathsFit(record.value.ops, c.excluded))
    case RestoreTried(_, _, r, w, q) => IsTree(w) && IsTree(q) && PathsFit(r.ops, c.excluded)
    case AgentWrote(_, t) => IsTree(t)
    case UserWrote(_, t) => IsTree(t)
    case _ => true
  }

  /** The checks and the trees behind an event. */
  ghost predicate Grounds(c: Config, s: State, e: Event)
    requires e.PlanMade? ==> e.plan.core.root in s.workspaces && e.plan.core.txId in s.worktrees
    requires e.CommitTried? ==> CommitReady(s, e.planId)
    requires e.RestoreTried? ==> RestoreReady(s, e.commitId)
  {
    match e
    case Began(tx, t) => HasDigest(Visible(t, c.excluded), tx.baselineDigest)
    case PlanMade(p, _) =>
      PlanFits(p.core.facts, s.policy, c.rules, Visible(s.workspaces[p.core.root], c.excluded),
               Visible(s.worktrees[p.core.txId], c.excluded))
    case CommitTried(id, token, freshAt, tokenAt, _, _, _, _, _, _) =>
      CommitAllowed(c.key, s.plans[id], token, freshAt, tokenAt)
      && CommitMoves(c, s.workspaces[s.plans[id].core.root], s.policy, s.plans[id].core.facts, e)
    case RestoreTried(id, _, _, _, _) => RestoreGrounds(c, s.workspaces[s.commits[id].root], s.commits[id], e)
    case _ => true
  }

  ghost predicate Step(c: Config, s: State, e: Event, s': State) {
    Effect(s, e, s') && TreesReal(c, e) && Grounds(c, s, e)
  }

  ghost predicate Init(s: State) {
    && s.transactions == map[] && s.plans == map[] && s.issued == map[] && s.commits == map[] && s.quarantines == map[]
    && s.worktrees == map[]
    && forall root | root in s.workspaces :: IsTree(s.workspaces[root])
  }

  // ----- what every step keeps

  predicate TransactionOk(s: State, id: Id)
    requires id in s.transactions
  {
    var tx := s.transactions[id];
    tx.id == id < s.nextId && tx.baselineDigest == tx.baseline.digest && id in s.worktrees
  }

  predicate PlanOk(s: State, id: Id)
    requires id in s.plans
  {
    var core := s.plans[id].core;
    && core.planId == id < s.nextId && core.txId < s.nextId
    && core.createdAt < core.expiresAt <= core.createdAt + MAX_PLAN_TTL
    && (core.txId in s.transactions ==> MatchesTransaction(core, s.transactions[core.txId]))
  }

  predicate TokenOk(s: State, id: Id)
    requires id in s.issued
  {
    var t := s.issued[id];
    && t.tokenId == id < s.nextId && t.planId in s.plans && t.fingerprint == s.plans[t.planId].core
    && !Decided(t.fingerprint, Deny)
    && t.expiresAt <= t.createdAt + MAX_APPROVAL_TTL && t.expiresAt <= t.fingerprint.expiresAt
  }

  predicate RecordOk(s: State, id: Id)
    requires id in s.commits
  {
    var r := s.commits[id];
    id < s.nextId && r.planId in s.plans && RecordMatches(r, s.plans[r.planId].core) && id in s.quarantines
  }

  /** The saved records agree with each other. */
  ghost predicate Sound(s: State) {
    && (forall id | id in s.transactions :: TransactionOk(s, id))
    && (forall id | id in s.plans :: PlanOk(s, id))
    && (forall id | id in s.issued :: TokenOk(s, id))
    && (forall id | id in s.commits :: RecordOk(s, id))
  }

  /** Every tree the broker works on is one. */
  ghost predicate Real(c: Config, s: State) {
    && (forall root | root in s.workspaces :: IsTree(s.workspaces[root]))
    && (forall id | id in s.worktrees :: IsTree(s.worktrees[id]))
    && (forall id | id in s.quarantines :: IsTree(s.quarantines[id]))
    && (forall id | id in s.transactions :: Genuine(s.transactions[id].baseline))
    && (forall id | id in s.commits :: PathsFit(s.commits[id].ops, c.excluded))
  }

  lemma TransactionKept(s: State, e: Event, s': State, id: Id)
    requires Effect(s, e, s') && id in s'.transactions && (id in s.transactions ==> TransactionOk(s, id))
    ensures TransactionOk(s', id)
  {
  }

  /** A plan stays, and what its fingerprint covers never changes. */
  lemma PlanStays(s: State, e: Event, s': State, id: Id)
    requires Effect(s, e, s') && id in s.plans && PlanOk(s, id)
    ensures id in s'.plans && s'.plans[id].core == s.plans[id].core
    ensures s.plans[id].state == CommittedPlan ==> s'.plans[id].state == CommittedPlan
  {
  }

  lemma IdsGrow(s: State, e: Event, s': State)
    requires Effect(s, e, s')
    ensures s.nextId <= s'.nextId
  {
  }

  lemma PlansStay(s: State, e: Event, s': State)
    requires Sound(s) && Effect(s, e, s')
    ensures s.nextId <= s'.nextId
    ensures forall id | id in s.plans :: id in s'.plans && s'.plans[id].core == s.plans[id].core
    ensures forall id | id in s.plans && s.plans[id].state == CommittedPlan :: s'.plans[id].state == CommittedPlan
  {
    IdsGrow(s, e, s');
    forall id | id in s.plans
      ensures id in s'.plans && s'.plans[id].core == s.plans[id].core
      ensures s.plans[id].state == CommittedPlan ==> s'.plans[id].state == CommittedPlan
    {
      assert PlanOk(s, id);
      PlanStays(s, e, s', id);
    }
  }

  lemma PlanKept(s: State, e: Event, s': State, id: Id)
    requires Effect(s, e, s') && id in s'.plans && (id in s.plans ==> PlanOk(s, id))
    requires e.PlanMade? && e.plan.core.txId in s.transactions ==> TransactionOk(s, e.plan.core.txId)
    ensures PlanOk(s', id)
  {
    hide Sound, Grounds, TreesReal;
  }

  lemma TokenKept(s: State, e: Event, s': State, id: Id)
    requires Effect(s, e, s') && id in s'.issued && (id in s.issued ==> TokenOk(s, id))
    requires s.nextId <= s'.nextId && forall p | p in s.plans :: p in s'.plans && s'.plans[p].core == s.plans[p].core
    ensures TokenOk(s', id)
  {
  }

  lemma RecordKept(s: State, e: Event, s': State, id: Id)
    requires Effect(s, e, s') && id in s'.commits && (id in s.commits ==> RecordOk(s, id))
    requires s.nextId <= s'.nextId && forall p | p in s.plans :: p in s'.plans && s'.plans[p].core == s.plans[p].core
    ensures RecordOk(s', id)
  {
  }

  lemma StepKeepsSound(s: State, e: Event, s': State)
    requires Sound(s) && Effect(s, e, s')
    ensures Sound(s')
  {
    PlansStay(s, e, s');
    forall id | id in s'.transactions ensures TransactionOk(s', id) { TransactionKept(s, e, s', id); }
    forall id | id in s'.plans ensures PlanOk(s', id) { PlanKept(s, e, s', id); }
    forall id | id in s'.issued ensures TokenOk(s', id) { TokenKept(s, e, s', id); }
    forall id | id in s'.commits ensures RecordOk(s', id) { RecordKept(s, e, s', id); }
  }

  lemma WorkspaceReal(c: Config, s: State, e: Event, s': State, root: Root)
    requires Effect(s, e, s') && TreesReal(c, e) && root in s'.workspaces
      && (root in s.workspaces ==> IsTree(s.workspaces[root]))
    ensures IsTree(s'.workspaces[root])
  {
  }

  lemma QuarantineReal(c: Config, s: State, e: Event, s': State, id: Id)
    requires Effect(s, e, s') && TreesReal(c, e) && id in s'.quarantines
      && (id in s.quarantines ==> IsTree(s.quarantines[id]))
    ensures IsTree(s'.quarantines[id])
  {
  }

  lemma WorktreeReal(c: Config, s: State, e: Event, s': State, id: Id)
    requires Effect(s, e, s') && TreesReal(c, e) && id in s'.worktrees
      && (id in s.worktrees ==> IsTree(s.worktrees[id]))
    ensures IsTree(s'.worktrees[id])
  {
  }

  lemma BaselineReal(c: Config, s: State, e: Event, s': State, id: Id)
    requires Effect(s, e, s') && TreesReal(c, e) && id in s'.transactions
      && (id in s.transactions ==> Genuine(s.transactions[id].baseline))
    ensures Genuine(s'.transactions[id].baseline)
  {
  }

  lemma RecordReal(c: Config, s: State, e: Event, s': State, id: Id)
    requires Effect(s, e, s') && TreesReal(c, e) && id in s'.commits
      && (id in s.commits ==> PathsFit(s.commits[id].ops, c.excluded))
    ensures PathsFit(s'.commits[id].ops, c.excluded)
  {
  }

  lemma StepKeepsReal(c: Config, s: State, e: Event, s': State)
    requires Real(c, s) && Effect(s, e, s') && TreesReal(c, e)
    ensures Real(c, s')
  {
    forall root | root in s'.workspaces ensures IsTree(s'.workspaces[root]) { WorkspaceReal(c, s, e, s', root); }
    forall id | id in s'.quarantines ensures IsTree(s'.quarantines[id]) { QuarantineReal(c, s, e, s', id); }
    forall id | id in s'.worktrees ensures IsTree(s'.worktrees[id]) { WorktreeReal(c, s, e, s', id); }
    forall id | id in s'.transactions ensures Genuine(s'.transactions[id].baseline) { BaselineReal(c, s, e, s', id); }
    forall id | id in s'.commits ensures PathsFit(s'.commits[id].ops, c.excluded) { RecordReal(c, s, e, s', id); }
  }

  // ----- the books

  predicate Undertaken(r: CommitRecord) {
    r.status == CommittedStatus || r.status == RestoredStatus
  }

  /** A committed plan has a committed transaction, and no other plan of it is committed. */
  ghost predicate PlanBooks(s: State) {
    && (forall p | p in s.plans && s.plans[p].state == CommittedPlan ::
          s.plans[p].core.txId in s.transactions && s.transactions[s.plans[p].core.txId].state == CommittedState)
    && (forall p, q | p in s.plans && q in s.plans && s.plans[p].state == CommittedPlan
      && s.plans[q].state == CommittedPlan
          && s.plans[p].core.txId == s.plans[q].core.txId :: p == q)
  }

  /** A record that claims a commit has a committed plan, and no other record claims it. */
  ghost predicate RecordBooks(s: State) {
    && (forall r | r in s.commits && Undertaken(s.commits[r]) ::
          s.commits[r].planId in s.plans && s.plans[s.commits[r].planId].state == CommittedPlan)
    && (forall q, r | q in s.commits && r in s.commits && Undertaken(s.commits[q]) && Undertaken(s.commits[r])
          && s.commits[q].planId == s.commits[r].planId :: q == r)
  }

  /** Plans, transactions and records tell the same story about what was committed. */
  ghost predicate Books(s: State) {
    PlanBooks(s) && RecordBooks(s)
  }

  /** Nothing failed between the last journal entry of a commit and the end of the call, and no
      record of an undone commit is left claiming to be committed. */
  predicate BooksKept(e: Event) {
    e.CommitTried? ==>
      if e.end == Committed then e.planSaved && e.txSaved
      else e.record.Some? ==> e.record.value.status != CommittedStatus
  }

  /** A commit leaves the books in order exactly in those cases. */
  lemma CommitKeepsBooks(s: State, e: Event, s': State)
    requires Sound(s) && Books(s) && e.CommitTried? && Effect(s, e, s')
    ensures Books(s') <==> BooksKept(e)
  {
    hide TreesReal, Grounds, Real, TransactionOk, PlanOk, TokenOk, HasDigest;
    var core := s.plans[e.planId].core;
    assert PlanOk(s, e.planId);
    assert forall r | r in s.commits :: RecordOk(s, r);
    if BooksKept(e) {
      PlansAfterCommit(s, e, s');
      RecordsAfterCommit(s, e, s');
    } else {
      assert e.record.Some? && s'.commits[s.nextId] == e.record.value;
      assert e.record.value.planId == e.planId;
    }
  }

  lemma PlansAfterCommit(s: State, e: Event, s': State)
    requires PlanBooks(s) && e.CommitTried? && CommitEffect(s, e, s') && BooksKept(e) && PlanOk(s, e.planId)
    ensures PlanBooks(s')
  {
    assert forall p | p in s.plans && s.plans[p].state == CommittedPlan ::
      s.plans[p].core.txId != s.plans[e.planId].core.txId;
  }

  lemma RecordsAfterCommit(s: State, e: Event, s': State)
    requires RecordBooks(s) && e.CommitTried? && CommitEffect(s, e, s') && BooksKept(e)
    requires forall r | r in s.commits :: r < s.nextId
    ensures RecordBooks(s')
  {
    assert forall r | r in s.commits && Undertaken(s.commits[r]) :: s.commits[r].planId != e.planId;
  }

  lemma CommittedPlanStays(s: State, e: Event, s': State, p: Id)
    requires !e.CommitTried? && Effect(s, e, s') && p in s.plans && s.plans[p].state == CommittedPlan && PlanOk(s, p)
    requires s.plans[p].core.txId in s.transactions && s.transactions[s.plans[p].core.txId].state == CommittedState
    ensures p in s'.plans && s.plans[p] == s'.plans[p]
    ensures s.plans[p].core.txId in s'.transactions && s'.transactions[s.plans[p].core.txId].state == CommittedState
  {
  }

  lemma NoNewCommittedPlans(s: State, e: Event, s': State, p: Id)
    requires !e.CommitTried? && Effect(s, e, s') && p in s'.plans && s'.plans[p].state == CommittedPlan
    ensures p in s.plans && s.plans[p] == s'.plans[p]
  {
  }

  lemma CommittedPlansStay(s: State, e: Event, s': State)
    requires Sound(s) && Books(s) && !e.CommitTried? && Effect(s, e, s')
    ensures forall p | p in s'.plans && s'.plans[p].state == CommittedPlan :: p in s.plans && s.plans[p] == s'.plans[p]
    ensures forall p | p in s.plans && s.plans[p].state == CommittedPlan :: p in s'.plans && s.plans[p] == s'.plans[p]
    ensures forall p | p in s.plans && s.plans[p].state == CommittedPlan ::
      s.plans[p].core.txId in s'.transactions && s'.transactions[s.plans[p].core.txId].state == CommittedState
  {
    forall p | p in s'.plans && s'.plans[p].state == CommittedPlan ensures p in s.plans && s.plans[p] == s'.plans[p] {
      NoNewCommittedPlans(s, e, s', p);
    }
    forall p | p in s.plans && s.plans[p].state == CommittedPlan
      ensures p in s'.plans && s.plans[p] == s'.plans[p]
      ensures s.plans[p].core.txId in s'.transactions && s'.transactions[s.plans[p].core.txId].state == CommittedState
    {
      assert PlanOk(s, p);
      CommittedPlanStays(s, e, s', p);
    }
  }

  lemma UndertakenStay(s: State, e: Event, s': State)
    requires Sound(s) && !e.CommitTried? && Effect(s, e, s')
    ensures forall r | r in s'.commits && Undertaken(s'.commits[r]) ::
      r in s.commits && Undertaken(s.commits[r]) && s.commits[r].planId == s'.commits[r].planId
  {
  }

  /** Every other event leaves the books in order, whatever fails. */
  lemma OthersKeepBooks(s: State, e: Event, s': State)
    requires Sound(s) && Books(s) && !e.CommitTried? && Effect(s, e, s')
    ensures Books(s')
  {
    CommittedPlansStay(s, e, s');
    UndertakenStay(s, e, s');
  }

  // ----- what can be restored

  /** Every committed record can be restored from its quarantine. */
  ghost predicate Reversible(c: Config, s: State) {
    forall id | id in s.commits && s.commits[id].status == CommittedStatus ::
      id in s.quarantines && Keeps(c, s.commits[id], s.quarantines[id])
  }

  /** No restore was interrupted halfway. */
  predicate RestoreWhole(e: Event) {
    e.RestoreTried? && e.outcome == RestoreFailed ==> e.left.status == RestoredStatus
  }

  /** A committed record is an old one with its quarantine, or the one just made. */
  lemma CommittedRecords(s: State, e: Event, s': State, id: Id)
    requires (id in s.commits ==> RecordOk(s, id)) && Effect(s, e, s') && BooksKept(e) && RestoreWhole(e)
    requires id in s'.commits && s'.commits[id].status == CommittedStatus
    ensures id in s'.quarantines
    ensures
      || (id in s.commits && s'.commits[id] == s.commits[id] && id in s.quarantines
        && s'.quarantines[id] == s.quarantines[id])
      || (e.CommitTried? && e.end == Committed && e.record == Some(s'.commits[id])
        && s'.quarantines[id] == e.quarantine)
  {
  }

  lemma StepKeepsReversible(c: Config, s: State, e: Event, s': State)
    requires Sound(s) && Reversible(c, s) && Step(c, s, e, s') && BooksKept(e) && RestoreWhole(e)
    ensures Reversible(c, s')
  {
    forall id | id in s'.commits && s'.commits[id].status == CommittedStatus
      ensures id in s'.quarantines && Keeps(c, s'.commits[id], s'.quarantines[id])
    {
      assert id in s.commits ==> RecordOk(s, id);
      CommittedRecords(s, e, s', id);
    }
  }
}

/** What every run of API calls keeps, whatever fails on the way: the order of states, who may
    commit what and when, and how commits are undone. */
module Runs {
  import opened Paths
  import opened Trees
  import opened Manifests
  import opened Scans
  import opened Diffs
  import opened Policy
  import opened PolicyLaws
  import opened Records
  import opened Engine
  import opened Protocol

  ghost predicate StepAt(c: Config, states: seq<State>, events: seq<Event>, i: nat)
    requires i < |events| && |states| == |events| + 1
  {
    Step(c, states[i], events[i], states[i + 1])
  }

  ghost predicate Run(c: Config, states: seq<State>, events: seq<Event>) {
    && |states| == |events| + 1 && Init(states[0])
    && forall i | 0 <= i < |events| :: StepAt(c, states, events, i)
  }

  lemma SoundNext(c: Config, s: State, e: Event, s': State)
    requires Sound(s) && Real(c, s) && Step(c, s, e, s')
    ensures Sound(s') && Real(c, s')
  {
    StepKeepsSound(s, e, s');
    StepKeepsReal(c, s, e, s');
  }

  /** At every point of a run the saved records agree with each other, whatever failed so far. */
  lemma {:induction false} SoundThroughout(c: Config, states: seq<State>, events: seq<Event>, i: nat)
    requires Run(c, states, events) && i < |states|
    ensures Sound(states[i]) && Real(c, states[i])
  {
    if i > 0 {
      SoundThroughout(c, states, events, i - 1);
      assert StepAt(c, states, events, i - 1);
      SoundNext(c, states[i - 1], events[i - 1], states[i]);
    }
  }

  // ----- the books

  lemma BooksStep(c: Config, states: seq<State>, events: seq<Event>, i: nat)
    requires Run(c, states, events) && i < |events| && Books(states[i])
    ensures Books(states[i + 1]) <==> BooksKept(events[i])
  {
    SoundThroughout(c, states, events, i);
    assert StepAt(c, states, events, i);
    BooksNext(c, states[i], events[i], states[i + 1]);
  }

  lemma BooksNext(c: Config, s: State, e: Event, s': State)
    requires Sound(s) && Books(s) && Step(c, s, e, s')
    ensures Books(s') <==> BooksKept(e)
  {
    if e.CommitTried? {
      CommitKeepsBooks(s, e, s');
    } else {
      OthersKeepBooks(s, e, s');
    }
  }

  /** Saved plans, transactions and records agree at every point of a run exactly if no commit
      was cut off between its last journal entry and its end. */
  lemma {:induction false} BooksThroughout(c: Config, states: seq<State>, events: seq<Event>, n: nat)
    requires Run(c, states, events) && n <= |events|
    ensures (forall i | 0 <= i <= n :: Books(states[i])) <==> (forall j | 0 <= j < n :: BooksKept(events[j]))
  {
    if n > 0 {
      BooksThroughout(c, states, events, n - 1);
      if forall i | 0 <= i < n :: Books(states[i]) {
        BooksStep(c, states, events, n - 1);
      }
    }
  }

  lemma {:induction false} ReversibleThroughout(c: Config, states: seq<State>, events: seq<Event>, n: nat)
    requires Run(c, states, events) && n <= |events|
    requires forall j | 0 <= j < n :: BooksKept(events[j]) && RestoreWhole(events[j])
    ensures Reversible(c, states[n])
  {
    if n > 0 {
      ReversibleThroughout(c, states, events, n - 1);
      SoundThroughout(c, states, events, n - 1);
      assert StepAt(c, states, events, n - 1);
      StepKeepsReversible(c, states[n - 1], events[n - 1], states[n]);
    }
  }

  /** In such a run every committed record passes the checks restore makes on it, and its
      quarantine holds what undoing it takes, as long as no restore broke off halfway. */
  lemma RestoreChecksPass(c: Config, states: seq<State>, events: seq<Event>, n: nat, id: Id)
    requires Run(c, states, events) && n <= |events|
    requires forall j | 0 <= j < n :: BooksKept(events[j]) && RestoreWhole(events[j])
    requires id in states[n].commits && states[n].commits[id].status == CommittedStatus
    ensures var r := states[n].commits[id];
      r.planId in states[n].plans && states[n].plans[r.planId].state == CommittedPlan
        && RecordMatches(r, states[n].plans[r.planId].core)
    ensures id in states[n].quarantines && Keeps(c, states[n].commits[id], states[n].quarantines[id])
  {
    BooksThroughout(c, states, events, n);
    assert Books(states[n]);
    SoundThroughout(c, states, events, n);
    assert RecordOk(states[n], id);
    ReversibleThroughout(c, states, events, n);
  }

  // ----- the order of states

  predicate Advances(before: TransactionState, after: TransactionState) {
    match before
    case Open => true
    case PlannedState => after != Open
    case CommittedState => after == CommittedState
    case Discarded => after == Discarded
  }

  /** What one step may do to one transaction. */
  ghost predicate Moves(s: State, s': State, id: Id) {
    && s.nextId <= s'.nextId
    && (id in s.transactions && id in s'.transactions ==>
          s'.transactions[id] == s.transactions[id].(state := s'.transactions[id].state)
          && Advances(s.transactions[id].state, s'.transactions[id].state))
    && (id in s.transactions && s.transactions[id].state == CommittedState ==> id in s'.transactions)
    && (id < s.nextId && id !in s.transactions ==> id !in s'.transactions)
  }

  lemma MovesNext(s: State, e: Event, s': State, id: Id)
    requires (id in s.transactions ==> TransactionOk(s, id)) && Effect(s, e, s')
    ensures Moves(s, s', id)
    ensures id in s.transactions && id in s'.transactions && s.transactions[id].state == Open ==>
      s'.transactions[id].state != CommittedState
  {
    hide Sound, Grounds, TreesReal;
  }

  lemma MovesTransitive(s: State, t: State, u: State, id: Id)
    requires Moves(s, t, id) && Moves(t, u, id) && (id in s.transactions ==> id < s.nextId)
    ensures Moves(s, u, id)
  {
  }

  /** Transactions move from open over planned to committed, or from either to discarded, and
      nowhere else; a committed one is never lost and a removed one never returns. */
  lemma {:induction false} TransactionsAdvance(c: Config, states: seq<State>, events: seq<Event>, i: nat, j: nat,
                                               id: Id)
    requires Run(c, states, events) && i <= j < |states|
    ensures Moves(states[i], states[j], id)
    decreases j - i
  {
    hide Sound, Effect, Grounds, TreesReal, StepAt;
    if i < j {
      TransactionsAdvance(c, states, events, i, j - 1, id);
      SoundThroughout(c, states, events, i);
      assert id in states[i].transactions ==> TransactionOk(states[i], id);
      MovesAt(c, states, events, j - 1, id);
      MovesTransitive(states[i], states[j - 1], states[j], id);
    }
  }

  lemma MovesAt(c: Config, states: seq<State>, events: seq<Event>, i: nat, id: Id)
    requires Run(c, states, events) && i < |events|
    ensures Moves(states[i], states[i + 1], id)
  {
    SoundThroughout(c, states, events, i);
    assert id in states[i].transactions ==> TransactionOk(states[i], id);
    assert StepAt(c, states, events, i);
    MovesNext(states[i], events[i], states[i + 1], id);
  }

  lemma PlansStayAt(c: Config, states: seq<State>, events: seq<Event>, i: nat, id: Id)
    requires Run(c, states, events) && i < |events| && id in states[i].plans
    ensures id in states[i + 1].plans && states[i + 1].plans[id].core == states[i].plans[id].core
    ensures states[i].plans[id].state == CommittedPlan ==> states[i + 1].plans[id].state == CommittedPlan
  {
    SoundThroughout(c, states, events, i);
    assert StepAt(c, states, events, i);
    PlansStay(states[i], events[i], states[i + 1]);
  }

  lemma {:induction false} PlansPersist(c: Config, states: seq<State>, events: seq<Event>, i: nat, j: nat, id: Id)
    requires Run(c, states, events) && i <= j < |states| && id in states[i].plans
    ensures id in states[j].plans && states[j].plans[id].core == states[i].plans[id].core
    ensures states[i].plans[id].state == CommittedPlan ==> states[j].plans[id].state == CommittedPlan
    decreases j - i
  {
    if i < j {
      PlansPersist(c, states, events, i, j - 1, id);
      PlansStayAt(c, states, events, j - 1, id);
    }
  }

  lemma CommitAt(c: Config, states: seq<State>, events: seq<Event>, i: nat)
    requires Run(c, states, events) && i < |events| && events[i].CommitTried?
    ensures CommitEffect(states[i], events[i], states[i + 1]) && CommitReady(states[i], events[i].planId)
  {
    assert StepAt(c, states, events, i);
  }

  /** Once a plan is saved as committed it is never tried again, and once its transaction is
      too, no plan of that transaction is; not even after a restore. */
  lemma CommitsOnce(c: Config, states: seq<State>, events: seq<Event>, i: nat, j: nat)
    requires Run(c, states, events) && i < j < |events| && events[i].CommitTried? && events[j].CommitTried?
    ensures CommitReady(states[i], events[i].planId) && CommitReady(states[j], events[j].planId)
    ensures events[i].planSaved ==> events[i].planId != events[j].planId
    ensures events[i].txSaved ==>
      states[i].plans[events[i].planId].core.txId != states[j].plans[events[j].planId].core.txId
  {
    CommitAt(c, states, events, i);
    CommitAt(c, states, events, j);
    PlansPersist(c, states, events, i + 1, j, events[i].planId);
    TransactionsAdvance(c, states, events, i + 1, j, states[i].plans[events[i].planId].core.txId);
  }

  lemma PlanMadeAt(c: Config, states: seq<State>, events: seq<Event>, i: nat)
    requires Run(c, states, events) && i < |events| && events[i].PlanMade?
    ensures var core := events[i].plan.core;
      && core.planId in states[i + 1].plans && states[i + 1].plans[core.planId].core == core
      && core.createdAt == states[i + 1].now < core.expiresAt <= core.createdAt + MAX_PLAN_TTL
  {
    assert StepAt(c, states, events, i);
  }

  lemma TriedAt(c: Config, states: seq<State>, events: seq<Event>, j: nat)
    requires Run(c, states, events) && j < |events| && events[j].CommitTried?
    ensures events[j].planId in states[j].plans
    ensures var plan := states[j].plans[events[j].planId];
      plan.state == PendingPlan && events[j].freshAt < plan.core.expiresAt && plan.core.facts.verdict.decision != Deny
  {
    assert StepAt(c, states, events, j);
  }

  /** A plan made with a lifetime is never tried when that is over, nor ever if it is denied. */
  lemma ExpiredNeverTried(c: Config, states: seq<State>, events: seq<Event>, i: nat, j: nat)
    requires Run(c, states, events) && i < j < |events| && events[i].PlanMade? && events[j].CommitTried?
    requires events[j].planId == events[i].plan.core.planId
    ensures events[j].freshAt < events[i].plan.core.expiresAt <= states[i + 1].now + MAX_PLAN_TTL
    ensures events[i].plan.core.facts.verdict.decision != Deny
  {
    hide StepAt;
    PlanMadeAt(c, states, events, i);
    TriedAt(c, states, events, j);
    PlansPersist(c, states, events, i + 1, j, events[j].planId);
  }

  /** A commit that took place and saved its plan. */
  predicate Completes(e: Event, id: Id) {
    e.CommitTried? && e.planId == id && e.end == Committed && e.planSaved
  }

  /** A plan counts as committed only after a commit of it took place and saved it. */
  lemma {:induction false} CommittedByCommit(c: Config, states: seq<State>, events: seq<Event>, n: nat, id: Id)
    requires Run(c, states, events) && n <= |events|
    requires id in states[n].plans && states[n].plans[id].state == CommittedPlan
    ensures exists i :: 0 <= i < n && Completes(events[i], id)
  {
    if n == 0 {
      assert false;
    } else {
      assert StepAt(c, states, events, n - 1);
      if id in states[n - 1].plans && states[n - 1].plans[id].state == CommittedPlan {
        CommittedByCommit(c, states, events, n - 1, id);
      } else {
        BecameCommitted(states[n - 1], events[n - 1], states[n], id);
      }
    }
  }

  lemma BecameCommitted(s: State, e: Event, s': State, id: Id)
    requires Effect(s, e, s') && id in s'.plans && s'.plans[id].state == CommittedPlan
    requires !(id in s.plans && s.plans[id].state == CommittedPlan)
    ensures Completes(e, id)
  {
  }

  /** A restore is let through only after a commit of the plan behind the record took place and saved
      the plan. */
  lemma RestoresCommits(c: Config, states: seq<State>, events: seq<Event>, j: nat)
    requires Run(c, states, events) && j < |events| && events[j].RestoreTried?
    ensures events[j].commitId in states[j].commits
    ensures var r := states[j].commits[events[j].commitId];
      r.status == CommittedStatus && exists i :: 0 <= i < j && Completes(events[i], r.planId)
  {
    assert StepAt(c, states, events, j);
    CommittedByCommit(c, states, events, j, states[j].commits[events[j].commitId].planId);
  }

  // ----- who may commit what, and when

  /** The clock never runs backwards. */
  ghost predicate Forward(states: seq<State>, events: seq<Event>)
    requires |states| == |events| + 1
  {
    forall i | 0 <= i < |events| :: states[i].now <= states[i + 1].now
      && (events[i].CommitTried? ==> states[i].now <= events[i].freshAt <= events[i].tokenAt)
  }

  ghost predicate Dated(s: State) {
    && (forall id | id in s.plans :: s.plans[id].core.createdAt <= s.now)
    && (forall id | id in s.issued :: s.issued[id].createdAt <= s.now)
  }

  lemma DatedStep(s: State, e: Event, s': State)
    requires Sound(s) && Dated(s) && Effect(s, e, s') && s.now <= s'.now
    ensures Dated(s')
  {
    PlansStay(s, e, s');
  }

  lemma {:induction false} DatedThroughout(c: Config, states: seq<State>, events: seq<Event>, i: nat)
    requires Run(c, states, events) && Forward(states, events) && i < |states|
    ensures Dated(states[i])
  {
    if i > 0 {
      DatedThroughout(c, states, events, i - 1);
      DatedAt(c, states, events, i - 1);
    }
  }

  lemma DatedAt(c: Config, states: seq<State>, events: seq<Event>, i: nat)
    requires Run(c, states, events) && i < |events| && Dated(states[i]) && states[i].now <= states[i + 1].now
    ensures Dated(states[i + 1])
  {
    SoundThroughout(c, states, events, i);
    assert StepAt(c, states, events, i);
    DatedStep(states[i], events[i], states[i + 1]);
  }

  /** Nobody but the broker can sign: a token that carries the broker's signature was issued. */
  ghost predicate Unforged(c: Config, s: State, token: Option<ApprovalToken>) {
    token.Some? && token.value.signature == Mac(c.key, token.value.core) ==>
      exists id :: id in s.issued && s.issued[id] == token.value.core
  }

  /** The token in hand was issued for exactly this plan and is still alive. */
  ghost predicate TokenGiven(s: State, core: PlanCore, now: int) {
    exists id :: id in s.issued && s.issued[id].fingerprint == core
      && s.issued[id].createdAt <= now < s.issued[id].expiresAt <= core.expiresAt
      && now - s.issued[id].createdAt < MAX_APPROVAL_TTL
  }

  /** A commit of a pending plan that has not expired, and is allowed or has a token for it, that
      changed no workspace but the plan baseline, and committed no tree but the plan tree. */
  ghost predicate Permitted(c: Config, s: State, e: Event)
    requires e.CommitTried?
  {
    && e.planId in s.plans && s.plans[e.planId].core.root in s.workspaces
    && var core := s.plans[e.planId].core;
    var w := s.workspaces[core.root];
    && (Decided(core, Allow) || (Decided(core, RequireApproval) && TokenGiven(s, core, e.tokenAt)))
    && s.plans[e.planId].state == PendingPlan && core.createdAt <= e.freshAt < core.expiresAt
    && core.expiresAt - core.createdAt <= MAX_PLAN_TTL
    && (e.workspace != w ==>
          HasDigest(Visible(w, c.excluded), core.facts.baselineDigest) && core.facts.policy == s.policy)
    && (e.end == Committed ==> HasDigest(Visible(e.workspace, c.excluded), core.facts.stagedDigest))
  }

  /** Every commit that is let through belongs to a plan that is allowed outright or covered by
      an issued token for the same fingerprint, and is never denied. It is checked before the plan
      expires, which is less than an hour after planning, and with a token less than a quarter of an
      hour after approval. If it moves anything, the workspace was the plan's baseline and
      the policy the plan's policy; if it succeeds, the workspace becomes the plan's tree. */
  lemma Authorization(c: Config, states: seq<State>, events: seq<Event>, i: nat)
    requires Run(c, states, events) && Forward(states, events) && i < |events| && events[i].CommitTried?
    requires Unforged(c, states[i], events[i].token)
    ensures Permitted(c, states[i], events[i])
  {
    SoundThroughout(c, states, events, i);
    DatedThroughout(c, states, events, i);
    assert StepAt(c, states, events, i);
    Authorized(c, states[i], events[i], states[i + 1]);
  }

  lemma Authorized(c: Config, s: State, e: Event, s': State)
    requires Sound(s) && Dated(s) && Step(c, s, e, s') && e.CommitTried? && s.now <= e.freshAt <= e.tokenAt
      && Unforged(c, s, e.token)
    ensures Permitted(c, s, e)
  {
    hide TokenOk, RecordOk, TransactionOk, TreesReal;
    var plan := s.plans[e.planId];
    assert PlanOk(s, e.planId);
    if Decided(plan.core, RequireApproval) {
      TokenCovers(c, s, e.token, plan, e.tokenAt);
    }
  }

  lemma TokenCovers(c: Config, s: State, token: Option<ApprovalToken>, plan: CommitPlan, now: int)
    requires Sound(s) && Dated(s) && s.now <= now && Unforged(c, s, token)
    requires token.Some? && TokenAccepted(c.key, token.value, plan, now)
    ensures TokenGiven(s, plan.core, now)
  {
    var id :| id in s.issued && s.issued[id] == token.value.core;
    assert TokenOk(s, id);
    assert s.issued[id].fingerprint == plan.core && s.issued[id].createdAt <= now < s.issued[id].expiresAt;
  }

  // ----- what a verdict promises for the workspace

  /** The plan is what planning makes of some two trees. */
  ghost predicate PlanTrue(c: Config, core: PlanCore) {
    exists b: Tree, t: Tree :: IsTree(b) && IsTree(t) && PlanFits(core.facts, core.facts.policy, c.rules, b, t)
  }

  lemma PlanMadeTrue(c: Config, s: State, e: Event, s': State)
    requires Real(c, s) && Step(c, s, e, s') && e.PlanMade?
    ensures PlanTrue(c, e.plan.core)
  {
    var b, t := Visible(s.workspaces[e.plan.core.root], c.excluded), Visible(s.worktrees[e.plan.core.txId], c.excluded);
    VisibleIsTree(s.workspaces[e.plan.core.root], c.excluded);
    VisibleIsTree(s.worktrees[e.plan.core.txId], c.excluded);
    assert PlanFits(e.plan.core.facts, s.policy, c.rules, b, t);
  }

  lemma NewPlans(s: State, e: Event, s': State, id: Id)
    requires Effect(s, e, s') && id in s'.plans
    ensures (id in s.plans && s'.plans[id].core == s.plans[id].core) || (e.PlanMade? && e.plan == s'.plans[id])
  {
  }

  lemma PlansTrueNext(c: Config, s: State, e: Event, s': State, id: Id)
    requires Real(c, s) && Step(c, s, e, s') && id in s'.plans
    requires id in s.plans ==> PlanTrue(c, s.plans[id].core)
    ensures PlanTrue(c, s'.plans[id].core)
  {
    NewPlans(s, e, s', id);
    if e.PlanMade? { PlanMadeTrue(c, s, e, s'); }
  }

  /** Every plan ever saved is what planning made of two trees. */
  lemma {:induction false} PlansTrue(c: Config, states: seq<State>, events: seq<Event>, i: nat, id: Id)
    requires Run(c, states, events) && i < |states| && id in states[i].plans
    ensures PlanTrue(c, states[i].plans[id].core)
  {
    if i > 0 {
      if id in states[i - 1].plans { PlansTrue(c, states, events, i - 1, id); }
      PlansTrueAt(c, states, events, i - 1, id);
    }
  }

  lemma PlansTrueAt(c: Config, states: seq<State>, events: seq<Event>, i: nat, id: Id)
    requires Run(c, states, events) && i < |events| && id in states[i + 1].plans
    requires id in states[i].plans ==> PlanTrue(c, states[i].plans[id].core)
    ensures PlanTrue(c, states[i + 1].plans[id].core)
  {
    SoundThroughout(c, states, events, i);
    assert StepAt(c, states, events, i);
    PlansTrueNext(c, states[i], events[i], states[i + 1], id);
  }

  /** A commit that nobody had to approve leaves everything that was in the workspace as it was. */
  lemma AutomaticCommitKeepsAll(c: Config, states: seq<State>, events: seq<Event>, i: nat)
    requires Run(c, states, events) && i < |events| && events[i].CommitTried? && events[i].end == Committed
    ensures events[i].planId in states[i].plans && states[i].plans[events[i].planId].core.root in states[i].workspaces
    ensures var core := states[i].plans[events[i].planId].core; var w := states[i].workspaces[core.root];
      Decided(core, Allow) ==> forall x | x in w :: Look(events[i].workspace, x) == Look(w, x)
  {
    SoundThroughout(c, states, events, i);
    assert StepAt(c, states, events, i);
    CommitAt(c, states, events, i);
    PlansTrue(c, states, events, i, events[i].planId);
    AutomaticKeeps(c, states[i], events[i], states[i + 1]);
  }

  lemma AutomaticKeeps(c: Config, s: State, e: Event, s': State)
    requires Step(c, s, e, s') && e.CommitTried? && e.end == Committed && CommitReady(s, e.planId)
      && PlanTrue(c, s.plans[e.planId].core)
    ensures var core := s.plans[e.planId].core; var w := s.workspaces[core.root];
      Decided(core, Allow) ==> forall x | x in w :: Look(e.workspace, x) == Look(w, x)
  {
    var core := s.plans[e.planId].core;
    assert CommitMoves(c, s.workspaces[core.root], s.policy, core.facts, e);
    if Decided(core, Allow) {
      AllowedMoveKeeps(c, core, s.workspaces[core.root], e.workspace);
    }
  }

  lemma AllowedMoveKeeps(c: Config, core: PlanCore, w: Tree, w': Tree)
    requires PlanTrue(c, core) && Decided(core, Allow) && Hidden(w', c.excluded) == Hidden(w, c.excluded)
    requires HasDigest(Visible(w, c.excluded), core.facts.baselineDigest)
      && HasDigest(Visible(w', c.excluded), core.facts.stagedDigest)
    ensures forall x | x in w :: Look(w', x) == Look(w, x)
  {
    var b, t :| IsTree(b) && IsTree(t) && PlanFits(core.facts, core.facts.policy, c.rules, b, t);
    DigestDeterminesTree(b, Visible(w, c.excluded), core.facts.baselineDigest);
    DigestDeterminesTree(t, Visible(w', c.excluded), core.facts.stagedDigest);
    DigestedIsAcceptable(b, core.facts.baselineDigest);
    DigestedIsAcceptable(t, core.facts.stagedDigest);
    AllowIsNonDestructive(core.facts.policy, c.rules, b, t);
    KeptBeside(w, w', c.excluded);
  }

  lemma KeptBeside(w: Tree, w': Tree, excluded: set<Name>)
    requires Hidden(w', excluded) == Hidden(w, excluded)
    requires forall x | x in Visible(w, excluded) :: Look(Visible(w', excluded), x) == Look(Visible(w, excluded), x)
    ensures forall x | x in w :: Look(w', x) == Look(w, x)
  {
    forall x | x in w ensures Look(w', x) == Look(w, x) {
      if IsExcluded(x, excluded) {
        assert x in Hidden(w, excluded) && Hidden(w', excluded)[x] == w'[x];
      } else {
        assert Look(Visible(w', excluded), x) == Look(Visible(w, excluded), x);
      }
    }
  }

  // ----- commits undone in reverse order

  datatype Mark = Untouched | Pushed(id: Id) | Popped(id: Id) | Disturbed

  /** What an event means for one workspace. */
  function MarkOf(s: State, e: Event, root: Root): Mark {
    match e
    case CommitTried(planId, _, _, _, end, _, _, _, _, _) =>
      if planId !in s.plans || s.plans[planId].core.root != root || end == Refused || end == RolledBackEnd
        then Untouched
      else if end == Committed then Pushed(s.nextId) else Disturbed
    case RestoreTried(id, outcome, _, _, _) =>
      if id !in s.commits || s.commits[id].root != root || outcome == RestoreRefused then Untouched
      else if outcome == RestoreDone then Popped(id) else Disturbed
    case UserWrote(r, _) => if r == root then Disturbed else Untouched
    case _ => Untouched
  }

  /** The commits not yet restored between two points of a run; None if the workspace was
      disturbed or a restore did not undo the latest of them. */
  function Stacked(states: seq<State>, events: seq<Event>, root: Root, first: nat, last: nat): Option<seq<Id>>
    requires first <= last < |states| && |states| == |events| + 1
    decreases last
  {
    if first == last then Some([]) else
      match Stacked(states, events, root, first, last - 1)
      case None => None
      case Some(stack) => Follow(MarkOf(states[last - 1], events[last - 1], root), stack)
  }

  function Follow(mark: Mark, stack: seq<Id>): Option<seq<Id>> {
    match mark
    case Untouched => Some(stack)
    case Pushed(id) => Some(stack + [id])
    case Popped(id) => if stack != [] && stack[|stack| - 1] == id then Some(stack[..|stack| - 1]) else None
    case Disturbed => None
  }

  /** The open commits lead from tree `v` to tree `w`. */
  ghost predicate Chain(s: State, stack: seq<Id>, v: Tree, w: Tree) {
    && (forall k | 0 <= k < |stack| :: stack[k] in s.commits)
    && (forall k | 0 < k < |stack| :: s.commits[stack[k]].before == s.commits[stack[k - 1]].after)
    && (if stack == [] then w == v
        else HasDigest(v, s.commits[stack[0]].before) && HasDigest(w, s.commits[stack[|stack| - 1]].after))
  }

  /** Records keep their ends. */
  lemma EndsStayAt(s: State, e: Event, s': State, id: Id)
    requires Effect(s, e, s') && id in s.commits && RecordOk(s, id)
    ensures id in s'.commits && s'.commits[id].before == s.commits[id].before
      && s'.commits[id].after == s.commits[id].after
  {
  }

  lemma EndsStay(s: State, e: Event, s': State)
    requires Sound(s) && Effect(s, e, s')
    ensures forall id | id in s.commits ::
      id in s'.commits && s'.commits[id].before == s.commits[id].before && s'.commits[id].after == s.commits[id].after
  {
    forall id | id in s.commits
      ensures id in s'.commits && s'.commits[id].before == s.commits[id].before
        && s'.commits[id].after == s.commits[id].after
    {
      assert RecordOk(s, id);
      EndsStayAt(s, e, s', id);
    }
  }

  lemma WorkspaceUntouched(s: State, e: Event, s': State, root: Root)
    requires Effect(s, e, s') && root in s.workspaces
    ensures root in s'.workspaces && (MarkOf(s, e, root) == Untouched ==> s'.workspaces[root] == s.workspaces[root])
  {
  }

  lemma ChainStays(s: State, s': State, stack: seq<Id>, v: Tree, w: Tree)
    requires Chain(s, stack, v, w)
    requires forall id | id in s.commits ::
      id in s'.commits && s'.commits[id].before == s.commits[id].before && s'.commits[id].after == s.commits[id].after
    ensures Chain(s', stack, v, w)
  {
  }

  lemma ChainPush(s: State, stack: seq<Id>, v: Tree, w: Tree, id: Id, w': Tree)
    requires Chain(s, stack, v, w) && id in s.commits
    requires HasDigest(w, s.commits[id].before) && HasDigest(w', s.commits[id].after)
    ensures Chain(s, stack + [id], v, w')
  {
  }

  lemma ChainPop(s: State, stack: seq<Id>, v: Tree, w: Tree, w': Tree)
    requires Chain(s, stack, v, w) && stack != [] && HasDigest(w', s.commits[stack[|stack| - 1]].before)
    ensures Chain(s, stack[..|stack| - 1], v, w')
  {
    if |stack| == 1 {
      DigestDeterminesTree(w', v, s.commits[stack[0]].before);
    }
  }

  /** A commit on this workspace leads from the old tree to the new one. */
  lemma PushNext(c: Config, s: State, e: Event, s': State, root: Root, id: Id)
    requires Sound(s) && Step(c, s, e, s') && root in s.workspaces && MarkOf(s, e, root) == Pushed(id)
    ensures id in s'.commits && root in s'.workspaces
    ensures HasDigest(Visible(s.workspaces[root], c.excluded), s'.commits[id].before)
    ensures HasDigest(Visible(s'.workspaces[root], c.excluded), s'.commits[id].after)
    ensures Hidden(s'.workspaces[root], c.excluded) == Hidden(s.workspaces[root], c.excluded)
  {
    var core := s.plans[e.planId].core;
    assert CommitMoves(c, s.workspaces[core.root], s.policy, core.facts, e);
  }

  /** A restore on this workspace leads back. */
  lemma PopNext(c: Config, s: State, e: Event, s': State, root: Root, id: Id)
    requires Sound(s) && Step(c, s, e, s') && root in s.workspaces && MarkOf(s, e, root) == Popped(id)
    ensures id in s'.commits && root in s'.workspaces
    ensures HasDigest(Visible(s.workspaces[root], c.excluded), s'.commits[id].after)
    ensures HasDigest(Visible(s'.workspaces[root], c.excluded), s'.commits[id].before)
    ensures Hidden(s'.workspaces[root], c.excluded) == Hidden(s.workspaces[root], c.excluded)
  {
    assert RestoreGrounds(c, s.workspaces[s.commits[e.commitId].root], s.commits[e.commitId], e);
  }

  lemma ChainNext(c: Config, s: State, e: Event, s': State, root: Root, stack: seq<Id>, v: Tree, next: seq<Id>)
    requires Sound(s) && Step(c, s, e, s') && root in s.workspaces && root in s'.workspaces
    requires Chain(s, stack, v, Visible(s.workspaces[root], c.excluded))
    requires Follow(MarkOf(s, e, root), stack) == Some(next)
    ensures Chain(s', next, v, Visible(s'.workspaces[root], c.excluded))
    ensures Hidden(s'.workspaces[root], c.excluded) == Hidden(s.workspaces[root], c.excluded)
  {
    hide Sound, Chain, Effect, Grounds, Visible;
    EndsStay(s, e, s');
    var w, w' := Visible(s.workspaces[root], c.excluded), Visible(s'.workspaces[root], c.excluded);
    ChainStays(s, s', stack, v, w);
    WorkspaceUntouched(s, e, s', root);
    match MarkOf(s, e, root)
    case Untouched =>
    case Pushed(id) =>
      PushNext(c, s, e, s', root, id);
      ChainPush(s', stack, v, w, id, w');
    case Popped(id) =>
      PopNext(c, s, e, s', root, id);
      ChainPop(s', stack, v, w, w');
  }

  lemma ChainOn(c: Config, states: seq<State>, events: seq<Event>, root: Root, n: nat, stack: seq<Id>, v: Tree,
                next: seq<Id>)
    requires Run(c, states, events) && n < |events| && root in states[n].workspaces
    requires Chain(states[n], stack, v, Visible(states[n].workspaces[root], c.excluded))
    requires Follow(MarkOf(states[n], events[n], root), stack) == Some(next)
    ensures root in states[n + 1].workspaces
    ensures Chain(states[n + 1], next, v, Visible(states[n + 1].workspaces[root], c.excluded))
    ensures Hidden(states[n + 1].workspaces[root], c.excluded) == Hidden(states[n].workspaces[root], c.excluded)
  {
    hide Chain, Effect, Grounds, Visible, Hidden;
    SoundThroughout(c, states, events, n);
    assert StepAt(c, states, events, n);
    WorkspaceUntouched(states[n], events[n], states[n + 1], root);
    ChainNext(c, states[n], events[n], states[n + 1], root, stack, v, next);
  }

  lemma {:induction false} ChainThroughout(c: Config, states: seq<State>, events: seq<Event>, root: Root, first: nat,
                                           last: nat)
    requires Run(c, states, events) && first <= last < |states| && root in states[first].workspaces
    requires Stacked(states, events, root, first, last).Some?
    ensures root in states[last].workspaces
    ensures Chain(states[last], Stacked(states, events, root, first, last).value,
                  Visible(states[first].workspaces[root], c.excluded),
                  Visible(states[last].workspaces[root], c.excluded))
    ensures Hidden(states[last].workspaces[root], c.excluded) == Hidden(states[first].workspaces[root], c.excluded)
    decreases last
  {
    hide StepAt, Hidden, MarkOf;
    if last != first {
      ChainThroughout(c, states, events, root, first, last - 1);
      ChainOn(c, states, events, root, last - 1, Stacked(states, events, root, first, last - 1).value,
              Visible(states[first].workspaces[root], c.excluded), Stacked(states, events, root, first, last).value);
    }
  }

  /** Commits that are all restored, the latest first, leave the workspace exactly as it was. */
  lemma StackedCommitsUndo(c: Config, states: seq<State>, events: seq<Event>, root: Root, first: nat, last: nat)
    requires Run(c, states, events) && first <= last < |states| && root in states[first].workspaces
    requires Stacked(states, events, root, first, last) == Some([])
    ensures root in states[last].workspaces && states[last].workspaces[root] == states[first].workspaces[root]
  {
    ChainThroughout(c, states, events, root, first, last);
    WholeTree(states[last].workspaces[root], states[first].workspaces[root], c.excluded);
  }
}

/** The broker's API calls, any of whose own calls into the system may fail, as steps of the
    protocol. */
module Broker {
  import opened Paths
  import opened Texts
  import opened Trees
  import opened Manifests
  import opened Scans
  import opened Diffs
  import opened Layout
  import opened Undo
  import opened UndoCalls
  import opened UndoOutcome
  import opened UndoTurns
  import opened Records
  import opened Journal
  import opened RestoreSetting
  import opened Policy
  import opened Engine
  import opened Baseline
  import opened Protocol
  import opened Runs

  /** What planning makes of workspace and worktree; None where it raises. */
  method MakePlan(c: Config, policy: GuardPolicy, faults: nat -> bool, calls: nat, w: Tree, worktree: Tree,
                  baseline: Manifest)
    returns (facts: Option<PlanFacts>, calls': nat)
    requires IsTree(w) && IsTree(worktree)
    ensures calls <= calls' <= calls + 2 && (facts.Some? ==> calls' == calls + 2)
    ensures facts.Some? ==> facts.value.baselineDigest == baseline.digest
    ensures facts.Some? ==>
      PlanFits(facts.value, policy, c.rules, Visible(w, c.excluded), Visible(worktree, c.excluded))
    ensures !FaultIn(faults, calls, calls') ==>
      (facts.Some? <==>
        && Genuine(baseline) && !ScanRejects(w, c.excluded, {}, c.maxEntries, c.maxBytes)
        && HasDigest(Visible(w, c.excluded), baseline.digest)
        && !ScanRejects(worktree, c.excluded, {}, c.maxEntries, c.maxBytes))
  {
    facts, calls' := None, calls;
    var genuine := VerifyManifest(baseline);
    if !genuine { return; }
    calls' := calls + 1;
    var current := ScanAt(faults, calls, w, c.excluded, c.maxEntries, c.maxBytes);
    if current.None? || current.value.digest != baseline.digest { return; }
    calls' := calls + 2;
    var staged := ScanAt(faults, calls + 1, worktree, c.excluded, c.maxEntries, c.maxBytes);
    if staged.None? { return; }
    DigestDeterminesEntries(current.value.entries, baseline.entries);
    var changes := DiffManifests(baseline.entries, staged.value.entries);
    NamedChanges(baseline.entries, staged.value.entries);
    var verdict := Evaluate(policy, c.rules, baseline.entries, staged.value.entries, changes);
    facts := Some(PlanFacts(baseline.digest, staged.value.digest, policy, changes, verdict));
  }

  /** The quarantine is as the commit left it, and both trees can be scanned. */
  ghost predicate RestoreKept(c: Config, r: CommitRecord, w: Tree, quarantine: Tree, g: Setting, after: Disk) {
    && KeptBy(c, r, quarantine, g, after)
    && !ScanRejects(w, c.excluded, {}, c.maxEntries, c.maxBytes)
    && !ScanRejects(g.base, c.excluded, {}, c.maxEntries, c.maxBytes)
  }

  /** One commit under the lock, on values. */
  method RunCommit(c: Config, policy: GuardPolicy, faults: nat -> bool, calls: nat, agent: nat -> Tree, w: Tree,
                   facts: PlanFacts, baseline: Manifest, ghost view: Tree)
    returns (end: CommitEnd, w': Tree, quarantine: Tree, saved: Option<SavedRecord>, calls': nat, ghost marks: Marks)
    requires Genuine(baseline) && baseline.digest == facts.baselineDigest && IsTree(w) && AgentReal(agent)
    ensures calls <= marks.handler <= marks.noted <= calls' && IsTree(w')
      && Hidden(w', c.excluded) == Hidden(w, c.excluded)
    ensures StatusFits(end, saved) && (saved.Some? ==> PathsFit(saved.value.ops, c.excluded) && IsTree(quarantine))
    ensures end == Refused || end == RolledBackEnd ==> w' == w
    ensures end != Refused ==> facts.policy == policy && HasDigest(Visible(w, c.excluded), facts.baselineDigest)
    ensures end == Committed ==> HasDigest(Visible(w', c.excluded), facts.stagedDigest)
    ensures end == Committed ==> forall r: CommitRecord ::
      r.ops == saved.value.ops && r.before == facts.baselineDigest && r.after == facts.stagedDigest ==>
        Keeps(c, r, quarantine)
    ensures Failed(end) && NoClash(Roots(facts.changes), FAILED_NEW) && !FaultIn(faults, marks.handler, marks.noted) ==>
      w' == w
    ensures Failed(end) && NoClash(Roots(facts.changes), FAILED_NEW) && !FaultIn(faults, marks.handler, calls') ==>
      end == RolledBackEnd
    ensures Failed(end) ==> UndoneFor(faults, w, Roots(facts.changes), marks, end, w', saved, calls')
    ensures RecordTells(faults, marks, end, saved, calls')
    ensures Unobstructed(policy, c.rules, c.excluded, c.maxEntries, c.maxBytes, facts, w, view)
            && Calm(agent, calls, marks.handler, view) ==>
      end == Committed || FaultIn(faults, calls, marks.handler)
    ensures Roots(facts.changes) == [] ==> Timed(marks, end, calls)
  {
    var engine := new CommitEngine(Disk(w, map[], map[]), [], policy, c.rules, c.excluded, c.maxEntries, c.maxBytes,
                                   faults, calls, agent,
                                   Setting(w, map[], []));
    end, marks := engine.CommitUnderLock(facts, baseline, view);
    w', quarantine, saved, calls' := engine.disk.workspace, engine.disk.quarantine, engine.saved, engine.calls;
    if end == Committed {
      forall r: CommitRecord | r.ops == saved.value.ops && r.before == facts.baselineDigest
        && r.after == facts.stagedDigest
        ensures Keeps(c, r, quarantine)
      {
        assert KeptBy(c, r, quarantine, engine.g, engine.disk);
      }
    }
    if Failed(end) {
      assert UndoneBy(faults, engine.g, marks, end, w', engine.landed, saved, calls');
    }
  }

  /** A rollback from `marks` went as module Engine says, for a workspace that was `w`. */
  ghost predicate UndoneFor(faults: nat -> bool, w: Tree, roots: seq<Change>, marks: Marks, end: CommitEnd, w': Tree,
                            saved: Option<SavedRecord>, calls: nat) {
    exists g: Setting, landed: bool ::
      g.base == w && g.roots == roots && UndoneBy(faults, g, marks, end, w', landed, saved, calls)
  }

  /** One restore under the lock, on values. */
  method RunRestore(c: Config, policy: GuardPolicy, faults: nat -> bool, calls: nat, w: Tree, quarantine: Tree,
                    r: CommitRecord, ghost g: Setting, ghost after: Disk)
    returns (end: RestoreEnd, w': Tree, quarantine': Tree, left: CommitRecord, calls': nat)
    requires IsTree(w) && IsTree(quarantine) && PathsFit(r.ops, c.excluded) && r.status == CommittedStatus
    ensures calls' >= calls && IsTree(w') && IsTree(quarantine') && Hidden(w', c.excluded) == Hidden(w, c.excluded)
    ensures PathsFit(left.ops, c.excluded)
    ensures left == r || left == r.(ops := left.ops, status := RestoredStatus)
    ensures end == RestoreRefused ==> w' == w && quarantine' == quarantine && left == r
    ensures end == RestoreDone ==> left.status == RestoredStatus
    ensures end != RestoreRefused ==> HasDigest(Visible(w, c.excluded), r.after)
    ensures left.status == RestoredStatus ==> HasDigest(Visible(w', c.excluded), r.before)
    ensures RestoreKept(c, r, w, quarantine, g, after) && !FaultIn(faults, calls, calls') ==>
      (end == RestoreDone <==>
        HasDigest(Visible(w, c.excluded), r.after) && Returns(g, r.ops, RESTORE_CURRENT, quarantine))
  {
    var engine := new CommitEngine(Disk(w, map[], quarantine), r.ops, policy, c.rules, c.excluded, c.maxEntries,
                                   c.maxBytes, faults, calls,
                                   (n: nat) => map[], g);
    end := engine.Restore(r.before, r.after, after);
    w', quarantine', calls' := engine.disk.workspace, engine.disk.quarantine, engine.calls;
    left := match engine.saved case Some(saved) => r.(ops := saved.ops, status := saved.status) case None => r;
    PathsFitSame(left.ops, r.ops, c.excluded);
  }

  /** Whether a commit attempt left the books in disorder, as its calls decide: one of the four
      after the last journal entry failed, or the record was left claiming an undone commit. */
  ghost predicate CutOff(faults: nat -> bool, m: Marks, end: CommitEnd) {
    match end
    case Committed => m.sealed.Some? && FaultIn(faults, m.sealed.value + 2, m.sealed.value + 6)
    case Refused => false
    case _ => LeftCommitted(faults, m)
  }

  /** The plan is saved as committed by the two calls after the one that removes the apply tree. */
  ghost predicate PlanSavedBy(faults: nat -> bool, m: Marks, end: CommitEnd, planSaved: bool) {
    planSaved <==>
      end == Committed && m.sealed.Some? && !FaultIn(faults, m.sealed.value + 2, m.sealed.value + 4)
  }

  /** The commit took place, or a call failed or the agent wrote before the handler was entered. */
  ghost predicate OnlyDisturbed(faults: nat -> bool, agent: nat -> Tree, view: Tree, start: nat, m: Marks,
                                end: CommitEnd) {
    end == Committed || FaultIn(faults, start, m.handler) || !Calm(agent, start, m.handler, view)
  }

  ghost predicate CutShort(faults: nat -> bool, m: Marks, end: CommitEnd, saved: Option<SavedRecord>, txSaved: bool) {
    CutOff(faults, m, end) <==>
      if end == Committed then !txSaved else saved.Some? && saved.value.status == CommittedStatus
  }

  ghost predicate MarkedEvent(faults: nat -> bool, e: Event, m: Marks) {
    e.CommitTried? ==> (BooksKept(e) <==> !CutOff(faults, m, e.end))
  }

  ghost predicate Marked(faults: nat -> bool, events: seq<Event>, marks: seq<Marks>) {
    |marks| == |events| && forall i | 0 <= i < |events| :: MarkedEvent(faults, events[i], marks[i])
  }

  lemma MarkedExtends(faults: nat -> bool, events: seq<Event>, marks: seq<Marks>, e: Event, m: Marks)
    requires Marked(faults, events, marks) && MarkedEvent(faults, e, m)
    ensures Marked(faults, events + [e], marks + [m])
  {
  }

  ghost predicate Monotone(clock: nat -> int) {
    forall m: nat, n: nat | m <= n :: clock(m) <= clock(n)
  }

  /** What the history shows of the clock: no record is later than the next reading. */
  ghost predicate OnTime(clock: nat -> int, states: seq<State>, events: seq<Event>, ticks: nat)
    requires |states| == |events| + 1
  {
    Monotone(clock) ==> Forward(states, events) && states[|events|].now <= clock(ticks)
  }

  ghost predicate StepOnTime(clock: nat -> int, s: State, e: Event, s': State, ticks: nat) {
    Monotone(clock) ==> s.now <= s'.now <= clock(ticks) && (e.CommitTried? ==> s.now <= e.freshAt <= e.tokenAt)
  }

  lemma OnTimeExtends(clock: nat -> int, states: seq<State>, events: seq<Event>, e: Event, next: State, ticks: nat)
    requires |states| == |events| + 1 && OnTime(clock, states, events, ticks)
    requires StepOnTime(clock, states[|events|], e, next, ticks)
    ensures OnTime(clock, states + [next], events + [e], ticks)
  {
    var states', events' := states + [next], events + [e];
    forall i | 0 <= i < |events'|
      ensures Monotone(clock) ==> states'[i].now <= states'[i + 1].now
      ensures Monotone(clock) && events'[i].CommitTried? ==> states'[i].now <= events'[i].freshAt <= events'[i].tokenAt
    {
      if i < |events| {
        assert states'[i] == states[i] && states'[i + 1] == states[i + 1] && events'[i] == events[i];
      } else {
        assert states'[i] == states[|events|] && states'[i + 1] == next && events'[i] == e;
      }
    }
  }

  ghost function NoMarks(calls: nat): Marks {
    Marks(None, calls, calls, [], map[], [])
  }

  /** How the rollback of a failed commit went, seen from the saved state before it. */
  ghost predicate CommitWent(faults: nat -> bool, s: State, planId: Id, m: Marks, end: CommitEnd, w': Tree,
                             saved: Option<SavedRecord>, calls: nat)
    requires CommitReady(s, planId)
  {
    var core := s.plans[planId].core;
    Failed(end) ==>
      && UndoneFor(faults, s.workspaces[core.root], Roots(core.facts.changes), m, end, w', saved, calls)
      && (NoClash(Roots(core.facts.changes), FAILED_NEW) && !FaultIn(faults, m.handler, m.noted) ==>
        w' == s.workspaces[core.root])
      && (NoClash(Roots(core.facts.changes), FAILED_NEW) && !FaultIn(faults, m.handler, calls) ==> end == RolledBackEnd)
  }

  /** What a commit left can be restored if no names clash. */
  lemma KeptReturns(c: Config, r: CommitRecord, quarantine: Tree, g: Setting, after: Disk)
    requires KeptBy(c, r, quarantine, g, after) && NoClash(g.roots, RESTORE_CURRENT)
    ensures Returns(g, r.ops, RESTORE_CURRENT, quarantine)
  {
    var s := UndoState(after.workspace, after.quarantine, false);
    ReadyToUndo(g, r.ops, after, RESTORE_CURRENT);
    NoClashUnblocked(g, r.ops, CellsOf(r.ops), quarantine, RESTORE_CURRENT);
    UnblockedReturns(g, r.ops, CellsOf(r.ops), RESTORE_CURRENT, s);
  }

  lemma RunExtends(c: Config, states: seq<State>, events: seq<Event>, e: Event, next: State)
    requires Run(c, states, events) && Step(c, states[|events|], e, next)
    ensures Run(c, states + [next], events + [e])
  {
    var states', events' := states + [next], events + [e];
    forall i | 0 <= i < |events'| ensures StepAt(c, states', events', i) {
      if i < |events| {
        assert StepAt(c, states, events, i);
        SameStep(c, states, events, states', events', i);
      } else {
        LastStep(c, states, events, e, next);
      }
    }
  }

  lemma LastStep(c: Config, states: seq<State>, events: seq<Event>, e: Event, next: State)
    requires |states| == |events| + 1 && Step(c, states[|events|], e, next)
    ensures StepAt(c, states + [next], events + [e], |events|)
  {
    assert (states + [next])[|events|] == states[|events|] && (states + [next])[|events| + 1] == next
      && (events + [e])[|events|] == e;
  }

  lemma SameStep(c: Config, states: seq<State>, events: seq<Event>, states': seq<State>, events': seq<Event>, i: nat)
    requires i < |events| && |states| == |events| + 1 && i < |events'| && |states'| == |events'| + 1
    requires events'[i] == events[i] && states'[i] == states[i] && states'[i + 1] == states[i + 1]
    ensures StepAt(c, states, events, i) ==> StepAt(c, states', events', i)
  {
  }

  class WorkspaceGuard {
    const c: Config
    /** Whether the n-th call into the system fails, and what the n-th look at the clock shows. */
    const faults: nat -> bool
    const clock: nat -> int

    var store: State
    var calls: nat
    var ticks: nat

    /** All that happened so far. */
    ghost var states: seq<State>
    ghost var events: seq<Event>
    /** Where the decisive calls of each commit lay. */
    ghost var marks: seq<Marks>

    ghost predicate Valid()
      reads `states, `events, `store, `marks, `ticks
    {
      && Run(c, states, events) && states[|events|] == store && Marked(faults, events, marks)
      && OnTime(clock, states, events, ticks)
    }

    constructor (c: Config, faults: nat -> bool, clock: nat -> int, policy: GuardPolicy, workspaces: map<Root, Tree>)
      requires forall root | root in workspaces :: IsTree(workspaces[root])
      ensures this.c == c && this.faults == faults && this.clock == clock && calls == 0
      ensures Valid() && events == [] && store.workspaces == workspaces && store.policy == policy
    {
      this.c, this.faults, this.clock := c, faults, clock;
      var s := State(policy, map[], map[], map[], map[], map[], workspaces, map[], 0, clock(0));
      store, calls, ticks := s, 0, 1;
      states, events, marks := [s], [], [];
    }

    /** What has been saved becomes the next state of the run. */
    method Save(next: State, ghost e: Event, ghost m: Marks := NoMarks(0))
      requires Valid() && Step(c, store, e, next) && MarkedEvent(faults, e, m)
        && StepOnTime(clock, store, e, next, ticks)
      modifies `store, `states, `events, `marks
      ensures Valid() && store == next && events == old(events) + [e] && states == old(states) + [next]
        && marks == old(marks) + [m]
    {
      RunExtends(c, states, events, e, next);
      MarkedExtends(faults, events, marks, e, m);
      OnTimeExtends(clock, states, events, e, next, ticks);
      store := next;
      states, events, marks := states + [next], events + [e], marks + [m];
    }

    /** A call that raised before it saved anything. */
    method Nothing(ghost m: Marks := NoMarks(0)) returns (ghost e: Event)
      requires Valid()
      modifies `store, `states, `events, `marks
      ensures Valid() && e == Quiet && events == old(events) + [e] && states == old(states) + [store]
        && store == old(store)
      ensures marks == old(marks) + [m]
    {
      e := Quiet;
      Save(store, e, m);
    }

    method Attempt() returns (ok: bool)
      modifies `calls
      ensures ok == !faults(old(calls)) && calls == old(calls) + 1
    {
      ok := !faults(calls);
      calls := calls + 1;
    }

    /** atomic_write_json: it may raise before or after the file is in place. */
    method Write() returns (written: bool, ok: bool)
      modifies `calls
      ensures calls == old(calls) + (if faults(old(calls)) then 1 else 2)
      ensures (written <==> !faults(old(calls))) && (ok <==> !faults(old(calls)) && !faults(old(calls) + 1))
      ensures !ok ==> FaultIn(faults, old(calls), calls)
    {
      written := Attempt();
      ok := written;
      if written { ok := Attempt(); }
    }

    /** A clock that never runs backwards shows `t` at or after `earlier`, and not in the future. */
    ghost predicate Since(earlier: int, t: int)
      reads `ticks
    {
      Monotone(clock) ==> earlier <= t <= clock(ticks)
    }

    method Now() returns (t: int)
      modifies `ticks
      ensures t == clock(old(ticks)) && ticks == old(ticks) + 1
      ensures old(Valid()) ==> Valid() && Since(store.now, t)
    {
      t := clock(ticks);
      ticks := ticks + 1;
    }

    /** begin. In a workspace that stays as it is, and without a failing call, it succeeds if
        and only if the task id is acceptable, the workspace can be scanned, and the copy neither
        meets a special file nor loses an entry. */
    method Begin(root: Root, task: string, world: nat -> Tree, ghost w: Tree)
      returns (tx: Option<Transaction>, ghost e: Event)
      requires Valid() && AgentReal(world)
      modifies this
      ensures Valid() && events == old(events) + [e] && states == old(states) + [store]
      ensures old(calls) <= calls <= old(calls) + 10 && (tx.Some? ==> calls == old(calls) + 9)
      ensures tx.Some? && Calm(world, old(calls), calls, w) ==>
        HasDigest(Visible(w, c.excluded), tx.value.baselineDigest)
      ensures tx.Some? ==> e.Began? && e.tx == tx.value && tx.value.root == root
      ensures tx.Some? ==>
        Some(tx.value.task) == AcceptText(task, MAX_TASK_ID_LENGTH) && tx.value.createdAt == clock(old(ticks))
      ensures !FaultIn(faults, old(calls), calls) && Calm(world, old(calls), calls, w) ==>
        (tx.Some? <==> root in old(store).workspaces && CanBegin(c, task, w))
    {
      var name, begun := TryBegin(root, task, world, w);
      var saved, whole := false, false;
      if begun.Some? { saved, whole := SaveBegun(); }
      if !saved {
        e := Nothing();
        return None, e;
      }
      var t;
      t, e := RecordBegun(root, name, begun.value);
      tx := if whole then Some(t) else None;
    }

    /** The checks and the copy. */
    method TryBegin(root: Root, task: string, world: nat -> Tree, ghost w: Tree)
      returns (name: string, begun: Option<Begun>)
      requires AgentReal(world)
      modifies `calls
      ensures old(calls) <= calls <= old(calls) + 4 && (begun.Some? ==> calls == old(calls) + 4)
      ensures begun.Some? && Calm(world, old(calls), calls, w) ==>
        HasDigest(Visible(w, c.excluded), begun.value.baseline.digest)
      ensures begun.Some? ==> Some(name) == AcceptText(task, MAX_TASK_ID_LENGTH)
      ensures begun.Some? ==> root in store.workspaces && Genuine(begun.value.baseline) && IsTree(begun.value.worktree)
      ensures begun.Some? ==> HasDigest(Visible(begun.value.worktree, c.excluded), begun.value.baseline.digest)
      ensures !FaultIn(faults, old(calls), calls) && Calm(world, old(calls), calls, w) ==>
        (begun.Some? <==> root in store.workspaces && CanBegin(c, task, w))
    {
      name, begun := "", None;
      var accepted := AcceptText(task, MAX_TASK_ID_LENGTH);
      if accepted.Some? && root in store.workspaces {
        var n;
        begun, n := TakeBaseline(faults, calls, world, c.excluded, c.ignored, c.maxEntries, c.maxBytes, w);
        name, calls := accepted.value, n;
      }
    }

    method RecordBegun(root: Root, name: string, begun: Begun) returns (t: Transaction, ghost e: Event)
      requires Valid() && root in store.workspaces && Genuine(begun.baseline) && IsTree(begun.worktree)
      requires HasDigest(Visible(begun.worktree, c.excluded), begun.baseline.digest)
      modifies `store, `states, `events, `marks, `ticks
      ensures Valid() && e == Began(t, begun.worktree) && events == old(events) + [e] && states == old(states) + [store]
      ensures t.root == root && t.baselineDigest == begun.baseline.digest && t.task == name
        && t.createdAt == clock(old(ticks))
    {
      var now := Now();
      t := Transaction(store.nextId, name, root, begun.baseline, begun.baseline.digest, now, Open);
      e := Began(t, begun.worktree);
      Save(store.(transactions := store.transactions[t.id := t], worktrees := store.worktrees[t.id := begun.worktree],
                  nextId := store.nextId + 1, now := now), e);
    }

    /** The transaction file, the capability receipt and the audit event; a failure removes the
        transaction again, unless that fails too. */
    method SaveBegun() returns (saved: bool, whole: bool)
      modifies `calls
      ensures old(calls) <= calls <= old(calls) + 6 && (whole ==> saved && calls == old(calls) + 5)
      ensures !whole ==> FaultIn(faults, old(calls), calls)
    {
      whole := false;
      var ok;
      saved, ok := Write();
      if ok { var receipt; receipt, ok := Write(); }
      if ok {
        whole := Attempt();
      } else if saved {
        var removed := Attempt();
        if removed { saved := false; } else { saved := Attempt(); }
      }
    }

    /** With a clock that never runs backwards and tokens that nobody can forge, every commit that
        got past the checks was permitted. */
    lemma CommitsPermitted()
      requires Valid() && Monotone(clock)
      requires forall i | 0 <= i < |events| && events[i].CommitTried? :: Unforged(c, states[i], events[i].token)
      ensures Forward(states, events)
      ensures forall i | 0 <= i < |events| && events[i].CommitTried? :: Permitted(c, states[i], events[i])
    {
      forall i | 0 <= i < |events| && events[i].CommitTried? ensures Permitted(c, states[i], events[i]) {
        Authorization(c, states, events, i);
      }
    }

    /** The books stay in order from the first call to the last exactly if no commit was cut off. */
    lemma BooksDecided()
      requires Valid()
      ensures (forall i | 0 <= i < |states| :: Books(states[i])) <==>
        forall i | 0 <= i < |events| && events[i].CommitTried? :: !CutOff(faults, marks[i], events[i].end)
    {
      BooksThroughout(c, states, events, |events|);
      assert forall i | 0 <= i < |events| :: MarkedEvent(faults, events[i], marks[i]);
    }

    /** A commit that finds the books in order leaves them so exactly if it was not cut off. */
    lemma BooksAfterCommit()
      requires Valid() && |events| > 0 && events[|events| - 1].CommitTried? && Books(states[|events| - 1])
      ensures Books(store) <==> !CutOff(faults, marks[|events| - 1], events[|events| - 1].end)
    {
      BooksStep(c, states, events, |events| - 1);
      assert MarkedEvent(faults, events[|events| - 1], marks[|events| - 1]);
    }

    lemma StoreIsSound()
      requires Valid()
      ensures Sound(store) && Real(c, store)
    {
      SoundThroughout(c, states, events, |events|);
    }

    // ----- plan and approve

    /** plan. Without a failing call it succeeds if and only if the lifetime is in range, the
        transaction is open or planned, the workspace still has the baseline manifest, and the
        worktree can be scanned. */
    method Plan(txId: Id, ttl: int) returns (plan: Option<CommitPlan>, ghost e: Event)
      requires Valid()
      modifies this
      ensures Valid() && events == old(events) + [e] && states == old(states) + [store]
      ensures old(calls) <= calls <= old(calls) + 7 && (plan.Some? ==> calls == old(calls) + 7)
      ensures plan.Some? ==> e == PlanMade(plan.value, true) && txId in old(store).transactions
      ensures plan.Some? ==>
        var tx, core := old(store).transactions[txId], plan.value.core;
        && core.txId == txId && core.task == tx.task && core.root == tx.root && plan.value.state == PendingPlan
        && core.createdAt == clock(old(ticks)) && core.expiresAt == clock(old(ticks)) + ttl
      ensures !FaultIn(faults, old(calls), calls) ==> (plan.Some? <==> CanPlan(c, old(store), txId, ttl))
    {
      hide Run, Marked, OnTime, PlanFits, HasDigest, CanPlan, PlanGrounds;
      var facts := Survey(txId, ttl);
      var planned, marked, whole := false, false, false;
      if facts.Some? { planned, marked, whole := WriteBoth(); }
      if !planned {
        e := Nothing();
        return None, e;
      }
      PlanIsStep(c, store, txId, ttl, facts.value, marked, clock(ticks));
      var p;
      p, e := RecordPlan(txId, ttl, facts.value, marked);
      plan := if whole then Some(p) else None;
    }

    /** Two files in turn and the audit event. */
    method WriteBoth() returns (first: bool, second: bool, whole: bool)
      modifies `calls
      ensures old(calls) <= calls <= old(calls) + 5 && (whole ==> second && calls == old(calls) + 5)
      ensures first <==> !faults(old(calls))
      ensures second <==> !FaultIn(faults, old(calls), old(calls) + 3)
      ensures !whole ==> FaultIn(faults, old(calls), calls)
    {
      second, whole := false, false;
      var ok;
      first, ok := Write();
      if ok {
        second, ok := Write();
        if ok { whole := Attempt(); }
      }
    }

    lemma PlanTrees(txId: Id)
      requires Valid() && PlanReady(store, txId)
      ensures var tx := store.transactions[txId];
        IsTree(store.workspaces[tx.root]) && IsTree(store.worktrees[txId]) && tx.baselineDigest == tx.baseline.digest
          && Genuine(tx.baseline)
    {
      StoreIsSound();
      assert TransactionOk(store, txId);
    }

    /** The checks, the scans, and the verdict. */
    method Survey(txId: Id, ttl: int) returns (facts: Option<PlanFacts>)
      requires Valid()
      modifies `calls
      ensures old(calls) <= calls <= old(calls) + 2 && (facts.Some? ==> calls == old(calls) + 2)
      ensures facts.Some? ==>
        PlanReady(store, txId) && 1 <= ttl <= MAX_PLAN_TTL && PlanGrounds(c, store, txId, facts.value)
      ensures !FaultIn(faults, old(calls), calls) ==> (facts.Some? <==> CanPlan(c, store, txId, ttl))
    {
      hide Run, Marked, OnTime;
      facts := None;
      if 1 <= ttl <= MAX_PLAN_TTL && PlanReady(store, txId) {
        PlanTrees(txId);
        var tx := store.transactions[txId];
        facts, calls :=
          MakePlan(c, store.policy, faults, calls, store.workspaces[tx.root], store.worktrees[txId], tx.baseline);
      }
    }

    /** At this moment the plan is a step of the protocol. */
    ghost predicate MayRecord(txId: Id, ttl: int, facts: PlanFacts, marked: bool)
      requires txId in store.transactions
      reads `store, `ticks
    {
      var p := NewPlan(store, txId, ttl, facts, clock(ticks));
      Step(c, store, PlanMade(p, marked), AfterPlan(store, txId, p, marked, clock(ticks)))
    }

    method RecordPlan(txId: Id, ttl: int, facts: PlanFacts, marked: bool) returns (p: CommitPlan, ghost e: Event)
      requires Valid() && txId in store.transactions && MayRecord(txId, ttl, facts, marked)
      modifies `store, `states, `events, `marks, `ticks
      ensures Valid() && e == PlanMade(p, marked) && events == old(events) + [e] && states == old(states) + [store]
      ensures var tx := old(store).transactions[txId];
        && p.core.txId == txId && p.core.task == tx.task && p.core.root == tx.root && p.state == PendingPlan
        && p.core.createdAt == clock(old(ticks)) && p.core.expiresAt == clock(old(ticks)) + ttl
    {
      var now := Now();
      p := NewPlan(store, txId, ttl, facts, now);
      e := PlanMade(p, marked);
      Save(AfterPlan(store, txId, p, marked, now), e);
    }

    /** approve. Without a failing call it succeeds if and only if the actor is acceptable, the
        lifetime in range, and the plan pending, alive and not denied. */
    method Approve(planId: Id, actor: string, ttl: int) returns (token: Option<ApprovalToken>, ghost e: Event)
      requires Valid()
      modifies this
      ensures Valid() && calls >= old(calls) && events == old(events) + [e] && states == old(states) + [store]
      ensures token.Some? ==>
        e == Approved(token.value.core, clock(old(ticks))) && token.value.signature == Mac(c.key, token.value.core)
      ensures token.Some? ==>
        && token.value.core.planId == planId && GrantedFor(token.value.core, actor, ttl, clock(old(ticks) + 1))
        && planId in old(store).plans && token.value.core.fingerprint == old(store).plans[planId].core
      ensures !FaultIn(faults, old(calls), calls) ==>
        (token.Some? <==> CanApprove(old(store), planId, actor, ttl, clock(old(ticks))))
    {
      var freshAt := Now();
      var granted, whole := false, false;
      if CanApprove(store, planId, actor, ttl, freshAt) { granted, whole := WriteToken(); }
      if !granted {
        e := Nothing();
        return None, e;
      }
      var core;
      core, e := RecordToken(planId, actor, ttl, freshAt);
      token := if whole then Some(ApprovalToken(core, Mac(c.key, core))) else None;
    }

    /** The token file and the audit event. */
    method WriteToken() returns (granted: bool, whole: bool)
      modifies `calls
      ensures calls >= old(calls) && (whole ==> granted) && (!whole ==> FaultIn(faults, old(calls), calls))
    {
      granted, whole := Write();
      if whole { whole := Attempt(); }
    }

    method RecordToken(planId: Id, actor: string, ttl: int, freshAt: int) returns (core: TokenCore, ghost e: Event)
      requires Valid() && CanApprove(store, planId, actor, ttl, freshAt)
      modifies `store, `states, `events, `marks, `ticks
      ensures Valid() && e == Approved(core, freshAt) && events == old(events) + [e] && states == old(states) + [store]
        && core.planId == planId
      ensures GrantedFor(core, actor, ttl, clock(old(ticks))) && core.fingerprint == old(store).plans[planId].core
    {
      var now := Now();
      var plan := store.plans[planId].core;
      var name := AcceptText(actor, MAX_ACTOR_LENGTH).value;
      var expiresAt := if plan.expiresAt < now + ttl then plan.expiresAt else now + ttl;
      core := TokenCore(store.nextId, planId, plan, name, now, expiresAt);
      e := Approved(core, freshAt);
      Save(store.(issued := store.issued[core.tokenId := core], nextId := store.nextId + 1, now := now), e);
    }

    // ----- commit and restore

    /** What commit checks before the lock: plan, token, transaction and stored baseline. */
    method Authorize(planId: Id, token: Option<ApprovalToken>) returns (ok: bool, freshAt: int, tokenAt: int)
      modifies `ticks
      ensures old(Valid()) ==> Valid() && Since(store.now, freshAt) && Since(freshAt, tokenAt)
      ensures ok ==> ChecksPass(c, store, planId, token, freshAt, tokenAt)
      ensures ok <==> ChecksPass(c, store, planId, token, clock(old(ticks)), clock(old(ticks) + 1))
      ensures freshAt == clock(old(ticks))
    {
      hide Run, Marked;
      ok := false;
      freshAt := Now();
      tokenAt := freshAt;
      if planId !in store.plans { return; }
      var plan := store.plans[planId];
      if plan.state != PendingPlan || freshAt >= plan.core.expiresAt || Decided(plan.core, Deny) { return; }
      if Decided(plan.core, RequireApproval) {
        tokenAt := Now();
        if token.None? || !TokenAccepted(c.key, token.value, plan, tokenAt) { return; }
      }
      if CommitReady(store, planId) {
        ok := VerifyManifest(store.transactions[plan.core.txId].baseline);
      }
    }

    /** commit. It is tried exactly if it is authorized and the lock can be taken. The workspace
        of the plan then becomes the approved tree or stays as it is, unless a call of the
        handler's undo loop fails or names clash. When no call fails, and the worktree is
        left alone, a plan without obstruction is committed. The books stay in order exactly if
        the calls between the last journal entry and the end of the call went well, or, when the
        commit failed, unless the record was left claiming it. */
    method Commit(planId: Id, token: Option<ApprovalToken>, agent: nat -> Tree, ghost view: Tree)
      returns (done: bool, ghost e: Event, ghost m: Marks)
      requires Valid() && AgentReal(agent)
      modifies this
      ensures Valid() && calls >= old(calls) && events == old(events) + [e] && states == old(states) + [store]
        && marks == old(marks) + [m]
      ensures e == Quiet
        || (e.CommitTried? && e.planId == planId && e.token == token && old(calls) < m.handler <= m.noted <= calls)
      ensures e.CommitTried? <==>
        old(ChecksPass(c, store, planId, token, clock(ticks), clock(ticks + 1))) && !faults(old(calls))
      ensures e.CommitTried? ==> Fresh(old(store), planId, clock(old(ticks))) && e.freshAt == clock(old(ticks))
      ensures e == Quiet ==> store == old(store)
      ensures e.CommitTried? ==>
        CommitReady(old(store), planId)
        && CommitWent(faults, old(store), planId, m, e.end, e.workspace, SavedAs(e.record), calls)
      ensures e.CommitTried? ==>
        (BooksKept(e) <==> !CutOff(faults, m, e.end)) && PlanSavedBy(faults, m, e.end, e.planSaved)
      ensures e.CommitTried? && e.end == Committed ==> m.sealed.Some? && SealHolds(faults, m.sealed.value)
      ensures done ==> e.CommitTried? && e.end == Committed && BooksKept(e)
      ensures !done && e.CommitTried? && e.end == Committed ==> FaultIn(faults, old(calls) + 1, calls)
      ensures e.CommitTried? && old(PlanUnobstructed(c, store, planId, view)) ==>
        OnlyDisturbed(faults, agent, view, old(calls) + 1, m, e.end)
      ensures e.CommitTried? && Roots(old(store).plans[planId].core.facts.changes) == [] ==>
        Timed(m, e.end, old(calls) + 1)
    {
      hide Run, Marked, OnTime, CommitWent, PlanUnobstructed, OnlyDisturbed, CutOff, ChecksPass, Fresh;
      m := NoMarks(calls);
      var ok, freshAt, tokenAt := Admit(planId, token);
      if ok {
        done, e, m := CommitLocked(planId, token, freshAt, tokenAt, agent, view);
      } else {
        e := Nothing(m);
        done := false;
      }
    }

    /** The checks, and the lock. */
    method Admit(planId: Id, token: Option<ApprovalToken>) returns (ok: bool, freshAt: int, tokenAt: int)
      modifies `ticks, `calls
      ensures old(Valid()) ==> Valid() && Since(store.now, freshAt) && Since(freshAt, tokenAt)
      ensures ok <==>
        ChecksPass(c, store, planId, token, clock(old(ticks)), clock(old(ticks) + 1)) && !faults(old(calls))
      ensures ok ==> ChecksPass(c, store, planId, token, freshAt, tokenAt) && calls == old(calls) + 1
      ensures calls >= old(calls)
      ensures ok ==> CommitReady(store, planId) && Fresh(store, planId, freshAt) && freshAt == clock(old(ticks))
    {
      ok, freshAt, tokenAt := Authorize(planId, token);
      if ok { ok := Attempt(); }
    }

    method CommitLocked(planId: Id, token: Option<ApprovalToken>, freshAt: int, tokenAt: int, agent: nat -> Tree,
                        ghost view: Tree)
      returns (done: bool, ghost e: Event, ghost m: Marks)
      requires Valid() && AgentReal(agent) && ChecksPass(c, store, planId, token, freshAt, tokenAt)
      requires Since(store.now, freshAt) && Since(freshAt, tokenAt)
      modifies this
      ensures Valid() && events == old(events) + [e] && states == old(states) + [store] && marks == old(marks) + [m]
      ensures old(calls) <= m.handler <= m.noted <= calls && e.CommitTried? && e.planId == planId && e.token == token
      ensures CommitWent(faults, old(store), planId, m, e.end, e.workspace, SavedAs(e.record), calls)
      ensures (BooksKept(e) <==> !CutOff(faults, m, e.end)) && PlanSavedBy(faults, m, e.end, e.planSaved)
      ensures e.freshAt == freshAt && e.tokenAt == tokenAt
      ensures e.end == Committed ==> m.sealed.Some? && SealHolds(faults, m.sealed.value)
      ensures done ==> e.end == Committed && BooksKept(e)
      ensures !done && e.end == Committed ==> FaultIn(faults, old(calls), calls)
      ensures old(PlanUnobstructed(c, store, planId, view)) ==> OnlyDisturbed(faults, agent, view, old(calls), m, e.end)
      ensures Roots(old(store).plans[planId].core.facts.changes) == [] ==> Timed(m, e.end, old(calls))
    {
      hide Run, Marked, OnTime, CommitResult, CommitWent, PlanUnobstructed, OnlyDisturbed;
      var end, w, q, saved, planSaved, txSaved;
      end, w, q, saved, planSaved, txSaved, done, m := RunPlan(planId, agent, view);
      e := RecordCommit(planId, token, freshAt, tokenAt, end, w, q, saved, planSaved, txSaved, m);
    }

    /** The commit itself, and what is saved when it is done. */
    method RunPlan(planId: Id, agent: nat -> Tree, ghost view: Tree)
      returns (end: CommitEnd, w: Tree, q: Tree, saved: Option<SavedRecord>, planSaved: bool, txSaved: bool, done: bool,
        ghost m: Marks)
      requires Valid() && AgentReal(agent) && CommitReady(store, planId)
        && Genuine(store.transactions[store.plans[planId].core.txId].baseline)
      modifies `calls
      ensures old(calls) <= m.handler <= m.noted <= calls
      ensures CommitResult(c, store, planId, end, w, q, saved) && (planSaved ==> end == Committed)
        && (txSaved ==> planSaved)
      ensures CutShort(faults, m, end, saved, txSaved) && PlanSavedBy(faults, m, end, planSaved)
      ensures end == Committed ==> m.sealed.Some? && SealHolds(faults, m.sealed.value)
      ensures CommitWent(faults, store, planId, m, end, w, saved, calls)
      ensures done ==> end == Committed && txSaved
      ensures !done && end == Committed ==> FaultIn(faults, old(calls), calls)
      ensures PlanUnobstructed(c, store, planId, view) ==> OnlyDisturbed(faults, agent, view, old(calls), m, end)
      ensures Roots(store.plans[planId].core.facts.changes) == [] ==> Timed(m, end, old(calls))
    {
      end, w, q, saved, m := RunUnderLock(planId, agent, view);
      planSaved, txSaved, done := false, false, false;
      if end == Committed { planSaved, txSaved, done := Settle(); }
    }

    method RunUnderLock(planId: Id, agent: nat -> Tree, ghost view: Tree)
      returns (end: CommitEnd, w: Tree, q: Tree, saved: Option<SavedRecord>, ghost m: Marks)
      requires Valid() && AgentReal(agent) && CommitReady(store, planId)
        && Genuine(store.transactions[store.plans[planId].core.txId].baseline)
      modifies `calls
      ensures old(calls) <= m.handler <= m.noted <= calls
      ensures CommitResult(c, store, planId, end, w, q, saved) && RecordTells(faults, m, end, saved, calls)
      ensures CommitWent(faults, store, planId, m, end, w, saved, calls)
      ensures PlanUnobstructed(c, store, planId, view) ==> OnlyDisturbed(faults, agent, view, old(calls), m, end)
      ensures Roots(store.plans[planId].core.facts.changes) == [] ==> Timed(m, end, old(calls))
    {
      hide Run, Marked, OnTime, Genuine, HasDigest, IsTree, Unobstructed, Hidden, ScanRejects;
      CommitTree(planId);
      var core := store.plans[planId].core;
      var baseline := store.transactions[core.txId].baseline;
      end, w, q, saved, calls, m :=
        RunCommit(c, store.policy, faults, calls, agent, store.workspaces[core.root], core.facts, baseline, view);
    }

    lemma CommitTree(planId: Id)
      requires Valid() && CommitReady(store, planId)
      ensures var core := store.plans[planId].core;
        IsTree(store.workspaces[core.root])
          && store.transactions[core.txId].baseline.digest == core.facts.baselineDigest
    {
      StoreIsSound();
      assert TransactionOk(store, store.plans[planId].core.txId);
    }

    /** After the last journal entry: the apply tree removed, plan and transaction saved, the
        event audited. The first four calls decide whether plan and transaction are saved. */
    method Settle() returns (planSaved: bool, txSaved: bool, whole: bool)
      modifies `calls
      ensures calls >= old(calls) && (whole ==> txSaved) && (txSaved ==> planSaved)
      ensures planSaved <==> !FaultIn(faults, old(calls), old(calls) + 2)
      ensures txSaved <==> !FaultIn(faults, old(calls), old(calls) + 4)
      ensures !whole ==> FaultIn(faults, old(calls), calls)
    {
      planSaved, txSaved := false, false;
      whole := Attempt();
      if whole { planSaved, txSaved, whole := WriteBoth(); }
    }

    method RecordCommit(planId: Id, token: Option<ApprovalToken>, freshAt: int, tokenAt: int, end: CommitEnd, w: Tree,
                        q: Tree, saved: Option<SavedRecord>, planSaved: bool, txSaved: bool, ghost m: Marks)
      returns (ghost e: Event)
      requires Valid() && ChecksPass(c, store, planId, token, freshAt, tokenAt)
      requires Since(store.now, freshAt) && Since(freshAt, tokenAt)
      requires CommitResult(c, store, planId, end, w, q, saved) && (planSaved ==> end == Committed)
        && (txSaved ==> planSaved)
      requires CutShort(faults, m, end, saved, txSaved)
      modifies `store, `states, `events, `marks, `ticks
      ensures Valid() && events == old(events) + [e] && states == old(states) + [store] && marks == old(marks) + [m]
      ensures e.CommitTried? && e.planId == planId && e.token == token && e.workspace == w
      ensures e.freshAt == freshAt && e.tokenAt == tokenAt
      ensures SavedAs(e.record) == saved
      ensures e.end == end && e.planSaved == planSaved && e.txSaved == txSaved
        && (BooksKept(e) <==> !CutOff(faults, m, end))
    {
      hide Run, Marked, OnTime, Step, CommitResult, HasDigest, TokenAccepted, Genuine;
      var now := Now();
      var core := store.plans[planId].core;
      var record := RecordFrom(planId, core, now, saved);
      e := CommitTried(planId, token, freshAt, tokenAt, end, record, w, q, planSaved, txSaved);
      CommitIsStep(c, store, e, saved, now);
      Save(AfterCommit(store, planId, record, w, q, planSaved, txSaved, now), e, m);
    }

    /** restore. Refused without a trace unless record, plan and workspace are in the committed
        state; with a quarantine as the commit left it and no failing call, it succeeds exactly if
        the workspace still has the committed manifest and the undo returns. */
    method Restore(commitId: Id, ghost g: Setting, ghost after: Disk) returns (done: bool, ghost e: Event)
      requires Valid()
      modifies this
      ensures Valid() && calls >= old(calls) && events == old(events) + [e] && states == old(states) + [store]
      ensures (e == Quiet && store == old(store)) || (e.RestoreTried? && e.commitId == commitId)
      ensures e.RestoreTried? <==> RestoreReady(old(store), commitId) && !faults(old(calls))
      ensures e.RestoreTried? ==>
        && commitId in old(store).commits && old(store).commits[commitId].status == CommittedStatus
        && var planId := old(store).commits[commitId].planId;
        planId in old(store).plans && old(store).plans[planId].state == CommittedPlan
      ensures done ==> e.RestoreTried? && e.outcome == RestoreDone
      ensures !FaultIn(faults, old(calls), calls) && old(KeptToRestore(c, store, commitId, g, after)) ==>
        (done <==> old(CanRestore(c, store, commitId, g)))
    {
      var ok := RestoreReady(store, commitId);
      if ok { ok := Attempt(); }
      if !ok {
        e := Nothing();
        return false, e;
      }
      done, e := RestoreLocked(commitId, g, after);
    }

    method RestoreLocked(commitId: Id, ghost g: Setting, ghost after: Disk) returns (done: bool, ghost e: Event)
      requires Valid() && RestoreReady(store, commitId)
      modifies this
      ensures Valid() && calls >= old(calls) && events == old(events) + [e] && states == old(states) + [store]
      ensures e.RestoreTried? && e.commitId == commitId
      ensures done ==> e.outcome == RestoreDone
      ensures !FaultIn(faults, old(calls), calls) && old(KeptToRestore(c, store, commitId, g, after)) ==>
        (done <==> old(CanRestore(c, store, commitId, g)))
    {
      hide Run, Marked, OnTime, Returns, HasDigest, PlanOk, TokenOk;
      StoreIsSound();
      var r := store.commits[commitId];
      var end, w, q, left, n :=
        RunRestore(c, store.policy, faults, calls, store.workspaces[r.root], store.quarantines[commitId], r, g, after);
      calls := n;
      e := RecordRestore(commitId, end, left, w, q);
      done := end == RestoreDone;
    }

    method RecordRestore(commitId: Id, end: RestoreEnd, left: CommitRecord, w: Tree, q: Tree) returns (ghost e: Event)
      requires Valid() && RestoreReady(store, commitId) && RestoreResult(c, store, commitId, end, left, w, q)
      modifies `store, `states, `events, `marks, `ticks
      ensures Valid() && events == old(events) + [e] && states == old(states) + [store]
      ensures e == RestoreTried(commitId, end, left, w, q)
    {
      hide Run, Marked, OnTime, Step;
      var now := Now();
      e := RestoreTried(commitId, end, left, w, q);
      RestoreIsStep(c, store, e, now);
      Save(AfterRestore(store, commitId, left, w, q, now), e);
    }

    // ----- discard, and what others do

    /** discard. Without a failing call it succeeds if and only if there is such a transaction and
        it is not committed; the transaction is then gone. */
    method Discard(txId: Id) returns (done: bool, ghost e: Event)
      requires Valid()
      modifies this
      ensures Valid() && calls >= old(calls) && events == old(events) + [e] && states == old(states) + [store]
      ensures done ==> e == DiscardTried(txId, true) && txId !in store.transactions
      ensures !FaultIn(faults, old(calls), calls) ==>
        (done <==> txId in old(store).transactions && old(store).transactions[txId].state != CommittedState)
    {
      var saved, removed := false, false;
      done := false;
      if txId in store.transactions && store.transactions[txId].state != CommittedState {
        saved, removed, done := DiscardFiles();
      }
      if !saved {
        e := Nothing();
        return;
      }
      e := RecordDiscard(txId, removed);
    }

    /** The transaction file, the audit event, and the removal, which may fail after the file is
        already gone. */
    method DiscardFiles() returns (saved: bool, removed: bool, whole: bool)
      modifies `calls
      ensures calls >= old(calls) && (whole ==> removed) && (removed ==> saved)
      ensures !whole ==> FaultIn(faults, old(calls), calls)
    {
      removed := false;
      saved, whole := Write();
      if whole { whole := Attempt(); }
      if whole {
        whole := Attempt();
        removed := whole;
        if !whole { removed := Attempt(); }
      }
    }

    method RecordDiscard(txId: Id, removed: bool) returns (ghost e: Event)
      requires Valid() && txId in store.transactions && store.transactions[txId].state != CommittedState
      modifies `store, `states, `events, `marks, `ticks
      ensures Valid() && e == DiscardTried(txId, removed) && events == old(events) + [e]
        && states == old(states) + [store]
      ensures removed ==> txId !in store.transactions
    {
      hide Run, Marked;
      var now := Now();
      e := DiscardTried(txId, removed);
      Save(store.(transactions := if removed then store.transactions - {txId}
                                  else store.transactions[txId := store.transactions[txId].(state := Discarded)],
                  worktrees := if removed then store.worktrees - {txId} else store.worktrees, now := now), e);
    }

    /** The agent leaves another tree in its worktree. */
    method AgentWrites(txId: Id, t: Tree)
      requires Valid() && txId in store.worktrees && IsTree(t)
      modifies `store, `states, `events, `marks
      ensures Valid() && store == old(store).(worktrees := old(store).worktrees[txId := t])
        && states == old(states) + [store]
    {
      Save(store.(worktrees := store.worktrees[txId := t]), AgentWrote(txId, t));
    }

    /** Somebody else works in the workspace. */
    method UserWrites(root: Root, t: Tree)
      requires Valid() && root in store.workspaces && IsTree(t)
      modifies `store, `states, `events, `marks
      ensures Valid() && store == old(store).(workspaces := old(store).workspaces[root := t])
        && states == old(states) + [store]
    {
      Save(store.(workspaces := store.workspaces[root := t]), UserWrote(root, t));
    }

    /** The broker is restarted with another policy. */
    method ChangePolicy(policy: GuardPolicy)
      requires Valid()
      modifies `store, `states, `events, `marks
      ensures Valid() && store == old(store).(policy := policy) && states == old(states) + [store]
    {
      Save(store.(policy := policy), PolicyChanged(policy));
    }
  }

  /** What begin asks of task id and workspace. */
  ghost predicate CanBegin(c: Config, task: string, w: Tree) {
    && AcceptText(task, MAX_TASK_ID_LENGTH).Some? && !ScanRejects(w, c.excluded, {}, c.maxEntries, c.maxBytes)
    && NoSpecial(w, c.ignored) && !LosesEntries(w, c.excluded, c.ignored)
  }

  /** What plan finds in the saved records. */
  predicate PlanReady(s: State, txId: Id) {
    && txId in s.transactions && txId in s.worktrees && s.transactions[txId].root in s.workspaces
    && (s.transactions[txId].state == Open || s.transactions[txId].state == PlannedState)
  }

  ghost predicate PlanGrounds(c: Config, s: State, txId: Id, facts: PlanFacts)
    requires PlanReady(s, txId)
  {
    var tx := s.transactions[txId];
    && facts.baselineDigest == tx.baselineDigest
    && PlanFits(facts, s.policy, c.rules, Visible(s.workspaces[tx.root], c.excluded),
                Visible(s.worktrees[txId], c.excluded))
  }

  function AfterPlan(s: State, txId: Id, p: CommitPlan, marked: bool, now: int): State
    requires txId in s.transactions
  {
    s.(plans := s.plans[p.core.planId := p],
       transactions := if marked then s.transactions[txId := s.transactions[txId].(state := PlannedState)]
         else s.transactions,
       nextId := s.nextId + 1, now := now)
  }

  function NewPlan(s: State, txId: Id, ttl: int, facts: PlanFacts, now: int): CommitPlan
    requires txId in s.transactions
  {
    var tx := s.transactions[txId];
    CommitPlan(PlanCore(s.nextId, txId, tx.task, tx.root, facts, now, now + ttl), PendingPlan)
  }

  lemma PlanHasEffect(s: State, txId: Id, ttl: int, facts: PlanFacts, marked: bool, now: int)
    requires PlanReady(s, txId) && 1 <= ttl <= MAX_PLAN_TTL
      && facts.baselineDigest == s.transactions[txId].baselineDigest
    ensures var p := NewPlan(s, txId, ttl, facts, now);
      PlanEffect(s, PlanMade(p, marked), AfterPlan(s, txId, p, marked, now))
  {
  }

  lemma PlanIsStep(c: Config, s: State, txId: Id, ttl: int, facts: PlanFacts, marked: bool, now: int)
    requires PlanReady(s, txId) && 1 <= ttl <= MAX_PLAN_TTL && PlanGrounds(c, s, txId, facts)
    ensures var p := NewPlan(s, txId, ttl, facts, now);
      Step(c, s, PlanMade(p, marked), AfterPlan(s, txId, p, marked, now))
  {
    PlanHasEffect(s, txId, ttl, facts, marked, now);
    var p := NewPlan(s, txId, ttl, facts, now);
    assert Grounds(c, s, PlanMade(p, marked));
  }

  ghost predicate CanPlan(c: Config, s: State, txId: Id, ttl: int) {
    && 1 <= ttl <= MAX_PLAN_TTL && PlanReady(s, txId)
    && var w, t := s.workspaces[s.transactions[txId].root], s.worktrees[txId];
    && HasDigest(Visible(w, c.excluded), s.transactions[txId].baselineDigest)
    && !ScanRejects(w, c.excluded, {}, c.maxEntries, c.maxBytes)
    && !ScanRejects(t, c.excluded, {}, c.maxEntries, c.maxBytes)
  }

  /** The token is in the accepted name of the actor and lives `ttl` seconds from now, or as
      long as its plan if that is shorter. */
  predicate GrantedFor(core: TokenCore, actor: string, ttl: int, now: int) {
    && Some(core.actor) == AcceptText(actor, MAX_ACTOR_LENGTH) && core.createdAt == now
    && core.expiresAt <= now + ttl && core.expiresAt <= core.fingerprint.expiresAt
    && (core.expiresAt == now + ttl || core.expiresAt == core.fingerprint.expiresAt)
  }

  predicate CanApprove(s: State, planId: Id, actor: string, ttl: int, now: int) {
    && AcceptText(actor, MAX_ACTOR_LENGTH).Some? && 1 <= ttl <= MAX_APPROVAL_TTL
    && planId in s.plans && s.plans[planId].state == PendingPlan
    && now < s.plans[planId].core.expiresAt && !Decided(s.plans[planId].core, Deny)
  }

  /** What commit checks before the lock. */
  ghost predicate ChecksPass(c: Config, s: State, planId: Id, token: Option<ApprovalToken>, freshAt: int,
                             tokenAt: int) {
    && CommitReady(s, planId) && CommitAllowed(c.key, s.plans[planId], token, freshAt, tokenAt)
    && Genuine(s.transactions[s.plans[planId].core.txId].baseline)
  }

  /** At `t` the plan is pending, has not expired, and is not denied. */
  predicate Fresh(s: State, planId: Id, t: int) {
    && planId in s.plans && s.plans[planId].state == PendingPlan && t < s.plans[planId].core.expiresAt
    && s.plans[planId].core.facts.verdict.decision != Deny
  }

  /** Only a failing call or the agent can keep this plan from being committed. */
  ghost predicate PlanUnobstructed(c: Config, s: State, planId: Id, view: Tree) {
    CommitReady(s, planId) && Unobstructed(s.policy, c.rules, c.excluded, c.maxEntries, c.maxBytes,
                                           s.plans[planId].core.facts, s.workspaces[s.plans[planId].core.root], view)
  }

  function RecordFrom(planId: Id, core: PlanCore, now: int, saved: Option<SavedRecord>): Option<CommitRecord> {
    match saved
    case None => None
    case Some(s) => Some(CommitRecord(planId, core.txId, core.root, s.ops, core.facts.baselineDigest,
                                      core.facts.stagedDigest, now, s.status))
  }

  function AfterCommit(s: State, planId: Id, record: Option<CommitRecord>, w: Tree, q: Tree, planSaved: bool,
                       txSaved: bool, now: int): State
    requires CommitReady(s, planId)
  {
    var core := s.plans[planId].core;
    s.(workspaces := s.workspaces[core.root := w],
       commits := if record.Some? then s.commits[s.nextId := record.value] else s.commits,
       quarantines := if record.Some? then s.quarantines[s.nextId := q] else s.quarantines,
       plans := if planSaved then s.plans[planId := CommitPlan(core, CommittedPlan)] else s.plans,
       transactions := if txSaved then s.transactions[core.txId := s.transactions[core.txId].(state := CommittedState)]
         else s.transactions,
       nextId := s.nextId + 1, now := now)
  }

  /** What RunCommit promises for the plan it is run for. */
  ghost predicate CommitResult(c: Config, s: State, planId: Id, end: CommitEnd, w': Tree, q: Tree,
                               saved: Option<SavedRecord>)
    requires CommitReady(s, planId)
  {
    var facts := s.plans[planId].core.facts;
    var w := s.workspaces[s.plans[planId].core.root];
    && IsTree(w') && Hidden(w', c.excluded) == Hidden(w, c.excluded)
    && (end == Refused || end == RolledBackEnd ==> w' == w)
    && StatusFits(end, saved) && (saved.Some? ==> PathsFit(saved.value.ops, c.excluded) && IsTree(q))
    && (end != Refused ==> facts.policy == s.policy && HasDigest(Visible(w, c.excluded), facts.baselineDigest))
    && (end == Committed ==> HasDigest(Visible(w', c.excluded), facts.stagedDigest))
    && (end == Committed ==> forall r: CommitRecord ::
          r.ops == saved.value.ops && r.before == facts.baselineDigest && r.after == facts.stagedDigest ==>
            Keeps(c, r, q))
  }

  lemma CommitIsStep(c: Config, s: State, e: Event, saved: Option<SavedRecord>, now: int)
    requires e.CommitTried? && ChecksPass(c, s, e.planId, e.token, e.freshAt, e.tokenAt)
    requires (e.planSaved ==> e.end == Committed) && (e.txSaved ==> e.planSaved)
    requires CommitResult(c, s, e.planId, e.end, e.workspace, e.quarantine, saved)
      && e.record == RecordFrom(e.planId, s.plans[e.planId].core, now, saved)
    ensures Step(c, s, e, AfterCommit(s, e.planId, e.record, e.workspace, e.quarantine, e.planSaved, e.txSaved, now))
  {
    var s' := AfterCommit(s, e.planId, e.record, e.workspace, e.quarantine, e.planSaved, e.txSaved, now);
    CommitHasEffect(c, s, e, s', saved, now);
    CommitHasGrounds(c, s, e, saved, now);
  }

  lemma CommitHasEffect(c: Config, s: State, e: Event, s': State, saved: Option<SavedRecord>, now: int)
    requires e.CommitTried? && CommitReady(s, e.planId) && (e.planSaved ==> e.end == Committed)
      && (e.txSaved ==> e.planSaved)
    requires e.end == Refused || e.end == RolledBackEnd ==> e.workspace == s.workspaces[s.plans[e.planId].core.root]
    requires StatusFits(e.end, saved) && e.record == RecordFrom(e.planId, s.plans[e.planId].core, now, saved)
    requires s' == AfterCommit(s, e.planId, e.record, e.workspace, e.quarantine, e.planSaved, e.txSaved, now)
    ensures Effect(s, e, s')
  {
  }

  lemma CommitHasGrounds(c: Config, s: State, e: Event, saved: Option<SavedRecord>, t: int)
    requires e.CommitTried? && ChecksPass(c, s, e.planId, e.token, e.freshAt, e.tokenAt)
    requires CommitResult(c, s, e.planId, e.end, e.workspace, e.quarantine, saved)
      && e.record == RecordFrom(e.planId, s.plans[e.planId].core, t, saved)
    ensures TreesReal(c, e) && Grounds(c, s, e)
  {
    assert CommitMoves(c, s.workspaces[s.plans[e.planId].core.root], s.policy, s.plans[e.planId].core.facts, e);
  }

  ghost predicate KeptToRestore(c: Config, s: State, id: Id, g: Setting, after: Disk) {
    RestoreReady(s, id) && RestoreKept(c, s.commits[id], s.workspaces[s.commits[id].root], s.quarantines[id], g, after)
  }

  /** The workspace still has the committed manifest, and the undo of the commit returns. */
  ghost predicate CanRestore(c: Config, s: State, id: Id, g: Setting) {
    && RestoreReady(s, id) && HasDigest(Visible(s.workspaces[s.commits[id].root], c.excluded), s.commits[id].after)
    && Returns(g, s.commits[id].ops, RESTORE_CURRENT, s.quarantines[id])
  }

  function AfterRestore(s: State, id: Id, left: CommitRecord, w: Tree, q: Tree, now: int): State
    requires RestoreReady(s, id)
  {
    s.(workspaces := s.workspaces[s.commits[id].root := w], commits := s.commits[id := left],
       quarantines := s.quarantines[id := q], now := now)
  }

  /** What RunRestore promises for the record it is run for. */
  ghost predicate RestoreResult(c: Config, s: State, id: Id, end: RestoreEnd, left: CommitRecord, w': Tree, q: Tree)
    requires RestoreReady(s, id)
  {
    var r := s.commits[id];
    var w := s.workspaces[r.root];
    && IsTree(w') && IsTree(q) && Hidden(w', c.excluded) == Hidden(w, c.excluded) && PathsFit(left.ops, c.excluded)
    && (left == r || left == r.(ops := left.ops, status := RestoredStatus))
    && (end == RestoreRefused ==> w' == w && q == s.quarantines[id] && left == r)
    && (end == RestoreDone ==> left.status == RestoredStatus)
    && (end != RestoreRefused ==> HasDigest(Visible(w, c.excluded), r.after))
    && (left.status == RestoredStatus ==> HasDigest(Visible(w', c.excluded), r.before))
  }

  lemma RestoreIsStep(c: Config, s: State, e: Event, now: int)
    requires e.RestoreTried? && RestoreReady(s, e.commitId)
    requires RestoreResult(c, s, e.commitId, e.outcome, e.left, e.workspace, e.quarantine)
    ensures Step(c, s, e, AfterRestore(s, e.commitId, e.left, e.workspace, e.quarantine, now))
  {
    var s' := AfterRestore(s, e.commitId, e.left, e.workspace, e.quarantine, now);
    assert RestoreEffect(s, e, s');
    assert RestoreGrounds(c, s.workspaces[s.commits[e.commitId].root], s.commits[e.commitId], e);
  }
}

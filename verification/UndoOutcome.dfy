/** What an undo without a failing call does, whatever it meets. A payload set aside inside a
    backup travels back into the workspace with it, a refused turn leaves its operation as it is,
    and a rename may replace what an earlier turn left behind. This module says, from what the
    undo finds, which turns are refused, what is in the workspace in the end, and when that is the
    baseline. */
module UndoOutcome {
  import opened Paths
  import opened Trees
  import opened Manifests
  import opened Diffs
  import opened Layout
  import opened Records
  import opened Undo
  import opened UndoExact
  import opened UndoCalls

  // ----- what the quarantine holds in the meantime
  // `turns` tells which turns go through, `q0` is the quarantine the undo found. The payloads of
  // operations from `a` on are set aside by then, the backups from `b` on put back.

  predicate Sets(ops: seq<CommitOperation>, turns: seq<bool>, j: nat) {
    j < |ops| && j < |turns| && ops[j].installed && turns[j]
  }

  predicate Reverts(ops: seq<CommitOperation>, turns: seq<bool>, i: nat) {
    i < |ops| && i < |turns| && ops[i].backupMoved && turns[i]
  }

  /** What payload `j` brings to `x` has not gone back with a backup since. */
  predicate Stays(ops: seq<CommitOperation>, turns: seq<bool>, b: nat, j: nat, x: Path) {
    forall i: nat | b <= i <= j :: !(Reverts(ops, turns, i) && Above(ops[i].path, x))
  }

  predicate Brings(ops: seq<CommitOperation>, turns: seq<bool>, reserved: Name, b: nat, j: nat, x: Path) {
    Sets(ops, turns, j) && Above(Aside(reserved, ops[j].path), x) && Stays(ops, turns, b, j, x)
  }

  predicate Passes(ops: seq<CommitOperation>, turns: seq<bool>, reserved: Name, b: nat, j: nat, x: Path) {
    Sets(ops, turns, j) && Inside(x, Aside(reserved, ops[j].path)) && Stays(ops, turns, b, j, x)
  }

  /** `x` lies in a payload that was set aside. */
  predicate Carried(ops: seq<CommitOperation>, turns: seq<bool>, reserved: Name, b: nat, a: nat, x: Path) {
    exists j: nat | a <= j < |ops| :: Brings(ops, turns, reserved, b, j, x)
  }

  /** `x` lies on the way to such a payload. */
  predicate OnTheWay(ops: seq<CommitOperation>, turns: seq<bool>, reserved: Name, b: nat, a: nat, x: Path) {
    exists j: nat | a <= j < |ops| :: Passes(ops, turns, reserved, b, j, x)
  }

  predicate Reverted(ops: seq<CommitOperation>, turns: seq<bool>, b: nat, x: Path) {
    exists i: nat | b <= i < |ops| :: Reverts(ops, turns, i) && Above(ops[i].path, x)
  }

  function Held(payload: Tree, ops: seq<CommitOperation>, turns: seq<bool>, reserved: Name, q0: Tree,
                b: nat, a: nat, x: Path): Option<Node>
    requires x != []
  {
    if Carried(ops, turns, reserved, b, a, x) then Look(payload, x[1..])
    else if x in q0 && !Reverted(ops, turns, b, x) then Some(q0[x])
    else if OnTheWay(ops, turns, reserved, b, a, x) then Some(NEW_DIRECTORY)
    else None
  }

  // ----- which turns are refused

  /** Directories can be made on the way to `d`, and a node `n` may be renamed to it. */
  predicate Takes(q: Tree, d: Path, n: Node) {
    (forall a | a in Ancestors(d) && a in q :: DirectoryAt(q, a)) && (d in q ==> MayReplace(n, q, d))
  }

  /** The same when turn `m` comes, told from what the undo found. */
  ghost predicate HeldTakes(payload: Tree, ops: seq<CommitOperation>, turns: seq<bool>, reserved: Name, q0: Tree,
                            m: nat)
    requires m < |ops| && ops[m].path in payload
  {
    var d := Aside(reserved, ops[m].path);
    && (forall a | Inside(a, d) :: OpenTo(Held(payload, ops, turns, reserved, q0, m + 1, m + 1, a)))
    && match Held(payload, ops, turns, reserved, q0, m + 1, m + 1, d)
       case None => true
       case Some(old_) =>
         if payload[ops[m].path].Directory? then
           old_.Directory? && forall x | Inside(d, x) ::
             Held(payload, ops, turns, reserved, q0, m + 1, m + 1, x) == None
         else !old_.Directory?
  }

  predicate OpenTo(n: Option<Node>) {
    n == None || n.value.Directory?
  }

  /** Turn `m` goes through: there is nothing to set aside, or its place takes it. */
  ghost predicate GoesThrough(payload: Tree, ops: seq<CommitOperation>, turns: seq<bool>, reserved: Name, q0: Tree,
                              m: nat)
    requires m < |ops|
  {
    ops[m].installed && ops[m].path in payload ==> HeldTakes(payload, ops, turns, reserved, q0, m)
  }

  /** Which turns go through, those below `k` left open; the last operation has its turn first. */
  ghost function Turns(payload: Tree, ops: seq<CommitOperation>, reserved: Name, q0: Tree, k: nat): (r: seq<bool>)
    requires k <= |ops|
    ensures |r| == |ops|
    decreases |ops| - k
  {
    if k == |ops| then seq(|ops|, i => true)
    else
      var later := Turns(payload, ops, reserved, q0, k + 1);
      later[k := GoesThrough(payload, ops, later, reserved, q0, k)]
  }

  ghost predicate TurnsRight(payload: Tree, ops: seq<CommitOperation>, reserved: Name, q0: Tree, turns: seq<bool>) {
    && |turns| == |ops|
    && forall m {:trigger GoesThrough(payload, ops, turns, reserved, q0, m)} | 0 <= m < |ops| ::
         turns[m] <==> GoesThrough(payload, ops, turns, reserved, q0, m)
  }

  predicate SameTurns(turns: seq<bool>, other: seq<bool>, a: nat) {
    |turns| == |other| && forall j | a <= j < |turns| :: turns[j] == other[j]
  }

  /** What was held when a turn came depends on the turns before it only. */
  lemma HeldAgrees(payload: Tree, ops: seq<CommitOperation>, turns: seq<bool>, other: seq<bool>, reserved: Name,
                   q0: Tree, a: nat, x: Path)
    requires SameTurns(turns, other, a) && |turns| == |ops| && x != []
    ensures Held(payload, ops, turns, reserved, q0, a, a, x) == Held(payload, ops, other, reserved, q0, a, a, x)
  {
    forall j: nat | a <= j < |ops|
      ensures Sets(ops, turns, j) == Sets(ops, other, j) && Reverts(ops, turns, j) == Reverts(ops, other, j) {
    }
    forall j: nat | a <= j < |ops|
      ensures Brings(ops, turns, reserved, a, j, x) == Brings(ops, other, reserved, a, j, x)
      ensures Passes(ops, turns, reserved, a, j, x) == Passes(ops, other, reserved, a, j, x)
    {
      StaysAgrees(ops, turns, other, a, j, x);
    }
  }

  lemma StaysAgrees(ops: seq<CommitOperation>, turns: seq<bool>, other: seq<bool>, a: nat, j: nat, x: Path)
    requires SameTurns(turns, other, a) && |turns| == |ops|
    ensures Stays(ops, turns, a, j, x) == Stays(ops, other, a, j, x)
  {
    forall i: nat | a <= i <= j ensures Reverts(ops, turns, i) == Reverts(ops, other, i) {
    }
  }

  lemma TakesAgrees(payload: Tree, ops: seq<CommitOperation>, turns: seq<bool>, other: seq<bool>, reserved: Name,
                    q0: Tree, m: nat)
    requires SameTurns(turns, other, m + 1) && |turns| == |ops| && m < |ops|
    ensures GoesThrough(payload, ops, turns, reserved, q0, m) == GoesThrough(payload, ops, other, reserved, q0, m)
  {
    var k := m + 1;
    forall x | x != []
      ensures Held(payload, ops, turns, reserved, q0, k, k, x) == Held(payload, ops, other, reserved, q0, k, k, x)
    {
      HeldAgrees(payload, ops, turns, other, reserved, q0, k, x);
    }
  }

  lemma {:induction false} TurnsSettle(payload: Tree, ops: seq<CommitOperation>, reserved: Name, q0: Tree, k: nat,
                                       j: nat)
    requires k <= j <= |ops|
    ensures SameTurns(Turns(payload, ops, reserved, q0, k), Turns(payload, ops, reserved, q0, j), j)
    decreases j - k
  {
    if k < j { TurnsSettle(payload, ops, reserved, q0, k + 1, j); }
  }

  lemma {:induction false} TurnsAreRight(payload: Tree, ops: seq<CommitOperation>, reserved: Name, q0: Tree)
    ensures TurnsRight(payload, ops, reserved, q0, Turns(payload, ops, reserved, q0, 0))
  {
    var turns := Turns(payload, ops, reserved, q0, 0);
    forall m | 0 <= m < |ops| ensures turns[m] <==> GoesThrough(payload, ops, turns, reserved, q0, m) {
      TurnsSettle(payload, ops, reserved, q0, 0, m);
      TurnsSettle(payload, ops, reserved, q0, 0, m + 1);
      var later := Turns(payload, ops, reserved, q0, m + 1);
      assert Turns(payload, ops, reserved, q0, m)[m] == GoesThrough(payload, ops, later, reserved, q0, m);
      TakesAgrees(payload, ops, turns, later, reserved, q0, m);
    }
  }

  // ----- how what is held changes

  lemma HeldStart(payload: Tree, ops: seq<CommitOperation>, turns: seq<bool>, reserved: Name, q0: Tree, x: Path)
    requires x != []
    ensures Held(payload, ops, turns, reserved, q0, |ops|, |ops|, x) == Look(q0, x)
  {
  }

  /** The operations and their flags fit the setting. */
  ghost predicate FlagsFit(g: Setting, ops: seq<CommitOperation>, reserved: Name) {
    && GoodSetting(g) && OperationsFor(ops, g.roots) && CleanName(reserved)
    && forall i | 0 <= i < |ops| :: FlagFits(g, ops[i])
  }

  predicate FlagFits(g: Setting, op: CommitOperation) {
    && op.path != [] && Clean(op.path)
    && (op.backupMoved ==> op.path in g.base)
    && (op.installed ==> op.path in g.payload)
    && (op.installed && op.path in g.base ==> op.backupMoved)
  }

  /** No way to one payload leads through another. */
  lemma WaysApart(g: Setting, ops: seq<CommitOperation>, reserved: Name, j: nat, k: nat, x: Path)
    requires FlagsFit(g, ops, reserved) && j < |ops| && k < |ops| && j != k
    ensures !(Inside(x, Aside(reserved, ops[j].path)) && Above(Aside(reserved, ops[k].path), x))
    ensures !(Above(Aside(reserved, ops[j].path), x) && Above(Aside(reserved, ops[k].path), x))
  {
    assert OperationFor(ops[j], g.roots[j]) && OperationFor(ops[k], g.roots[k]);
    AsideAbove(reserved, ops[j].path, ops[k].path);
    AsideAbove(reserved, ops[k].path, ops[j].path);
    AboveTransitive(Aside(reserved, ops[k].path), x, Aside(reserved, ops[j].path));
    Comparable(Aside(reserved, ops[j].path), Aside(reserved, ops[k].path), x);
  }

  /** Setting one more payload aside changes what is held as it changes the tree. */
  lemma HeldSets(g: Setting, ops: seq<CommitOperation>, turns: seq<bool>, reserved: Name, q0: Tree, m: nat, x: Path)
    requires FlagsFit(g, ops, reserved) && m < |ops| == |turns| && x != []
    ensures var d := Aside(reserved, ops[m].path);
      var was := Held(g.payload, ops, turns, reserved, q0, m + 1, m + 1, x);
      Held(g.payload, ops, turns, reserved, q0, m + 1, m, x) ==
        if !Sets(ops, turns, m) then was
        else if Above(d, x) then Look(g.payload, x[1..])
        else if was == None && Inside(x, d) then Some(NEW_DIRECTORY) else was
  {
    var d := Aside(reserved, ops[m].path);
    assert Stays(ops, turns, m + 1, m, x);
    assert Carried(ops, turns, reserved, m + 1, m, x) <==>
      Carried(ops, turns, reserved, m + 1, m + 1, x) || Brings(ops, turns, reserved, m + 1, m, x);
    assert OnTheWay(ops, turns, reserved, m + 1, m, x) <==>
      OnTheWay(ops, turns, reserved, m + 1, m + 1, x) || Passes(ops, turns, reserved, m + 1, m, x);
    if Inside(x, d) {
      var k := m + 1;
      forall j: nat | k <= j < |ops| ensures !Brings(ops, turns, reserved, k, j, x) {
        WaysApart(g, ops, reserved, m, j, x);
      }
    }
  }

  /** Putting a backup back takes away all that is held below it. */
  lemma HeldReverts(payload: Tree, ops: seq<CommitOperation>, turns: seq<bool>, reserved: Name, q0: Tree, m: nat,
                    x: Path)
    requires m < |ops| == |turns| && x != []
    ensures Held(payload, ops, turns, reserved, q0, m, m, x) ==
      if Reverts(ops, turns, m) && Above(ops[m].path, x) then None
      else Held(payload, ops, turns, reserved, q0, m + 1, m, x)
  {
    var hit := Reverts(ops, turns, m) && Above(ops[m].path, x);
    assert Reverted(ops, turns, m, x) <==> Reverted(ops, turns, m + 1, x) || hit;
    BringsLess(ops, turns, reserved, m, x);
  }

  lemma BringsLess(ops: seq<CommitOperation>, turns: seq<bool>, reserved: Name, m: nat, x: Path)
    requires m < |ops| == |turns|
    ensures var hit := Reverts(ops, turns, m) && Above(ops[m].path, x);
      && (Carried(ops, turns, reserved, m, m, x) <==> Carried(ops, turns, reserved, m + 1, m, x) && !hit)
      && (OnTheWay(ops, turns, reserved, m, m, x) <==> OnTheWay(ops, turns, reserved, m + 1, m, x) && !hit)
  {
    var hit, k := Reverts(ops, turns, m) && Above(ops[m].path, x), m + 1;
    forall j: nat | m <= j < |ops|
      ensures Brings(ops, turns, reserved, m, j, x) <==> Brings(ops, turns, reserved, k, j, x) && !hit
      ensures Passes(ops, turns, reserved, m, j, x) <==> Passes(ops, turns, reserved, k, j, x) && !hit
    {
      assert Stays(ops, turns, m, j, x) <==> Stays(ops, turns, k, j, x) && !hit;
    }
  }

  // ----- one turn on the trees

  /** The two renames of a turn, each as what it does to a single path. */
  lemma SetAsideAt(s: UndoState, reserved: Name, p: Path, u: UndoState, x: Path)
    requires p != [] && SetAsideOne(s, reserved, p) == Some(u)
    ensures var d := Aside(reserved, p);
      && Look(u.workspace, x) == (if Above(p, x) then None else Look(s.workspace, x))
      && Look(u.quarantine, x) == (if Above(d, x) then Look(s.workspace, x[1..])
                                   else if x !in s.quarantine && Inside(x, d) then Some(NEW_DIRECTORY)
                                     else Look(s.quarantine, x))
  {
    hide IsTree, HasParent, Inside, Rename, MakeParents;
    var d := Aside(reserved, p);
    var q := MakeParents(s.quarantine, d).value;
    assert Look(q, x) == if x !in s.quarantine && Inside(x, d) then Some(NEW_DIRECTORY) else Look(s.quarantine, x);
    if Above(d, x) { assert Rebase(x, d, p) == x[1..]; }
  }

  lemma PutBackAt(s: UndoState, p: Path, t: UndoState, x: Path)
    requires p != [] && PutBackOne(s, p) == Some(t) && MakeParents(s.workspace, p) == Some(s.workspace)
    ensures Look(t.workspace, x) == if Above(p, x) then Look(s.quarantine, x) else Look(s.workspace, x)
    ensures Look(t.quarantine, x) == if Above(p, x) then None else Look(s.quarantine, x)
  {
    if Above(p, x) { assert Rebase(x, p, p) == x; }
  }

  lemma AsideBelow(reserved: Name, p: Path, x: Path)
    requires Above(Aside(reserved, p), x) && p != []
    ensures x == Aside(reserved, x[1..]) && Above(p, x[1..]) && x[1..] != []
  {
    assert x == [reserved] + x[1..];
    AsideAbove(reserved, p, x[1..]);
  }

  lemma SetAsideKeepsTrees(s: UndoState, reserved: Name, p: Path, u: UndoState)
    requires Trees2(s) && Clean(p) && CleanName(reserved) && SetAsideOne(s, reserved, p) == Some(u)
    ensures Trees2(u)
  {
    var q := MakeParents(s.quarantine, Aside(reserved, p)).value;
    SetAsideTrees(s, reserved, p, q);
  }

  lemma PutBackKeepsTrees(s: UndoState, p: Path, t: UndoState)
    requires Trees2(s) && Clean(p) && PutBackOne(s, p) == Some(t)
    ensures Trees2(t)
  {
    PutBackTrees(s, p, MakeParents(s.workspace, p).value);
  }

  /** The directories above a root are in place throughout. */
  lemma ParentsThere(g: Setting, ops: seq<CommitOperation>, u: UndoState, m: nat)
    requires GoodSetting(g) && OperationsFor(ops, g.roots) && m < |ops| && Trees2(u)
    requires forall x | !Covered(g.roots, x) :: Look(u.workspace, x) == Look(g.base, x)
    ensures MakeParents(u.workspace, ops[m].path) == Some(u.workspace)
  {
    var p := ops[m].path;
    assert OperationFor(ops[m], g.roots[m]) && g.roots[m] in g.roots && GoodRoot(g, g.roots[m]);
    forall a | Inside(a, p) ensures DirectoryAt(u.workspace, a) {
      assert DirectoryAt(g.base, a);
      forall j | 0 <= j < |g.roots| ensures !Above(g.roots[j].path, a) {
        AboveTransitive(g.roots[j].path, a, p);
      }
      assert Look(u.workspace, a) == Look(g.base, a);
    }
    assert forall a | a in Ancestors(p) && a in u.workspace :: DirectoryAt(u.workspace, a);
    SameTree(MakeParents(u.workspace, p).value, u.workspace);
  }

  /** What is found at `x` below root `i` while operations below `k` wait. */
  function View(g: Setting, ops: seq<CommitOperation>, turns: seq<bool>, reserved: Name, q0: Tree,
                k: nat, i: nat, x: Path): Option<Node>
    requires i < |ops| == |turns| && x != []
  {
    if i < k || !turns[i] then CellView(g, CellOf(ops[i]), x)
    else if ops[i].backupMoved then Held(g.payload, ops, turns, reserved, q0, i + 1, i, x)
    else Look(g.base, x)
  }

  /** Payload `j` is put where something stands. */
  predicate Lands(payload: Tree, ops: seq<CommitOperation>, turns: seq<bool>, reserved: Name, q0: Tree, j: nat) {
    Sets(ops, turns, j) && Held(payload, ops, turns, reserved, q0, j + 1, j + 1, Aside(reserved, ops[j].path)).Some?
  }

  predicate LandsFrom(payload: Tree, ops: seq<CommitOperation>, turns: seq<bool>, reserved: Name, q0: Tree, k: nat) {
    exists j: nat | k <= j < |ops| :: Lands(payload, ops, turns, reserved, q0, j)
  }

  /** What the undo found in the backups. */
  ghost predicate Found(g: Setting, ops: seq<CommitOperation>, q0: Tree) {
    forall i, x | 0 <= i < |ops| && ops[i].backupMoved && Above(ops[i].path, x) :: Look(q0, x) == Look(g.base, x)
  }

  ghost predicate WorkspaceStands(g: Setting, ops: seq<CommitOperation>, turns: seq<bool>, reserved: Name, q0: Tree,
                                  w: Tree, k: nat)
    requires |turns| == |ops|
  {
    && (forall i, x | 0 <= i < |ops| && Above(ops[i].path, x) && x != [] ::
          Look(w, x) == View(g, ops, turns, reserved, q0, k, i, x))
    && forall x | !Covered(g.roots, x) :: Look(w, x) == Look(g.base, x)
  }

  ghost predicate QuarantineStands(payload: Tree, ops: seq<CommitOperation>, turns: seq<bool>, reserved: Name, q0: Tree,
                                   q: Tree, b: nat, a: nat) {
    forall x | x != [] :: Look(q, x) == Held(payload, ops, turns, reserved, q0, b, a, x)
  }

  /** Workspace and quarantine while operations below `k` wait. */
  ghost predicate Stands(g: Setting, ops: seq<CommitOperation>, turns: seq<bool>, reserved: Name, s0: UndoState,
                         s: UndoState, k: nat) {
    && Trees2(s) && k <= |ops| == |turns|
    && WorkspaceStands(g, ops, turns, reserved, s0.quarantine, s.workspace, k)
    && QuarantineStands(g.payload, ops, turns, reserved, s0.quarantine, s.quarantine, k, k)
    && (s.landed <==> s0.landed || LandsFrom(g.payload, ops, turns, reserved, s0.quarantine, k))
  }

  /** The same between the two halves of turn `m`, which goes through. */
  ghost predicate StandsHalf(g: Setting, ops: seq<CommitOperation>, turns: seq<bool>, reserved: Name, s0: UndoState,
                             u: UndoState, m: nat) {
    && Trees2(u) && m < |ops| == |turns| && turns[m]
    && (forall i, x | 0 <= i < |ops| && Above(ops[i].path, x) && x != [] ::
          Look(u.workspace, x) == HalfView(g, ops, turns, reserved, s0.quarantine, m, i, x))
    && (forall x | !Covered(g.roots, x) :: Look(u.workspace, x) == Look(g.base, x))
    && QuarantineStands(g.payload, ops, turns, reserved, s0.quarantine, u.quarantine, m + 1, m)
    && (u.landed <==> s0.landed || LandsFrom(g.payload, ops, turns, reserved, s0.quarantine, m))
  }

  function HalfView(g: Setting, ops: seq<CommitOperation>, turns: seq<bool>, reserved: Name, q0: Tree,
                    m: nat, i: nat, x: Path): Option<Node>
    requires i < |ops| == |turns| && x != []
  {
    if i == m then (if ops[i].backupMoved then None else Look(g.base, x))
    else View(g, ops, turns, reserved, q0, m + 1, i, x)
  }

  lemma StandsAtStart(g: Setting, ops: seq<CommitOperation>, cells: seq<Cell>, turns: seq<bool>, reserved: Name,
                      s: UndoState)
    requires OperationsFor(ops, g.roots) && UndoneFrom(ops, cells, |ops|) && UndoOk(g, cells, reserved, s)
      && |turns| == |ops|
    ensures FlagsFit(g, ops, reserved) && Found(g, ops, s.quarantine) && Stands(g, ops, turns, reserved, s, s, |ops|)
  {
    forall i | 0 <= i < |ops|
      ensures FlagFits(g, ops[i]) && ops[i].path == g.roots[i].path && cells[i] == CellOf(ops[i]) {
      assert OperationFor(ops[i], g.roots[i]) && g.roots[i] in g.roots && GoodRoot(g, g.roots[i]);
    }
    forall x | x != []
      ensures Look(s.quarantine, x) == Held(g.payload, ops, turns, reserved, s.quarantine, |ops|, |ops|, x) {
      HeldStart(g.payload, ops, turns, reserved, s.quarantine, x);
    }
  }

  /** When a payload can be set aside. */
  lemma SetAsideWhen(s: UndoState, reserved: Name, p: Path)
    requires p != [] && p in s.workspace
    ensures SetAsideOne(s, reserved, p).Some? <==> Takes(s.quarantine, Aside(reserved, p), s.workspace[p])
  {
    var d := Aside(reserved, p);
    var made := MakeParents(s.quarantine, d);
    if made.Some? {
      forall x ensures !Inside(x, d) ==> Look(made.value, x) == Look(s.quarantine, x) {
      }
      ReplaceSame(s.workspace[p], s.quarantine, made.value, d);
      RenameExact(s.workspace, p, made.value, d);
    }
  }

  lemma ReplaceSame(n: Node, q: Tree, made: Tree, d: Path)
    requires forall x :: !Inside(x, d) ==> Look(made, x) == Look(q, x)
    ensures d in made <==> d in q
    ensures d in q ==> (MayReplace(n, made, d) <==> MayReplace(n, q, d))
  {
    assert Look(made, d) == Look(q, d);
    forall x | Inside(d, x) ensures x in made <==> x in q {
      assert Look(made, x) == Look(q, x);
    }
  }

  /** What the place of payload `m` does when its turn comes. */
  lemma TakesWhenHeld(g: Setting, ops: seq<CommitOperation>, turns: seq<bool>, reserved: Name, q0: Tree, q: Tree,
                      m: nat)
    requires m < |ops| && ops[m].path in g.payload
    requires QuarantineStands(g.payload, ops, turns, reserved, q0, q, m + 1, m + 1)
    ensures Takes(q, Aside(reserved, ops[m].path), g.payload[ops[m].path]) <==>
      HeldTakes(g.payload, ops, turns, reserved, q0, m)
  {
    var d := Aside(reserved, ops[m].path);
    var k := m + 1;
    assert Look(q, d) == Held(g.payload, ops, turns, reserved, q0, k, k, d);
    forall a | Inside(a, d) ensures Look(q, a) == Held(g.payload, ops, turns, reserved, q0, k, k, a) {
    }
    forall x | Inside(d, x) ensures Look(q, x) == Held(g.payload, ops, turns, reserved, q0, k, k, x) {
    }
    assert (forall a | a in Ancestors(d) && a in q :: DirectoryAt(q, a)) <==>
      forall a | Inside(a, d) :: OpenTo(Look(q, a));
  }

  /** The payload of an operation whose turn comes is in the workspace. */
  lemma PayloadThere(g: Setting, ops: seq<CommitOperation>, turns: seq<bool>, reserved: Name, s0: UndoState,
                     s: UndoState, m: nat)
    requires FlagsFit(g, ops, reserved) && m < |ops| && Stands(g, ops, turns, reserved, s0, s, m + 1)
      && ops[m].installed
    ensures ops[m].path in s.workspace && s.workspace[ops[m].path] == g.payload[ops[m].path]
  {
    var p := ops[m].path;
    assert FlagFits(g, ops[m]) && Above(p, p);
    assert Look(s.workspace, p) == View(g, ops, turns, reserved, s0.quarantine, m + 1, m, p);
  }

  /** A turn goes through exactly if its payload can be set aside. */
  lemma TurnGoes(g: Setting, ops: seq<CommitOperation>, turns: seq<bool>, reserved: Name, s0: UndoState, s: UndoState,
                 m: nat)
    requires FlagsFit(g, ops, reserved) && m < |ops| && Stands(g, ops, turns, reserved, s0, s, m + 1)
    requires TurnsRight(g.payload, ops, reserved, s0.quarantine, turns)
    ensures ops[m].path != [] && Uninstall(s, reserved, ops[m]) == GuardedUninstall(s, reserved, ops[m])
    ensures turns[m] <==> Uninstall(s, reserved, ops[m]).Some?
  {
    assert FlagFits(g, ops[m]);
    assert turns[m] <==> GoesThrough(g.payload, ops, turns, reserved, s0.quarantine, m);
    if ops[m].installed {
      PayloadThere(g, ops, turns, reserved, s0, s, m);
      SetAsideWhen(s, reserved, ops[m].path);
      TakesWhenHeld(g, ops, turns, reserved, s0.quarantine, s.quarantine, m);
    }
  }

  lemma HalfWorkspace(g: Setting, ops: seq<CommitOperation>, turns: seq<bool>, reserved: Name, s0: UndoState,
                      s: UndoState, m: nat, u: UndoState, i: nat, x: Path)
    requires FlagsFit(g, ops, reserved) && m < |ops| && Stands(g, ops, turns, reserved, s0, s, m + 1) && turns[m]
    requires ops[m].path != [] && Uninstall(s, reserved, ops[m]) == Some(u)
    requires i < |ops| && Above(ops[i].path, x) && x != []
    ensures Look(u.workspace, x) == HalfView(g, ops, turns, reserved, s0.quarantine, m, i, x)
  {
    assert OperationFor(ops[i], g.roots[i]) && OperationFor(ops[m], g.roots[m]) && FlagFits(g, ops[m]);
    OneRoot(g.roots, i, m, x);
    assert Look(s.workspace, x) == View(g, ops, turns, reserved, s0.quarantine, m + 1, i, x);
    if ops[m].installed { SetAsideAt(s, reserved, ops[m].path, u, x); }
    if i == m && ops[m].path !in g.base && x in g.base { PresentAbove(g.base, ops[m].path, x); }
  }

  lemma HalfQuarantine(g: Setting, ops: seq<CommitOperation>, turns: seq<bool>, reserved: Name, s0: UndoState,
                       s: UndoState, m: nat, u: UndoState, x: Path)
    requires FlagsFit(g, ops, reserved) && m < |ops| && Stands(g, ops, turns, reserved, s0, s, m + 1) && turns[m]
    requires ops[m].path != [] && Uninstall(s, reserved, ops[m]) == Some(u) && x != []
    ensures Look(u.quarantine, x) == Held(g.payload, ops, turns, reserved, s0.quarantine, m + 1, m, x)
  {
    assert Look(s.quarantine, x) == Held(g.payload, ops, turns, reserved, s0.quarantine, m + 1, m + 1, x);
    HeldSets(g, ops, turns, reserved, s0.quarantine, m, x);
    if ops[m].installed {
      SetAsideAt(s, reserved, ops[m].path, u, x);
      if Above(Aside(reserved, ops[m].path), x) {
        AsideBelow(reserved, ops[m].path, x);
        PayloadSeen(g, ops, turns, reserved, s0, s, m, x[1..]);
      }
    }
  }

  lemma PayloadSeen(g: Setting, ops: seq<CommitOperation>, turns: seq<bool>, reserved: Name, s0: UndoState,
                    s: UndoState, m: nat, y: Path)
    requires m < |ops| && Stands(g, ops, turns, reserved, s0, s, m + 1) && ops[m].installed && Above(ops[m].path, y)
      && y != []
    ensures Look(s.workspace, y) == Look(g.payload, y)
  {
    assert Look(s.workspace, y) == View(g, ops, turns, reserved, s0.quarantine, m + 1, m, y);
  }

  /** The place of a later payload is never a backup still to be put back, nor above it: roots are
      sorted by depth, and the place is deeper than its root. */
  lemma TooDeep(g: Setting, ops: seq<CommitOperation>, reserved: Name, i: nat, j: nat)
    requires GoodSetting(g) && OperationsFor(ops, g.roots) && i <= j < |ops|
    ensures !Above(Aside(reserved, ops[j].path), ops[i].path)
  {
    assert OperationFor(ops[i], g.roots[i]) && OperationFor(ops[j], g.roots[j]);
    assert i < j ==> NoDeeper(g.roots, i, j);
  }

  /** A backup whose turn has not come is there. */
  lemma BackupThere(g: Setting, ops: seq<CommitOperation>, turns: seq<bool>, reserved: Name, q0: Tree, b: nat, a: nat,
                    i: nat)
    requires FlagsFit(g, ops, reserved) && Found(g, ops, q0) && |turns| == |ops|
    requires i < b && i < |ops| && i <= a && ops[i].backupMoved
    ensures ops[i].path != [] && Held(g.payload, ops, turns, reserved, q0, b, a, ops[i].path).Some?
  {
    var p := ops[i].path;
    assert FlagFits(g, ops[i]) && Above(p, p) && Look(q0, p) == Look(g.base, p);
    forall k: nat | b <= k < |ops| ensures !Above(ops[k].path, p) {
      assert OperationFor(ops[k], g.roots[k]) && OperationFor(ops[i], g.roots[i]);
    }
    forall j: nat | a <= j < |ops| ensures !Brings(ops, turns, reserved, b, j, p) {
      TooDeep(g, ops, reserved, i, j);
    }
  }

  lemma HalfLanded(g: Setting, ops: seq<CommitOperation>, turns: seq<bool>, reserved: Name, s0: UndoState, s: UndoState,
                   m: nat, u: UndoState)
    requires m < |ops| && Stands(g, ops, turns, reserved, s0, s, m + 1) && turns[m]
    requires ops[m].path != [] && Uninstall(s, reserved, ops[m]) == Some(u)
    ensures u.landed <==> s0.landed || LandsFrom(g.payload, ops, turns, reserved, s0.quarantine, m)
  {
    var d, k := Aside(reserved, ops[m].path), m + 1;
    assert LandsFrom(g.payload, ops, turns, reserved, s0.quarantine, m) <==>
      LandsFrom(g.payload, ops, turns, reserved, s0.quarantine, k)
        || Lands(g.payload, ops, turns, reserved, s0.quarantine, m);
    assert Look(s.quarantine, d) == Held(g.payload, ops, turns, reserved, s0.quarantine, k, k, d);
    if ops[m].installed {
      var made := MakeParents(s.quarantine, d).value;
      assert Look(made, d) == Look(s.quarantine, d);
    }
  }

  /** The first half of a turn that goes through. */
  lemma FirstHalf(g: Setting, ops: seq<CommitOperation>, turns: seq<bool>, reserved: Name, s0: UndoState, s: UndoState,
                  m: nat, u: UndoState)
    requires FlagsFit(g, ops, reserved) && Found(g, ops, s0.quarantine) && m < |ops|
    requires Stands(g, ops, turns, reserved, s0, s, m + 1) && turns[m]
    requires ops[m].path != [] && Uninstall(s, reserved, ops[m]) == Some(u)
    ensures StandsHalf(g, ops, turns, reserved, s0, u, m)
  {
    assert FlagFits(g, ops[m]);
    if ops[m].installed { SetAsideKeepsTrees(s, reserved, ops[m].path, u); }
    forall i, x | 0 <= i < |ops| && Above(ops[i].path, x) && x != []
      ensures Look(u.workspace, x) == HalfView(g, ops, turns, reserved, s0.quarantine, m, i, x)
    {
      HalfWorkspace(g, ops, turns, reserved, s0, s, m, u, i, x);
    }
    forall x | !Covered(g.roots, x) ensures Look(u.workspace, x) == Look(g.base, x) {
      HalfElsewhere(g, ops, turns, reserved, s0, s, m, u, x);
    }
    forall x | x != []
      ensures Look(u.quarantine, x) == Held(g.payload, ops, turns, reserved, s0.quarantine, m + 1, m, x) {
      HalfQuarantine(g, ops, turns, reserved, s0, s, m, u, x);
    }
    HalfLanded(g, ops, turns, reserved, s0, s, m, u);
  }

  lemma HalfElsewhere(g: Setting, ops: seq<CommitOperation>, turns: seq<bool>, reserved: Name, s0: UndoState,
                      s: UndoState, m: nat, u: UndoState, x: Path)
    requires FlagsFit(g, ops, reserved) && m < |ops| && Stands(g, ops, turns, reserved, s0, s, m + 1)
    requires ops[m].path != [] && Uninstall(s, reserved, ops[m]) == Some(u) && !Covered(g.roots, x)
    ensures Look(u.workspace, x) == Look(g.base, x)
  {
    assert OperationFor(ops[m], g.roots[m]) && !Above(g.roots[m].path, x);
    if ops[m].installed { SetAsideAt(s, reserved, ops[m].path, u, x); }
  }

  /** Putting the backup back never fails. */
  lemma BackupReturns(g: Setting, ops: seq<CommitOperation>, turns: seq<bool>, reserved: Name, s0: UndoState,
                      u: UndoState, m: nat)
    returns (t: UndoState)
    requires FlagsFit(g, ops, reserved) && Found(g, ops, s0.quarantine) && StandsHalf(g, ops, turns, reserved, s0, u, m)
    ensures ops[m].path != [] && Reinstate(u, ops[m]) == Some(t) && GuardedReinstate(u, ops[m]) == Some(t)
      && t.landed == u.landed
    ensures ops[m].backupMoved ==> MakeParents(u.workspace, ops[m].path) == Some(u.workspace)
  {
    var p := ops[m].path;
    assert FlagFits(g, ops[m]) && Above(p, p);
    t := u;
    if ops[m].backupMoved {
      BackupThere(g, ops, turns, reserved, s0.quarantine, m + 1, m, m);
      assert Look(u.quarantine, p) == Held(g.payload, ops, turns, reserved, s0.quarantine, m + 1, m, p);
      assert Look(u.workspace, p) == HalfView(g, ops, turns, reserved, s0.quarantine, m, m, p);
      ParentsThere(g, ops, u, m);
      PutBackGoes(u, p);
      t := PutBackOne(u, p).value;
    }
  }

  lemma PutBackGoes(u: UndoState, p: Path)
    requires p != [] && p in u.quarantine && p !in u.workspace && MakeParents(u.workspace, p) == Some(u.workspace)
    ensures PutBackOne(u, p).Some? && PutBackOne(u, p).value.landed == u.landed
  {
  }

  lemma SecondWorkspace(g: Setting, ops: seq<CommitOperation>, turns: seq<bool>, reserved: Name, q0: Tree, u: UndoState,
                        m: nat, t: UndoState, i: nat, x: Path)
    requires Antichain(g.roots) && OperationsFor(ops, g.roots) && m < |ops| == |turns| && turns[m]
    requires ops[m].path != [] && Reinstate(u, ops[m]) == Some(t)
    requires ops[m].backupMoved ==> MakeParents(u.workspace, ops[m].path) == Some(u.workspace)
    requires i < |ops| && Above(ops[i].path, x) && x != []
    requires Look(u.workspace, x) == HalfView(g, ops, turns, reserved, q0, m, i, x)
    requires Look(u.quarantine, x) == Held(g.payload, ops, turns, reserved, q0, m + 1, m, x)
    ensures Look(t.workspace, x) == View(g, ops, turns, reserved, q0, m, i, x)
  {
    assert OperationFor(ops[i], g.roots[i]) && OperationFor(ops[m], g.roots[m]);
    OneRoot(g.roots, i, m, x);
    if ops[m].backupMoved { PutBackAt(u, ops[m].path, t, x); }
  }

  lemma SecondQuarantine(g: Setting, ops: seq<CommitOperation>, turns: seq<bool>, reserved: Name, s0: UndoState,
                         u: UndoState, m: nat, t: UndoState, x: Path)
    requires FlagsFit(g, ops, reserved) && StandsHalf(g, ops, turns, reserved, s0, u, m)
      && Reinstate(u, ops[m]) == Some(t)
    requires ops[m].backupMoved ==> MakeParents(u.workspace, ops[m].path) == Some(u.workspace)
    requires x != []
    ensures Look(t.quarantine, x) == Held(g.payload, ops, turns, reserved, s0.quarantine, m, m, x)
  {
    assert FlagFits(g, ops[m]);
    assert Look(u.quarantine, x) == Held(g.payload, ops, turns, reserved, s0.quarantine, m + 1, m, x);
    HeldReverts(g.payload, ops, turns, reserved, s0.quarantine, m, x);
    if ops[m].backupMoved { PutBackAt(u, ops[m].path, t, x); }
  }

  lemma SecondHalf(g: Setting, ops: seq<CommitOperation>, turns: seq<bool>, reserved: Name, s0: UndoState, u: UndoState,
                   m: nat, t: UndoState)
    requires FlagsFit(g, ops, reserved) && StandsHalf(g, ops, turns, reserved, s0, u, m)
      && Reinstate(u, ops[m]) == Some(t)
    requires ops[m].backupMoved ==> MakeParents(u.workspace, ops[m].path) == Some(u.workspace)
    requires t.landed == u.landed
    ensures Stands(g, ops, turns, reserved, s0, t, m)
  {
    assert FlagFits(g, ops[m]) && OperationFor(ops[m], g.roots[m]);
    if ops[m].backupMoved { PutBackKeepsTrees(u, ops[m].path, t); }
    forall i, x | 0 <= i < |ops| && Above(ops[i].path, x) && x != []
      ensures Look(t.workspace, x) == View(g, ops, turns, reserved, s0.quarantine, m, i, x)
    {
      SecondWorkspace(g, ops, turns, reserved, s0.quarantine, u, m, t, i, x);
    }
    forall x | !Covered(g.roots, x) ensures Look(t.workspace, x) == Look(g.base, x) {
      assert !Above(g.roots[m].path, x);
      if ops[m].backupMoved { PutBackAt(u, ops[m].path, t, x); }
    }
    forall x | x != [] ensures Look(t.quarantine, x) == Held(g.payload, ops, turns, reserved, s0.quarantine, m, m, x) {
      SecondQuarantine(g, ops, turns, reserved, s0, u, m, t, x);
    }
  }

  /** A turn that goes through, in either loop. */
  lemma TurnThrough(g: Setting, ops: seq<CommitOperation>, turns: seq<bool>, reserved: Name, s0: UndoState,
                    s: UndoState, m: nat)
    returns (t: UndoState)
    requires FlagsFit(g, ops, reserved) && Found(g, ops, s0.quarantine) && m < |ops|
    requires Stands(g, ops, turns, reserved, s0, s, m + 1) && turns[m]
    requires TurnsRight(g.payload, ops, reserved, s0.quarantine, turns)
    ensures UndoOne(s, reserved, ops[m]) == Some(t) && GuardedOne(s, reserved, ops[m]) == Some(t)
      && TurnAfter(s, reserved, ops[m]) == t
    ensures Stands(g, ops, turns, reserved, s0, t, m)
  {
    TurnGoes(g, ops, turns, reserved, s0, s, m);
    var u := Uninstall(s, reserved, ops[m]).value;
    FirstHalf(g, ops, turns, reserved, s0, s, m, u);
    t := BackupReturns(g, ops, turns, reserved, s0, u, m);
    SecondHalf(g, ops, turns, reserved, s0, u, m, t);
  }

  /** A refused turn changes nothing. */
  lemma TurnRefused(g: Setting, ops: seq<CommitOperation>, turns: seq<bool>, reserved: Name, s0: UndoState,
                    s: UndoState, m: nat)
    requires FlagsFit(g, ops, reserved) && m < |ops| && Stands(g, ops, turns, reserved, s0, s, m + 1) && !turns[m]
    requires TurnsRight(g.payload, ops, reserved, s0.quarantine, turns)
    ensures UndoOne(s, reserved, ops[m]) == None && GuardedOne(s, reserved, ops[m]) == None
      && TurnAfter(s, reserved, ops[m]) == s
    ensures Stands(g, ops, turns, reserved, s0, s, m)
  {
    TurnGoes(g, ops, turns, reserved, s0, s, m);
    forall x | x != [] ensures Look(s.quarantine, x) == Held(g.payload, ops, turns, reserved, s0.quarantine, m, m, x) {
      HeldSets(g, ops, turns, reserved, s0.quarantine, m, x);
      HeldReverts(g.payload, ops, turns, reserved, s0.quarantine, m, x);
    }
    RefusedWorkspace(g, ops, turns, reserved, s0.quarantine, s.workspace, m);
    RefusedLands(g.payload, ops, turns, reserved, s0.quarantine, m);
  }

  lemma RefusedWorkspace(g: Setting, ops: seq<CommitOperation>, turns: seq<bool>, reserved: Name, q0: Tree, w: Tree,
                         m: nat)
    requires m < |ops| == |turns| && !turns[m] && WorkspaceStands(g, ops, turns, reserved, q0, w, m + 1)
    ensures WorkspaceStands(g, ops, turns, reserved, q0, w, m)
  {
    forall i, x | 0 <= i < |ops| && Above(ops[i].path, x) && x != []
      ensures Look(w, x) == View(g, ops, turns, reserved, q0, m, i, x) {
      assert Look(w, x) == View(g, ops, turns, reserved, q0, m + 1, i, x);
    }
  }

  lemma RefusedLands(payload: Tree, ops: seq<CommitOperation>, turns: seq<bool>, reserved: Name, q0: Tree, m: nat)
    requires m < |ops| == |turns| && !turns[m]
    ensures LandsFrom(payload, ops, turns, reserved, q0, m) <==> LandsFrom(payload, ops, turns, reserved, q0, m + 1)
  {
    assert forall j: nat | m <= j < |ops| && Lands(payload, ops, turns, reserved, q0, j) :: j != m;
  }

  // ----- the whole loop

  predicate AllGo(turns: seq<bool>, k: nat) {
    k <= |turns| && forall j | 0 <= j < k :: turns[j]
  }

  /** The paths whose turns are refused, the last operation first. */
  function TurnedDown(ops: seq<CommitOperation>, turns: seq<bool>, k: nat): seq<Path>
    requires k <= |ops| && k <= |turns|
  {
    if k == 0 then [] else (if turns[k - 1] then [] else [ops[k - 1].path]) + TurnedDown(ops, turns, k - 1)
  }

  lemma {:induction false} TurnedDownAre(ops: seq<CommitOperation>, turns: seq<bool>, k: nat, p: Path)
    requires k <= |ops| && k <= |turns|
    ensures p in TurnedDown(ops, turns, k) <==> exists i :: 0 <= i < k && !turns[i] && ops[i].path == p
  {
    if k > 0 { TurnedDownAre(ops, turns, k - 1, p); }
  }

  /** Both loops from operation `k` down do the same as long as no turn is refused, and the
      rollback records each refusal and goes on. */
  ghost predicate RunsAs(ops: seq<CommitOperation>, turns: seq<bool>, reserved: Name, s: UndoState, k: nat) {
    && k <= |ops| && UndoFrom(s, reserved, ops, k) == GuardedFrom(s, reserved, ops, k)
    && (GuardedFrom(s, reserved, ops, k) == if AllGo(turns, k) then Some(LoopAfter(s, reserved, ops, k)) else None)
    && k <= |turns| && LoopErrors(s, reserved, ops, k) == TurnedDown(ops, turns, k)
  }

  lemma {:induction false} RunsOn(ops: seq<CommitOperation>, turns: seq<bool>, reserved: Name, s: UndoState,
                                  t: UndoState, k: nat)
    requires 0 < k <= |ops| == |turns| && RunsAs(ops, turns, reserved, t, k - 1)
      && TurnAfter(s, reserved, ops[k - 1]) == t
    requires UndoOne(s, reserved, ops[k - 1]) == GuardedOne(s, reserved, ops[k - 1])
    requires GuardedOne(s, reserved, ops[k - 1]) == if turns[k - 1] then Some(t) else None
    ensures RunsAs(ops, turns, reserved, s, k) && LoopAfter(s, reserved, ops, k) == LoopAfter(t, reserved, ops, k - 1)
  {
    assert AllGo(turns, k) <==> AllGo(turns, k - 1) && turns[k - 1];
  }

  lemma TurnMade(g: Setting, ops: seq<CommitOperation>, turns: seq<bool>, reserved: Name, s0: UndoState, s: UndoState,
                 m: nat)
    returns (t: UndoState)
    requires FlagsFit(g, ops, reserved) && Found(g, ops, s0.quarantine) && m < |ops|
    requires Stands(g, ops, turns, reserved, s0, s, m + 1) && TurnsRight(g.payload, ops, reserved, s0.quarantine, turns)
    ensures Stands(g, ops, turns, reserved, s0, t, m) && TurnAfter(s, reserved, ops[m]) == t
    ensures UndoOne(s, reserved, ops[m]) == GuardedOne(s, reserved, ops[m])
    ensures |turns| == |ops| && GuardedOne(s, reserved, ops[m]) == if turns[m] then Some(t) else None
  {
    if turns[m] {
      t := TurnThrough(g, ops, turns, reserved, s0, s, m);
    } else {
      TurnRefused(g, ops, turns, reserved, s0, s, m);
      t := s;
    }
  }

  lemma {:induction false} LoopRuns(g: Setting, ops: seq<CommitOperation>, turns: seq<bool>, reserved: Name,
                                    s0: UndoState, s: UndoState, k: nat)
    returns (final: UndoState)
    requires FlagsFit(g, ops, reserved) && Found(g, ops, s0.quarantine) && Stands(g, ops, turns, reserved, s0, s, k)
    requires TurnsRight(g.payload, ops, reserved, s0.quarantine, turns)
    ensures RunsAs(ops, turns, reserved, s, k) && LoopAfter(s, reserved, ops, k) == final
    ensures Stands(g, ops, turns, reserved, s0, final, 0)
    decreases k
  {
    if k > 0 {
      var t := TurnMade(g, ops, turns, reserved, s0, s, k - 1);
      final := LoopRuns(g, ops, turns, reserved, s0, t, k - 1);
      RunsOn(ops, turns, reserved, s, t, k);
    } else {
      final := s;
    }
  }

  // ----- the verdict

  ghost predicate SameThere(g: Setting, reserved: Name, p: Path) {
    forall y | Above(p, y) :: Look(g.payload, y) == Look(g.base, Aside(reserved, y))
  }

  ghost predicate SameInPlace(g: Setting, p: Path) {
    forall y | Above(p, y) :: Look(g.payload, y) == Look(g.base, y)
  }

  /** Payload `j` is set aside inside backup `i`, which is put back in its turn or later. */
  predicate GoesBackWith(ops: seq<CommitOperation>, turns: seq<bool>, reserved: Name, i: nat, j: nat) {
    i <= j && Reverts(ops, turns, i) && Sets(ops, turns, j) && Above(ops[i].path, Aside(reserved, ops[j].path))
  }

  /** Whatever went back inside a backup is what the baseline had there, and whatever was refused
      is what it had in its place. */
  ghost predicate LeavesBase(g: Setting, ops: seq<CommitOperation>, turns: seq<bool>, reserved: Name) {
    && (forall i: nat, j: nat | GoesBackWith(ops, turns, reserved, i, j) :: SameThere(g, reserved, ops[j].path))
    && forall j | 0 <= j < |ops| && j < |turns| && !turns[j] :: SameInPlace(g, ops[j].path)
  }

  /** The rollback loop leaves the baseline, with an error recorded or not. */
  ghost predicate Recovers(g: Setting, ops: seq<CommitOperation>, reserved: Name, q0: Tree) {
    LeavesBase(g, ops, Turns(g.payload, ops, reserved, q0, 0), reserved)
  }

  /** Either loop ends without an error and leaves the baseline. */
  ghost predicate Returns(g: Setting, ops: seq<CommitOperation>, reserved: Name, q0: Tree) {
    AllGo(Turns(g.payload, ops, reserved, q0, 0), |ops|) && Unmixed(g, ops, reserved)
  }

  /** Wherever a payload is set aside inside a backup put back in its turn or later, the baseline
      had the very same entries. */
  ghost predicate Unmixed(g: Setting, ops: seq<CommitOperation>, reserved: Name) {
    forall i, j | 0 <= i <= j < |ops| && ops[i].backupMoved && ops[j].installed
      && Above(ops[i].path, Aside(reserved, ops[j].path)) ::
      SameThere(g, reserved, ops[j].path)
  }

  lemma LeavesUnmixed(g: Setting, ops: seq<CommitOperation>, turns: seq<bool>, reserved: Name)
    requires |turns| == |ops| && AllGo(turns, |ops|)
    ensures LeavesBase(g, ops, turns, reserved) <==> Unmixed(g, ops, reserved)
  {
    if LeavesBase(g, ops, turns, reserved) {
      forall i, j | 0 <= i <= j < |ops| && ops[i].backupMoved && ops[j].installed
        && Above(ops[i].path, Aside(reserved, ops[j].path))
        ensures SameThere(g, reserved, ops[j].path)
      {
        assert GoesBackWith(ops, turns, reserved, i, j);
      }
    }
  }

  /** What a returned backup brings is the baseline. */
  lemma ReturnedIsBase(g: Setting, ops: seq<CommitOperation>, turns: seq<bool>, reserved: Name, q0: Tree, i: nat,
                       x: Path)
    requires FlagsFit(g, ops, reserved) && Found(g, ops, q0) && |turns| == |ops|
    requires LeavesBase(g, ops, turns, reserved) && i < |ops| && Reverts(ops, turns, i) && Above(ops[i].path, x)
      && x != []
    ensures Held(g.payload, ops, turns, reserved, q0, i + 1, i, x) == Look(g.base, x)
  {
    assert Look(q0, x) == Look(g.base, x);
    NotReverted(g, ops, turns, i, x);
    var b := i + 1;
    forall j: nat | i <= j < |ops| && Brings(ops, turns, reserved, b, j, x)
      ensures Look(g.payload, x[1..]) == Look(g.base, x) {
      assert FlagFits(g, ops[j]);
      TooDeep(g, ops, reserved, i, j);
      Comparable(ops[i].path, Aside(reserved, ops[j].path), x);
      AsideBelow(reserved, ops[j].path, x);
      assert GoesBackWith(ops, turns, reserved, i, j) && SameThere(g, reserved, ops[j].path);
    }
    forall j: nat | i <= j < |ops| && Passes(ops, turns, reserved, b, j, x) ensures x in g.base {
      assert FlagFits(g, ops[j]) && Above(ops[j].path, ops[j].path);
      AboveTransitive(ops[i].path, x, Aside(reserved, ops[j].path));
      assert GoesBackWith(ops, turns, reserved, i, j) && SameThere(g, reserved, ops[j].path);
      assert Look(g.payload, ops[j].path) == Look(g.base, Aside(reserved, ops[j].path));
    }
  }

  /** Below a root no other backup was put back. */
  lemma NotReverted(g: Setting, ops: seq<CommitOperation>, turns: seq<bool>, i: nat, x: Path)
    requires Antichain(g.roots) && OperationsFor(ops, g.roots) && i < |ops| && Above(ops[i].path, x)
    ensures !Reverted(ops, turns, i + 1, x)
    ensures var b := i + 1; forall j: nat | i <= j :: Stays(ops, turns, b, j, x)
  {
    forall k: nat | i < k < |ops| ensures !Above(ops[k].path, x) {
      assert OperationFor(ops[i], g.roots[i]) && OperationFor(ops[k], g.roots[k]);
      OneRoot(g.roots, i, k, x);
    }
  }

  lemma BaseShows(g: Setting, ops: seq<CommitOperation>, turns: seq<bool>, reserved: Name, s0: UndoState,
                  final: UndoState, i: nat, j: nat, y: Path)
    requires FlagsFit(g, ops, reserved) && Stands(g, ops, turns, reserved, s0, final, 0) && final.workspace == g.base
    requires GoesBackWith(ops, turns, reserved, i, j) && Above(ops[j].path, y)
    ensures Look(g.payload, y) == Look(g.base, Aside(reserved, y))
  {
    var x := Aside(reserved, y);
    assert FlagFits(g, ops[j]);
    AsideAbove(reserved, ops[j].path, y);
    AboveTransitive(ops[i].path, Aside(reserved, ops[j].path), x);
    NotReverted(g, ops, turns, i, x);
    assert Brings(ops, turns, reserved, i + 1, j, x) && x[1..] == y;
    assert Look(final.workspace, x) == View(g, ops, turns, reserved, s0.quarantine, 0, i, x);
  }

  lemma BaseShowsRefused(g: Setting, ops: seq<CommitOperation>, turns: seq<bool>, reserved: Name, s0: UndoState,
                         final: UndoState, j: nat, y: Path)
    requires FlagsFit(g, ops, reserved) && Stands(g, ops, turns, reserved, s0, final, 0) && final.workspace == g.base
    requires TurnsRight(g.payload, ops, reserved, s0.quarantine, turns) && j < |ops| && !turns[j]
      && Above(ops[j].path, y)
    ensures Look(g.payload, y) == Look(g.base, y)
  {
    assert FlagFits(g, ops[j]);
    assert turns[j] <==> GoesThrough(g.payload, ops, turns, reserved, s0.quarantine, j);
    assert Look(final.workspace, y) == View(g, ops, turns, reserved, s0.quarantine, 0, j, y);
  }

  /** What the loop leaves is the baseline exactly if everything that stayed or travelled is. */
  lemma FinalIsBase(g: Setting, ops: seq<CommitOperation>, turns: seq<bool>, reserved: Name, s0: UndoState,
                    final: UndoState)
    requires FlagsFit(g, ops, reserved) && Found(g, ops, s0.quarantine) && Stands(g, ops, turns, reserved, s0, final, 0)
    requires TurnsRight(g.payload, ops, reserved, s0.quarantine, turns)
    ensures final.workspace == g.base <==> LeavesBase(g, ops, turns, reserved)
  {
    if LeavesBase(g, ops, turns, reserved) {
      forall x ensures Look(final.workspace, x) == Look(g.base, x) {
        FinalAt(g, ops, turns, reserved, s0, final, x);
      }
      SameTree(final.workspace, g.base);
    }
    if final.workspace == g.base {
      forall i: nat, j: nat | GoesBackWith(ops, turns, reserved, i, j) ensures SameThere(g, reserved, ops[j].path) {
        forall y | Above(ops[j].path, y) ensures Look(g.payload, y) == Look(g.base, Aside(reserved, y)) {
          BaseShows(g, ops, turns, reserved, s0, final, i, j, y);
        }
      }
      forall j | 0 <= j < |ops| && !turns[j] ensures SameInPlace(g, ops[j].path) {
        forall y | Above(ops[j].path, y) ensures Look(g.payload, y) == Look(g.base, y) {
          BaseShowsRefused(g, ops, turns, reserved, s0, final, j, y);
        }
      }
    }
  }

  lemma FinalAt(g: Setting, ops: seq<CommitOperation>, turns: seq<bool>, reserved: Name, s0: UndoState,
                final: UndoState, x: Path)
    requires FlagsFit(g, ops, reserved) && Found(g, ops, s0.quarantine) && Stands(g, ops, turns, reserved, s0, final, 0)
    requires TurnsRight(g.payload, ops, reserved, s0.quarantine, turns) && LeavesBase(g, ops, turns, reserved)
    ensures Look(final.workspace, x) == Look(g.base, x)
  {
    if Covered(g.roots, x) {
      var i :| 0 <= i < |g.roots| && Above(g.roots[i].path, x);
      assert OperationFor(ops[i], g.roots[i]) && FlagFits(g, ops[i]);
      assert Look(final.workspace, x) == View(g, ops, turns, reserved, s0.quarantine, 0, i, x);
      assert turns[i] <==> GoesThrough(g.payload, ops, turns, reserved, s0.quarantine, i);
      if !turns[i] {
        assert SameInPlace(g, ops[i].path);
      } else if ops[i].backupMoved {
        ReturnedIsBase(g, ops, turns, reserved, s0.quarantine, i, x);
      }
    }
  }

  /** The outcome of an undo without a failing call, from whatever point the flags describe. Both
      loops end without an error exactly if every payload finds its place when its turn comes,
      with the same result; the rollback loop records exactly the others as errors, and what it
      leaves, error or not, is the baseline exactly if it recovers. */
  lemma OutcomeExact(g: Setting, ops: seq<CommitOperation>, cells: seq<Cell>, reserved: Name, s: UndoState)
    requires OperationsFor(ops, g.roots) && UndoneFrom(ops, cells, |ops|) && UndoOk(g, cells, reserved, s)
    ensures UndoFrom(s, reserved, ops, |ops|) == GuardedFrom(s, reserved, ops, |ops|)
    ensures GuardedFrom(s, reserved, ops, |ops|) ==
      if AllGo(Turns(g.payload, ops, reserved, s.quarantine, 0), |ops|) then Some(LoopAfter(s, reserved, ops, |ops|))
        else None
    ensures LoopErrors(s, reserved, ops, |ops|) ==
      TurnedDown(ops, Turns(g.payload, ops, reserved, s.quarantine, 0), |ops|)
    ensures LoopAfter(s, reserved, ops, |ops|).workspace == g.base <==> Recovers(g, ops, reserved, s.quarantine)
    ensures LoopAfter(s, reserved, ops, |ops|).landed <==>
      s.landed || LandsFrom(g.payload, ops, Turns(g.payload, ops, reserved, s.quarantine, 0), reserved, s.quarantine, 0)
  {
    var turns := Turns(g.payload, ops, reserved, s.quarantine, 0);
    TurnsAreRight(g.payload, ops, reserved, s.quarantine);
    StandsAtStart(g, ops, cells, turns, reserved, s);
    var final := LoopRuns(g, ops, turns, reserved, s, s, |ops|);
    FinalIsBase(g, ops, turns, reserved, s, final);
  }

  /** An undo ends without an error and at the baseline exactly if it returns, whatever it may
      land on. */
  lemma ReturnsExact(g: Setting, ops: seq<CommitOperation>, cells: seq<Cell>, reserved: Name, s: UndoState)
    requires OperationsFor(ops, g.roots) && UndoneFrom(ops, cells, |ops|) && UndoOk(g, cells, reserved, s)
    ensures var r := UndoFrom(s, reserved, ops, |ops|);
      r.Some? && r.value.workspace == g.base <==> Returns(g, ops, reserved, s.quarantine)
    ensures var r := GuardedFrom(s, reserved, ops, |ops|);
      r.Some? && r.value.workspace == g.base <==> Returns(g, ops, reserved, s.quarantine)
  {
    OutcomeExact(g, ops, cells, reserved, s);
    var turns := Turns(g.payload, ops, reserved, s.quarantine, 0);
    if AllGo(turns, |ops|) { LeavesUnmixed(g, ops, turns, reserved); }
  }

  /** A rollback without an error has brought the baseline back exactly if it is unmixed. */
  lemma SilentRollback(g: Setting, ops: seq<CommitOperation>, cells: seq<Cell>, reserved: Name, s: UndoState,
                       final: UndoState)
    requires OperationsFor(ops, g.roots) && UndoneFrom(ops, cells, |ops|) && UndoOk(g, cells, reserved, s)
    requires GuardedFrom(s, reserved, ops, |ops|) == Some(final)
    ensures final.workspace == g.base <==> Unmixed(g, ops, reserved)
  {
    OutcomeExact(g, ops, cells, reserved, s);
    LeavesUnmixed(g, ops, Turns(g.payload, ops, reserved, s.quarantine, 0), reserved);
  }

  /** What returns also recovers. */
  lemma ReturnsRecovers(g: Setting, ops: seq<CommitOperation>, reserved: Name, q0: Tree)
    ensures Returns(g, ops, reserved, q0) ==> Recovers(g, ops, reserved, q0)
  {
    var turns := Turns(g.payload, ops, reserved, q0, 0);
    if AllGo(turns, |ops|) { LeavesUnmixed(g, ops, turns, reserved); }
  }

  /** An undo with nothing in its way returns, and so recovers. */
  lemma UnblockedReturns(g: Setting, ops: seq<CommitOperation>, cells: seq<Cell>, reserved: Name, s: UndoState)
    requires OperationsFor(ops, g.roots) && UndoneFrom(ops, cells, |ops|) && UndoOk(g, cells, reserved, s)
    requires Unblocked(ops, s.quarantine, reserved)
    ensures Returns(g, ops, reserved, s.quarantine) && Recovers(g, ops, reserved, s.quarantine)
  {
    UndoGivesBaseline(g, ops, cells, reserved, s);
    ReturnsExact(g, ops, cells, reserved, s);
    ReturnsRecovers(g, ops, reserved, s.quarantine);
  }
}

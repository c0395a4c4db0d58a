/** The names the broker reserves inside a quarantine are ordinary names in a workspace. For each
    of them there is a plan that can be committed but not undone, one whose undo gives the
    baseline back although it lands on something, and one whose rollback reports no error over a
    workspace that is not the baseline. */
module Reserved {
  import opened Paths
  import opened Trees
  import opened Manifests
  import opened Diffs
  import opened Layout
  import opened Records
  import opened Undo
  import opened UndoExact
  import opened UndoCalls
  import opened UndoOutcome
  import opened Journal
  import opened Staging
  import opened Completed

  /** A name that may stand at the top of a workspace, apart from those the samples use. */
  predicate Usable(reserved: Name) {
    Acceptable([reserved]) && reserved != "x" && reserved != "y"
  }

  /** Both names the broker uses are such names. */
  lemma BrokerNames()
    ensures Usable(FAILED_NEW) && Usable(RESTORE_CURRENT)
  {
    assert FAILED_NEW[0] == '_' && RESTORE_CURRENT[0] == '_' && FAILED_NEW[1] == 'f' && RESTORE_CURRENT[1] == 'r';
  }

  // ----- plans with two roots

  /** A changed path whose proper prefixes are unchanged is a root itself. */
  lemma RootAt(b: Tree, s: Tree, roots: seq<Change>, x: Path) returns (i: nat)
    requires RootsOf(b, s, roots) && Look(b, x) != Look(s, x)
    requires forall k | 0 < k < |x| :: Look(b, x[..k]) == Look(s, x[..k])
    ensures i < |roots| && roots[i].path == x
    ensures roots[i].before.Some? <==> x in b
    ensures roots[i].after.Some? <==> x in s
  {
    assert Covered(roots, x);
    i :| 0 <= i < |roots| && Above(roots[i].path, x);
    assert roots[i] in roots;
    assert roots[i].path == x[..|roots[i].path|];
  }

  /** The trees differ at these two paths and nowhere else. */
  ghost predicate DifferAt(b: Tree, s: Tree, first: Path, second: Path) {
    && |first| < |second| && !Above(first, second) && first in b && first in s && second in b && second in s
    && forall x :: Look(b, x) != Look(s, x) <==> x == first || x == second
  }

  lemma OnlyThose(b: Tree, s: Tree, roots: seq<Change>, first: Path, second: Path, i: nat, j: nat, m: nat)
    requires DifferAt(b, s, first, second) && RootsOf(b, s, roots)
    requires i < |roots| && j < |roots| && roots[i].path == first && roots[j].path == second
    ensures m < |roots| ==> m == i || m == j
  {
    if m < |roots| {
      assert roots[m] in roots && Above(roots[m].path, roots[m].path);
      assert Look(b, roots[m].path) != Look(s, roots[m].path);
    }
  }

  /** The roots are those paths, the shorter one first. */
  lemma TwoRoots(b: Tree, s: Tree, roots: seq<Change>, first: Path, second: Path)
    requires DifferAt(b, s, first, second) && RootsOf(b, s, roots)
    ensures |roots| == 2 && roots[0].path == first && roots[1].path == second
    ensures roots[0].before.Some? && roots[0].after.Some? && roots[1].before.Some? && roots[1].after.Some?
  {
    forall k | 0 < k < |first| ensures Look(b, first[..k]) == Look(s, first[..k]) {
      assert |first[..k]| == k;
    }
    forall k | 0 < k < |second| ensures Look(b, second[..k]) == Look(s, second[..k]) {
      assert |second[..k]| == k && Above(second[..k], second);
    }
    var i := RootAt(b, s, roots, first);
    var j := RootAt(b, s, roots, second);
    OnlyThose(b, s, roots, first, second, i, j, 0);
    if |roots| > 1 { OnlyThose(b, s, roots, first, second, i, j, 1); }
    if |roots| > 2 { OnlyThose(b, s, roots, first, second, i, j, 2); }
  }

  lemma NothingHidden(t: Tree)
    ensures Visible(t, {}) == t && Hidden(t, {}) == map[]
  {
  }

  /** With nothing excluded, a complete commit leaves the staged tree itself. */
  lemma CompleteRun(b: Tree, s: Tree) returns (g: Setting, ops: seq<CommitOperation>, d: Disk)
    requires AcceptableTree(b) && AcceptableTree(s) && NoSpecials(s)
    ensures Shape(g, ops, d) && Progress(ops, |ops|) && g.base == b && d.workspace == s
    ensures g.roots == Roots(TreeDiff(b, s)) && PayloadIs(g.roots, |g.roots|, g.payload, s)
  {
    NothingHidden(b);
    NothingHidden(s);
    g, ops, d := CommitCompletes(b, s, {});
  }

  /** Two operations, both carried out on something old and something new. */
  ghost predicate TwoDone(g: Setting, ops: seq<CommitOperation>, d: Disk, first: Path, second: Path) {
    && Shape(g, ops, d) && Progress(ops, |ops|) && |ops| == 2
    && ops[0].path == first && ops[1].path == second
    && ops[0].installed && ops[0].backupMoved && ops[1].installed && ops[1].backupMoved
    && g.roots[0].path == first && g.roots[1].path == second
    && first in g.payload && second in g.payload && |first| < |second| && !Above(first, second)
  }

  lemma RunOfTwo(b: Tree, s: Tree, first: Path, second: Path) returns (g: Setting, ops: seq<CommitOperation>, d: Disk)
    requires AcceptableTree(b) && AcceptableTree(s) && NoSpecials(s) && DifferAt(b, s, first, second)
    ensures TwoDone(g, ops, d, first, second) && g.base == b && d.workspace == s
    ensures g.roots == Roots(TreeDiff(b, s)) && |g.roots| == 2
    ensures forall x | Above(first, x) || Above(second, x) :: Look(g.payload, x) == Look(s, x)
  {
    OperationRootsOfTrees(b, s);
    TwoRoots(b, s, Roots(TreeDiff(b, s)), first, second);
    g, ops, d := CompleteRun(b, s);
    TwoFlags(g, ops);
    PayloadAt(g, s, 0);
    PayloadAt(g, s, 1);
  }

  lemma PayloadAt(g: Setting, s: Tree, i: nat)
    requires PayloadIs(g.roots, |g.roots|, g.payload, s) && i < |g.roots| && g.roots[i].after.Some?
    ensures forall x | Above(g.roots[i].path, x) :: Look(g.payload, x) == Look(s, x)
    ensures g.roots[i].path in s ==> g.roots[i].path in g.payload
  {
    assert Above(g.roots[i].path, g.roots[i].path);
    assert Look(g.payload, g.roots[i].path) == Look(s, g.roots[i].path);
  }

  lemma TwoFlags(g: Setting, ops: seq<CommitOperation>)
    requires OperationsFor(ops, g.roots) && Progress(ops, |ops|) && |g.roots| == 2
    requires g.roots[0].before.Some? && g.roots[0].after.Some? && g.roots[1].before.Some? && g.roots[1].after.Some?
    ensures |ops| == 2 && ops[0].path == g.roots[0].path && ops[1].path == g.roots[1].path
    ensures ops[0].installed && ops[0].backupMoved && ops[1].installed && ops[1].backupMoved
  {
    assert OperationFor(ops[0], g.roots[0]) && OperationFor(ops[1], g.roots[1]);
    assert Finished(ops[0]) && Finished(ops[1]);
  }

  /** What such a commit leaves in quarantine: the two backups and the directories above them. */
  lemma FoundOfTwo(g: Setting, ops: seq<CommitOperation>, d: Disk, first: Path, second: Path, x: Path)
    requires TwoDone(g, ops, d, first, second)
    ensures Above(first, x) || Above(second, x) ==> Look(d.quarantine, x) == Look(g.base, x)
    ensures x in d.quarantine ==>
      Above(first, x) || Above(second, x) || (DirectoryAt(d.quarantine, x) && (Inside(x, first) || Inside(x, second)))
    ensures second in g.base && Inside(x, second) ==> DirectoryAt(d.quarantine, x)
  {
    var cells := CellsOf(ops);
    assert cells[0].old_ == InQuarantine && cells[1].old_ == InQuarantine;
    assert Above(second, second);
    assert Look(d.quarantine, second) == Look(g.base, second);
    if x in d.quarantine { assert Explained(g, cells, None, d.quarantine, x); }
  }

  /** What is held when the second turn comes, if the first went through. */
  lemma HeldAfterOne(payload: Tree, ops: seq<CommitOperation>, turns: seq<bool>, reserved: Name, q0: Tree, x: Path)
    requires |ops| == 2 == |turns| && ops[1].installed && ops[1].backupMoved && x != []
    ensures var aside := Aside(reserved, ops[1].path);
      Held(payload, ops, turns, reserved, q0, 1, 1, x) ==
        if !turns[1] then Look(q0, x)
        else if Above(ops[1].path, x) then None
        else if Above(aside, x) then Look(payload, x[1..])
        else if x in q0 then Some(q0[x])
        else if Inside(x, aside) then Some(NEW_DIRECTORY) else None
  {
    assert Stays(ops, turns, 1, 1, x) <==> !(turns[1] && Above(ops[1].path, x));
    assert Brings(ops, turns, reserved, 1, 1, x) <==>
      turns[1] && Above(Aside(reserved, ops[1].path), x) && !Above(ops[1].path, x);
    assert Passes(ops, turns, reserved, 1, 1, x) <==>
      turns[1] && Inside(x, Aside(reserved, ops[1].path)) && !Above(ops[1].path, x);
    assert Reverts(ops, turns, 1) <==> turns[1];
  }

  /** The turns of such an undo, and what they make of it. */
  lemma OutcomeOfTwo(g: Setting, ops: seq<CommitOperation>, d: Disk, first: Path, second: Path, reserved: Name)
    returns (turns: seq<bool>)
    requires TwoDone(g, ops, d, first, second) && Usable(reserved)
    ensures turns == Turns(g.payload, ops, reserved, d.quarantine, 0)
    ensures TurnsRight(g.payload, ops, reserved, d.quarantine, turns)
    ensures turns[0] <==> HeldTakes(g.payload, ops, turns, reserved, d.quarantine, 0)
    ensures turns[1] <==> HeldTakes(g.payload, ops, turns, reserved, d.quarantine, 1)
    ensures var s0 := UndoState(d.workspace, d.quarantine, false);
      && UndoFrom(s0, reserved, ops, 2) == GuardedFrom(s0, reserved, ops, 2)
      && (GuardedFrom(s0, reserved, ops, 2).Some? <==> turns[0] && turns[1])
      && (turns[0] && turns[1] ==>
            var final := GuardedFrom(s0, reserved, ops, 2).value;
            && (final.workspace == g.base <==> Unmixed(g, ops, reserved))
            && (final.landed <==> LandsFrom(g.payload, ops, turns, reserved, d.quarantine, 0)))
  {
    var s0 := UndoState(d.workspace, d.quarantine, false);
    assert CleanName(reserved) by { assert reserved in [reserved]; }
    ReadyToUndo(g, ops, d, reserved);
    turns := Turns(g.payload, ops, reserved, d.quarantine, 0);
    TurnsAreRight(g.payload, ops, reserved, d.quarantine);
    assert turns[0] <==> GoesThrough(g.payload, ops, turns, reserved, d.quarantine, 0);
    assert turns[1] <==> GoesThrough(g.payload, ops, turns, reserved, d.quarantine, 1);
    OutcomeExact(g, ops, CellsOf(ops), reserved, s0);
    if turns[0] && turns[1] {
      SilentRollback(g, ops, CellsOf(ops), reserved, s0, GuardedFrom(s0, reserved, ops, 2).value);
    }
  }

  // ----- a commit that cannot be undone, and one that can in spite of the clash

  /** A file deep below a directory with the reserved name, and something at `y`. */
  function Sample(reserved: Name, content: string, top: Node): Tree {
    map[[reserved] := Directory(493), [reserved, "y"] := Directory(493), [reserved, "y", "z"] := File(420, content),
        ["y"] := top]
  }

  function Deep(reserved: Name): Path {
    [reserved, "y", "z"]
  }

  lemma SampleIsAcceptable(reserved: Name, content: string, top: Node)
    requires Usable(reserved) && (top.File? || top.Directory?)
    ensures AcceptableTree(Sample(reserved, content, top)) && NoSpecials(Sample(reserved, content, top))
  {
    var t := Sample(reserved, content, top);
    assert CleanName(reserved) by { assert reserved in [reserved]; }
    assert CleanName("y") && CleanName("z") && !Rooted("y") && !DriveQualified("y");
    forall a, p | p in t && Inside(a, p) ensures DirectoryAt(t, a) {
      assert a == p[..|a|];
      if p == [reserved, "y", "z"] {
        assert a == [reserved] || a == [reserved, "y"];
      } else if p == [reserved, "y"] {
        assert a == [reserved];
      }
    }
  }

  lemma SamplesDiffer(reserved: Name, top: Node, other: Node)
    requires reserved != "y" && top != other
    ensures DifferAt(Sample(reserved, "1", top), Sample(reserved, "2", other), ["y"], Deep(reserved))
  {
    assert File(420, "1") != File(420, "2");
    assert ["y"][0] != Deep(reserved)[0];
  }

  /** The roots of such a plan clash with the reserved name. */
  lemma SampleRootsClash(reserved: Name, roots: seq<Change>)
    requires |roots| == 2 && roots[0].path == ["y"] && roots[1].path == Deep(reserved)
    requires roots[0].after.Some? && roots[1].before.Some?
    ensures !NoClash(roots, reserved)
  {
    assert Aside(reserved, ["y"]) == Deep(reserved)[..2];
    assert Clash(roots, reserved, 1, 0);
  }

  lemma SampleRun(reserved: Name, top: Node, other: Node) returns (g: Setting, ops: seq<CommitOperation>, d: Disk)
    requires Usable(reserved) && top != other && (top.File? || top.Directory?) && (other.File? || other.Directory?)
    ensures TwoDone(g, ops, d, ["y"], Deep(reserved)) && g.base == Sample(reserved, "1", top)
      && d.workspace == Sample(reserved, "2", other)
    ensures !NoClash(g.roots, reserved) && Look(g.payload, ["y"]) == Some(other)
  {
    var b, s := Sample(reserved, "1", top), Sample(reserved, "2", other);
    SampleIsAcceptable(reserved, "1", top);
    SampleIsAcceptable(reserved, "2", other);
    SamplesDiffer(reserved, top, other);
    g, ops, d := RunOfTwo(b, s, ["y"], Deep(reserved));
    assert OperationFor(ops[0], g.roots[0]) && OperationFor(ops[1], g.roots[1]);
    SampleRootsClash(reserved, g.roots);
    assert Look(g.payload, ["y"]) == Look(s, ["y"]);
  }

  /** Editing the file at `y` and the one below the reserved name: the commit runs to its end and
      leaves exactly the edited tree; undoing it, as restore or as rollback does, meets the
      directory left of the other backup where the edited file is to be set aside, and fails. */
  lemma UndoFails(reserved: Name) returns (g: Setting, ops: seq<CommitOperation>, d: Disk)
    requires Usable(reserved)
    ensures Shape(g, ops, d) && Progress(ops, |ops|)
    ensures g.base == Sample(reserved, "1", File(420, "1")) && d.workspace == Sample(reserved, "2", File(420, "2"))
    ensures UndoFrom(UndoState(d.workspace, d.quarantine, false), reserved, ops, |ops|) == None
    ensures GuardedFrom(UndoState(d.workspace, d.quarantine, false), reserved, ops, |ops|) == None
  {
    g, ops, d := SampleRun(reserved, File(420, "1"), File(420, "2"));
    var turns := OutcomeOfTwo(g, ops, d, ["y"], Deep(reserved), reserved);
    TopRefused(g, ops, d, reserved, turns);
  }

  lemma TopRefused(g: Setting, ops: seq<CommitOperation>, d: Disk, reserved: Name, turns: seq<bool>)
    requires Usable(reserved) && TwoDone(g, ops, d, ["y"], Deep(reserved)) && |turns| == 2
    requires Deep(reserved) in g.base && Look(g.payload, ["y"]) == Some(File(420, "2"))
    ensures !HeldTakes(g.payload, ops, turns, reserved, d.quarantine, 0)
  {
    var place := Aside(reserved, ["y"]);
    assert place == Deep(reserved)[..2];
    FoundOfTwo(g, ops, d, ["y"], Deep(reserved), place);
    HeldAfterOne(g.payload, ops, turns, reserved, d.quarantine, place);
    assert Aside(reserved, Deep(reserved))[1] == reserved;
  }

  /** Changing the mode of a directory at `y` instead: the names clash just as well, but the
      directory in the way is empty by then, and the undo gives the baseline back. */
  lemma UndoReturns(reserved: Name) returns (g: Setting, ops: seq<CommitOperation>, d: Disk)
    requires Usable(reserved)
    ensures Shape(g, ops, d) && Progress(ops, |ops|) && !NoClash(g.roots, reserved)
    ensures g.base == Sample(reserved, "1", Directory(493)) && d.workspace == Sample(reserved, "2", Directory(448))
    ensures var r := UndoFrom(UndoState(d.workspace, d.quarantine, false), reserved, ops, |ops|);
      r.Some? && r.value.workspace == g.base && r.value.landed
  {
    g, ops, d := SampleRun(reserved, Directory(493), Directory(448));
    var turns := OutcomeOfTwo(g, ops, d, ["y"], Deep(reserved), reserved);
    DeepGoes(g, ops, d, reserved, turns);
    TopReplaces(g, ops, d, reserved, turns);
    SampleUnmixed(g, ops, reserved);
    assert Lands(g.payload, ops, turns, reserved, d.quarantine, 0);
  }

  ghost predicate SampleEnd(g: Setting, ops: seq<CommitOperation>, d: Disk, reserved: Name, turns: seq<bool>) {
    && Usable(reserved) && TwoDone(g, ops, d, ["y"], Deep(reserved)) && |turns| == 2
    && g.base == Sample(reserved, "1", Directory(493)) && Look(g.payload, ["y"]) == Some(Directory(448))
  }

  lemma DeepGoes(g: Setting, ops: seq<CommitOperation>, d: Disk, reserved: Name, turns: seq<bool>)
    requires SampleEnd(g, ops, d, reserved, turns)
    ensures HeldTakes(g.payload, ops, turns, reserved, d.quarantine, 1)
  {
    var aside := Aside(reserved, Deep(reserved));
    assert aside == [reserved, reserved, "y", "z"];
    forall x | x != [] && Above(x, aside)
      ensures Held(g.payload, ops, turns, reserved, d.quarantine, 2, 2, x)
        == if x == [reserved] then Look(d.quarantine, x) else None
    {
      DeepHeld(g, ops, d, reserved, turns, x);
    }
    FoundOfTwo(g, ops, d, ["y"], Deep(reserved), [reserved]);
    assert Inside([reserved], Deep(reserved));
    forall a | Inside(a, aside) ensures OpenTo(Held(g.payload, ops, turns, reserved, d.quarantine, 2, 2, a)) {
    }
  }

  lemma DeepHeld(g: Setting, ops: seq<CommitOperation>, d: Disk, reserved: Name, turns: seq<bool>, x: Path)
    requires SampleEnd(g, ops, d, reserved, turns) && x != [] && Above(x, Aside(reserved, Deep(reserved)))
    ensures Held(g.payload, ops, turns, reserved, d.quarantine, 2, 2, x)
      == if x == [reserved] then Look(d.quarantine, x) else None
  {
    var aside := Aside(reserved, Deep(reserved));
    assert aside == [reserved, reserved, "y", "z"] && Deep(reserved)[1] == "y";
    HeldStart(g.payload, ops, turns, reserved, d.quarantine, x);
    FoundOfTwo(g, ops, d, ["y"], Deep(reserved), x);
    PrefixOf(x, aside);
    assert x[0] == reserved && (|x| > 1 ==> x[1] == reserved);
    assert |x| == 1 ==> x == [reserved];
  }

  lemma PrefixOf(x: Path, p: Path)
    requires Above(x, p)
    ensures x == p[..|x|] && |x| <= |p|
  {
  }

  lemma TopReplaces(g: Setting, ops: seq<CommitOperation>, d: Disk, reserved: Name, turns: seq<bool>)
    requires SampleEnd(g, ops, d, reserved, turns) && turns[1]
    ensures HeldTakes(g.payload, ops, turns, reserved, d.quarantine, 0)
    ensures Held(g.payload, ops, turns, reserved, d.quarantine, 1, 1, Aside(reserved, ["y"])).Some?
  {
    var place := Aside(reserved, ["y"]);
    assert place == Deep(reserved)[..2];
    HeldAtTop(g, ops, d, reserved, turns, place);
    forall a | Inside(a, place) ensures OpenTo(Held(g.payload, ops, turns, reserved, d.quarantine, 1, 1, a)) {
      PrefixOf(a, place);
      HeldAtTop(g, ops, d, reserved, turns, a);
    }
    forall x | Inside(place, x) ensures Held(g.payload, ops, turns, reserved, d.quarantine, 1, 1, x) == None {
      HeldAtTop(g, ops, d, reserved, turns, x);
    }
  }

  lemma HeldAtTop(g: Setting, ops: seq<CommitOperation>, d: Disk, reserved: Name, turns: seq<bool>, x: Path)
    requires SampleEnd(g, ops, d, reserved, turns) && turns[1] && x != []
    ensures x == [reserved] || x == Aside(reserved, ["y"]) ==>
      Held(g.payload, ops, turns, reserved, d.quarantine, 1, 1, x) == Look(d.quarantine, x)
        && DirectoryAt(d.quarantine, x)
    ensures Inside(Aside(reserved, ["y"]), x) ==> Held(g.payload, ops, turns, reserved, d.quarantine, 1, 1, x) == None
  {
    var aside, place := Aside(reserved, Deep(reserved)), Aside(reserved, ["y"]);
    assert aside == [reserved, reserved, "y", "z"] && place == Deep(reserved)[..2];
    HeldAfterOne(g.payload, ops, turns, reserved, d.quarantine, x);
    FoundOfTwo(g, ops, d, ["y"], Deep(reserved), x);
    if Inside(place, x) {
      assert x[0] == reserved && x[1] == "y" && |x| >= 3;
      assert !Inside(x, Deep(reserved)) && !Inside(x, ["y"]) && !Above(["y"], x);
      assert aside[1] == reserved;
    }
    if x == [reserved] { assert Inside(x, Deep(reserved)); }
    if x == place { assert Inside(x, Deep(reserved)) && aside[1] == reserved; }
  }

  lemma SampleUnmixed(g: Setting, ops: seq<CommitOperation>, reserved: Name)
    requires |ops| == 2 && ops[0].path == ["y"] && ops[1].path == Deep(reserved) && reserved != "y"
    ensures Unmixed(g, ops, reserved)
  {
    assert Aside(reserved, ops[1].path)[1] == reserved && Deep(reserved)[1] == "y";
    forall i, j | 0 <= i <= j < |ops| ensures !Above(ops[i].path, Aside(reserved, ops[j].path)) {
      assert Aside(reserved, ops[j].path)[0] == reserved;
    }
  }

  // ----- a rollback in which a call fails

  /** Two files whose places meet although the names do not clash. */
  function Flat(reserved: Name, top: string, low: string): Tree {
    map[[reserved] := Directory(493), [reserved, "y"] := File(420, low), ["y"] := File(420, top)]
  }

  lemma FlatIsAcceptable(reserved: Name, top: string, low: string)
    requires Usable(reserved)
    ensures AcceptableTree(Flat(reserved, top, low)) && NoSpecials(Flat(reserved, top, low))
  {
    var t := Flat(reserved, top, low);
    assert CleanName(reserved) by { assert reserved in [reserved]; }
    assert CleanName("y") && !Rooted("y") && !DriveQualified("y");
    forall a, p | p in t && Inside(a, p) ensures DirectoryAt(t, a) {
      assert a == p[..|a|];
      assert p == [reserved, "y"] && a == [reserved];
    }
  }

  lemma FlatsDiffer(reserved: Name)
    requires reserved != "y"
    ensures DifferAt(Flat(reserved, "a", "1"), Flat(reserved, "b", "2"), ["y"], [reserved, "y"])
  {
    assert File(420, "a") != File(420, "b") && File(420, "1") != File(420, "2");
    assert ["y"][0] != [reserved, "y"][0];
  }

  lemma FlatNamesApart(reserved: Name, roots: seq<Change>)
    requires |roots| == 2 && roots[0].path == ["y"] && roots[1].path == [reserved, "y"] && reserved != "y"
    requires roots[0].after.Some? && roots[1].before.Some?
    ensures NoClash(roots, reserved) && !Apart(roots, reserved)
  {
    assert Aside(reserved, ["y"]) == [reserved, "y"] && Aside(reserved, [reserved, "y"]) == [reserved, reserved, "y"];
    assert Above(roots[1].path, Aside(reserved, roots[0].path));
    assert !Above(["y"], [reserved, "y"]) by { assert ["y"][0] != [reserved, "y"][0]; }
    assert !Above(["y"], [reserved, reserved, "y"]) by { assert ["y"][0] != [reserved, reserved, "y"][0]; }
    assert !Above([reserved, "y"], [reserved, reserved, "y"]) by {
      assert [reserved, "y"][1] != [reserved, reserved, "y"][1];
    }
    forall i, j | 0 <= i < |roots| && 0 <= j < |roots| ensures !Clash(roots, reserved, i, j) {
      assert (i == 0 || i == 1) && (j == 0 || j == 1);
    }
  }

  /** Names that do not clash are not enough when a call fails. If one fails in the turn of the
      deeper file before anything moved, the loop goes on, and setting the other payload aside
      replaces the backup that was not put back: its content is nowhere any more. */
  lemma FailureLosesBackup(reserved: Name) returns (g: Setting, ops: seq<CommitOperation>, d: Disk, t: UndoState)
    requires Usable(reserved)
    ensures Shape(g, ops, d) && Progress(ops, |ops|) && |ops| == 2 && NoClash(g.roots, reserved)
      && !Apart(g.roots, reserved)
    ensures g.base == Flat(reserved, "a", "1") && d.workspace == Flat(reserved, "b", "2")
    ensures Look(d.quarantine, [reserved, "y"]) == Look(g.base, [reserved, "y"])
    ensures GuardedOne(UndoState(d.workspace, d.quarantine, false), reserved, ops[0]) == Some(t) && t.landed
    ensures Look(t.workspace, [reserved, "y"]) == Some(File(420, "2"))
      && Look(t.quarantine, [reserved, "y"]) == Some(File(420, "b"))
  {
    FlatIsAcceptable(reserved, "a", "1");
    FlatIsAcceptable(reserved, "b", "2");
    FlatsDiffer(reserved);
    g, ops, d := RunOfTwo(Flat(reserved, "a", "1"), Flat(reserved, "b", "2"), ["y"], [reserved, "y"]);
    assert OperationFor(ops[0], g.roots[0]) && OperationFor(ops[1], g.roots[1]);
    FlatNamesApart(reserved, g.roots);
    FoundOfTwo(g, ops, d, ["y"], [reserved, "y"], [reserved, "y"]);
    FoundOfTwo(g, ops, d, ["y"], [reserved, "y"], [reserved]);
    FoundOfTwo(g, ops, d, ["y"], [reserved, "y"], ["y"]);
    assert Inside([reserved], [reserved, "y"]);
    t := TopOverBackup(reserved, UndoState(d.workspace, d.quarantine, false), ops[0]);
  }

  lemma TopOverBackup(reserved: Name, s: UndoState, op: CommitOperation) returns (t: UndoState)
    requires Usable(reserved) && op.path == ["y"] && op.installed && op.backupMoved
    requires s.workspace == Flat(reserved, "b", "2") && !s.landed
    requires DirectoryAt(s.quarantine, [reserved]) && Look(s.quarantine, [reserved, "y"]) == Some(File(420, "1"))
    requires Look(s.quarantine, ["y"]) == Some(File(420, "a"))
    ensures GuardedOne(s, reserved, op) == Some(t) && t.landed
    ensures Look(t.workspace, [reserved, "y"]) == Some(File(420, "2"))
      && Look(t.quarantine, [reserved, "y"]) == Some(File(420, "b"))
  {
    var y: Path, place := ["y"], Aside(reserved, ["y"]);
    assert place == [reserved, "y"];
    TopTakes(reserved, s.quarantine);
    SetAsideWhen(s, reserved, y);
    var u := SetAsideOne(s, reserved, y).value;
    SetAsideAt(s, reserved, y, u, place);
    SetAsideAt(s, reserved, y, u, y);
    SetAsideLands(s, reserved, y, u);
    assert MakeParents(u.workspace, y) == Some(u.workspace) by {
      SameTree(MakeParents(u.workspace, y).value, u.workspace);
    }
    PutBackGoes(u, y);
    t := PutBackOne(u, y).value;
    PutBackAt(u, y, t, place);
  }

  lemma TopTakes(reserved: Name, q: Tree)
    requires Usable(reserved) && DirectoryAt(q, [reserved]) && Look(q, [reserved, "y"]) == Some(File(420, "1"))
    ensures Takes(q, Aside(reserved, ["y"]), File(420, "b"))
  {
    assert Aside(reserved, ["y"]) == [reserved, "y"];
    forall a | a in Ancestors([reserved, "y"]) ensures a == [reserved] {
      PrefixOf(a, [reserved, "y"]);
    }
  }

  lemma SetAsideLands(s: UndoState, reserved: Name, p: Path, u: UndoState)
    requires p != [] && SetAsideOne(s, reserved, p) == Some(u) && Aside(reserved, p) in s.quarantine
    ensures u.landed
  {
    var made := MakeParents(s.quarantine, Aside(reserved, p)).value;
    assert Look(made, Aside(reserved, p)) == Look(s.quarantine, Aside(reserved, p));
  }

  // ----- a rollback that reports no error and misses the baseline

  /** A directory with the reserved name and a file elsewhere. */
  function Quiet(reserved: Name, mode: nat, content: string): Tree {
    map[[reserved] := Directory(mode), ["x"] := Directory(493), ["x", "y"] := File(420, content)]
  }

  lemma QuietIsAcceptable(reserved: Name, mode: nat, content: string)
    requires Usable(reserved)
    ensures AcceptableTree(Quiet(reserved, mode, content)) && NoSpecials(Quiet(reserved, mode, content))
  {
    var t := Quiet(reserved, mode, content);
    assert CleanName(reserved) by { assert reserved in [reserved]; }
    assert CleanName("x") && CleanName("y") && !Rooted("x") && !DriveQualified("x");
    forall a, p | p in t && Inside(a, p) ensures DirectoryAt(t, a) {
      assert a == p[..|a|];
      assert p == ["x", "y"] && a == ["x"];
    }
  }

  lemma QuietsDiffer(reserved: Name)
    requires reserved != "x"
    ensures DifferAt(Quiet(reserved, 493, "1"), Quiet(reserved, 448, "2"), [reserved], ["x", "y"])
  {
    assert File(420, "1") != File(420, "2");
    assert [reserved][0] != ["x", "y"][0];
  }

  ghost predicate QuietEnd(g: Setting, ops: seq<CommitOperation>, d: Disk, reserved: Name, turns: seq<bool>) {
    && Usable(reserved) && TwoDone(g, ops, d, [reserved], ["x", "y"]) && |turns| == 2
    && g.base == Quiet(reserved, 493, "1")
    && Look(g.payload, [reserved]) == Some(Directory(448)) && Look(g.payload, ["x", "y"]) == Some(File(420, "2"))
  }

  /** The rollback after that commit: no error, nothing landed on, and not the baseline. */
  lemma SilentMiss(reserved: Name) returns (g: Setting, ops: seq<CommitOperation>, d: Disk, final: UndoState)
    requires Usable(reserved)
    ensures Shape(g, ops, d) && Progress(ops, |ops|) && g.base == Quiet(reserved, 493, "1")
      && d.workspace == Quiet(reserved, 448, "2")
    ensures GuardedFrom(UndoState(d.workspace, d.quarantine, false), reserved, ops, |ops|) == Some(final)
    ensures !final.landed && final.workspace != g.base
  {
    QuietIsAcceptable(reserved, 493, "1");
    QuietIsAcceptable(reserved, 448, "2");
    QuietsDiffer(reserved);
    g, ops, d := RunOfTwo(Quiet(reserved, 493, "1"), Quiet(reserved, 448, "2"), [reserved], ["x", "y"]);
    var turns := OutcomeOfTwo(g, ops, d, [reserved], ["x", "y"], reserved);
    QuietPayload(g, reserved);
    QuietFileGoes(g, ops, d, reserved, turns);
    QuietTopGoes(g, ops, d, reserved, turns);
    QuietMixes(g, ops, reserved);
    QuietLandsNowhere(g, ops, d, reserved, turns);
    final := GuardedFrom(UndoState(d.workspace, d.quarantine, false), reserved, ops, 2).value;
  }

  lemma QuietPayload(g: Setting, reserved: Name)
    requires reserved != "x"
    requires forall x | Above([reserved], x) || Above(["x", "y"], x) ::
      Look(g.payload, x) == Look(Quiet(reserved, 448, "2"), x)
    ensures Look(g.payload, [reserved]) == Some(Directory(448)) && Look(g.payload, ["x", "y"]) == Some(File(420, "2"))
  {
    assert Above([reserved], [reserved]) && Above(["x", "y"], ["x", "y"]);
  }

  /** Quarantine paths below the reserved name, when either turn comes. */
  lemma QuietHeld(g: Setting, ops: seq<CommitOperation>, d: Disk, reserved: Name, turns: seq<bool>, x: Path)
    requires QuietEnd(g, ops, d, reserved, turns) && x != [] && x[0] == reserved
    ensures Held(g.payload, ops, turns, reserved, d.quarantine, 2, 2, x)
      == if x == [reserved] then Some(Directory(493)) else None
    ensures turns[1] && (x == [reserved] || x == [reserved, reserved]) ==>
      Held(g.payload, ops, turns, reserved, d.quarantine, 1, 1, x)
        == if x == [reserved] then Some(Directory(493)) else None
  {
    var aside := Aside(reserved, ["x", "y"]);
    assert aside == [reserved, "x", "y"];
    assert Above([reserved], x);
    HeldStart(g.payload, ops, turns, reserved, d.quarantine, x);
    FoundOfTwo(g, ops, d, [reserved], ["x", "y"], x);
    HeldAfterOne(g.payload, ops, turns, reserved, d.quarantine, x);
    assert aside[1] == "x" && aside[0] == reserved;
  }

  lemma QuietFileGoes(g: Setting, ops: seq<CommitOperation>, d: Disk, reserved: Name, turns: seq<bool>)
    requires QuietEnd(g, ops, d, reserved, turns)
    ensures HeldTakes(g.payload, ops, turns, reserved, d.quarantine, 1)
    ensures Held(g.payload, ops, turns, reserved, d.quarantine, 2, 2, Aside(reserved, ["x", "y"])) == None
  {
    var aside := Aside(reserved, ["x", "y"]);
    assert aside == [reserved, "x", "y"];
    QuietHeld(g, ops, d, reserved, turns, aside);
    forall a | Inside(a, aside) ensures OpenTo(Held(g.payload, ops, turns, reserved, d.quarantine, 2, 2, a)) {
      assert a[0] == reserved;
      QuietHeld(g, ops, d, reserved, turns, a);
    }
  }

  lemma QuietTopGoes(g: Setting, ops: seq<CommitOperation>, d: Disk, reserved: Name, turns: seq<bool>)
    requires QuietEnd(g, ops, d, reserved, turns) && turns[1]
    ensures HeldTakes(g.payload, ops, turns, reserved, d.quarantine, 0)
    ensures Held(g.payload, ops, turns, reserved, d.quarantine, 1, 1, Aside(reserved, [reserved])) == None
  {
    var aside := Aside(reserved, [reserved]);
    assert aside == [reserved, reserved];
    QuietHeld(g, ops, d, reserved, turns, aside);
    forall a | Inside(a, aside) ensures OpenTo(Held(g.payload, ops, turns, reserved, d.quarantine, 1, 1, a)) {
      PrefixOf(a, aside);
      assert a == [reserved];
      QuietHeld(g, ops, d, reserved, turns, a);
    }
  }

  lemma QuietLandsNowhere(g: Setting, ops: seq<CommitOperation>, d: Disk, reserved: Name, turns: seq<bool>)
    requires QuietEnd(g, ops, d, reserved, turns) && turns[1]
    ensures !LandsFrom(g.payload, ops, turns, reserved, d.quarantine, 0)
  {
    QuietFileGoes(g, ops, d, reserved, turns);
    QuietTopGoes(g, ops, d, reserved, turns);
    forall j: nat | j < |ops| ensures !Lands(g.payload, ops, turns, reserved, d.quarantine, j) {
      assert j == 0 || j == 1;
    }
  }

  lemma QuietMixes(g: Setting, ops: seq<CommitOperation>, reserved: Name)
    requires |ops| == 2 && ops[0].path == [reserved] && ops[1].path == ["x", "y"] && ops[0].backupMoved
      && ops[1].installed
    requires Look(g.payload, ["x", "y"]).Some? && g.base == Quiet(reserved, 493, "1") && reserved != "x"
    ensures !Unmixed(g, ops, reserved)
  {
    assert Above(ops[0].path, Aside(reserved, ops[1].path)) && Above(ops[1].path, ops[1].path);
    assert Aside(reserved, ops[1].path) == [reserved, "x", "y"];
    assert Look(g.payload, ops[1].path) != Look(g.base, Aside(reserved, ops[1].path));
  }

  // ----- the same at the names the broker uses

  /** A commit that restore cannot undo: its loop raises. */
  lemma RestoreFails() returns (g: Setting, ops: seq<CommitOperation>, d: Disk)
    ensures Shape(g, ops, d) && Progress(ops, |ops|)
    ensures g.base == Sample("_restore_current", "1", File(420, "1"))
      && d.workspace == Sample("_restore_current", "2", File(420, "2"))
    ensures UndoFrom(UndoState(d.workspace, d.quarantine, false), RESTORE_CURRENT, ops, |ops|) == None
  {
    BrokerNames();
    g, ops, d := UndoFails(RESTORE_CURRENT);
  }

  /** A commit that a rollback cannot undo: it records an error. */
  lemma RollbackFails() returns (g: Setting, ops: seq<CommitOperation>, d: Disk)
    ensures Shape(g, ops, d) && Progress(ops, |ops|)
    ensures g.base == Sample("_failed_new", "1", File(420, "1"))
      && d.workspace == Sample("_failed_new", "2", File(420, "2"))
    ensures GuardedFrom(UndoState(d.workspace, d.quarantine, false), FAILED_NEW, ops, |ops|) == None
  {
    BrokerNames();
    g, ops, d := UndoFails(FAILED_NEW);
  }

  /** A clash that does no harm: a restore that lands on an empty directory. */
  lemma RestoreOverEmpty() returns (g: Setting, ops: seq<CommitOperation>, d: Disk)
    ensures Shape(g, ops, d) && Progress(ops, |ops|) && !NoClash(g.roots, RESTORE_CURRENT)
    ensures var r := UndoFrom(UndoState(d.workspace, d.quarantine, false), RESTORE_CURRENT, ops, |ops|);
      r.Some? && r.value.workspace == g.base && r.value.landed
  {
    BrokerNames();
    g, ops, d := UndoReturns(RESTORE_CURRENT);
  }

  /** The loop of _rollback_failed_commit ends without an error, so the record says rolled_back,
      over a workspace that is not the baseline. */
  lemma RollbackMissesSilently() returns (g: Setting, ops: seq<CommitOperation>, d: Disk, final: UndoState)
    ensures Shape(g, ops, d) && Progress(ops, |ops|) && g.base == Quiet("_failed_new", 493, "1")
      && d.workspace == Quiet("_failed_new", 448, "2")
    ensures GuardedFrom(UndoState(d.workspace, d.quarantine, false), FAILED_NEW, ops, |ops|) == Some(final)
    ensures !final.landed && final.workspace != g.base
  {
    BrokerNames();
    g, ops, d, final := SilentMiss(FAILED_NEW);
  }

  /** One failing call in a rollback can lose a backup although no names clash. */
  lemma RollbackLosesBackup() returns (g: Setting, ops: seq<CommitOperation>, d: Disk, t: UndoState)
    ensures Shape(g, ops, d) && Progress(ops, |ops|) && |ops| == 2 && NoClash(g.roots, FAILED_NEW)
    ensures g.base == Flat("_failed_new", "a", "1") && d.workspace == Flat("_failed_new", "b", "2")
    ensures GuardedOne(UndoState(d.workspace, d.quarantine, false), FAILED_NEW, ops[0]) == Some(t) && t.landed
    ensures Look(t.workspace, ["_failed_new", "y"]) == Some(File(420, "2"))
      && Look(t.quarantine, ["_failed_new", "y"]) == Some(File(420, "b"))
  {
    BrokerNames();
    g, ops, d, t := FailureLosesBackup(FAILED_NEW);
  }
}

/** The symlink check of the result policy. */
module Symlinks {
  import opened Paths

  datatype UnsafeReason = MalformedTarget | AbsoluteTarget | EscapesWorkspace | EntersProtected

  /** Backslashes count as separators too. */
  function Normalized(target: string): (r: string)
    ensures |r| == |target|
    ensures forall i | 0 <= i < |r| :: r[i] == if target[i] == '\\' then '/' else target[i]
  {
    seq(|target|, i requires 0 <= i < |target| => if target[i] == '\\' then '/' else target[i])
  }

  predicate Malformed(target: Option<string>) {
    target.None? || target.value == "" || '\0' in target.value
  }

  predicate AbsoluteText(target: string) {
    Rooted(target) || DriveQualified(target)
  }

  /** The depth below the workspace root after the first `k` components, counted from the
      depth of the directory that holds the link; it goes negative when the walk escapes. */
  function Depth(start: int, parts: seq<string>, k: nat): int
    requires k <= |parts|
  {
    if k == 0 then start else Depth(start, parts, k - 1) + (if parts[k - 1] == ".." then -1 else 1)
  }

  predicate NeverEscapes(start: nat, parts: seq<string>) {
    forall k | 0 <= k <= |parts| :: Depth(start, parts, k) >= 0
  }

  /** Where the first `k` components lead when no filesystem is asked. */
  function Lead(from: Path, parts: seq<string>, k: nat): Path
    requires k <= |parts|
  {
    if k == 0 then from else
      var at := Lead(from, parts, k - 1);
      if parts[k - 1] != ".." then at + [parts[k - 1]]
      else if at == [] then [] else at[..|at| - 1]
  }

  predicate StartsProtected(at: Path, casefold: string -> string, protected: seq<string>) {
    at != [] && exists name | name in protected :: casefold(name) == casefold(at[0])
  }

  /** The verdict without a stack: depths decide about escaping, the place reached about protection. */
  function Reason(linkPath: Path, target: Option<string>, casefold: string -> string,
                  protected: seq<string>): Option<UnsafeReason>
    requires linkPath != []
  {
    if Malformed(target) then Some(MalformedTarget)
    else if AbsoluteText(target.value) then Some(AbsoluteTarget)
    else
      var parts := Parts(Normalized(target.value));
      if !NeverEscapes(|linkPath| - 1, parts) then Some(EscapesWorkspace)
      else if StartsProtected(Lead(linkPath[..|linkPath| - 1], parts, |parts|), casefold, protected)
        then Some(EntersProtected)
      else None
  }

  /** _unsafe_symlink_reason: no reason is given exactly when the target is well formed and
      relative, no prefix of the walk rises above the workspace root, and the place it leads
      to is not below a protected name. */
  method UnsafeSymlinkReason(linkPath: Path, target: Option<string>, casefold: string -> string, protected: seq<string>)
    returns (reason: Option<UnsafeReason>)
    requires linkPath != []
    ensures reason == Reason(linkPath, target, casefold, protected)
  {
    if target.None? || target.value == "" || '\0' in target.value {
      return Some(MalformedTarget);
    }
    if AbsoluteText(target.value) {
      return Some(AbsoluteTarget);
    }
    var parent := linkPath[..|linkPath| - 1];
    var components := parent;
    var parts := Parts(Normalized(target.value));
    var k := 0;
    while k < |parts|
      invariant 0 <= k <= |parts|
      invariant components == Lead(parent, parts, k) && |components| == Depth(|parent|, parts, k)
      invariant forall i | 0 <= i <= k :: Depth(|parent|, parts, i) >= 0
    {
      if parts[k] == ".." {
        if components == [] {
          assert Depth(|parent|, parts, k + 1) == -1;
          return Some(EscapesWorkspace);
        }
        components := components[..|components| - 1];
      } else {
        components := components + [parts[k]];
      }
      k := k + 1;
    }
    if components != [] && exists name | name in protected :: casefold(name) == casefold(components[0]) {
      return Some(EntersProtected);
    }
    return None;
  }

  function Ups(parts: seq<string>): nat {
    if parts == [] then 0 else Ups(parts[..|parts| - 1]) + (if parts[|parts| - 1] == ".." then 1 else 0)
  }

  /** The depth is the parent depth plus the names minus the `..`s read so far. */
  lemma {:induction false} DepthCounts(start: int, parts: seq<string>, k: nat)
    requires k <= |parts|
    ensures Depth(start, parts, k) == start + (k - Ups(parts[..k])) - Ups(parts[..k])
  {
    if k > 0 {
      DepthCounts(start, parts, k - 1);
      assert parts[..k][..k - 1] == parts[..k - 1];
    }
  }

  /** A walk that never escapes can be cut anywhere: following the whole target is following
      its first part and then the rest from there. */
  lemma {:induction false} LeadComposes(from: Path, a: seq<string>, b: seq<string>, k: nat)
    requires k <= |b|
    ensures Lead(from, a + b, |a| + k) == Lead(Lead(from, a, |a|), b, k)
    decreases k
  {
    if k == 0 {
      LeadPrefix(from, a, b, |a|);
    } else {
      LeadComposes(from, a, b, k - 1);
    }
  }

  lemma {:induction false} LeadPrefix(from: Path, a: seq<string>, b: seq<string>, k: nat)
    requires k <= |a|
    ensures Lead(from, a + b, k) == Lead(from, a, k)
  {
    if k > 0 { LeadPrefix(from, a, b, k - 1); }
  }

  // ----- what makes a link unsafe

  /** How far below the workspace root the walk is after `k` components of a link's target,
      counted from the directory that holds the link. */
  function Height(link: Path, parts: seq<string>, k: nat): int
    requires link != [] && k <= |parts|
  {
    |link| - 1 + k - 2 * multiset(parts[..k])[".."]
  }

  lemma {:induction false} HeightIsDepth(link: Path, parts: seq<string>, k: nat)
    requires link != [] && k <= |parts|
    ensures Height(link, parts, k) == Depth(|link| - 1, parts, k)
    decreases k
  {
    if k > 0 {
      HeightIsDepth(link, parts, k - 1);
      assert parts[..k] == parts[..k - 1] + [parts[k - 1]];
    }
  }

  /** After `n` components, all of them in the workspace, the walk is below the top-level name `top`:
      the one it entered when it last left the root, or the one the link is in if it never came up
      there. */
  predicate EndsBelow(link: Path, parts: seq<string>, n: nat, top: Name)
    requires link != [] && n <= |parts|
  {
    || (|link| > 1 && link[0] == top && forall j | 0 <= j <= n :: Height(link, parts, j) > 0)
    || exists k :: 0 <= k < n && LeavesRoot(link, parts, k, n) && parts[k] == top
  }

  predicate LeavesRoot(link: Path, parts: seq<string>, k: nat, n: nat)
    requires link != [] && k < n <= |parts|
  {
    Height(link, parts, k) == 0 && forall j | k < j <= n :: Height(link, parts, j) > 0
  }

  lemma HeightStep(link: Path, parts: seq<string>, n: nat)
    requires link != [] && n < |parts|
    ensures Height(link, parts, n + 1) == Height(link, parts, n) + (if parts[n] == ".." then -1 else 1)
  {
    assert parts[..n + 1] == parts[..n] + [parts[n]];
  }

  lemma EndsBelowStep(link: Path, parts: seq<string>, n: nat, top: Name)
    requires link != [] && n < |parts| && Height(link, parts, n) >= 0
    ensures EndsBelow(link, parts, n + 1, top) <==>
      Height(link, parts, n + 1) > 0
        && (if Height(link, parts, n) == 0 then parts[n] == top else EndsBelow(link, parts, n, top))
  {
    hide Height;
    if k :| 0 <= k < n + 1 && LeavesRoot(link, parts, k, n + 1) && parts[k] == top {
      if k < n { assert LeavesRoot(link, parts, k, n); }
    }
    if Height(link, parts, n + 1) > 0 {
      if Height(link, parts, n) == 0 && parts[n] == top { assert LeavesRoot(link, parts, n, n + 1); }
      if k :| 0 <= k < n && LeavesRoot(link, parts, k, n) && parts[k] == top {
        assert LeavesRoot(link, parts, k, n + 1);
      }
    }
  }

  /** The top-level name of the place the first `n` components lead to. */
  lemma {:induction false} LeadTop(link: Path, parts: seq<string>, n: nat, top: Name)
    requires link != [] && n <= |parts| && forall k | 0 <= k <= n :: Height(link, parts, k) >= 0
    ensures var at := Lead(link[..|link| - 1], parts, n);
      |at| == Height(link, parts, n) && (at != [] && at[0] == top <==> EndsBelow(link, parts, n, top))
    decreases n
  {
    if n > 0 {
      LeadTop(link, parts, n - 1, top);
      HeightStep(link, parts, n - 1);
      EndsBelowStep(link, parts, n - 1, top);
    }
  }

  /** Each reason and no reason, from the text of the target and the heights of the walk. */
  lemma ReasonExactly(link: Path, target: Option<string>, casefold: string -> string, protected: seq<string>)
    requires link != []
    ensures var r := Reason(link, target, casefold, protected);
      && (r == Some(MalformedTarget) <==> target == None || target == Some("") || '\0' in target.value)
      && (r == Some(AbsoluteTarget) <==>
        && target.Some? && target.value != "" && '\0' !in target.value
        && (target.value[0] == '/' || target.value[0] == '\\' || (|target.value| >= 2 && target.value[1] == ':')))
    ensures var r := Reason(link, target, casefold, protected);
      r != Some(MalformedTarget) && r != Some(AbsoluteTarget) ==>
        var parts := Parts(Normalized(target.value));
        && (r == Some(EscapesWorkspace) <==> exists k :: 0 <= k <= |parts| && Height(link, parts, k) < 0)
        && (r == Some(EntersProtected) <==>
          && (forall k | 0 <= k <= |parts| :: Height(link, parts, k) >= 0)
          && exists name, top ::
            name in protected && EndsBelow(link, parts, |parts|, top) && casefold(name) == casefold(top))
  {
    if !Malformed(target) && !AbsoluteText(target.value) {
      ReasonByHeights(link, Parts(Normalized(target.value)), casefold, protected);
    }
  }

  lemma ReasonByHeights(link: Path, parts: seq<string>, casefold: string -> string, protected: seq<string>)
    requires link != []
    ensures NeverEscapes(|link| - 1, parts) <==> forall k | 0 <= k <= |parts| :: Height(link, parts, k) >= 0
    ensures NeverEscapes(|link| - 1, parts) ==>
      (StartsProtected(Lead(link[..|link| - 1], parts, |parts|), casefold, protected) <==>
        exists name, top ::
          name in protected && EndsBelow(link, parts, |parts|, top) && casefold(name) == casefold(top))
  {
    var start := |link| - 1;
    if forall k | 0 <= k <= |parts| :: Height(link, parts, k) >= 0 {
      forall k | 0 <= k <= |parts| ensures Depth(start, parts, k) >= 0 { HeightIsDepth(link, parts, k); }
    }
    if NeverEscapes(start, parts) {
      forall k | 0 <= k <= |parts| ensures Height(link, parts, k) >= 0 { HeightIsDepth(link, parts, k); }
      var at := Lead(link[..|link| - 1], parts, |parts|);
      forall top ensures at != [] && at[0] == top <==> EndsBelow(link, parts, |parts|, top) {
        LeadTop(link, parts, |parts|, top);
      }
      if at != [] { assert EndsBelow(link, parts, |parts|, at[0]); }
    }
  }
}

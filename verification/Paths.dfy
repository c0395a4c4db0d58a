/** Relative paths as sequences of components, their text, and the order in which
    the broker sorts them. */
module Paths {

  datatype Option<+T> = None | Some(value: T)

  type Name = string
  type Path = seq<Name>

  /** What a directory listing can return as a name. */
  predicate CleanName(n: Name) {
    n != "" && n != "." && n != ".." && '/' !in n && '\0' !in n
  }

  predicate Clean(p: Path) {
    p != [] && forall n | n in p :: CleanName(n)
  }

  /** The posix text of a relative path. */
  function Text(p: Path): string {
    if p == [] then "" else if |p| == 1 then p[0] else p[0] + "/" + Text(p[1..])
  }

  /** Splits on '/', `cur` being the component read so far. */
  function SplitFrom(s: string, cur: string): seq<string> {
    if s == [] then [cur]
    else if s[0] == '/' then [cur] + SplitFrom(s[1..], "")
    else SplitFrom(s[1..], cur + [s[0]])
  }

  function DropEmpty(parts: seq<string>): (r: seq<string>)
    ensures forall n | n in r :: n != "" && n != "."
  {
    if parts == [] then []
    else if parts[0] == "" || parts[0] == "." then DropEmpty(parts[1..])
    else [parts[0]] + DropEmpty(parts[1..])
  }

  /** The components pathlib sees in a relative posix text: empty and "." parts vanish. */
  function Parts(s: string): seq<string> {
    DropEmpty(SplitFrom(s, ""))
  }

  /** A drive prefix as PureWindowsPath reads it. */
  predicate DriveQualified(s: string) {
    |s| >= 2 && s[1] == ':'
  }

  predicate Rooted(s: string) {
    s != "" && (s[0] == '/' || s[0] == '\\')
  }

  /** validate_relative_path: the components of an accepted text, None when it raises. */
  function ValidateRelative(value: string): Option<Path> {
    if value == "" || '\0' in value || Rooted(value) || DriveQualified(value) || ".." in Parts(value)
    then None
    else Some(Parts(value))
  }

  /** safe_join below a root given by its components. */
  function SafeJoin(root: Path, value: string): Option<Path> {
    match ValidateRelative(value)
    case None => None
    case Some(rel) => if rel == [] then None else Some(root + rel)
  }

  /** The paths whose text the validator accepts. */
  predicate Acceptable(p: Path) {
    Clean(p) && !Rooted(p[0]) && !DriveQualified(p[0])
  }

  lemma {:induction false} SplitName(n: string, rest: string, cur: string)
    requires '/' !in n
    ensures SplitFrom(n + "/" + rest, cur) == [cur + n] + SplitFrom(rest, "")
    decreases |n|
  {
    if n == "" {
      assert n + "/" + rest == "/" + rest;
      assert ("/" + rest)[1..] == rest && cur + n == cur;
    } else {
      assert (n + "/" + rest)[0] == n[0] && (n + "/" + rest)[1..] == n[1..] + "/" + rest;
      SplitName(n[1..], rest, cur + [n[0]]);
      assert cur + [n[0]] + n[1..] == cur + n;
    }
  }

  lemma {:induction false} SplitLast(n: string, cur: string)
    requires '/' !in n
    ensures SplitFrom(n, cur) == [cur + n]
    decreases |n|
  {
    if n == "" {
      assert cur + n == cur;
    } else {
      SplitLast(n[1..], cur + [n[0]]);
      assert cur + [n[0]] + n[1..] == cur + n;
    }
  }

  /** Parsing undoes printing, so distinct clean paths have distinct texts. */
  lemma {:induction false} PartsOfText(p: Path)
    requires Clean(p)
    ensures Parts(Text(p)) == p
    ensures SplitFrom(Text(p), "") == p
    decreases |p|
  {
    assert CleanName(p[0]);
    assert "" + p[0] == p[0];
    if |p| == 1 {
      SplitLast(p[0], "");
      assert SplitFrom(Text(p), "") == [p[0]] == p;
    } else {
      assert forall n | n in p[1..] :: n in p;
      PartsOfText(p[1..]);
      SplitName(p[0], Text(p[1..]), "");
      assert [p[0]] + p[1..] == p;
    }
    NothingDropped(p);
  }

  lemma {:induction false} NothingDropped(p: seq<string>)
    requires forall n | n in p :: n != "" && n != "."
    ensures DropEmpty(p) == p
  {
    if p != [] {
      assert forall n | n in p[1..] :: n in p;
      NothingDropped(p[1..]);
      assert p[0] in p && p == [p[0]] + p[1..];
    }
  }

  lemma TextInjective(p: Path, q: Path)
    requires Clean(p) && Clean(q) && Text(p) == Text(q)
    ensures p == q
  {
    PartsOfText(p);
    PartsOfText(q);
  }

  lemma {:induction false} TextHead(p: Path)
    requires Clean(p)
    ensures CleanName(p[0]) && Text(p) != "" && Text(p)[0] == p[0][0] && '\0' !in Text(p)
    ensures |p[0]| >= 2 ==> |Text(p)| >= 2 && Text(p)[1] == p[0][1]
    ensures |p[0]| == 1 && |p| > 1 ==> |Text(p)| >= 2 && Text(p)[1] == '/'
    ensures |p[0]| == 1 && |p| == 1 ==> |Text(p)| == 1
  {
    assert CleanName(p[0]);
    if |p| > 1 {
      assert forall n | n in p[1..] :: n in p;
      TextHead(p[1..]);
      var rest := "/" + Text(p[1..]);
      assert Text(p) == p[0] + rest;
      assert '\0' !in rest;
    }
  }

  /** The text of a clean path is accepted exactly when its first component is neither rooted
      nor drive-qualified, and then it validates to the very same components. */
  lemma ValidateText(p: Path)
    requires Clean(p)
    ensures ValidateRelative(Text(p)) == if Acceptable(p) then Some(p) else None
  {
    PartsOfText(p);
    TextHead(p);
    assert CleanName(p[0]);
    assert !CleanName("..");
  }

  /** The text holds `..` as a component, seen from the slash before it at `i`. */
  predicate UpAt(padded: string, i: nat) {
    i + 4 <= |padded| && padded[i..i + 4] == "/../"
  }

  lemma {:induction false} UpsInSplit(s: string, cur: string)
    requires '/' !in cur
    ensures ".." in SplitFrom(s, cur) <==> exists i :: UpAt("/" + cur + s + "/", i)
    decreases |s|
  {
    var t := "/" + cur + s + "/";
    if s == [] {
      UpInOne(cur);
      assert t == "/" + cur + "/";
    } else if s[0] == '/' {
      UpsInSplit(s[1..], "");
      UpFirst(cur, s[1..]);
      assert t == "/" + cur + "/" + s[1..] + "/" && "/" + "" + s[1..] + "/" == "/" + s[1..] + "/";
    } else {
      UpsInSplit(s[1..], cur + [s[0]]);
      assert t == "/" + (cur + [s[0]]) + s[1..] + "/";
    }
  }

  /** An occurrence that begins before the second slash is the first component. */
  lemma UpBefore(t: string, n: nat, i: nat)
    requires 0 < n < |t| && t[n] == '/' && forall k | 0 < k < n :: t[k] != '/'
    requires UpAt(t, i) && i < n
    ensures i == 0 && n == 3 && t[1] == '.' && t[2] == '.'
  {
    var u := t[i..i + 4];
    assert t[i] == u[0] && t[i + 1] == u[1] && t[i + 2] == u[2] && t[i + 3] == u[3];
  }

  lemma UpInOne(cur: string)
    requires '/' !in cur
    ensures (exists i :: UpAt("/" + cur + "/", i)) <==> cur == ".."
  {
    var t := "/" + cur + "/";
    if cur == ".." { assert t[0..4] == "/../"; assert UpAt(t, 0); }
    if i: nat :| UpAt(t, i) {
      UpBefore(t, |cur| + 1, i);
      assert cur[0] == t[1] && cur[1] == t[2];
    }
  }

  /** A component without slashes, and then the rest. */
  lemma UpFirst(cur: string, rest: string)
    requires '/' !in cur
    ensures (exists i :: UpAt("/" + cur + "/" + rest + "/", i)) <==>
      cur == ".." || exists i :: UpAt("/" + rest + "/", i)
  {
    var t, tail, n := "/" + cur + "/" + rest + "/", "/" + rest + "/", |cur| + 1;
    assert t[n..] == tail;
    assert t[n] == '/' && forall k | 0 < k < n :: t[k] == cur[k - 1];
    if cur == ".." { assert t[0..4] == "/../"; assert UpAt(t, 0); }
    if i: nat :| UpAt(tail, i) { UpLater(t, n, i); }
    if i: nat :| UpAt(t, i) {
      if i < n {
        UpBefore(t, n, i);
        assert cur[0] == t[1] && cur[1] == t[2];
      } else {
        UpLater(t, n, i - n);
      }
    }
  }

  lemma UpLater(t: string, n: nat, i: nat)
    requires n <= |t|
    ensures UpAt(t[n..], i) <==> UpAt(t, n + i)
  {
    if n + i + 4 <= |t| { assert t[n..][i..i + 4] == t[n + i..n + i + 4]; }
  }

  lemma {:induction false} DropKeeps(parts: seq<string>, n: string)
    requires n != "" && n != "."
    ensures n in DropEmpty(parts) <==> n in parts
  {
    if parts != [] { DropKeeps(parts[1..], n); assert parts == [parts[0]] + parts[1..]; }
  }

  /** A text is accepted if and only if it is not empty, holds no NUL, does not begin with a slash, a
      backslash or a drive, and has no `..` between slashes. */
  lemma ValidateExactly(value: string)
    ensures ValidateRelative(value).Some? <==>
      && value != "" && '\0' !in value && value[0] != '/' && value[0] != '\\' && !(|value| >= 2 && value[1] == ':')
      && !exists i :: UpAt("/" + value + "/", i)
  {
    UpsInSplit(value, "");
    DropKeeps(SplitFrom(value, ""), "..");
    assert "/" + "" + value + "/" == "/" + value + "/";
  }

  /** safe_join lands strictly below its root, and two accepted texts land on the same
      place exactly when they have the same components. */
  lemma SafeJoinConfined(root: Path, v: string, w: string)
    requires SafeJoin(root, v).Some? && SafeJoin(root, w).Some?
    ensures root < SafeJoin(root, v).value
    ensures SafeJoin(root, v) == SafeJoin(root, w) <==> Parts(v) == Parts(w)
    ensures forall n | n in SafeJoin(root, v).value[|root|..] :: n != "" && n != "." && n != ".."
  {
    var a, b := Parts(v), Parts(w);
    assert (root + a)[|root|..] == a && (root + b)[|root|..] == b;
  }

  // ----- the order of texts

  predicate StrLE(a: string, b: string) {
    a == [] || (b != [] && (a[0] < b[0] || (a[0] == b[0] && StrLE(a[1..], b[1..]))))
  }

  /** The order of texts: at the first difference the smaller character, or the shorter text. */
  lemma {:induction false} OrderExactly(a: string, b: string)
    ensures StrLE(a, b) <==> a <= b || exists k :: 0 <= k < |a| && k < |b| && a[..k] == b[..k] && a[k] < b[k]
  {
    if a != [] && b != [] && a[0] == b[0] {
      var x, y := a[1..], b[1..];
      OrderExactly(x, y);
      assert a == [a[0]] + x && b == [b[0]] + y;
      if k :| 0 <= k < |x| && k < |y| && x[..k] == y[..k] && x[k] < y[k] {
        assert a[..k + 1] == [a[0]] + x[..k] && b[..k + 1] == [b[0]] + y[..k];
      }
      if k :| 0 <= k < |a| && k < |b| && a[..k] == b[..k] && a[k] < b[k] {
        assert k > 0 && x[..k - 1] == a[..k][1..] && y[..k - 1] == b[..k][1..];
      }
    } else if a != [] && b != [] {
      assert a[..0] == b[..0];
    }
  }

  lemma {:induction false} StrTotal(a: string, b: string)
    ensures StrLE(a, b) || StrLE(b, a)
  {
    if a != [] && b != [] { StrTotal(a[1..], b[1..]); }
  }

  lemma {:induction false} StrAntisymmetric(a: string, b: string)
    requires StrLE(a, b) && StrLE(b, a)
    ensures a == b
  {
    if a != [] && b != [] {
      StrAntisymmetric(a[1..], b[1..]);
      assert a == [a[0]] + a[1..] && b == [b[0]] + b[1..];
    }
  }

  lemma {:induction false} StrTransitive(a: string, b: string, c: string)
    requires StrLE(a, b) && StrLE(b, c)
    ensures StrLE(a, c)
  {
    if a != [] && b != [] && c != [] && a[0] == b[0] && b[0] == c[0] {
      StrTransitive(a[1..], b[1..], c[1..]);
    }
  }

  predicate TextLE(p: Path, q: Path) {
    StrLE(Text(p), Text(q))
  }

  predicate AllClean(s: set<Path>) {
    forall p | p in s :: Clean(p)
  }

  lemma {:induction false} LeastExists(s: set<Path>)
    requires s != {} && AllClean(s)
    ensures exists m :: m in s && forall x | x in s :: TextLE(m, x)
    decreases |s|
  {
    var p :| p in s;
    var rest := s - {p};
    StrTotal(Text(p), Text(p));
    if rest == {} {
      assert s == {p};
      assert p in s && forall x | x in s :: TextLE(p, x);
    } else {
      LeastExists(rest);
      var m :| m in rest && forall x | x in rest :: TextLE(m, x);
      StrTotal(Text(m), Text(p));
      if TextLE(p, m) {
        forall x | x in s ensures TextLE(p, x) {
          if x != p {
            assert x in rest && TextLE(m, x);
            StrTransitive(Text(p), Text(m), Text(x));
          }
        }
      } else {
        assert TextLE(m, p);
        assert forall x | x in s :: x == p || x in rest;
      }
    }
  }

  lemma LeastUnique(s: set<Path>, m: Path, n: Path)
    requires AllClean(s)
    requires m in s && forall x | x in s :: TextLE(m, x)
    requires n in s && forall x | x in s :: TextLE(n, x)
    ensures m == n
  {
    StrAntisymmetric(Text(m), Text(n));
    TextInjective(m, n);
  }

  function Least(s: set<Path>): (m: Path)
    requires s != {} && AllClean(s)
    ensures m in s && forall x | x in s :: TextLE(m, x)
  {
    LeastExists(s);
    assert forall m, n | m in s && (forall x | x in s :: TextLE(m, x)) && n in s
      && (forall x | x in s :: TextLE(n, x)) :: m == n by {
      forall m, n | m in s && (forall x | x in s :: TextLE(m, x)) && n in s && (forall x | x in s :: TextLE(n, x))
        ensures m == n
      { LeastUnique(s, m, n); }
    }
    var m :| m in s && forall x | x in s :: TextLE(m, x);
    m
  }

  ghost predicate SortedByText(ps: seq<Path>) {
    forall i, j | 0 <= i < j < |ps| :: TextLE(ps[i], ps[j]) && ps[i] != ps[j]
  }

  /** `sorted` on a set of path texts. */
  function SortedPaths(s: set<Path>): (r: seq<Path>)
    requires AllClean(s)
    ensures forall p :: p in r <==> p in s
    decreases |s|
  {
    if s == {} then [] else
      var m := Least(s);
      [m] + SortedPaths(s - {m})
  }

  lemma {:induction false} SortedPathsSorted(s: set<Path>)
    requires AllClean(s)
    ensures SortedByText(SortedPaths(s))
    decreases |s|
  {
    hide TextLE, Clean, Text;
    if s != {} {
      var m := Least(s);
      var rest := SortedPaths(s - {m});
      SortedPathsSorted(s - {m});
      var r := [m] + rest;
      forall i, j | 0 <= i < j < |r| ensures TextLE(r[i], r[j]) && r[i] != r[j] {
        assert r[j] == rest[j - 1] && rest[j - 1] in rest;
      }
    }
  }

  /** A set has one strictly increasing listing. */
  lemma {:induction false} SortedUnique(a: seq<Path>, b: seq<Path>)
    requires SortedByText(a) && SortedByText(b)
    requires forall p | p in a :: Clean(p)
    requires forall p :: p in a <==> p in b
    ensures a == b
    decreases |a|
  {
    assert b == [] || b[0] in b;
    if a != [] {
      assert a[0] in b && b != [] && b[0] in a;
      var i :| 0 <= i < |b| && b[i] == a[0];
      var j :| 0 <= j < |a| && a[j] == b[0];
      if i != 0 && j != 0 {
        StrAntisymmetric(Text(a[0]), Text(b[0]));
        TextInjective(a[0], b[0]);
      }
      assert a[0] == b[0];
      forall p ensures p in a[1..] <==> p in b[1..] {
        if p in a[1..] {
          assert p in b && p != b[0];
          assert b == [b[0]] + b[1..];
        }
        if p in b[1..] {
          assert p in a && p != a[0];
          assert a == [a[0]] + a[1..];
        }
      }
      SortedUnique(a[1..], b[1..]);
      assert a == [a[0]] + a[1..] && b == [b[0]] + b[1..];
    }
  }

  // ----- ancestors

  /** `p` is `x` or one of its ancestors. */
  predicate Above(p: Path, x: Path) {
    p <= x
  }

  /** Two ancestors of one path are comparable. */
  lemma Comparable(p: Path, q: Path, x: Path)
    ensures Above(p, x) && Above(q, x) && |p| <= |q| ==> Above(p, q)
    ensures Above(p, x) && Above(q, x) && |q| <= |p| ==> Above(q, p)
  {
    if Above(p, x) && Above(q, x) {
      assert p == x[..|p|] && q == x[..|q|];
      if |p| <= |q| { assert x[..|q|][..|p|] == x[..|p|]; }
      if |q| <= |p| { assert x[..|p|][..|q|] == x[..|q|]; }
    }
  }

  /** `a` is a proper ancestor of `x` (the root directory excepted). */
  predicate Inside(a: Path, x: Path) {
    a != [] && a != x && Above(a, x)
  }

  function Ancestors(x: Path): (r: set<Path>)
    ensures forall a :: a in r <==> Inside(a, x)
  {
    assert forall a | Inside(a, x) :: 0 < |a| < |x| && x[..|a|] == a;
    set i | 0 < i < |x| :: x[..i]
  }

  lemma AboveTransitive(a: Path, b: Path, c: Path)
    ensures Above(a, b) && Above(b, c) ==> Above(a, c)
  {
    if Above(a, b) && Above(b, c) {
      assert a == b[..|a|] && b == c[..|b|];
      assert c[..|b|][..|a|] == c[..|a|];
    }
  }
}

/** Human-readable identifiers: what is stripped from them and which are accepted. */
module Texts {
  import opened Paths

  /** What strip takes away: the white space of Unicode and the four separator controls. */
  predicate White(c: char) {
    var u := c as int;
    || 9 <= u <= 13 || 28 <= u <= 32 || u == 0x85 || u == 0xA0 || u == 0x1680 || 0x2000 <= u <= 0x200A
    || u == 0x2028 || u == 0x2029 || u == 0x202F || u == 0x205F || u == 0x3000
  }

  lemma WhiteExactly(c: char)
    ensures White(c) <==> c as int in {
      0x09, 0x0A, 0x0B, 0x0C, 0x0D, 0x1C, 0x1D, 0x1E, 0x1F, 0x20, 0x85, 0xA0, 0x1680, 0x2000, 0x2001, 0x2002, 0x2003,
      0x2004, 0x2005, 0x2006, 0x2007, 0x2008, 0x2009, 0x200A, 0x2028, 0x2029, 0x202F, 0x205F, 0x3000}
  {
  }

  predicate Control(c: char) {
    c as int < 32 || c as int == 127
  }

  predicate IsBlank(s: string) {
    forall i | 0 <= i < |s| :: White(s[i])
  }

  /** The first place from `i` on that is not white. */
  function Leading(s: string, i: nat): (r: nat)
    requires i <= |s|
    ensures i <= r <= |s| && (forall k | i <= k < r :: White(s[k])) && (r < |s| ==> !White(s[r]))
    decreases |s| - i
  {
    if i < |s| && White(s[i]) then Leading(s, i + 1) else i
  }

  /** The end of the text before the white space that ends at `j`. */
  function Trailing(s: string, low: nat, j: nat): (r: nat)
    requires low <= j <= |s|
    ensures low <= r <= j && (forall k | r <= k < j :: White(s[k])) && (low < r ==> !White(s[r - 1]))
    decreases j
  {
    if low < j && White(s[j - 1]) then Trailing(s, low, j - 1) else j
  }

  function Strip(s: string): string {
    var i := Leading(s, 0);
    s[i..Trailing(s, i, |s|)]
  }

  /** validate_text_field: the text without surrounding white space, or None if that is empty,
      too long, or holds a control character. */
  function AcceptText(s: string, limit: nat): Option<string> {
    var r := Strip(s);
    if r == [] || |r| > limit || HasControl(r) then None else Some(r)
  }

  /** `r` is all of `s` but the white space around it. */
  predicate IsCore(s: string, r: string, i: nat, j: nat) {
    && i < j <= |s| && r == s[i..j] && !White(s[i]) && !White(s[j - 1])
    && (forall k | 0 <= k < i :: White(s[k])) && (forall k | j <= k < |s| :: White(s[k]))
  }

  predicate HasControl(s: string) {
    exists i | 0 <= i < |s| :: Control(s[i])
  }

  /** A text is accepted as `r` exactly if `r` is what lies between the white space around it, is
      not too long, and holds no control character. */
  lemma AcceptedIsCore(s: string, limit: nat, r: string)
    ensures AcceptText(s, limit) == Some(r) <==>
      && |r| <= limit && (forall k | 0 <= k < |r| :: r[k] as int >= 32 && r[k] as int != 127)
      && exists i: nat, j: nat :: IsCore(s, r, i, j)
  {
    var i := Leading(s, 0);
    var j := Trailing(s, i, |s|);
    if AcceptText(s, limit) == Some(r) { assert IsCore(s, r, i, j); }
    forall m: nat, n: nat ensures IsCore(s, r, m, n) ==> r == Strip(s) && r != [] { CoreIsUnique(s, r, m, n); }
  }

  lemma CoreIsUnique(s: string, r: string, m: nat, n: nat)
    ensures IsCore(s, r, m, n) ==> r == Strip(s) && r != []
  {
    var i := Leading(s, 0);
    var j := Trailing(s, i, |s|);
    if IsCore(s, r, m, n) {
      assert i == m;
      assert j == n;
    }
  }

  /** Accepted text is kept as it is by every later check. */
  lemma AcceptedAgain(s: string, limit: nat)
    requires AcceptText(s, limit).Some?
    ensures AcceptText(AcceptText(s, limit).value, limit) == AcceptText(s, limit)
  {
    var r := AcceptText(s, limit).value;
    AcceptedIsCore(s, limit, r);
    var i: nat, j: nat :| IsCore(s, r, i, j);
    assert r[0] == s[i] && r[|r| - 1] == s[j - 1];
    assert Leading(r, 0) == 0 && Trailing(r, 0, |r|) == |r|;
    assert r[0..|r|] == r && r == Strip(s);
  }
}

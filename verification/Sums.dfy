/** Sums of a quantity over a finite set of paths. */
module Sums {
  import opened Paths

  ghost function Sum(keys: set<Path>, f: Path -> int): int
    decreases |keys|
  {
    if keys == {} then 0 else
      var p :| p in keys;
      f(p) + Sum(keys - {p}, f)
  }

  lemma {:induction false} SumRemove(keys: set<Path>, f: Path -> int, p: Path)
    requires p in keys
    ensures Sum(keys, f) == f(p) + Sum(keys - {p}, f)
    decreases |keys|
  {
    var q :| q in keys && Sum(keys, f) == f(q) + Sum(keys - {q}, f);
    if q != p {
      SumRemove(keys - {q}, f, p);
      SumRemove(keys - {p}, f, q);
      assert keys - {q} - {p} == keys - {p} - {q};
    }
  }

  lemma SumInsert(keys: set<Path>, f: Path -> int, p: Path)
    requires p !in keys
    ensures Sum(keys + {p}, f) == Sum(keys, f) + f(p)
  {
    SumRemove(keys + {p}, f, p);
    assert keys + {p} - {p} == keys;
  }

  lemma {:induction false} SumNonNegative(keys: set<Path>, f: Path -> int)
    requires forall p | p in keys :: f(p) >= 0
    ensures Sum(keys, f) >= 0
    decreases |keys|
  {
    if keys != {} {
      var p :| p in keys;
      SumRemove(keys, f, p);
      SumNonNegative(keys - {p}, f);
    }
  }

  lemma {:induction false} SumUnion(a: set<Path>, b: set<Path>, f: Path -> int)
    requires a !! b
    ensures Sum(a + b, f) == Sum(a, f) + Sum(b, f)
    decreases |b|
  {
    if b == {} {
      assert a + b == a;
    } else {
      var p :| p in b;
      SumRemove(b, f, p);
      SumRemove(a + b, f, p);
      SumUnion(a, b - {p}, f);
      assert a + b - {p} == a + (b - {p});
    }
  }

  lemma SumMonotone(a: set<Path>, b: set<Path>, f: Path -> int)
    requires a <= b && forall p | p in b :: f(p) >= 0
    ensures Sum(a, f) <= Sum(b, f)
  {
    SumUnion(a, b - a, f);
    SumNonNegative(b - a, f);
    assert a + (b - a) == b;
  }

  lemma {:induction false} SumSame(keys: set<Path>, f: Path -> int, g: Path -> int)
    requires forall p | p in keys :: f(p) == g(p)
    ensures Sum(keys, f) == Sum(keys, g)
    decreases |keys|
  {
    if keys != {} {
      var p :| p in keys;
      SumRemove(keys, f, p);
      SumRemove(keys, g, p);
      SumSame(keys - {p}, f, g);
    }
  }

  lemma {:induction false} CountIsSum(keys: set<Path>, f: Path -> int)
    requires forall p | p in keys :: f(p) == 0 || f(p) == 1
    ensures Sum(keys, f) == |set p | p in keys && f(p) == 1|
    decreases |keys|
  {
    if keys != {} {
      var p :| p in keys;
      SumRemove(keys, f, p);
      CountIsSum(keys - {p}, f);
      var rest := set q | q in keys - {p} && f(q) == 1;
      var all := set q | q in keys && f(q) == 1;
      if f(p) == 1 {
        assert all == rest + {p};
      } else {
        assert all == rest;
      }
    } else {
      assert (set p | p in keys && f(p) == 1) == {};
    }
  }
}

/** Small vocabulary shared by every module: optional values and finite sums over sets. */
module Common {

  datatype Option<+T> = None | Some(value: T)

  /** Amounts are 256-bit: the first number that does not fit. */
  const UINT256: nat := 0x1_0000000000000000_0000000000000000_0000000000000000_0000000000000000

  /** Exact sum of `f` over a finite set. */
  ghost function Sum<T(!new)>(s: set<T>, f: T -> int): int
  {
    if s == {} then 0
    else
      var x :| x in s;
      f(x) + Sum(s - {x}, f)
  }

  /** The sum does not depend on the order in which elements are taken. */
  lemma {:induction false} SumInsert<T(!new)>(s: set<T>, x: T, f: T -> int)
    requires x !in s
    ensures Sum(s + {x}, f) == Sum(s, f) + f(x)
    decreases s
  {
    var all := s + {x};
    var y :| y in all && Sum(all, f) == f(y) + Sum(all - {y}, f);
    if y == x {
      assert all - {x} == s;
    } else {
      var rest := s - {y};
      assert all - {y} == rest + {x};
      SumInsert(rest, x, f);
      SumInsert(rest, y, f);
      assert rest + {y} == s;
    }
  }

  lemma SumRemove<T(!new)>(s: set<T>, x: T, f: T -> int)
    requires x in s
    ensures Sum(s, f) == Sum(s - {x}, f) + f(x)
  {
    SumInsert(s - {x}, x, f);
    assert s - {x} + {x} == s;
  }

  lemma {:induction false} SumCongruent<T(!new)>(s: set<T>, f: T -> int, g: T -> int)
    requires forall x :: x in s ==> f(x) == g(x)
    ensures Sum(s, f) == Sum(s, g)
    decreases s
  {
    if s != {} {
      var x :| x in s;
      SumRemove(s, x, f);
      SumRemove(s, x, g);
      SumCongruent(s - {x}, f, g);
    }
  }

  lemma {:induction false} SumMonotone<T(!new)>(s: set<T>, f: T -> int, g: T -> int)
    requires forall x :: x in s ==> f(x) <= g(x)
    ensures Sum(s, f) <= Sum(s, g)
    decreases s
  {
    if s != {} {
      var x :| x in s;
      SumRemove(s, x, f);
      SumRemove(s, x, g);
      SumMonotone(s - {x}, f, g);
    }
  }

  lemma {:induction false} SumSubset<T(!new)>(s: set<T>, t: set<T>, f: T -> int)
    requires s <= t
    requires forall x :: x in t ==> 0 <= f(x)
    ensures 0 <= Sum(s, f) <= Sum(t, f)
    decreases t
  {
    if t != {} {
      var x :| x in t;
      SumRemove(t, x, f);
      if x in s {
        SumRemove(s, x, f);
        SumSubset(s - {x}, t - {x}, f);
      } else {
        SumSubset(s, t - {x}, f);
      }
    }
  }

  lemma {:induction false} SumUnion<T(!new)>(s: set<T>, t: set<T>, f: T -> int)
    requires s !! t
    ensures Sum(s + t, f) == Sum(s, f) + Sum(t, f)
    decreases t
  {
    if t == {} {
      assert s + t == s;
    } else {
      var x :| x in t;
      SumRemove(t, x, f);
      SumUnion(s, t - {x}, f);
      SumRemove(s + t, x, f);
      assert s + t - {x} == s + (t - {x});
    }
  }

  /** Elements that contribute nothing may be left out of a sum. */
  lemma {:induction false} SumFilter<T(!new)>(s: set<T>, t: set<T>, f: T -> int, g: T -> int)
    requires forall x :: x in s ==> f(x) == if x in t then g(x) else 0
    ensures Sum(s, f) == Sum(s * t, g)
    decreases s
  {
    if s == {} {
      assert s * t == {};
    } else {
      var x :| x in s;
      SumRemove(s, x, f);
      SumFilter(s - {x}, t, f, g);
      if x in t {
        SumRemove(s * t, x, g);
        assert s * t - {x} == (s - {x}) * t;
      } else {
        assert s * t == (s - {x}) * t;
      }
    }
  }

  /** Counting is summing ones. */
  lemma {:induction false} CountIsSum<T(!new)>(s: set<T>, t: set<T>, f: T -> int)
    requires forall x :: x in s ==> f(x) == if x in t then 1 else 0
    ensures Sum(s, f) == |s * t|
    decreases s
  {
    if s == {} {
      assert s * t == {};
    } else {
      var x :| x in s;
      SumRemove(s, x, f);
      CountIsSum(s - {x}, t, f);
      assert (s - {x}) * t == s * t - {x};
    }
  }

  function Max(a: nat, b: nat): nat
  {
    if a < b then b else a
  }

  lemma {:induction false} MaximumExists(s: set<nat>)
    requires s != {}
    ensures exists m :: m in s && forall n :: n in s ==> n <= m
    decreases s
  {
    var x :| x in s;
    assert forall n :: n in s ==> n == x || n in s - {x};
    if s - {x} == {} {
      assert x in s && forall n :: n in s ==> n <= x;
    } else {
      MaximumExists(s - {x});
      var m :| m in s - {x} && forall n :: n in s - {x} ==> n <= m;
      var top := if m <= x then x else m;
      assert top in s && forall n :: n in s ==> n <= top;
    }
  }

  function Maximum(s: set<nat>): (m: nat)
    requires s != {}
    ensures m in s && forall n :: n in s ==> n <= m
  {
    MaximumExists(s);
    var m :| m in s && forall n :: n in s ==> n <= m;
    m
  }
}

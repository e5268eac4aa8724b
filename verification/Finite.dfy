/** Counting facts about finite sets. */
module Finite {

  /** The integers of [lo, hi). */
  ghost function Range(lo: int, hi: int): (r: set<int>)
    requires lo <= hi
    ensures forall x :: x in r <==> lo <= x < hi
    decreases hi - lo
  {
    if lo == hi then {} else Range(lo, hi - 1) + {hi - 1}
  }

  lemma {:induction false} RangeSize(lo: int, hi: int)
    requires lo <= hi
    ensures |Range(lo, hi)| == hi - lo
    decreases hi - lo
  {
    if lo < hi {
      RangeSize(lo, hi - 1);
      assert Range(lo, hi) == Range(lo, hi - 1) + {hi - 1};
    } else {
      assert Range(lo, hi) == {};
    }
  }

  lemma {:induction false} SubsetSize<T>(a: set<T>, b: set<T>)
    requires a <= b
    ensures |a| <= |b|
  {
    assert b == a + (b - a);
  }

  lemma {:induction false} UnionSize<T>(a: set<T>, b: set<T>)
    ensures |a + b| <= |a| + |b|
  {
    assert a + b == a + (b - a);
    SubsetSize(b - a, b);
  }

  predicate Injective<T>(code: map<T, int>) {
    forall x, y :: x in code && y in code && code[x] == code[y] ==> x == y
  }

  /** A set coded injectively by the integers of [lo, hi) has at most hi - lo members. */
  lemma {:induction false} InjectiveSize<T>(code: map<T, int>, lo: int, hi: int)
    requires lo <= hi
    requires forall x :: x in code ==> lo <= code[x] < hi
    requires Injective(code)
    ensures |code.Keys| <= hi - lo
  {
    RangeSize(lo, hi);
    ImageSize(code);
    SubsetSize(code.Values, Range(lo, hi));
  }

  lemma {:induction false} ImageSize<T>(code: map<T, int>)
    requires Injective(code)
    ensures |code.Keys| == |code.Values|
    decreases |code|
  {
    if code.Keys != {} {
      var x :| x in code.Keys;
      var rest := code - {x};
      assert rest.Keys == code.Keys - {x};
      assert forall y :: y in rest ==> rest[y] == code[y];
      assert rest.Values == code.Values - {code[x]};
      assert |rest| < |code|;
      ImageSize(rest);
    } else {
      assert code.Values == {};
    }
  }
}

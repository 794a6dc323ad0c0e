/**
  Sequence combinators standing for the SQL primitives the pages use:
  a WHERE clause is `Filter`, COUNT(*) is `Count`, COALESCE(SUM(x), 0) is `SumOf`,
  LIMIT is `Take`.
 */
module Seqs {

  /** The elements of `s` that satisfy `p`, in their original order. */
  function Filter<T(!new)>(s: seq<T>, p: T -> bool): (r: seq<T>)
    ensures |r| <= |s|
    ensures forall x :: x in r <==> x in s && p(x)
    ensures multiset(r) <= multiset(s)
    ensures forall i :: 0 <= i < |r| ==> p(r[i])
  {
    if |s| == 0 then []
    else
      assert s == [s[0]] + s[1..];
      (if p(s[0]) then [s[0]] else []) + Filter(s[1..], p)
  }

  /** The number of elements of `s` that satisfy `p`. */
  function Count<T(!new)>(s: seq<T>, p: T -> bool): (n: nat)
    ensures n <= |s|
  {
    if |s| == 0 then 0
    else (if p(s[0]) then 1 else 0) + Count(s[1..], p)
  }

  /** COUNT(*) is the number of rows the WHERE clause keeps. */
  lemma {:induction false} CountIsFilterLength<T(!new)>(s: seq<T>, p: T -> bool)
    ensures Count(s, p) == |Filter(s, p)|
    decreases |s|
  {
    if |s| > 0 {
      CountIsFilterLength(s[1..], p);
    }
  }

  /** The count is 0 exactly when no element satisfies the predicate. */
  lemma {:induction false} CountZero<T(!new)>(s: seq<T>, p: T -> bool)
    ensures Count(s, p) == 0 <==> forall x :: x in s ==> !p(x)
    decreases |s|
  {
    if |s| > 0 {
      CountZero(s[1..], p);
      assert forall x :: x in s <==> x == s[0] || x in s[1..];
    }
  }

  /** The complement of a predicate, as a WHERE NOT clause. */
  function Not<T>(p: T -> bool): T -> bool
  {
    x => !p(x)
  }

  /** The sum of `f` over `s`; 0 for the empty sequence, as COALESCE(SUM(..), 0) gives. */
  function SumOf<T(!new)>(s: seq<T>, f: T -> int): int
  {
    if |s| == 0 then 0 else f(s[0]) + SumOf(s[1..], f)
  }

  /** A one-row table keeps its row exactly when the row satisfies the predicate. */
  lemma FilterOne<T(!new)>(x: T, p: T -> bool)
    ensures Filter([x], p) == if p(x) then [x] else []
  {
    assert [x][1..] == [];
  }

  /** The sum over one row is that row's term. */
  lemma SumOfOne<T(!new)>(x: T, f: T -> int)
    ensures SumOf([x], f) == f(x)
  {
    assert [x][1..] == [];
  }

  /** The first `k` elements of `s`, or all of them when there are fewer. */
  function Take<T(!new)>(s: seq<T>, k: nat): (r: seq<T>)
    ensures |r| == if |s| < k then |s| else k
    ensures forall i :: 0 <= i < |r| ==> r[i] == s[i]
  {
    if |s| < k then s else s[..k]
  }

  /** `f` applied to every element, in order. */
  function Map<T, U>(s: seq<T>, f: T -> U): (r: seq<U>)
    ensures |r| == |s|
    ensures forall i :: 0 <= i < |s| ==> r[i] == f(s[i])
  {
    seq(|s|, i requires 0 <= i < |s| => f(s[i]))
  }

  /** `s` in the opposite order. */
  function Reverse<T(!new)>(s: seq<T>): (r: seq<T>)
    ensures |r| == |s|
    ensures forall i :: 0 <= i < |s| ==> r[i] == s[|s| - 1 - i]
  {
    if |s| == 0 then [] else Reverse(s[1..]) + [s[0]]
  }

  lemma {:induction false} SumOfConcat<T(!new)>(a: seq<T>, b: seq<T>, f: T -> int)
    ensures SumOf(a + b, f) == SumOf(a, f) + SumOf(b, f)
    decreases |a|
  {
    if |a| == 0 {
      assert a + b == b;
    } else {
      assert (a + b)[1..] == a[1..] + b;
      SumOfConcat(a[1..], b, f);
    }
  }

  lemma {:induction false} FilterConcat<T(!new)>(a: seq<T>, b: seq<T>, p: T -> bool)
    ensures Filter(a + b, p) == Filter(a, p) + Filter(b, p)
    decreases |a|
  {
    if |a| == 0 {
      assert a + b == b;
    } else {
      assert (a + b)[1..] == a[1..] + b;
      FilterConcat(a[1..], b, p);
    }
  }

  /** A sum of non-negative terms is non-negative. */
  lemma {:induction false} SumOfNonNegative<T(!new)>(s: seq<T>, f: T -> int)
    requires forall x :: x in s ==> f(x) >= 0
    ensures SumOf(s, f) >= 0
    decreases |s|
  {
    if |s| > 0 {
      assert forall x :: x in s[1..] ==> x in s;
      SumOfNonNegative(s[1..], f);
    }
  }

  /** Splitting a sequence by a predicate splits its sum. */
  lemma {:induction false} SumOfPartition<T(!new)>(s: seq<T>, f: T -> int, p: T -> bool)
    ensures SumOf(s, f) == SumOf(Filter(s, p), f) + SumOf(Filter(s, Not(p)), f)
    decreases |s|
  {
    if |s| > 0 {
      SumOfPartition(s[1..], f, p);
      if p(s[0]) {
        assert !Not(p)(s[0]);
        assert Filter(s, p) == [s[0]] + Filter(s[1..], p);
        assert Filter(s, Not(p)) == Filter(s[1..], Not(p));
        SumOfConcat([s[0]], Filter(s[1..], p), f);
      } else {
        assert Not(p)(s[0]);
        assert Filter(s, p) == Filter(s[1..], p);
        assert Filter(s, Not(p)) == [s[0]] + Filter(s[1..], Not(p));
        SumOfConcat([s[0]], Filter(s[1..], Not(p)), f);
      }
    }
  }

  /** Restricting a sum of non-negative terms never increases it. */
  lemma SumOfFilterBound<T(!new)>(s: seq<T>, f: T -> int, p: T -> bool)
    requires forall x :: x in s ==> f(x) >= 0
    ensures SumOf(Filter(s, p), f) <= SumOf(s, f)
  {
    SumOfPartition(s, f, p);
    SumOfNonNegative(Filter(s, Not(p)), f);
  }

  /** With no negative term, a restricted sum lies between 0 and the whole sum. */
  lemma SumOfFilterWithin<T(!new)>(s: seq<T>, f: T -> int, p: T -> bool)
    ensures (forall x :: x in s ==> f(x) >= 0) ==> 0 <= SumOf(Filter(s, p), f) <= SumOf(s, f)
  {
    if forall x :: x in s ==> f(x) >= 0 {
      SumOfFilterBound(s, f, p);
      SumOfNonNegative(Filter(s, p), f);
    }
  }

  /** A sum does not depend on the order of its terms. */
  lemma {:induction false} SumOfPermutation<T(!new)>(s: seq<T>, t: seq<T>, f: T -> int)
    requires multiset(s) == multiset(t)
    ensures SumOf(s, f) == SumOf(t, f)
    decreases |s|
  {
    if |s| == 0 {
      assert |t| == |multiset(t)| == 0;
    } else {
      var j := MatchFirst(s, t);
      SumOfPermutation(s[1..], t[..j] + t[j + 1..], f);
      SumOfRemove(t, j, f);
    }
  }

  /**
    Where the first element of `s` sits in a reordering `t` of it; the rest of
    `s` is a reordering of `t` without that position.
   */
  lemma MatchFirst<T>(s: seq<T>, t: seq<T>) returns (j: nat)
    requires |s| > 0 && multiset(s) == multiset(t)
    ensures j < |t| && t[j] == s[0]
    ensures multiset(s[1..]) == multiset(t[..j] + t[j + 1..])
  {
    assert s[0] in multiset(t);
    j :| 0 <= j < |t| && t[j] == s[0];
    SplitAt(t, j);
    MultisetMiddle(t[..j], t[j], t[j + 1..]);
    assert s == [s[0]] + s[1..];
    assert multiset(s) == multiset(s[1..]) + multiset{s[0]};
    MultisetCancel(multiset(s[1..]), multiset(t[..j] + t[j + 1..]), s[0]);
  }

  /** The same element taken off both sides of an equation between multisets. */
  lemma MultisetCancel<T>(a: multiset<T>, b: multiset<T>, x: T)
    requires a + multiset{x} == b + multiset{x}
    ensures a == b
  {
    forall y
      ensures a[y] == b[y]
    {
      assert (a + multiset{x})[y] == (b + multiset{x})[y];
    }
  }

  /** The elements of `a + [x] + b` are those of `a + b` and `x`. */
  lemma MultisetMiddle<T>(a: seq<T>, x: T, b: seq<T>)
    ensures multiset((a + [x]) + b) == multiset(a + b) + multiset{x}
  {
    assert multiset((a + [x]) + b) == multiset(a) + multiset{x} + multiset(b);
  }

  /** Taking one term out of a sum. */
  lemma SumOfRemove<T(!new)>(t: seq<T>, j: nat, f: T -> int)
    requires j < |t|
    ensures SumOf(t, f) == f(t[j]) + SumOf(t[..j] + t[j + 1..], f)
  {
    assert t == t[..j] + ([t[j]] + t[j + 1..]);
    SumOfConcat(t[..j], [t[j]] + t[j + 1..], f);
    SumOfConcat([t[j]], t[j + 1..], f);
    SumOfConcat(t[..j], t[j + 1..], f);
  }

  /** Filtering commutes with reordering. */
  lemma {:induction false} FilterPermutation<T(!new)>(s: seq<T>, t: seq<T>, p: T -> bool)
    requires multiset(s) == multiset(t)
    ensures multiset(Filter(s, p)) == multiset(Filter(t, p))
    decreases |s|
  {
    if |s| == 0 {
      assert |t| == |multiset(t)| == 0;
    } else {
      var j := MatchFirst(s, t);
      FilterPermutation(s[1..], t[..j] + t[j + 1..], p);
      FilterRemove(t, j, p);
      assert s == [s[0]] + s[1..];
      FilterConcat([s[0]], s[1..], p);
    }
  }

  /** A sequence is the part before position `j`, the element there, and the part after. */
  lemma SplitAt<T>(t: seq<T>, j: nat)
    requires j < |t|
    ensures t == (t[..j] + [t[j]]) + t[j + 1..]
  {
    assert t[j..] == [t[j]] + t[j + 1..];
    assert t == t[..j] + t[j..];
  }

  /** Taking one element out before filtering. */
  lemma FilterRemove<T(!new)>(t: seq<T>, j: nat, p: T -> bool)
    requires j < |t|
    ensures multiset(Filter(t, p)) == multiset(Filter([t[j]], p)) + multiset(Filter(t[..j] + t[j + 1..], p))
  {
    SplitAt(t, j);
    FilterMiddle(t[..j], t[j], t[j + 1..], p);
  }

  /** Filtering `a + [x] + b` keeps what filtering `[x]` and `a + b` keep. */
  lemma FilterMiddle<T(!new)>(a: seq<T>, x: T, b: seq<T>, p: T -> bool)
    ensures multiset(Filter((a + [x]) + b, p)) == multiset(Filter([x], p)) + multiset(Filter(a + b, p))
  {
    FilterConcat(a + [x], b, p);
    FilterConcat(a, [x], p);
    FilterConcat(a, b, p);
    var fa, fx, fb := Filter(a, p), Filter([x], p), Filter(b, p);
    assert multiset((fa + fx) + fb) == multiset(fa) + multiset(fx) + multiset(fb);
  }

  /** Removing the rows of `p` keeps every row of a `q` that excludes `p`, in order. */
  lemma {:induction false} FilterOfComplement<T(!new)>(s: seq<T>, p: T -> bool, q: T -> bool)
    requires forall x :: q(x) ==> !p(x)
    ensures Filter(Filter(s, Not(p)), q) == Filter(s, q)
    decreases |s|
  {
    if |s| > 0 {
      FilterOfComplement(s[1..], p, q);
      var t := Filter(s, Not(p));
      if p(s[0]) {
        assert !Not(p)(s[0]) && !q(s[0]);
        assert t == Filter(s[1..], Not(p));
        assert Filter(s, q) == Filter(s[1..], q);
      } else {
        assert Not(p)(s[0]);
        assert t == [s[0]] + Filter(s[1..], Not(p));
        assert t[0] == s[0] && t[1..] == Filter(s[1..], Not(p));
        assert Filter(t, q) == (if q(s[0]) then [s[0]] else []) + Filter(t[1..], q);
      }
    }
  }

  /** Rows satisfying one of two exclusive predicates are at most all the rows. */
  lemma {:induction false} CountExclusive<T(!new)>(s: seq<T>, p: T -> bool, q: T -> bool)
    requires forall x :: x in s ==> !(p(x) && q(x))
    ensures Count(s, p) + Count(s, q) <= |s|
    decreases |s|
  {
    if |s| > 0 {
      assert forall x :: x in s[1..] ==> x in s;
      CountExclusive(s[1..], p, q);
      assert s[0] in s;
    }
  }

  /** Counting a concatenation counts both parts. */
  lemma {:induction false} CountConcat<T(!new)>(a: seq<T>, b: seq<T>, p: T -> bool)
    ensures Count(a + b, p) == Count(a, p) + Count(b, p)
    decreases |a|
  {
    if |a| == 0 {
      assert a + b == b;
    } else {
      assert (a + b)[1..] == a[1..] + b;
      CountConcat(a[1..], b, p);
    }
  }

  /** The counts of two exclusive predicates add up to the count of their union `pq`. */
  lemma {:induction false} CountUnion<T(!new)>(s: seq<T>, p: T -> bool, q: T -> bool, pq: T -> bool)
    requires forall x :: pq(x) <==> p(x) || q(x)
    requires forall x :: !(p(x) && q(x))
    ensures Count(s, p) + Count(s, q) == Count(s, pq)
    decreases |s|
  {
    if |s| > 0 {
      CountUnion(s[1..], p, q, pq);
    }
  }

  /** A predicate every element satisfies counts them all. */
  lemma {:induction false} CountAll<T(!new)>(s: seq<T>, p: T -> bool)
    requires forall x :: x in s ==> p(x)
    ensures Count(s, p) == |s|
    decreases |s|
  {
    if |s| > 0 {
      assert forall x :: x in s[1..] ==> x in s;
      CountAll(s[1..], p);
      assert s[0] in s;
    }
  }

  /** A WHERE clause no element satisfies keeps nothing. */
  lemma {:induction false} FilterNone<T(!new)>(s: seq<T>, p: T -> bool)
    requires forall x :: x in s ==> !p(x)
    ensures Filter(s, p) == []
    decreases |s|
  {
    if |s| > 0 {
      assert forall x :: x in s[1..] ==> x in s;
      FilterNone(s[1..], p);
      assert s[0] in s;
    }
  }
}

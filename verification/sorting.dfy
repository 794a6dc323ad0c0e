/**
  ORDER BY ... DESC and ORDER BY ... DESC LIMIT k over a table, modelled as a
  functional insertion sort. SQL leaves the order of rows with equal keys
  unspecified, so every contract here claims only what SQL promises: the rows
  are a permutation (or the top part) of the input and their keys descend.
 */
module Sorting {
  import opened Seqs

  /** Keys never increase from left to right. */
  predicate SortedDesc<T>(s: seq<T>, key: T -> int)
  {
    forall i, j :: 0 <= i < j < |s| ==> key(s[i]) >= key(s[j])
  }

  /** Values strictly decrease from left to right (so none repeats). */
  predicate StrictlyDecreasing(s: seq<int>)
  {
    forall i, j :: 0 <= i < j < |s| ==> s[i] > s[j]
  }

  /** The key of an integer column is the integer itself. */
  function Id(x: int): int
  {
    x
  }

  function Insert<T(!new)>(x: T, s: seq<T>, key: T -> int): (r: seq<T>)
    requires SortedDesc(s, key)
    ensures SortedDesc(r, key)
    ensures multiset(r) == multiset(s) + multiset{x}
  {
    if |s| == 0 then [x]
    else if key(x) >= key(s[0]) then [x] + s
    else
      var tail := Insert(x, s[1..], key);
      assert s == [s[0]] + s[1..];
      assert forall y :: y in tail ==> key(y) <= key(s[0]) by {
        forall y | y in tail
          ensures key(y) <= key(s[0])
        {
          assert y in multiset(tail);
          if y != x {
            assert y in multiset(s[1..]);
            var j :| 0 <= j < |s[1..]| && s[1..][j] == y;
            assert s[j + 1] == y;
          }
        }
      }
      ConsSorted(s[0], tail, key);
      [s[0]] + tail
  }

  lemma ConsSorted<T>(h: T, tail: seq<T>, key: T -> int)
    requires SortedDesc(tail, key)
    requires forall y :: y in tail ==> key(y) <= key(h)
    ensures SortedDesc([h] + tail, key)
  {
    forall i, j | 0 <= i < j < |[h] + tail|
      ensures key(([h] + tail)[i]) >= key(([h] + tail)[j])
    {
      if i == 0 {
        assert ([h] + tail)[j] == tail[j - 1];
        assert tail[j - 1] in tail;
      }
    }
  }

  /** The rows of `s` ordered by `key`, greatest first. */
  function SortDesc<T(!new)>(s: seq<T>, key: T -> int): (r: seq<T>)
    ensures SortedDesc(r, key)
    ensures multiset(r) == multiset(s)
    ensures |r| == |s|
  {
    if |s| == 0 then []
    else
      assert s == [s[0]] + s[1..];
      Insert(s[0], SortDesc(s[1..], key), key)
  }

  /**
    ORDER BY key DESC LIMIT k: `k` rows of `s` (all of them if there are fewer),
    greatest keys first, and no row left out has a greater key than a row kept.
   */
  function TopK<T(!new)>(s: seq<T>, key: T -> int, k: nat): (r: seq<T>)
    ensures |r| == if |s| < k then |s| else k
    ensures SortedDesc(r, key)
    ensures multiset(r) <= multiset(s)
    ensures forall i :: 0 <= i < |r| ==> r[i] in s
    ensures forall x, i :: x in multiset(s) - multiset(r) && 0 <= i < |r| ==> key(x) <= key(r[i])
  {
    var t := SortDesc(s, key);
    TakeOfSorted(t, key, k);
    var r := Take(t, k);
    SubMultisetMembers(r, s);
    r
  }

  /** Every element of a sub-multiset's sequence is an element of the whole. */
  lemma SubMultisetMembers<T>(r: seq<T>, s: seq<T>)
    requires multiset(r) <= multiset(s)
    ensures forall i :: 0 <= i < |r| ==> r[i] in s
  {
    forall i | 0 <= i < |r|
      ensures r[i] in s
    {
      assert r[i] in multiset(r);
    }
  }

  /** A row of the table is kept, or its key is at most every kept key. */
  lemma TopKCovers<T(!new)>(s: seq<T>, key: T -> int, k: nat, x: T)
    requires x in s
    ensures var r := TopK(s, key, k);
      x in r || forall i :: 0 <= i < |r| ==> key(x) <= key(r[i])
  {
    var r := TopK(s, key, k);
    assert x in multiset(s);
    if x !in r {
      assert x in multiset(s) - multiset(r);
    }
  }

  /** A row whose key beats a kept row's key is kept too. */
  lemma TopKKeepsGreater<T(!new)>(s: seq<T>, key: T -> int, k: nat, x: T, i: int)
    requires x in s
    requires 0 <= i < |TopK(s, key, k)| && key(x) > key(TopK(s, key, k)[i])
    ensures x in TopK(s, key, k)
  {
    TopKCovers(s, key, k, x);
  }

  /** No two rows share a key, as under a UNIQUE column. */
  predicate DistinctKeys<T>(s: seq<T>, key: T -> int)
  {
    forall i, j :: 0 <= i < j < |s| ==> key(s[i]) != key(s[j])
  }

  /** With distinct keys a row occurs at most once. */
  lemma {:induction false} DistinctKeysSingleCopies<T(!new)>(s: seq<T>, key: T -> int, x: T)
    requires DistinctKeys(s, key)
    ensures multiset(s)[x] <= 1
    decreases |s|
  {
    if |s| > 0 {
      assert s == [s[0]] + s[1..];
      assert multiset(s) == multiset{s[0]} + multiset(s[1..]);
      DistinctKeysSingleCopies(s[1..], key, x);
      if s[0] == x {
        assert forall j :: 0 <= j < |s[1..]| ==> key(s[1..][j]) != key(x);
        assert x !in s[1..];
      }
    }
  }

  /** A value at two positions occurs at least twice. */
  lemma TwoPositionsTwoCopies<T>(s: seq<T>, i: int, j: int)
    requires 0 <= i < j < |s| && s[i] == s[j]
    ensures multiset(s)[s[i]] >= 2
  {
    assert s == s[..j] + [s[j]] + s[j + 1..];
    assert s[..j][i] == s[i];
    assert multiset(s) == multiset(s[..j]) + multiset{s[j]} + multiset(s[j + 1..]);
  }

  /** Over distinct keys the kept rows' keys strictly descend. */
  lemma TopKStrict<T(!new)>(s: seq<T>, key: T -> int, k: nat, i: int, j: int)
    requires DistinctKeys(s, key)
    requires 0 <= i < j < |TopK(s, key, k)|
    ensures key(TopK(s, key, k)[i]) > key(TopK(s, key, k)[j])
  {
    var r := TopK(s, key, k);
    if r[i] == r[j] {
      TwoPositionsTwoCopies(r, i, j);
      DistinctKeysSingleCopies(s, key, r[i]);
      assert false;
    }
    var p :| 0 <= p < |s| && s[p] == r[i];
    var q :| 0 <= q < |s| && s[q] == r[j];
    assert p != q;
  }

  /** What a prefix leaves of a sequence's multiset is the rest's. */
  lemma PrefixMultiset<T>(t: seq<T>, m: nat)
    requires m <= |t|
    ensures multiset(t[..m]) <= multiset(t)
    ensures multiset(t) - multiset(t[..m]) == multiset(t[m..])
  {
    assert t == t[..m] + t[m..];
    assert multiset(t) == multiset(t[..m]) + multiset(t[m..]);
  }

  /** The first `k` rows of an ordered table are its greatest ones. */
  lemma TakeOfSorted<T(!new)>(t: seq<T>, key: T -> int, k: nat)
    requires SortedDesc(t, key)
    ensures var r := Take(t, k);
      && SortedDesc(r, key)
      && multiset(r) <= multiset(t)
      && forall x, i :: x in multiset(t) - multiset(r) && 0 <= i < |r| ==> key(x) <= key(r[i])
  {
    var r := Take(t, k);
    var m := |r|;
    assert r == t[..m];
    PrefixMultiset(t, m);
    forall x, i | x in multiset(t) - multiset(r) && 0 <= i < |r|
      ensures key(x) <= key(r[i])
    {
      var j' :| 0 <= j' < |t[m..]| && t[m..][j'] == x;
      assert t[m + j'] == x;
    }
  }

  /** Adjacent repeats of a descending sequence dropped: its distinct values, greatest first. */
  function Dedup(s: seq<int>): (r: seq<int>)
    requires SortedDesc(s, Id)
    ensures StrictlyDecreasing(r)
    ensures forall x :: x in r <==> x in s
    ensures |s| > 0 ==> |r| > 0 && r[0] == s[0]
  {
    if |s| <= 1 then s
    else if s[0] == s[1] then Dedup(s[1..])
    else
      var tail := Dedup(s[1..]);
      assert Id(s[0]) >= Id(s[1]);
      assert forall x :: x in tail ==> x <= tail[0];
      [s[0]] + tail
  }

  /** A WHERE clause applied to an ordered result keeps it ordered. */
  lemma {:induction false} FilterKeepsSorted<T(!new)>(s: seq<T>, key: T -> int, p: T -> bool)
    requires SortedDesc(s, key)
    ensures SortedDesc(Filter(s, p), key)
    decreases |s|
  {
    if |s| > 0 {
      FilterKeepsSorted(s[1..], key, p);
      var tail := Filter(s[1..], p);
      assert forall y :: y in tail ==> y in s[1..];
      assert forall y :: y in tail ==> key(y) <= key(s[0]);
    }
  }

  /** Reversing a strictly decreasing sequence makes it strictly increasing. */
  lemma ReverseIncreasing(s: seq<int>)
    requires StrictlyDecreasing(s)
    ensures forall i, j :: 0 <= i < j < |Reverse(s)| ==> Reverse(s)[i] < Reverse(s)[j]
    ensures forall i :: 0 <= i < |Reverse(s)| ==> Reverse(s)[i] in s
  {
    var r := Reverse(s);
    forall i, j | 0 <= i < j < |r|
      ensures r[i] < r[j]
    {
      assert r[i] == s[|s| - 1 - i] && r[j] == s[|s| - 1 - j];
    }
    forall i | 0 <= i < |r|
      ensures r[i] in s
    {
      assert r[i] == s[|s| - 1 - i];
    }
  }

  /** No row has a greater key than the first row kept. */
  lemma TopKFirstIsMax<T(!new)>(s: seq<T>, key: T -> int, k: nat, x: T)
    requires x in s && k > 0
    ensures |TopK(s, key, k)| > 0 && key(x) <= key(TopK(s, key, k)[0])
  {
    var r := TopK(s, key, k);
    TopKCovers(s, key, k, x);
    if x in r {
      var i :| 0 <= i < |r| && r[i] == x;
      assert i == 0 || key(r[0]) >= key(r[i]);
    }
  }

  /** Of two rows kept, no row but the first has a greater key than the second. */
  lemma TopTwoSecondIsMaxOfRest<T(!new)>(s: seq<T>, key: T -> int, x: T)
    requires x in s && |s| >= 2
    requires x != TopK(s, key, 2)[0]
    ensures key(x) <= key(TopK(s, key, 2)[1])
  {
    var r := TopK(s, key, 2);
    TopKCovers(s, key, 2, x);
    if x in r {
      assert x == r[1];
    }
  }
}

/**
 * The median pandas computes for a numeric column: nulls are skipped, the
 * values are ordered, and the middle one (or the mean of the two middle ones)
 * is taken; with no values at all the median is undefined (NaN).
 */
module Stats {
  import opened Wrappers

  predicate Sorted(s: seq<real>)
  {
    forall i, j :: 0 <= i < j < |s| ==> s[i] <= s[j]
  }

  /** Prepending a lower bound keeps a sequence sorted. */
  lemma SortedCons(a: real, t: seq<real>)
    requires Sorted(t)
    requires forall k :: 0 <= k < |t| ==> a <= t[k]
    ensures Sorted([a] + t)
  {
    var r := [a] + t;
    forall i, j | 0 <= i < j < |r| ensures r[i] <= r[j] {
      if i > 0 { assert r[i] == t[i - 1] && r[j] == t[j - 1]; } else { assert r[j] == t[j - 1]; }
    }
  }

  function Insert(x: real, s: seq<real>): (r: seq<real>)
    requires Sorted(s)
    ensures |r| == |s| + 1
    ensures multiset(r) == multiset(s) + multiset{x}
    ensures Sorted(r)
  {
    if s == [] then [x]
    else if x <= s[0] then
      SortedCons(x, s);
      [x] + s
    else
      var t := Insert(x, s[1..]);
      assert s == [s[0]] + s[1..];
      assert forall k :: 0 <= k < |t| ==> s[0] <= t[k] by {
        forall k | 0 <= k < |t| ensures s[0] <= t[k] {
          assert t[k] in multiset(t);
          if t[k] != x {
            assert t[k] in multiset(s[1..]);
          }
        }
      }
      SortedCons(s[0], t);
      [s[0]] + t
  }

  /** Ascending order of the values: a sorted permutation of the input. */
  function Sort(s: seq<real>): (r: seq<real>)
    ensures Sorted(r)
    ensures multiset(r) == multiset(s)
    ensures |r| == |s|
  {
    if s == [] then []
    else
      assert s == [s[0]] + s[1..];
      Insert(s[0], Sort(s[1..]))
  }

  function MiddleOf(r: seq<real>): real
    requires |r| > 0
  {
    var n := |r|;
    if n % 2 == 1 then r[n / 2] else (r[n / 2 - 1] + r[n / 2]) / 2.0
  }

  lemma MiddleBetween(r: seq<real>)
    requires Sorted(r) && |r| > 0
    ensures r[(|r| - 1) / 2] <= MiddleOf(r) <= r[|r| / 2]
  {
    var n := |r|;
    if n % 2 == 0 {
      assert (n - 1) / 2 == n / 2 - 1;
      assert r[n / 2 - 1] <= r[n / 2];
    } else {
      assert (n - 1) / 2 == n / 2;
    }
  }

  /** The median, or None (NaN) for an empty population. */
  function Median(s: seq<real>): (m: Option<real>)
    ensures m.None? <==> s == []
    ensures m.Some? ==> exists x :: x in s && x <= m.value
    ensures m.Some? ==> exists y :: y in s && m.value <= y
  {
    if s == [] then None
    else
      var r := Sort(s);
      var n := |r|;
      assert r[n / 2] in s && r[(n - 1) / 2] in s by {
        assert r[n / 2] in multiset(r) && r[(n - 1) / 2] in multiset(r);
        assert r[n / 2] in multiset(s) && r[(n - 1) / 2] in multiset(s);
      }
      MiddleBetween(r);
      Some(MiddleOf(r))
  }

  /** The median lies between any bounds that hold for every value. */
  lemma MedianWithin(s: seq<real>, lo: real, hi: real)
    requires s != []
    requires forall k :: 0 <= k < |s| ==> lo <= s[k] <= hi
    ensures Median(s).Some? && lo <= Median(s).value <= hi
  {
    var m := Median(s).value;
    var x :| x in s && x <= m;
    var y :| y in s && m <= y;
  }

  /** The smallest element of a sorted sequence is the smallest member of its multiset. */
  lemma SortedHeadIsMinimum(a: seq<real>, x: real)
    requires Sorted(a) && a != []
    requires x in multiset(a)
    ensures a[0] <= x
  {
    assert x in a;
    var k :| 0 <= k < |a| && a[k] == x;
    assert k == 0 || a[0] <= a[k];
  }

  lemma SortedTail(a: seq<real>)
    requires Sorted(a) && a != []
    ensures Sorted(a[1..])
    ensures multiset(a[1..]) == multiset(a) - multiset{a[0]}
  {
    assert a == [a[0]] + a[1..];
    forall i, j | 0 <= i < j < |a| - 1 ensures a[1..][i] <= a[1..][j] {
      assert a[1..][i] == a[i + 1] && a[1..][j] == a[j + 1];
    }
  }

  /** Two sorted, non-empty sequences with the same elements start with the same value. */
  lemma SortedSameHead(a: seq<real>, b: seq<real>)
    requires Sorted(a) && Sorted(b) && a != [] && b != []
    requires multiset(a) == multiset(b)
    ensures a[0] == b[0]
  {
    assert a[0] in multiset(a);
    assert b[0] in multiset(b);
    SortedHeadIsMinimum(b, a[0]);
    SortedHeadIsMinimum(a, b[0]);
  }

  /** Two sorted sequences with the same elements are equal. */
  lemma {:induction false} SortedUnique(a: seq<real>, b: seq<real>)
    requires Sorted(a) && Sorted(b)
    requires multiset(a) == multiset(b)
    ensures a == b
  {
    assert |a| == |multiset(a)| && |b| == |multiset(b)|;
    if a != [] {
      SortedSameHead(a, b);
      SortedTail(a);
      SortedTail(b);
      SortedUnique(a[1..], b[1..]);
      assert a == [a[0]] + a[1..];
      assert b == [b[0]] + b[1..];
    }
  }

  /** The median is a statistic of the population: it does not depend on row order. */
  lemma MedianOfPermutation(a: seq<real>, b: seq<real>)
    requires multiset(a) == multiset(b)
    ensures Median(a) == Median(b)
  {
    SortedUnique(Sort(a), Sort(b));
    if a == [] {
      assert |b| == |multiset(b)| == 0;
    } else {
      assert |b| == |multiset(b)| == |multiset(a)| == |a|;
    }
  }

  /** Sorting an already ordered population changes nothing. */
  lemma SortOfSorted(s: seq<real>)
    requires Sorted(s)
    ensures Sort(s) == s
  {
    SortedUnique(Sort(s), s);
  }

  /** For an ordered population the median is read off the middle position(s). */
  lemma MedianOfSorted(s: seq<real>)
    requires Sorted(s) && s != []
    ensures Median(s) == Some(MiddleOf(s))
  {
    SortOfSorted(s);
  }

  /** The worked case: ratings 1 to 5 have median 3. */
  lemma MedianOfOneToFive(s: seq<real>)
    requires |s| == 5 && s[0] == 1.0 && s[1] == 2.0 && s[2] == 3.0 && s[3] == 4.0 && s[4] == 5.0
    ensures Median(s) == Some(3.0)
  {
    forall i, j | 0 <= i < j < |s| ensures s[i] <= s[j] {
      assert s[i] == (i + 1) as real && s[j] == (j + 1) as real;
    }
    MedianOfSorted(s);
  }
}

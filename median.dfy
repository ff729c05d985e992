/** The median pandas' `Series.median()` computes over the values present: the
    middle value of the sorted values, or the mean of the two middle values when
    there is an even number of them, and no value at all when there is none. */
module Median {
  import opened Common

  predicate Sorted(s: seq<real>)
  {
    forall i, j :: 0 <= i < j < |s| ==> s[i] <= s[j]
  }

  /** `x` put in front of the first value of `s` it does not exceed. */
  function Insert(x: real, s: seq<real>): (r: seq<real>)
    ensures |r| == |s| + 1
  {
    if |s| == 0 then [x]
    else if x <= s[0] then [x] + s
    else [s[0]] + Insert(x, s[1..])
  }

  /** The values in ascending order (insertion sort). */
  function Sort(xs: seq<real>): (r: seq<real>)
    ensures |r| == |xs|
  {
    if |xs| == 0 then [] else Insert(xs[0], Sort(xs[1..]))
  }

  /** Inserting adds exactly `x` to the values. */
  lemma {:induction false} InsertMultiset(x: real, s: seq<real>)
    ensures multiset(Insert(x, s)) == multiset(s) + multiset{x}
  {
    if |s| > 0 && x > s[0] {
      InsertMultiset(x, s[1..]);
      assert s == [s[0]] + s[1..];
    }
  }

  /** Inserting into a sorted sequence keeps it sorted. */
  lemma {:induction false} InsertSorted(x: real, s: seq<real>)
    requires Sorted(s)
    ensures Sorted(Insert(x, s))
  {
    if |s| > 0 && x > s[0] {
      InsertSorted(x, s[1..]);
      InsertMultiset(x, s[1..]);
      var rest := Insert(x, s[1..]);
      forall k | 0 <= k < |rest|
        ensures s[0] <= rest[k]
      {
        assert rest[k] in multiset(s[1..]) + multiset{x};
      }
    }
  }

  /** Sorting rearranges the values and nothing else. */
  lemma {:induction false} SortMultiset(xs: seq<real>)
    ensures multiset(Sort(xs)) == multiset(xs)
  {
    if |xs| > 0 {
      SortMultiset(xs[1..]);
      InsertMultiset(xs[0], Sort(xs[1..]));
      assert xs == [xs[0]] + xs[1..];
    }
  }

  /** Sorting yields ascending order. */
  lemma {:induction false} SortSorted(xs: seq<real>)
    ensures Sorted(Sort(xs))
  {
    if |xs| > 0 {
      SortSorted(xs[1..]);
      InsertSorted(xs[0], Sort(xs[1..]));
    }
  }

  /** Two sorted arrangements of the same values start with the same value. */
  lemma SortedSameHead(a: seq<real>, b: seq<real>)
    requires Sorted(a) && Sorted(b) && multiset(a) == multiset(b) && |a| > 0
    ensures |b| > 0 && a[0] == b[0]
  {
    assert a[0] in multiset(b);
    var j :| 0 <= j < |b| && b[j] == a[0];
    assert b[0] in multiset(a);
    var i :| 0 <= i < |a| && a[i] == b[0];
    assert a[0] <= a[i] && b[0] <= b[j];
  }

  lemma TailMultiset(a: seq<real>)
    requires |a| > 0
    ensures multiset(a[1..]) == multiset(a) - multiset{a[0]}
  {
    assert a == [a[0]] + a[1..];
  }

  /** Two sorted arrangements of the same values are the same sequence. */
  lemma {:induction false} SortedUnique(a: seq<real>, b: seq<real>)
    requires Sorted(a) && Sorted(b) && multiset(a) == multiset(b)
    ensures a == b
  {
    if |a| > 0 {
      SortedSameHead(a, b);
      TailMultiset(a);
      TailMultiset(b);
      SortedUnique(a[1..], b[1..]);
      assert a == [a[0]] + a[1..] && b == [b[0]] + b[1..];
    } else {
      assert |b| == |multiset(b)| == 0;
    }
  }

  /** The middle of a sorted sequence: its middle value, or the mean of its
      two middle values when its length is even. */
  function Middle(s: seq<real>): Option<real>
  {
    var n := |s|;
    if n == 0 then None
    else if n % 2 == 1 then Some(s[n / 2])
    else Some((s[n / 2 - 1] + s[n / 2]) / 2.0)
  }

  /** The median of the values, `None` for no values. */
  function Median(xs: seq<real>): (r: Option<real>)
    ensures r.None? <==> |xs| == 0
  {
    Middle(Sort(xs))
  }

  /** The median depends only on the values, not on their order. */
  lemma MedianOfPermutation(xs: seq<real>, ys: seq<real>)
    requires multiset(xs) == multiset(ys)
    ensures Median(xs) == Median(ys)
  {
    SortSorted(xs);
    SortSorted(ys);
    SortMultiset(xs);
    SortMultiset(ys);
    SortedUnique(Sort(xs), Sort(ys));
  }

  /** How many of the values are at most `m`. */
  function CountAtMost(xs: seq<real>, m: real): nat
  {
    if |xs| == 0 then 0 else (if xs[0] <= m then 1 else 0) + CountAtMost(xs[1..], m)
  }

  /** How many of the values are at least `m`. */
  function CountAtLeast(xs: seq<real>, m: real): nat
  {
    if |xs| == 0 then 0 else (if xs[0] >= m then 1 else 0) + CountAtLeast(xs[1..], m)
  }

  lemma {:induction false} CountInsert(x: real, s: seq<real>, m: real)
    ensures CountAtMost(Insert(x, s), m) == CountAtMost(s, m) + (if x <= m then 1 else 0)
    ensures CountAtLeast(Insert(x, s), m) == CountAtLeast(s, m) + (if x >= m then 1 else 0)
  {
    if |s| > 0 && x > s[0] {
      CountInsert(x, s[1..], m);
      var r := Insert(x, s);
      assert r[0] == s[0] && r[1..] == Insert(x, s[1..]);
    }
  }

  /** Sorting keeps both counts. */
  lemma {:induction false} CountSort(xs: seq<real>, m: real)
    ensures CountAtMost(Sort(xs), m) == CountAtMost(xs, m)
    ensures CountAtLeast(Sort(xs), m) == CountAtLeast(xs, m)
  {
    if |xs| > 0 {
      CountSort(xs[1..], m);
      CountInsert(xs[0], Sort(xs[1..]), m);
    }
  }

  /** In a sorted sequence, `s[k] <= m` puts the first `k + 1` values at most `m`. */
  lemma {:induction false} SortedCountAtMost(s: seq<real>, k: nat, m: real)
    requires Sorted(s) && k < |s| && s[k] <= m
    ensures CountAtMost(s, m) >= k + 1
  {
    if k > 0 {
      SortedCountAtMost(s[1..], k - 1, m);
    }
  }

  /** In a sorted sequence, `s[k] >= m` puts the values from `k` on at least `m`. */
  lemma {:induction false} SortedCountAtLeast(s: seq<real>, k: nat, m: real)
    requires Sorted(s) && k < |s| && s[k] >= m
    ensures CountAtLeast(s, m) >= |s| - k
  {
    if k > 0 {
      SortedCountAtLeast(s[1..], k - 1, m);
    } else if |s| > 1 {
      SortedCountAtLeast(s[1..], 0, m);
    }
  }

  /** What makes the median a median: at least half of the values lie at or
      below it, and at least half at or above it. */
  lemma MedianBalanced(xs: seq<real>)
    requires |xs| > 0
    ensures 2 * CountAtMost(xs, Median(xs).value) >= |xs|
    ensures 2 * CountAtLeast(xs, Median(xs).value) >= |xs|
  {
    var s := Sort(xs);
    SortSorted(xs);
    var n := |s|;
    var m := Median(xs).value;
    CountSort(xs, m);
    if n % 2 == 1 {
      assert m == s[n / 2];
      SortedCountAtMost(s, n / 2, m);
      SortedCountAtLeast(s, n / 2, m);
    } else {
      assert m == (s[n / 2 - 1] + s[n / 2]) / 2.0;
      SortedCountAtMost(s, n / 2 - 1, m);
      SortedCountAtLeast(s, n / 2, m);
    }
  }

  /** A sorted sequence is its own sort. */
  lemma SortOfSorted(s: seq<real>)
    requires Sorted(s)
    ensures Sort(s) == s
  {
    SortSorted(s);
    SortMultiset(s);
    SortedUnique(Sort(s), s);
  }

  /** The median of a sorted sequence is its middle. */
  lemma MedianOfSorted(s: seq<real>)
    requires Sorted(s)
    ensures Median(s) == Middle(s)
  {
    SortOfSorted(s);
  }

  /** The median of one value is that value. */
  lemma MedianOfOne(xs: seq<real>, x: real)
    requires xs == [x]
    ensures Median(xs) == Some(x)
  {
    MedianOfSorted(xs);
  }

  lemma MedianOfSortedPair(s: seq<real>)
    requires |s| == 2 && s[0] <= s[1]
    ensures Median(s) == Some((s[0] + s[1]) / 2.0)
  {
    MedianOfSorted(s);
  }

  /** The median of two values is their mean, in either order. */
  lemma MedianOfTwo(xs: seq<real>, x: real, y: real)
    requires xs == [x, y]
    ensures Median(xs) == Some((x + y) / 2.0)
  {
    if x <= y {
      MedianOfSortedPair(xs);
    } else {
      var sorted := [y, x];
      MedianOfSortedPair(sorted);
      assert multiset(xs) == multiset(sorted);
      MedianOfPermutation(xs, sorted);
    }
  }

  /** The median of three values is the one between the other two, whatever
      their order. */
  lemma MedianOfThree(xs: seq<real>, x: real, y: real, z: real)
    requires x <= y <= z
    requires multiset(xs) == multiset{x, y, z}
    ensures Median(xs) == Some(y)
  {
    var sorted := [x, y, z];
    assert Median(sorted) == Some(y) by {
      MedianOfSorted(sorted);
      assert Middle(sorted) == Some(sorted[1]);
    }
    assert multiset(sorted) == multiset{x, y, z};
    MedianOfPermutation(xs, sorted);
  }
}

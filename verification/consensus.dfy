/**
 * The consensus step of the aggregator: the median of a non-empty list of
 * prices, taken after sorting them ascending (an odd count yields the middle
 * element, an even count the mean of the two middle elements), or nothing
 * for an empty list.
 */
module Consensus {
  import opened Wrappers

  ghost predicate Sorted(s: seq<real>) {
    forall i, j :: 0 <= i < j < |s| ==> s[i] <= s[j]
  }

  /** Prepending an element no larger than the head keeps a sequence ascending. */
  lemma SortedCons(h: real, t: seq<real>)
    requires Sorted(t) && (t == [] || h <= t[0])
    ensures Sorted([h] + t)
  {
    var r := [h] + t;
    forall i, j | 0 <= i < j < |r| ensures r[i] <= r[j] {
      if i > 0 {
        assert r[i] == t[i - 1] && r[j] == t[j - 1];
      } else {
        assert r[j] == t[j - 1];
      }
    }
  }

  /** Inserts `x` before the first element it does not exceed. */
  function Insert(x: real, s: seq<real>): (r: seq<real>)
    ensures |r| == |s| + 1
  {
    if s == [] || x <= s[0] then [x] + s else [s[0]] + Insert(x, s[1..])
  }

  /** Inserting adds exactly one occurrence of `x`. */
  lemma {:induction false} InsertAddsElement(x: real, s: seq<real>)
    ensures multiset(Insert(x, s)) == multiset(s) + multiset{x}
  {
    if s != [] && s[0] < x {
      InsertAddsElement(x, s[1..]);
      assert s == [s[0]] + s[1..];
    }
  }

  /** Inserting into an ascending sequence keeps it ascending. */
  lemma {:induction false} InsertKeepsOrder(x: real, s: seq<real>)
    requires Sorted(s)
    ensures Sorted(Insert(x, s))
  {
    if s == [] || x <= s[0] {
      SortedCons(x, s);
    } else {
      var rest := Insert(x, s[1..]);
      assert rest[0] == x || rest[0] == s[1];
      SortedTail(s);
      InsertKeepsOrder(x, s[1..]);
      SortedCons(s[0], rest);
    }
  }

  /**
   * Sorts ascending by insertion. The Rust code sorts with a stable merge sort;
   * for plain numbers every ascending permutation is the same sequence
   * (SortedUnique), so the choice of algorithm does not matter.
   */
  function Sort(s: seq<real>): (r: seq<real>)
    ensures |r| == |s|
  {
    if s == [] then [] else Insert(s[0], Sort(s[1..]))
  }

  /** Sort yields an ascending permutation of its input. */
  lemma {:induction false} SortIsSortedPermutation(s: seq<real>)
    ensures Sorted(Sort(s))
    ensures multiset(Sort(s)) == multiset(s)
  {
    if s != [] {
      SortIsSortedPermutation(s[1..]);
      InsertKeepsOrder(s[0], Sort(s[1..]));
      InsertAddsElement(s[0], Sort(s[1..]));
      assert s == [s[0]] + s[1..];
    }
  }

  /** The head of an ascending sequence is its least element. */
  lemma HeadIsLeast(s: seq<real>, x: real)
    requires Sorted(s) && x in multiset(s)
    ensures s[0] <= x
  {
    var k :| 0 <= k < |s| && s[k] == x;
  }

  lemma SortedTail(s: seq<real>)
    requires Sorted(s) && |s| > 0
    ensures Sorted(s[1..])
  {
  }

  lemma MultisetTail(s: seq<real>)
    requires |s| > 0
    ensures multiset(s[1..]) == multiset(s) - multiset{s[0]}
  {
    assert s == [s[0]] + s[1..];
  }

  lemma SortedHeadsEqual(a: seq<real>, b: seq<real>)
    requires Sorted(a) && Sorted(b) && |a| > 0 && |b| > 0
    requires multiset(a) == multiset(b)
    ensures a[0] == b[0]
  {
    assert a[0] in multiset(a) && b[0] in multiset(b);
    HeadIsLeast(a, b[0]);
    HeadIsLeast(b, a[0]);
  }

  lemma SameHeadAndTail(a: seq<real>, b: seq<real>)
    requires |a| > 0 && |b| > 0 && a[0] == b[0] && a[1..] == b[1..]
    ensures a == b
  {
    assert a == [a[0]] + a[1..];
    assert b == [b[0]] + b[1..];
  }

  /** Two ascending sequences with the same elements are equal. */
  lemma {:induction false} SortedUnique(a: seq<real>, b: seq<real>)
    requires Sorted(a) && Sorted(b)
    requires multiset(a) == multiset(b)
    ensures a == b
  {
    assert |a| == |multiset(a)| == |multiset(b)| == |b|;
    if a != [] {
      SortedHeadsEqual(a, b);
      MultisetTail(a);
      MultisetTail(b);
      SortedTail(a);
      SortedTail(b);
      SortedUnique(a[1..], b[1..]);
      SameHeadAndTail(a, b);
    }
  }

  /** The middle of a non-empty sequence: one element, or the mean of two. */
  function Middle(t: seq<real>): (m: real)
    requires |t| > 0
  {
    var n := |t|;
    if n % 2 == 0 then (t[n / 2 - 1] + t[n / 2]) / 2.0 else t[n / 2]
  }

  /** The statistical median of `prices`; None exactly when there are none. */
  function Median(prices: seq<real>): (r: Option<real>)
    ensures r.None? <==> |prices| == 0
  {
    if |prices| == 0 then None else Some(Middle(Sort(prices)))
  }

  /**
   * The median is the middle of ANY ascending arrangement of the prices:
   * `sorted[n/2]` for odd n, `(sorted[n/2-1] + sorted[n/2]) / 2` for even n.
   */
  lemma MedianOfSortedArrangement(prices: seq<real>, sorted: seq<real>)
    requires |prices| > 0
    requires Sorted(sorted) && multiset(sorted) == multiset(prices)
    ensures |sorted| == |prices|
    ensures Median(prices) == Some(Middle(sorted))
  {
    SortIsSortedPermutation(prices);
    SortedUnique(Sort(prices), sorted);
  }

  /** The median depends only on which prices there are, not on their order. */
  lemma MedianIgnoresOrder(a: seq<real>, b: seq<real>)
    requires multiset(a) == multiset(b)
    ensures Median(a) == Median(b)
  {
    assert |a| == |multiset(a)| == |b|;
    SortIsSortedPermutation(a);
    SortIsSortedPermutation(b);
    SortedUnique(Sort(a), Sort(b));
  }

  /** The median of an ascending sequence is its middle. */
  lemma MedianOfSorted(t: seq<real>)
    requires Sorted(t) && |t| > 0
    ensures Median(t) == Some(Middle(t))
  {
    MedianOfSortedArrangement(t, t);
  }

  lemma SortedMembers(s: seq<real>, k: nat)
    requires k < |s|
    ensures k < |Sort(s)| && Sort(s)[k] in s
  {
    SortIsSortedPermutation(s);
    assert Sort(s)[k] in multiset(Sort(s));
  }

  /** The middle of an ascending sequence lies between its two central elements. */
  lemma MiddleBetween(t: seq<real>)
    requires Sorted(t) && |t| > 0
    ensures t[(|t| - 1) / 2] <= Middle(t) <= t[|t| / 2]
  {
  }

  /** The median lies between two of the prices it was computed from. */
  lemma MedianBetweenSamples(prices: seq<real>)
    requires |prices| > 0
    ensures exists i, j :: 0 <= i < |prices| && 0 <= j < |prices|
              && prices[i] <= Median(prices).value <= prices[j]
  {
    var t := Sort(prices);
    var n := |t|;
    SortIsSortedPermutation(prices);
    MiddleBetween(t);
    SortedMembers(prices, (n - 1) / 2);
    SortedMembers(prices, n / 2);
    var i :| 0 <= i < |prices| && prices[i] == t[(n - 1) / 2];
    var j :| 0 <= j < |prices| && prices[j] == t[n / 2];
    assert prices[i] <= Median(prices).value <= prices[j];
  }

  /** Any bounds that hold of every price hold of the median. */
  lemma MedianWithinBounds(prices: seq<real>, lo: real, hi: real)
    requires |prices| > 0
    requires forall i :: 0 <= i < |prices| ==> lo <= prices[i] <= hi
    ensures lo <= Median(prices).value <= hi
  {
    MedianBetweenSamples(prices);
  }

  /** All-identical prices have that price as their median. */
  lemma MedianOfIdentical(prices: seq<real>, v: real)
    requires |prices| > 0
    requires forall i :: 0 <= i < |prices| ==> prices[i] == v
    ensures Median(prices) == Some(v)
  {
    MedianWithinBounds(prices, v, v);
  }
}

/**
 The median of a float column, as `Series.median()` computes it: missing
 cells are skipped, the known values are sorted, and the middle value (or the
 mean of the two middle values, for an even count) is returned. With no known
 value the median is itself missing.
 */
module Stats {
  import opened Missing

  /** The known values of a column, in order. */
  function Present(xs: seq<Option<real>>): (r: seq<real>)
    ensures |r| <= |xs|
    ensures forall v :: v in r <==> Some(v) in xs
  {
    if |xs| == 0 then []
    else
      var rest := Present(xs[1..]);
      assert forall v :: Some(v) in xs <==> Some(v) == xs[0] || Some(v) in xs[1..];
      if xs[0].Some? then [xs[0].value] + rest else rest
  }

  predicate Sorted(s: seq<real>) {
    forall i, j :: 0 <= i < j < |s| ==> s[i] <= s[j]
  }

  function Insert(x: real, s: seq<real>): (r: seq<real>)
    requires Sorted(s)
    ensures Sorted(r)
    ensures multiset(r) == multiset(s) + multiset{x}
  {
    if |s| == 0 || x <= s[0] then [x] + s
    else
      var rest := Insert(x, s[1..]);
      assert s == [s[0]] + s[1..];
      AtLeastAll(rest, x, s[1..], s[0]);
      [s[0]] + rest
  }

  /** A permutation of `t + [x]` whose parts are all at least `lo` is itself
      bounded below by `lo`. */
  lemma AtLeastAll(rest: seq<real>, x: real, t: seq<real>, lo: real)
    requires multiset(rest) == multiset(t) + multiset{x}
    requires x >= lo
    requires forall j :: 0 <= j < |t| ==> t[j] >= lo
    ensures forall j :: 0 <= j < |rest| ==> rest[j] >= lo
  {
    forall j | 0 <= j < |rest|
      ensures rest[j] >= lo
    {
      assert rest[j] in multiset(rest);
      if rest[j] != x {
        assert rest[j] in multiset(t);
        assert rest[j] in t;
      }
    }
  }

  /** Insertion sort: an ascending permutation of `s`. */
  function Sort(s: seq<real>): (r: seq<real>)
    ensures Sorted(r)
    ensures multiset(r) == multiset(s)
  {
    if |s| == 0 then []
    else
      assert s == [s[0]] + s[1..];
      Insert(s[0], Sort(s[1..]))
  }

  /** Number of entries strictly below `m`. */
  function CountBelow(s: seq<real>, m: real): (r: nat)
    ensures r <= |s|
  {
    if |s| == 0 then 0 else (if s[0] < m then 1 else 0) + CountBelow(s[1..], m)
  }

  /** Number of entries strictly above `m`. */
  function CountAbove(s: seq<real>, m: real): (r: nat)
    ensures r <= |s|
  {
    if |s| == 0 then 0 else (if s[0] > m then 1 else 0) + CountAbove(s[1..], m)
  }

  lemma {:induction false} InsertCounts(x: real, s: seq<real>, m: real)
    requires Sorted(s)
    ensures CountBelow(Insert(x, s), m) == CountBelow(s, m) + (if x < m then 1 else 0)
    ensures CountAbove(Insert(x, s), m) == CountAbove(s, m) + (if x > m then 1 else 0)
  {
    if |s| == 0 || x <= s[0] {
      assert ([x] + s)[1..] == s;
    } else {
      InsertCounts(x, s[1..], m);
      assert ([s[0]] + Insert(x, s[1..]))[1..] == Insert(x, s[1..]);
    }
  }

  /** Sorting keeps how many entries lie below and above any threshold. */
  lemma {:induction false} SortCounts(s: seq<real>, m: real)
    ensures CountBelow(Sort(s), m) == CountBelow(s, m)
    ensures CountAbove(Sort(s), m) == CountAbove(s, m)
  {
    if |s| > 0 {
      SortCounts(s[1..], m);
      InsertCounts(s[0], Sort(s[1..]), m);
    }
  }

  /** If every entry from index `k` on is at least `m`, at most `k` lie below it. */
  lemma {:induction false} CountBelowBound(v: seq<real>, m: real, k: nat)
    requires k <= |v|
    requires forall j :: k <= j < |v| ==> v[j] >= m
    ensures CountBelow(v, m) <= k
  {
    if |v| > 0 {
      if k == 0 {
        CountBelowBound(v[1..], m, 0);
      } else {
        CountBelowBound(v[1..], m, k - 1);
      }
    }
  }

  /** If every entry before index `k` is at most `m`, at most `|v| - k` lie above it. */
  lemma {:induction false} CountAboveBound(v: seq<real>, m: real, k: nat)
    requires k <= |v|
    requires forall j :: 0 <= j < k ==> v[j] <= m
    ensures CountAbove(v, m) <= |v| - k
  {
    if k > 0 {
      CountAboveBound(v[1..], m, k - 1);
    }
  }

  /** The middle value of a sorted sequence, or the mean of its two middle
      values when the count is even. */
  function MiddleOf(v: seq<real>): real
    requires |v| > 0
  {
    if |v| % 2 == 1 then v[|v| / 2] else (v[|v| / 2 - 1] + v[|v| / 2]) / 2.0
  }

  /** `MiddleOf` for an odd length `2q + 1`: entry `q`. */
  lemma MiddleOfOdd(v: seq<real>, q: nat)
    requires |v| == 2 * q + 1
    ensures MiddleOf(v) == v[q]
  {
  }

  /** `MiddleOf` for an even length `2q`: the mean of entries `q - 1` and `q`. */
  lemma MiddleOfEven(v: seq<real>, q: nat)
    requires q > 0 && |v| == 2 * q
    ensures MiddleOf(v) == (v[q - 1] + v[q]) / 2.0
  {
  }

  /** The middle value (or the mean of the two middle values) of a sorted
      sequence has at most half its entries on either side. */
  lemma MiddleSplitsHalves(v: seq<real>)
    requires Sorted(v) && |v| > 0
    ensures 2 * CountBelow(v, MiddleOf(v)) <= |v|
    ensures 2 * CountAbove(v, MiddleOf(v)) <= |v|
  {
    var m := MiddleOf(v);
    var q := |v| / 2;
    if |v| % 2 == 1 {
      CountBelowBound(v, m, q);
      CountAboveBound(v, m, q + 1);
    } else {
      assert v[q - 1] <= m <= v[q];
      CountBelowBound(v, m, q);
      CountAboveBound(v, m, q);
    }
  }

  /** `a` is the lower of the two middle values of `p`: at most `|p|/2 - 1`
      values lie strictly below it and at most `|p|/2` strictly above. */
  predicate LowerMiddle(p: seq<real>, a: real) {
    a in p && 2 * CountBelow(p, a) <= |p| - 2 && 2 * CountAbove(p, a) <= |p|
  }

  /** `b` is the upper of the two middle values of `p`. */
  predicate UpperMiddle(p: seq<real>, b: real) {
    b in p && 2 * CountBelow(p, b) <= |p| && 2 * CountAbove(p, b) <= |p| - 2
  }

  /** Reference definition of the median of the non-empty `p`, by counting
      alone: for an odd count, a value of `p` with at most half of `p` on
      either side; for an even count, the mean of the lower and upper middle
      values. */
  ghost predicate IsMedian(p: seq<real>, m: real) {
    && |p| > 0
    && (|p| % 2 == 1 ==> m in p && 2 * CountBelow(p, m) <= |p| && 2 * CountAbove(p, m) <= |p|)
    && (|p| % 2 == 0 ==> exists a, b :: LowerMiddle(p, a) && UpperMiddle(p, b) && m == (a + b) / 2.0)
  }

  /** If all of the first `k` entries lie strictly below `m`, at least `k` do. */
  lemma {:induction false} CountBelowAtLeast(v: seq<real>, m: real, k: nat)
    requires k <= |v|
    requires forall j :: 0 <= j < k ==> v[j] < m
    ensures CountBelow(v, m) >= k
  {
    if k > 0 {
      CountBelowAtLeast(v[1..], m, k - 1);
    }
  }

  /** If all entries from index `k` on lie strictly above `m`, at least
      `|v| - k` do. */
  lemma {:induction false} CountAboveAtLeast(v: seq<real>, m: real, k: nat)
    requires k <= |v|
    requires forall j :: k <= j < |v| ==> v[j] > m
    ensures CountAbove(v, m) >= |v| - k
  {
    if |v| > 0 {
      if k == 0 {
        CountAboveAtLeast(v[1..], m, 0);
      } else {
        CountAboveAtLeast(v[1..], m, k - 1);
      }
    }
  }

  /** In a sorted sequence, a threshold with at most `k` entries strictly
      below it and at most `|v| - 1 - k` strictly above it is entry `k`. */
  lemma PinnedByCounts(v: seq<real>, m: real, k: nat)
    requires Sorted(v) && k < |v|
    requires CountBelow(v, m) <= k && CountAbove(v, m) <= |v| - 1 - k
    ensures m == v[k]
  {
    if m > v[k] {
      CountBelowAtLeast(v, m, k + 1);
    } else if m < v[k] {
      CountAboveAtLeast(v, m, k);
    }
  }

  /** Sorting keeps the length, and every sorted entry is one of the inputs. */
  lemma SortedEntry(p: seq<real>, i: nat)
    ensures |Sort(p)| == |p|
    ensures i < |p| ==> Sort(p)[i] in p
  {
    var v := Sort(p);
    assert |multiset(v)| == |multiset(p)|;
    if i < |p| {
      assert v[i] in multiset(v);
      assert v[i] in multiset(p);
    }
  }

  /** In a sorted sequence, entry `k` bounds the entries before it from above
      and the entries after it from below. */
  lemma SortedAround(v: seq<real>, k: nat)
    requires Sorted(v) && k < |v|
    ensures forall j :: 0 <= j <= k ==> v[j] <= v[k]
    ensures forall j :: k <= j < |v| ==> v[k] <= v[j]
  {
  }

  /** For an odd count, the middle sorted value meets the reference definition. */
  lemma OddMiddleIsMedian(p: seq<real>)
    requires |p| % 2 == 1
    ensures |Sort(p)| == |p| && IsMedian(p, Sort(p)[|p| / 2])
  {
    var v := Sort(p);
    var q := |p| / 2;
    SortedEntry(p, q);
    SortCounts(p, v[q]);
    MiddleSplitsHalves(v);
  }

  /** For an even count, the sorted value just below the middle is the lower
      middle value. */
  lemma EvenLowerMiddle(p: seq<real>)
    requires |p| > 0 && |p| % 2 == 0
    ensures |Sort(p)| == |p| && LowerMiddle(p, Sort(p)[|p| / 2 - 1])
  {
    var v := Sort(p);
    var q := |p| / 2;
    assert |p| == 2 * q;
    SortedEntry(p, q - 1);
    var a := v[q - 1];
    SortCounts(p, a);
    SortedAround(v, q - 1);
    CountBelowBound(v, a, q - 1);
    CountAboveBound(v, a, q);
    assert CountBelow(p, a) <= q - 1 && CountAbove(p, a) <= q;
  }

  /** For an even count, the sorted value at the middle is the upper middle
      value. */
  lemma EvenUpperMiddle(p: seq<real>)
    requires |p| > 0 && |p| % 2 == 0
    ensures |Sort(p)| == |p| && UpperMiddle(p, Sort(p)[|p| / 2])
  {
    var v := Sort(p);
    var q := |p| / 2;
    assert |p| == 2 * q;
    SortedEntry(p, q);
    var b := v[q];
    SortCounts(p, b);
    SortedAround(v, q);
    CountBelowBound(v, b, q);
    CountAboveBound(v, b, q + 1);
    assert CountBelow(p, b) <= q && CountAbove(p, b) <= q - 1;
  }

  /** The middle of the sorted known values meets the reference definition
      and has at most half of the values on either side. */
  lemma MiddleIsMedian(p: seq<real>)
    requires |p| > 0
    ensures |Sort(p)| == |p|
    ensures IsMedian(p, MiddleOf(Sort(p)))
    ensures 2 * CountBelow(p, MiddleOf(Sort(p))) <= |p|
    ensures 2 * CountAbove(p, MiddleOf(Sort(p))) <= |p|
  {
    var v := Sort(p);
    SortedEntry(p, 0);
    var m := MiddleOf(v);
    SortCounts(p, m);
    MiddleSplitsHalves(v);
    var q := |p| / 2;
    if |p| % 2 == 1 {
      OddMiddleIsMedian(p);
    } else {
      EvenLowerMiddle(p);
      EvenUpperMiddle(p);
      assert LowerMiddle(p, v[q - 1]) && UpperMiddle(p, v[q]) && m == (v[q - 1] + v[q]) / 2.0;
    }
  }

  /** The same for the sorted form of any sequence: a threshold with at most
      `k` values strictly below and at most `|p| - 1 - k` strictly above is the
      `k`-th smallest value. */
  lemma PinnedInSorted(p: seq<real>, m: real, k: nat)
    requires k < |p|
    requires CountBelow(p, m) <= k && CountAbove(p, m) <= |p| - 1 - k
    ensures |Sort(p)| == |p| && m == Sort(p)[k]
  {
    SortedEntry(p, 0);
    SortCounts(p, m);
    PinnedByCounts(Sort(p), m, k);
  }

  /** The reference definition allows one value only: the middle of the
      sorted values. */
  lemma MedianPinned(p: seq<real>, m: real)
    requires IsMedian(p, m)
    ensures |Sort(p)| == |p| && m == MiddleOf(Sort(p))
  {
    var v := Sort(p);
    SortedEntry(p, 0);
    var n := |p|;
    var q := n / 2;
    if n % 2 == 1 {
      assert n == 2 * q + 1;
      PinnedInSorted(p, m, q);
      MiddleOfOdd(v, q);
    } else {
      assert n == 2 * q;
      var a, b :| LowerMiddle(p, a) && UpperMiddle(p, b) && m == (a + b) / 2.0;
      PinnedInSorted(p, a, q - 1);
      PinnedInSorted(p, b, q);
      MiddleOfEven(v, q);
    }
  }

  /** `Series.median()`: missing exactly when no value is known, and otherwise
      a value the reference definition `IsMedian` allows for the known values,
      so no more than half of them lie strictly below it and no more than half
      strictly above it. */
  function Median(xs: seq<Option<real>>): (r: Option<real>)
    ensures r.None? <==> |Present(xs)| == 0
    ensures r.Some? ==> IsMedian(Present(xs), r.value)
    ensures r.Some? ==> 2 * CountBelow(Present(xs), r.value) <= |Present(xs)|
    ensures r.Some? ==> 2 * CountAbove(Present(xs), r.value) <= |Present(xs)|
  {
    var p := Present(xs);
    if |p| == 0 then None
    else
      MiddleIsMedian(p);
      Some(MiddleOf(Sort(p)))
  }

  /** The median is determined: any value meeting the reference definition
      for the known values is the median. */
  lemma MedianIsTheMedian(xs: seq<Option<real>>, m: real)
    requires IsMedian(Present(xs), m)
    ensures Median(xs) == Some(m)
  {
    MedianPinned(Present(xs), m);
  }

  /** An even count takes the mean of the two middle values: the median of
      1.0 and 3.0 is 2.0, not either of them. */
  lemma MedianOfOneAndThree()
    ensures Median([Some(1.0), Some(3.0)]) == Some(2.0)
  {
    var xs: seq<Option<real>> := [Some(1.0), Some(3.0)];
    var p := Present(xs);
    assert p == [1.0, 3.0] by {
      assert xs[1..] == [Some(3.0)];
      assert |xs[1..][1..]| == 0;
    }
    assert CountBelow(p, 1.0) == 0 && CountAbove(p, 1.0) == 1 by {
      assert p[1..] == [3.0];
      assert |p[1..][1..]| == 0;
    }
    assert CountBelow(p, 3.0) == 1 && CountAbove(p, 3.0) == 0 by {
      assert p[1..] == [3.0];
      assert |p[1..][1..]| == 0;
    }
    assert LowerMiddle(p, 1.0) && UpperMiddle(p, 3.0);
    MedianIsTheMedian(xs, 2.0);
  }
}

/**
 * The latency statistics reducer (calculateStats in main.go).
 *
 * Latency samples are durations in nanoseconds, modelled as unbounded
 * integers. The reducer sorts the samples in place and reads the minimum,
 * maximum, median and three nearest-rank percentiles from fixed indices of
 * the sorted array; the average is the sum divided by the count with Go's
 * truncating integer division.
 */
module Stats {
  import opened Wrappers

  /** The seven values the reducer reports. */
  datatype Summary = Summary(
    min: int, max: int, median: int,
    p90: int, p95: int, p99: int,
    average: int)

  // ---------------------------------------------------------------------
  // Specification functions
  // ---------------------------------------------------------------------

  ghost predicate Sorted(s: seq<int>) {
    forall i, j :: 0 <= i < j < |s| ==> s[i] <= s[j]
  }

  /** Sum of the samples, peeling off the last one (the order the loop adds them). */
  function Sum(s: seq<int>): int {
    if s == [] then 0 else Sum(s[..|s| - 1]) + s[|s| - 1]
  }

  /** Go's integer division, which truncates toward zero (Dafny's `/` is Euclidean). */
  function TruncDiv(x: int, n: int): (q: int)
    requires n > 0
    ensures x >= 0 ==> 0 <= x - q * n < n
    ensures x < 0 ==> 0 <= q * n - x < n
  {
    if x >= 0 then x / n else -((-x) / n)
  }

  /** Index of the median: ⌊n/2⌋, the upper of the two middle elements when n is even. */
  function MedianIndex(n: nat): (k: nat)
    requires n >= 1
    ensures k < n
    ensures n % 2 == 1 ==> k == n - 1 - k
    ensures n % 2 == 0 ==> k == n - k
  {
    n / 2
  }

  /**
   * Nearest-rank index of the p-th percentile: ⌊n·p/100⌋. The source computes
   * it as int(float64(n) * 0.p); here the product is exact.
   */
  function PercentileIndex(n: nat, p: nat): (k: nat)
    requires n >= 1 && p < 100
    ensures k < n
    ensures k * 100 <= n * p < (k + 1) * 100
  {
    n * p / 100
  }

  /**
   * The summary of an already sorted, non-empty snapshot of samples: every
   * value but the average is read from the snapshot.
   */
  function SummaryOf(s: seq<int>): (r: Summary)
    requires |s| > 0
    ensures r.min in s && r.max in s && r.median in s
    ensures r.p90 in s && r.p95 in s && r.p99 in s
  {
    var n := |s|;
    Summary(s[0], s[n - 1], s[MedianIndex(n)],
            s[PercentileIndex(n, 90)], s[PercentileIndex(n, 95)], s[PercentileIndex(n, 99)],
            TruncDiv(Sum(s), n))
  }

  /** Insertion of one sample into a sorted sequence. */
  function Insert(x: int, s: seq<int>): seq<int> {
    if s == [] || x <= s[0] then [x] + s else [s[0]] + Insert(x, s[1..])
  }

  /** Reference sort: any sequence sorted ascending, as a function of its input. */
  function Sort(s: seq<int>): seq<int> {
    if s == [] then [] else Insert(s[0], Sort(s[1..]))
  }

  /**
   * What the reducer computes: nothing for no samples, else the summary of
   * the sorted samples. It reports nothing exactly when there are no samples.
   */
  function Statistics(samples: seq<int>): (r: Option<Summary>)
    ensures r.None? <==> samples == []
  {
    if samples == [] then None else
      SortLength(samples);
      Some(SummaryOf(Sort(samples)))
  }

  // ---------------------------------------------------------------------
  // Lemmas about the reference sort
  // ---------------------------------------------------------------------

  lemma {:induction false} InsertPermutes(x: int, s: seq<int>)
    ensures multiset(Insert(x, s)) == multiset(s) + multiset{x}
  {
    if s != [] && x > s[0] {
      InsertPermutes(x, s[1..]);
      assert s == [s[0]] + s[1..];
    }
  }

  lemma {:induction false} InsertCorrect(x: int, s: seq<int>)
    requires Sorted(s)
    ensures Sorted(Insert(x, s))
    ensures multiset(Insert(x, s)) == multiset(s) + multiset{x}
  {
    InsertPermutes(x, s);
    if s != [] && x > s[0] {
      var t := Insert(x, s[1..]);
      InsertCorrect(x, s[1..]);
      forall k | 0 <= k < |t| ensures s[0] <= t[k] {
        assert t[k] in multiset(s[1..]) + multiset{x};
        if t[k] != x {
          var j :| 0 <= j < |s[1..]| && s[1..][j] == t[k];
          assert s[j + 1] == t[k];
        }
      }
      assert Insert(x, s) == [s[0]] + t;
    }
  }

  lemma {:induction false} SortLength(s: seq<int>)
    ensures |Sort(s)| == |s|
  {
    if s != [] {
      SortLength(s[1..]);
      InsertLength(s[0], Sort(s[1..]));
    }
  }

  lemma {:induction false} InsertLength(x: int, s: seq<int>)
    ensures |Insert(x, s)| == |s| + 1
  {
    if s != [] && x > s[0] {
      InsertLength(x, s[1..]);
    }
  }

  /** The reference sort yields an ascending permutation of its input. */
  lemma {:induction false} SortCorrect(s: seq<int>)
    ensures Sorted(Sort(s))
    ensures multiset(Sort(s)) == multiset(s)
  {
    if s != [] {
      SortCorrect(s[1..]);
      InsertCorrect(s[0], Sort(s[1..]));
      assert s == [s[0]] + s[1..];
    }
  }

  /**
   * Two ascending sequences with the same elements are equal: the sorted
   * snapshot, and hence the summary, does not depend on the order in which
   * the samples were recorded nor on the sorting algorithm used.
   */
  lemma {:induction false} SortedUnique(s: seq<int>, t: seq<int>)
    requires Sorted(s) && Sorted(t)
    requires multiset(s) == multiset(t)
    ensures s == t
  {
    if s != [] {
      assert |t| == |s| by { assert |multiset(t)| == |multiset(s)|; }
      assert s[0] == t[0] by {
        assert s[0] in multiset(t);
        assert t[0] in multiset(s);
        var i :| 0 <= i < |t| && t[i] == s[0];
        var j :| 0 <= j < |s| && s[j] == t[0];
        assert t[0] <= t[i] && s[0] <= s[j];
      }
      assert s == [s[0]] + s[1..];
      assert t == [t[0]] + t[1..];
      assert multiset(s) == multiset{s[0]} + multiset(s[1..]);
      assert multiset(t) == multiset{t[0]} + multiset(t[1..]);
      assert multiset(s[1..]) == multiset(s) - multiset{s[0]};
      assert multiset(t[1..]) == multiset(t) - multiset{t[0]};
      SortedUnique(s[1..], t[1..]);
    }
  }

  /** Sorting is the only ascending permutation. */
  lemma SortIsUniqueSortedPermutation(s: seq<int>, t: seq<int>)
    requires Sorted(t) && multiset(t) == multiset(s)
    ensures t == Sort(s)
  {
    SortCorrect(s);
    SortedUnique(t, Sort(s));
  }

  /** The reducer's result depends only on the multiset of samples. */
  lemma StatisticsPermutationInvariant(s: seq<int>, t: seq<int>)
    requires multiset(s) == multiset(t)
    ensures Statistics(s) == Statistics(t)
  {
    SortCorrect(s);
    SortCorrect(t);
    SortedUnique(Sort(s), Sort(t));
    if s == [] {
      assert |multiset(t)| == 0;
    } else {
      assert |multiset(t)| == |multiset(s)| > 0;
    }
  }

  // ---------------------------------------------------------------------
  // Lemmas about the summary
  // ---------------------------------------------------------------------

  /** The median index never exceeds the 90th percentile index. */
  lemma MedianBeforeP90(n: nat)
    requires n >= 1
    ensures MedianIndex(n) <= PercentileIndex(n, 90)
  {
  }

  /** Nearest-rank indices grow with the percentile. */
  lemma PercentileIndexMonotone(n: nat, p: nat, q: nat)
    requires n >= 1 && p <= q < 100
    ensures PercentileIndex(n, p) <= PercentileIndex(n, q)
  {
    assert n * p <= n * q by { assert n * q - n * p == n * (q - p); }
  }

  /**
   * On a sorted snapshot min ≤ median ≤ p90 ≤ p95 ≤ p99 ≤ max, and every
   * sample lies between min and max.
   */
  lemma SummaryOrdered(s: seq<int>)
    requires |s| > 0 && Sorted(s)
    ensures var r := SummaryOf(s);
      r.min <= r.median <= r.p90 <= r.p95 <= r.p99 <= r.max
    ensures forall k :: 0 <= k < |s| ==> SummaryOf(s).min <= s[k] <= SummaryOf(s).max
  {
  }

  /** The sum of n samples within [lo, hi] lies within [n·lo, n·hi]. */
  lemma {:induction false} SumBounds(s: seq<int>, lo: int, hi: int)
    requires forall k :: 0 <= k < |s| ==> lo <= s[k] <= hi
    ensures |s| * lo <= Sum(s) <= |s| * hi
  {
    if s != [] {
      var init := s[..|s| - 1];
      assert forall k :: 0 <= k < |init| ==> init[k] == s[k];
      SumBounds(init, lo, hi);
      assert |s| * lo == |init| * lo + lo;
      assert |s| * hi == |init| * hi + hi;
    }
  }

  /** Multiplying by a positive count keeps a difference of at least one. */
  lemma MulByPositive(d: int, n: int)
    requires n > 0
    ensures d <= -1 ==> d * n <= -n
    ensures d >= 1 ==> d * n >= n
  {
  }

  /** A truncated quotient of a value within [n·lo, n·hi] lies within [lo, hi]. */
  lemma QuotientBounds(x: int, n: int, lo: int, hi: int)
    requires n > 0 && n * lo <= x <= n * hi
    ensures lo <= TruncDiv(x, n) <= hi
  {
    var q := TruncDiv(x, n);
    MulByPositive(q - lo, n);
    MulByPositive(q - hi, n);
    assert (q - lo) * n == q * n - lo * n;
    assert (q - hi) * n == q * n - hi * n;
  }

  /** The truncated average of a non-empty sorted snapshot lies between min and max. */
  lemma AverageWithinRange(s: seq<int>)
    requires |s| > 0 && Sorted(s)
    ensures SummaryOf(s).min <= SummaryOf(s).average <= SummaryOf(s).max
  {
    var n := |s|;
    SumBounds(s, s[0], s[n - 1]);
    QuotientBounds(Sum(s), n, s[0], s[n - 1]);
  }

  /** Every element of the sorted snapshot is one of the samples. */
  lemma SortedFromSamples(samples: seq<int>, j: nat)
    requires j < |Sort(samples)|
    ensures Sort(samples)[j] in multiset(samples)
  {
    SortCorrect(samples);
    assert Sort(samples)[j] in multiset(Sort(samples));
  }

  /**
   * A computed summary is ordered min ≤ median ≤ p90 ≤ p95 ≤ p99 ≤ max, its
   * average lies between min and max, and every sample lies between min and max.
   */
  lemma StatisticsOrdered(samples: seq<int>)
    requires samples != []
    ensures var r := Statistics(samples).value;
      && r.min <= r.median <= r.p90 <= r.p95 <= r.p99 <= r.max
      && r.min <= r.average <= r.max
      && forall k :: 0 <= k < |samples| ==> r.min <= samples[k] <= r.max
  {
    var s := Sort(samples);
    SortCorrect(samples);
    SortLength(samples);
    SummaryOrdered(s);
    AverageWithinRange(s);
    var r := SummaryOf(s);
    forall k | 0 <= k < |samples| ensures r.min <= samples[k] <= r.max {
      assert samples[k] in multiset(s);
      var j :| 0 <= j < |s| && s[j] == samples[k];
    }
  }

  /** Of a computed summary, min, max, median and the percentiles are samples. */
  lemma StatisticsDrawnFromSamples(samples: seq<int>)
    requires samples != []
    ensures var r := Statistics(samples).value;
      && r.min in multiset(samples) && r.max in multiset(samples)
      && r.median in multiset(samples) && r.p90 in multiset(samples)
      && r.p95 in multiset(samples) && r.p99 in multiset(samples)
  {
    SortLength(samples);
    var n := |samples|;
    SortedFromSamples(samples, 0);
    SortedFromSamples(samples, n - 1);
    SortedFromSamples(samples, MedianIndex(n));
    SortedFromSamples(samples, PercentileIndex(n, 90));
    SortedFromSamples(samples, PercentileIndex(n, 95));
    SortedFromSamples(samples, PercentileIndex(n, 99));
  }

  /** An odd sample count: [10, 20, 30, 40, 50] gives median 30, p90 50 and average 30. */
  lemma OddCountExample()
    ensures SummaryOf([10, 20, 30, 40, 50]) == Summary(10, 50, 30, 50, 50, 50, 30)
  {
    assert Sum([10, 20, 30, 40, 50]) == 150 by {
      assert [10, 20, 30, 40, 50][..4] == [10, 20, 30, 40];
      assert [10, 20, 30, 40][..3] == [10, 20, 30];
      assert [10, 20, 30][..2] == [10, 20];
      assert [10, 20][..1] == [10];
      assert [10][..0] == [];
    }
  }

  /**
   * An even sample count: the median of [10, 20, 30, 40] is 30, the upper of
   * the two middle values (the doc comment of calculateStats says the lower).
   */
  lemma EvenCountMedianIsUpperMiddle()
    ensures SummaryOf([10, 20, 30, 40]).median == 30
  {
  }

  /** A single sample: every index is 0, so every statistic is that sample. */
  lemma SingleSampleExample(x: int)
    ensures SummaryOf([x]) == Summary(x, x, x, x, x, x, x)
  {
    assert [x][..0] == [];
    assert Sum([x]) == x;
  }

  // ---------------------------------------------------------------------
  // The reducer itself
  // ---------------------------------------------------------------------

  /** Exchanges two elements of the array. */
  method Swap(a: array<int>, i: nat, j: nat)
    requires i < a.Length && j < a.Length
    modifies a
    ensures a[i] == old(a[j]) && a[j] == old(a[i])
    ensures forall k :: 0 <= k < a.Length && k != i && k != j ==> a[k] == old(a[k])
    ensures multiset(a[..]) == multiset(old(a[..]))
  {
    a[i], a[j] := a[j], a[i];
  }

  /** Sorts the samples ascending in place (sort.Slice with `<`). */
  method SortInPlace(a: array<int>)
    modifies a
    ensures Sorted(a[..])
    ensures multiset(a[..]) == multiset(old(a[..]))
  {
    var i := 0;
    while i < a.Length
      invariant 0 <= i <= a.Length
      invariant forall k, l :: 0 <= k < l < i ==> a[k] <= a[l]
      invariant multiset(a[..]) == multiset(old(a[..]))
    {
      var j := i;
      while j > 0 && a[j - 1] > a[j]
        invariant 0 <= j <= i
        invariant forall k, l :: 0 <= k < l <= i && k != j && l != j ==> a[k] <= a[l]
        invariant forall l :: j < l <= i ==> a[j] <= a[l]
        invariant multiset(a[..]) == multiset(old(a[..]))
      {
        Swap(a, j - 1, j);
        j := j - 1;
      }
      i := i + 1;
    }
  }

  /** Adds up the samples, in array order (the `for range` loop). */
  method Total(a: array<int>) returns (total: int)
    ensures total == Sum(a[..])
  {
    total := 0;
    for k := 0 to a.Length
      invariant total == Sum(a[..k])
    {
      assert a[..k + 1][..k] == a[..k];
      total := total + a[k];
    }
    assert a[..a.Length] == a[..];
  }

  /**
   * calculateStats: with no samples, returns nothing and leaves the array
   * alone; otherwise sorts the array in place and returns the summary of the
   * sorted samples.
   */
  method CalculateStats(a: array<int>) returns (r: Option<Summary>)
    modifies a
    ensures a.Length == 0 ==> a[..] == old(a[..])
    ensures a.Length > 0 ==> a[..] == Sort(old(a[..]))
    ensures r == Statistics(old(a[..]))
    ensures r.Some? ==> r.value == SummaryOf(a[..])
  {
    if a.Length == 0 {
      return None;
    }
    ghost var input := a[..];
    SortInPlace(a);
    SortIsUniqueSortedPermutation(input, a[..]);
    assert input != [];
    var n := a.Length;
    var min := a[0];
    var max := a[n - 1];
    var median := a[MedianIndex(n)];
    var p90 := a[PercentileIndex(n, 90)];
    var p95 := a[PercentileIndex(n, 95)];
    var p99 := a[PercentileIndex(n, 99)];
    var total := Total(a);
    var average := TruncDiv(total, n);
    r := Some(Summary(min, max, median, p90, p95, p99, average));
    assert r.value == SummaryOf(a[..]);
  }
}

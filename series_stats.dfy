/**
 * Value-level definitions shared by the two series classes (NumericVector and
 * NumericList): extrema, the sort and de-duplication the standard library
 * performs for them, the direction-change count, mean and spread, and the
 * flattening of several series into one. The element type is fixed to int;
 * statistics that the source computes in double are computed here in exact
 * real arithmetic.
 */
module SeriesStats {

  // ---------------------------------------------------------------------------
  // Sums and extrema
  // ---------------------------------------------------------------------------

  /** std::accumulate over the values, starting from zero. */
  function Sum(s: seq<int>): int
  {
    if s == [] then 0 else Sum(s[..|s| - 1]) + s[|s| - 1]
  }

  /** The value *max_element yields: attained, and no element exceeds it. */
  function MaxOf(s: seq<int>): (m: int)
    requires |s| > 0
    ensures m in s
    ensures forall k :: 0 <= k < |s| ==> s[k] <= m
  {
    if |s| == 1 then s[0]
    else
      var rest := MaxOf(s[..|s| - 1]);
      if s[|s| - 1] > rest then s[|s| - 1] else rest
  }

  /** The value *min_element yields: attained, and no element is below it. */
  function MinOf(s: seq<int>): (m: int)
    requires |s| > 0
    ensures m in s
    ensures forall k :: 0 <= k < |s| ==> m <= s[k]
  {
    if |s| == 1 then s[0]
    else
      var rest := MinOf(s[..|s| - 1]);
      if s[|s| - 1] < rest then s[|s| - 1] else rest
  }

  /** Two series holding the same values have the same extrema, however often each value repeats. */
  lemma SameValuesSameExtrema(a: seq<int>, b: seq<int>)
    requires |a| > 0 && |b| > 0
    requires forall v :: v in a <==> v in b
    ensures MaxOf(a) == MaxOf(b) && MinOf(a) == MinOf(b)
  {
    var i :| 0 <= i < |b| && b[i] == MaxOf(a);
    var j :| 0 <= j < |a| && a[j] == MaxOf(b);
    var k :| 0 <= k < |b| && b[k] == MinOf(a);
    var l :| 0 <= l < |a| && a[l] == MinOf(b);
  }

  // ---------------------------------------------------------------------------
  // Sorting (std::sort) and de-duplication (std::unique)
  // ---------------------------------------------------------------------------

  predicate IsSorted(s: seq<int>)
  {
    forall i, j :: 0 <= i < j < |s| ==> s[i] <= s[j]
  }

  predicate StrictlyIncreasing(s: seq<int>)
  {
    forall i, j :: 0 <= i < j < |s| ==> s[i] < s[j]
  }

  /** The set of distinct values of a series. */
  function Distinct(s: seq<int>): set<int>
  {
    set v | v in s
  }

  /** Putting x in front of a sorted t keeps it sorted when x is at most every value of t. */
  lemma ConsSorted(x: int, t: seq<int>)
    requires IsSorted(t)
    requires forall y :: y in multiset(t) ==> x <= y
    ensures IsSorted([x] + t)
  {
    forall k | 0 <= k < |t|
      ensures x <= t[k]
    {
      assert t[k] in multiset(t);
    }
  }

  /** The head of a sorted sequence is at most every one of its values. */
  lemma SortedHeadBound(s: seq<int>)
    requires IsSorted(s) && |s| > 0
    ensures forall y :: y in multiset(s) ==> s[0] <= y
  {
    forall y | y in multiset(s)
      ensures s[0] <= y
    {
      var k :| 0 <= k < |s| && s[k] == y;
    }
  }

  /** Inserts v into a sorted sequence, keeping it sorted. */
  function Insert(v: int, s: seq<int>): (r: seq<int>)
    requires IsSorted(s)
    ensures IsSorted(r)
    ensures multiset(r) == multiset(s) + multiset{v}
  {
    if s == [] then [v]
    else
      assert s == [s[0]] + s[1..];
      SortedHeadBound(s);
      if v <= s[0] then
        ConsSorted(v, s);
        [v] + s
      else
        var tail := Insert(v, s[1..]);
        ConsSorted(s[0], tail);
        [s[0]] + tail
  }

  /** An ascending copy of the values: what std::sort leaves in the copy. */
  function SortAscending(s: seq<int>): (r: seq<int>)
    ensures IsSorted(r)
    ensures multiset(r) == multiset(s)
  {
    if s == [] then []
    else
      assert s == s[..|s| - 1] + [s[|s| - 1]];
      Insert(s[|s| - 1], SortAscending(s[..|s| - 1]))
  }

  predicate NoAdjacentDuplicates(s: seq<int>)
  {
    forall i :: 0 < i < |s| ==> s[i - 1] != s[i]
  }

  /** r can be obtained from s by deleting elements. */
  predicate IsSubsequence(r: seq<int>, s: seq<int>)
  {
    if r == [] then true
    else if s == [] then false
    else (r[0] == s[0] && IsSubsequence(r[1..], s[1..])) || IsSubsequence(r, s[1..])
  }

  /**
   * What std::unique followed by erase leaves: every run of equal neighbours
   * collapsed to one element. It does not sort, so equal values that are not
   * neighbours all stay.
   */
  function Unique(s: seq<int>): (r: seq<int>)
    ensures |r| <= |s|
    ensures |s| > 0 ==> |r| > 0 && r[0] == s[0]
    ensures NoAdjacentDuplicates(r)
    ensures IsSubsequence(r, s)
    ensures forall v :: v in r <==> v in s
  {
    if |s| <= 1 then s
    else
      var rest := Unique(s[1..]);
      assert s == [s[0]] + s[1..];
      if s[0] == s[1] then rest else [s[0]] + rest
  }

  /** Collapsing runs of a sorted sequence leaves it strictly increasing. */
  lemma {:induction false} UniqueOfSortedIsStrictlyIncreasing(s: seq<int>)
    requires IsSorted(s)
    ensures StrictlyIncreasing(Unique(s))
  {
    if |s| > 1 {
      UniqueOfSortedIsStrictlyIncreasing(s[1..]);
      var rest := Unique(s[1..]);
      if s[0] != s[1] {
        forall k | 0 <= k < |rest|
          ensures s[0] < rest[k]
        {
          assert rest[k] in s[1..];
          var j :| 1 <= j < |s| && s[j] == rest[k];
          assert s[0] < s[1] <= s[j];
        }
      }
    }
  }

  /** A strictly increasing sequence holds each of its values once. */
  lemma {:induction false} StrictlyIncreasingCountsDistinct(s: seq<int>)
    requires StrictlyIncreasing(s)
    ensures |Distinct(s)| == |s|
  {
    if s != [] {
      StrictlyIncreasingCountsDistinct(s[1..]);
      assert s == [s[0]] + s[1..];
      assert Distinct(s) == {s[0]} + Distinct(s[1..]);
      assert s[0] !in Distinct(s[1..]);
    }
  }

  /**
   * The de-duplicated sorted copy (NumericVector's unique values) is strictly
   * increasing, holds exactly the values of s, and has one entry per distinct
   * value.
   */
  lemma SortedUniqueIsDistinctValues(s: seq<int>)
    ensures StrictlyIncreasing(Unique(SortAscending(s)))
    ensures forall v :: v in Unique(SortAscending(s)) <==> v in s
    ensures |Unique(SortAscending(s))| == |Distinct(s)| <= |s|
  {
    var u := Unique(SortAscending(s));
    UniqueOfSortedIsStrictlyIncreasing(SortAscending(s));
    StrictlyIncreasingCountsDistinct(u);
    assert forall v :: v in SortAscending(s) <==> v in multiset(s);
    assert Distinct(u) == Distinct(s);
    assert |SortAscending(s)| == |multiset(s)| == |s|;
  }

  /** A strictly increasing sequence is determined by the values it holds. */
  lemma {:induction false} StrictlyIncreasingByValues(a: seq<int>, b: seq<int>)
    requires StrictlyIncreasing(a) && StrictlyIncreasing(b)
    requires forall v :: v in a <==> v in b
    ensures a == b
  {
    StrictlyIncreasingCountsDistinct(a);
    StrictlyIncreasingCountsDistinct(b);
    assert Distinct(a) == Distinct(b);
    if a != [] {
      assert a[0] in a && b[0] in b;
      var i :| 0 <= i < |b| && b[i] == a[0];
      var j :| 0 <= j < |a| && a[j] == b[0];
      assert a[0] == b[0];
      forall v
        ensures v in a[1..] <==> v in b[1..]
      {
        if v in a[1..] {
          var k :| 1 <= k < |a| && a[k] == v;
          assert v in a;
          var l :| 0 <= l < |b| && b[l] == v;
          assert l != 0;
        }
        if v in b[1..] {
          var k :| 1 <= k < |b| && b[k] == v;
          assert v in b;
          var l :| 0 <= l < |a| && a[l] == v;
          assert l != 0;
        }
      }
      StrictlyIncreasingByValues(a[1..], b[1..]);
      assert a == [a[0]] + a[1..] && b == [b[0]] + b[1..];
    }
  }

  /**
   * Sorting then de-duplicating yields the one strictly increasing sequence
   * holding exactly the values of s.
   */
  lemma SortedUniqueIsCanonical(s: seq<int>, u: seq<int>)
    requires StrictlyIncreasing(u)
    requires forall v :: v in u <==> v in s
    ensures Unique(SortAscending(s)) == u
  {
    SortedUniqueIsDistinctValues(s);
    StrictlyIncreasingByValues(Unique(SortAscending(s)), u);
  }

  /** Sorting before de-duplicating: [1,2,3,4,3,5,1] yields [1,2,3,4,5]. */
  lemma SortedUniqueExample()
    ensures Unique(SortAscending([1, 2, 3, 4, 3, 5, 1])) == [1, 2, 3, 4, 5]
  {
    var s, u := [1, 2, 3, 4, 3, 5, 1], [1, 2, 3, 4, 5];
    forall v
      ensures v in u <==> v in s
    {
    }
    SortedUniqueIsCanonical(s, u);
  }

  /**
   * A series with no two equal neighbours is left as it is, so collapsing
   * runs twice is the same as collapsing them once.
   */
  lemma {:induction false} UniqueOfDistinctNeighbours(s: seq<int>)
    requires NoAdjacentDuplicates(s)
    ensures Unique(s) == s
  {
    if |s| > 1 {
      assert NoAdjacentDuplicates(s[1..]) by {
        forall k | 0 <= k < |s[1..]| - 1
          ensures s[1..][k] != s[1..][k + 1]
        {
          assert s[1..][k] == s[k + 1] && s[1..][k + 1] == s[k + 2];
        }
      }
      UniqueOfDistinctNeighbours(s[1..]);
      assert s[0] != s[1];
    }
  }

  lemma UniqueIsIdempotent(s: seq<int>)
    ensures Unique(Unique(s)) == Unique(s)
  {
    UniqueOfDistinctNeighbours(Unique(s));
  }

  /** Without sorting only neighbours collapse: [1,2,3,4,3,5,1] stays seven long. */
  lemma AdjacentUniqueExample()
    ensures Unique([1, 2, 3, 4, 3, 5, 1]) == [1, 2, 3, 4, 3, 5, 1]
  {
    var s := [1, 2, 3, 4, 3, 5, 1];
    assert NoAdjacentDuplicates(s);
    UniqueOfDistinctNeighbours(s);
  }

  /**
   * The heads of the runs of s: each s[i] with i == 0 or s[i - 1] != s[i], in
   * order. This is what std::unique promises to keep, stated index by index
   * rather than by the way Unique walks the sequence.
   */
  function RunHeads(s: seq<int>): seq<int>
  {
    if s == [] then []
    else
      var n := |s| - 1;
      RunHeads(s[..n]) + (if n == 0 || s[n - 1] != s[n] then [s[n]] else [])
  }

  /** Read from the front, a run's head is kept and the rest of its run is not. */
  lemma {:induction false} RunHeadsFront(s: seq<int>)
    requires |s| >= 2
    ensures RunHeads(s) == if s[0] == s[1] then RunHeads(s[1..]) else [s[0]] + RunHeads(s[1..])
  {
    var n := |s| - 1;
    var t := s[..n];
    var tail := if s[n - 1] != s[n] then [s[n]] else [];
    assert RunHeads(s) == RunHeads(t) + tail;
    var u := s[1..];
    if n == 1 {
      assert RunHeads(t) == [s[0]] by { assert t[..0] == []; }
      assert RunHeads(u) == [s[1]] by { assert u[..0] == []; }
    } else {
      assert u[..|u| - 1] == s[1..n];
      assert RunHeads(u) == RunHeads(s[1..n]) + tail;
      RunHeadsFront(t);
      assert t[1..] == s[1..n];
    }
  }

  /** Unique keeps exactly the run heads: only runs of equal neighbours are removed. */
  lemma {:induction false} UniqueIsRunHeads(s: seq<int>)
    ensures Unique(s) == RunHeads(s)
  {
    if |s| == 1 {
      assert s[..0] == [];
    } else if |s| >= 2 {
      UniqueIsRunHeads(s[1..]);
      RunHeadsFront(s);
    }
  }

  /** A value that recurs after another keeps both of its runs: [1,1,2,1] becomes [1,2,1]. */
  lemma UniqueKeepsLaterRuns()
    ensures Unique([1, 1, 2, 1]) == [1, 2, 1]
  {
    var s := [1, 1, 2, 1];
    assert s[1..] == [1, 2, 1] && s[1..][1..] == [2, 1] && s[1..][1..][1..] == [1];
  }

  // ---------------------------------------------------------------------------
  // Direction changes ("inflections")
  // ---------------------------------------------------------------------------

  /** std::adjacent_difference: the first entry is copied, the others are differences. */
  function AdjacentDifference(t: seq<int>): seq<int>
  {
    seq(|t|, k requires 0 <= k < |t| => if k == 0 then t[0] else t[k] - t[k - 1])
  }

  /** Number of positions i in [1, n) where d[i] and d[i-1] disagree on being negative. */
  function SignChanges(d: seq<int>, n: nat): nat
    requires n <= |d|
  {
    if n <= 1 then 0
    else SignChanges(d, n - 1) + (if (d[n - 1] < 0) != (d[n - 2] < 0) then 1 else 0)
  }

  /**
   * The inflection count as the source computes it: adjacent_difference over
   * y[1..] (so its first entry is y[1] itself, not a difference), then the sign
   * changes within that sequence.
   */
  function InflectionCount(y: seq<int>): nat
  {
    if |y| <= 1 then 0
    else
      var d := AdjacentDifference(y[1..]);
      SignChanges(d, |d|)
  }

  lemma {:induction false} SignChangesBound(d: seq<int>, n: nat)
    requires 1 <= n <= |d|
    ensures SignChanges(d, n) <= n - 1
  {
    if n > 1 {
      SignChangesBound(d, n - 1);
    }
  }

  /** At most one direction change per interior point: at most max(0, |y| - 2). */
  lemma InflectionCountBound(y: seq<int>)
    ensures InflectionCount(y) <= if |y| >= 2 then |y| - 2 else 0
  {
    if |y| >= 2 {
      SignChangesBound(AdjacentDifference(y[1..]), |y| - 1);
    }
  }

  /** The series [1,2,3,4,3,5,1] changes direction three times. */
  lemma InflectionCountExample()
    ensures InflectionCount([1, 2, 3, 4, 3, 5, 1]) == 3
  {
    var y := [1, 2, 3, 4, 3, 5, 1];
    assert y[1..] == [2, 3, 4, 3, 5, 1];
    var d := AdjacentDifference(y[1..]);
    assert d == [2, 1, 1, -1, 2, -4];
    assert SignChanges(d, 2) == 0;
    assert SignChanges(d, 3) == 0;
    assert SignChanges(d, 4) == 1;
    assert SignChanges(d, 5) == 2;
    assert SignChanges(d, 6) == 3;
  }

  /**
   * The counting loop of getInflectionCount (shared by both series classes):
   * difference y[1..], then walk the differences from the second one on.
   */
  method CountInflections(y: seq<int>) returns (count: nat)
    requires |y| > 0
    ensures count == InflectionCount(y)
  {
    count := 0;
    var d := AdjacentDifference(y[1..]);
    var i := 1;
    while i < |d|
      invariant 1 <= i && (|d| == 0 || i <= |d|)
      invariant |d| > 0 ==> count == SignChanges(d, i)
      invariant |d| == 0 ==> count == 0
    {
      if (d[i] < 0) != (d[i - 1] < 0) {
        count := count + 1;
      }
      i := i + 1;
    }
  }

  // ---------------------------------------------------------------------------
  // Mean and spread
  // ---------------------------------------------------------------------------

  lemma {:induction false} SumBetweenExtremes(s: seq<int>, lo: int, hi: int)
    requires forall k :: 0 <= k < |s| ==> lo <= s[k] <= hi
    ensures |s| * lo <= Sum(s) <= |s| * hi
  {
    if s != [] {
      var n := |s| - 1;
      SumBetweenExtremes(s[..n], lo, hi);
      assert |s| * lo == n * lo + lo && |s| * hi == n * hi + hi;
    }
  }

  lemma QuotientBetween(a: real, n: real, lo: real, hi: real)
    requires n > 0.0 && n * lo <= a <= n * hi
    ensures lo <= a / n <= hi
    ensures (a / n) * n == a
  {
    assert a / n - lo == (a - n * lo) / n;
    assert hi - a / n == (n * hi - a) / n;
  }

  lemma QuotientTimesDivisor(a: real, n: real)
    requires n != 0.0
    ensures (a / n) * n == a
  {
  }

  lemma IntProductAsReal(n: int, v: int)
    ensures (n as real) * (v as real) == (n * v) as real
  {
  }

  lemma IntQuotientBetween(total: int, n: int, lo: int, hi: int)
    requires n > 0 && n * lo <= total <= n * hi
    ensures lo as real <= total as real / n as real <= hi as real
    ensures (total as real / n as real) * (n as real) == total as real
  {
    var nlo, nhi := n * lo, n * hi;
    IntProductAsReal(n, lo);
    IntProductAsReal(n, hi);
    assert nlo as real <= total as real <= nhi as real;
    QuotientBetween(total as real, n as real, lo as real, hi as real);
  }

  /** calcMean: -999.0 (the source's sentinel) for an empty set, otherwise the sum over the count. */
  function Mean(s: seq<int>): real
  {
    if |s| == 0 then -999.0 else Sum(s) as real / |s| as real
  }

  /** The mean of a non-empty series lies between its extremes. */
  lemma MeanBounds(s: seq<int>)
    requires |s| > 0
    ensures MinOf(s) as real <= Mean(s) <= MaxOf(s) as real
  {
    var lo, hi := MinOf(s), MaxOf(s);
    SumBetweenExtremes(s, lo, hi);
    IntQuotientBetween(Sum(s), |s|, lo, hi);
  }

  /** The mean of a non-empty series times its length is its sum. */
  lemma MeanTimesCount(s: seq<int>)
    requires |s| > 0
    ensures Mean(s) * (|s| as real) == Sum(s) as real
  {
    QuotientTimesDivisor(Sum(s) as real, |s| as real);
  }

  /** Sum of (s[k] - m)^2, accumulated front to back as calcSD's loop does. */
  function SquaredDeviations(s: seq<int>, m: real): real
  {
    if s == [] then 0.0
    else
      var e := s[|s| - 1] as real - m;
      SquaredDeviations(s[..|s| - 1], m) + e * e
  }

  /** The all-values "SD" of the source: a population variance, with no square root taken. */
  function Variance(s: seq<int>): real
  {
    if |s| == 0 then -999.0 else SquaredDeviations(s, Mean(s)) / |s| as real
  }

  lemma {:induction false} SquaredDeviationsNonNegative(s: seq<int>, m: real)
    ensures SquaredDeviations(s, m) >= 0.0
  {
    if s != [] {
      SquaredDeviationsNonNegative(s[..|s| - 1], m);
    }
  }

  lemma SquaredDeviationsStep(s: seq<int>, i: nat, m: real)
    requires i < |s|
    ensures SquaredDeviations(s[..i + 1], m)
         == SquaredDeviations(s[..i], m) + (s[i] as real - m) * (s[i] as real - m)
  {
    assert s[..i + 1][..i] == s[..i];
  }

  /** The variance of a non-empty series is never negative. */
  lemma VarianceNonNegative(s: seq<int>)
    requires |s| > 0
    ensures Variance(s) >= 0.0
  {
    SquaredDeviationsNonNegative(s, Mean(s));
  }

  /**
   * The loop of calcSD(true), shared by both series classes: the mean first,
   * then the squared deviations accumulated one by one, then the division.
   */
  method PopulationVariance(s: seq<int>) returns (v: real)
    ensures v == Variance(s)
    ensures |s| > 0 ==> v >= 0.0
  {
    if |s| == 0 {
      return -999.0;
    }
    var mean := Mean(s);
    var squareSum := 0.0;
    var i := 0;
    while i < |s|
      invariant 0 <= i <= |s|
      invariant squareSum == SquaredDeviations(s[..i], mean)
    {
      SquaredDeviationsStep(s, i, mean);
      squareSum := squareSum + (s[i] as real - mean) * (s[i] as real - mean);
      i := i + 1;
    }
    assert s[..i] == s;
    v := squareSum / |s| as real;
    VarianceNonNegative(s);
  }

  /** std::inner_product of the values with themselves. */
  function SumOfSquares(s: seq<int>): real
  {
    if s == [] then 0.0 else SumOfSquares(s[..|s| - 1]) + (s[|s| - 1] as real) * (s[|s| - 1] as real)
  }

  /**
   * The quantity calcSD(false) takes the square root of: mean of squares minus
   * the squared mean.
   */
  function UnrootedSpread(u: seq<int>): real
  {
    if |u| == 0 then -999.0 else MeanOfSquaresLessSquaredMean(SumOfSquares(u), |u| as real, Mean(u))
  }

  function MeanOfSquaresLessSquaredMean(squares: real, n: real, m: real): real
    requires n > 0.0
  {
    squares / n - m * m
  }

  /**
   * One step of the expansion (e - m)^2 = e^2 - 2me + m^2, on plain reals: if
   * the identity holds before e is added, it holds after.
   */
  lemma ExpandStep(dev: real, squares: real, total: real, n: real, e: real, m: real,
                   dev': real, squares': real, total': real, n': real)
    requires dev == squares - 2.0 * m * total + n * m * m
    requires dev' == dev + (e - m) * (e - m) && squares' == squares + e * e
    requires total' == total + e && n' == n + 1.0
    ensures dev' == squares' - 2.0 * m * total' + n' * m * m
  {
  }

  lemma {:induction false} ExpandSquaredDeviations(s: seq<int>, m: real)
    ensures SquaredDeviations(s, m)
         == SumOfSquares(s) - 2.0 * m * (Sum(s) as real) + (|s| as real) * m * m
  {
    if s != [] {
      var init := s[..|s| - 1];
      ExpandSquaredDeviations(init, m);
      ExpandStep(SquaredDeviations(init, m), SumOfSquares(init), Sum(init) as real, |init| as real,
                 s[|s| - 1] as real, m,
                 SquaredDeviations(s, m), SumOfSquares(s), Sum(s) as real, |s| as real);
    }
  }

  /** Dividing squares - n*m*m by n gives the mean of squares less the squared mean. */
  lemma DivideDifference(dev: real, squares: real, n: real, m: real)
    requires n > 0.0 && dev == squares - n * m * m
    ensures dev / n == MeanOfSquaresLessSquaredMean(squares, n, m)
  {
    assert (n * m * m) / n == m * m;
  }

  /** Around any m with m * |u| == Sum(u), the squared deviations are the sum of squares less |u| * m^2. */
  lemma {:induction false} DeviationsAround(u: seq<int>, m: real)
    requires m * (|u| as real) == Sum(u) as real
    ensures SquaredDeviations(u, m) == SumOfSquares(u) - (|u| as real) * m * m
  {
    ExpandSquaredDeviations(u, m);
    var n, total := |u| as real, Sum(u) as real;
    assert 2.0 * m * total == 2.0 * n * m * m;
  }

  /**
   * The two spread formulas agree in exact arithmetic: mean of squares minus
   * squared mean is the population variance, so the square root calcSD(false)
   * takes is of a non-negative number.
   */
  lemma UnrootedSpreadIsVariance(u: seq<int>)
    requires |u| > 0
    ensures UnrootedSpread(u) == Variance(u)
    ensures UnrootedSpread(u) >= 0.0
  {
    var m := Mean(u);
    MeanTimesCount(u);
    DeviationsAround(u, m);
    DivideDifference(SquaredDeviations(u, m), SumOfSquares(u), |u| as real, m);
    VarianceNonNegative(u);
  }

  /** The series [1,2,3,4,3,5,1] has mean 19/7 and population variance 94/49. */
  lemma MeanAndVarianceExample()
    ensures Mean([1, 2, 3, 4, 3, 5, 1]) == 19.0 / 7.0
    ensures Variance([1, 2, 3, 4, 3, 5, 1]) == 94.0 / 49.0
  {
    var s := [1, 2, 3, 4, 3, 5, 1];
    assert s[..6] == [1, 2, 3, 4, 3, 5] && s[..6][..5] == [1, 2, 3, 4, 3];
    assert s[..6][..5][..4] == [1, 2, 3, 4] && [1, 2, 3, 4][..3] == [1, 2, 3];
    assert [1, 2, 3][..2] == [1, 2] && [1, 2][..1] == [1] && [1][..0] == [];
    assert Sum([1, 2, 3, 4]) == 10;
    assert Sum(s) == 19;
    assert SumOfSquares([1, 2, 3, 4]) == 30.0;
    assert SumOfSquares(s) == 65.0;
    UnrootedSpreadIsVariance(s);
  }

  // ---------------------------------------------------------------------------
  // Flattening several series into one
  // ---------------------------------------------------------------------------

  /** The in-order concatenation of every sequence in ss. */
  function Flatten(ss: seq<seq<int>>): seq<int>
  {
    if ss == [] then [] else Flatten(ss[..|ss| - 1]) + ss[|ss| - 1]
  }

  function TotalLength(ss: seq<seq<int>>): nat
  {
    if ss == [] then 0 else TotalLength(ss[..|ss| - 1]) + |ss[|ss| - 1]|
  }

  /** Flattening keeps every element: its length is the sum of the lengths. */
  lemma {:induction false} FlattenLength(ss: seq<seq<int>>)
    ensures |Flatten(ss)| == TotalLength(ss)
  {
    if ss != [] {
      FlattenLength(ss[..|ss| - 1]);
    }
  }

  /** A value occurs in the flattening exactly when it occurs in one of the parts. */
  lemma {:induction false} FlattenMembership(ss: seq<seq<int>>, v: int)
    ensures v in Flatten(ss) <==> exists i :: 0 <= i < |ss| && v in ss[i]
  {
    if ss != [] {
      var init := ss[..|ss| - 1];
      FlattenMembership(init, v);
      if v in Flatten(ss) && v !in ss[|ss| - 1] {
        var i :| 0 <= i < |init| && v in init[i];
        assert ss[i] == init[i];
      }
      if exists i :: 0 <= i < |ss| && v in ss[i] {
        var i :| 0 <= i < |ss| && v in ss[i];
        if i < |init| {
          assert v in init[i];
        }
      }
    }
  }

  /** MaxOf is the only attained value that bounds the series. */
  lemma MaxOfIsTheBound(s: seq<int>, m: int)
    requires m in s && forall k :: 0 <= k < |s| ==> s[k] <= m
    ensures MaxOf(s) == m
  {
    var k :| 0 <= k < |s| && s[k] == MaxOf(s);
  }

  /** MinOf is the only attained value that bounds the series from below. */
  lemma MinOfIsTheBound(s: seq<int>, m: int)
    requires m in s && forall k :: 0 <= k < |s| ==> m <= s[k]
    ensures MinOf(s) == m
  {
    var k :| 0 <= k < |s| && s[k] == MinOf(s);
  }

  lemma ExtremaOfAppend(a: seq<int>, b: seq<int>)
    requires |a| > 0 && |b| > 0
    ensures MaxOf(a + b) == if MaxOf(a) >= MaxOf(b) then MaxOf(a) else MaxOf(b)
    ensures MinOf(a + b) == if MinOf(a) <= MinOf(b) then MinOf(a) else MinOf(b)
  {
    var hi := if MaxOf(a) >= MaxOf(b) then MaxOf(a) else MaxOf(b);
    var lo := if MinOf(a) <= MinOf(b) then MinOf(a) else MinOf(b);
    forall k | 0 <= k < |a + b|
      ensures lo <= (a + b)[k] <= hi
    {
      if k < |a| { assert (a + b)[k] == a[k]; } else { assert (a + b)[k] == b[k - |a|]; }
    }
    MaxOfIsTheBound(a + b, hi);
    MinOfIsTheBound(a + b, lo);
  }

  predicate AllNonEmpty(ss: seq<seq<int>>)
  {
    forall i :: 0 <= i < |ss| ==> |ss[i]| > 0
  }

  /** The maximum of each part, in order. */
  function Maxima(ss: seq<seq<int>>): seq<int>
    requires AllNonEmpty(ss)
  {
    seq(|ss|, i requires 0 <= i < |ss| && AllNonEmpty(ss) => MaxOf(ss[i]))
  }

  /** The minimum of each part, in order. */
  function Minima(ss: seq<seq<int>>): seq<int>
    requires AllNonEmpty(ss)
  {
    seq(|ss|, i requires 0 <= i < |ss| && AllNonEmpty(ss) => MinOf(ss[i]))
  }

  /**
   * The extremes of a flattening are the extremes of the parts' extremes: a
   * running max/min over the parts and one over all their values agree.
   */
  lemma {:induction false} ExtremaOfFlatten(ss: seq<seq<int>>)
    requires |ss| > 0 && AllNonEmpty(ss)
    ensures |Flatten(ss)| > 0
    ensures MaxOf(Flatten(ss)) == MaxOf(Maxima(ss))
    ensures MinOf(Flatten(ss)) == MinOf(Minima(ss))
  {
    var init, last := ss[..|ss| - 1], ss[|ss| - 1];
    assert Maxima(ss)[..|ss| - 1] == Maxima(init);
    assert Minima(ss)[..|ss| - 1] == Minima(init);
    if init == [] {
      assert Flatten(ss) == last;
    } else {
      ExtremaOfFlatten(init);
      ExtremaOfAppend(Flatten(init), last);
    }
  }

  /** Sums add up over a flattening. */
  lemma {:induction false} SumAppend(a: seq<int>, b: seq<int>)
    ensures Sum(a + b) == Sum(a) + Sum(b)
  {
    if b != [] {
      SumAppend(a, b[..|b| - 1]);
      assert (a + b)[..|a + b| - 1] == a + b[..|b| - 1];
    } else {
      assert a + b == a;
    }
  }
}

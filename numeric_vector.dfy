/**
 * NumericVector: a read-only (y, x) series whose extrema and length are taken
 * when it is built, and whose sorted copy, de-duplicated copy and
 * direction-change count are computed on request and kept in cache fields.
 * The de-duplicated copy is taken from the sorted copy, so it holds each
 * distinct value once, in increasing order.
 */
module NumericVectors {
  import opened SeriesStats

  class NumericVector {
    const y: seq<int>
    const x: seq<int>
    const maxY: int
    const minY: int
    const maxX: int
    const minX: int
    const length: nat

    // Cache fields. The two "computed" flags for the sorted and unique copies
    // are never set by any operation, so those copies are rebuilt on every
    // request; only the direction-change count is really memoised.
    var sortedNumbers: seq<int>
    var uniqueNumbers: seq<int>
    var inflectionCount: nat
    var sortedComputed: bool
    var uniqueComputed: bool
    var inflectionComputed: bool

    /** What the constructor establishes about the values it was given. */
    predicate WellFormed()
    {
      && |y| > 0 && |x| > 0
      && length == |y|
      && maxY == MaxOf(y) && minY == MinOf(y)
      && maxX == MaxOf(x) && minX == MinOf(x)
    }

    /** Every cache field is either still empty or holds what it stands for. */
    ghost predicate Valid()
      reads this
    {
      && WellFormed()
      && !sortedComputed && !uniqueComputed
      && (sortedNumbers == [] || sortedNumbers == SortAscending(y))
      && (uniqueNumbers == [] || uniqueNumbers == Unique(SortAscending(y)))
      && (inflectionComputed ==> inflectionCount == InflectionCount(y))
    }

    /**
     * The extrema are attained values that bound every element (so the
     * series must not be empty), and length is the number of y values.
     */
    constructor (newY: seq<int>, newX: seq<int>)
      requires |newY| > 0 && |newX| > 0
      ensures y == newY && x == newX && length == |newY|
      ensures maxY in y && forall k :: 0 <= k < |y| ==> y[k] <= maxY
      ensures minY in y && forall k :: 0 <= k < |y| ==> minY <= y[k]
      ensures maxX in x && forall k :: 0 <= k < |x| ==> x[k] <= maxX
      ensures minX in x && forall k :: 0 <= k < |x| ==> minX <= x[k]
      ensures sortedNumbers == [] && uniqueNumbers == [] && !inflectionComputed
      ensures Valid()
    {
      y, x := newY, newX;
      maxY, minY := MaxOf(newY), MinOf(newY);
      maxX, minX := MaxOf(newX), MinOf(newX);
      length := |newY|;
      sortedNumbers, uniqueNumbers := [], [];
      inflectionCount := 0;
      sortedComputed, uniqueComputed, inflectionComputed := false, false, false;
    }

    /** Copies y into the sorted cache and sorts it. */
    method ComputeSorted()
      requires Valid()
      modifies this`sortedNumbers
      ensures Valid()
      ensures sortedNumbers == SortAscending(y)
      ensures IsSorted(sortedNumbers) && multiset(sortedNumbers) == multiset(y)
    {
      sortedNumbers := SortAscending(y);
    }

    /** A non-decreasing permutation of y; y itself is left as it was. */
    method GetSortedValues() returns (sorted: seq<int>)
      requires Valid()
      modifies this`sortedNumbers
      ensures Valid()
      ensures IsSorted(sorted) && multiset(sorted) == multiset(y)
      ensures sorted == sortedNumbers == SortAscending(y)
    {
      if !sortedComputed {
        ComputeSorted();
      }
      sorted := sortedNumbers;
    }

    /** Refreshes the sorted copy, then collapses its runs of equal values. */
    method ComputeUnique()
      requires Valid()
      modifies this`sortedNumbers, this`uniqueNumbers
      ensures Valid()
      ensures sortedNumbers == SortAscending(y)
      ensures uniqueNumbers == Unique(SortAscending(y))
    {
      if !sortedComputed {
        ComputeSorted();
      }
      uniqueNumbers := Unique(sortedNumbers);
    }

    /**
     * Each distinct value of y once, in strictly increasing order, and no
     * other value.
     */
    method GetUniqueValues() returns (unique: seq<int>)
      requires Valid()
      modifies this`sortedNumbers, this`uniqueNumbers
      ensures Valid()
      ensures unique == uniqueNumbers == Unique(SortAscending(y))
      ensures StrictlyIncreasing(unique)
      ensures forall v :: v in unique <==> v in y
    {
      if !uniqueComputed {
        ComputeUnique();
      }
      unique := uniqueNumbers;
      SortedUniqueIsDistinctValues(y);
    }

    /** The number of distinct values of y, which is at most length. */
    method GetUniqueCount() returns (count: nat)
      requires Valid()
      modifies this`sortedNumbers, this`uniqueNumbers
      ensures Valid()
      ensures uniqueNumbers == Unique(SortAscending(y))
      ensures count == |uniqueNumbers| == |Distinct(y)| <= length
    {
      if !uniqueComputed {
        ComputeUnique();
      }
      count := |uniqueNumbers|;
      SortedUniqueIsDistinctValues(y);
    }

    /**
     * The mean over the distinct values, each weighted once; it lies between
     * the extrema of y.
     */
    method GetMeanUnique() returns (m: real)
      requires Valid()
      modifies this`sortedNumbers, this`uniqueNumbers
      ensures Valid()
      ensures uniqueNumbers == Unique(SortAscending(y))
      ensures m == Mean(uniqueNumbers)
      ensures minY as real <= m <= maxY as real
    {
      if !uniqueComputed {
        ComputeUnique();
      }
      m := Mean(uniqueNumbers);
      SortedUniqueIsDistinctValues(y);
      SameValuesSameExtrema(uniqueNumbers, y);
      MeanBounds(uniqueNumbers);
    }

    /**
     * The spread over the distinct values, each weighted once: the mean of
     * their squares less their squared mean, which is their population
     * variance and so never negative. The source returns its square root.
     */
    method GetSDUnique() returns (squared: real)
      requires Valid()
      modifies this`sortedNumbers, this`uniqueNumbers
      ensures Valid()
      ensures uniqueNumbers == Unique(SortAscending(y))
      ensures squared == UnrootedSpread(uniqueNumbers) == Variance(uniqueNumbers)
      ensures squared >= 0.0
    {
      if !uniqueComputed {
        ComputeUnique();
      }
      squared := UnrootedSpread(uniqueNumbers);
      UnrootedSpreadIsVariance(uniqueNumbers);
    }

    /**
     * The direction-change count of y; computed on the first call and
     * returned from the cache afterwards.
     */
    method GetInflectionCount() returns (count: nat)
      requires Valid()
      modifies this`inflectionCount, this`inflectionComputed
      ensures Valid() && inflectionComputed
      ensures count == inflectionCount == InflectionCount(y)
      ensures count <= if length >= 2 then length - 2 else 0
      ensures old(inflectionComputed) ==> count == old(inflectionCount)
    {
      if !inflectionComputed {
        inflectionCount := CountInflections(y);
        inflectionComputed := true;
      }
      count := inflectionCount;
      InflectionCountBound(y);
    }

    /** The mean of all values (never the empty-series sentinel here). */
    method GetMean() returns (m: real)
      requires WellFormed()
      ensures m == Mean(y)
      ensures minY as real <= m <= maxY as real
    {
      m := Mean(y);
      MeanBounds(y);
    }

    /** The "SD" over all values: the population variance, never negative. */
    method GetSD() returns (v: real)
      requires WellFormed()
      ensures v == Variance(y)
      ensures v >= 0.0
    {
      v := PopulationVariance(y);
    }

    /**
     * The nine-entry summary: length, min y, max y, min x, max x, direction
     * changes, distinct values, mean and variance, in that order.
     */
    method GetAllData() returns (result: seq<real>)
      requires Valid()
      modifies this`sortedNumbers, this`uniqueNumbers, this`inflectionCount, this`inflectionComputed
      ensures Valid()
      ensures result == [|y| as real, MinOf(y) as real, MaxOf(y) as real, MinOf(x) as real, MaxOf(x) as real,
                         InflectionCount(y) as real, |Distinct(y)| as real, Mean(y), Variance(y)]
    {
      var inflections := GetInflectionCount();
      var unique := GetUniqueCount();
      var mean := GetMean();
      var sd := GetSD();
      result := [|y| as real, MinOf(y) as real, MaxOf(y) as real, MinOf(x) as real, MaxOf(x) as real,
                 inflections as real, unique as real, mean, sd];
    }
  }
}

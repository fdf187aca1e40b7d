/**
 * NumericList: the list-named variant of the series container. It differs
 * from NumericVector in its de-duplication, which collapses only runs of
 * equal neighbours and does not sort, so a value that recurs later in the
 * series is kept again.
 */
module NumericLists {
  import opened SeriesStats

  class NumericList {
    const y: seq<int>
    const x: seq<int>
    const maxVal: int
    const minVal: int
    const maxX: int
    const minX: int
    const length: nat

    // Cache fields. uniqueComputed is never set by any operation, so the
    // de-duplicated copy is rebuilt on every request; the direction-change
    // count is memoised.
    var uniqueNumbers: seq<int>
    var inflectionCount: nat
    var uniqueComputed: bool
    var inflectionComputed: bool

    /** What the constructor establishes about the values it was given. */
    predicate WellFormed()
    {
      && |y| > 0 && |x| > 0
      && length == |y|
      && maxVal == MaxOf(y) && minVal == MinOf(y)
      && maxX == MaxOf(x) && minX == MinOf(x)
    }

    /** Every cache field is either still empty or holds what it stands for. */
    ghost predicate Valid()
      reads this
    {
      && WellFormed()
      && !uniqueComputed
      && (uniqueNumbers == [] || uniqueNumbers == Unique(y))
      && (inflectionComputed ==> inflectionCount == InflectionCount(y))
    }

    /**
     * The extrema are attained values that bound every element (so the
     * series must not be empty), and length is the number of y values.
     */
    constructor (newY: seq<int>, newX: seq<int>)
      requires |newY| > 0 && |newX| > 0
      ensures y == newY && x == newX && length == |newY|
      ensures maxVal in y && forall k :: 0 <= k < |y| ==> y[k] <= maxVal
      ensures minVal in y && forall k :: 0 <= k < |y| ==> minVal <= y[k]
      ensures maxX in x && forall k :: 0 <= k < |x| ==> x[k] <= maxX
      ensures minX in x && forall k :: 0 <= k < |x| ==> minX <= x[k]
      ensures uniqueNumbers == [] && !inflectionComputed
      ensures Valid()
    {
      y, x := newY, newX;
      maxVal, minVal := MaxOf(newY), MinOf(newY);
      maxX, minX := MaxOf(newX), MinOf(newX);
      length := |newY|;
      uniqueNumbers := [];
      inflectionCount := 0;
      uniqueComputed, inflectionComputed := false, false;
    }

    /** Copies y into the cache and collapses runs of equal neighbours. */
    method ComputeUnique()
      requires Valid()
      modifies this`uniqueNumbers
      ensures Valid()
      ensures uniqueNumbers == Unique(y)
    {
      uniqueNumbers := Unique(y);
    }

    /**
     * The adjacent-deduplicated series: the head of every run of equal
     * neighbours in y, in order; so it is obtained from y by deleting
     * elements, has no two neighbours equal, keeps the first value, is no
     * longer than y and holds the same values as y.
     */
    method GetNumUniqueConst() returns (unique: seq<int>)
      requires Valid()
      modifies this`uniqueNumbers
      ensures Valid()
      ensures unique == uniqueNumbers == Unique(y) == RunHeads(y)
      ensures IsSubsequence(unique, y) && NoAdjacentDuplicates(unique)
      ensures |unique| <= length && unique[0] == y[0]
      ensures forall v :: v in unique <==> v in y
    {
      if !uniqueComputed {
        ComputeUnique();
      }
      unique := uniqueNumbers;
      UniqueIsRunHeads(y);
    }

    /** The size of the adjacent-deduplicated series: the number of runs in y. */
    method GetUniqueCount() returns (count: nat)
      requires Valid()
      modifies this`uniqueNumbers
      ensures Valid()
      ensures uniqueNumbers == Unique(y)
      ensures count == |Unique(y)| == |RunHeads(y)|
      ensures 0 < count <= length
    {
      if !uniqueComputed {
        ComputeUnique();
      }
      count := |uniqueNumbers|;
      UniqueIsRunHeads(y);
    }

    /**
     * The mean over the adjacent-deduplicated series; it lies between the
     * extrema of y.
     */
    method GetMeanUnique() returns (m: real)
      requires Valid()
      modifies this`uniqueNumbers
      ensures Valid()
      ensures uniqueNumbers == Unique(y)
      ensures m == Mean(Unique(y))
      ensures minVal as real <= m <= maxVal as real
    {
      if !uniqueComputed {
        ComputeUnique();
      }
      m := Mean(uniqueNumbers);
      SameValuesSameExtrema(uniqueNumbers, y);
      MeanBounds(uniqueNumbers);
    }

    /**
     * The spread over the adjacent-deduplicated series: the mean of its
     * squares less its squared mean, which is its population variance and
     * so never negative. The source returns its square root.
     */
    method GetSDUnique() returns (squared: real)
      requires Valid()
      modifies this`uniqueNumbers
      ensures Valid()
      ensures uniqueNumbers == Unique(y)
      ensures squared == UnrootedSpread(uniqueNumbers) == Variance(uniqueNumbers)
      ensures squared >= 0.0
    {
      if !uniqueComputed {
        ComputeUnique();
      }
      squared := UnrootedSpread(uniqueNumbers);
      UnrootedSpreadIsVariance(uniqueNumbers);
    }

    /**
     * The direction-change count of y; computed on the first call and
     * returned from the cache afterwards.
     */
    method GetInflectionCount() returns (count: nat)
      requires Valid()
      modifies this`inflectionCount, this`inflectionComputed
      ensures Valid() && inflectionComputed
      ensures count == inflectionCount == InflectionCount(y)
      ensures count <= if length >= 2 then length - 2 else 0
      ensures old(inflectionComputed) ==> count == old(inflectionCount)
    {
      if !inflectionComputed {
        inflectionCount := CountInflections(y);
        inflectionComputed := true;
      }
      count := inflectionCount;
      InflectionCountBound(y);
    }

    /** The mean of all values (never the empty-series sentinel here). */
    method GetMean() returns (m: real)
      requires WellFormed()
      ensures m == Mean(y)
      ensures minVal as real <= m <= maxVal as real
    {
      m := Mean(y);
      MeanBounds(y);
    }

    /** The "SD" over all values: the population variance, never negative. */
    method GetSD() returns (v: real)
      requires WellFormed()
      ensures v == Variance(y)
      ensures v >= 0.0
    {
      v := PopulationVariance(y);
    }

    /**
     * The nine-entry summary: length, min y, max y, min x, max x, direction
     * changes, adjacent-deduplicated size, mean and variance, in that order.
     */
    method GetAllData() returns (result: seq<real>)
      requires Valid()
      modifies this`uniqueNumbers, this`inflectionCount, this`inflectionComputed
      ensures Valid()
      ensures result == [|y| as real, MinOf(y) as real, MaxOf(y) as real, MinOf(x) as real, MaxOf(x) as real,
                         InflectionCount(y) as real, |Unique(y)| as real, Mean(y), Variance(y)]
    {
      var inflections := GetInflectionCount();
      var unique := GetUniqueCount();
      var mean := GetMean();
      var sd := GetSD();
      result := [|y| as real, MinOf(y) as real, MaxOf(y) as real, MinOf(x) as real, MaxOf(x) as real,
                 inflections as real, unique as real, mean, sd];
    }
  }
}

# Series statistics and 2-D occurrence histograms, in Dafny

This project models the core of a small C++ header library for series
statistics. The model and its proofs are written in Dafny.

**Series.** A series is a pair of value sequences: `y`, the values, and `x`,
their positions. Two classes hold a series: `NumericVector` and `NumericList`.
Both compute the following when the series is built:

- the extrema of `y` and of `x`;
- the length.

They then report on request:

- a sorted copy (NumericVector only);
- a de-duplicated copy and its size;
- a direction-change ("inflection") count;
- the mean and the "SD" of all values;
- the mean and the spread of the de-duplicated values;
- a nine-entry summary.

**Aggregates.** `VectorOfNumericVectors` and `ListOfNumericLists` collect
series. They keep running length and value extrema as members are appended.
They can join all members into one series and give a six-entry summary.

**Histogram.** `Hist2D` is a two-dimensional occurrence histogram. Its count
matrix has one row per y bin and one column per x bin, and the bin edges are
uniformly spaced. Adding a series increments one cell per element, under one
of five alignments:

- `Front`: positions 0, 1, 2, ….
- `Back`: the series is read from its end, and positions count down from the
  row count less one.
- `AtMax` and `AtMin`: the first occurrence of the extremum sits at half the
  row count.
- `ByX`: the series' own x values are the positions.

A whole collection can also be added.

The element type `T` is fixed to `int`. The statistics the source computes in
`double` are computed here in exact `real` arithmetic. The bin edges are
`real`.

| file | module | what it holds |
|---|---|---|
| `series_stats.dfy` | `SeriesStats` | Value-level definitions shared by the series classes, with their lemmas and the two shared loops (`CountInflections`, `PopulationVariance`). The definitions: `MaxOf`/`MinOf` (`max_element`/`min_element`), `SortAscending` (`std::sort`), `Unique` (`std::unique` + `erase`), `InflectionCount`, `Mean`, `Variance`, `UnrootedSpread`, `Flatten`. |
| `numeric_vector.dfy` | `NumericVectors` | `class NumericVector` with its cache fields. |
| `numeric_list.dfy` | `NumericLists` | `class NumericList` with its cache fields. |
| `running_stats.dfy` | `RunningStats` | The running fields of the aggregates, and the update an append performs. |
| `vector_of_numeric_vectors.dfy` | `VectorsOfNumericVectors` | `class VectorOfNumericVectors` and its concatenation loop. |
| `list_of_numeric_lists.dfy` | `ListsOfNumericLists` | `class ListOfNumericLists` and its concatenation loop. |
| `grids.dfy` | `Grids` | The count matrix as a value (rows of columns). What a run of increments does to it: each cell ends at its old count plus its hits, independent of order, and the total rises by the number of increments. |
| `hist2d.dfy` | `Histograms` | Edges, the `lower_bound` bin lookup (as a definition and as the binary search), the placement of a series under each alignment, and `class Hist2D` over an `array2<int>`. |

### Behaviour of the source that the model keeps as written

- **De-duplication differs between the two series classes.**
  - `NumericVector` de-duplicates the sorted copy. So its "unique values" are
    each distinct value once, in increasing order: `SortedUniqueIsDistinctValues`.
  - `NumericList` runs `std::unique` on the unsorted series. That only
    collapses runs of equal neighbours, so `[1,2,3,4,3,5,1]` keeps all seven
    values: `AdjacentUniqueExample`.
- **The inflection count is taken over `adjacent_difference` of `y[1..]`.**
  The first entry of that sequence is `y[1]` itself, not a difference, and it
  takes part in the first sign comparison. `InflectionCountExample` shows the
  count of `[1,2,3,4,3,5,1]` is 3.
- **The two spread statistics are not the same kind of quantity.**
  - The all-values "SD" is a population variance; no square root is taken.
  - The unique-values "SD" takes the square root of
    (mean of squares − squared mean). `UnrootedSpreadIsVariance` shows that
    quantity equals the population variance of the unique values.
- **The memo flags for the sorted and unique copies are never set.** So those
  copies are rebuilt on every request. The `Valid()` predicates record this as
  the flags staying false.
- **Aggregates: the running x extrema are compared against the value extrema.**
  An append compares the new member's x extremum with the just-updated VALUE
  extremum, not with the previous x extremum. So while the running fields are
  current, the x entries of the summary reflect only the last member.
  `RunningMaxXForgetsEarlierMembers` gives a two-member instance.
- **Aggregates: `m_wasConcatenated` is never set.** So every request rebuilds
  the concatenation, and the re-concatenation branches inside
  `AddToVector`/`AddToList` never run.
- **`VectorOfNumericVectors` always refreshes.** Its constructors both clear
  `m_statsCurrent`, and nothing sets it. So every summary re-derives its
  entries from the concatenation, and every `Concatenate` refreshes the length
  bounds.
- **`ListOfNumericLists` depends on which constructor ran.**
  - The parameterless constructor starts with `m_statsCurrent` set. The
    summary is then the running fields, and `Concatenate` does not touch the
    length bounds.
  - The list constructor starts with `m_statsCurrent` cleared.
  - `GetSummaryVals` states both cases.
- **A bin is `lower_bound(edges, v) - 1`.** So bin `k` holds
  `edges[k] < v <= edges[k+1]`: the interval is open at the bottom and closed
  at the top (`BinIndex`, `BinInRangeIff`).
- **Back and AtMax/AtMin use the matrix's row count (`shape()[0]`, the y
  bins) as the reference for x positions.** With the parameterless
  constructor's shape (26 x bins up to 24, 28 y bins), Back's first position
  is 27. That is past the last x edge, so no series can be added with Back:
  `DefaultShapeRefusesBack`.
- **Series construction does not check lengths.** The constructors do not
  compare the lengths of `y` and `x`; the model only requires both sequences
  to be non-empty, because `max_element` on an empty range is dereferenced.

## Model

| member | source | states |
|---|---|---|
| SeriesStats.MaxOf | C++_processing_files/NumericVector.h:32 | The maximum is an element of the series and no element exceeds it. |
| SeriesStats.MinOf | C++_processing_files/NumericVector.h:33 | The minimum is an element of the series and no element is below it. |
| SeriesStats.SortAscending | C++_processing_files/NumericVector.h:163-166 | The sorted copy is non-decreasing and is a permutation (same multiset) of the values. |
| SeriesStats.Unique | NumericList.h:137-141 | `std::unique` + `erase` gives a subsequence of the input with no two equal neighbours. It keeps the first element, is no longer than the input, and holds exactly the same set of values. |
| SeriesStats.RunHeadsFront | NumericList.h:137-141 | Read from the front, the head of a run is kept and the other elements of that run are not. |
| SeriesStats.UniqueIsRunHeads | NumericList.h:137-141 | `std::unique` + `erase` keeps exactly the elements `s[i]` with `i == 0` or `s[i-1] != s[i]`, in order: only runs of equal neighbours are collapsed. |
| SeriesStats.UniqueKeepsLaterRuns | NumericList.h:137-141 | A value that comes back after another value is kept again: `[1,1,2,1]` becomes `[1,2,1]`. |
| SeriesStats.UniqueOfSortedIsStrictlyIncreasing | C++_processing_files/NumericVector.h:173-180 | De-duplicating a sorted sequence leaves it strictly increasing. |
| SeriesStats.SortedUniqueIsDistinctValues | C++_processing_files/NumericVector.h:173-180 | Sort-then-unique is strictly increasing, holds exactly the values of the series, and has one entry per distinct value (at most the length). |
| SeriesStats.SortedUniqueIsCanonical | C++_processing_files/NumericVector.h:173-180 | Sort-then-unique is the only strictly increasing sequence with exactly the series' values. |
| SeriesStats.SortedUniqueExample | C++_processing_files/NumericVector.h:173-180 | `[1,2,3,4,3,5,1]` sorted and de-duplicated is `[1,2,3,4,5]`. |
| SeriesStats.UniqueOfDistinctNeighbours | NumericList.h:137-141 | A series with no equal neighbours is left unchanged by `std::unique`. |
| SeriesStats.UniqueIsIdempotent | NumericList.h:137-141 | De-duplicating twice gives the same as once. |
| SeriesStats.AdjacentUniqueExample | NumericList.h:137-141 | Without sorting, `[1,2,3,4,3,5,1]` stays seven long: non-neighbouring repeats are kept. |
| SeriesStats.CountInflections | C++_processing_files/NumericVector.h:95-103 | The counting loop over `adjacent_difference(y[1..])` returns exactly the number of adjacent pairs that disagree on being negative (`InflectionCount`). |
| SeriesStats.InflectionCountBound | NumericList.h:73-85 | The direction-change count is at most max(0, \|y\| − 2). |
| SeriesStats.InflectionCountExample | C++_processing_files/NumericVector.h:94-106 | `[1,2,3,4,3,5,1]` changes direction 3 times. |
| SeriesStats.MeanBounds | C++_processing_files/NumericVector.h:185-190 | The mean of a non-empty series lies between its minimum and maximum. |
| SeriesStats.MeanTimesCount | NumericList.h:147-150 | The mean times the count is the sum. |
| SeriesStats.PopulationVariance | C++_processing_files/NumericVector.h:204-216 | The squared-deviation loop returns the population variance; for a non-empty series it is non-negative; −999 for an empty one. |
| SeriesStats.VarianceNonNegative | NumericList.h:167-181 | The all-values "SD" (a variance) is never negative. |
| SeriesStats.UnrootedSpreadIsVariance | NumericList.h:186-189 | The quantity under the unique-values square root (mean of squares less the squared mean) equals the population variance, so it is non-negative. |
| SeriesStats.MeanAndVarianceExample | NumericList.h:145-181 | Mean 19/7 and variance 94/49 for `[1,2,3,4,3,5,1]`. |
| SeriesStats.FlattenLength | C++_processing_files/VectorOfNumericVectors.h:56-61 | The joined series is as long as all members together. |
| SeriesStats.FlattenMembership | C++_processing_files/VectorOfNumericVectors.h:56-61 | A value is in the joined series exactly when it is in some member. |
| SeriesStats.ExtremaOfFlatten | ListOfNumericLists.h:79-83 | The extrema of the joined series are the extrema of the members' extrema. |
| RunningStats.MaxInto | ListOfNumericLists.h:33 | `std::max` of the accumulator and a value: at least both, and equal to one of them (an unset accumulator contributes nothing). |
| RunningStats.MinInto | ListOfNumericLists.h:34 | `std::min` of the accumulator and a value, likewise. |
| RunningStats.AbsorbAllFromUnset | ListOfNumericLists.h:31-38 | After appending a non-empty run, the length fields are the longest and shortest lengths and the value fields the extremes of the maxima and minima. The x fields are the last member's x extremum against those value extremes. |
| RunningStats.RunningMaxXForgetsEarlierMembers | ListOfNumericLists.h:37 | Appending a member with x up to 100, then one with x up to 1 (values 0), leaves running max x = 1. |
| RunningStats.RefreshFromMember | ListOfNumericLists.h:57-64 | Folding `std::max`/`std::min` over every member's length, from unset fields or fields holding some member's length, gives exactly the longest/shortest length. |
| NumericVectors.NumericVector.constructor | C++_processing_files/NumericVector.h:29-37 | Stores y and x. The extrema are attained values bounding every element; length = \|y\|; caches empty. Requires non-empty y and x. |
| NumericVectors.NumericVector.ComputeSorted | C++_processing_files/NumericVector.h:163-166 | The sorted cache becomes a non-decreasing permutation of y. |
| NumericVectors.NumericVector.GetSortedValues | C++_processing_files/NumericVector.h:47-53 | Returns a non-decreasing permutation of y; y is unchanged (a `const` field). |
| NumericVectors.NumericVector.ComputeUnique | C++_processing_files/NumericVector.h:173-180 | Refreshes the sorted cache, and the unique cache becomes the de-duplicated sorted copy. |
| NumericVectors.NumericVector.GetUniqueValues | C++_processing_files/NumericVector.h:58-64 | Returns each distinct value of y exactly once, strictly increasing, and no other value. |
| NumericVectors.NumericVector.GetUniqueCount | C++_processing_files/NumericVector.h:68-74 | The number of distinct values of y, at most its length. |
| NumericVectors.NumericVector.GetMeanUnique | C++_processing_files/NumericVector.h:76-82 | The mean over the distinct values lies between min and max of y. |
| NumericVectors.NumericVector.GetSDUnique | C++_processing_files/NumericVector.h:84-89 | The spread over distinct values (before the square root) equals their population variance and is non-negative. |
| NumericVectors.NumericVector.GetInflectionCount | C++_processing_files/NumericVector.h:94-106 | The direction-change count, at most max(0, length − 2). It is memoised: a second call returns the cached value. |
| NumericVectors.NumericVector.GetMean | C++_processing_files/NumericVector.h:185-190 | The mean of y, between its min and max. |
| NumericVectors.NumericVector.GetSD | C++_processing_files/NumericVector.h:203-216 | The population variance of y, non-negative. |
| NumericVectors.NumericVector.GetAllData | C++_processing_files/NumericVector.h:109-132 | Exactly nine entries: length, min y, max y, min x, max x, inflections, distinct count, mean, variance, in that order. |
| NumericLists.NumericList.constructor | NumericList.h:28-36 | Stores y and x. The extrema are attained values bounding every element; length = \|y\|; caches empty. |
| NumericLists.NumericList.ComputeUnique | NumericList.h:137-141 | The unique cache becomes the adjacent-deduplicated y. |
| NumericLists.NumericList.GetNumUniqueConst | NumericList.h:40-46 | The head of every run of equal neighbours in y, in order: a subsequence of y with no equal neighbours, starting with y[0], no longer than y, and holding the same values. |
| NumericLists.NumericList.GetUniqueCount | NumericList.h:47-54 | The number of runs of equal neighbours in y: between 1 and the length. |
| NumericLists.NumericList.GetMeanUnique | NumericList.h:55-61 | The mean over the adjacent-deduplicated series lies between min and max of y. |
| NumericLists.NumericList.GetSDUnique | NumericList.h:62-67 | The spread over the adjacent-deduplicated series (before the square root) equals its population variance and is non-negative. |
| NumericLists.NumericList.GetInflectionCount | NumericList.h:73-85 | The direction-change count, bounded by max(0, length − 2), memoised. |
| NumericLists.NumericList.GetMean | NumericList.h:68 | The mean of y, between its min and max. |
| NumericLists.NumericList.GetSD | NumericList.h:69 | The population variance of y, non-negative. |
| NumericLists.NumericList.GetAllData | NumericList.h:88-105 | Exactly nine entries in the fixed order, the unique count being the adjacent-deduplicated size. |
| VectorsOfNumericVectors.MemberExtremaAreFlattenExtrema | C++_processing_files/VectorOfNumericVectors.h:81-90 | The largest member maximum is the largest value of the concatenation (likewise minima). |
| VectorsOfNumericVectors.JoinMembers | C++_processing_files/VectorOfNumericVectors.h:63-71 | The loop appends every member's y (and x) in member order and folds every member length into the length bounds. |
| VectorsOfNumericVectors.JoinAndRefresh | C++_processing_files/VectorOfNumericVectors.h:51-75 | The result is a well-formed series whose y and x are the in-order concatenations. The refreshed bounds are exactly the longest and shortest member lengths. |
| VectorsOfNumericVectors.VectorOfNumericVectors.constructor | C++_processing_files/VectorOfNumericVectors.h:20-22 | Empty, flags clear, running fields unset. |
| VectorsOfNumericVectors.VectorOfNumericVectors.FromSeries | C++_processing_files/VectorOfNumericVectors.h:23-25 | Holds the given members, flags clear, running fields unset. |
| VectorsOfNumericVectors.VectorOfNumericVectors.AddToVector | C++_processing_files/VectorOfNumericVectors.h:28-35 | Appends after the existing members (which are unchanged), and the running fields take the append update. |
| VectorsOfNumericVectors.VectorOfNumericVectors.Concatenate | C++_processing_files/VectorOfNumericVectors.h:51-75 | The concatenated series' y and x are the members' in order, and its length is the sum of member lengths. The length bounds become the longest/shortest member length; the other running fields are unchanged. |
| VectorsOfNumericVectors.VectorOfNumericVectors.GetConcatenated | C++_processing_files/VectorOfNumericVectors.h:77-80 | The concatenation of all members, freshly built; the running length bounds become the longest and shortest member length, and the other running fields are kept. |
| VectorsOfNumericVectors.VectorOfNumericVectors.GetSummaryVals | C++_processing_files/VectorOfNumericVectors.h:81-90 | Six entries: longest, shortest, max and min value over all members, max and min x over all members. The running fields are left holding exactly those six values, and the cached concatenation is rebuilt from the members. |
| ListsOfNumericLists.MemberExtremaAreFlattenExtrema | ListOfNumericLists.h:79-83 | The largest member maximum is the largest value of the concatenation (likewise minima). |
| ListsOfNumericLists.JoinMembers | ListOfNumericLists.h:49-64 | The loop appends every member's y and x in order. It folds member lengths into the bounds only on the not-current branch, and leaves them as they were otherwise. |
| ListsOfNumericLists.JoinAndRefresh | ListOfNumericLists.h:45-68 | The result is a well-formed series of the in-order concatenations. On the refresh branch the bounds are exactly the longest/shortest length. |
| ListsOfNumericLists.CurrentRunningFields | ListOfNumericLists.h:31-38 | After appending every member to unset fields: longest/shortest length, extrema over all values, and x fields from the last member against those value extrema. |
| ListsOfNumericLists.ListOfNumericLists.constructor | ListOfNumericLists.h:23-25 | Empty, with the running fields marked current. |
| ListsOfNumericLists.ListOfNumericLists.FromSeries | ListOfNumericLists.h:26-28 | Holds the given members, running fields unset and not current. |
| ListsOfNumericLists.ListOfNumericLists.AddToList | ListOfNumericLists.h:31-43 | Appends after the existing members and applies the append update. "Current" running fields stay equal to the fold over all members. |
| ListsOfNumericLists.ListOfNumericLists.Concatenate | ListOfNumericLists.h:45-68 | The in-order concatenation of y and x, as long as all members. Length bounds are refreshed only when the fields are not current. |
| ListsOfNumericLists.ListOfNumericLists.GetConcatenated | ListOfNumericLists.h:70-73 | The concatenation of all members. When the running fields are current they are untouched; otherwise the length bounds become the longest and shortest member length and the rest are kept. |
| ListsOfNumericLists.ListOfNumericLists.GetSummaryVals | ListOfNumericLists.h:74-86 | In both cases: longest, shortest, max and min value over all members. The x entries: when current, the last member's x extremum against the value extrema; otherwise the x extrema over all members. When current, the running fields and the cached concatenation are untouched; otherwise the running fields are left holding the six entries and the concatenation is rebuilt. |
| Grids.Zeros | Hist2D.h:34 | A rows×cols matrix whose every cell is zero. |
| Grids.ZerosTotal | Hist2D.h:34 | A fresh matrix totals zero. |
| Grids.AddAllAt | Hist2D.h:61-66 | After a run of increments each cell holds its old count plus the number of times it was hit; a cell not hit is unchanged. |
| Grids.AddAllOrderIndependent | Hist2D.h:44-49 | Two runs hitting every cell equally often (same multiset) leave the same matrix. |
| Grids.AddAllTotal | Hist2D.h:64 | A run of increments raises the total by exactly the number of increments. |
| Grids.AddAllAppend | Hist2D.h:44-49 | Increments in two runs equal the increments of the joined run. |
| Histograms.UniformEdges | Hist2D.h:37-40 | The edge loop fills slot i with min + i·(max − min)/bins. |
| Histograms.EdgesIncreasing | Hist2D.h:36-40 | With min < max the bins+1 edges start at min, end at max, strictly increase, and all bins have the same width. |
| Histograms.LowerBound | Hist2D.h:62 | `std::lower_bound`: every edge before the result is below v; the edge at the result (if any) is not. |
| Histograms.LowerBoundSearch | Hist2D.h:62 | The binary search over increasing edges finds exactly that first not-below position. |
| Histograms.BinIndex | Hist2D.h:62-63 | The bin is in −1 … \|edges\|−1, and when a real bin, v lies in (edges[b], edges[b+1]]. |
| Histograms.BinInRangeIff | Hist2D.h:62-64 | A value gets a real bin if and only if first edge < v ≤ last edge. |
| Histograms.BinIndexIsTheBracket | Hist2D.h:62-63 | The bin whose interval holds v is the one found. |
| Histograms.BinAboveRange | Hist2D.h:75 | A value past the last edge gets the one-past-the-end bin. |
| Histograms.FirstIndexOf | Hist2D.h:87-88 | `std::find`: the first position holding the value. |
| Histograms.FindFirst | Hist2D.h:87-88 | The linear scan returns that first position. |
| Histograms.ReverseIsPermutation | Hist2D.h:74 | Reading a series from its end visits the same values. |
| Histograms.PointsCarryEveryValue | Hist2D.h:52-125 | Under every alignment but ByX each y value is counted exactly once (same multiset). Under ByX the first \|x\| values are counted in order. |
| Histograms.ExtremumIsAnchored | Hist2D.h:86-94 | Under AtMax the first occurrence of the maximum lands at position rows / 2, and element j at rows / 2 + (j − that index). Under AtMin the first minimum lands at rows / 2. |
| Histograms.BackEndsAtLastRow | Hist2D.h:73-79 | Under Back the last element goes to position rows − 1 and the first to rows − \|y\|. |
| Histograms.Hist2D.constructor | Hist2D.h:30-41 | A yBins×xBins matrix of zeros, with edges as the loop computes them, strictly increasing from min to max. |
| Histograms.Hist2D.AddableIff | Hist2D.h:61-64 | A series is addable if and only if every point it contributes lies within (first edge, last edge] in both directions. |
| Histograms.Hist2D.CellsBracketPoints | Hist2D.h:62-64 | Each counted element lands in the cell whose y interval holds its value and whose x interval holds its position. |
| Histograms.Hist2D.AddedTotal | Hist2D.h:52-125 | Adding a series raises the matrix total by \|y\| (by \|x\| under ByX). |
| Histograms.Hist2D.Increment | Hist2D.h:64 | One cell goes up by one; the rest of the matrix is unchanged. |
| Histograms.Hist2D.AddPoint | Hist2D.h:62-64 | Lookup of both bins then increment: the matrix is bumped at the point's cell. |
| Histograms.Hist2D.AddForward | Hist2D.h:61-66 | The counting-up loop increments the cells of the points, in order. |
| Histograms.Hist2D.AddBackward | Hist2D.h:74-79 | The reverse loop, position counting down, increments the cells of the points, in order. |
| Histograms.Hist2D.AddPaired | Hist2D.h:119-123 | The ByX loop increments cell (bin of y[i], bin of x[i]) for each i < \|x\|. |
| Histograms.Hist2D.AddToHist | Hist2D.h:52-130 | Accepts exactly the addable series. An accepted series increments its cells in order; a refused one leaves the matrix as it was. |
| Histograms.Hist2D.AddAligned | Hist2D.h:55-128 | The switch dispatches to the alignment's loop, which increments exactly that alignment's cells. |
| Histograms.Hist2D.AddFront | Hist2D.h:56-68 | Front: positions start at 0. |
| Histograms.Hist2D.AddBack | Hist2D.h:69-81 | Back: positions start at the row count less one and count down over the reversed series. |
| Histograms.Hist2D.AddAtExtremum | Hist2D.h:82-113 | AtMax/AtMin: positions start at half the row count less the first index of the extremum. |
| Histograms.Hist2D.AddByX | Hist2D.h:114-125 | ByX: the positions are the series' x values. |
| Histograms.Hist2D.DefaultShapeRefusesBack | Hist2D.h:73-77 | With the default shape no series is addable under Back: its first position, 27, is past the last x edge. |
| Histograms.Hist2D.CollectionCellsPermutation | Hist2D.h:44-49 | The same members in any order contribute the same cells, each as often. |
| Histograms.Hist2D.CollectionOrderIndependent | Hist2D.h:44-49 | Adding a collection gives the same matrix whatever the order of its members. |
| Histograms.Hist2D.AddCollection | Hist2D.h:44-49 | Succeeds exactly when every member is addable. It then equals adding each member's cells in member order; otherwise the matrix is unchanged. |
| Histograms.Hist2D.AddMembers | Hist2D.h:46-48 | The member loop: after it the matrix is the old one with each member's cells added, member after member. |

## Left out

- Printing (`print`, `printVec`) and the demo programs: output only.
- Floating point. Means, variances and edges are exact `real`s. Rounding of IEEE doubles, and the `double` cast of `long` values in the summaries, are not modelled.
- `T` is fixed to `int`: the source is a template over any arithmetic type.
- NumericVectors.NumericVector.GetSDUnique: returns the quantity the source takes `std::sqrt` of, not its square root, because Dafny's reals have no square root. The contract proves that quantity is the population variance of the unique values and non-negative.
- NumericLists.NumericList.GetSDUnique: the same, for the adjacent-deduplicated values.
- The `-999.0` sentinels for an empty unique cache are unreachable: every constructed series is non-empty. `Mean` and `Variance` keep the sentinel for the empty sequence.
- The parameterless `NumericVector()` constructor (no values): used only as a placeholder member of the aggregates. Here that member is `null` until the first concatenation.
- Series constructors require non-empty `y` and `x`: the source dereferences `max_element` of an empty range. Equal lengths are not checked, as in the source.
- Running fields that the source leaves uninitialised are modelled as `Option` values, `None` until first written. `max`/`min` against `None` gives the new value.
- Members are held by reference. The source copies each member into the aggregate, but the series are immutable apart from their caches, so no aliasing effect is visible.
- The re-concatenation branches of `AddToVector`/`AddToList` are not modelled. They run only when `m_wasConcatenated` is set, which never happens; `Valid()` records that the flag stays false.
- The `m_statsCurrent` branch of `VectorOfNumericVectors::Concatenate` is not modelled, for the same reason.
- `ListOfNumericLists::Concatenate` calls `getNumConst()` and `yHolder.length`, which NumericList does not have. They are modelled as `getYConst()` and the size of the member's y.
- `ListOfNumericLists::getConcatenated` (ListOfNumericLists.h:70) is declared `const` yet calls the non-const `Concatenate`. It is modelled as changing the cached concatenation and the length bounds, as `VectorOfNumericVectors::getConcatenated`, which is not `const`, does.
- `Hist2D::addToHist(collection)` calls `getList()`, which ListOfNumericLists does not have. It is modelled as the member sequence.
- Histograms.Hist2D.AddToHist: a series with a point outside the edges is refused whole and the matrix is left unchanged. The source writes outside the matrix (undefined behaviour).
- Histograms.Hist2D.AddCollection: checks every member first and adds none if any is refused, so a collection is added atomically. The source adds members one by one with no check.
- The `default:` diagnostic branch of the alignment switch: unreachable, because the alignment datatype has exactly five values.
- The `Hist2D` constructor requires at least one bin and min < max in each direction. The increment divides by the bin count, and `lower_bound` needs increasing edges.
- The count matrix holds `int` (the source's `T`); counts do not overflow in the model.
- Histograms.Placeable: under ByX a series with more x values than y values is refused. The source's ByX loop (Hist2D.h:119-121) runs over the x values and reads `y` past its end (undefined behaviour), which the model does not reproduce.
- SeriesStats.AdjacentDifference: the differences are exact integers. The source stores them in a `std::vector<T>` (C++_processing_files/NumericVector.h:98, NumericList.h:77), where signed overflow of `T = int` could flip the sign that the direction-change count compares; that overflow is not modelled.
- `std::lower_bound` is modelled by a binary search and `std::find` by a linear scan. Each is proved equal to its definition (`LowerBound`, `FirstIndexOf`).

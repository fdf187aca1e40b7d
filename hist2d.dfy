/**
 * Hist2D: a two-dimensional occurrence histogram of series. The matrix has
 * one row per y bin and one column per x bin; the bin edges are uniformly
 * spaced. Adding a series increments one cell per element: the row is the
 * bin of the element's value, and the column is the bin of a position that
 * depends on the alignment (a synthetic running index for Front, Back, AtMax
 * and AtMin, the series' own x value for ByX).
 *
 * A bin is found as std::lower_bound(edges, v) - 1, so bin k holds the values
 * v with edges[k] < v <= edges[k + 1]. A value outside (first edge, last
 * edge] yields index -1 or the bin count, which the source then uses to index
 * the matrix unchecked; here such a series is refused as a whole and the
 * matrix is left as it was.
 */
module Histograms {
  import opened SeriesStats
  import opened Grids
  import opened NumericLists
  import opened ListsOfNumericLists

  /** How a series is laid out along the x axis. */
  datatype Alignment = Front | Back | AtMax | AtMin | ByX

  /** A place to count: a position on the x axis and a value on the y axis. */
  datatype Point = Point(x: int, y: int)

  // The parameterless constructor's shape: x from -0.1 to 24 in 26 bins (the
  // hours of a day), y from -0.1 to 25.1 in 28 bins (ranks).
  const DefaultXBins: nat := 26
  const DefaultYBins: nat := 28
  const DefaultXMin: real := -0.1
  const DefaultXMax: real := 24.0
  const DefaultYMin: real := -0.1
  const DefaultYMax: real := 25.1

  predicate Increasing(e: seq<real>)
  {
    forall i, j :: 0 <= i < j < |e| ==> e[i] < e[j]
  }

  // ---------------------------------------------------------------------------
  // Bin edges and bin lookup
  // ---------------------------------------------------------------------------

  /** bins + 1 increasing edges from lo to hi. */
  predicate Spans(e: seq<real>, lo: real, hi: real, bins: nat)
  {
    |e| == bins + 1 && e[0] == lo && e[bins] == hi && Increasing(e)
  }

  /** bins + 1 edges from lo to hi, each (hi - lo) / bins after the one before. */
  function Edges(lo: real, hi: real, bins: nat): seq<real>
    requires bins > 0
  {
    seq(bins + 1, k requires 0 <= k <= bins => lo + (k as real) * ((hi - lo) / (bins as real)))
  }

  /** The constructor's edge loop: fills bins + 1 slots, slot i with lo + i * increment. */
  method UniformEdges(lo: real, hi: real, bins: nat) returns (edges: seq<real>)
    requires bins > 0
    ensures edges == Edges(lo, hi, bins)
  {
    var inc := (hi - lo) / (bins as real);
    var vals := new real[bins + 1];
    var i := 0;
    while i < bins + 1
      invariant 0 <= i <= bins + 1
      invariant forall k :: 0 <= k < i ==> vals[k] == Edges(lo, hi, bins)[k]
    {
      assert Edges(lo, hi, bins)[i] == lo + (i as real) * inc;
      vals[i] := lo + (i as real) * inc;
      i := i + 1;
    }
    edges := vals[..];
  }

  /**
   * With lo below hi the edges are strictly increasing, start at lo and end
   * at hi, and every bin has the same width.
   */
  lemma EdgesIncreasing(lo: real, hi: real, bins: nat)
    requires bins > 0 && lo < hi
    ensures Spans(Edges(lo, hi, bins), lo, hi, bins)
    ensures forall k :: 0 <= k < bins ==>
      Edges(lo, hi, bins)[k + 1] - Edges(lo, hi, bins)[k] == (hi - lo) / (bins as real)
  {
    var inc := (hi - lo) / (bins as real);
    var e := Edges(lo, hi, bins);
    assert inc > 0.0;
    forall i, j | 0 <= i < j < |e|
      ensures e[i] < e[j]
    {
      ScaledStepsIncrease(i as real, j as real, inc);
    }
    assert (bins as real) * inc == hi - lo;
  }

  lemma ScaledStepsIncrease(i: real, j: real, inc: real)
    requires i < j && inc > 0.0
    ensures i * inc < j * inc
  {
  }

  /**
   * std::lower_bound: the first position whose edge is not below v, or the
   * number of edges if there is none.
   */
  function LowerBound(edges: seq<real>, v: real): (k: nat)
    ensures k <= |edges|
    ensures forall i :: 0 <= i < k ==> edges[i] < v
    ensures k < |edges| ==> v <= edges[k]
  {
    if edges == [] || v <= edges[0] then 0
    else
      var k := 1 + LowerBound(edges[1..], v);
      assert forall i :: 1 <= i < k ==> edges[i] == edges[1..][i - 1];
      k
  }

  /**
   * The binary search std::lower_bound performs on sorted edges; it finds
   * the same position as the definition above.
   */
  method LowerBoundSearch(edges: seq<real>, v: real) returns (k: nat)
    requires Increasing(edges)
    ensures k == LowerBound(edges, v)
  {
    var lo, hi := 0, |edges|;
    while lo < hi
      invariant 0 <= lo <= hi <= |edges|
      invariant forall i :: 0 <= i < lo ==> edges[i] < v
      invariant forall i :: hi <= i < |edges| ==> v <= edges[i]
    {
      var mid := lo + (hi - lo) / 2;
      if edges[mid] < v {
        lo := mid + 1;
      } else {
        hi := mid;
      }
    }
    k := lo;
    LowerBoundIsFirst(edges, v, k);
  }

  /** The only position with every edge before it below v and its own edge not below v. */
  lemma LowerBoundIsFirst(edges: seq<real>, v: real, k: nat)
    requires k <= |edges|
    requires forall i :: 0 <= i < k ==> edges[i] < v
    requires k < |edges| ==> v <= edges[k]
    ensures LowerBound(edges, v) == k
  {
  }

  /** The bin of v: one before its lower bound. In range, v lies in the bin's interval. */
  function BinIndex(edges: seq<real>, v: real): (b: int)
    ensures -1 <= b < |edges|
    ensures 0 <= b < |edges| - 1 ==> edges[b] < v <= edges[b + 1]
  {
    LowerBound(edges, v) - 1
  }

  /**
   * Over increasing edges a value gets a real bin exactly when it lies above
   * the first edge and at most the last.
   */
  lemma BinInRangeIff(edges: seq<real>, v: real)
    requires Increasing(edges) && |edges| >= 2
    ensures 0 <= BinIndex(edges, v) < |edges| - 1 <==> edges[0] < v <= edges[|edges| - 1]
  {
    var k := LowerBound(edges, v);
    if edges[0] < v <= edges[|edges| - 1] {
      assert k != 0;
    }
  }

  /** Over increasing edges the bin whose interval holds v is the one found. */
  lemma BinIndexIsTheBracket(edges: seq<real>, v: real, k: int)
    requires Increasing(edges)
    requires 0 <= k < |edges| - 1 && edges[k] < v <= edges[k + 1]
    ensures BinIndex(edges, v) == k
  {
    LowerBoundIsFirst(edges, v, k + 1);
  }

  /** Above the last edge the index is one past the last bin. */
  lemma BinAboveRange(edges: seq<real>, v: real)
    requires Increasing(edges) && |edges| > 0 && v > edges[|edges| - 1]
    ensures BinIndex(edges, v) == |edges| - 1
  {
    LowerBoundIsFirst(edges, v, |edges|);
  }

  // ---------------------------------------------------------------------------
  // Where the elements of a series go
  // ---------------------------------------------------------------------------

  /** std::find: the first position holding v. */
  function FirstIndexOf(s: seq<int>, v: int): (i: nat)
    requires v in s
    ensures i < |s| && s[i] == v
    ensures forall j :: 0 <= j < i ==> s[j] != v
  {
    if s[0] == v then 0
    else
      var i := 1 + FirstIndexOf(s[1..], v);
      assert forall j :: 1 <= j < i ==> s[j] == s[1..][j - 1];
      i
  }

  /** The linear scan std::find performs. */
  method FindFirst(s: seq<int>, v: int) returns (i: nat)
    requires v in s
    ensures i == FirstIndexOf(s, v)
  {
    i := 0;
    while s[i] != v
      invariant 0 <= i <= FirstIndexOf(s, v)
      decreases FirstIndexOf(s, v) - i
    {
      i := i + 1;
    }
  }

  /** Element j of y at position start + j. */
  function Forward(y: seq<int>, start: int): seq<Point>
  {
    seq(|y|, j requires 0 <= j < |y| => Point(start + j, y[j]))
  }

  /** Element |y| - 1 - j of y at position start - j: y read from its end. */
  function Backward(y: seq<int>, start: int): seq<Point>
  {
    seq(|y|, j requires 0 <= j < |y| => Point(start - j, y[|y| - 1 - j]))
  }

  /** Element j of y at position x[j], for every j below |x|. */
  function Paired(y: seq<int>, x: seq<int>): seq<Point>
    requires |x| <= |y|
  {
    seq(|x|, j requires 0 <= j < |x| => Point(x[j], y[j]))
  }

  /**
   * What placing a series relies on: a non-empty y holding its own extrema
   * (every well-formed series does), and, under ByX, no more x values than
   * y values (the source would read past the end of y).
   */
  predicate Placeable(l: NumericList, a: Alignment)
  {
    |l.y| > 0 && l.maxVal in l.y && l.minVal in l.y && (a == ByX ==> |l.x| <= |l.y|)
  }

  predicate AllPlaceable(ls: seq<NumericList>, a: Alignment)
  {
    forall i :: 0 <= i < |ls| ==> Placeable(ls[i], a)
  }

  /**
   * The points a series contributes, in the order the source visits them.
   * yBins is the matrix's row count, which Back and AtMax/AtMin take as the
   * reference for their synthetic x positions.
   */
  function Points(l: NumericList, a: Alignment, yBins: nat): seq<Point>
    requires Placeable(l, a)
  {
    match a
    case Front => Forward(l.y, 0)
    case Back => Backward(l.y, yBins - 1)
    case AtMax => Forward(l.y, yBins / 2 - FirstIndexOf(l.y, l.maxVal))
    case AtMin => Forward(l.y, yBins / 2 - FirstIndexOf(l.y, l.minVal))
    case ByX => Paired(l.y, l.x)
  }

  function Values(ps: seq<Point>): seq<int>
  {
    seq(|ps|, j requires 0 <= j < |ps| => ps[j].y)
  }

  function Reverse(s: seq<int>): seq<int>
  {
    seq(|s|, j requires 0 <= j < |s| => s[|s| - 1 - j])
  }

  lemma {:induction false} ReverseIsPermutation(s: seq<int>)
    ensures multiset(Reverse(s)) == multiset(s)
  {
    if s != [] {
      var t := s[1..];
      assert s == [s[0]] + t;
      assert Reverse(s) == Reverse(t) + [s[0]];
      ReverseIsPermutation(t);
    }
  }

  /**
   * Under every alignment but ByX each element of y is counted exactly once:
   * the values placed are y itself, or y reversed for Back. Under ByX the
   * first |x| elements of y are counted once each.
   */
  lemma PointsCarryEveryValue(l: NumericList, a: Alignment, yBins: nat)
    requires Placeable(l, a)
    ensures a != ByX ==> multiset(Values(Points(l, a, yBins))) == multiset(l.y)
    ensures a == ByX ==> Values(Points(l, a, yBins)) == l.y[..|l.x|]
  {
    var vs := Values(Points(l, a, yBins));
    if a == Back {
      assert vs == Reverse(l.y);
      ReverseIsPermutation(l.y);
    } else if a != ByX {
      assert vs == l.y;
    }
  }

  /**
   * Under AtMax the first occurrence of the series' maximum is placed at
   * position yBins / 2, and the elements before and after it at consecutive
   * positions on either side; AtMin does the same for the minimum.
   */
  lemma ExtremumIsAnchored(l: NumericList, yBins: nat)
    requires Placeable(l, AtMax)
    ensures Points(l, AtMax, yBins)[FirstIndexOf(l.y, l.maxVal)] == Point(yBins / 2, l.maxVal)
    ensures Points(l, AtMin, yBins)[FirstIndexOf(l.y, l.minVal)] == Point(yBins / 2, l.minVal)
    ensures forall j :: 0 <= j < |l.y| ==>
      Points(l, AtMax, yBins)[j].x == yBins / 2 + (j - FirstIndexOf(l.y, l.maxVal))
  {
  }

  /**
   * Under Back the last element is placed at position yBins - 1 and the
   * first at yBins - |y|: the series ends at the same place whatever its
   * length.
   */
  lemma BackEndsAtLastRow(l: NumericList, yBins: nat)
    requires Placeable(l, Back)
    ensures Points(l, Back, yBins)[0] == Point(yBins - 1, l.y[|l.y| - 1])
    ensures Points(l, Back, yBins)[|l.y| - 1] == Point(yBins - |l.y|, l.y[0])
  {
  }

  // ---------------------------------------------------------------------------
  // The histogram
  // ---------------------------------------------------------------------------

  class Hist2D {
    const xBins: nat
    const yBins: nat
    const xMin: real
    const xMax: real
    const yMin: real
    const yMax: real
    const xEdges: seq<real>
    const yEdges: seq<real>
    const counts: array2<int>

    /**
     * The matrix is yBins rows by xBins columns, and each edge sequence runs
     * from its minimum to its maximum in increasing order, as
     * std::lower_bound requires.
     */
    predicate Valid()
    {
      && xBins > 0 && yBins > 0
      && Spans(xEdges, xMin, xMax, xBins) && Spans(yEdges, yMin, yMax, yBins)
      && counts.Length0 == yBins && counts.Length1 == xBins
    }

    /** The edges are the uniformly spaced ones the constructor computes. */
    predicate Uniform()
      requires xBins > 0 && yBins > 0
    {
      xEdges == Edges(xMin, xMax, xBins) && yEdges == Edges(yMin, yMax, yBins)
    }

    /** The counts, row by row. */
    ghost function Grid(): seq<seq<int>>
      reads counts
    {
      seq(counts.Length0, r requires 0 <= r < counts.Length0 reads counts =>
        seq(counts.Length1, c requires 0 <= c < counts.Length1 reads counts => counts[r, c]))
    }

    /** A matrix of zeros with uniformly spaced edges. */
    constructor (xBins: nat, yBins: nat, xMin: real, xMax: real, yMin: real, yMax: real)
      requires xBins > 0 && yBins > 0 && xMin < xMax && yMin < yMax
      ensures Valid() && Uniform()
      ensures this.xBins == xBins && this.yBins == yBins
      ensures this.xMin == xMin && this.xMax == xMax && this.yMin == yMin && this.yMax == yMax
      ensures fresh(counts)
      ensures Grid() == Zeros(yBins, xBins)
    {
      this.xBins, this.yBins := xBins, yBins;
      this.xMin, this.xMax, this.yMin, this.yMax := xMin, xMax, yMin, yMax;
      counts := new int[yBins, xBins]((r, c) => 0);
      var xVals := UniformEdges(xMin, xMax, xBins);
      var yVals := UniformEdges(yMin, yMax, yBins);
      xEdges, yEdges := xVals, yVals;
      EdgesIncreasing(xMin, xMax, xBins);
      EdgesIncreasing(yMin, yMax, yBins);
      new;
      assert forall r :: 0 <= r < yBins ==> Grid()[r] == Zeros(yBins, xBins)[r];
    }

    /** The cell a point is counted in: (bin of its value, bin of its position). */
    function CellOf(p: Point): Cell
    {
      Cell(BinIndex(yEdges, p.y as real), BinIndex(xEdges, p.x as real))
    }

    function CellsOf(ps: seq<Point>): seq<Cell>
    {
      seq(|ps|, j requires 0 <= j < |ps| => CellOf(ps[j]))
    }

    predicate InMatrix(cells: seq<Cell>)
    {
      forall k :: 0 <= k < |cells| ==> 0 <= cells[k].row < yBins && 0 <= cells[k].col < xBins
    }

    /** Every point lies above the first edge and at most the last, in both directions. */
    predicate WithinEdges(ps: seq<Point>)
    {
      forall j :: 0 <= j < |ps| ==> xMin < ps[j].x as real <= xMax && yMin < ps[j].y as real <= yMax
    }

    /** The cells a series increments under an alignment, in order. */
    function Cells(l: NumericList, a: Alignment): seq<Cell>
      requires Placeable(l, a)
    {
      CellsOf(Points(l, a, yBins))
    }

    /** A series the source can add without indexing outside the matrix. */
    predicate Addable(l: NumericList, a: Alignment)
    {
      Placeable(l, a) && InMatrix(Cells(l, a))
    }

    /**
     * A series is addable exactly when every point it contributes lies
     * above the first edge and at most the last, in both directions.
     */
    lemma AddableIff(l: NumericList, a: Alignment)
      requires Valid() && Placeable(l, a)
      ensures Addable(l, a) <==> WithinEdges(Points(l, a, yBins))
    {
      var ps := Points(l, a, yBins);
      var cells := CellsOf(ps);
      assert Cells(l, a) == cells;
      forall j | 0 <= j < |ps|
        ensures (0 <= cells[j].row < yBins && 0 <= cells[j].col < xBins)
            <==> (xMin < ps[j].x as real <= xMax && yMin < ps[j].y as real <= yMax)
      {
        assert cells[j] == CellOf(ps[j]);
        BinInRangeIff(xEdges, ps[j].x as real);
        BinInRangeIff(yEdges, ps[j].y as real);
      }
    }

    /**
     * Each counted element lands in the cell whose y interval holds its
     * value and whose x interval holds its position, and no other cell.
     */
    lemma CellsBracketPoints(l: NumericList, a: Alignment, j: int)
      requires Valid() && Addable(l, a)
      requires 0 <= j < |Points(l, a, yBins)|
      ensures Cells(l, a)[j] == Cell(BinIndex(yEdges, Points(l, a, yBins)[j].y as real),
                                     BinIndex(xEdges, Points(l, a, yBins)[j].x as real))
      ensures yEdges[Cells(l, a)[j].row] < Points(l, a, yBins)[j].y as real <= yEdges[Cells(l, a)[j].row + 1]
      ensures xEdges[Cells(l, a)[j].col] < Points(l, a, yBins)[j].x as real <= xEdges[Cells(l, a)[j].col + 1]
    {
      assert Cells(l, a)[j] == CellOf(Points(l, a, yBins)[j]);
    }

    /**
     * Adding a series raises the matrix total by the number of elements
     * counted: |y|, or |x| under ByX.
     */
    lemma AddedTotal(l: NumericList, a: Alignment, g: seq<seq<int>>)
      requires Placeable(l, a) && AllInGrid(g, Cells(l, a))
      ensures Total(AddAll(g, Cells(l, a))) == Total(g) + (if a == ByX then |l.x| else |l.y|)
    {
      AddAllTotal(g, Cells(l, a));
    }

    /** One increment of the count at (r, c). */
    method Increment(r: int, c: int)
      requires 0 <= r < counts.Length0 && 0 <= c < counts.Length1
      modifies counts
      ensures Grid() == Bump(old(Grid()), Cell(r, c))
    {
      ghost var g := Grid();
      counts[r, c] := counts[r, c] + 1;
      ghost var h := Bump(g, Cell(r, c));
      assert forall i :: 0 <= i < |h| ==> Grid()[i] == h[i];
    }

    /** The cells of ps all lie in the matrix as it stands. */
    lemma InMatrixIsInGrid(cells: seq<Cell>)
      requires Valid() && InMatrix(cells)
      ensures AllInGrid(Grid(), cells)
    {
    }

    /**
     * The bin lookup and increment each loop performs for one point: the
     * lower bound of each coordinate among its edges, less one, indexes
     * the cell.
     */
    method AddPoint(p: Point)
      requires Valid() && InGrid(Grid(), CellOf(p))
      modifies counts
      ensures Grid() == Bump(old(Grid()), CellOf(p))
    {
      var xLower := LowerBoundSearch(xEdges, p.x as real);
      var yLower := LowerBoundSearch(yEdges, p.y as real);
      var xInd, yInd := xLower as int - 1, yLower as int - 1;
      Increment(yInd, xInd);
    }

    /**
     * The Front, AtMax and AtMin loop: element j of toAdd goes to the
     * column of position start + j, the running index counting up.
     */
    method AddForward(toAdd: seq<int>, start: int)
      requires Valid() && InMatrix(CellsOf(Forward(toAdd, start)))
      modifies counts
      ensures AllInGrid(old(Grid()), CellsOf(Forward(toAdd, start)))
      ensures Grid() == AddAll(old(Grid()), CellsOf(Forward(toAdd, start)))
    {
      ghost var g0 := Grid();
      ghost var cells := CellsOf(Forward(toAdd, start));
      InMatrixIsInGrid(cells);
      var i := start;
      var j := 0;
      while j < |toAdd|
        invariant 0 <= j <= |toAdd| && i == start + j
        invariant Grid() == AddAll(g0, cells[..j])
      {
        var p := Point(i, toAdd[j]);
        assert cells[j] == CellOf(p) by {
          assert Forward(toAdd, start)[j] == p;
        }
        AddAllPrefixStep(g0, cells, j);
        AddPoint(p);
        i := i + 1;
        j := j + 1;
      }
      assert cells[..j] == cells;
    }

    /**
     * The Back loop: toAdd is read from its end, element |toAdd| - 1 - j
     * going to the column of position start - j, the running index counting
     * down.
     */
    method AddBackward(toAdd: seq<int>, start: int)
      requires Valid() && InMatrix(CellsOf(Backward(toAdd, start)))
      modifies counts
      ensures AllInGrid(old(Grid()), CellsOf(Backward(toAdd, start)))
      ensures Grid() == AddAll(old(Grid()), CellsOf(Backward(toAdd, start)))
    {
      ghost var g0 := Grid();
      ghost var cells := CellsOf(Backward(toAdd, start));
      InMatrixIsInGrid(cells);
      var i := start;
      var j := 0;
      while j < |toAdd|
        invariant 0 <= j <= |toAdd| && i == start - j
        invariant Grid() == AddAll(g0, cells[..j])
      {
        var k := |toAdd| - 1 - j;
        var p := Point(i, toAdd[k]);
        assert cells[j] == CellOf(p) by {
          assert Backward(toAdd, start)[j] == p;
        }
        AddAllPrefixStep(g0, cells, j);
        AddPoint(p);
        i := i - 1;
        j := j + 1;
      }
      assert cells[..j] == cells;
    }

    /** The ByX loop: pair j goes to the column of x[j] and the row of toAdd[j]. */
    method AddPaired(toAdd: seq<int>, x: seq<int>)
      requires Valid() && |x| <= |toAdd| && InMatrix(CellsOf(Paired(toAdd, x)))
      modifies counts
      ensures AllInGrid(old(Grid()), CellsOf(Paired(toAdd, x)))
      ensures Grid() == AddAll(old(Grid()), CellsOf(Paired(toAdd, x)))
    {
      ghost var g0 := Grid();
      ghost var cells := CellsOf(Paired(toAdd, x));
      InMatrixIsInGrid(cells);
      var i := 0;
      while i < |x|
        invariant 0 <= i <= |x|
        invariant Grid() == AddAll(g0, cells[..i])
      {
        var p := Point(x[i], toAdd[i]);
        assert cells[i] == CellOf(p) by {
          assert Paired(toAdd, x)[i] == p;
        }
        AddAllPrefixStep(g0, cells, i);
        AddPoint(p);
        i := i + 1;
      }
      assert cells[..i] == cells;
    }

    /**
     * Adds one series under an alignment: the cells of its points are
     * incremented in order. A series that is not addable (under ByX, more
     * x than y values; or some point outside the edges) is refused and the
     * matrix is left as it was.
     */
    method AddToHist(l: NumericList, a: Alignment) returns (ok: bool)
      requires Valid()
      modifies counts
      ensures ok <==> Addable(l, a)
      ensures ok ==> AllInGrid(old(Grid()), Cells(l, a)) && Grid() == AddAll(old(Grid()), Cells(l, a))
      ensures !ok ==> Grid() == old(Grid())
    {
      if !Addable(l, a) {
        return false;
      }
      AddAligned(l, a);
      ok := true;
    }

    /** The switch over the alignment, for a series known to be addable. */
    method AddAligned(l: NumericList, a: Alignment)
      requires Valid() && Addable(l, a)
      modifies counts
      ensures AllInGrid(old(Grid()), Cells(l, a)) && Grid() == AddAll(old(Grid()), Cells(l, a))
    {
      match a {
        case Front => AddFront(l);
        case Back => AddBack(l);
        case AtMax => AddAtExtremum(l, a);
        case AtMin => AddAtExtremum(l, a);
        case ByX => AddByX(l);
      }
    }

    /** Front: the running index starts at 0. */
    method AddFront(l: NumericList)
      requires Valid() && Addable(l, Front)
      modifies counts
      ensures AllInGrid(old(Grid()), Cells(l, Front)) && Grid() == AddAll(old(Grid()), Cells(l, Front))
    {
      assert Points(l, Front, yBins) == Forward(l.y, 0);
      AddForward(l.y, 0);
    }

    /** Back: the running index starts at the row count less one and counts down. */
    method AddBack(l: NumericList)
      requires Valid() && Addable(l, Back)
      modifies counts
      ensures AllInGrid(old(Grid()), Cells(l, Back)) && Grid() == AddAll(old(Grid()), Cells(l, Back))
    {
      var start := counts.Length0 - 1;
      assert Points(l, Back, yBins) == Backward(l.y, start);
      AddBackward(l.y, start);
    }

    /**
     * AtMax and AtMin: the running index starts at half the row count less
     * the position of the first occurrence of the series' maximum (minimum).
     */
    method AddAtExtremum(l: NumericList, a: Alignment)
      requires Valid() && (a == AtMax || a == AtMin) && Addable(l, a)
      modifies counts
      ensures AllInGrid(old(Grid()), Cells(l, a)) && Grid() == AddAll(old(Grid()), Cells(l, a))
    {
      var toAdd := l.y;
      var extremum := if a == AtMax then l.maxVal else l.minVal;
      var index := FindFirst(toAdd, extremum);
      var start := counts.Length0 / 2 - index;
      assert Points(l, a, yBins) == Forward(toAdd, start);
      AddForward(toAdd, start);
    }

    /** ByX: the series' own x values are the positions. */
    method AddByX(l: NumericList)
      requires Valid() && Addable(l, ByX)
      modifies counts
      ensures AllInGrid(old(Grid()), Cells(l, ByX)) && Grid() == AddAll(old(Grid()), Cells(l, ByX))
    {
      assert Points(l, ByX, yBins) == Paired(l.y, l.x);
      AddPaired(l.y, l.x);
    }

    /**
     * With the parameterless constructor's shape, Back places the last
     * element at position 28 - 1 = 27 (from the row count), past the last x
     * edge at 24: no series at all can be added to such a histogram with Back.
     */
    lemma DefaultShapeRefusesBack(l: NumericList)
      requires Valid()
      requires xBins == DefaultXBins && yBins == DefaultYBins
      requires xMin == DefaultXMin && xMax == DefaultXMax
      ensures !Addable(l, Back)
    {
      if Placeable(l, Back) {
        BackEndsAtLastRow(l, yBins);
        BinAboveRange(xEdges, 27.0);
        assert Cells(l, Back)[0] == CellOf(Points(l, Back, yBins)[0]);
      }
    }

    /** The cells of each series of a run, one sequence per series. */
    function CellSeqs(ls: seq<NumericList>, a: Alignment): seq<seq<Cell>>
      requires AllPlaceable(ls, a)
    {
      seq(|ls|, i requires 0 <= i < |ls| => Cells(ls[i], a))
    }

    /** The cells a run of series increments, series after series. */
    function CollectionCells(ls: seq<NumericList>, a: Alignment): seq<Cell>
      requires AllPlaceable(ls, a)
    {
      Concat(CellSeqs(ls, a))
    }

    /**
     * The same series in any order contribute the same cells, each as often:
     * the cells of a series depend on the series alone.
     */
    lemma CollectionCellsPermutation(ls: seq<NumericList>, ms: seq<NumericList>, a: Alignment)
      requires AllPlaceable(ls, a) && multiset(ls) == multiset(ms)
      ensures AllPlaceable(ms, a)
      ensures multiset(CollectionCells(ls, a)) == multiset(CollectionCells(ms, a))
    {
      forall i | 0 <= i < |ms|
        ensures Placeable(ms[i], a)
      {
        assert ms[i] in multiset(ls);
        var j :| 0 <= j < |ls| && ls[j] == ms[i];
      }
      MappedPermutation(ls, ms, CellSeqs(ls, a), CellSeqs(ms, a));
      ConcatPermutation(CellSeqs(ls, a), CellSeqs(ms, a));
    }

    /**
     * Adding a collection gives the same matrix whatever the order of its
     * members, under every alignment.
     */
    lemma CollectionOrderIndependent(g: seq<seq<int>>, ls: seq<NumericList>, ms: seq<NumericList>, a: Alignment)
      requires AllPlaceable(ls, a) && multiset(ls) == multiset(ms)
      requires AllInGrid(g, CollectionCells(ls, a))
      ensures AllPlaceable(ms, a)
      ensures AllInGrid(g, CollectionCells(ms, a))
      ensures AddAll(g, CollectionCells(ls, a)) == AddAll(g, CollectionCells(ms, a))
    {
      CollectionCellsPermutation(ls, ms, a);
      AddAllOrderIndependent(g, CollectionCells(ls, a), CollectionCells(ms, a));
    }

    /** Every member of ls can be added under a. */
    predicate AllAddable(ls: seq<NumericList>, a: Alignment)
    {
      forall i :: 0 <= i < |ls| ==> Addable(ls[i], a)
    }

    /**
     * Adds every member of a collection, in order, each as AddToHist would.
     * If any member is not addable nothing is added and the matrix is left
     * as it was.
     */
    method AddCollection(list: ListOfNumericLists, a: Alignment) returns (ok: bool)
      requires Valid()
      modifies counts
      ensures ok <==> AllAddable(list.members, a)
      ensures ok ==> AllInGrid(old(Grid()), CollectionCells(list.members, a))
      ensures ok ==> Grid() == AddAll(old(Grid()), CollectionCells(list.members, a))
      ensures !ok ==> Grid() == old(Grid())
    {
      var members := list.members;
      if !AllAddable(members, a) {
        return false;
      }
      AddMembers(members, a);
      ok := true;
    }

    /** The loop of AddCollection, over members known to be addable. */
    method AddMembers(members: seq<NumericList>, a: Alignment)
      requires Valid() && AllAddable(members, a)
      modifies counts
      ensures AllInGrid(old(Grid()), CollectionCells(members, a))
      ensures Grid() == AddAll(old(Grid()), CollectionCells(members, a))
    {
      ghost var g0 := Grid();
      ghost var css := CellSeqs(members, a);
      var i := 0;
      while i < |members|
        invariant 0 <= i <= |members|
        invariant AllInGrid(g0, Concat(css[..i]))
        invariant Grid() == AddAll(g0, Concat(css[..i]))
      {
        ghost var g := Grid();
        var m := members[i];
        assert Addable(m, a);
        var added := AddToHist(m, a);
        assert css[i] == Cells(m, a);
        ConcatStep(g0, g, css, i);
        i := i + 1;
      }
      assert css[..i] == css;
    }
  }
}

/**
 * The value a histogram's count matrix holds, as rows of columns, and the
 * effect of incrementing cells one at a time: each hit raises exactly its own
 * cell by one, so the final counts depend only on how often each cell was
 * hit, not on the order of the hits.
 */
module Grids {
  import opened SeriesStats

  /** A (row, column) position in the matrix. */
  datatype Cell = Cell(row: int, col: int)

  predicate IsGrid(g: seq<seq<int>>, rows: nat, cols: nat)
  {
    |g| == rows && forall r :: 0 <= r < rows ==> |g[r]| == cols
  }

  predicate SameShape(g: seq<seq<int>>, h: seq<seq<int>>)
  {
    |g| == |h| && forall r :: 0 <= r < |g| ==> |g[r]| == |h[r]|
  }

  predicate InGrid(g: seq<seq<int>>, c: Cell)
  {
    0 <= c.row < |g| && 0 <= c.col < |g[c.row]|
  }

  predicate AllInGrid(g: seq<seq<int>>, cells: seq<Cell>)
  {
    forall k :: 0 <= k < |cells| ==> InGrid(g, cells[k])
  }

  /** A rows-by-cols matrix of zeros. */
  function Zeros(rows: nat, cols: nat): (g: seq<seq<int>>)
    ensures IsGrid(g, rows, cols)
    ensures forall r, c :: 0 <= r < rows && 0 <= c < cols ==> g[r][c] == 0
  {
    seq(rows, r => seq(cols, c => 0))
  }

  /** One increment of cell c. */
  function Bump(g: seq<seq<int>>, c: Cell): (h: seq<seq<int>>)
    requires InGrid(g, c)
    ensures SameShape(g, h)
  {
    g[c.row := g[c.row][c.col := g[c.row][c.col] + 1]]
  }

  /** The increments of cells, one after the other, in order. */
  function AddAll(g: seq<seq<int>>, cells: seq<Cell>): (h: seq<seq<int>>)
    requires AllInGrid(g, cells)
    ensures SameShape(g, h)
  {
    if cells == [] then g
    else
      var before := AddAll(g, cells[..|cells| - 1]);
      Bump(before, cells[|cells| - 1])
  }

  /** How many times cell c occurs among cells. */
  function Hits(cells: seq<Cell>, c: Cell): nat
  {
    multiset(cells)[c]
  }

  /** The sum of every count in the matrix. */
  function Total(g: seq<seq<int>>): int
  {
    if g == [] then 0 else Total(g[..|g| - 1]) + Sum(g[|g| - 1])
  }

  /**
   * After the increments every cell holds its old count plus the number of
   * times it was hit; in particular a cell that was never hit is unchanged.
   */
  lemma {:induction false} AddAllAt(g: seq<seq<int>>, cells: seq<Cell>, r: int, c: int)
    requires AllInGrid(g, cells)
    requires 0 <= r < |g| && 0 <= c < |g[r]|
    ensures AddAll(g, cells)[r][c] == g[r][c] + Hits(cells, Cell(r, c))
  {
    if cells != [] {
      var init := cells[..|cells| - 1];
      assert cells == init + [cells[|cells| - 1]];
      AddAllAt(g, init, r, c);
    }
  }

  /**
   * Two runs of increments that hit every cell equally often leave the same
   * matrix, whatever their order.
   */
  lemma AddAllOrderIndependent(g: seq<seq<int>>, a: seq<Cell>, b: seq<Cell>)
    requires AllInGrid(g, a) && multiset(a) == multiset(b)
    ensures AllInGrid(g, b)
    ensures AddAll(g, a) == AddAll(g, b)
  {
    forall k | 0 <= k < |b|
      ensures InGrid(g, b[k])
    {
      assert b[k] in multiset(a);
    }
    var ga, gb := AddAll(g, a), AddAll(g, b);
    forall r | 0 <= r < |g|
      ensures ga[r] == gb[r]
    {
      forall c | 0 <= c < |g[r]|
        ensures ga[r][c] == gb[r][c]
      {
        AddAllAt(g, a, r, c);
        AddAllAt(g, b, r, c);
      }
    }
  }

  /** Whether cells fit depends only on the matrix's shape. */
  lemma InGridOfSameShape(g: seq<seq<int>>, h: seq<seq<int>>, cells: seq<Cell>)
    requires SameShape(g, h) && AllInGrid(h, cells)
    ensures AllInGrid(g, cells)
  {
    forall k | 0 <= k < |cells|
      ensures InGrid(g, cells[k])
    {
      assert InGrid(h, cells[k]);
    }
  }

  /** One more increment extends a prefix of a run by its next cell. */
  lemma AddAllPrefixStep(g: seq<seq<int>>, cells: seq<Cell>, j: nat)
    requires AllInGrid(g, cells) && j < |cells|
    ensures AllInGrid(g, cells[..j]) && AllInGrid(g, cells[..j + 1])
    ensures InGrid(AddAll(g, cells[..j]), cells[j])
    ensures AddAll(g, cells[..j + 1]) == Bump(AddAll(g, cells[..j]), cells[j])
  {
    assert cells[..j + 1][..j] == cells[..j];
  }

  /** Increments in two runs are the increments of the joined run. */
  lemma {:induction false} AddAllAppend(g: seq<seq<int>>, a: seq<Cell>, b: seq<Cell>)
    requires AllInGrid(g, a + b)
    ensures AllInGrid(g, a) && AllInGrid(AddAll(g, a), b)
    ensures AddAll(g, a + b) == AddAll(AddAll(g, a), b)
  {
    assert forall k :: 0 <= k < |a| ==> (a + b)[k] == a[k];
    assert forall k :: 0 <= k < |b| ==> (a + b)[|a| + k] == b[k];
    if b != [] {
      var init := b[..|b| - 1];
      assert (a + b)[..|a + b| - 1] == a + init;
      assert (a + b)[|a + b| - 1] == b[|b| - 1];
      AddAllAppend(g, a, init);
    } else {
      assert a + b == a;
    }
  }

  /** The sequences of css joined end to end, in order. */
  function Concat<T>(css: seq<seq<T>>): seq<T>
  {
    if css == [] then [] else Concat(css[..|css| - 1]) + css[|css| - 1]
  }

  lemma {:induction false} ConcatAppend<T>(css: seq<seq<T>>, dss: seq<seq<T>>)
    ensures Concat(css + dss) == Concat(css) + Concat(dss)
  {
    if dss == [] {
      assert css + dss == css;
    } else {
      var init := dss[..|dss| - 1];
      assert (css + dss)[..|css + dss| - 1] == css + init;
      ConcatAppend(css, init);
    }
  }

  /** Adding the next sequence of a run after the ones before it. */
  lemma ConcatStep(g0: seq<seq<int>>, g: seq<seq<int>>, css: seq<seq<Cell>>, i: nat)
    requires i < |css|
    requires AllInGrid(g0, Concat(css[..i])) && g == AddAll(g0, Concat(css[..i]))
    requires AllInGrid(g, css[i])
    ensures AllInGrid(g0, Concat(css[..i + 1]))
    ensures AddAll(g, css[i]) == AddAll(g0, Concat(css[..i + 1]))
  {
    var before, cells := Concat(css[..i]), css[i];
    assert Concat(css[..i + 1]) == before + cells by {
      assert css[..i + 1][..i] == css[..i];
    }
    InGridOfSameShape(g0, g, cells);
    forall k | 0 <= k < |before + cells|
      ensures InGrid(g0, (before + cells)[k])
    {
      if k >= |before| {
        assert (before + cells)[k] == cells[k - |before|];
      }
    }
    AddAllAppend(g0, before, cells);
  }

  /** Taking the same element out of two permutations of each other leaves two permutations. */
  lemma RemoveOne<T>(ls: seq<T>, ms: seq<T>, k: int)
    requires |ls| > 0 && multiset(ls) == multiset(ms)
    requires 0 <= k < |ms| && ms[k] == ls[|ls| - 1]
    ensures multiset(ls[..|ls| - 1]) == multiset(ms[..k] + ms[k + 1..])
  {
    var n := |ls| - 1;
    assert ms == ms[..k] + [ms[k]] + ms[k + 1..];
    assert ls == ls[..n] + [ls[n]];
    var x := ls[n];
    calc {
      multiset(ls[..n]);
      multiset(ls) - multiset{x};
      multiset(ms) - multiset{x};
      multiset(ms[..k]) + multiset(ms[k + 1..]);
    }
  }

  /**
   * Joining the same sequences in any order gives the same elements, each as
   * often.
   */
  lemma {:induction false} ConcatPermutation<T>(css: seq<seq<T>>, dss: seq<seq<T>>)
    requires multiset(css) == multiset(dss)
    ensures multiset(Concat(css)) == multiset(Concat(dss))
    decreases |css|
  {
    if css == [] {
      assert |multiset(dss)| == 0;
    } else {
      var n := |css| - 1;
      assert css[n] in multiset(dss);
      var k :| 0 <= k < |dss| && dss[k] == css[n];
      var before, after := dss[..k], dss[k + 1..];
      assert dss == before + ([dss[k]] + after);
      RemoveOne(css, dss, k);
      ConcatPermutation(css[..n], before + after);
      ConcatAppend(before, [dss[k]] + after);
      ConcatAppend([dss[k]], after);
      ConcatAppend(before, after);
      assert Concat([dss[k]]) == dss[k] by {
        assert [dss[k]][..0] == [];
      }
    }
  }

  /**
   * The images of two permutations of each other, taken element by element
   * under one map, are permutations of each other.
   */
  lemma {:induction false} MappedPermutation<T, U>(ls: seq<T>, ms: seq<T>, fl: seq<U>, fm: seq<U>)
    requires multiset(ls) == multiset(ms) && |fl| == |ls| && |fm| == |ms|
    requires forall i, j :: 0 <= i < |ls| && 0 <= j < |ms| && ls[i] == ms[j] ==> fl[i] == fm[j]
    ensures multiset(fl) == multiset(fm)
    decreases |ls|
  {
    if ls == [] {
      assert |multiset(ms)| == 0;
    } else {
      var n := |ls| - 1;
      assert ls[n] in multiset(ms);
      var k :| 0 <= k < |ms| && ms[k] == ls[n];
      RemoveOne(ls, ms, k);
      var rest, frest := ms[..k] + ms[k + 1..], fm[..k] + fm[k + 1..];
      forall i, j | 0 <= i < n && 0 <= j < |rest| && ls[..n][i] == rest[j]
        ensures fl[..n][i] == frest[j]
      {
        if j < k {
          assert rest[j] == ms[j] && frest[j] == fm[j];
        } else {
          assert rest[j] == ms[j + 1] && frest[j] == fm[j + 1];
        }
      }
      MappedPermutation(ls[..n], rest, fl[..n], frest);
      assert fl == fl[..n] + [fl[n]];
      assert fm == fm[..k] + [fm[k]] + fm[k + 1..];
    }
  }

  /** Raising one element of a series by one raises its sum by one. */
  lemma {:induction false} SumBump(s: seq<int>, i: int)
    requires 0 <= i < |s|
    ensures Sum(s[i := s[i] + 1]) == Sum(s) + 1
  {
    var t := s[i := s[i] + 1];
    if i < |s| - 1 {
      assert t[..|t| - 1] == s[..|s| - 1][i := s[i] + 1];
      SumBump(s[..|s| - 1], i);
    } else {
      assert t[..|t| - 1] == s[..|s| - 1];
    }
  }

  /** Replacing one row changes the total by the change in that row's sum. */
  lemma {:induction false} TotalRowUpdate(g: seq<seq<int>>, r: int, row: seq<int>)
    requires 0 <= r < |g|
    ensures Total(g[r := row]) == Total(g) - Sum(g[r]) + Sum(row)
  {
    var h := g[r := row];
    if r < |g| - 1 {
      assert h[..|h| - 1] == g[..|g| - 1][r := row];
      TotalRowUpdate(g[..|g| - 1], r, row);
    } else {
      assert h[..|h| - 1] == g[..|g| - 1];
    }
  }

  /** Each increment raises the total by exactly one. */
  lemma {:induction false} AddAllTotal(g: seq<seq<int>>, cells: seq<Cell>)
    requires AllInGrid(g, cells)
    ensures Total(AddAll(g, cells)) == Total(g) + |cells|
  {
    if cells != [] {
      var init := cells[..|cells| - 1];
      var c := cells[|cells| - 1];
      var before := AddAll(g, init);
      var row := before[c.row][c.col := before[c.row][c.col] + 1];
      assert AddAll(g, cells) == before[c.row := row];
      AddAllTotal(g, init);
      SumBump(before[c.row], c.col);
      TotalRowUpdate(before, c.row, row);
    }
  }

  /** A matrix of zeros has total zero. */
  lemma {:induction false} ZerosTotal(rows: nat, cols: nat)
    ensures Total(Zeros(rows, cols)) == 0
  {
    if rows > 0 {
      assert Zeros(rows, cols)[..rows - 1] == Zeros(rows - 1, cols);
      ZerosTotal(rows - 1, cols);
      RowOfZeros(cols);
    }
  }

  lemma {:induction false} RowOfZeros(cols: nat)
    ensures Sum(seq(cols, c => 0)) == 0
  {
    if cols > 0 {
      assert seq(cols, c => 0)[..cols - 1] == seq(cols - 1, c => 0);
      RowOfZeros(cols - 1);
    }
  }
}

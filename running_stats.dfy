/**
 * The running fields an aggregate of series keeps up to date as members are
 * appended: longest and shortest length, largest and smallest value, and the
 * x extrema. The source leaves these fields uninitialised until the first
 * write; here each is an Option that is None until then, and a max/min
 * against None is the new value itself.
 */
module RunningStats {
  import opened SeriesStats

  datatype Option<T> = None | Some(value: T)

  /** std::max(acc, v), where an unset accumulator contributes nothing. */
  function MaxInto(acc: Option<int>, v: int): (r: int)
    ensures v <= r && (acc.Some? ==> acc.value <= r)
    ensures r == v || (acc.Some? && r == acc.value)
  {
    if acc.Some? && acc.value > v then acc.value else v
  }

  /** std::min(acc, v), where an unset accumulator contributes nothing. */
  function MinInto(acc: Option<int>, v: int): (r: int)
    ensures r <= v && (acc.Some? ==> r <= acc.value)
    ensures r == v || (acc.Some? && r == acc.value)
  {
    if acc.Some? && acc.value < v then acc.value else v
  }

  function Max(a: int, b: int): int { if a >= b then a else b }
  function Min(a: int, b: int): int { if a <= b then a else b }

  /** The public extrema a series exposes: length, y extrema and x extrema. */
  datatype Extrema = Extrema(length: int, maxVal: int, minVal: int, maxX: int, minX: int)

  datatype Running = Running(maxLength: Option<int>, minLength: Option<int>,
                             maxVal: Option<int>, minVal: Option<int>,
                             maxX: Option<int>, minX: Option<int>)

  /** The running fields before anything has been written to them. */
  const Unset := Running(None, None, None, None, None, None)

  /**
   * The update an append performs. The length and value extrema take the
   * max/min of their old value and the new series'; the x extrema compare the
   * new series' x extremum against the (just updated) VALUE accumulator, not
   * against the old x accumulator.
   */
  function Absorb(r: Running, e: Extrema): Running
  {
    var maxVal := MaxInto(r.maxVal, e.maxVal);
    var minVal := MinInto(r.minVal, e.minVal);
    Running(Some(MaxInto(r.maxLength, e.length)), Some(MinInto(r.minLength, e.length)),
            Some(maxVal), Some(minVal),
            Some(Max(maxVal, e.maxX)), Some(Min(minVal, e.minX)))
  }

  /** The running fields after appending each of es, in order. */
  function AbsorbAll(r: Running, es: seq<Extrema>): Running
  {
    if es == [] then r else Absorb(AbsorbAll(r, es[..|es| - 1]), es[|es| - 1])
  }

  function Lengths(es: seq<Extrema>): seq<int>
  {
    seq(|es|, i requires 0 <= i < |es| => es[i].length)
  }

  function MaxVals(es: seq<Extrema>): seq<int>
  {
    seq(|es|, i requires 0 <= i < |es| => es[i].maxVal)
  }

  function MinVals(es: seq<Extrema>): seq<int>
  {
    seq(|es|, i requires 0 <= i < |es| => es[i].minVal)
  }

  /**
   * Appending a non-empty run of series to unset fields leaves the longest
   * and shortest length, the largest of the maxima and the smallest of the
   * minima; but the x extrema only reflect the last series appended, against
   * the value extrema.
   */
  lemma {:induction false} AbsorbAllFromUnset(es: seq<Extrema>)
    requires |es| > 0
    ensures AbsorbAll(Unset, es).maxLength == Some(MaxOf(Lengths(es)))
    ensures AbsorbAll(Unset, es).minLength == Some(MinOf(Lengths(es)))
    ensures AbsorbAll(Unset, es).maxVal == Some(MaxOf(MaxVals(es)))
    ensures AbsorbAll(Unset, es).minVal == Some(MinOf(MinVals(es)))
    ensures AbsorbAll(Unset, es).maxX == Some(Max(MaxOf(MaxVals(es)), es[|es| - 1].maxX))
    ensures AbsorbAll(Unset, es).minX == Some(Min(MinOf(MinVals(es)), es[|es| - 1].minX))
  {
    var init := es[..|es| - 1];
    assert Lengths(es)[..|es| - 1] == Lengths(init);
    assert MaxVals(es)[..|es| - 1] == MaxVals(init);
    assert MinVals(es)[..|es| - 1] == MinVals(init);
    if init != [] {
      AbsorbAllFromUnset(init);
    }
  }

  /**
   * The x accumulator forgets earlier series: after a series with x up to 100
   * and then one with x up to 1 (both with values 0), the running maximum x
   * is 1.
   */
  lemma RunningMaxXForgetsEarlierMembers()
    ensures AbsorbAll(Unset, [Extrema(1, 0, 0, 100, 100), Extrema(1, 0, 0, 1, 1)]).maxX == Some(1)
  {
    var es := [Extrema(1, 0, 0, 100, 100), Extrema(1, 0, 0, 1, 1)];
    assert es[..1] == [Extrema(1, 0, 0, 100, 100)] && es[..1][..0] == [];
  }

  /** Folding std::max over vs, starting from acc (the length refresh during concatenation). */
  function MaxIntoAll(acc: Option<int>, vs: seq<int>): Option<int>
  {
    if vs == [] then acc else Some(MaxInto(MaxIntoAll(acc, vs[..|vs| - 1]), vs[|vs| - 1]))
  }

  /** Folding std::min over vs, starting from acc. */
  function MinIntoAll(acc: Option<int>, vs: seq<int>): Option<int>
  {
    if vs == [] then acc else Some(MinInto(MinIntoAll(acc, vs[..|vs| - 1]), vs[|vs| - 1]))
  }

  /**
   * Refreshing an accumulator that is unset or already holds one of the
   * values over all the values leaves exactly their maximum and minimum.
   */
  lemma {:induction false} RefreshFromMember(hi: Option<int>, lo: Option<int>, vs: seq<int>)
    requires |vs| > 0
    requires hi.Some? ==> hi.value in vs
    requires lo.Some? ==> lo.value in vs
    ensures MaxIntoAll(hi, vs) == Some(MaxOf(vs))
    ensures MinIntoAll(lo, vs) == Some(MinOf(vs))
  {
    FoldIsExtremum(hi, lo, vs);
  }

  lemma {:induction false} FoldIsExtremum(hi: Option<int>, lo: Option<int>, vs: seq<int>)
    requires |vs| > 0
    ensures MaxIntoAll(hi, vs) == Some(MaxInto(hi, MaxOf(vs)))
    ensures MinIntoAll(lo, vs) == Some(MinInto(lo, MinOf(vs)))
  {
    var init := vs[..|vs| - 1];
    if init != [] {
      FoldIsExtremum(hi, lo, init);
    }
  }
}

/**
 * VectorOfNumericVectors: an append-only collection of NumericVector series
 * with running length and value extrema, a concatenation of all members into
 * one series, and a six-value summary.
 *
 * Both constructors clear the "stats current" flag and nothing sets it, and
 * the "was concatenated" flag is never set either: so every summary and every
 * request for the concatenation rebuilds it from the members, and the
 * incremental re-concatenation in AddToVector never runs.
 */
module VectorsOfNumericVectors {
  import opened SeriesStats
  import opened RunningStats
  import opened NumericVectors

  /** The extrema a member exposes to the running fields. */
  function BoundsOf(v: NumericVector): Extrema
  {
    Extrema(v.length, v.maxY, v.minY, v.maxX, v.minX)
  }

  function Bounds(vs: seq<NumericVector>): seq<Extrema>
  {
    seq(|vs|, i requires 0 <= i < |vs| => BoundsOf(vs[i]))
  }

  function Ys(vs: seq<NumericVector>): seq<seq<int>>
  {
    seq(|vs|, i requires 0 <= i < |vs| => vs[i].y)
  }

  function Xs(vs: seq<NumericVector>): seq<seq<int>>
  {
    seq(|vs|, i requires 0 <= i < |vs| => vs[i].x)
  }

  predicate AllWellFormed(vs: seq<NumericVector>)
  {
    forall i :: 0 <= i < |vs| ==> vs[i].WellFormed()
  }

  /**
   * The largest of the members' maxima is the largest value of the
   * concatenation, and likewise for minima: the running value extrema and
   * the ones re-derived from the concatenation agree.
   */
  lemma MemberExtremaAreFlattenExtrema(vs: seq<NumericVector>)
    requires |vs| > 0 && AllWellFormed(vs)
    ensures AllNonEmpty(Ys(vs))
    ensures |Flatten(Ys(vs))| > 0
    ensures MaxOf(MaxVals(Bounds(vs))) == MaxOf(Flatten(Ys(vs)))
    ensures MinOf(MinVals(Bounds(vs))) == MinOf(Flatten(Ys(vs)))
  {
    MemberExtremaInOrder(vs);
    ExtremaOfFlatten(Ys(vs));
  }

  /** Each member's extrema, in member order, are the extrema of its values. */
  lemma MemberExtremaInOrder(vs: seq<NumericVector>)
    requires AllWellFormed(vs)
    ensures AllNonEmpty(Ys(vs))
    ensures MaxVals(Bounds(vs)) == Maxima(Ys(vs)) && MinVals(Bounds(vs)) == Minima(Ys(vs))
  {
    forall i | 0 <= i < |vs|
      ensures |Ys(vs)[i]| > 0
      ensures MaxVals(Bounds(vs))[i] == Maxima(Ys(vs))[i] && MinVals(Bounds(vs))[i] == Minima(Ys(vs))[i]
    {
      assert vs[i].WellFormed();
    }
  }

  /** Joining at least one non-empty series gives a non-empty series as long as all of them together. */
  lemma JoinedIsNonEmpty(vs: seq<NumericVector>)
    requires |vs| > 0 && AllWellFormed(vs)
    ensures |Flatten(Ys(vs))| == TotalLength(Ys(vs)) > 0
    ensures |Flatten(Xs(vs))| == TotalLength(Xs(vs)) > 0
  {
    FlattenLength(Ys(vs));
    FlattenLength(Xs(vs));
    assert Ys(vs)[|vs| - 1] == vs[|vs| - 1].y && Xs(vs)[|vs| - 1] == vs[|vs| - 1].x;
  }

  /** Appending a member extends the per-member sequences by its entry. */
  lemma AppendMember(vs: seq<NumericVector>, v: NumericVector)
    ensures Bounds(vs + [v]) == Bounds(vs) + [BoundsOf(v)]
    ensures Lengths(Bounds(vs + [v])) == Lengths(Bounds(vs)) + [v.length]
  {
    assert Bounds(vs + [v]) == Bounds(vs) + [BoundsOf(v)];
  }

  /** One step of the concatenation loop: member i's values go after those of the members before it. */
  lemma ConcatenateStep(vs: seq<NumericVector>, i: nat, hi: Option<int>, lo: Option<int>)
    requires i < |vs| && vs[i].WellFormed()
    ensures Flatten(Ys(vs)[..i + 1]) == Flatten(Ys(vs)[..i]) + vs[i].y
    ensures Flatten(Xs(vs)[..i + 1]) == Flatten(Xs(vs)[..i]) + vs[i].x
    ensures MaxIntoAll(hi, Lengths(Bounds(vs))[..i + 1])
         == Some(MaxInto(MaxIntoAll(hi, Lengths(Bounds(vs))[..i]), |vs[i].y|))
    ensures MinIntoAll(lo, Lengths(Bounds(vs))[..i + 1])
         == Some(MinInto(MinIntoAll(lo, Lengths(Bounds(vs))[..i]), |vs[i].y|))
  {
    assert Ys(vs)[..i + 1][..i] == Ys(vs)[..i];
    assert Xs(vs)[..i + 1][..i] == Xs(vs)[..i];
    assert Lengths(Bounds(vs))[..i + 1][..i] == Lengths(Bounds(vs))[..i];
  }

  /**
   * The loop of Concatenate: appends each member's y values, and x values, in
   * member order, and folds each member's length into the length bounds.
   */
  method JoinMembers(vs: seq<NumericVector>, hi: Option<int>, lo: Option<int>)
    returns (toConcatY: seq<int>, toConcatX: seq<int>, maxLength: Option<int>, minLength: Option<int>)
    requires AllWellFormed(vs)
    ensures toConcatY == Flatten(Ys(vs)) && toConcatX == Flatten(Xs(vs))
    ensures maxLength == MaxIntoAll(hi, Lengths(Bounds(vs)))
    ensures minLength == MinIntoAll(lo, Lengths(Bounds(vs)))
  {
    toConcatY, toConcatX := [], [];
    maxLength, minLength := hi, lo;
    ghost var lengths := Lengths(Bounds(vs));
    var i := 0;
    while i < |vs|
      invariant 0 <= i <= |vs|
      invariant toConcatY == Flatten(Ys(vs)[..i])
      invariant toConcatX == Flatten(Xs(vs)[..i])
      invariant maxLength == MaxIntoAll(hi, lengths[..i])
      invariant minLength == MinIntoAll(lo, lengths[..i])
    {
      var yHolder, xHolder := vs[i].y, vs[i].x;
      ConcatenateStep(vs, i, hi, lo);
      toConcatY := toConcatY + yHolder;
      toConcatX := toConcatX + xHolder;
      var newLength := |yHolder|;
      maxLength := Some(MaxInto(maxLength, newLength));
      minLength := Some(MinInto(minLength, newLength));
      i := i + 1;
    }
    assert Ys(vs)[..i] == Ys(vs) && Xs(vs)[..i] == Xs(vs);
    assert lengths[..i] == lengths;
  }

  /**
   * Concatenate's work: the joined series, built as a new NumericVector, and
   * the length bounds refreshed from every member. When each bound is unset
   * or already the length of some member, the refreshed bounds are the
   * longest and shortest member length.
   */
  method JoinAndRefresh(vs: seq<NumericVector>, hi: Option<int>, lo: Option<int>)
    returns (c: NumericVector, maxLength: Option<int>, minLength: Option<int>)
    requires |vs| > 0 && AllWellFormed(vs)
    requires hi.Some? ==> hi.value in Lengths(Bounds(vs))
    requires lo.Some? ==> lo.value in Lengths(Bounds(vs))
    ensures fresh(c) && c.WellFormed()
    ensures c.y == Flatten(Ys(vs)) && c.x == Flatten(Xs(vs))
    ensures c.length == TotalLength(Ys(vs))
    ensures maxLength == Some(MaxOf(Lengths(Bounds(vs))))
    ensures minLength == Some(MinOf(Lengths(Bounds(vs))))
  {
    var toConcatY, toConcatX;
    toConcatY, toConcatX, maxLength, minLength := JoinMembers(vs, hi, lo);
    RefreshFromMember(hi, lo, Lengths(Bounds(vs)));
    JoinedIsNonEmpty(vs);
    c := new NumericVector(toConcatY, toConcatX);
  }

  class VectorOfNumericVectors {
    var members: seq<NumericVector>
    var concatenated: NumericVector?
    var wasConcatenated: bool
    var statsCurrent: bool
    var running: Running

    /**
     * Members are well-formed series, the two flags are clear, and each
     * running length bound, once set, is the length of some member.
     */
    ghost predicate Valid()
      reads this
    {
      && AllWellFormed(members)
      && !wasConcatenated && !statsCurrent
      && (running.maxLength.Some? ==> running.maxLength.value in Lengths(Bounds(members)))
      && (running.minLength.Some? ==> running.minLength.value in Lengths(Bounds(members)))
    }

    /** An empty collection; nothing has been written to the running fields. */
    constructor ()
      ensures Valid() && members == [] && concatenated == null && running == Unset
    {
      members := [];
      concatenated := null;
      wasConcatenated, statsCurrent := false, false;
      running := Unset;
    }

    /** A collection holding vec; the running fields are left unset. */
    constructor FromSeries(vec: seq<NumericVector>)
      requires AllWellFormed(vec)
      ensures Valid() && members == vec && concatenated == null && running == Unset
    {
      members := vec;
      concatenated := null;
      wasConcatenated, statsCurrent := false, false;
      running := Unset;
    }

    /**
     * Appends s after the existing members, which stay as they were, and
     * folds its length and extrema into the running fields.
     */
    method AddToVector(s: NumericVector)
      requires Valid() && s.WellFormed()
      modifies this`members, this`running
      ensures Valid()
      ensures members == old(members) + [s]
      ensures running == Absorb(old(running), BoundsOf(s))
    {
      AppendMember(members, s);
      members := members + [s];
      running := Absorb(running, BoundsOf(s));
    }

    /**
     * Joins every member's y values, in member order, and likewise the x
     * values, into a new series; along the way the running length bounds are
     * refreshed from every member.
     */
    method Concatenate()
      requires Valid() && |members| > 0
      modifies this`concatenated, this`running
      ensures Valid()
      ensures concatenated != null && fresh(concatenated) && concatenated.WellFormed()
      ensures concatenated.y == Flatten(Ys(members)) && concatenated.x == Flatten(Xs(members))
      ensures concatenated.length == TotalLength(Ys(members))
      ensures running == old(running).(maxLength := Some(MaxOf(Lengths(Bounds(members)))),
                                       minLength := Some(MinOf(Lengths(Bounds(members)))))
    {
      var c, maxLength, minLength := JoinAndRefresh(members, running.maxLength, running.minLength);
      running := running.(maxLength := maxLength, minLength := minLength);
      concatenated := c;
    }

    /**
     * The concatenation of all members; rebuilt on every call, so two calls
     * with no append between them yield series with the same values.
     */
    method GetConcatenated() returns (c: NumericVector)
      requires Valid() && |members| > 0
      modifies this`concatenated, this`running
      ensures Valid()
      ensures c == concatenated && fresh(c)
      ensures c.y == Flatten(Ys(members)) && c.x == Flatten(Xs(members))
      ensures c.length == TotalLength(Ys(members))
      ensures running == old(running).(maxLength := Some(MaxOf(Lengths(Bounds(members)))),
                                       minLength := Some(MinOf(Lengths(Bounds(members)))))
    {
      if !wasConcatenated {
        Concatenate();
      }
      c := concatenated;
    }

    /**
     * (longest, shortest, largest value, smallest value, largest x, smallest
     * x) over all members. The value and x extrema are taken from the
     * concatenation, so they are the extrema over every member's values.
     */
    method GetSummaryVals() returns (summary: seq<real>)
      requires Valid() && |members| > 0
      modifies this`concatenated, this`running
      ensures Valid()
      ensures summary == [MaxOf(Lengths(Bounds(members))) as real, MinOf(Lengths(Bounds(members))) as real,
                          MaxOf(Flatten(Ys(members))) as real, MinOf(Flatten(Ys(members))) as real,
                          MaxOf(Flatten(Xs(members))) as real, MinOf(Flatten(Xs(members))) as real]
      ensures running == Running(Some(MaxOf(Lengths(Bounds(members)))), Some(MinOf(Lengths(Bounds(members)))),
                                 Some(MaxOf(Flatten(Ys(members)))), Some(MinOf(Flatten(Ys(members)))),
                                 Some(MaxOf(Flatten(Xs(members)))), Some(MinOf(Flatten(Xs(members)))))
      ensures concatenated != null && fresh(concatenated)
      ensures concatenated.y == Flatten(Ys(members)) && concatenated.x == Flatten(Xs(members))
    {
      if !statsCurrent {
        Concatenate();
        running := running.(maxVal := Some(concatenated.maxY), minVal := Some(concatenated.minY),
                            maxX := Some(concatenated.maxX), minX := Some(concatenated.minX));
      }
      summary := [running.maxLength.value as real, running.minLength.value as real,
                  running.maxVal.value as real, running.minVal.value as real,
                  running.maxX.value as real, running.minX.value as real];
    }
  }
}

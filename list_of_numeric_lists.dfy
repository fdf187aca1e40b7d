/**
 * ListOfNumericLists: an append-only collection of NumericList series with
 * running length and value extrema, a concatenation of all members into one
 * series, and a six-value summary.
 *
 * Unlike its vector counterpart, the default constructor sets the "stats
 * current" flag, and with it set the summary is read straight from the
 * running fields that each append updates; the list constructor clears the
 * flag, and then the summary re-derives the value and x extrema from a fresh
 * concatenation. The "was concatenated" flag is never set, so the
 * re-concatenation inside AddToList never runs.
 */
module ListsOfNumericLists {
  import opened SeriesStats
  import opened RunningStats
  import opened NumericLists

  /** The extrema a member exposes to the running fields. */
  function BoundsOf(l: NumericList): Extrema
  {
    Extrema(l.length, l.maxVal, l.minVal, l.maxX, l.minX)
  }

  function Bounds(ls: seq<NumericList>): seq<Extrema>
  {
    seq(|ls|, i requires 0 <= i < |ls| => BoundsOf(ls[i]))
  }

  function Ys(ls: seq<NumericList>): seq<seq<int>>
  {
    seq(|ls|, i requires 0 <= i < |ls| => ls[i].y)
  }

  function Xs(ls: seq<NumericList>): seq<seq<int>>
  {
    seq(|ls|, i requires 0 <= i < |ls| => ls[i].x)
  }

  predicate AllWellFormed(ls: seq<NumericList>)
  {
    forall i :: 0 <= i < |ls| ==> ls[i].WellFormed()
  }

  /** Each member's extrema, in member order, are the extrema of its values. */
  lemma MemberExtremaInOrder(ls: seq<NumericList>)
    requires AllWellFormed(ls)
    ensures AllNonEmpty(Ys(ls))
    ensures MaxVals(Bounds(ls)) == Maxima(Ys(ls)) && MinVals(Bounds(ls)) == Minima(Ys(ls))
  {
    forall i | 0 <= i < |ls|
      ensures |Ys(ls)[i]| > 0
      ensures MaxVals(Bounds(ls))[i] == Maxima(Ys(ls))[i] && MinVals(Bounds(ls))[i] == Minima(Ys(ls))[i]
    {
      assert ls[i].WellFormed();
    }
  }

  /**
   * The largest of the members' maxima is the largest value of the
   * concatenation, and likewise for minima.
   */
  lemma MemberExtremaAreFlattenExtrema(ls: seq<NumericList>)
    requires |ls| > 0 && AllWellFormed(ls)
    ensures |Flatten(Ys(ls))| > 0
    ensures MaxOf(MaxVals(Bounds(ls))) == MaxOf(Flatten(Ys(ls)))
    ensures MinOf(MinVals(Bounds(ls))) == MinOf(Flatten(Ys(ls)))
  {
    MemberExtremaInOrder(ls);
    ExtremaOfFlatten(Ys(ls));
  }

  /** Joining at least one non-empty series gives a non-empty series as long as all of them together. */
  lemma JoinedIsNonEmpty(ls: seq<NumericList>)
    requires |ls| > 0 && AllWellFormed(ls)
    ensures |Flatten(Ys(ls))| == TotalLength(Ys(ls)) > 0
    ensures |Flatten(Xs(ls))| == TotalLength(Xs(ls)) > 0
  {
    FlattenLength(Ys(ls));
    FlattenLength(Xs(ls));
    assert Ys(ls)[|ls| - 1] == ls[|ls| - 1].y && Xs(ls)[|ls| - 1] == ls[|ls| - 1].x;
  }

  /** Appending a member extends the per-member sequences by its entry. */
  lemma AppendMember(ls: seq<NumericList>, l: NumericList)
    ensures Bounds(ls + [l]) == Bounds(ls) + [BoundsOf(l)]
    ensures Lengths(Bounds(ls + [l])) == Lengths(Bounds(ls)) + [l.length]
    ensures AbsorbAll(Unset, Bounds(ls + [l])) == Absorb(AbsorbAll(Unset, Bounds(ls)), BoundsOf(l))
  {
    assert Bounds(ls + [l]) == Bounds(ls) + [BoundsOf(l)];
    assert Bounds(ls + [l])[..|ls|] == Bounds(ls);
  }

  /** One step of the concatenation loop: member i's values go after those of the members before it. */
  lemma ConcatenateStep(ls: seq<NumericList>, i: nat, hi: Option<int>, lo: Option<int>)
    requires i < |ls| && ls[i].WellFormed()
    ensures Flatten(Ys(ls)[..i + 1]) == Flatten(Ys(ls)[..i]) + ls[i].y
    ensures Flatten(Xs(ls)[..i + 1]) == Flatten(Xs(ls)[..i]) + ls[i].x
    ensures MaxIntoAll(hi, Lengths(Bounds(ls))[..i + 1])
         == Some(MaxInto(MaxIntoAll(hi, Lengths(Bounds(ls))[..i]), |ls[i].y|))
    ensures MinIntoAll(lo, Lengths(Bounds(ls))[..i + 1])
         == Some(MinInto(MinIntoAll(lo, Lengths(Bounds(ls))[..i]), |ls[i].y|))
  {
    assert Ys(ls)[..i + 1][..i] == Ys(ls)[..i];
    assert Xs(ls)[..i + 1][..i] == Xs(ls)[..i];
    assert Lengths(Bounds(ls))[..i + 1][..i] == Lengths(Bounds(ls))[..i];
  }

  /**
   * The loop of Concatenate: appends each member's y values, and x values, in
   * member order; when refresh is set (the flag is clear) it also folds each
   * member's length into the length bounds, and otherwise leaves them alone.
   */
  method JoinMembers(ls: seq<NumericList>, refresh: bool, hi: Option<int>, lo: Option<int>)
    returns (toConcatY: seq<int>, toConcatX: seq<int>, maxLength: Option<int>, minLength: Option<int>)
    requires AllWellFormed(ls)
    ensures toConcatY == Flatten(Ys(ls)) && toConcatX == Flatten(Xs(ls))
    ensures maxLength == if refresh then MaxIntoAll(hi, Lengths(Bounds(ls))) else hi
    ensures minLength == if refresh then MinIntoAll(lo, Lengths(Bounds(ls))) else lo
  {
    toConcatY, toConcatX := [], [];
    maxLength, minLength := hi, lo;
    ghost var lengths := Lengths(Bounds(ls));
    var i := 0;
    while i < |ls|
      invariant 0 <= i <= |ls|
      invariant toConcatY == Flatten(Ys(ls)[..i])
      invariant toConcatX == Flatten(Xs(ls)[..i])
      invariant maxLength == if refresh then MaxIntoAll(hi, lengths[..i]) else hi
      invariant minLength == if refresh then MinIntoAll(lo, lengths[..i]) else lo
    {
      var yHolder, xHolder := ls[i].y, ls[i].x;
      ConcatenateStep(ls, i, hi, lo);
      toConcatY := toConcatY + yHolder;
      toConcatX := toConcatX + xHolder;
      if refresh {
        var newLength := |yHolder|;
        maxLength := Some(MaxInto(maxLength, newLength));
        minLength := Some(MinInto(minLength, newLength));
      }
      i := i + 1;
    }
    assert Ys(ls)[..i] == Ys(ls) && Xs(ls)[..i] == Xs(ls);
    assert lengths[..i] == lengths;
  }

  /**
   * Concatenate's work: the joined series, built as a new NumericList, and
   * the length bounds, refreshed from every member when refresh is set. When
   * each bound is unset or already the length of some member, the refreshed
   * bounds are the longest and shortest member length.
   */
  method JoinAndRefresh(ls: seq<NumericList>, refresh: bool, hi: Option<int>, lo: Option<int>)
    returns (c: NumericList, maxLength: Option<int>, minLength: Option<int>)
    requires |ls| > 0 && AllWellFormed(ls)
    requires hi.Some? ==> hi.value in Lengths(Bounds(ls))
    requires lo.Some? ==> lo.value in Lengths(Bounds(ls))
    ensures fresh(c) && c.WellFormed()
    ensures c.y == Flatten(Ys(ls)) && c.x == Flatten(Xs(ls))
    ensures c.length == TotalLength(Ys(ls))
    ensures maxLength == if refresh then Some(MaxOf(Lengths(Bounds(ls)))) else hi
    ensures minLength == if refresh then Some(MinOf(Lengths(Bounds(ls)))) else lo
  {
    var toConcatY, toConcatX;
    toConcatY, toConcatX, maxLength, minLength := JoinMembers(ls, refresh, hi, lo);
    RefreshFromMember(hi, lo, Lengths(Bounds(ls)));
    JoinedIsNonEmpty(ls);
    c := new NumericList(toConcatY, toConcatX);
  }

  class ListOfNumericLists {
    var members: seq<NumericList>
    var concatenated: NumericList?
    var wasConcatenated: bool
    var statsCurrent: bool
    var running: Running

    /**
     * Members are well-formed series, the "was concatenated" flag is clear,
     * each running length bound, once set, is the length of some member, and
     * while the "stats current" flag is set the running fields are exactly
     * what appending every member in order produces.
     */
    ghost predicate Valid()
      reads this
    {
      && AllWellFormed(members)
      && !wasConcatenated
      && (running.maxLength.Some? ==> running.maxLength.value in Lengths(Bounds(members)))
      && (running.minLength.Some? ==> running.minLength.value in Lengths(Bounds(members)))
      && (statsCurrent ==> running == AbsorbAll(Unset, Bounds(members)))
    }

    /** An empty collection whose (unset) running fields count as current. */
    constructor ()
      ensures Valid() && members == [] && concatenated == null
      ensures statsCurrent && running == Unset
    {
      members := [];
      concatenated := null;
      wasConcatenated, statsCurrent := false, true;
      running := Unset;
    }

    /** A collection holding list; the running fields are unset and not current. */
    constructor FromSeries(list: seq<NumericList>)
      requires AllWellFormed(list)
      ensures Valid() && members == list && concatenated == null
      ensures !statsCurrent && running == Unset
    {
      members := list;
      concatenated := null;
      wasConcatenated, statsCurrent := false, false;
      running := Unset;
    }

    /**
     * Appends l after the existing members, which stay as they were, and
     * folds its length and extrema into the running fields.
     */
    method AddToList(l: NumericList)
      requires Valid() && l.WellFormed()
      modifies this`members, this`running
      ensures Valid()
      ensures members == old(members) + [l]
      ensures running == Absorb(old(running), BoundsOf(l))
    {
      AppendMember(members, l);
      members := members + [l];
      running := Absorb(running, BoundsOf(l));
    }

    /**
     * Joins every member's y values, in member order, and likewise the x
     * values, into a new series. Only when the running fields are not current
     * are the length bounds refreshed from every member along the way.
     */
    method Concatenate()
      requires Valid() && |members| > 0
      modifies this`concatenated, this`running
      ensures Valid()
      ensures concatenated != null && fresh(concatenated) && concatenated.WellFormed()
      ensures concatenated.y == Flatten(Ys(members)) && concatenated.x == Flatten(Xs(members))
      ensures concatenated.length == TotalLength(Ys(members))
      ensures statsCurrent ==> running == old(running)
      ensures !statsCurrent ==> running == old(running).(maxLength := Some(MaxOf(Lengths(Bounds(members)))),
                                                         minLength := Some(MinOf(Lengths(Bounds(members)))))
    {
      var c, maxLength, minLength := JoinAndRefresh(members, !statsCurrent, running.maxLength, running.minLength);
      if !statsCurrent {
        running := running.(maxLength := maxLength, minLength := minLength);
      }
      concatenated := c;
    }

    /** The concatenation of all members, rebuilt on every call. */
    method GetConcatenated() returns (c: NumericList)
      requires Valid() && |members| > 0
      modifies this`concatenated, this`running
      ensures Valid()
      ensures c == concatenated && fresh(c)
      ensures c.y == Flatten(Ys(members)) && c.x == Flatten(Xs(members))
      ensures c.length == TotalLength(Ys(members))
      ensures statsCurrent ==> running == old(running)
      ensures !statsCurrent ==> running == old(running).(maxLength := Some(MaxOf(Lengths(Bounds(members)))),
                                                         minLength := Some(MinOf(Lengths(Bounds(members)))))
    {
      if !wasConcatenated {
        Concatenate();
      }
      c := concatenated;
    }

    /**
     * (longest, shortest, largest value, smallest value, largest x, smallest
     * x) over all members. Either way the length and value entries are the
     * extrema over all members. While the running fields are current the x
     * entries are whatever the last append left there: the last member's x
     * extremum compared against the value extremum. Otherwise they are taken
     * from the concatenation, so they are the x extrema over all members.
     */
    method GetSummaryVals() returns (summary: seq<real>)
      requires Valid() && |members| > 0
      modifies this`concatenated, this`running
      ensures Valid()
      ensures statsCurrent ==> (summary ==
        [MaxOf(Lengths(Bounds(members))) as real, MinOf(Lengths(Bounds(members))) as real,
         MaxOf(Flatten(Ys(members))) as real, MinOf(Flatten(Ys(members))) as real,
         Max(MaxOf(Flatten(Ys(members))), members[|members| - 1].maxX) as real,
         Min(MinOf(Flatten(Ys(members))), members[|members| - 1].minX) as real])
      ensures !statsCurrent ==> (summary ==
        [MaxOf(Lengths(Bounds(members))) as real, MinOf(Lengths(Bounds(members))) as real,
         MaxOf(Flatten(Ys(members))) as real, MinOf(Flatten(Ys(members))) as real,
         MaxOf(Flatten(Xs(members))) as real, MinOf(Flatten(Xs(members))) as real])
      ensures statsCurrent ==> running == old(running) && concatenated == old(concatenated)
      ensures !statsCurrent ==> (running ==
        Running(Some(MaxOf(Lengths(Bounds(members)))), Some(MinOf(Lengths(Bounds(members)))),
                Some(MaxOf(Flatten(Ys(members)))), Some(MinOf(Flatten(Ys(members)))),
                Some(MaxOf(Flatten(Xs(members)))), Some(MinOf(Flatten(Xs(members))))))
      ensures !statsCurrent ==> concatenated != null && fresh(concatenated)
      ensures !statsCurrent ==> concatenated.y == Flatten(Ys(members)) && concatenated.x == Flatten(Xs(members))
    {
      if !statsCurrent {
        Concatenate();
        running := running.(maxVal := Some(concatenated.maxVal), minVal := Some(concatenated.minVal),
                            maxX := Some(concatenated.maxX), minX := Some(concatenated.minX));
      } else {
        CurrentRunningFields(members);
      }
      summary := [running.maxLength.value as real, running.minLength.value as real,
                  running.maxVal.value as real, running.minVal.value as real,
                  running.maxX.value as real, running.minX.value as real];
    }
  }

  /**
   * The running fields after appending every member to unset fields: the
   * longest and shortest member, the extrema over every member's values, and
   * for x the last member's x extremum against those value extrema.
   */
  lemma CurrentRunningFields(ls: seq<NumericList>)
    requires |ls| > 0 && AllWellFormed(ls)
    ensures AbsorbAll(Unset, Bounds(ls)) ==
      Running(Some(MaxOf(Lengths(Bounds(ls)))), Some(MinOf(Lengths(Bounds(ls)))),
              Some(MaxOf(Flatten(Ys(ls)))), Some(MinOf(Flatten(Ys(ls)))),
              Some(Max(MaxOf(Flatten(Ys(ls))), ls[|ls| - 1].maxX)),
              Some(Min(MinOf(Flatten(Ys(ls))), ls[|ls| - 1].minX)))
  {
    AbsorbAllFromUnset(Bounds(ls));
    MemberExtremaAreFlattenExtrema(ls);
  }
}

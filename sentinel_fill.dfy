/** The warm-up fill of the chart components: a `reduce` over the chart points
    that replaces each `-1` value by the value of the point it has just pushed,
    or by 0 when it has pushed none. The chart modal and the small real-time
    chart run the same fold. */
module SentinelFill {
  import opened Values

  /** One step of the fold: a sentinel point takes the value of the last point
      pushed so far (0 when none), any other point is pushed as it is. */
  function FillStep(acc: seq<Point>, point: Point): Point {
    if point.value == Sentinel then
      point.(value := if |acc| > 0 then acc[|acc| - 1].value else Num(0.0))
    else point
  }

  /** The fold, one point at a time from the front: the accumulator after the
      last point is the accumulator after the others with one more point pushed. */
  function Fill(points: seq<Point>): (filled: seq<Point>)
    ensures |filled| == |points|
    decreases |points|
  {
    if points == [] then []
    else
      var acc := Fill(points[..|points| - 1]);
      acc + [FillStep(acc, points[|points| - 1])]
  }

  /** No point of the list holds the sentinel. */
  predicate SentinelFree(points: seq<Point>) {
    forall i :: 0 <= i < |points| ==> points[i].value != Sentinel
  }

  /** Reference definition: the value of the last point that is not the
      sentinel, or 0 when there is none. */
  function LastReading(points: seq<Point>): Value
    decreases |points|
  {
    if points == [] then Num(0.0)
    else if points[|points| - 1].value != Sentinel then points[|points| - 1].value
    else LastReading(points[..|points| - 1])
  }

  /** The fold of a prefix is the prefix of the fold: later points never change
      earlier output. */
  lemma {:induction false} FillPrefix(points: seq<Point>, i: nat)
    requires i <= |points|
    ensures Fill(points[..i]) == Fill(points)[..i]
    decreases |points|
  {
    if i < |points| {
      var init := points[..|points| - 1];
      FillPrefix(init, i);
      assert init[..i] == points[..i];
    } else {
      assert points[..i] == points;
    }
  }

  /** Point by point: a point that is not the sentinel passes through unchanged;
      a sentinel point keeps its time stamps and takes the previous output value,
      or 0 when it is first. */
  lemma FillAt(points: seq<Point>, i: nat)
    requires i < |points|
    ensures points[i].value != Sentinel ==> Fill(points)[i] == points[i]
    ensures points[i].value == Sentinel ==>
      Fill(points)[i] == points[i].(value := if i > 0 then Fill(points)[i - 1].value else Num(0.0))
  {
    FillPrefix(points, i + 1);
    FillPrefix(points, i);
    assert points[..i + 1][..i] == points[..i];
    assert Fill(points[..i + 1]) == Fill(points[..i]) + [FillStep(Fill(points[..i]), points[i])];
  }

  /** Length, order and both time stamps of every point are kept. */
  lemma FillKeepsTimes(points: seq<Point>)
    ensures |Fill(points)| == |points|
    ensures forall i :: 0 <= i < |points| ==>
      Fill(points)[i].timestamp == points[i].timestamp &&
      Fill(points)[i].fullTimestamp == points[i].fullTimestamp
  {
    forall i | 0 <= i < |points|
      ensures Fill(points)[i].timestamp == points[i].timestamp
      ensures Fill(points)[i].fullTimestamp == points[i].fullTimestamp
    {
      FillAt(points, i);
    }
  }

  /** Every output value is the input's own value or, for a sentinel, the last
      reading before it in the input (0 when there is none). */
  lemma {:induction false} FillHoldsLastReading(points: seq<Point>, i: nat)
    requires i < |points|
    ensures Fill(points)[i].value ==
      if points[i].value == Sentinel then LastReading(points[..i]) else points[i].value
    decreases i
  {
    FillAt(points, i);
    if points[i].value == Sentinel && i > 0 {
      FillHoldsLastReading(points, i - 1);
      assert points[..i][..i - 1] == points[..i - 1];
    }
  }

  /** The last reading is never the sentinel. */
  lemma {:induction false} LastReadingIsReading(points: seq<Point>)
    ensures LastReading(points) != Sentinel
    decreases |points|
  {
    if points != [] && points[|points| - 1].value == Sentinel {
      LastReadingIsReading(points[..|points| - 1]);
    }
  }

  /** Every output value is one of the input values up to the same point, or 0. */
  lemma {:induction false} FillValuesFrom(points: seq<Point>, i: nat)
    requires i < |points|
    ensures Fill(points)[i].value == Num(0.0) ||
      exists j :: 0 <= j <= i && points[j].value == Fill(points)[i].value
    decreases i
  {
    FillAt(points, i);
    if points[i].value == Sentinel && i > 0 {
      FillValuesFrom(points, i - 1);
    }
  }

  /** No output value is `-1`. */
  lemma FillSentinelFree(points: seq<Point>)
    ensures SentinelFree(Fill(points))
  {
    forall i | 0 <= i < |points|
      ensures Fill(points)[i].value != Sentinel
    {
      FillHoldsLastReading(points, i);
      LastReadingIsReading(points[..i]);
    }
  }

  /** The fold changes a list exactly when it holds a sentinel. */
  lemma FillIdentity(points: seq<Point>)
    ensures Fill(points) == points <==> SentinelFree(points)
  {
    if SentinelFree(points) {
      forall i | 0 <= i < |points|
        ensures Fill(points)[i] == points[i]
      {
        FillAt(points, i);
      }
    } else {
      FillSentinelFree(points);
    }
  }

  /** Filling twice is filling once. */
  lemma FillIdempotent(points: seq<Point>)
    ensures Fill(Fill(points)) == Fill(points)
  {
    FillSentinelFree(points);
    FillIdentity(Fill(points));
  }
}

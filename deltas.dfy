/** The change between two readings of one hashtag's series
    (`Hashtag.row_delta` and `Hashtag.calculate_timedelta_in_hours`). */
module Deltas {
  import opened Errors
  import opened Table

  const SecondsPerHr: int := 3600

  /** A ratio: `Undefined` stands for the infinite or not-a-number value
      produced when the divisor is zero. */
  datatype Quotient = Defined(value: real) | Undefined

  /** The five fields of a delta record, in the order `row_delta` adds them. */
  datatype DeltaRecord = DeltaRecord(
    postDiff: int,
    time: int,
    timeDiffInHrs: real,
    avgPostsPerHr: Quotient,
    percentRateOfChange: Quotient)

  /** `num / den`, undefined when `den` is zero. */
  function Divide(num: real, den: real): (q: Quotient)
    ensures q.Defined? <==> den != 0.0
    ensures q.Defined? ==> q.value * den == num
  {
    if den == 0.0 then Undefined else Defined(num / den)
  }

  /** `(avg / base) * 100`: undefined when `avg` is or when `base` is zero. */
  function PercentOf(avg: Quotient, base: int): (q: Quotient)
    ensures q.Defined? <==> avg.Defined? && base != 0
    ensures q.Defined? ==> q.value * (base as real) == avg.value * 100.0
  {
    match avg
    case Undefined => Undefined
    case Defined(a) =>
      match Divide(a, base as real)
      case Undefined => Undefined
      case Defined(x) => Defined(x * 100.0)
  }

  /** `calculate_timedelta_in_hours(i, j)`: the hours from row `i` to row `j`,
      both addressed as `iloc` addresses them. */
  function TimedeltaInHours(df: seq<Sample>, i: int, j: int): (r: Result<real>)
    ensures r.Ok? <==> Position(|df|, i).Ok? && Position(|df|, j).Ok?
    ensures r.Ok? ==>
      r.value * (SecondsPerHr as real) ==
      (df[Position(|df|, j).value].time - df[Position(|df|, i).value].time) as real
  {
    var start :- Position(|df|, i);
    var end :- Position(|df|, j);
    Ok((df[end].time - df[start].time) as real / SecondsPerHr as real)
  }

  /** `row_delta(i, j)`: the change from row `i` to row `j`. */
  function RowDelta(df: seq<Sample>, i: int, j: int): (r: Result<DeltaRecord>)
    ensures r.Ok? <==> Position(|df|, i).Ok? && Position(|df|, j).Ok?
    ensures r.Err? ==> r.error == IndexError
  {
    var first :- Position(|df|, i);
    var second :- Position(|df|, j);
    var timeDiff := TimedeltaInHours(df, i, j).value;
    var postDiff := df[second].posts - df[first].posts;
    var avg := Divide(postDiff as real, timeDiff);
    Ok(DeltaRecord(postDiff, df[second].time, timeDiff, avg, PercentOf(avg, df[first].posts)))
  }

  /** `_calculate_total_change`'s `row_delta(0, -1)`: first row to last row. */
  function TotalChange(df: seq<Sample>): (d: DeltaRecord)
    requires |df| > 0
    ensures d.postDiff == df[|df| - 1].posts - df[0].posts
    ensures d.time == df[|df| - 1].time
    ensures d.timeDiffInHrs * (SecondsPerHr as real) == (df[|df| - 1].time - df[0].time) as real
  {
    RowDeltaFields(df, 0, -1);
    RowDelta(df, 0, -1).value
  }

  /** What each field of `row_delta(i, j)` holds, with `p` and `q` the rows
      that `i` and `j` address: the post difference (negative when posts
      fell), the later row's time, the elapsed hours, the hourly rate
      (defined exactly when the two times differ) and the rate as a
      percentage of the earlier count (defined exactly when, in addition,
      that count is not zero). */
  lemma RowDeltaFields(df: seq<Sample>, i: int, j: int)
    requires -|df| <= i < |df| && -|df| <= j < |df|
    ensures RowDelta(df, i, j).Ok?
    ensures
      var p, q := Position(|df|, i).value, Position(|df|, j).value;
      var d := RowDelta(df, i, j).value;
      && d.postDiff == df[q].posts - df[p].posts
      && d.time == df[q].time
      && d.timeDiffInHrs * (SecondsPerHr as real) == (df[q].time - df[p].time) as real
      && (d.avgPostsPerHr.Defined? <==> df[q].time != df[p].time)
      && (d.avgPostsPerHr.Defined? ==> d.avgPostsPerHr.value * d.timeDiffInHrs == d.postDiff as real)
      && (d.percentRateOfChange.Defined? <==> df[q].time != df[p].time && df[p].posts != 0)
      && (d.percentRateOfChange.Defined? ==>
            d.percentRateOfChange.value * (df[p].posts as real) == d.avgPostsPerHr.value * 100.0)
  {
  }

  /** A later reading gives a positive elapsed time and a defined rate. */
  lemma ElapsedPositive(df: seq<Sample>, i: int, j: int)
    requires -|df| <= i < |df| && -|df| <= j < |df|
    requires df[Position(|df|, i).value].time < df[Position(|df|, j).value].time
    ensures RowDelta(df, i, j).Ok?
    ensures RowDelta(df, i, j).value.timeDiffInHrs > 0.0
    ensures RowDelta(df, i, j).value.avgPostsPerHr.Defined?
  {
    RowDeltaFields(df, i, j);
  }

  /** Swapping the two rows negates the post difference and the elapsed
      hours, keeps the hourly rate, and reports the other row's time. */
  lemma RowDeltaSwap(df: seq<Sample>, i: int, j: int)
    requires -|df| <= i < |df| && -|df| <= j < |df|
    ensures RowDelta(df, i, j).Ok? && RowDelta(df, j, i).Ok?
    ensures RowDelta(df, j, i).value.postDiff == -RowDelta(df, i, j).value.postDiff
    ensures RowDelta(df, j, i).value.timeDiffInHrs == -RowDelta(df, i, j).value.timeDiffInHrs
    ensures RowDelta(df, j, i).value.time == df[Position(|df|, i).value].time
    ensures RowDelta(df, j, i).value.avgPostsPerHr == RowDelta(df, i, j).value.avgPostsPerHr
  {
    var p, q := Position(|df|, i).value, Position(|df|, j).value;
    var dt := (df[q].time - df[p].time) as real;
    var dp := (df[q].posts - df[p].posts) as real;
    NegateQuotient(dt, SecondsPerHr as real);
    var hours := dt / SecondsPerHr as real;
    assert RowDelta(df, i, j).value.timeDiffInHrs == hours;
    assert RowDelta(df, j, i).value.timeDiffInHrs == -hours;
    if hours != 0.0 {
      NegateQuotient(dp, hours);
      NegateBoth(dp, hours);
    }
  }

  lemma NegateQuotient(x: real, y: real)
    requires y != 0.0
    ensures (-x) / y == -(x / y)
  {
  }

  lemma NegateBoth(x: real, y: real)
    requires y != 0.0
    ensures (-x) / (-y) == x / y
  {
  }

  /** `iloc` addresses the same row by `k` and by `k - len(df)`, so a record
      may be asked for from either end. */
  lemma RowDeltaFromEnd(df: seq<Sample>, i: int, j: int)
    requires 0 <= i < |df| && 0 <= j < |df|
    ensures RowDelta(df, i - |df|, j) == RowDelta(df, i, j)
    ensures RowDelta(df, i, j - |df|) == RowDelta(df, i, j)
  {
  }

  /** The total change is the delta from the first row to the last. */
  lemma TotalChangeFirstToLast(df: seq<Sample>)
    requires |df| > 0
    ensures RowDelta(df, 0, |df| - 1).Ok?
    ensures TotalChange(df) == RowDelta(df, 0, |df| - 1).value
  {
    RowDeltaFromEnd(df, 0, |df| - 1);
  }

  /** The first scenario: 100 posts, then 150 posts an hour later. */
  lemma OneHourScenario(t0: int)
    ensures RowDelta([Sample(100, t0), Sample(150, t0 + 3600)], 0, 1) ==
      Ok(DeltaRecord(50, t0 + 3600, 1.0, Defined(50.0), Defined(50.0)))
  {
  }

  /** The second scenario: a zero starting count leaves the percentage
      undefined while the hourly rate is defined. */
  lemma ZeroStartScenario(t0: int)
    ensures RowDelta([Sample(0, t0), Sample(10, t0 + 7200)], 0, 1) ==
      Ok(DeltaRecord(10, t0 + 7200, 2.0, Defined(5.0), Undefined))
  {
  }
}

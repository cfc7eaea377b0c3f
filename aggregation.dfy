/**
 * Per-day aggregation: for each of the 366 day buckets, the total or the
 * average of one statistic over the players born on that day.
 *
 * Totals are column sums, except the player count, the count of players over
 * a WAR threshold, and innings pitched. Averages of rate statistics are
 * weighted by the opportunities behind each player's career rate; any other
 * statistic is averaged plainly.
 */
module Aggregation {
  import opened Calendar
  import opened Players
  import opened Innings

  /** A statistic as the page asks for it. */
  datatype Stat = NumberOfPlayers | PlayersOverWar | Of(column: Column)

  /**
   * ZeroDenominator: a ratio whose denominator is zero, or the mean of an
   * empty day. MissingColumn: an average of a statistic that is not a column.
   */
  datatype AggError = ZeroDenominator | MissingColumn

  datatype Result<T> = Ok(value: T) | Err(error: AggError)

  /** What each record's rate is weighted by in a weighted average. */
  datatype Weight = ByAtBats | ByPlateAppearances | ByInnings | Unweighted

  function WeightOf(r: Record, w: Weight): real {
    match w
    case ByAtBats => r.atBats as real
    case ByPlateAppearances => (r.atBats + r.walks) as real
    case ByInnings => r.inningsPitched
    case Unweighted => 1.0
  }

  /** One column of a bucket, in row order. */
  function ColumnOf(b: seq<Record>, c: Column): (xs: seq<real>)
    ensures |xs| == |b| && forall i :: 0 <= i < |b| ==> xs[i] == Value(b[i], c)
  {
    seq(|b|, i requires 0 <= i < |b| => Value(b[i], c))
  }

  /** The weight of every record of a bucket, in row order. */
  function WeightsOf(b: seq<Record>, w: Weight): (ws: seq<real>)
    ensures |ws| == |b| && forall i :: 0 <= i < |b| ==> ws[i] == WeightOf(b[i], w)
  {
    seq(|b|, i requires 0 <= i < |b| => WeightOf(b[i], w))
  }

  /** Sum of a column (pandas' Series.sum). */
  function Total(xs: seq<real>): real {
    if xs == [] then 0.0 else xs[0] + Total(xs[1..])
  }

  /** Sum of the element-wise product of two columns. */
  function Dot(ws: seq<real>, vs: seq<real>): real
    requires |ws| == |vs|
  {
    if ws == [] then 0.0 else ws[0] * vs[0] + Dot(ws[1..], vs[1..])
  }

  function ColumnSum(b: seq<Record>, c: Column): real {
    Total(ColumnOf(b, c))
  }

  function WeightSum(b: seq<Record>, w: Weight): real {
    Total(WeightsOf(b, w))
  }

  function WeightedSum(b: seq<Record>, w: Weight, c: Column): real {
    Dot(WeightsOf(b, w), ColumnOf(b, c))
  }

  function Ratio(numerator: real, denominator: real): (r: Result<real>)
    ensures r.Ok? <==> denominator != 0.0
    ensures r.Ok? ==> r.value * denominator == numerator
  {
    if denominator == 0.0 then Err(ZeroDenominator) else Ok(numerator / denominator)
  }

  /** Number of records whose WAR is strictly above the threshold. */
  function CountOver(b: seq<Record>, warMin: real): (n: nat)
    ensures n <= |b|
    ensures n == |b| <==> forall i :: 0 <= i < |b| ==> b[i].war > warMin
    ensures n == 0 <==> forall i :: 0 <= i < |b| ==> b[i].war <= warMin
  {
    if b == [] then 0
    else (if b[0].war > warMin then 1 else 0) + CountOver(b[1..], warMin)
  }

  /**
   * Innings pitched of a day, in outs notation. The stored column already
   * holds true thirds, so the total is written back without first reading
   * each value as outs notation (see the as-written form below).
   */
  function TotalInnings(b: seq<Record>): real {
    DisplayOuts(ColumnSum(b, InningsPitched))
  }

  /** The innings total as the source computes it: sum_ip applied to the stored column. */
  function TotalInningsAsWritten(b: seq<Record>): real {
    DisplayOuts(SumThirds(ColumnOf(b, InningsPitched)))
  }

  /**
   * One day's value of calculate_total_or_avg_stats. Totals are always
   * defined; an average fails on a statistic that is not a column, and
   * otherwise only on a zero denominator.
   */
  function DayValue(b: seq<Record>, stat: Stat, isAvg: bool, warMin: real): (r: Result<real>)
    ensures !isAvg ==> r.Ok?
    ensures isAvg && !stat.Of? ==> r == Err(MissingColumn)
    ensures isAvg && stat.Of? && r.Err? ==> r == Err(ZeroDenominator)
  {
    if isAvg then
      match stat
      case Of(BattingAverage) => Ratio(ColumnSum(b, Hits), ColumnSum(b, AtBats))
      case Of(OnBase) => Ratio(WeightedSum(b, ByPlateAppearances, OnBase), WeightSum(b, ByPlateAppearances))
      case Of(Slugging) => Ratio(WeightedSum(b, ByAtBats, Slugging), WeightSum(b, ByAtBats))
      case Of(Ops) => Ratio(WeightedSum(b, ByPlateAppearances, Ops), WeightSum(b, ByPlateAppearances))
      case Of(Era) => Ratio(WeightedSum(b, ByInnings, Era), WeightSum(b, ByInnings))
      case Of(EraPlus) => Ratio(WeightedSum(b, ByInnings, EraPlus), WeightSum(b, ByInnings))
      case Of(Whip) => Ratio(WeightedSum(b, ByInnings, Whip), WeightSum(b, ByInnings))
      case Of(c) => Ratio(ColumnSum(b, c), |b| as real)
      case _ => Err(MissingColumn)
    else
      match stat
      case NumberOfPlayers => Ok(|b| as real)
      case PlayersOverWar => Ok(CountOver(b, warMin) as real)
      case Of(InningsPitched) => Ok(TotalInnings(b))
      case Of(c) => Ok(ColumnSum(b, c))
  }

  /** The weight an average of this column uses (Unweighted for a plain mean). */
  function AverageWeight(c: Column): Weight {
    match c
    case OnBase => ByPlateAppearances
    case Ops => ByPlateAppearances
    case Slugging => ByAtBats
    case Era => ByInnings
    case EraPlus => ByInnings
    case Whip => ByInnings
    case _ => Unweighted
  }

  /**
   * Batting average is total hits over total at-bats. Every other average
   * is the weight-times-rate sum over the weight sum; a plain mean is
   * weighted by one per record. Each is defined exactly when its denominator
   * is not zero.
   */
  lemma AverageIsWeighted(b: seq<Record>, c: Column, warMin: real)
    ensures c == BattingAverage ==>
      DayValue(b, Of(c), true, warMin) == Ratio(ColumnSum(b, Hits), ColumnSum(b, AtBats))
    ensures c != BattingAverage ==>
      DayValue(b, Of(c), true, warMin) == Ratio(WeightedSum(b, AverageWeight(c), c), WeightSum(b, AverageWeight(c)))
  {
    if AverageWeight(c) == Unweighted {
      UnitWeights(WeightsOf(b, Unweighted), ColumnOf(b, c));
    }
  }

  /** With every weight one, the weights total the count and the weighted sum is the plain sum. */
  lemma {:induction false} UnitWeights(ws: seq<real>, vs: seq<real>)
    requires |ws| == |vs| && forall i :: 0 <= i < |ws| ==> ws[i] == 1.0
    ensures Total(ws) == |ws| as real
    ensures Dot(ws, vs) == Total(vs)
  {
    if ws != [] {
      UnitWeights(ws[1..], vs[1..]);
    }
  }

  /** lo * W <= sum of w * v <= hi * W when every weight is non-negative and every v is in [lo, hi]. */
  lemma {:induction false} DotBounds(ws: seq<real>, vs: seq<real>, lo: real, hi: real)
    requires |ws| == |vs|
    requires forall i :: 0 <= i < |ws| ==> ws[i] >= 0.0 && lo <= vs[i] <= hi
    ensures Total(ws) >= 0.0
    ensures lo * Total(ws) <= Dot(ws, vs) <= hi * Total(ws)
  {
    if ws != [] {
      var restW, restS := Total(ws[1..]), Dot(ws[1..], vs[1..]);
      assert restW >= 0.0 && lo * restW <= restS <= hi * restW by {
        DotBounds(ws[1..], vs[1..], lo, hi);
      }
      StepBounds(ws[0], vs[0], restW, restS, lo, hi);
    }
  }

  /** Adding one record with weight x and rate v in [lo, hi] keeps the bounds. */
  lemma StepBounds(x: real, v: real, restW: real, restS: real, lo: real, hi: real)
    requires x >= 0.0 && lo <= v <= hi
    requires restW >= 0.0 && lo * restW <= restS <= hi * restW
    ensures x + restW >= 0.0
    ensures lo * (x + restW) <= x * v + restS <= hi * (x + restW)
  {
    assert x * (v - lo) >= 0.0;
    assert x * (hi - v) >= 0.0;
    assert lo * (x + restW) == lo * x + lo * restW;
    assert hi * (x + restW) == hi * x + hi * restW;
  }

  lemma Cancel(lo: real, v: real, d: real)
    requires d > 0.0
    ensures lo * d <= v * d ==> lo <= v
    ensures v * d <= lo * d ==> v <= lo
  {
    if lo > v {
      assert (lo - v) * d > 0.0;
    }
    if v > lo {
      assert (v - lo) * d > 0.0;
    }
  }

  /**
   * A day's average of a rate lies between the smallest and the largest rate
   * of the day's players, whatever the weighting, when the counting columns
   * behind the weights are non-negative.
   */
  lemma AverageWithinRange(b: seq<Record>, c: Column, warMin: real, lo: real, hi: real)
    requires c != BattingAverage
    requires forall i :: 0 <= i < |b| ==> NonNegativeCounts(b[i]) && lo <= Value(b[i], c) <= hi
    requires DayValue(b, Of(c), true, warMin).Ok?
    ensures lo <= DayValue(b, Of(c), true, warMin).value <= hi
  {
    AverageIsWeighted(b, c, warMin);
    WeightedAverageWithin(b, c, AverageWeight(c), lo, hi);
  }

  /** The weighted average of a column, for any weighting by non-negative counts, keeps the column's bounds. */
  lemma WeightedAverageWithin(b: seq<Record>, c: Column, w: Weight, lo: real, hi: real)
    requires forall i :: 0 <= i < |b| ==> NonNegativeCounts(b[i]) && lo <= Value(b[i], c) <= hi
    requires Ratio(WeightedSum(b, w, c), WeightSum(b, w)).Ok?
    ensures lo <= Ratio(WeightedSum(b, w, c), WeightSum(b, w)).value <= hi
  {
    BucketWithin(b, c, w, lo, hi);
    WeightedWithin(WeightsOf(b, w), ColumnOf(b, c), WeightedSum(b, w, c), WeightSum(b, w), lo, hi);
  }

  /** The weights of a bucket with non-negative counts are non-negative, and its column keeps the bounds of its rows. */
  lemma BucketWithin(b: seq<Record>, c: Column, w: Weight, lo: real, hi: real)
    requires forall i :: 0 <= i < |b| ==> NonNegativeCounts(b[i]) && lo <= Value(b[i], c) <= hi
    ensures forall i :: 0 <= i < |WeightsOf(b, w)| ==>
      WeightsOf(b, w)[i] >= 0.0 && lo <= ColumnOf(b, c)[i] <= hi
  {
    forall i | 0 <= i < |b| ensures WeightsOf(b, w)[i] >= 0.0 {
      assert NonNegativeCounts(b[i]);
    }
  }

  /** A weighted average with non-negative weights of values in [lo, hi] lies in [lo, hi]. */
  lemma WeightedWithin(ws: seq<real>, vs: seq<real>, n: real, d: real, lo: real, hi: real)
    requires |ws| == |vs| && n == Dot(ws, vs) && d == Total(ws)
    requires forall i :: 0 <= i < |ws| ==> ws[i] >= 0.0 && lo <= vs[i] <= hi
    requires Ratio(n, d).Ok?
    ensures lo <= Ratio(n, d).value <= hi
  {
    DotBounds(ws, vs, lo, hi);
    RatioWithin(n, d, lo, hi);
  }

  /** A quotient of a numerator between lo and hi times a positive denominator lies between lo and hi. */
  lemma RatioWithin(n: real, d: real, lo: real, hi: real)
    requires d > 0.0 && lo * d <= n <= hi * d
    ensures Ratio(n, d).Ok? && lo <= Ratio(n, d).value <= hi
  {
    var v := n / d;
    assert v * d == n;
    Cancel(lo, v, d);
    Cancel(hi, v, d);
  }

  /** Batting average of a day is total hits over total at-bats: between 0 and 1 when no player has more hits than at-bats. */
  lemma BattingAverageBounds(b: seq<Record>, warMin: real)
    requires forall i :: 0 <= i < |b| ==> 0 <= b[i].hits <= b[i].atBats
    requires ColumnSum(b, AtBats) != 0.0
    ensures DayValue(b, Of(BattingAverage), true, warMin).Ok?
    ensures 0.0 <= DayValue(b, Of(BattingAverage), true, warMin).value <= 1.0
  {
    var h, ab := ColumnSum(b, Hits), ColumnSum(b, AtBats);
    assert 0.0 <= h <= ab by {
      TotalBelow(ColumnOf(b, Hits), ColumnOf(b, AtBats));
    }
    RatioWithin(h, ab, 0.0, 1.0);
  }

  /** A column that is pointwise between zero and another column sums to no more than it. */
  lemma {:induction false} TotalBelow(xs: seq<real>, ys: seq<real>)
    requires |xs| == |ys| && forall i :: 0 <= i < |xs| ==> 0.0 <= xs[i] <= ys[i]
    ensures 0.0 <= Total(xs) <= Total(ys)
  {
    if xs != [] {
      TotalBelow(xs[1..], ys[1..]);
    }
  }

  /**
   * Two players with 10 hits in 40 at-bats and 0 in 10 bat .200 together,
   * not the .125 mean of their own averages.
   */
  lemma BattingAverageIsWeightedExample(p: Record, q: Record, warMin: real)
    requires p.hits == 10 && p.atBats == 40 && p.battingAverage == 0.25
    requires q.hits == 0 && q.atBats == 10 && q.battingAverage == 0.0
    ensures DayValue([p, q], Of(BattingAverage), true, warMin) == Ok(0.2)
    ensures ColumnSum([p, q], BattingAverage) / 2.0 == 0.125
  {
    assert ColumnOf([p, q], Hits) == [10.0, 0.0];
    assert ColumnOf([p, q], AtBats) == [40.0, 10.0];
    assert ColumnOf([p, q], BattingAverage) == [0.25, 0.0];
    assert Total([10.0, 0.0]) == 10.0;
    assert Total([40.0, 10.0]) == 50.0;
    assert Total([0.25, 0.0]) == 0.25;
  }

  /**
   * Counting totals: the player count, the over-WAR count never above it,
   * plain column sums, and the (corrected) innings total.
   */
  lemma TotalsAreCounts(b: seq<Record>, c: Column, warMin: real)
    requires c != InningsPitched
    ensures DayValue(b, NumberOfPlayers, false, warMin) == Ok(|b| as real)
    ensures DayValue(b, Of(c), false, warMin) == Ok(ColumnSum(b, c))
    ensures DayValue(b, Of(InningsPitched), false, warMin) == Ok(TotalInnings(b))
    ensures DayValue(b, PlayersOverWar, false, warMin).Ok?
    ensures 0.0 <= DayValue(b, PlayersOverWar, false, warMin).value <= |b| as real
  {
  }

  /** Raising the WAR threshold never counts more players. */
  lemma {:induction false} CountOverMonotone(b: seq<Record>, t1: real, t2: real)
    requires t1 <= t2
    ensures CountOver(b, t2) <= CountOver(b, t1)
  {
    if b != [] {
      CountOverMonotone(b[1..], t1, t2);
    }
  }

  /** Averages are only defined for columns; the two player counts have no average. */
  lemma AverageOfCountIsMissing(b: seq<Record>, warMin: real)
    ensures DayValue(b, NumberOfPlayers, true, warMin) == Err(MissingColumn)
    ensures DayValue(b, PlayersOverWar, true, warMin) == Err(MissingColumn)
  {
  }

  /** A sum of whole thirds is a whole number of thirds. */
  lemma {:induction false} TotalOfThirds(xs: seq<real>)
    requires forall i :: 0 <= i < |xs| ==> IsThirds(xs[i])
    ensures IsThirds(Total(xs))
  {
    if xs == [] {
      FloorOf(0, 0.0);
    } else {
      TotalOfThirds(xs[1..]);
      ThirdsAdd(xs[0], Total(xs[1..]));
    }
  }

  /**
   * The day's innings total is in outs notation and reads back as the exact
   * sum of the stored innings.
   */
  lemma TotalInningsRoundTrip(b: seq<Record>)
    requires forall i :: 0 <= i < |b| ==> IsThirds(b[i].inningsPitched)
    ensures IsOutsNotation(TotalInnings(b))
    ensures OutsToThirds(TotalInnings(b)) == ColumnSum(b, InningsPitched)
  {
    TotalOfThirds(ColumnOf(b, InningsPitched));
    DisplayOutsOfThirds(ColumnSum(b, InningsPitched));
  }

  /**
   * As written, a day whose only pitcher threw 6 2/3 innings (stored as
   * 20/3) totals 8.0666..., because the stored thirds are read once more
   * as outs notation; the corrected total is 6.2.
   */
  lemma TotalInningsAsWrittenMisreads(p: Record)
    requires p.inningsPitched == 20.0 / 3.0
    ensures TotalInningsAsWritten([p]) == 8.0 + 1.0 / 15.0
    ensures TotalInnings([p]) == 6.2
    ensures OutsToThirds(TotalInningsAsWritten([p])) != p.inningsPitched
  {
    var col := ColumnOf([p], InningsPitched);
    assert col == [20.0 / 3.0];
    assert col[..0] == [];
    FloorOf(6, 2.0 / 3.0);
    assert OutsToThirds(20.0 / 3.0) == 6.0 + 20.0 / 9.0;
    FloorOf(8, 2.0 / 9.0);
    assert SumThirds(col) == 8.0 + 2.0 / 9.0;
    FloorOf(8, 1.0 / 15.0);
    assert Total(col) == 6.0 + 2.0 / 3.0;
    FloorOf(6, 2.0 / 10.0);
  }

  ghost predicate AllDaysDefined(allData: Buckets, stat: Stat, isAvg: bool, warMin: real)
    requires WellShaped(allData)
  {
    forall m, d :: IsSlot(m, d) ==> DayValue(allData[m][d - 1], stat, isAvg, warMin).Ok?
  }

  /**
   * calculate_total_or_avg_stats: walks the months, and the days of each
   * month, appending each day's value. The result has one value per day of
   * the 366-day calendar, in month-then-day order; it fails when some day's
   * value is undefined.
   */
  method CalculateTotalOrAvgStats(allData: Buckets, stat: Stat, isAvg: bool, warMin: real)
    returns (r: Result<seq<real>>)
    requires WellShaped(allData)
    ensures r.Ok? <==> AllDaysDefined(allData, stat, isAvg, warMin)
    ensures r.Ok? ==> |r.value| == 366
    ensures r.Ok? ==> forall m, d :: IsSlot(m, d) ==>
      DayValue(allData[m][d - 1], stat, isAvg, warMin) == Ok(r.value[DayIndex(m, d)])
  {
    var statList: seq<real> := [];
    var i := 0;
    while i < 12
      invariant 0 <= i <= 12
      invariant |statList| == StartOfMonth(i)
      invariant forall m, d :: IsSlot(m, d) && m < i ==>
        DayIndex(m, d) < |statList| && DayValue(allData[m][d - 1], stat, isAvg, warMin) == Ok(statList[DayIndex(m, d)])
    {
      var j := 0;
      while j < MonthLengths[i]
        invariant 0 <= j <= MonthLengths[i]
        invariant |statList| == StartOfMonth(i) + j
        invariant forall m, d :: IsSlot(m, d) && (m < i || (m == i && d <= j)) ==>
          DayIndex(m, d) < |statList| && DayValue(allData[m][d - 1], stat, isAvg, warMin) == Ok(statList[DayIndex(m, d)])
      {
        var v := DayValue(allData[i][j], stat, isAvg, warMin);
        if v.Err? {
          assert IsSlot(i, j + 1);
          return Err(v.error);
        }
        statList := statList + [v.value];
        j := j + 1;
      }
      forall m, d | IsSlot(m, d) && m < i + 1
        ensures DayIndex(m, d) < |statList| && DayValue(allData[m][d - 1], stat, isAvg, warMin) == Ok(statList[DayIndex(m, d)])
      {
      }
      i := i + 1;
    }
    StartOfMonthBounds(12);
    r := Ok(statList);
  }
}

/** The Bollinger-band breakout strategy: bands `num_std` population
    standard deviations around a rolling mean of the close; a buy when the
    close breaks out above the upper band, a sell when it breaks down below
    the lower band. */
module BollingerBreakout {
  import opened Series

  /** A row of the signal frame: the input bar with the three bands and the
      two signal flags added. */
  datatype BandRow = BandRow(
    bar: Bar,
    middleBand: Option<real>,
    upperBand: Option<real>,
    lowerBand: Option<real>,
    buySignal: bool,
    sellSignal: bool)

  /** `rolling_mean + num_std * rolling_std`: missing until the window fills. */
  function UpperBand(closes: seq<real>, period: int, numStd: real, i: int, sqrt: real -> real): Option<real>
    requires period >= 1 && 0 <= i < |closes|
  {
    var m := RollingMean(closes, period, i);
    var sd := RollingPopulationStd(closes, period, i, sqrt);
    if m.Some? && sd.Some? then Some(m.value + numStd * sd.value) else None
  }

  /** `rolling_mean - num_std * rolling_std`: missing until the window fills. */
  function LowerBand(closes: seq<real>, period: int, numStd: real, i: int, sqrt: real -> real): Option<real>
    requires period >= 1 && 0 <= i < |closes|
  {
    var m := RollingMean(closes, period, i);
    var sd := RollingPopulationStd(closes, period, i, sqrt);
    if m.Some? && sd.Some? then Some(m.value - numStd * sd.value) else None
  }

  /** Row `i` of the frame `generate_signals` returns. The previous close and
      bands (`shift(1)`) are missing on the first row. */
  function BandAt(bars: seq<Bar>, period: int, numStd: real, sqrt: real -> real, i: int): BandRow
    requires period >= 1 && 0 <= i < |bars|
  {
    var closes := Closes(bars);
    var upper := UpperBand(closes, period, numStd, i, sqrt);
    var lower := LowerBand(closes, period, numStd, i, sqrt);
    var prevClose: Option<real> := if i == 0 then None else Some(closes[i - 1]);
    var prevUpper := if i == 0 then None else UpperBand(closes, period, numStd, i - 1, sqrt);
    var prevLower := if i == 0 then None else LowerBand(closes, period, numStd, i - 1, sqrt);
    BandRow(
      bars[i],
      RollingMean(closes, period, i),
      upper,
      lower,
      AtMost(prevClose, prevUpper) && Greater(Some(closes[i]), upper),
      AtLeast(prevClose, prevLower) && Less(Some(closes[i]), lower))
  }

  /** Every buy flag marks a close that moves from at or below the upper band
      on the previous row to above it, and every sell flag a close that moves
      from at or above the lower band to below it. */
  predicate MarksBreakouts(rows: seq<BandRow>)
  {
    && (forall i {:trigger rows[i]} :: 0 <= i < |rows| ==>
          (rows[i].buySignal <==>
             && 0 < i
             && AtMost(Some(rows[i - 1].bar.close), rows[i - 1].upperBand)
             && Greater(Some(rows[i].bar.close), rows[i].upperBand)))
    && (forall i {:trigger rows[i]} :: 0 <= i < |rows| ==>
          (rows[i].sellSignal <==>
             && 0 < i
             && AtLeast(Some(rows[i - 1].bar.close), rows[i - 1].lowerBand)
             && Less(Some(rows[i].bar.close), rows[i].lowerBand)))
  }

  /** generate_signals */
  function GenerateSignals(bars: seq<Bar>, period: int, numStd: real, sqrt: real -> real): (rows: seq<BandRow>)
    requires period >= 1
    ensures |rows| == |bars|
    ensures forall i :: 0 <= i < |bars| ==> rows[i].bar == bars[i]
    ensures forall i :: 0 <= i < |bars| ==> rows[i].middleBand == RollingMean(Closes(bars), period, i)
    ensures forall i :: 0 <= i < |bars| ==>
      && (rows[i].middleBand.Some? <==> i + 1 >= period)
      && (rows[i].upperBand.Some? <==> i + 1 >= period)
      && (rows[i].lowerBand.Some? <==> i + 1 >= period)
    ensures forall i :: 0 <= i < |bars| && i + 1 >= period ==>
      rows[i].upperBand.value - rows[i].middleBand.value == rows[i].middleBand.value - rows[i].lowerBand.value
    ensures MarksBreakouts(rows)
  {
    BandAtShape(bars, period, numStd, sqrt);
    BandAtFlags(bars, period, numStd, sqrt);
    seq(|bars|, i requires 0 <= i < |bars| => BandAt(bars, period, numStd, sqrt, i))
  }

  /** The three bands of a row whose window is full. */
  lemma BandValues(closes: seq<real>, period: int, numStd: real, i: int, sqrt: real -> real)
    requires 1 <= period <= i + 1 <= |closes|
    ensures var w := Trailing(closes, period, i);
      && RollingMean(closes, period, i) == Some(Mean(w))
      && UpperBand(closes, period, numStd, i, sqrt).Some?
      && UpperBand(closes, period, numStd, i, sqrt).value == Mean(w) + numStd * sqrt(PopulationVariance(w))
      && LowerBand(closes, period, numStd, i, sqrt).Some?
      && LowerBand(closes, period, numStd, i, sqrt).value == Mean(w) - numStd * sqrt(PopulationVariance(w))
  {
    var m := RollingMean(closes, period, i);
    var sd := RollingPopulationStd(closes, period, i, sqrt);
    assert m.Some? && sd.Some?;
  }

  /** Which bands of each row are present, and their symmetry about the middle band. */
  lemma BandAtShape(bars: seq<Bar>, period: int, numStd: real, sqrt: real -> real)
    requires period >= 1
    ensures forall i :: 0 <= i < |bars| ==>
      var row := BandAt(bars, period, numStd, sqrt, i);
      && (row.middleBand.Some? <==> i + 1 >= period)
      && (row.upperBand.Some? <==> i + 1 >= period)
      && (row.lowerBand.Some? <==> i + 1 >= period)
      && (i + 1 >= period ==>
            row.upperBand.value - row.middleBand.value == row.middleBand.value - row.lowerBand.value)
  {
    forall i | 0 <= i < |bars|
      ensures var row := BandAt(bars, period, numStd, sqrt, i);
        && (row.middleBand.Some? <==> i + 1 >= period)
        && (row.upperBand.Some? <==> i + 1 >= period)
        && (row.lowerBand.Some? <==> i + 1 >= period)
        && (i + 1 >= period ==>
              row.upperBand.value - row.middleBand.value == row.middleBand.value - row.lowerBand.value)
    {
      var closes := Closes(bars);
      var m := RollingMean(closes, period, i);
      var sd := RollingPopulationStd(closes, period, i, sqrt);
      assert m.Some? <==> i + 1 >= period;
      assert sd.Some? <==> i + 1 >= period;
    }
  }

  /** The flags of each row, in terms of the bars and the previous row's bands. */
  lemma BandAtFlags(bars: seq<Bar>, period: int, numStd: real, sqrt: real -> real)
    requires period >= 1
    ensures forall i :: 0 <= i < |bars| ==>
      var row := BandAt(bars, period, numStd, sqrt, i);
      && row.bar == bars[i]
      && (row.buySignal <==>
            && 0 < i
            && AtMost(Some(bars[i - 1].close), BandAt(bars, period, numStd, sqrt, i - 1).upperBand)
            && Greater(Some(bars[i].close), row.upperBand))
      && (row.sellSignal <==>
            && 0 < i
            && AtLeast(Some(bars[i - 1].close), BandAt(bars, period, numStd, sqrt, i - 1).lowerBand)
            && Less(Some(bars[i].close), row.lowerBand))
  {
    var closes := Closes(bars);
    forall i | 0 <= i < |bars|
      ensures var row := BandAt(bars, period, numStd, sqrt, i);
        && row.bar == bars[i]
        && (row.buySignal <==>
              && 0 < i
              && AtMost(Some(bars[i - 1].close), BandAt(bars, period, numStd, sqrt, i - 1).upperBand)
              && Greater(Some(bars[i].close), row.upperBand))
        && (row.sellSignal <==>
              && 0 < i
              && AtLeast(Some(bars[i - 1].close), BandAt(bars, period, numStd, sqrt, i - 1).lowerBand)
              && Less(Some(bars[i].close), row.lowerBand))
    {
      assert closes[i] == bars[i].close;
      if i > 0 {
        assert closes[i - 1] == bars[i - 1].close;
      }
    }
  }

  /** Row `i` of the frame, and its bands in terms of the close column. */
  lemma RowAt(bars: seq<Bar>, period: int, numStd: real, sqrt: real -> real, i: int)
    requires period >= 1 && 0 <= i < |bars|
    ensures var row := GenerateSignals(bars, period, numStd, sqrt)[i];
      && row == BandAt(bars, period, numStd, sqrt, i)
      && row.upperBand == UpperBand(Closes(bars), period, numStd, i, sqrt)
      && row.lowerBand == LowerBand(Closes(bars), period, numStd, i, sqrt)
      && row.bar.close == Closes(bars)[i]
  {
  }

  // ---------------------------------------------------------------------
  // A test free of square roots

  /** `x` lies strictly above `Mean(w) + k·σ(w)`, decided without a square
      root: the excess over the mean is positive and its square exceeds
      k²·variance. */
  predicate Exceeds(x: real, w: seq<real>, k: real)
    requires |w| > 0
  {
    var d := x - Mean(w);
    d > 0.0 && d * d > k * k * PopulationVariance(w)
  }

  /** `x` lies strictly below `Mean(w) - k·σ(w)`, decided without a square root. */
  predicate Undercuts(x: real, w: seq<real>, k: real)
    requires |w| > 0
  {
    var d := Mean(w) - x;
    d > 0.0 && d * d > k * k * PopulationVariance(w)
  }

  /** For k ≥ 0, `d > k·√v` holds exactly when d is positive and d² > k²·v. */
  lemma ExceedsIff(d: real, k: real, v: real, sqrt: real -> real)
    requires IsSqrt(sqrt) && k >= 0.0 && v >= 0.0
    ensures d > k * sqrt(v) <==> d > 0.0 && d * d > k * k * v
  {
    var s := sqrt(v);
    var e := k * s;
    NonNegativeProduct(k, s);
    assert e * e == k * k * v by {
      assert e * e == (k * k) * (s * s);
      assert s * s == v;
    }
    if d > e {
      SquareIncreasing(e, d);
    } else if d > 0.0 {
      if d < e {
        SquareIncreasing(d, e);
      }
    }
  }

  /** The upper-band comparisons of row `i`, decided without a square root. */
  lemma UpperBandTest(closes: seq<real>, period: int, numStd: real, i: int, sqrt: real -> real)
    requires IsSqrt(sqrt) && numStd >= 0.0
    requires 1 <= period <= i + 1 <= |closes|
    ensures Greater(Some(closes[i]), UpperBand(closes, period, numStd, i, sqrt))
        <==> Exceeds(closes[i], Trailing(closes, period, i), numStd)
    ensures AtMost(Some(closes[i]), UpperBand(closes, period, numStd, i, sqrt))
        <==> !Exceeds(closes[i], Trailing(closes, period, i), numStd)
  {
    var w := Trailing(closes, period, i);
    ExceedsIff(closes[i] - Mean(w), numStd, PopulationVariance(w), sqrt);
  }

  /** The lower-band comparisons of row `i`, decided without a square root. */
  lemma LowerBandTest(closes: seq<real>, period: int, numStd: real, i: int, sqrt: real -> real)
    requires IsSqrt(sqrt) && numStd >= 0.0
    requires 1 <= period <= i + 1 <= |closes|
    ensures Less(Some(closes[i]), LowerBand(closes, period, numStd, i, sqrt))
        <==> Undercuts(closes[i], Trailing(closes, period, i), numStd)
    ensures AtLeast(Some(closes[i]), LowerBand(closes, period, numStd, i, sqrt))
        <==> !Undercuts(closes[i], Trailing(closes, period, i), numStd)
  {
    var w := Trailing(closes, period, i);
    ExceedsIff(Mean(w) - closes[i], numStd, PopulationVariance(w), sqrt);
  }

  /** The flags of row `i > 0` in terms of the close column and its bands. */
  lemma RowFlags(bars: seq<Bar>, period: int, numStd: real, sqrt: real -> real, i: int)
    requires period >= 1 && 1 <= i < |bars|
    ensures var row := GenerateSignals(bars, period, numStd, sqrt)[i];
      var c := Closes(bars);
      && (row.buySignal <==>
            AtMost(Some(c[i - 1]), UpperBand(c, period, numStd, i - 1, sqrt))
            && Greater(Some(c[i]), UpperBand(c, period, numStd, i, sqrt)))
      && (row.sellSignal <==>
            AtLeast(Some(c[i - 1]), LowerBand(c, period, numStd, i - 1, sqrt))
            && Less(Some(c[i]), LowerBand(c, period, numStd, i, sqrt)))
  {
    RowAt(bars, period, numStd, sqrt, i);
  }

  /** With a non-negative band width, the flags of a row after the first
      full window follow the square-root-free tests: a buy exactly when the
      close moves to strictly above the upper band, a sell exactly when it
      moves to strictly below the lower band. */
  lemma BreakoutTests(bars: seq<Bar>, period: int, numStd: real, sqrt: real -> real, i: int)
    requires IsSqrt(sqrt) && numStd >= 0.0
    requires 1 <= period <= i < |bars|
    ensures var rows := GenerateSignals(bars, period, numStd, sqrt);
      var c := Closes(bars);
      && (rows[i].buySignal <==>
            !Exceeds(c[i - 1], Trailing(c, period, i - 1), numStd) && Exceeds(c[i], Trailing(c, period, i), numStd))
      && (rows[i].sellSignal <==>
            !Undercuts(c[i - 1], Trailing(c, period, i - 1), numStd) && Undercuts(c[i], Trailing(c, period, i), numStd))
  {
    var c := Closes(bars);
    RowFlags(bars, period, numStd, sqrt, i);
    UpperBandTest(c, period, numStd, i, sqrt);
    UpperBandTest(c, period, numStd, i - 1, sqrt);
    LowerBandTest(c, period, numStd, i, sqrt);
    LowerBandTest(c, period, numStd, i - 1, sqrt);
  }

  // ---------------------------------------------------------------------
  // Lemmas

  /** With a non-negative width the bands are ordered: lower ≤ middle ≤ upper. */
  lemma BandsOrdered(bars: seq<Bar>, period: int, numStd: real, sqrt: real -> real, i: int)
    requires IsSqrt(sqrt) && numStd >= 0.0
    requires 1 <= period <= i + 1 <= |bars|
    ensures var row := GenerateSignals(bars, period, numStd, sqrt)[i];
      row.lowerBand.value <= row.middleBand.value <= row.upperBand.value
  {
    var c := Closes(bars);
    var w := Trailing(c, period, i);
    assert sqrt(PopulationVariance(w)) >= 0.0;
    WidthOrdersBands(c, period, numStd, i, sqrt);
    RowAt(bars, period, numStd, sqrt, i);
  }

  /** A non-negative band width puts the bands of a full window in order. */
  lemma WidthOrdersBands(closes: seq<real>, period: int, numStd: real, i: int, sqrt: real -> real)
    requires 1 <= period <= i + 1 <= |closes|
    requires numStd >= 0.0 && sqrt(PopulationVariance(Trailing(closes, period, i))) >= 0.0
    ensures && UpperBand(closes, period, numStd, i, sqrt).Some?
            && LowerBand(closes, period, numStd, i, sqrt).Some?
            && RollingMean(closes, period, i).Some?
    ensures LowerBand(closes, period, numStd, i, sqrt).value
         <= RollingMean(closes, period, i).value
         <= UpperBand(closes, period, numStd, i, sqrt).value
  {
    var w := Trailing(closes, period, i);
    NonNegativeProduct(numStd, sqrt(PopulationVariance(w)));
    BandValues(closes, period, numStd, i, sqrt);
  }

  /** With a non-negative width no row is both a buy and a sell. */
  lemma NeverBuyAndSell(bars: seq<Bar>, period: int, numStd: real, sqrt: real -> real, i: int)
    requires IsSqrt(sqrt) && numStd >= 0.0
    requires period >= 1 && 0 <= i < |bars|
    ensures var row := GenerateSignals(bars, period, numStd, sqrt)[i];
      !(row.buySignal && row.sellSignal)
  {
    RowAt(bars, period, numStd, sqrt, i);
    if i + 1 >= period {
      BandsOrdered(bars, period, numStd, sqrt, i);
    }
  }

  /** A flag needs the bands of the previous row, so none appears before
      row `period`. */
  lemma SignalsAfterWarmUp(bars: seq<Bar>, period: int, numStd: real, sqrt: real -> real, i: int)
    requires period >= 1 && 0 <= i < |bars|
    ensures var row := GenerateSignals(bars, period, numStd, sqrt)[i];
      (row.buySignal || row.sellSignal) ==> i >= period
  {
  }

  /** A window of equal closes collapses the three bands onto that close, so
      its last row carries no flag. */
  lemma FlatWindowNoSignal(bars: seq<Bar>, period: int, numStd: real, sqrt: real -> real, i: int)
    requires IsSqrt(sqrt)
    requires 1 <= period <= i + 1 <= |bars|
    requires Constant(Trailing(Closes(bars), period, i))
    ensures var row := GenerateSignals(bars, period, numStd, sqrt)[i];
      && row.middleBand == Some(bars[i].close)
      && row.upperBand == Some(bars[i].close)
      && row.lowerBand == Some(bars[i].close)
      && !row.buySignal && !row.sellSignal
  {
    var c := Closes(bars);
    FlatBands(c, period, numStd, i, sqrt);
    RowAt(bars, period, numStd, sqrt, i);
  }

  /** The bands of a window of equal closes all sit on its last close. */
  lemma FlatBands(closes: seq<real>, period: int, numStd: real, i: int, sqrt: real -> real)
    requires sqrt(0.0) == 0.0
    requires 1 <= period <= i + 1 <= |closes|
    requires Constant(Trailing(closes, period, i))
    ensures RollingMean(closes, period, i) == Some(closes[i])
    ensures UpperBand(closes, period, numStd, i, sqrt) == Some(closes[i])
    ensures LowerBand(closes, period, numStd, i, sqrt) == Some(closes[i])
  {
    var w := Trailing(closes, period, i);
    assert w[period - 1] == closes[i];
    MeanOfConstant(w, closes[i]);
    VarianceZeroIffConstant(w);
    BandValues(closes, period, numStd, i, sqrt);
  }

  /** Twenty closes of 100 followed by a spike to 120, with a 20-row window
      and a width of 2: the spike row is a buy. Its window has mean 101 and
      variance 19, and 120 - 101 = 19 exceeds 2·√19; the row before sits
      exactly on its collapsed upper band. */
  lemma SpikeExample(bars: seq<Bar>, sqrt: real -> real)
    requires IsSqrt(sqrt)
    requires |bars| == 21
    requires forall i :: 0 <= i < 20 ==> bars[i].close == 100.0
    requires bars[20].close == 120.0
    ensures GenerateSignals(bars, 20, 2.0, sqrt)[20].buySignal
  {
    var c := Closes(bars);
    var before := Trailing(c, 20, 19);
    var spike := Trailing(c, 20, 20);
    var flat := spike[..19];
    assert spike == flat + [120.0];
    SpikeWindow(flat);
    assert Mean(before) == 100.0 && PopulationVariance(before) == 0.0 by {
      MeanOfConstant(before, 100.0);
      SquaredDeviationsOfConstant(before, 100.0, 100.0);
    }
    BreakoutTests(bars, 20, 2.0, sqrt, 20);
  }

  /** Mean and variance of nineteen values of 100 followed by 120. */
  lemma SpikeWindow(flat: seq<real>)
    requires |flat| == 19 && forall i :: 0 <= i < 19 ==> flat[i] == 100.0
    ensures Mean(flat + [120.0]) == 101.0
    ensures PopulationVariance(flat + [120.0]) == 19.0
  {
    var w := flat + [120.0];
    SumAppend(flat, [120.0]);
    SumOfConstant(flat, 100.0);
    assert Sum([120.0]) == 120.0;
    assert Sum(w) == 2020.0;
    SquaredDeviationsAppend(flat, [120.0], 101.0);
    SquaredDeviationsOfConstant(flat, 100.0, 101.0);
    assert SquaredDeviations([120.0], 101.0) == 361.0;
  }
}

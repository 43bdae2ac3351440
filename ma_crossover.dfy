/** The moving-average crossover strategy: a buy where the fast moving
    average of the close crosses above the slow one, a sell where it crosses
    back below. */
module MaCrossover {
  import opened Series

  /** A row of the signal frame: the input bar with the two moving averages
      and the two signal flags added. */
  datatype SignalRow = SignalRow(
    bar: Bar,
    fastMa: Option<real>,
    slowMa: Option<real>,
    buySignal: bool,
    sellSignal: bool)

  /** What `simulate_trades` reports. */
  datatype TradeSummary = TradeSummary(
    signals: seq<SignalRow>,
    totalBuySignals: nat,
    totalSellSignals: nat)

  /** `fast_ma > slow_ma` on a row: false while either average is missing. */
  predicate Above(row: SignalRow)
  {
    Greater(row.fastMa, row.slowMa)
  }

  /** Every buy flag marks a crossing of the fast average above the slow one
      since the previous row, and every sell flag a crossing below; the first
      row, which has no previous row, carries neither. */
  predicate MarksCrossings(rows: seq<SignalRow>)
  {
    && (forall i {:trigger rows[i]} :: 0 <= i < |rows| ==>
          (rows[i].buySignal <==> 0 < i && !Above(rows[i - 1]) && Above(rows[i])))
    && (forall i {:trigger rows[i]} :: 0 <= i < |rows| ==>
          (rows[i].sellSignal <==> 0 < i && Above(rows[i - 1]) && !Above(rows[i])))
  }

  /** The `fast_above_slow` column at row `i`. */
  predicate FastAboveSlow(closes: seq<real>, fastPeriod: int, slowPeriod: int, i: int)
    requires fastPeriod >= 1 && slowPeriod >= 1 && 0 <= i < |closes|
  {
    Greater(RollingMean(closes, fastPeriod, i), RollingMean(closes, slowPeriod, i))
  }

  /** The `fast_above_slow_prev` column: the column shifted down one row,
      missing at the first row. */
  function PreviousAbove(closes: seq<real>, fastPeriod: int, slowPeriod: int, i: int): Option<bool>
    requires fastPeriod >= 1 && slowPeriod >= 1 && 0 <= i < |closes|
  {
    if i == 0 then None else Some(FastAboveSlow(closes, fastPeriod, slowPeriod, i - 1))
  }

  /** Row `i` of the frame `generate_signals` returns. */
  function SignalAt(bars: seq<Bar>, fastPeriod: int, slowPeriod: int, i: int): SignalRow
    requires fastPeriod >= 1 && slowPeriod >= 1 && 0 <= i < |bars|
  {
    var closes := Closes(bars);
    var above := FastAboveSlow(closes, fastPeriod, slowPeriod, i);
    var prev := PreviousAbove(closes, fastPeriod, slowPeriod, i);
    SignalRow(
      bars[i],
      RollingMean(closes, fastPeriod, i),
      RollingMean(closes, slowPeriod, i),
      above && prev == Some(false),
      !above && prev == Some(true))
  }

  /** generate_signals */
  function GenerateSignals(bars: seq<Bar>, fastPeriod: int, slowPeriod: int): (rows: seq<SignalRow>)
    requires fastPeriod >= 1 && slowPeriod >= 1
    ensures |rows| == |bars|
    ensures forall i :: 0 <= i < |bars| ==> rows[i].bar == bars[i]
    ensures forall i :: 0 <= i < |bars| ==>
      && rows[i].fastMa == RollingMean(Closes(bars), fastPeriod, i)
      && rows[i].slowMa == RollingMean(Closes(bars), slowPeriod, i)
    ensures MarksCrossings(rows)
    ensures forall i :: 0 <= i < |bars| ==> !(rows[i].buySignal && rows[i].sellSignal)
  {
    SignalAtFlags(bars, fastPeriod, slowPeriod);
    seq(|bars|, i requires 0 <= i < |bars| => SignalAt(bars, fastPeriod, slowPeriod, i))
  }

  lemma SignalAtFlags(bars: seq<Bar>, fastPeriod: int, slowPeriod: int)
    requires fastPeriod >= 1 && slowPeriod >= 1
    ensures forall i :: 0 <= i < |bars| ==>
      var row := SignalAt(bars, fastPeriod, slowPeriod, i);
      && row.bar == bars[i]
      && (row.buySignal <==> 0 < i && !Above(SignalAt(bars, fastPeriod, slowPeriod, i - 1)) && Above(row))
      && (row.sellSignal <==> 0 < i && Above(SignalAt(bars, fastPeriod, slowPeriod, i - 1)) && !Above(row))
  {
    forall i | 0 <= i < |bars|
      ensures Above(SignalAt(bars, fastPeriod, slowPeriod, i)) == FastAboveSlow(Closes(bars), fastPeriod, slowPeriod, i)
    {
    }
  }

  /** The number of buy flags. */
  function CountBuys(rows: seq<SignalRow>): (n: nat)
    ensures n <= |rows|
  {
    if |rows| == 0 then 0
    else CountBuys(rows[..|rows| - 1]) + (if rows[|rows| - 1].buySignal then 1 else 0)
  }

  /** The number of sell flags. */
  function CountSells(rows: seq<SignalRow>): (n: nat)
    ensures n <= |rows|
  {
    if |rows| == 0 then 0
    else CountSells(rows[..|rows| - 1]) + (if rows[|rows| - 1].sellSignal then 1 else 0)
  }

  /** simulate_trades: the signal rows and their buy and sell totals. */
  function SimulateTrades(signals: seq<SignalRow>): (r: TradeSummary)
    ensures r.signals == signals
    ensures r.totalBuySignals <= |signals| && r.totalSellSignals <= |signals|
    ensures MarksCrossings(signals) && (|signals| > 0 ==> !Above(signals[0])) ==>
      r.totalSellSignals <= r.totalBuySignals <= r.totalSellSignals + 1
  {
    if MarksCrossings(signals) && (|signals| > 0 ==> !Above(signals[0])) then
      CrossingCounts(signals);
      TradeSummary(signals, CountBuys(signals), CountSells(signals))
    else
      TradeSummary(signals, CountBuys(signals), CountSells(signals))
  }

  // ---------------------------------------------------------------------
  // Lemmas

  /** The averages are never above each other on the first row: both are
      present there only when both periods are 1, and then they are equal. */
  lemma FirstRowNotAbove(bars: seq<Bar>, fastPeriod: int, slowPeriod: int)
    requires fastPeriod >= 1 && slowPeriod >= 1 && |bars| > 0
    ensures !Above(GenerateSignals(bars, fastPeriod, slowPeriod)[0])
  {
    var rows := GenerateSignals(bars, fastPeriod, slowPeriod);
    if rows[0].fastMa.Some? && rows[0].slowMa.Some? {
      assert fastPeriod == 1 && slowPeriod == 1;
    }
  }

  /** No flag before both averages exist: a buy needs the longer window
      filled, a sell needs it filled one row earlier. */
  lemma SignalsAfterWarmUp(bars: seq<Bar>, fastPeriod: int, slowPeriod: int, i: int)
    requires fastPeriod >= 1 && slowPeriod >= 1 && 0 <= i < |bars|
    ensures var rows := GenerateSignals(bars, fastPeriod, slowPeriod);
      var longest := if fastPeriod < slowPeriod then slowPeriod else fastPeriod;
      && (Above(rows[i]) ==> i + 1 >= longest)
      && (rows[i].buySignal ==> i + 1 >= longest)
      && (rows[i].sellSignal ==> i >= longest)
  {
    var rows := GenerateSignals(bars, fastPeriod, slowPeriod);
    if i > 0 {
      assert Above(rows[i - 1]) ==> rows[i - 1].fastMa.Some? && rows[i - 1].slowMa.Some?;
    }
  }

  /** The flags of one row of a frame that marks crossings. */
  lemma Flags(rows: seq<SignalRow>, i: int)
    requires MarksCrossings(rows) && 0 <= i < |rows|
    ensures rows[i].buySignal <==> 0 < i && !Above(rows[i - 1]) && Above(rows[i])
    ensures rows[i].sellSignal <==> 0 < i && Above(rows[i - 1]) && !Above(rows[i])
  {
  }

  /** Between a row above and a later row not above there is a sell. */
  lemma {:induction false} FallBetween(rows: seq<SignalRow>, a: int, b: int)
    requires MarksCrossings(rows) && 0 <= a < b < |rows|
    requires Above(rows[a]) && !Above(rows[b])
    ensures exists k :: a < k <= b && rows[k].sellSignal
  {
    Flags(rows, b);
    if Above(rows[b - 1]) {
      assert rows[b].sellSignal;
    } else {
      FallBetween(rows, a, b - 1);
    }
  }

  /** Between a row not above and a later row above there is a buy. */
  lemma {:induction false} RiseBetween(rows: seq<SignalRow>, a: int, b: int)
    requires MarksCrossings(rows) && 0 <= a < b < |rows|
    requires !Above(rows[a]) && Above(rows[b])
    ensures exists k :: a < k <= b && rows[k].buySignal
  {
    Flags(rows, b);
    if !Above(rows[b - 1]) {
      assert rows[b].buySignal;
    } else {
      RiseBetween(rows, a, b - 1);
    }
  }

  /** Two buys always have a sell between them, and two sells a buy. */
  lemma SignalsAlternate(rows: seq<SignalRow>, i: int, j: int)
    requires MarksCrossings(rows) && 0 <= i < j < |rows|
    ensures rows[i].buySignal && rows[j].buySignal ==> exists k :: i < k < j && rows[k].sellSignal
    ensures rows[i].sellSignal && rows[j].sellSignal ==> exists k :: i < k < j && rows[k].buySignal
  {
    Flags(rows, i);
    Flags(rows, j);
    if rows[i].buySignal && rows[j].buySignal {
      FallBetween(rows, i, j - 1);
    }
    if rows[i].sellSignal && rows[j].sellSignal {
      RiseBetween(rows, i, j - 1);
    }
  }

  /** When the first row is not above, every sell follows an earlier buy. */
  lemma SellFollowsBuy(rows: seq<SignalRow>, j: int)
    requires MarksCrossings(rows) && 0 <= j < |rows| && !Above(rows[0])
    requires rows[j].sellSignal
    ensures exists k :: 0 < k < j && rows[k].buySignal
  {
    Flags(rows, j);
    RiseBetween(rows, 0, j - 1);
  }

  lemma MarksCrossingsPrefix(rows: seq<SignalRow>, n: int)
    requires MarksCrossings(rows) && 0 <= n <= |rows|
    ensures MarksCrossings(rows[..n])
  {
    var p := rows[..n];
    forall i | 0 <= i < n
      ensures p[i].buySignal <==> 0 < i && !Above(p[i - 1]) && Above(p[i])
      ensures p[i].sellSignal <==> 0 < i && Above(p[i - 1]) && !Above(p[i])
    {
      Flags(rows, i);
      if i > 0 {
        assert p[i - 1] == rows[i - 1];
      }
    }
  }

  /** Buys and sells balance: there is one more buy than sells exactly when
      the last row is above, so the totals differ by at most one. */
  lemma {:induction false} CrossingCounts(rows: seq<SignalRow>)
    requires MarksCrossings(rows)
    requires |rows| > 0 ==> !Above(rows[0])
    ensures CountBuys(rows) == CountSells(rows) + (if |rows| > 0 && Above(rows[|rows| - 1]) then 1 else 0)
  {
    if |rows| > 1 {
      var before := rows[..|rows| - 1];
      MarksCrossingsPrefix(rows, |rows| - 1);
      assert before[0] == rows[0];
      CrossingCounts(before);
      assert before[|before| - 1] == rows[|rows| - 2];
      Flags(rows, |rows| - 1);
    } else if |rows| == 1 {
      assert rows[..0] == [];
      Flags(rows, 0);
    }
  }

  /** Over strictly rising closes the fast average sits above the slow one
      once the slow window is full. */
  lemma RisingFastAboveSlow(closes: seq<real>, fastPeriod: int, slowPeriod: int, i: int)
    requires Increasing(closes)
    requires 1 <= fastPeriod < slowPeriod <= i + 1 <= |closes|
    ensures Mean(Trailing(closes, fastPeriod, i)) > Mean(Trailing(closes, slowPeriod, i))
  {
    var w := Trailing(closes, slowPeriod, i);
    var head := w[..slowPeriod - fastPeriod];
    var tail := w[slowPeriod - fastPeriod..];
    assert w == head + tail;
    assert tail == Trailing(closes, fastPeriod, i);
    var first := tail[0];
    forall k | 0 <= k < |tail|
      ensures tail[k] >= first
    {
      if k > 0 {
        IncreasingLess(closes, i + 1 - fastPeriod, i + 1 - fastPeriod + k);
      }
    }
    MeanAtLeast(tail, first);
    forall k | 0 <= k < |head|
      ensures head[k] < Mean(tail)
    {
      IncreasingLess(closes, i + 1 - slowPeriod + k, i + 1 - fastPeriod);
    }
    MeanOfSplit(head, tail);
  }

  /** Over strictly rising closes, with a fast period shorter than the slow
      one, the fast average is above exactly from the row where the slow
      window first fills. */
  lemma RisingPricesAbove(bars: seq<Bar>, fastPeriod: int, slowPeriod: int)
    requires 1 <= fastPeriod < slowPeriod
    requires Increasing(Closes(bars))
    ensures var rows := GenerateSignals(bars, fastPeriod, slowPeriod);
      forall i :: 0 <= i < |bars| ==> (Above(rows[i]) <==> i >= slowPeriod - 1)
  {
    var rows := GenerateSignals(bars, fastPeriod, slowPeriod);
    forall i | 0 <= i < |bars|
      ensures Above(rows[i]) <==> i >= slowPeriod - 1
    {
      if i >= slowPeriod - 1 {
        RisingFastAboveSlow(Closes(bars), fastPeriod, slowPeriod, i);
      }
    }
  }

  /** A frame that is above exactly from row `start` on (not the first row)
      has one buy, at `start`, and no sell. */
  lemma SingleCrossing(rows: seq<SignalRow>, start: int)
    requires MarksCrossings(rows) && 0 < start < |rows|
    requires forall i :: 0 <= i < |rows| ==> (Above(rows[i]) <==> i >= start)
    ensures forall i :: 0 <= i < |rows| ==> (rows[i].buySignal <==> i == start)
    ensures forall i :: 0 <= i < |rows| ==> !rows[i].sellSignal
    ensures CountBuys(rows) == 1 && CountSells(rows) == 0
  {
    forall i | 0 <= i < |rows|
      ensures rows[i].buySignal <==> i == start
      ensures !rows[i].sellSignal
    {
      Flags(rows, i);
    }
    CrossingCounts(rows);
    NoSells(rows);
  }

  /** Strictly rising closes with a fast period shorter than the slow one:
      exactly one buy, on the row where the slow window first fills, and no
      sell. */
  lemma RisingPricesCrossOnce(bars: seq<Bar>, fastPeriod: int, slowPeriod: int)
    requires 1 <= fastPeriod < slowPeriod <= |bars|
    requires Increasing(Closes(bars))
    ensures var rows := GenerateSignals(bars, fastPeriod, slowPeriod);
      && (forall i :: 0 <= i < |bars| ==> (rows[i].buySignal <==> i == slowPeriod - 1))
      && (forall i :: 0 <= i < |bars| ==> !rows[i].sellSignal)
      && CountBuys(rows) == 1 && CountSells(rows) == 0
  {
    RisingPricesAbove(bars, fastPeriod, slowPeriod);
    SingleCrossing(GenerateSignals(bars, fastPeriod, slowPeriod), slowPeriod - 1);
  }

  lemma {:induction false} NoSells(rows: seq<SignalRow>)
    requires forall i :: 0 <= i < |rows| ==> !rows[i].sellSignal
    ensures CountSells(rows) == 0
  {
    if |rows| > 0 {
      NoSells(rows[..|rows| - 1]);
    }
  }

  /** Closes 100, 101, ..., 105 with periods 2 and 3: one buy on the third
      row and no sell. */
  lemma RisingPricesExample(bars: seq<Bar>)
    requires |bars| == 6 && forall i :: 0 <= i < 6 ==> bars[i].close == 100.0 + i as real
    ensures var rows := GenerateSignals(bars, 2, 3);
      CountBuys(rows) == 1 && CountSells(rows) == 0 && rows[2].buySignal
  {
    var closes := Closes(bars);
    assert Increasing(closes);
    RisingPricesCrossOnce(bars, 2, 3);
  }
}

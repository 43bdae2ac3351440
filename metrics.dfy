/** The metrics engine: round-trip statistics of a trade log, and risk
    statistics of a portfolio-value series (Sharpe, Sortino, maximum
    drawdown, annualised volatility). */
module Metrics {
  import opened Series

  // ---------------------------------------------------------------------
  // Data

  /** The `action` of a trade record; `Other` stands for any other value. */
  datatype Action = Buy | Sell | Other

  datatype Trade = Trade(action: Action, price: real, shares: real)

  /** A buy closed by a later sell: its profit and its return on the cost basis. */
  datatype RoundTrip = RoundTrip(pnl: real, ret: real)

  /** A ratio as the source reports it: a finite value, +infinity, or
      undefined where pandas computes NaN. */
  datatype Stat = Finite(value: real) | PosInf | Undefined

  datatype BasicMetrics = BasicMetrics(
    initialCash: real,
    finalPortfolioValue: real,
    totalReturn: real,
    totalTrades: nat,
    roundTrips: nat,
    winRate: real,
    avgWin: real,
    avgLoss: real,
    avgTradeReturn: real)

  datatype FullMetrics = FullMetrics(
    basic: BasicMetrics,
    sharpeRatio: Stat,
    sortinoRatio: Stat,
    maxDrawdown: real,
    volatility: Stat)

  /** Trading periods per year used to annualise. */
  const TradingDays: real := 252.0

  // ---------------------------------------------------------------------
  // Basic metrics

  /** The last portfolio value, or the initial cash when there is none. */
  function FinalValue(initialCash: real, portfolioValues: seq<real>): real
  {
    if |portfolioValues| > 0 then portfolioValues[|portfolioValues| - 1] else initialCash
  }

  /** Relative gain over the initial cash; zero when the initial cash is not positive. */
  function TotalReturn(initialCash: real, finalValue: real): real
  {
    if initialCash > 0.0 then (finalValue - initialCash) / initialCash else 0.0
  }

  /** The round trip of `buy` closed by `sell`, on the smaller of their share counts. */
  function CloseRoundTrip(buy: Trade, sell: Trade): RoundTrip
  {
    var shares := if sell.shares < buy.shares then sell.shares else buy.shares;
    var pnl := (sell.price - buy.price) * shares;
    var cost := if buy.price > 0.0 then buy.price * shares else 0.0;
    RoundTrip(pnl, if cost > 0.0 then pnl / cost else 0.0)
  }

  /** The buy left open after replaying `trades`: a buy replaces any open buy,
      a sell always leaves none open (it either closes the open buy or is
      ignored), and any other action changes nothing. */
  function PendingBuy(trades: seq<Trade>): Option<Trade>
  {
    if |trades| == 0 then None
    else
      var t := trades[|trades| - 1];
      match t.action
      case Buy => Some(t)
      case Sell => None
      case Other => PendingBuy(trades[..|trades| - 1])
  }

  /** The round trips of `trades`, in order: each sell that finds a buy open
      closes it; a sell with no open buy contributes nothing. */
  function RoundTrips(trades: seq<Trade>): seq<RoundTrip>
  {
    if |trades| == 0 then []
    else
      var before := trades[..|trades| - 1];
      var t := trades[|trades| - 1];
      var open := PendingBuy(before);
      if t.action == Sell && open.Some? then RoundTrips(before) + [CloseRoundTrip(open.value, t)]
      else RoundTrips(before)
  }

  /** The number of trades whose action is `a`. */
  function CountAction(trades: seq<Trade>, a: Action): nat
  {
    if |trades| == 0 then 0
    else CountAction(trades[..|trades| - 1], a) + (if trades[|trades| - 1].action == a then 1 else 0)
  }

  /** The winning round trips, in order. */
  function Wins(rts: seq<RoundTrip>): (w: seq<RoundTrip>)
    ensures |w| <= |rts|
    ensures forall i :: 0 <= i < |w| ==> w[i].pnl > 0.0
  {
    if |rts| == 0 then []
    else (if rts[0].pnl > 0.0 then [rts[0]] else []) + Wins(rts[1..])
  }

  /** The round trips that did not win (pnl at most zero), in order. */
  function Losses(rts: seq<RoundTrip>): (l: seq<RoundTrip>)
    ensures |l| <= |rts|
    ensures forall i :: 0 <= i < |l| ==> l[i].pnl <= 0.0
  {
    if |rts| == 0 then []
    else (if rts[0].pnl <= 0.0 then [rts[0]] else []) + Losses(rts[1..])
  }

  function SumPnl(rts: seq<RoundTrip>): real
  {
    if |rts| == 0 then 0.0 else rts[0].pnl + SumPnl(rts[1..])
  }

  function SumReturns(rts: seq<RoundTrip>): real
  {
    if |rts| == 0 then 0.0 else rts[0].ret + SumReturns(rts[1..])
  }

  function WinRate(rts: seq<RoundTrip>): real
  {
    if |rts| > 0 then |Wins(rts)| as real / |rts| as real else 0.0
  }

  function AvgWin(rts: seq<RoundTrip>): real
  {
    var w := Wins(rts);
    if |w| > 0 then SumPnl(w) / |w| as real else 0.0
  }

  function AvgLoss(rts: seq<RoundTrip>): real
  {
    var l := Losses(rts);
    if |l| > 0 then SumPnl(l) / |l| as real else 0.0
  }

  function AvgTradeReturn(rts: seq<RoundTrip>): real
  {
    if |rts| > 0 then SumReturns(rts) / |rts| as real else 0.0
  }

  /** The record `get_basic_metrics` returns, and what it promises. */
  function BasicMetricsOf(initialCash: real, trades: seq<Trade>, portfolioValues: seq<real>): (m: BasicMetrics)
    ensures m.initialCash == initialCash
    ensures |portfolioValues| == 0 ==> m.finalPortfolioValue == initialCash && m.totalReturn == 0.0
    ensures |portfolioValues| > 0 ==> m.finalPortfolioValue == portfolioValues[|portfolioValues| - 1]
    ensures initialCash > 0.0 ==> m.finalPortfolioValue == initialCash * (1.0 + m.totalReturn)
    ensures initialCash <= 0.0 ==> m.totalReturn == 0.0
    ensures m.totalTrades == |trades|
    ensures m.roundTrips <= CountAction(trades, Sell) && m.roundTrips <= CountAction(trades, Buy)
    ensures 0.0 <= m.winRate <= 1.0 && (m.roundTrips == 0 ==> m.winRate == 0.0)
    ensures m.avgWin >= 0.0 && m.avgLoss <= 0.0
  {
    var rts := RoundTrips(trades);
    var final := FinalValue(initialCash, portfolioValues);
    RoundTripsBounded(trades);
    WinRateBounds(rts);
    AverageSigns(rts);
    BasicMetrics(
      initialCash, final, TotalReturn(initialCash, final), |trades|, |rts|,
      WinRate(rts), AvgWin(rts), AvgLoss(rts), AvgTradeReturn(rts))
  }

  /** get_basic_metrics: replays the trade log once, keeping the open buy. */
  method GetBasicMetrics(initialCash: real, trades: seq<Trade>, portfolioValues: seq<real>)
    returns (m: BasicMetrics)
    ensures m == BasicMetricsOf(initialCash, trades, portfolioValues)
  {
    var finalValue := if |portfolioValues| > 0 then portfolioValues[|portfolioValues| - 1] else initialCash;
    var totalReturn := 0.0;
    if initialCash > 0.0 {
      totalReturn := (finalValue - initialCash) / initialCash;
    }

    var roundTripPnls: seq<RoundTrip> := [];
    var lastBuy: Option<Trade> := None;
    for i := 0 to |trades|
      invariant roundTripPnls == RoundTrips(trades[..i])
      invariant lastBuy == PendingBuy(trades[..i])
    {
      var t := trades[i];
      assert trades[..i + 1][..i] == trades[..i];
      if t.action == Buy {
        lastBuy := Some(t);
      } else if t.action == Sell && lastBuy.Some? {
        roundTripPnls := roundTripPnls + [CloseRoundTrip(lastBuy.value, t)];
        lastBuy := None;
      }
    }
    assert trades[..|trades|] == trades;

    var n := |roundTripPnls|;
    m := BasicMetrics(
      initialCash, finalValue, totalReturn, |trades|, n,
      WinRate(roundTripPnls), AvgWin(roundTripPnls), AvgLoss(roundTripPnls),
      AvgTradeReturn(roundTripPnls));
  }

  // ---------------------------------------------------------------------
  // Lemmas about round trips

  /** No more round trips than sells, and no more than buys (counting the
      buy still open, if any). */
  lemma {:induction false} RoundTripsBounded(trades: seq<Trade>)
    ensures |RoundTrips(trades)| <= CountAction(trades, Sell)
    ensures |RoundTrips(trades)| + (if PendingBuy(trades).Some? then 1 else 0) <= CountAction(trades, Buy)
  {
    if |trades| > 0 {
      RoundTripsBounded(trades[..|trades| - 1]);
    }
  }

  /** The latest buy is the open one while no sell follows it. */
  lemma {:induction false} LatestBuyIsPending(trades: seq<Trade>, b: int)
    requires 0 <= b < |trades| && trades[b].action == Buy
    requires forall k :: b < k < |trades| ==> trades[k].action == Other
    ensures PendingBuy(trades) == Some(trades[b])
  {
    if b < |trades| - 1 {
      var before := trades[..|trades| - 1];
      assert before[b] == trades[b];
      LatestBuyIsPending(before, b);
    }
  }

  /** After a sell, no buy is open until the next buy. */
  lemma {:induction false} SellLeavesNothingOpen(trades: seq<Trade>, s: int)
    requires 0 <= s < |trades| && trades[s].action == Sell
    requires forall k :: s < k < |trades| ==> trades[k].action != Buy
    ensures PendingBuy(trades) == None
  {
    if s < |trades| - 1 {
      var before := trades[..|trades| - 1];
      assert before[s] == trades[s];
      SellLeavesNothingOpen(before, s);
    }
  }

  /** A log that alternates buy, sell, buy, ... pairs every sell: it has
      |trades|/2 round trips, and a buy is left open exactly when the log
      ends on a buy. */
  lemma {:induction false} AlternatingTrades(trades: seq<Trade>)
    requires forall i :: 0 <= i < |trades| ==> trades[i].action == (if i % 2 == 0 then Buy else Sell)
    ensures |RoundTrips(trades)| == |trades| / 2
    ensures PendingBuy(trades) == (if |trades| % 2 == 1 then Some(trades[|trades| - 1]) else None)
  {
    if |trades| > 0 {
      var before := trades[..|trades| - 1];
      AlternatingTrades(before);
    }
  }

  lemma {:induction false} WinsLossesPartition(rts: seq<RoundTrip>)
    ensures |Wins(rts)| + |Losses(rts)| == |rts|
  {
    if |rts| > 0 {
      WinsLossesPartition(rts[1..]);
    }
  }

  lemma {:induction false} SumPnlOfWins(rts: seq<RoundTrip>)
    requires |rts| > 0
    requires forall i :: 0 <= i < |rts| ==> rts[i].pnl > 0.0
    ensures SumPnl(rts) > 0.0
  {
    if |rts| > 1 {
      SumPnlOfWins(rts[1..]);
    }
  }

  lemma {:induction false} SumPnlOfLosses(rts: seq<RoundTrip>)
    requires forall i :: 0 <= i < |rts| ==> rts[i].pnl <= 0.0
    ensures SumPnl(rts) <= 0.0
  {
    if |rts| > 0 {
      SumPnlOfLosses(rts[1..]);
    }
  }

  /** The win rate is a fraction, and zero without round trips. */
  lemma WinRateBounds(rts: seq<RoundTrip>)
    ensures 0.0 <= WinRate(rts) <= 1.0
    ensures |rts| == 0 ==> WinRate(rts) == 0.0
    ensures |rts| > 0 ==> (WinRate(rts) == 1.0 <==> |Losses(rts)| == 0)
  {
    WinsLossesPartition(rts);
    if |rts| > 0 {
      RatioAgainstOne(|Wins(rts)| as real, |rts| as real);
    }
  }

  /** The average win is positive when there are wins; the average loss is
      at most zero. */
  lemma AverageSigns(rts: seq<RoundTrip>)
    ensures |Wins(rts)| > 0 ==> AvgWin(rts) > 0.0
    ensures |Wins(rts)| == 0 ==> AvgWin(rts) == 0.0
    ensures AvgWin(rts) >= 0.0
    ensures AvgLoss(rts) <= 0.0
  {
    var w := Wins(rts);
    if |w| > 0 {
      SumPnlOfWins(w);
      QuotientSign(SumPnl(w), |w| as real);
    }
    var l := Losses(rts);
    if |l| > 0 {
      SumPnlOfLosses(l);
      QuotientSign(SumPnl(l), |l| as real);
    }
  }

  /** With positive prices and share counts, a round trip wins exactly when
      it sells above its buy price, and its return agrees in sign with its pnl. */
  lemma RoundTripSign(buy: Trade, sell: Trade)
    requires buy.price > 0.0 && buy.shares > 0.0 && sell.shares > 0.0
    ensures CloseRoundTrip(buy, sell).pnl > 0.0 <==> sell.price > buy.price
    ensures CloseRoundTrip(buy, sell).ret > 0.0 <==> sell.price > buy.price
    ensures CloseRoundTrip(buy, sell).ret * buy.price == sell.price - buy.price
  {
    var shares := if sell.shares < buy.shares then sell.shares else buy.shares;
    var d := sell.price - buy.price;
    var cost := buy.price * shares;
    assert cost > 0.0;
    assert d * shares > 0.0 <==> d > 0.0;
    assert (d * shares) / cost == d / buy.price;
  }

  /** A buy at 100 closed by a sell at 110, one share each: a gain of 10, a return of 10%. */
  lemma OneRoundTrip()
    ensures RoundTrips([Trade(Buy, 100.0, 1.0), Trade(Sell, 110.0, 1.0)]) == [RoundTrip(10.0, 0.1)]
    ensures PendingBuy([Trade(Buy, 100.0, 1.0), Trade(Sell, 110.0, 1.0)]) == None
  {
    var trades := [Trade(Buy, 100.0, 1.0), Trade(Sell, 110.0, 1.0)];
    assert trades[..1] == [Trade(Buy, 100.0, 1.0)];
    assert [Trade(Buy, 100.0, 1.0)][..0] == [];
  }

  /** One buy at 100 and one sell at 110 of one share, values [1000, 1010]. */
  lemma OneRoundTripExample()
    ensures BasicMetricsOf(1000.0, [Trade(Buy, 100.0, 1.0), Trade(Sell, 110.0, 1.0)], [1000.0, 1010.0])
         == BasicMetrics(1000.0, 1010.0, 0.01, 2, 1, 1.0, 10.0, 0.0, 0.1)
  {
    OneRoundTrip();
    var rts := [RoundTrip(10.0, 0.1)];
    assert Wins(rts) == rts;
    assert Losses(rts) == [];
  }

  // ---------------------------------------------------------------------
  // Risk statistics

  /** `pct_change().dropna()`: the simple return from each value to the next. */
  function PeriodReturns(values: seq<real>): (r: seq<real>)
    requires AllPositive(values)
    ensures |r| == if |values| == 0 then 0 else |values| - 1
    ensures forall i :: 0 <= i < |r| ==> (r[i] < 0.0 <==> values[i + 1] < values[i])
    ensures forall i :: 0 <= i < |r| ==> (r[i] == 0.0 <==> values[i + 1] == values[i])
  {
    if |values| == 0 then []
    else
      ReturnSigns(values);
      seq(|values| - 1, i requires 0 <= i < |values| - 1 => values[i + 1] / values[i] - 1.0)
  }

  lemma ReturnSigns(values: seq<real>)
    requires AllPositive(values)
    ensures forall i :: 0 <= i < |values| - 1 ==>
      && (values[i + 1] / values[i] - 1.0 < 0.0 <==> values[i + 1] < values[i])
      && (values[i + 1] / values[i] - 1.0 == 0.0 <==> values[i + 1] == values[i])
  {
    forall i | 0 <= i < |values| - 1
      ensures values[i + 1] / values[i] - 1.0 < 0.0 <==> values[i + 1] < values[i]
      ensures values[i + 1] / values[i] - 1.0 == 0.0 <==> values[i + 1] == values[i]
    {
      var a, b := values[i + 1], values[i];
      RatioAgainstOne(a, b);
    }
  }

  /** The strictly negative returns, in order. */
  function Negatives(xs: seq<real>): (r: seq<real>)
    ensures forall i :: 0 <= i < |r| ==> r[i] < 0.0
    ensures |r| == 0 <==> forall i :: 0 <= i < |xs| ==> xs[i] >= 0.0
  {
    if |xs| == 0 then []
    else (if xs[0] < 0.0 then [xs[0]] else []) + Negatives(xs[1..])
  }

  /** A per-period deviation scaled to a year by the square root of the
      trading days; zero exactly when the deviation is. */
  function Annualised(deviation: real, sqrt: real -> real): (r: real)
    requires IsSqrt(sqrt) && deviation >= 0.0
    ensures r >= 0.0
    ensures r > 0.0 <==> deviation > 0.0
  {
    SqrtPositive(sqrt, TradingDays);
    ScaledSign(deviation, sqrt(TradingDays));
    deviation * sqrt(TradingDays)
  }

  /** An annualised excess return over an annualised deviation of the
      per-period returns; it has the sign of the excess return. */
  function RiskAdjusted(excess: real, deviation: real, sqrt: real -> real): (r: real)
    requires IsSqrt(sqrt) && deviation > 0.0
    ensures r > 0.0 <==> excess > 0.0
    ensures r < 0.0 <==> excess < 0.0
    ensures r == 0.0 <==> excess == 0.0
  {
    var annualisedDeviation := Annualised(deviation, sqrt);
    QuotientSign(excess, annualisedDeviation);
    excess / annualisedDeviation
  }

  /** get_sharpe_ratio */
  function SharpeRatio(values: seq<real>, riskFreeRate: real, sqrt: real -> real): (r: Stat)
    requires AllPositive(values) && IsSqrt(sqrt)
    ensures |values| < 2 ==> r == Finite(0.0)
    ensures r != PosInf
    ensures r.Undefined? <==> |values| == 2
  {
    if |values| < 2 then Finite(0.0)
    else
      var rets := PeriodReturns(values);
      if |rets| == 0 then Finite(0.0)
      else
        match SampleStd(rets, sqrt)
        case None => Undefined
        case Some(std) =>
          if std == 0.0 then Finite(0.0)
          else Finite(RiskAdjusted(Mean(rets) * TradingDays - riskFreeRate, std, sqrt))
  }

  /** get_sortino_ratio */
  function SortinoRatio(values: seq<real>, riskFreeRate: real, sqrt: real -> real): (r: Stat)
    requires AllPositive(values) && IsSqrt(sqrt)
    ensures |values| < 2 ==> r == Finite(0.0)
    ensures r.Undefined? <==> |values| >= 2 && |Negatives(PeriodReturns(values))| == 1
  {
    if |values| < 2 then Finite(0.0)
    else
      var rets := PeriodReturns(values);
      if |rets| == 0 then Finite(0.0)
      else
        var annualized := Mean(rets) * TradingDays;
        var noDownside := if annualized > riskFreeRate then PosInf else Finite(0.0);
        var negative := Negatives(rets);
        if |negative| == 0 then noDownside
        else
          match SampleStd(negative, sqrt)
          case None => Undefined
          case Some(std) =>
            if std == 0.0 then noDownside
            else Finite(RiskAdjusted(annualized - riskFreeRate, std, sqrt))
  }

  /** get_volatility: the annualised sample standard deviation of the returns. */
  function Volatility(values: seq<real>, sqrt: real -> real): (r: Stat)
    requires AllPositive(values) && IsSqrt(sqrt)
    ensures r != PosInf
    ensures r.Undefined? <==> |values| == 2
    ensures r.Finite? ==> r.value >= 0.0
  {
    if |values| < 2 then Finite(0.0)
    else
      var rets := PeriodReturns(values);
      if |rets| == 0 then Finite(0.0)
      else
        match SampleStd(rets, sqrt)
        case None => Undefined
        case Some(std) => Finite(Annualised(std, sqrt))
  }

  /** The running maximum (`cummax`) of `values` at row `i`. */
  function RunningMax(values: seq<real>, i: int): (r: real)
    requires 0 <= i < |values|
    ensures forall j :: 0 <= j <= i ==> values[j] <= r
    ensures exists j :: 0 <= j <= i && r == values[j]
  {
    if i == 0 then values[0]
    else
      var before := RunningMax(values, i - 1);
      if values[i] > before then values[i] else before
  }

  /** `s / running_max - 1.0`: each value's relative position below its peak. */
  function Drawdowns(values: seq<real>): (d: seq<real>)
    requires AllPositive(values)
    ensures |d| == |values|
    ensures forall i :: 0 <= i < |values| ==> -1.0 < d[i] <= 0.0
    ensures forall i :: 0 <= i < |values| ==> (d[i] == 0.0 <==> values[i] == RunningMax(values, i))
  {
    DrawdownBounds(values);
    seq(|values|, i requires 0 <= i < |values| => values[i] / RunningMax(values, i) - 1.0)
  }

  lemma DrawdownBounds(values: seq<real>)
    requires AllPositive(values)
    ensures forall i :: 0 <= i < |values| ==>
      && -1.0 < values[i] / RunningMax(values, i) - 1.0 <= 0.0
      && (values[i] / RunningMax(values, i) - 1.0 == 0.0 <==> values[i] == RunningMax(values, i))
  {
    forall i | 0 <= i < |values|
      ensures -1.0 < values[i] / RunningMax(values, i) - 1.0 <= 0.0
      ensures values[i] / RunningMax(values, i) - 1.0 == 0.0 <==> values[i] == RunningMax(values, i)
    {
      var a, b := values[i], RunningMax(values, i);
      assert a <= b;
      assert b > 0.0;
      RatioAgainstOne(a, b);
      QuotientSign(a, b);
    }
  }

  /** The least element of a non-empty sequence. */
  function Least(xs: seq<real>): (r: real)
    requires |xs| > 0
    ensures forall i :: 0 <= i < |xs| ==> r <= xs[i]
    ensures exists i :: 0 <= i < |xs| && r == xs[i]
  {
    if |xs| == 1 then xs[0]
    else
      var rest := Least(xs[1..]);
      assert forall i :: 1 <= i < |xs| ==> xs[i] == xs[1..][i - 1];
      if xs[0] <= rest then xs[0] else rest
  }

  /** get_max_drawdown: the absolute value of the most negative drawdown. */
  function MaxDrawdown(values: seq<real>): (r: real)
    requires AllPositive(values)
    ensures |values| == 0 ==> r == 0.0
    ensures 0.0 <= r < 1.0
    ensures forall i :: 0 <= i < |values| ==> 1.0 - values[i] / RunningMax(values, i) <= r
    ensures |values| > 0 ==> exists i :: 0 <= i < |values| && r == 1.0 - values[i] / RunningMax(values, i)
  {
    if |values| == 0 then 0.0
    else
      var worst := Least(Drawdowns(values));
      if worst < 0.0 then -worst else worst
  }

  /** calculate_full_metrics: the basic metrics with the four risk statistics added. */
  method CalculateFullMetrics(
    initialCash: real, trades: seq<Trade>, portfolioValues: seq<real>, riskFreeRate: real,
    sqrt: real -> real)
    returns (m: FullMetrics)
    requires AllPositive(portfolioValues) && IsSqrt(sqrt)
    ensures m.basic == BasicMetricsOf(initialCash, trades, portfolioValues)
    ensures m.sharpeRatio == SharpeRatio(portfolioValues, riskFreeRate, sqrt)
    ensures m.sortinoRatio == SortinoRatio(portfolioValues, riskFreeRate, sqrt)
    ensures m.maxDrawdown == MaxDrawdown(portfolioValues)
    ensures m.volatility == Volatility(portfolioValues, sqrt)
  {
    var basic := GetBasicMetrics(initialCash, trades, portfolioValues);
    m := FullMetrics(
      basic,
      SharpeRatio(portfolioValues, riskFreeRate, sqrt),
      SortinoRatio(portfolioValues, riskFreeRate, sqrt),
      MaxDrawdown(portfolioValues),
      Volatility(portfolioValues, sqrt));
  }

  // ---------------------------------------------------------------------
  // Lemmas about the risk statistics

  /** Returns that never change (for instance those of a constant series)
      give a zero Sharpe ratio and zero volatility. */
  lemma ConstantReturnsStatistics(values: seq<real>, riskFreeRate: real, sqrt: real -> real)
    requires AllPositive(values) && IsSqrt(sqrt)
    requires |values| != 2 && Constant(PeriodReturns(values))
    ensures SharpeRatio(values, riskFreeRate, sqrt) == Finite(0.0)
    ensures Volatility(values, sqrt) == Finite(0.0)
  {
    if |values| > 2 {
      VarianceZeroIffConstant(PeriodReturns(values));
    }
  }

  /** A constant series has constant (zero) returns. */
  lemma ConstantSeriesReturns(values: seq<real>)
    requires AllPositive(values) && Constant(values)
    ensures forall i :: 0 <= i < |PeriodReturns(values)| ==> PeriodReturns(values)[i] == 0.0
    ensures Constant(PeriodReturns(values))
  {
    var r := PeriodReturns(values);
    forall i | 0 <= i < |r|
      ensures r[i] == 0.0
    {
      assert values[i + 1] == values[i];
    }
  }

  /** Ten equal values: zero Sharpe ratio and zero volatility. */
  lemma ConstantSeriesExample(sqrt: real -> real)
    requires IsSqrt(sqrt)
    ensures var pv := seq(10, _ => 100.0);
      SharpeRatio(pv, 0.02, sqrt) == Finite(0.0) && Volatility(pv, sqrt) == Finite(0.0)
  {
    var pv := seq(10, _ => 100.0);
    ConstantSeriesReturns(pv);
    ConstantReturnsStatistics(pv, 0.02, sqrt);
  }

  /** Returns that vary give a finite Sharpe ratio with the sign of the
      excess annualised return. */
  lemma VaryingReturnsSharpe(values: seq<real>, riskFreeRate: real, sqrt: real -> real)
    requires AllPositive(values) && IsSqrt(sqrt)
    requires |values| > 2 && !Constant(PeriodReturns(values))
    ensures var s := SharpeRatio(values, riskFreeRate, sqrt);
      var excess := Mean(PeriodReturns(values)) * TradingDays - riskFreeRate;
      && s.Finite?
      && (s.value > 0.0 <==> excess > 0.0)
      && (s.value < 0.0 <==> excess < 0.0)
      && (s.value == 0.0 <==> excess == 0.0)
  {
    SampleStdPositive(PeriodReturns(values), sqrt);
  }

  /** Returns that vary give a positive volatility. */
  lemma VaryingReturnsVolatility(values: seq<real>, sqrt: real -> real)
    requires AllPositive(values) && IsSqrt(sqrt)
    requires |values| > 2 && !Constant(PeriodReturns(values))
    ensures Volatility(values, sqrt).Finite? && Volatility(values, sqrt).value > 0.0
  {
    SampleStdPositive(PeriodReturns(values), sqrt);
  }

  /** Without downside spread (no negative return, or equal negative returns)
      the Sortino ratio is +infinity when the annualised return beats the
      risk-free rate, and zero otherwise. */
  lemma SortinoWithoutDownsideSpread(values: seq<real>, riskFreeRate: real, sqrt: real -> real)
    requires AllPositive(values) && IsSqrt(sqrt) && |values| >= 2
    requires var n := Negatives(PeriodReturns(values)); |n| == 0 || (|n| >= 2 && Constant(n))
    ensures SortinoRatio(values, riskFreeRate, sqrt)
         == if Mean(PeriodReturns(values)) * TradingDays > riskFreeRate then PosInf else Finite(0.0)
  {
    var n := Negatives(PeriodReturns(values));
    if |n| >= 2 {
      VarianceZeroIffConstant(n);
    }
  }

  /** A series that never falls has no downside: +infinity or zero. */
  lemma SortinoNondecreasing(values: seq<real>, riskFreeRate: real, sqrt: real -> real)
    requires AllPositive(values) && IsSqrt(sqrt) && |values| >= 2 && Nondecreasing(values)
    ensures SortinoRatio(values, riskFreeRate, sqrt)
         == if Mean(PeriodReturns(values)) * TradingDays > riskFreeRate then PosInf else Finite(0.0)
  {
    var rets := PeriodReturns(values);
    assert forall i :: 0 <= i < |rets| ==> rets[i] >= 0.0;
    SortinoWithoutDownsideSpread(values, riskFreeRate, sqrt);
  }

  /** A strictly rising series against a non-positive risk-free rate has an
      infinite Sortino ratio. */
  lemma SortinoIncreasing(values: seq<real>, riskFreeRate: real, sqrt: real -> real)
    requires AllPositive(values) && IsSqrt(sqrt) && |values| >= 2 && Increasing(values)
    requires riskFreeRate <= 0.0
    ensures SortinoRatio(values, riskFreeRate, sqrt) == PosInf
  {
    var rets := PeriodReturns(values);
    assert forall i :: 0 <= i < |rets| ==> rets[i] > 0.0;
    SumAbove(rets, 0.0);
    QuotientSign(Sum(rets), |rets| as real);
    SortinoNondecreasing(values, riskFreeRate, sqrt);
  }

  /** [100, 101, 102, 103, 104] with a zero risk-free rate: +infinity. */
  lemma SortinoIncreasingExample(sqrt: real -> real)
    requires IsSqrt(sqrt)
    ensures SortinoRatio([100.0, 101.0, 102.0, 103.0, 104.0], 0.0, sqrt) == PosInf
  {
    SortinoIncreasing([100.0, 101.0, 102.0, 103.0, 104.0], 0.0, sqrt);
  }

  /** Varying negative returns give a finite Sortino ratio with the sign of
      the excess annualised return. */
  lemma SortinoWithDownsideSpread(values: seq<real>, riskFreeRate: real, sqrt: real -> real)
    requires AllPositive(values) && IsSqrt(sqrt) && |values| >= 2
    requires var n := Negatives(PeriodReturns(values)); |n| >= 2 && !Constant(n)
    ensures var s := SortinoRatio(values, riskFreeRate, sqrt);
      var excess := Mean(PeriodReturns(values)) * TradingDays - riskFreeRate;
      && s.Finite?
      && (s.value > 0.0 <==> excess > 0.0)
      && (s.value < 0.0 <==> excess < 0.0)
      && (s.value == 0.0 <==> excess == 0.0)
  {
    var rets := PeriodReturns(values);
    var n := Negatives(rets);
    SampleStdPositive(n, sqrt);
  }

  lemma {:induction false} RunningMaxOfNondecreasing(values: seq<real>, i: int)
    requires Nondecreasing(values) && 0 <= i < |values|
    ensures RunningMax(values, i) == values[i]
  {
    if i > 0 {
      RunningMaxOfNondecreasing(values, i - 1);
    }
  }

  lemma NondecreasingNoDrawdown(values: seq<real>)
    requires AllPositive(values) && Nondecreasing(values) && |values| > 0
    ensures MaxDrawdown(values) == 0.0
  {
    var d := Drawdowns(values);
    forall i | 0 <= i < |values|
      ensures d[i] == 0.0
    {
      RunningMaxOfNondecreasing(values, i);
    }
    var k :| 0 <= k < |d| && Least(d) == d[k];
  }

  /** A fall from one value to the next leaves a positive drawdown. */
  lemma FallDrawdown(values: seq<real>, i: int)
    requires AllPositive(values) && 0 <= i < |values| - 1 && values[i] > values[i + 1]
    ensures MaxDrawdown(values) > 0.0
  {
    var d := Drawdowns(values);
    assert RunningMax(values, i + 1) >= values[i];
    assert d[i + 1] < 0.0;
    assert Least(d) <= d[i + 1];
  }

  /** The maximum drawdown is zero exactly when the series never falls. */
  lemma NoDrawdownIffNondecreasing(values: seq<real>)
    requires AllPositive(values)
    ensures MaxDrawdown(values) == 0.0 <==> Nondecreasing(values)
  {
    if Nondecreasing(values) {
      if |values| > 0 {
        NondecreasingNoDrawdown(values);
      }
    } else {
      var i :| 0 <= i < |values| - 1 && values[i] > values[i + 1];
      FallDrawdown(values, i);
    }
  }

  /** The drawdown at row `i` against the peak reached by then. */
  lemma DrawdownAt(values: seq<real>, i: int, value: real, peak: real)
    requires AllPositive(values) && 0 <= i < |values|
    requires values[i] == value && RunningMax(values, i) == peak
    ensures Drawdowns(values)[i] == value / peak - 1.0
  {
  }

  lemma ExampleDrawdowns(v: seq<real>)
    requires |v| == 4 && v[0] == 100.0 && v[1] == 120.0 && v[2] == 90.0 && v[3] == 110.0
    ensures AllPositive(v)
    ensures var d := Drawdowns(v);
      d[0] == 0.0 && d[1] == 0.0 && d[2] == -0.25 && d[3] == 110.0 / 120.0 - 1.0
  {
    assert RunningMax(v, 0) == 100.0;
    assert RunningMax(v, 1) == 120.0;
    assert RunningMax(v, 2) == 120.0;
    assert RunningMax(v, 3) == 120.0;
    DrawdownAt(v, 0, 100.0, 100.0);
    DrawdownAt(v, 1, 120.0, 120.0);
    DrawdownAt(v, 2, 90.0, 120.0);
    DrawdownAt(v, 3, 110.0, 120.0);
  }

  /** Peak 120, trough 90, then 110: a drawdown of a quarter. The series
      is given element by element, [100, 120, 90, 110]. */
  lemma DrawdownExample(v: seq<real>)
    requires |v| == 4 && v[0] == 100.0 && v[1] == 120.0 && v[2] == 90.0 && v[3] == 110.0
    ensures AllPositive(v) && MaxDrawdown(v) == 0.25
  {
    ExampleDrawdowns(v);
    var d := Drawdowns(v);
    var e := d[1..];
    var f := e[1..];
    var g := f[1..];
    assert e[0] == d[1] && f[0] == d[2] && g[0] == d[3] && |g| == 1;
    assert Least(g) == d[3];
    assert Least(f) == d[2];
    assert Least(e) == d[2];
    assert Least(d) == -0.25;
  }

  /** The full-metrics example: one profitable round trip over the values
      [1000, 1010, 1005, 1015]. Its single negative return leaves the
      downside deviation undefined (NaN in the source), so the Sortino ratio
      is undefined while the Sharpe ratio and volatility are finite. */
  lemma FullMetricsExample(pv: seq<real>, sqrt: real -> real)
    requires IsSqrt(sqrt)
    requires |pv| == 4 && pv[0] == 1000.0 && pv[1] == 1010.0 && pv[2] == 1005.0 && pv[3] == 1015.0
    ensures AllPositive(pv)
    ensures var m := BasicMetricsOf(1000.0, [Trade(Buy, 100.0, 1.0), Trade(Sell, 110.0, 1.0)], pv);
      m.totalTrades == 2 && m.roundTrips == 1 && m.finalPortfolioValue == 1015.0
    ensures SharpeRatio(pv, 0.02, sqrt).Finite?
    ensures SortinoRatio(pv, 0.02, sqrt) == Undefined
    ensures Volatility(pv, sqrt).Finite?
    ensures MaxDrawdown(pv) > 0.0
  {
    ExampleTrades(pv);
    ExampleSortino(pv, sqrt);
    ExampleSpread(pv, sqrt);
    FallDrawdown(pv, 1);
  }

  /** Four values give three returns, enough for a sample deviation. */
  lemma ExampleSpread(pv: seq<real>, sqrt: real -> real)
    requires IsSqrt(sqrt)
    requires |pv| == 4 && pv[0] == 1000.0 && pv[1] == 1010.0 && pv[2] == 1005.0 && pv[3] == 1015.0
    ensures AllPositive(pv)
    ensures SharpeRatio(pv, 0.02, sqrt).Finite?
    ensures Volatility(pv, sqrt).Finite?
  {
  }

  /** The single negative return leaves the downside deviation undefined. */
  lemma ExampleSortino(pv: seq<real>, sqrt: real -> real)
    requires IsSqrt(sqrt)
    requires |pv| == 4 && pv[0] == 1000.0 && pv[1] == 1010.0 && pv[2] == 1005.0 && pv[3] == 1015.0
    ensures AllPositive(pv)
    ensures SortinoRatio(pv, 0.02, sqrt) == Undefined
  {
    OneDownsideReturn(pv);
  }

  /** The trade counts and final value of the full-metrics example. */
  lemma ExampleTrades(pv: seq<real>)
    requires |pv| == 4 && pv[3] == 1015.0
    ensures var m := BasicMetricsOf(1000.0, [Trade(Buy, 100.0, 1.0), Trade(Sell, 110.0, 1.0)], pv);
      m.totalTrades == 2 && m.roundTrips == 1 && m.finalPortfolioValue == 1015.0
  {
    OneRoundTrip();
  }

  /** The example curve has exactly one losing period, its second. */
  lemma OneDownsideReturn(pv: seq<real>)
    requires |pv| == 4 && pv[0] == 1000.0 && pv[1] == 1010.0 && pv[2] == 1005.0 && pv[3] == 1015.0
    ensures AllPositive(pv)
    ensures |Negatives(PeriodReturns(pv))| == 1
  {
    var rets := PeriodReturns(pv);
    assert rets[0] >= 0.0 && rets[1] < 0.0 && rets[2] >= 0.0;
    var r1 := rets[1..];
    var r2 := r1[1..];
    var r3 := r2[1..];
    assert r1[0] == rets[1] && r2[0] == rets[2] && |r3| == 0;
    assert Negatives(r2) == [];
    assert Negatives(r1) == [rets[1]];
    assert Negatives(rets) == [rets[1]];
  }
}

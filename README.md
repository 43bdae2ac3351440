# quant-backtester core in Dafny

A model of the computational core of the quant-backtester backend. There are two signal strategies and a metrics engine. Each strategy turns a time-ordered series of price bars into per-row buy/sell flags. The metrics engine turns a trade log and a portfolio-value series into performance statistics.

- `series.dfy` (module `Series`) holds the series building blocks of the pandas idioms the source uses:
  - bars and their close column;
  - comparisons against a possibly missing value, which are false when either side is missing, as a comparison with NaN is;
  - sums and means;
  - population and sample variances;
  - rolling windows (`rolling(window).mean()` and `rolling(window).std(ddof=0)`), which are missing until the window fills.

  The square root is a parameter `sqrt: real -> real` constrained by `IsSqrt`: it is non-negative and squares back to its argument on non-negative reals.
- `metrics.dfy` (module `Metrics`) models `backend/src/backtesting/metrics.py`.
  - The round-trip pairing loop of `get_basic_metrics` is the method `GetBasicMetrics`. Its loop invariants tie it to the prefix-recursive specification `RoundTrips`/`PendingBuy`.
  - The whole record is `BasicMetricsOf`.
  - The statistics are Sharpe, Sortino, volatility (annualised with `sqrt(252)`) and maximum drawdown (a running maximum).
  - `calculate_full_metrics` is the method `CalculateFullMetrics`.
  - The Sharpe, Sortino and volatility results are a `Stat`: `Finite(x)`, `PosInf` or `Undefined`. `Undefined` stands for the NaN that pandas yields for the sample standard deviation of a single value. In the source that NaN reaches the result in three cases:
    - exactly two portfolio values, for Sharpe and volatility;
    - exactly one negative return, for Sortino.

    The comparison `std == 0` is false for NaN, so the source divides by it, and the model reports these cases as `Undefined`. The integration example in `backend/test_metrics.py:58-80` has exactly one negative return, so its Sortino ratio is `Undefined` (`Metrics.FullMetricsExample`).
- `ma_crossover.dfy` (module `MaCrossover`) models `MA_Crossover.generate_signals` and `simulate_trades`.
  - The flag `fast_above_slow` is false while either average is missing.
  - A buy is a rising edge of that flag, a sell a falling edge.
  - The edge is taken against the previous row's flag, which is missing on row 0 (`shift(1)`), so row 0 never signals.
- `bollinger_breakout.dfy` (module `BollingerBreakout`) models `BollingerBreakout.generate_signals`.
  - The bands are the rolling mean plus and minus `num_std` rolling population standard deviations.
  - A buy is a close that moves from at or below the previous row's upper band to strictly above the current one.
  - A sell is the mirror image against the lower band.
  - For a non-negative width, the band comparisons are also decided without the square root (`Exceeds`, `Undercuts`).

## Model

| member | source | states |
|---|---|---|
| Metrics.BasicMetricsOf | backend/src/backtesting/metrics.py:3-57 | initial cash is reported as given; the final value is the last portfolio value, or the initial cash when there are none; with positive initial cash the final value is `initial·(1 + total_return)`, otherwise the total return is 0; `total_trades` counts every trade; there are no more round trips than sells and no more than buys; the win rate lies in [0,1] and is 0 without round trips; the average win is ≥ 0 and the average loss ≤ 0 |
| Metrics.GetBasicMetrics | backend/src/backtesting/metrics.py:11-57 | the loop that pairs each sell with the pending buy computes exactly the record `BasicMetricsOf` describes |
| Metrics.RoundTripsBounded | backend/src/backtesting/metrics.py:24-42 | round trips never outnumber sells; round trips plus a still-pending buy never outnumber buys |
| Metrics.LatestBuyIsPending | backend/src/backtesting/metrics.py:26-29 | a buy overwrites any earlier pending buy: the latest buy not followed by a buy or sell is the pending one |
| Metrics.SellLeavesNothingOpen | backend/src/backtesting/metrics.py:30-42 | after a sell, with no buy since, nothing is pending, whether the sell paired or was ignored |
| Metrics.AlternatingTrades | backend/src/backtesting/metrics.py:24-42 | a strictly alternating buy, sell, buy, … log yields one round trip per pair and leaves a trailing buy pending |
| Metrics.RoundTripSign | backend/src/backtesting/metrics.py:31-37 | with positive prices and shares a round trip wins exactly when it sells above its buy price, its return has the same sign, and the return times the buy price is the price difference |
| Metrics.Wins | backend/src/backtesting/metrics.py:45 | the wins are round trips with positive pnl, no more than all of them |
| Metrics.Losses | backend/src/backtesting/metrics.py:46 | the losses are round trips with pnl ≤ 0, no more than all of them |
| Metrics.WinsLossesPartition | backend/src/backtesting/metrics.py:45-46 | every round trip is exactly one of a win and a loss |
| Metrics.WinRateBounds | backend/src/backtesting/metrics.py:51 | the win rate is a fraction, 0 without round trips, and 1 exactly when there are no losses |
| Metrics.AverageSigns | backend/src/backtesting/metrics.py:52-53 | the average win is positive when there are wins and 0 otherwise; the average loss is ≤ 0 |
| Metrics.OneRoundTrip | backend/test_metrics.py:22-35 | buying at 100 and selling at 110, one share each, gives one round trip of pnl 10 and return 0.1 and leaves nothing pending |
| Metrics.OneRoundTripExample | backend/test_metrics.py:22-35 | that trade log over values [1000, 1010] gives final value 1010, total return 0.01, two trades, one round trip, win rate 1, average win 10, average loss 0 and average trade return 0.1 |
| Metrics.PeriodReturns | backend/src/backtesting/metrics.py:68-69 | one simple return per consecutive pair of values; a return is negative exactly when the value falls and zero exactly when it stays level |
| Metrics.Negatives | backend/src/backtesting/metrics.py:103 | the kept returns are all strictly negative, and none are kept exactly when no return is negative |
| Metrics.Annualised | backend/src/backtesting/metrics.py:77 | an annualised deviation is non-negative and positive exactly when the per-period deviation is |
| Metrics.RiskAdjusted | backend/src/backtesting/metrics.py:80 | a ratio of an excess return to a positive annualised deviation has the sign of the excess return |
| Metrics.SharpeRatio | backend/src/backtesting/metrics.py:59-82 | fewer than 2 values give 0; the ratio is never infinite; it is undefined exactly when there are 2 values (one return, whose sample deviation is NaN) |
| Metrics.SortinoRatio | backend/src/backtesting/metrics.py:84-115 | fewer than 2 values give 0; the ratio is undefined exactly when there is a single negative return |
| Metrics.Volatility | backend/src/backtesting/metrics.py:129-140 | never infinite; undefined exactly when there are 2 values; otherwise a finite value ≥ 0 |
| Metrics.RunningMax | backend/src/backtesting/metrics.py:124 | the running maximum at row i bounds every value up to i and is one of them |
| Metrics.Drawdowns | backend/src/backtesting/metrics.py:125 | each drawdown lies in (-1, 0], and is 0 exactly when the value is at its running maximum |
| Metrics.Least | backend/src/backtesting/metrics.py:126 | the minimum bounds every element and is one of them |
| Metrics.MaxDrawdown | backend/src/backtesting/metrics.py:117-127 | 0 for no values; always in [0, 1); at least `1 - v[i]/peak_i` for every i and equal to it for some i |
| Metrics.CalculateFullMetrics | backend/src/backtesting/metrics.py:142-164 | the full record is the basic record plus the four statistics of the same values and risk-free rate |
| Metrics.ConstantReturnsStatistics | backend/src/backtesting/metrics.py:71-72 | constant returns (zero sample deviation) give a Sharpe ratio and volatility of 0, except with 2 values |
| Metrics.ConstantSeriesReturns | backend/src/backtesting/metrics.py:68-69 | a constant value series has all returns 0 |
| Metrics.ConstantSeriesExample | backend/test_metrics.py:38-41 | ten values of 100 give Sharpe ratio 0 and volatility 0 |
| Metrics.VaryingReturnsSharpe | backend/src/backtesting/metrics.py:71-82 | with more than 2 values and non-constant returns the Sharpe ratio is finite and has the sign of the annualised excess return |
| Metrics.VaryingReturnsVolatility | backend/src/backtesting/metrics.py:133-140 | with more than 2 values and non-constant returns the volatility is finite and positive |
| Metrics.SortinoWithoutDownsideSpread | backend/src/backtesting/metrics.py:105-107 | with no negative returns, or several all equal, the Sortino ratio is +inf when the annualised return beats the risk-free rate and 0 otherwise |
| Metrics.SortinoNondecreasing | backend/src/backtesting/metrics.py:103-107 | a nondecreasing value series has no downside, so the same +inf-or-0 rule applies |
| Metrics.SortinoIncreasing | backend/src/backtesting/metrics.py:103-107 | a strictly increasing series against a non-positive risk-free rate gives +inf |
| Metrics.SortinoIncreasingExample | backend/test_metrics.py:44-48 | [100, 101, 102, 103, 104] with rate 0 gives +inf |
| Metrics.SortinoWithDownsideSpread | backend/src/backtesting/metrics.py:109-115 | with several unequal negative returns the Sortino ratio is finite and has the sign of the annualised excess return |
| Metrics.RunningMaxOfNondecreasing | backend/src/backtesting/metrics.py:124 | on a nondecreasing series the running maximum is the current value |
| Metrics.NondecreasingNoDrawdown | backend/src/backtesting/metrics.py:121-127 | a nondecreasing series has maximum drawdown 0 |
| Metrics.FallDrawdown | backend/src/backtesting/metrics.py:121-127 | any fall from one value to the next gives a positive maximum drawdown |
| Metrics.NoDrawdownIffNondecreasing | backend/src/backtesting/metrics.py:121-127 | the maximum drawdown is 0 if and only if the series is nondecreasing |
| Metrics.ExampleDrawdowns | backend/test_metrics.py:51-55 | [100, 120, 90, 110] has drawdowns 0, 0, -0.25 and 110/120 - 1 |
| Metrics.DrawdownExample | backend/test_metrics.py:51-55 | [100, 120, 90, 110] has maximum drawdown 0.25 |
| Metrics.ExampleSortino | backend/src/backtesting/metrics.py:103-113 | over [1000, 1010, 1005, 1015] the single negative return leaves the Sortino ratio undefined |
| Metrics.FullMetricsExample | backend/test_metrics.py:58-80 | the integration example has 2 trades, 1 round trip, final value 1015, a finite Sharpe ratio and volatility, an undefined Sortino ratio and a positive maximum drawdown |
| Series.SampleStd | backend/src/backtesting/metrics.py:71 | the sample deviation exists exactly for 2 or more values; it is ≥ 0 and squares to the sample variance |
| Series.SampleStdPositive | backend/src/backtesting/metrics.py:71-77 | non-constant data of 2 or more values has a positive sample deviation |
| Series.Trailing | backend/src/strategies/ma_crossover.py:22-23 | the window ending at row i holds the last `period` values up to and including row i |
| Series.VarianceZeroIffConstant | backend/src/strategies/bollinger_breakout.py:29 | population (and sample) variance is 0 exactly when all values are equal |
| MaCrossover.GenerateSignals | backend/src/strategies/ma_crossover.py:21-42 | one row per bar with the bar unchanged; the averages are the rolling means of the closes; the buy/sell flags are exactly the rising/falling edges of `fast_ma > slow_ma`; no row is both |
| MaCrossover.SignalAtFlags | backend/src/strategies/ma_crossover.py:26-37 | each row's flags compare its own `fast_above_slow` with the previous row's |
| MaCrossover.FirstRowNotAbove | backend/src/strategies/ma_crossover.py:26-27 | the fast average is not above the slow one on row 0 |
| MaCrossover.SignalsAfterWarmUp | backend/src/strategies/ma_crossover.py:22-37 | no row is above, or buys, before both windows have filled (row `max(fast, slow) - 1`), and no row sells before row `max(fast, slow)` |
| MaCrossover.Flags | backend/src/strategies/ma_crossover.py:30-37 | in a frame whose flags mark crossings, the flags of row i are its edge conditions |
| MaCrossover.FallBetween | backend/src/strategies/ma_crossover.py:34-37 | going from above to not-above between two rows passes a sell |
| MaCrossover.RiseBetween | backend/src/strategies/ma_crossover.py:30-32 | going from not-above to above between two rows passes a buy |
| MaCrossover.SignalsAlternate | backend/src/strategies/ma_crossover.py:30-37 | between two buys lies a sell and between two sells a buy |
| MaCrossover.SellFollowsBuy | backend/src/strategies/ma_crossover.py:30-37 | when the first row is not above, every sell is preceded by a buy, so the first signal is a buy |
| MaCrossover.MarksCrossingsPrefix | backend/src/strategies/ma_crossover.py:26-37 | every prefix of a crossing-marked frame is crossing-marked |
| MaCrossover.CountBuys | backend/src/strategies/ma_crossover.py:48 | the buy count is at most the number of rows |
| MaCrossover.CountSells | backend/src/strategies/ma_crossover.py:49 | the sell count is at most the number of rows |
| MaCrossover.SimulateTrades | backend/src/strategies/ma_crossover.py:44-50 | the signal rows pass through unchanged; on a crossing-marked frame starting not-above the sells never outnumber the buys and the buys exceed the sells by at most one |
| MaCrossover.CrossingCounts | backend/src/strategies/ma_crossover.py:44-50 | buys equal sells, plus one when the last row is above |
| MaCrossover.RisingFastAboveSlow | backend/src/strategies/ma_crossover.py:22-23 | on strictly increasing closes a shorter trailing mean is above a longer one |
| MaCrossover.RisingPricesAbove | backend/src/strategies/ma_crossover.py:22-27 | on strictly increasing closes with fast < slow the fast average is above exactly from row `slow-1` on |
| MaCrossover.SingleCrossing | backend/src/strategies/ma_crossover.py:26-37 | a flag that switches on once and stays on gives exactly one buy, at that row, and no sell |
| MaCrossover.RisingPricesCrossOnce | backend/src/strategies/ma_crossover.py:22-37 | strictly increasing closes with fast < slow ≤ rows give a single buy at row `slow-1` and no sell |
| MaCrossover.NoSells | backend/src/strategies/ma_crossover.py:49 | a frame with no sell flags counts zero sells |
| MaCrossover.RisingPricesExample | backend/test_strategies.py:18-29 | closes 100…105 with periods 2 and 3 give one buy, on row 2, and no sell |
| BollingerBreakout.GenerateSignals | backend/src/strategies/bollinger_breakout.py:24-44 | one row per bar with the bar unchanged; the middle band is the rolling mean; the bands exist exactly once the window fills; upper and lower are symmetric about the middle; the flags are exactly the breakouts |
| BollingerBreakout.BandValues | backend/src/strategies/bollinger_breakout.py:28-33 | on a full window the bands are the mean plus and minus `num_std` population deviations |
| BollingerBreakout.BandAtShape | backend/src/strategies/bollinger_breakout.py:28-33 | all three bands exist exactly from row `period-1`, and upper and lower are equidistant from the middle |
| BollingerBreakout.BandAtFlags | backend/src/strategies/bollinger_breakout.py:36-42 | each row's flags compare its close and bands with the previous row's close and bands |
| BollingerBreakout.ExceedsIff | backend/src/strategies/bollinger_breakout.py:41 | for k ≥ 0, `d > k·√v` holds exactly when d > 0 and d² > k²·v |
| BollingerBreakout.UpperBandTest | backend/src/strategies/bollinger_breakout.py:32-41 | a close is above (at or below) the upper band exactly when it does (does not) exceed the mean by more than k deviations, decided without a square root |
| BollingerBreakout.LowerBandTest | backend/src/strategies/bollinger_breakout.py:33-42 | a close is below (at or above) the lower band exactly when it does (does not) fall short of the mean by more than k deviations, decided without a square root |
| BollingerBreakout.RowFlags | backend/src/strategies/bollinger_breakout.py:36-42 | after row 0 a buy needs the previous close at or below its upper band and the close strictly above the current one; a sell mirrors this on the lower band |
| BollingerBreakout.BreakoutTests | backend/src/strategies/bollinger_breakout.py:36-42 | with k ≥ 0 after the first full window, the flags are decided exactly by the square-root-free tests |
| BollingerBreakout.BandsOrdered | backend/src/strategies/bollinger_breakout.py:31-33 | with k ≥ 0 the bands satisfy lower ≤ middle ≤ upper |
| BollingerBreakout.NeverBuyAndSell | backend/src/strategies/bollinger_breakout.py:41-42 | with k ≥ 0 no row is both a buy and a sell |
| BollingerBreakout.SignalsAfterWarmUp | backend/src/strategies/bollinger_breakout.py:36-42 | no row before row `period` carries a flag |
| BollingerBreakout.FlatWindowNoSignal | backend/src/strategies/bollinger_breakout.py:28-42 | a window of equal closes puts all three bands on the close, so its row has no flag |
| BollingerBreakout.FlatBands | backend/src/strategies/bollinger_breakout.py:28-33 | a constant window collapses mean and both bands onto its last close |
| BollingerBreakout.SpikeWindow | backend/src/strategies/bollinger_breakout.py:28-29 | nineteen closes of 100 and one of 120 have mean 101 and population variance 19 |
| BollingerBreakout.SpikeExample | backend/test_strategies.py:32-46 | twenty closes of 100 and then 120, with period 20 and width 2, make the spike row a buy |

## Left out

- IEEE floating point: the model computes over exact reals, so rounding is not modelled. NaN appears only where the source's results depend on it: a missing rolling value (`Option`) and a NaN sample deviation (`Stat.Undefined`).
- `sqrt` is a parameter constrained by `IsSqrt`, not a computed function, and `252 ** 0.5` is `sqrt(252)`.
- Metrics.PeriodReturns: requires every portfolio value to be positive. A zero value makes `pct_change` give an infinity or NaN, whose propagation is not modelled. The same precondition is on every statistic built from the returns and on the drawdown.
- MaCrossover.GenerateSignals: requires both periods to be at least 1. A window of 0 or less is not a meaningful average and is not modelled.
- BollingerBreakout.GenerateSignals: requires the period to be at least 1, for the same reason.
- Trades are records with all three fields present. The `get` defaults for missing keys are not modelled. Any action other than `"buy"` or `"sell"` is represented by `Other`.
- `calculate_full_metrics` takes `strategy` and `params`, which it never uses. They are not parameters of `CalculateFullMetrics`.
- `simulate_trades` takes a `data` argument, which it never uses. It is not a parameter of `SimulateTrades`.
- The output records are Dafny datatypes rather than dictionaries. `to_dict('records')` rows are the `SignalRow` values themselves.
- The signal flags are booleans rather than the integers 0/1.
- The strategies work on a copy of the input frame. The model is functional, so the input is never changed and there is no copy to model.
- The frame's other columns are carried along in `Bar` but never read. These are open, high, low and volume, plus the index date as a day number.
- The following are not part of this model:
  - `backend/src/backtesting/engine.py`, a pass-through with no logic of its own;
  - `backend/src/strategies/base_strategy.py`, which holds only initial fields and abstract methods;
  - the strategy constructors and `calculate_performance`, which only store parameters or do nothing;
  - data fetching, the database, the HTTP server and the front end, which are all I/O.

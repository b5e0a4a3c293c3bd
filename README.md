# Multi-asset EMA short-seller, modelled in Dafny

This project models a small crypto trading bot that trades three perpetual contracts on Bybit: BTC, ETH and SOL. It only opens short positions.

**How it decides to trade**
- Every five minutes it computes two exponential moving averages of the closing prices: a 240-bar one (EMA240) and a 600-bar one (EMA600).
- An asset's market regime is ACTIVE when its price lies between the two averages.
- The bot opens a short when EMA240 crosses below EMA600 while the asset is flat and ACTIVE.
- It closes the short after 24 hours, at a 1.5% loss or at a 6% gain.

**What is modelled, by module**

| module | file | contents |
|---|---|---|
| `StrategyEngine` | `strategy_engine.dfy` | The `Engine` class holds the three per-asset maps: positions, regimes and the last EMA-cross state. Its methods update these maps in place. The module also has the regime rule, the cross detector, the entry rule, the exit rule and the portfolio summary. |
| `Ema` | `ema.dfy` | The EMA loop of the scheduler. It is proved against a recursive definition, and the result is proved to lie between the least and greatest close. |
| `BarClock` | `barclock.dfy` | The next five-minute bar close and the sleeps that wait for it. |
| `TradingSystem` | `trading_system.dfy` | The scheduler class `MultiAssetTradingSystem`: the once-a-day maintenance guard, the market-data guard, balance selection, sizing, the bounded three-attempt order retry, and the exit sweep over the traded assets. |
| `Exchange` | `exchange.dfy` | The deterministic part of the Bybit client: order, close and cancel parameters; position netting; the rate-limit wait and response check; the signed payload; the key-sorted GET parameter string and POST body; the fallbacks of the getters. |
| `TradeDurations` | `trade_durations.dfy` | First-in first-out pairing of logged entry and exit events into completed trades, and the per-asset statistics. |
| `Settings` | `settings.dfy` | Endpoint and Telegram selection from environment values, and the asset-table helpers. |
| `Common` | `common.dfy` | Shared definitions: `Option`, `Result`, the error kinds, sums, extrema, and the hour/minute split. |

**Modelling conventions**
- Prices are exact reals.
- Times are integers: engine clock readings are seconds, log timestamps are milliseconds, and bar-clock times are calendar date-times.
- Clock readings, environment variables, exchange replies and the results of calls into code outside the model are parameters.

**Behaviour of the code as written**

The model follows the code where it departs from its comments or from what its callers expect:

- **Matching is first-in first-out.** The matching of entries and exits takes the oldest open entry, although the comment says "most recent".
- **Three calls have no definition in the engine.** The scheduler calls `reset_daily_cross_counts`, `cleanup_old_cross_events` and `apply_quick_exit_cooldown`, and none is defined on the engine. They are modelled as follows:
  - The first two become one `maintenanceFails` input. When it is set, the call raises before the reset date is stored.
  - The cooldown call raises only after the position has been cleared, so it does not change the modelled state.
- **The exit sweep uses a decision parameter.** The exit sweep calls `should_exit_position` with four arguments and expects a tuple back. The engine's method takes three arguments and returns a boolean, so the four-argument call raises in every case.
  - The sweep therefore takes the decision as a parameter. `None` means the call raised.
  - Whenever that call raises, the sweep stops at the first in-position asset, after recording that asset's regime.
  - The engine's own three-argument rule is modelled separately as `StrategyEngine.Engine.ShouldExitPosition`.
- **A zero entry price keeps the position open.** In the exit sweep, a zero entry price makes the return computation divide by zero after the exchange close has been sent. That exception is caught per asset, so the engine's position stays open.

## Model

| member | source | states |
|---|---|---|
| Common.MinOf | src/utils/trade_duration_tracker.py:136 | the minimum is an element of the list and no element is below it |
| Common.MaxOf | src/utils/trade_duration_tracker.py:137 | the maximum is an element of the list and no element exceeds it |
| Common.SumCons | src/core/strategy_engine.py:220 | a sum taken from the left equals the first element plus the sum of the rest |
| Common.SumBounds | scripts/start_trading.py:245-248 | a sum of n values that all lie in [lo, hi] lies in [n·lo, n·hi] |
| Common.MeanWithin | scripts/start_trading.py:245-248 | the mean of a non-empty list lies between any bounds of its elements |
| Common.HourSplit | scripts/start_trading.py:434-436 | the minutes lie in [0, 60), and hours·3600 + minutes·60 is the whole number of seconds rounded down to the minute |
| Settings.Lower | config/settings.py:62-63 | the lower-cased text has one character per input character, each put through the ASCII case fold (see "## Left out") |
| Settings.ExchangeFromEnv | config/settings.py:62-77 | the key and secret default to ""; `testnet` holds iff the testnet variable (default "true") lowercases to "true", whatever the demo switch; the demo endpoint is chosen iff the demo switch lowercases to "true"; the live endpoint is chosen iff neither demo nor testnet |
| Settings.DefaultExchangeIsTestnet | config/settings.py:62-77 | with no variables set the client is in testnet mode on the testnet endpoint |
| Settings.DemoKeepsTestnetFlag | config/settings.py:63-75 | demo mode selects the demo URL and leaves the testnet flag exactly as it is without demo |
| Settings.DemoSwitchIgnoresCase | config/settings.py:62-70 | "TRUE" selects demo, and a testnet variable of "False" selects live |
| Settings.TelegramFromEnv | config/settings.py:124-133 | notifications are enabled iff both the bot token and the channel id are non-empty; the fields are the variables, defaulting to "" |
| Settings.EnabledAssets | config/settings.py:138-139 | an asset is kept iff it is in the table and enabled; no more entries than the table |
| Settings.EnabledAssetsAppend | config/settings.py:138-139 | filtering distributes over concatenation, so the table order is kept |
| Settings.AssetSymbols | config/settings.py:141-142 | definition (the symbols of the enabled assets, in table order); `SymbolListsAgree` and `DefaultSymbols` state its properties |
| Settings.BybitSymbols | config/settings.py:144-145 | definition (each enabled symbol followed by "USDT"); `SymbolListsAgree` and `DefaultSymbols` state its properties |
| Settings.SymbolListsAgree | config/settings.py:141-145 | both symbol lists have one entry per enabled asset; the i-th exchange symbol is the i-th symbol followed by "USDT"; a symbol is listed iff some enabled asset has it |
| Settings.DefaultSymbols | config/settings.py:141-145 | the built-in table yields BTC, ETH, SOL and BTCUSDT, ETHUSDT, SOLUSDT |
| Settings.GetAssetConfig | config/settings.py:147-152 | the result is the first entry with that symbol, enabled or not; ValueError with the source's message iff no entry has it |
| Settings.GetAssetRiskParams | config/settings.py:154-162 | fails exactly when the lookup fails, with its error; otherwise returns exactly the four risk fields of the entry found |
| Settings.LookupSeesDisabled | config/settings.py:141-152 | a disabled asset is found by lookup although the symbol list omits it |
| StrategyEngine.RegimeOf | src/core/strategy_engine.py:82-90 | ACTIVE iff the price lies between the two averages, both ends included, in either order |
| StrategyEngine.CrossOutcome | src/core/strategy_engine.py:110-128 | bearish cross iff the stored state was bullish and the current one is bearish; bullish cross for the reverse flip; nothing iff there is no stored state or it is unchanged |
| StrategyEngine.PnlPct | src/core/strategy_engine.py:198 | for a positive entry price the short's return is positive exactly when the price fell; the return times the entry price is 100 times the price drop |
| StrategyEngine.ThresholdsAsPrices | src/core/strategy_engine.py:198-213 | for a positive entry, the −1.5% stop triggers iff the price is at or above 1.015·entry, and the +6% target iff it is at or below 0.94·entry |
| StrategyEngine.QuotientBound | src/core/strategy_engine.py:198-213 | for a positive divisor, comparing a quotient with a bound is comparing the dividend with bound·divisor |
| StrategyEngine.CrossTrace | src/core/strategy_engine.py:110-128 | successive detector calls on one asset yield one outcome per observed state |
| StrategyEngine.CrossTraceAt | src/core/strategy_engine.py:110-128 | the k-th outcome compares the k-th state with the state stored by the previous call, so the stored state is always the last one seen |
| StrategyEngine.ColdStartIsSilent | src/core/strategy_engine.py:112-115 | the first call for an asset reports no cross |
| StrategyEngine.FindFlip | src/core/strategy_engine.py:104-107 | between a bearish and a later bullish state there is an adjacent bearish-to-bullish flip |
| StrategyEngine.BearishCrossesAlternate | src/core/strategy_engine.py:110-128 | any two bearish crosses of one asset are separated by a bullish cross |
| StrategyEngine.SignalKind | src/core/strategy_engine.py:135-177 | the entry rule never asks for an exit, and enters a short exactly when the asset is flat, a bearish cross was seen and the regime is ACTIVE |
| StrategyEngine.ConsumedCrossCannotEnterLater | src/core/strategy_engine.py:135-172 | a bearish cross seen while in position is consumed: a later entry needs a bullish cross in between |
| StrategyEngine.ActiveCountIsCardinality | src/core/strategy_engine.py:219 | over distinct assets, the active count is the number of in-position assets |
| StrategyEngine.NoActiveNoExposure | src/core/strategy_engine.py:219-220 | no in-position asset means zero exposure |
| StrategyEngine.ExposureNonNegative | src/core/strategy_engine.py:220 | non-negative leveraged values give non-negative exposure |
| StrategyEngine.ActiveCount | src/core/strategy_engine.py:219 | no more active positions than assets |
| StrategyEngine.Exposure | src/core/strategy_engine.py:220 | definition (exposure summed over the assets); its properties are `NoActiveNoExposure`, `ExposureNonNegative` and `ExposureIsSumOfHeldValues` |
| StrategyEngine.HeldValues | src/core/strategy_engine.py:220 | one leveraged value per in-position asset, each the value of an in-position asset |
| StrategyEngine.ExposureIsSumOfHeldValues | src/core/strategy_engine.py:220 | the exposure is the sum of the in-position assets' leveraged values |
| StrategyEngine.Engine.constructor | src/core/strategy_engine.py:42-57 | all three assets start flat, ACTIVE, with no stored cross state |
| StrategyEngine.Engine.UpdatePosition | src/core/strategy_engine.py:59-70 | a known asset gets all four fields and an entry time exactly when in position; unknown assets and every other map are unchanged |
| StrategyEngine.Engine.DetermineMarketRegime | src/core/strategy_engine.py:72-95 | returns ACTIVE iff the price lies between the averages and records it for this asset only |
| StrategyEngine.Engine.DetectEmaCross | src/core/strategy_engine.py:97-128 | reports the cross outcome against the stored state and leaves the current state stored; positions and regimes unchanged |
| StrategyEngine.Engine.GenerateAssetSignal | src/core/strategy_engine.py:130-186 | regime and cross state are updated first, in position or not; KeyError iff the asset has no position entry; otherwise ENTER_SHORT iff flat, a bearish cross on this call and ACTIVE; never EXIT_POSITION; the price is the snapshot price; positions unchanged |
| StrategyEngine.Engine.ShouldExitPosition | src/core/strategy_engine.py:188-215 | KeyError for an unknown asset; false when flat; ZeroDivision for a zero entry price in position; otherwise true iff held strictly longer than 24 h, or the return is ≤ −1.5%, or ≥ +6% |
| StrategyEngine.Engine.GetPortfolioSummary | src/core/strategy_engine.py:217-235 | the active count is the number of in-position assets; the total exposure is the sum of the in-position assets' leveraged values, one per active position; zero active means zero exposure; exposure is non-negative for non-negative values; each asset's status has its flag and regime, and an entry price and leveraged value only when in position |
| StrategyEngine.ExitThresholdExamples | src/core/strategy_engine.py:188-215 | a position entered at 100 exits at 101.5 and at 94, holds at 100.5 within the day, and exits after 25 hours |
| StrategyEngine.FreshEngineScenario | tests/test_system_validation.py:96-105 | a fresh engine does not signal on its first snapshot; one recorded BTC position gives 1 active position and 50000 exposure |
| StrategyEngine.OnlyFirstAssetHeld | src/core/strategy_engine.py:220 | with only BTC in position, the values summed into the exposure are BTC's leveraged value alone |
| Ema.Weight | scripts/start_trading.py:247 | the weight 2/(period+1) lies in (0, 1] |
| Ema.EmaAt | scripts/start_trading.py:242-253 | definition (seed mean, then one smoothing step per close); `EmaAtWithin` and `EmaBetweenExtremes` state its bounds, and `CalculateEma` is proved against `EmaSpec`, which uses it |
| Ema.EmaSpec | scripts/start_trading.py:242-253 | ZeroDivision iff there are no prices or the period is 0; the plain mean when there are fewer prices than the period |
| Ema.CalculateEma | scripts/start_trading.py:242-253 | the loop computes the mean-seeded recursive average (invariant: the running value is the average of the first i closes) |
| Ema.ConvexStep | scripts/start_trading.py:251 | one smoothing step is a convex combination and stays in [lo, hi] |
| Ema.WithinPrefix | scripts/start_trading.py:248 | bounds on a list hold on its prefix |
| Ema.EmaAtWithin | scripts/start_trading.py:247-251 | the average after any number of steps lies within any bounds of the closes |
| Ema.EmaBetweenExtremes | scripts/start_trading.py:242-253 | whenever defined, the average lies between the least and the greatest close |
| Ema.ConstantSeries | scripts/start_trading.py:242-253 | a constant series averages to that constant for every period |
| BarClock.DaysInMonth | scripts/start_trading.py:170 | every month has 28 to 31 days |
| BarClock.NextDate | scripts/start_trading.py:167-170 | definition (the next calendar day, rolling the month and then the year); `IsNextClose` and `NextClose` use it for the intended midnight rollover |
| BarClock.IsNextClose | scripts/start_trading.py:157-176 | definition of the intended result: the first five-minute boundary strictly after the time, on the same or the next day, at most one bar away; `NextClose` is proved to meet it |
| BarClock.NextCloseAsWritten | scripts/start_trading.py:157-176 | definition of the code as written; `AsWrittenFailsAtMonthEnd` and `AsWrittenAgreesWhereDefined` state its behaviour |
| BarClock.AsWrittenFailsAtMonthEnd | scripts/start_trading.py:157-176 | the as-written rollover raises exactly in the last five minutes of the last day of a month |
| BarClock.MonthEndCounterexample | scripts/start_trading.py:167-170 | at 2025-01-31 23:57 the as-written code raises, and the corrected close is 2025-02-01 00:00 |
| BarClock.NextClose | scripts/start_trading.py:157-176 | the result is a bar boundary on the same or the next calendar day, strictly after now and at most five minutes later; it fails only past 9999-12-31 |
| BarClock.AsWrittenAgreesWhereDefined | scripts/start_trading.py:157-176 | wherever the as-written code succeeds it gives the corrected result |
| BarClock.WaitSleeps | scripts/start_trading.py:178-189 | a gap sleep only when the gap is positive, then always a final 2 s; every sleep is positive; the total is max(gap, 0) + 2 |
| BarClock.WaitReachesTheClose | scripts/start_trading.py:178-189 | for the computed close the gap is in (0, 300] s and the wait is that gap plus 2 s |
| Exchange.PlaceOrderParams | src/exchange/bybit_client.py:155-187 | the six base keys are always sent; GTC unless reduce-only, which adds the flag and IOC; price iff a truthy price on a non-market order; stop loss and take profit, each with market trigger type, iff truthy; Full TP/SL mode iff both; no other keys |
| Exchange.NetSize | src/exchange/bybit_client.py:293-299 | definition (signed sizes summed in list order); `NetSizeAppend`, `HedgedPairNetsToZero` and `SumSignedSizes` state its properties |
| Exchange.Signed | src/exchange/bybit_client.py:296-298 | definition (a Buy size counts positive, any other side negative, a zero size nothing); `HedgedPairNetsToZero` and `SumSignedSizes` state its use |
| Exchange.NetSizeAppend | src/exchange/bybit_client.py:293-299 | netting is additive over concatenated position lists |
| Exchange.HedgedPairNetsToZero | src/exchange/bybit_client.py:293-299 | equal long and short legs net to zero |
| Exchange.SumSignedSizes | src/exchange/bybit_client.py:293-299 | the loop computes the signed net size (long positive, other sides negative, zero sizes ignored) |
| Exchange.ClosePosition | src/exchange/bybit_client.py:287-321 | no order iff the net size is below 1e-6 in magnitude; otherwise a reduce-only IOC market order for the whole net size on the opposite side, without price or TP/SL |
| Exchange.CancelOrderParams | src/exchange/bybit_client.py:196-213 | ValueError iff neither id is given; the order id wins, otherwise the link id; exactly three keys |
| Exchange.SignaturePayload | src/exchange/bybit_client.py:26-29 | the payload is the timestamp, then the API key, then the 4-character receive window "5000", then the parameter string, each at its own offset |
| Exchange.PayloadDeterminesParams | src/exchange/bybit_client.py:26-29 | for a fixed timestamp and key, equal payloads mean equal parameter strings |
| Exchange.LexLessIrreflexive | src/exchange/bybit_client.py:63 | no key sorts before itself |
| Exchange.LexLessTransitive | src/exchange/bybit_client.py:63 | the key order is transitive |
| Exchange.LexLessTotal | src/exchange/bybit_client.py:63 | any two distinct keys are ordered |
| Exchange.LexLessAsymmetric | src/exchange/bybit_client.py:63 | the key order is asymmetric |
| Exchange.LexLessTotalOrEqual | src/exchange/bybit_client.py:63 | if c is below b and b is not below a, then c is below a or equal to it |
| Exchange.LexLessConnex | src/exchange/bybit_client.py:63 | two keys are equal or ordered one way or the other |
| Exchange.Insert | src/exchange/bybit_client.py:63 | inserting adds exactly that item and keeps a key-sorted list sorted |
| Exchange.SortByKey | src/exchange/bybit_client.py:63 | the sorted items are a permutation of the input and key-sorted |
| Exchange.SortedHeadsAgree | src/exchange/bybit_client.py:63 | two sorted arrangements of the same distinct-key items start with the same item |
| Exchange.TailMultiset | src/exchange/bybit_client.py:63 | dropping the head removes exactly one copy of it |
| Exchange.SortedArrangementUnique | src/exchange/bybit_client.py:63 | two sorted arrangements of the same distinct-key items are identical |
| Exchange.CountAtLeastTwo | src/exchange/bybit_client.py:63 | an item at two positions occurs at least twice |
| Exchange.DistinctKeysCountOne | src/exchange/bybit_client.py:63 | with distinct keys each item occurs once |
| Exchange.DistinctKeysPermutation | src/exchange/bybit_client.py:63 | rearranging dictionary items keeps their keys distinct |
| Exchange.QueryOrderIrrelevant | src/exchange/bybit_client.py:61-63 | the GET parameter string does not depend on the order the dictionary holds its items in |
| Exchange.JoinQuery | src/exchange/bybit_client.py:63 | the joined text is empty only for no pairs, and otherwise starts with the first key followed by "=" |
| Exchange.GetParamString | src/exchange/bybit_client.py:63 | the GET parameter string is empty exactly when there are no parameters |
| Exchange.GetParamStringOrderIrrelevant | src/exchange/bybit_client.py:61-63 | the GET parameter string depends only on which items the dictionary holds |
| Exchange.JsonMember | src/exchange/bybit_client.py:72 | a member is the quoted key, `":` and the value, with nothing in between |
| Exchange.JoinJson | src/exchange/bybit_client.py:72 | the joined members are empty only for no pairs, and otherwise start with the first member |
| Exchange.PostParamString | src/exchange/bybit_client.py:71-72 | the POST body is empty exactly when there are no parameters, and otherwise is a JSON object between braces |
| Exchange.PostParamStringOrderIrrelevant | src/exchange/bybit_client.py:71-72 | the POST body, sorted by key, depends only on which items the dictionary holds |
| Exchange.Client.constructor | src/exchange/bybit_client.py:16-24 | a client starts with a 0.1 s request interval and no previous request |
| Exchange.Client.MakeRequest | src/exchange/bybit_client.py:50-93 | waits only when less than the interval has passed, and exactly until a full interval has; records the completion time iff HTTP 200; HTTP error for other statuses; API error with the message (default "Unknown error") iff retCode is not 0; otherwise the result field |
| Exchange.ListOrEmpty | src/exchange/bybit_client.py:111-138 | a failed request gives the empty list; the result is non-empty iff the reply holds a non-empty list, which is then returned |
| Exchange.FirstOrNothing | src/exchange/bybit_client.py:140-153 | a ticker iff the list is non-empty, and then its first entry |
| Exchange.AccountBalanceOrDemo | src/exchange/bybit_client.py:95-109 | a failed request gives the 100000 USDT demo structure; otherwise the reply (empty when missing) |
| TradingSystem.ResetTrace | scripts/start_trading.py:498-517 | one decision per check of a series |
| TradingSystem.ResetDue | scripts/start_trading.py:504-506 | definition of the reset guard; `ResetTrace` applies it to a series of checks, about which `NoRepeatOnSameDate`, `AtMostOncePerDate` and `FiresAfterMidnight` state its behaviour |
| TradingSystem.NoRepeatOnSameDate | scripts/start_trading.py:504-517 | once a date is recorded, no further check on that date fires |
| TradingSystem.AtMostOncePerDate | scripts/start_trading.py:504-517 | among checks on one date, at most one fires |
| TradingSystem.FiresAfterMidnight | scripts/start_trading.py:504-517 | a date not yet reset is reset by its first check at 00:01 or later in hour 0, if not before |
| TradingSystem.Closes | scripts/start_trading.py:203-205 | the closes are the klines' closes, oldest first |
| TradingSystem.GetMarketData | scripts/start_trading.py:192-236 | ValueError with the source's message iff fewer than 600 bars; otherwise the price is the newest close, the volume the newest bar's, and both averages are those of the chronological closes |
| TradingSystem.NatToString | scripts/start_trading.py:201 | definition (decimal digits of the bar count in the ValueError message); `GetMarketData` states the message it builds |
| TradingSystem.SnapshotWithinCloses | scripts/start_trading.py:205-221 | with 600 bars or more the price is the last chronological close and both averages are defined and lie between the least and greatest close |
| TradingSystem.FirstUsdt | scripts/start_trading.py:271-274 | the value is the balance of some USDT coin; none iff the account has no USDT coin |
| TradingSystem.LastAccountUsdt | scripts/start_trading.py:269-274 | the value is the balance of some USDT coin among the accounts; none iff there is no USDT coin at all |
| TradingSystem.ScanCoins | scripts/start_trading.py:271-274 | the inner search yields the first USDT coin's wallet balance, or keeps the balance found so far when the account has none |
| TradingSystem.SelectBalance | scripts/start_trading.py:266-274 | the nested loop yields the balance specification: the first USDT coin of the last account that has one, else the cached balance |
| TradingSystem.BalanceFor | scripts/start_trading.py:266-274 | definition (the USDT wallet balance of the reply, else the cached balance); `NoUsdtKeepsCached` and `LastAccountWins` state its behaviour |
| TradingSystem.FirstUsdtAt | scripts/start_trading.py:271-274 | the coin found is the first USDT coin in list order |
| TradingSystem.NoUsdtKeepsCached | scripts/start_trading.py:267-274 | without any USDT coin the cached balance is used |
| TradingSystem.LastAccountWins | scripts/start_trading.py:270-274 | a later account with a USDT coin overrides earlier ones |
| TradingSystem.RetryFrom | scripts/start_trading.py:320-357 | a placed order is placed by an order call within the three attempts, with the validated quantity or, after a retry, the re-validated one; exhaustion means the last call failed; a rejected re-validation is reported with its attempt |
| TradingSystem.ExhaustedMeansThreeFailures | scripts/start_trading.py:320-357 | the loop gives up iff all three order calls fail and both re-validations pass |
| TradingSystem.ThirdAttemptSucceeds | scripts/start_trading.py:320-357 | two failed calls then a successful one place the second re-validated quantity on attempt 3 |
| TradingSystem.DefaultTargetValue | scripts/start_trading.py:279-283 | with the default risk settings the entry is worth 0.7 × balance before rounding |
| TradingSystem.TargetValue | scripts/start_trading.py:279-283 | definition (allocation share of the balance times the leverage); `DefaultTargetValue` gives its default |
| TradingSystem.RawQuantity | scripts/start_trading.py:289 | the quantity times the price is the target value |
| TradingSystem.StopLossPrice | scripts/start_trading.py:316 | the stop lies above a positive entry price by the stop-loss fraction of it |
| TradingSystem.TakeProfitPrice | scripts/start_trading.py:317 | the target lies below a positive entry price by the take-profit fraction of it |
| TradingSystem.ExecutionSpec | scripts/start_trading.py:255-366 | non-entry signals are ignored; ZeroDivision iff an entry at price 0; an opened short used the rounded target value, a positive corrected quantity that passed validation, and a successful order call within three attempts |
| TradingSystem.BracketMatchesExitRule | scripts/start_trading.py:316-317 | with default risk the stop loss lies above and the take profit below the entry, exactly at the engine's −1.5% and +6% return thresholds |
| TradingSystem.StoppedIsFinal | scripts/start_trading.py:399-472 | once an exception has ended the sweep, later assets change nothing |
| TradingSystem.ExitStep | scripts/start_trading.py:399-472 | definition of one asset's turn in the exit sweep; `SweepFacts` and `StoppedIsFinal` state its effect |
| TradingSystem.ExitRecordOf | scripts/start_trading.py:427-436 | definition (the short's P&L and return, and the hold time split into hours and minutes); `SweepFacts` proves every record well formed and `ShortProfitSign` states the sign of its P&L |
| TradingSystem.SweepSpec | scripts/start_trading.py:397-472 | definition of the whole sweep; `CheckPositionExits` is proved against it |
| TradingSystem.SweepFacts | scripts/start_trading.py:397-472 | the sweep keeps the asset set, only turns open positions flat, appends at most one record per asset, and each new record is well formed for an asset that was open before and is flat after |
| TradingSystem.ShortProfitSign | scripts/start_trading.py:427-428 | a closed short with positive size profits iff the exit price is below the entry, and breaks even iff they are equal |
| TradingSystem.MultiAssetTradingSystem.constructor | scripts/start_trading.py:71-78 | a fresh engine holding every asset flat, every regime ACTIVE and no stored cross state; the traded assets are the enabled symbols of the configured table, BTC, ETH and SOL; a zero cached balance and no reset date |
| TradingSystem.MultiAssetTradingSystem.CheckDailyReset | scripts/start_trading.py:498-517 | fires iff due and the maintenance calls return; their failure escapes iff due; the date is recorded only when it fires |
| TradingSystem.MultiAssetTradingSystem.ExecuteSignal | scripts/start_trading.py:255-395 | the outcome is the execution specification; the engine records the short at the signal price with the placed quantity and value only when opened; nothing else changes |
| TradingSystem.MultiAssetTradingSystem.CheckPositionExits | scripts/start_trading.py:397-472 | the engine's positions, regimes and the returned reports are those of the sweep specification; cross states unchanged |
| TradeDurations.HeadNotLater | src/utils/trade_duration_tracker.py:88 | in a time-sorted list the head is no later than any other element |
| TradeDurations.InsertByTime | src/utils/trade_duration_tracker.py:88 | inserting keeps the list sorted and adds exactly that event |
| TradeDurations.SortByTime | src/utils/trade_duration_tracker.py:88 | the result is sorted by timestamp and a permutation of the events |
| TradeDurations.ErrorIsFinal | src/utils/trade_duration_tracker.py:93-115 | once the matching has raised, later events change nothing |
| TradeDurations.MatchTrades | src/utils/trade_duration_tracker.py:90-115 | the queue loop computes the matching specification (invariant: queue and trades are those of the prefix) |
| TradeDurations.TradeOf | src/utils/trade_duration_tracker.py:99-114 | definition of the trade record; `TradeOfMeaning` states its meaning |
| TradeDurations.TradeOfMeaning | src/utils/trade_duration_tracker.py:99-114 | a trade runs from its entry to its exit, its hours are its milliseconds over 3 600 000, and for a positive entry price it wins exactly when the exit price is lower |
| TradeDurations.MatchStep | src/utils/trade_duration_tracker.py:93-114 | an entry joins the queue and an exit completes at most one trade (open entries plus trades grow by one per entry), earlier trades are kept, and only an exit against a zero entry price fails |
| TradeDurations.MatchSpec | src/utils/trade_duration_tracker.py:90-115 | definition of the matched trades; `MatchTrades` is proved against it, and `MatchingIsFifo`, `TradesBounded` and `SortedTradesMoveForward` state its properties |
| TradeDurations.Entries | src/utils/trade_duration_tracker.py:94-95 | the entries are entry events of the list |
| TradeDurations.ExitCount | src/utils/trade_duration_tracker.py:96 | at most one exit per event |
| TradeDurations.EntryEvents | src/utils/trade_duration_tracker.py:106-110 | each trade's entry event is recovered from its entry time and price |
| TradeDurations.StepKeepsInvariant | src/utils/trade_duration_tracker.py:93-115 | one event keeps the matching invariant |
| TradeDurations.EntriesStep | src/utils/trade_duration_tracker.py:93-96 | entries and exit counts grow by the last event |
| TradeDurations.MatchFacts | src/utils/trade_duration_tracker.py:90-115 | the entries seen are the matched ones oldest first followed by the open queue; no more trades than exits; every trade is built from its entry and exit |
| TradeDurations.MatchFailure | src/utils/trade_duration_tracker.py:114 | a failure is a ZeroDivision from a zero-priced entry among the events |
| TradeDurations.SortedMatchFacts | src/utils/trade_duration_tracker.py:88-108 | on time-sorted events every trade ends no earlier than it began |
| TradeDurations.TradesBounded | src/utils/trade_duration_tracker.py:93-98 | at most as many trades as entries and as exits |
| TradeDurations.MatchingIsFifo | src/utils/trade_duration_tracker.py:96-98 | the k-th trade is opened by the k-th entry event |
| TradeDurations.NoEntries | src/utils/trade_duration_tracker.py:94-95 | a log of exits has no entries |
| TradeDurations.ExitsAloneMatchNothing | src/utils/trade_duration_tracker.py:96 | exits without open entries are dropped, yielding no trades |
| TradeDurations.TradeFields | src/utils/trade_duration_tracker.py:99-114 | a trade's duration is exit minus entry, its minutes lie in [0, 60) with the hour/minute split of the seconds, and its return is the short's return |
| TradeDurations.SortedTradeWellFormed | src/utils/trade_duration_tracker.py:88-114 | on time-sorted events every matched trade is built from its own entry and exit and ends no earlier than it began |
| TradeDurations.SortedTradesMoveForward | src/utils/trade_duration_tracker.py:88-114 | after sorting every trade has a non-negative duration, minutes in [0, 60) and the short's return on its prices |
| TradeDurations.CalculateCompletedTradeDurations | src/utils/trade_duration_tracker.py:82-117 | the per-asset loop computes the specification: sorted, FIFO-matched trades per tracked asset |
| TradeDurations.CompletedKeys | src/utils/trade_duration_tracker.py:85-117 | the result lists exactly the initial assets |
| TradeDurations.CompletedSpec | src/utils/trade_duration_tracker.py:82-117 | definition of the completed trades per asset (`CompletedFrom` over the tracked assets); `CalculateCompletedTradeDurations` is proved against it and `CompletedKeys` states the keys of `CompletedFrom` |
| TradeDurations.MissingLogMeansNoTrades | src/utils/trade_duration_tracker.py:36-38 | a missing log gives every tracked asset an empty trade list |
| TradeDurations.TruncDiv | src/utils/trade_duration_tracker.py:102 | definition (`int()` of a quotient, truncating toward zero); `TradeFields` states the split it feeds for non-negative durations |
| TradeDurations.DurationsHours | src/utils/trade_duration_tracker.py:130 | one duration per trade, the k-th being the k-th trade's hours |
| TradeDurations.PnlPcts | src/utils/trade_duration_tracker.py:131 | one return per trade, the k-th being the k-th trade's return |
| TradeDurations.WinCount | src/utils/trade_duration_tracker.py:139 | no more wins than returns |
| TradeDurations.WinCountCountsWinners | src/utils/trade_duration_tracker.py:139 | the win count is the number of positions whose return is strictly positive |
| TradeDurations.FractionAtMostOne | src/utils/trade_duration_tracker.py:139 | a share of at most n out of n, in percent, lies in [0, 100] |
| TradeDurations.TradeStatistics | src/utils/trade_duration_tracker.py:124-140 | count only iff there are no trades; otherwise the count, the mean duration and mean return as sums over the count, least and greatest durations that are attained and bound every trade's duration, the win rate as the share of trades with a positive return in percent (in [0, 100]), and the last (at most) five trades |
| TradeDurations.StatisticsSpec | src/utils/trade_duration_tracker.py:119-143 | definition (`TradeStatistics` for every asset of the completed trades, or the matching error); `MissingLogStatistics` states its result without a log |
| TradeDurations.MissingLogStatistics | src/utils/trade_duration_tracker.py:119-141 | without a log every tracked asset reports zero trades |

## Left out

- HTTP transport, JSON decoding and the HMAC-SHA256 computation: these are foreign library calls. Replies are inputs, and only the signed payload string is modelled.
- Percent-encoding of GET parameters: the parameter string joins `key=value` pairs as they are.
- Exchange.PostParamString: the rendering of each value as JSON text (string quoting and escaping, number formatting, `true`) is not modelled. Each value is taken as already-rendered JSON text. Only the compact separators and the key order are modelled.
- Settings.Lower: folds only the ASCII letters A-Z. Python's `str.lower` is Unicode-wide and can change the length of a string (`'İ'.lower()` has two characters). The model only uses it to compare a setting with "true", and no character outside A-Z lowers to one of the letters of "true", so the outcome of those comparisons is the same.
- asyncio sleeps, signal handlers, the single-instance lock file, logging and `main_loop`: process plumbing. Waits are returned as durations.
- `initialize_system`, `sync_positions`, `send_daily_status_update` and the Telegram notifications: they exchange messages with outside services and only log failures. Telegram delivery is not part of this model.
- `get_instrument_info`, `calculate_quantity_for_usdt_value`, `validate_order_params` and the four-argument `should_exit_position`: they are not defined in the modelled code. They appear as function parameters (`quantityFor`, `validate`, and the exit decision) with no assumed behaviour.
- `reset_daily_cross_counts` and `cleanup_old_cross_events`: they are not defined in the modelled code. They appear as the `maintenanceFails` input.
- `apply_quick_exit_cooldown`: it is not defined in the modelled code, and it raises after the position has been cleared. It does not change modelled state and is not modelled.
- `set_leverage`, `switch_position_mode`, the staleness warning of `get_market_data`, and the request headers: they only pass values through to the exchange or to the log.
- The alpha integration package, the Telegram bot module and the scripts under tests/: they are not part of this model. One test's expectation is checked as `StrategyEngine.FreshEngineScenario`.
- Log-file discovery and regex/strptime parsing in the duration tracker: file I/O. The input is the parsed event list per asset.
- TradeDurations.CalculateCompletedTradeDurations: iterates the three tracked assets rather than the parsed dictionary's keys. The parser yields exactly these keys, or none for a missing file.
- TradeDurations.SortByTime: the insertion is stable, as Python's `sorted` is, but stability is not among the proved properties. Only sortedness and permutation are stated.
- TradingSystem.ExecutionSpec: Python's `round(x, 2)` is the parameter `round2`, and float arithmetic is exact real arithmetic.
- TradingSystem.MultiAssetTradingSystem.ExecuteSignal: the balance request's reply is an input, and `round(x, 2)` is a parameter. An exception escaping from the balance request or from the parameter calls is not modelled.
- StrategyEngine.Engine.UpdatePosition: `datetime.now` is the `now` parameter, in whole seconds. Durations are compared in whole seconds rather than microseconds.
- Exchange.Client.MakeRequest: the reply and the clock readings are inputs. A connection failure is reported as `HttpError(0)` rather than the client library's exception type.
- Engine times and durations are integer seconds: `timedelta` microseconds are not modelled.
- Exchange.ClosePosition: the position list is an input. A failure of the position request inside `get_positions` yields the empty list, as in `Exchange.ListOrEmpty`.

## Findings

| source | as written | input that shows it | evidently intended | confidence | as-written member | corrected member |
|---|---|---|---|---|---|---|
| scripts/start_trading.py:167-170 | at 23:55 or later the next close is `now.replace(day=now.day + 1, hour=0, ...)`, which raises ValueError when the next day is past the end of the month | 2025-01-31 23:57 UTC: `replace(day=32)` raises, so no next close is computed in the last five minutes of every month | roll over to the first day of the next month (or year) at 00:00 | not executed | BarClock.NextCloseAsWritten (BarClock.MonthEndCounterexample, BarClock.AsWrittenFailsAtMonthEnd) | BarClock.NextClose |

/** The control flow of the scheduler's trading system (`MultiAssetTradingSystem`
    in scripts/start_trading.py): the once-a-day maintenance guard, the guard
    and shaping of market data, sizing and the bounded retry of an entry, and
    the exit sweep over the traded assets. Exchange replies, clock readings
    and the calls into code outside the model (quantity calculation, order
    validation, order placement, the four-argument exit check) are inputs. */
module TradingSystem {
  import opened Common
  import SE = StrategyEngine
  import Ema
  import BarClock
  import Exchange
  import Settings

  // ---------------------------------------------------------------------
  // Daily reset

  type Date = (int, int, int)

  /** The guard of `check_daily_reset`: never reset yet, or a new date at
      00:01 UTC or later within hour 0. */
  predicate ResetDue(last: Option<Date>, now: BarClock.DateTime)
  {
    last.None? || (last != Some(BarClock.DateOf(now)) && now.hour == 0 && now.minute >= 1)
  }

  /** Which of a series of checks fire, when every maintenance call succeeds. */
  function ResetTrace(last: Option<Date>, times: seq<BarClock.DateTime>): (fired: seq<bool>)
    ensures |fired| == |times|
    decreases |times|
  {
    if |times| == 0 then []
    else
      var f := ResetDue(last, times[0]);
      [f] + ResetTrace(if f then Some(BarClock.DateOf(times[0])) else last, times[1..])
  }

  predicate AllOnDate(times: seq<BarClock.DateTime>, d: Date)
  {
    forall i :: 0 <= i < |times| ==> BarClock.DateOf(times[i]) == d
  }

  lemma {:induction false} NoRepeatOnSameDate(d: Date, times: seq<BarClock.DateTime>)
    requires AllOnDate(times, d)
    ensures forall i :: 0 <= i < |times| ==> !ResetTrace(Some(d), times)[i]
  {
    if |times| > 0 {
      assert AllOnDate(times[1..], d) by {
        forall i | 0 <= i < |times[1..]| ensures BarClock.DateOf(times[1..][i]) == d {
          assert times[1..][i] == times[i + 1];
        }
      }
      NoRepeatOnSameDate(d, times[1..]);
    }
  }

  /** Within one date the maintenance runs at most once. */
  lemma {:induction false} AtMostOncePerDate(last: Option<Date>, d: Date, times: seq<BarClock.DateTime>)
    requires AllOnDate(times, d)
    ensures forall i, j :: 0 <= i < j < |times| ==> !(ResetTrace(last, times)[i] && ResetTrace(last, times)[j])
  {
    if |times| > 0 {
      var t := ResetTrace(last, times);
      assert AllOnDate(times[1..], d) by {
        forall i | 0 <= i < |times[1..]| ensures BarClock.DateOf(times[1..][i]) == d {
          assert times[1..][i] == times[i + 1];
        }
      }
      var next := if ResetDue(last, times[0]) then Some(d) else last;
      var tail := ResetTrace(next, times[1..]);
      if ResetDue(last, times[0]) {
        NoRepeatOnSameDate(d, times[1..]);
      } else {
        AtMostOncePerDate(last, d, times[1..]);
      }
      forall i, j | 0 <= i < j < |times| ensures !(t[i] && t[j]) {
        assert t[j] == tail[j - 1];
        if i > 0 {
          assert t[i] == tail[i - 1];
        }
      }
    }
  }

  /** A date that has not been reset yet is reset by its first check at or
      after 00:01 at the latest. */
  lemma {:induction false} FiresAfterMidnight(last: Option<Date>, d: Date, times: seq<BarClock.DateTime>, k: nat)
    requires AllOnDate(times, d) && last != Some(d)
    requires k < |times| && times[k].hour == 0 && times[k].minute >= 1
    ensures exists i :: 0 <= i <= k && ResetTrace(last, times)[i]
  {
    var t := ResetTrace(last, times);
    if ResetDue(last, times[0]) {
      assert t[0];
    } else {
      assert k > 0;
      assert AllOnDate(times[1..], d) by {
        forall i | 0 <= i < |times[1..]| ensures BarClock.DateOf(times[1..][i]) == d {
          assert times[1..][i] == times[i + 1];
        }
      }
      assert times[1..][k - 1] == times[k];
      FiresAfterMidnight(last, d, times[1..], k - 1);
      var i :| 0 <= i <= k - 1 && ResetTrace(last, times[1..])[i];
      assert t[i + 1];
    }
  }

  // ---------------------------------------------------------------------
  // Market data

  /** One bar as the kline endpoint lists it. */
  datatype Kline = Kline(startTime: int, open: real, high: real, low: real, close: real, volume: real)

  const MinBars: nat := 600

  /** The closes in chronological order: the endpoint lists the newest bar first. */
  function Closes(klines: seq<Kline>): (c: seq<real>)
    ensures |c| == |klines|
    ensures forall i :: 0 <= i < |c| ==> c[i] == klines[|klines| - 1 - i].close
  {
    seq(|klines|, i requires 0 <= i < |klines| => klines[|klines| - 1 - i].close)
  }

  function DigitChar(d: nat): char
    requires d < 10
  {
    (48 + d) as char
  }

  function NatToString(n: nat): string
    decreases n
  {
    if n < 10 then [DigitChar(n)] else NatToString(n / 10) + [DigitChar(n % 10)]
  }

  /** `get_market_data` over the klines it fetched: fewer than 600 bars is a
      `ValueError`; otherwise the price and volume of the newest bar and the
      two averages over the chronological closes. */
  method GetMarketData(asset: string, klines: seq<Kline>, now: int) returns (r: Result<SE.MarketData, Error>)
    ensures r.Err? <==> |klines| < MinBars
    ensures r.Err? ==> r.error == ValueError("Insufficient 5-minute bar data for " + asset
                                              + " - need 600+ bars, got " + NatToString(|klines|))
    ensures r.Ok? ==>
      && r.value.asset == asset && r.value.timestamp == now
      && r.value.price == klines[0].close && r.value.volume == klines[0].volume
      && Ema.EmaSpec(Closes(klines), 240) == Ok(r.value.ema240)
      && Ema.EmaSpec(Closes(klines), 600) == Ok(r.value.ema600)
  {
    if |klines| < MinBars {
      return Err(ValueError("Insufficient 5-minute bar data for " + asset
                            + " - need 600+ bars, got " + NatToString(|klines|)));
    }
    var closes := Closes(klines);
    var currentPrice := closes[|closes| - 1];
    var ema240 := Ema.CalculateEma(closes, 240);
    var ema600 := Ema.CalculateEma(closes, 600);
    r := Ok(SE.MarketData(asset, currentPrice, ema240.value, ema600.value, klines[0].volume, now));
  }

  /** With enough bars the price is the newest close and both averages lie
      within the range of the closes they were computed from. */
  lemma SnapshotWithinCloses(klines: seq<Kline>)
    requires |klines| >= MinBars
    ensures Closes(klines)[|klines| - 1] == klines[0].close
    ensures Ema.EmaSpec(Closes(klines), 240).Ok? && Ema.EmaSpec(Closes(klines), 600).Ok?
    ensures MinOf(Closes(klines)) <= Ema.EmaSpec(Closes(klines), 240).value <= MaxOf(Closes(klines))
    ensures MinOf(Closes(klines)) <= Ema.EmaSpec(Closes(klines), 600).value <= MaxOf(Closes(klines))
  {
    Ema.EmaBetweenExtremes(Closes(klines), 240);
    Ema.EmaBetweenExtremes(Closes(klines), 600);
  }

  // ---------------------------------------------------------------------
  // Balance used for sizing

  /** The wallet balance of the first USDT coin of an account. */
  function FirstUsdt(coins: seq<Exchange.Coin>): (r: Option<real>)
    ensures r.Some? ==> exists j :: 0 <= j < |coins| && coins[j] == Exchange.Coin("USDT", r.value)
    ensures r.None? <==> forall j :: 0 <= j < |coins| ==> coins[j].coin != "USDT"
  {
    if |coins| == 0 then None
    else if coins[0].coin == "USDT" then Some(coins[0].walletBalance)
    else
      var rest := FirstUsdt(coins[1..]);
      assert forall j :: 1 <= j < |coins| ==> coins[j] == coins[1..][j - 1];
      rest
  }

  /** The USDT balance of the last account that has one. */
  function LastAccountUsdt(accounts: seq<Exchange.Account>): (r: Option<real>)
    ensures r.Some? ==> exists i, j :: 0 <= i < |accounts| && 0 <= j < |accounts[i].coins|
                                         && accounts[i].coins[j] == Exchange.Coin("USDT", r.value)
    ensures r.None? <==> forall i, j :: 0 <= i < |accounts| && 0 <= j < |accounts[i].coins| ==>
                                         accounts[i].coins[j].coin != "USDT"
  {
    if |accounts| == 0 then None
    else
      var last := FirstUsdt(accounts[|accounts| - 1].coins);
      var init := LastAccountUsdt(accounts[..|accounts| - 1]);
      assert forall i :: 0 <= i < |accounts| - 1 ==> accounts[i] == accounts[..|accounts| - 1][i];
      if last.Some? then last else init
  }

  /** The balance `execute_signal` sizes with: a USDT wallet balance from the
      reply when there is one, the cached session balance otherwise. */
  function BalanceFor(cached: real, b: Exchange.Balance): real
  {
    if b.list.None? then cached
    else match LastAccountUsdt(b.list.value)
      case Some(v) => v
      case None => cached
  }

  /** The inner search of `execute_signal` over one account's coins: the
      first USDT coin replaces the balance found so far, and the search stops there. */
  method ScanCoins(coins: seq<Exchange.Coin>, current: real) returns (found: real)
    ensures found == match FirstUsdt(coins) case Some(v) => v case None => current
  {
    found := current;
    var j := 0;
    while j < |coins|
      invariant 0 <= j <= |coins|
      invariant forall k :: 0 <= k < j ==> coins[k].coin != "USDT"
      invariant found == current
    {
      if coins[j].coin == "USDT" {
        found := coins[j].walletBalance;
        break;
      }
      j := j + 1;
    }
    FirstUsdtAt(coins, j);
  }

  /** The nested search of `execute_signal`: every account is visited, and
      each account holding a USDT coin overrides the balance. */
  method SelectBalance(cached: real, b: Exchange.Balance) returns (current: real)
    ensures current == BalanceFor(cached, b)
  {
    current := cached;
    if b.list.None? {
      return;
    }
    var accounts := b.list.value;
    var i := 0;
    while i < |accounts|
      invariant 0 <= i <= |accounts|
      invariant current == match LastAccountUsdt(accounts[..i]) case Some(v) => v case None => cached
    {
      current := ScanCoins(accounts[i].coins, current);
      assert accounts[..i + 1][..i] == accounts[..i];
      i := i + 1;
    }
    assert accounts[..i] == accounts;
  }

  lemma {:induction false} FirstUsdtAt(coins: seq<Exchange.Coin>, j: nat)
    requires j <= |coins|
    requires forall k :: 0 <= k < j ==> coins[k].coin != "USDT"
    requires j < |coins| ==> coins[j].coin == "USDT"
    ensures FirstUsdt(coins) == if j < |coins| then Some(coins[j].walletBalance) else None
  {
    if |coins| > 0 && j > 0 {
      assert forall k :: 0 <= k < j - 1 ==> coins[1..][k] == coins[k + 1];
      FirstUsdtAt(coins[1..], j - 1);
    }
  }

  /** No USDT coin anywhere in the reply: the cached balance is used. */
  lemma NoUsdtKeepsCached(cached: real, b: Exchange.Balance)
    requires b.list.Some?
    requires forall i, j :: 0 <= i < |b.list.value| && 0 <= j < |b.list.value[i].coins| ==>
                              b.list.value[i].coins[j].coin != "USDT"
    ensures BalanceFor(cached, b) == cached
  {
  }

  /** Later accounts win: appending an account with a USDT coin decides the balance. */
  lemma LastAccountWins(cached: real, accounts: seq<Exchange.Account>, a: Exchange.Account, v: real)
    requires FirstUsdt(a.coins) == Some(v)
    ensures BalanceFor(cached, Exchange.Balance(Some(accounts + [a]))) == v
  {
    assert (accounts + [a])[|accounts + [a]| - 1] == a;
  }

  // ---------------------------------------------------------------------
  // Entry: sizing and the bounded retry

  const MaxRetries: nat := 3

  /** What `validate_order_params` reports. */
  datatype Validation = Validation(valid: bool, correctedQty: real)

  datatype Retry = Placed(qty: real, attempts: nat) | Exhausted | RevalidationRejected(refresh: nat)

  /** The retry loop from a given attempt (counting from 0). `place(a, q)` says
      whether the order call of attempt `a` with quantity `q` returned; after
      a failure that is not the last, the instrument is refreshed and
      `validate(a + 1, raw)` re-validates the raw quantity. */
  function RetryFrom(qty: real, raw: real, place: (nat, real) -> bool, validate: (nat, real) -> Validation,
                     attempt: nat): (r: Retry)
    requires attempt < MaxRetries
    ensures r.Placed? ==> attempt < r.attempts <= MaxRetries && place(r.attempts - 1, r.qty)
    ensures r.Placed? && r.attempts == attempt + 1 ==> r.qty == qty
    ensures r.Placed? && r.attempts > attempt + 1 ==>
      validate(r.attempts - 1, raw).valid && r.qty == validate(r.attempts - 1, raw).correctedQty
    ensures r.RevalidationRejected? ==> attempt < r.refresh < MaxRetries && !validate(r.refresh, raw).valid
    ensures r.Exhausted? ==> !place(MaxRetries - 1, if attempt == MaxRetries - 1 then qty
                                                     else validate(MaxRetries - 1, raw).correctedQty)
    decreases MaxRetries - attempt
  {
    if place(attempt, qty) then Placed(qty, attempt + 1)
    else if attempt == MaxRetries - 1 then Exhausted
    else
      var v := validate(attempt + 1, raw);
      if !v.valid then RevalidationRejected(attempt + 1)
      else RetryFrom(v.correctedQty, raw, place, validate, attempt + 1)
  }

  /** The loop gives up exactly when all three order calls fail and both
      re-validations pass. */
  lemma ExhaustedMeansThreeFailures(qty: real, raw: real, place: (nat, real) -> bool, validate: (nat, real) -> Validation)
    ensures RetryFrom(qty, raw, place, validate, 0).Exhausted? <==>
      && !place(0, qty)
      && validate(1, raw).valid && !place(1, validate(1, raw).correctedQty)
      && validate(2, raw).valid && !place(2, validate(2, raw).correctedQty)
  {
    var r1 := RetryFrom(validate(1, raw).correctedQty, raw, place, validate, 1);
    var r2 := RetryFrom(validate(2, raw).correctedQty, raw, place, validate, 2);
  }

  /** Two failed calls followed by a successful one place the quantity of the
      second re-validation on the third attempt. */
  lemma ThirdAttemptSucceeds(qty: real, raw: real, place: (nat, real) -> bool, validate: (nat, real) -> Validation)
    requires !place(0, qty) && validate(1, raw).valid && !place(1, validate(1, raw).correctedQty)
    requires validate(2, raw).valid && place(2, validate(2, raw).correctedQty)
    ensures RetryFrom(qty, raw, place, validate, 0) == Placed(validate(2, raw).correctedQty, 3)
  {
    var r1 := RetryFrom(validate(1, raw).correctedQty, raw, place, validate, 1);
    var r2 := RetryFrom(validate(2, raw).correctedQty, raw, place, validate, 2);
  }

  /** The leveraged position value before rounding: the allocated share of
      the balance times the leverage. */
  function TargetValue(balance: real, risk: Settings.RiskConfig): real
  {
    balance * risk.perAssetAllocationPct * (risk.leveragePerAsset as real)
  }

  /** The quantity the target value buys at the signal price. */
  function RawQuantity(value: real, price: real): (qty: real)
    requires price != 0.0
    ensures qty * price == value
  {
    value / price
  }

  /** The stop-loss price of a short: above the entry by the stop-loss fraction. */
  function StopLossPrice(price: real, risk: Settings.RiskConfig): (stop: real)
    ensures price > 0.0 && risk.stopLossPct > 0.0 ==> stop > price
    ensures stop - price == price * risk.stopLossPct
  {
    price * (1.0 + risk.stopLossPct)
  }

  /** The take-profit price of a short: below the entry by the take-profit fraction. */
  function TakeProfitPrice(price: real, risk: Settings.RiskConfig): (target: real)
    ensures price > 0.0 && 0.0 < risk.takeProfitPct ==> target < price
    ensures price - target == price * risk.takeProfitPct
  {
    price * (1.0 - risk.takeProfitPct)
  }

  /** With the default risk settings an entry is worth 70% of the balance. */
  lemma DefaultTargetValue(balance: real)
    ensures TargetValue(balance, Settings.DefaultRisk) == 0.7 * balance
  {
  }

  datatype ExecOutcome =
    | Ignored
    | Aborted(error: Error)
    | NoQuantity
    | Rejected
    | RevalidationFailed(refresh: nat)
    | OrderFailed
    | Opened(qty: real, value: real, attempts: nat, stopLoss: real, takeProfit: real)

  /** `execute_signal` as a function of its inputs. `round2` stands for
      Python's `round(x, 2)` and `quantityFor` for the exchange client's
      quantity calculation. */
  function ExecutionSpec(signal: SE.TradingSignal, cached: real, b: Exchange.Balance, risk: Settings.RiskConfig,
                         round2: real -> real, quantityFor: (real, real) -> real,
                         validate: (nat, real) -> Validation, place: (nat, real) -> bool): (r: ExecOutcome)
    ensures signal.signalType != SE.EnterShort ==> r == Ignored
    ensures r == Aborted(ZeroDivision) <==> signal.signalType == SE.EnterShort && signal.price == 0.0
    ensures r.Opened? ==>
      && signal.signalType == SE.EnterShort && signal.price != 0.0
      && 1 <= r.attempts <= MaxRetries
      && r.value == round2(TargetValue(BalanceFor(cached, b), risk))
      && quantityFor(r.value, signal.price) > 0.0
      && validate(0, quantityFor(r.value, signal.price)).valid
      && place(r.attempts - 1, r.qty)
  {
    if signal.signalType != SE.EnterShort then Ignored
    else
      var value := round2(TargetValue(BalanceFor(cached, b), risk));
      if signal.price == 0.0 then Aborted(ZeroDivision)
      else
        var raw := RawQuantity(value, signal.price);
        var corrected := quantityFor(value, signal.price);
        if corrected <= 0.0 then NoQuantity
        else
          var v := validate(0, corrected);
          if !v.valid then Rejected
          else match RetryFrom(v.correctedQty, raw, place, validate, 0)
            case Placed(q, n) =>
              Opened(q, value, n, StopLossPrice(signal.price, risk), TakeProfitPrice(signal.price, risk))
            case Exhausted => OrderFailed
            case RevalidationRejected(k) => RevalidationFailed(k)
  }

  /** The bracket sent with the default risk settings sits exactly at the
      engine's exit thresholds: the stop loss at -1.5% and the take profit at
      +6% of the short's return. */
  lemma BracketMatchesExitRule(price: real)
    requires price > 0.0
    ensures StopLossPrice(price, Settings.DefaultRisk) > price > TakeProfitPrice(price, Settings.DefaultRisk)
    ensures SE.PnlPct(price, StopLossPrice(price, Settings.DefaultRisk)) <= SE.StopLossPnlPct
    ensures SE.PnlPct(price, TakeProfitPrice(price, Settings.DefaultRisk)) >= SE.TakeProfitPnlPct
  {
    SE.ThresholdsAsPrices(price, price * 1.015);
    SE.ThresholdsAsPrices(price, price * 0.94);
  }

  // ---------------------------------------------------------------------
  // Exit sweep

  /** What `get_market_data` delivered for an asset. */
  datatype Quote = Quote(price: real, ema240: real, ema600: real, volume: real)

  /** The environment of one asset's turn in the sweep: the market data (None
      when fetching it raised), the four-argument exit decision (None when the
      call raised), and whether closing on the exchange returned. */
  datatype ExitObservation = ExitObservation(quote: Option<Quote>, decision: Option<bool>, closed: bool)

  /** What the sweep reports for a closed position; `hold` is the
      "{hours}h {minutes}m" split, absent for a missing entry time. */
  datatype ExitRecord = ExitRecord(asset: string, entryPrice: real, exitPrice: real, amount: real,
                                   pnl: real, pnlPct: real, hold: Option<(int, int)>)

  datatype Sweep = Sweep(positions: map<string, SE.Position>, regimes: map<string, SE.MarketRegime>,
                         closed: seq<ExitRecord>, stopped: bool)

  function ExitRecordOf(asset: string, p: SE.Position, price: real, now: int): ExitRecord
    requires p.entryPrice != 0.0
  {
    ExitRecord(asset, p.entryPrice, price, p.assetAmount, (p.entryPrice - price) * p.assetAmount,
               SE.PnlPct(p.entryPrice, price),
               if p.entryTime.Some? then Some(HourSplit(now - p.entryTime.value)) else None)
  }

  /** One asset's turn: a missing asset, failed market data or a failed exit
      check ends the sweep; a flat asset is skipped; the regime is recorded
      before the exit check; a failed close or a zero entry price (whose
      return divides by zero) leaves the position open. */
  function ExitStep(s: Sweep, asset: string, o: ExitObservation, now: int): Sweep
  {
    if s.stopped then s
    else if asset !in s.positions then s.(stopped := true)
    else if !s.positions[asset].inPosition then s
    else if o.quote.None? then s.(stopped := true)
    else
      var q := o.quote.value;
      var regimes := s.regimes[asset := SE.RegimeOf(q.price, q.ema240, q.ema600)];
      if o.decision.None? then s.(regimes := regimes, stopped := true)
      else if !o.decision.value || !o.closed || s.positions[asset].entryPrice == 0.0 then s.(regimes := regimes)
      else
        var p := s.positions[asset];
        Sweep(s.positions[asset := SE.Flat], regimes, s.closed + [ExitRecordOf(asset, p, q.price, now)], false)
  }

  function SweepSpec(s: Sweep, assets: seq<string>, obs: seq<ExitObservation>, now: int): Sweep
    requires |assets| == |obs|
  {
    if |assets| == 0 then s
    else ExitStep(SweepSpec(s, assets[..|assets| - 1], obs[..|obs| - 1], now), assets[|assets| - 1], obs[|obs| - 1], now)
  }

  lemma {:induction false} StoppedIsFinal(s: Sweep, assets: seq<string>, obs: seq<ExitObservation>, now: int, i: nat, n: nat)
    requires |assets| == |obs| && i <= n <= |assets|
    requires SweepSpec(s, assets[..i], obs[..i], now).stopped
    ensures SweepSpec(s, assets[..n], obs[..n], now) == SweepSpec(s, assets[..i], obs[..i], now)
    decreases n
  {
    if n > i {
      StoppedIsFinal(s, assets, obs, now, i, n - 1);
      assert assets[..n][..n - 1] == assets[..n - 1];
      assert obs[..n][..n - 1] == obs[..n - 1];
    }
  }

  /** A closed trade's record: non-zero entry, the short's P&L and return,
      and a minute count below 60. */
  predicate WellFormedRecord(r: ExitRecord)
  {
    && r.entryPrice != 0.0
    && r.pnl == (r.entryPrice - r.exitPrice) * r.amount
    && r.pnlPct == SE.PnlPct(r.entryPrice, r.exitPrice)
    && (r.hold.Some? ==> 0 <= r.hold.value.1 < 60)
  }

  /** What a sweep may do to the book: positions only go from open to flat,
      the reports only grow, every new report is well formed, names an asset
      of the sweep that was open before and is flat after, and there is at
      most one report per asset visited. */
  lemma {:induction false} SweepFacts(s: Sweep, assets: seq<string>, obs: seq<ExitObservation>, now: int)
    requires |assets| == |obs|
    ensures var t := SweepSpec(s, assets, obs, now);
      && t.positions.Keys == s.positions.Keys
      && (forall a :: a in s.positions ==>
            t.positions[a] == s.positions[a] || (s.positions[a].inPosition && t.positions[a] == SE.Flat))
      && |s.closed| <= |t.closed| <= |s.closed| + |assets|
      && t.closed[..|s.closed|] == s.closed
      && (forall k :: |s.closed| <= k < |t.closed| ==>
            && WellFormedRecord(t.closed[k])
            && t.closed[k].asset in assets
            && t.closed[k].asset in s.positions
            && s.positions[t.closed[k].asset].inPosition
            && t.positions[t.closed[k].asset] == SE.Flat)
  {
    if |assets| > 0 {
      var n := |assets|;
      var init := assets[..n - 1];
      SweepFacts(s, init, obs[..n - 1], now);
      var m := SweepSpec(s, init, obs[..n - 1], now);
      var t := SweepSpec(s, assets, obs, now);
      assert t == ExitStep(m, assets[n - 1], obs[n - 1], now);
      forall k | |s.closed| <= k < |m.closed| ensures t.closed[k] == m.closed[k] && t.closed[k].asset in assets {
        assert m.closed[k].asset in init;
      }
      if |t.closed| > |m.closed| {
        var r := t.closed[|m.closed|];
        assert r.asset == assets[n - 1];
      }
      assert t.closed[..|s.closed|] == m.closed[..|s.closed|];
    }
  }

  /** The P&L of a closed short is positive exactly when the exit price is
      below the entry price (for a positive amount). */
  lemma ShortProfitSign(r: ExitRecord)
    requires WellFormedRecord(r) && r.amount > 0.0
    ensures r.pnl > 0.0 <==> r.exitPrice < r.entryPrice
    ensures r.pnl == 0.0 <==> r.exitPrice == r.entryPrice
  {
    var d := r.entryPrice - r.exitPrice;
    if d > 0.0 {
      assert d * r.amount > 0.0;
    } else if d < 0.0 {
      assert (-d) * r.amount > 0.0;
    }
  }

  // ---------------------------------------------------------------------
  // The trading system object

  class MultiAssetTradingSystem {
    const engine: SE.Engine
    /** The traded assets, in configuration order. */
    const assets: seq<string>
    /** The balance cached at start-up. */
    var accountBalance: real
    var lastDailyReset: Option<Date>

    /** `__init__`: a fresh engine, the enabled symbols of the configured
        asset table (`settings.get_asset_symbols()`), no cached balance and no
        reset yet. */
    constructor ()
      ensures fresh(engine) && engine.Valid()
      ensures engine.positions == map["BTC" := SE.Flat, "ETH" := SE.Flat, "SOL" := SE.Flat]
      ensures engine.regimes == map["BTC" := SE.Active, "ETH" := SE.Active, "SOL" := SE.Active]
      ensures engine.crossStates == map["BTC" := None, "ETH" := None, "SOL" := None]
      ensures assets == Settings.AssetSymbols(Settings.DefaultAssets) == ["BTC", "ETH", "SOL"]
      ensures accountBalance == 0.0 && lastDailyReset == None
    {
      engine := new SE.Engine();
      assets := Settings.AssetSymbols(Settings.DefaultAssets);
      Settings.DefaultSymbols();
      accountBalance := 0.0;
      lastDailyReset := None;
    }

    /** `check_daily_reset`: when due, the engine's maintenance calls run
        (they are outside the model; `maintenanceFails` says whether one
        raised, which escapes before the date is recorded) and then today's
        date is recorded. */
    method CheckDailyReset(now: BarClock.DateTime, maintenanceFails: bool) returns (r: Result<bool, Error>)
      modifies this
      ensures r == Ok(true) <==> ResetDue(old(lastDailyReset), now) && !maintenanceFails
      ensures r.Err? <==> ResetDue(old(lastDailyReset), now) && maintenanceFails
      ensures r.Err? ==> r.error == ExternalFailure("reset_daily_cross_counts")
      ensures lastDailyReset == if r == Ok(true) then Some(BarClock.DateOf(now)) else old(lastDailyReset)
      ensures accountBalance == old(accountBalance)
    {
      if lastDailyReset.None? || (lastDailyReset != Some(BarClock.DateOf(now)) && now.hour == 0 && now.minute >= 1) {
        if maintenanceFails {
          return Err(ExternalFailure("reset_daily_cross_counts"));
        }
        lastDailyReset := Some(BarClock.DateOf(now));
        return Ok(true);
      }
      return Ok(false);
    }

    /** `execute_signal`: sizes the entry from the balance, runs the order
        through validation and at most three order calls, and records the
        short in the engine only once an order call has returned. */
    method ExecuteSignal(signal: SE.TradingSignal, b: Exchange.Balance, risk: Settings.RiskConfig,
                         round2: real -> real, quantityFor: (real, real) -> real,
                         validate: (nat, real) -> Validation, place: (nat, real) -> bool, now: int)
      returns (r: ExecOutcome)
      requires engine.Valid()
      modifies engine
      ensures engine.Valid()
      ensures r == ExecutionSpec(signal, accountBalance, b, risk, round2, quantityFor, validate, place)
      ensures r.Opened? && signal.asset in old(engine.positions) ==>
        engine.positions == old(engine.positions)[signal.asset := SE.Position(true, signal.price, r.qty, r.value, Some(now))]
      ensures !(r.Opened? && signal.asset in old(engine.positions)) ==> engine.positions == old(engine.positions)
      ensures engine.regimes == old(engine.regimes) && engine.crossStates == old(engine.crossStates)
    {
      if signal.signalType != SE.EnterShort {
        return Ignored;
      }
      var current := SelectBalance(accountBalance, b);
      var leveragedValue := round2(TargetValue(current, risk));
      if signal.price == 0.0 {
        return Aborted(ZeroDivision);
      }
      var rawQuantity := RawQuantity(leveragedValue, signal.price);
      var corrected := quantityFor(leveragedValue, signal.price);
      if corrected <= 0.0 {
        return NoQuantity;
      }
      var validation := validate(0, corrected);
      if !validation.valid {
        return Rejected;
      }
      var qty := validation.correctedQty;
      var stopLoss := StopLossPrice(signal.price, risk);
      var takeProfit := TakeProfitPrice(signal.price, risk);
      ghost var plan := RetryFrom(qty, rawQuantity, place, validate, 0);
      var attempt := 0;
      while true
        invariant attempt < MaxRetries
        invariant RetryFrom(qty, rawQuantity, place, validate, attempt) == plan
        invariant engine.positions == old(engine.positions) && engine.Valid()
        invariant engine.regimes == old(engine.regimes) && engine.crossStates == old(engine.crossStates)
        decreases MaxRetries - attempt
      {
        if place(attempt, qty) {
          break;
        }
        if attempt == MaxRetries - 1 {
          return OrderFailed;
        }
        var revalidation := validate(attempt + 1, rawQuantity);
        if !revalidation.valid {
          return RevalidationFailed(attempt + 1);
        }
        qty := revalidation.correctedQty;
        attempt := attempt + 1;
      }
      engine.UpdatePosition(signal.asset, true, signal.price, qty, leveragedValue, now);
      return Opened(qty, leveragedValue, attempt + 1, stopLoss, takeProfit);
    }

    /** `check_position_exits`: the sweep over the traded assets, each turn as
        `ExitStep` describes; the sweep ends at the first escaping exception.
        Returns the reports of the positions it closed. */
    method CheckPositionExits(obs: seq<ExitObservation>, now: int) returns (closed: seq<ExitRecord>)
      requires engine.Valid() && |obs| == |assets|
      modifies engine
      ensures engine.Valid()
      ensures var t := SweepSpec(Sweep(old(engine.positions), old(engine.regimes), [], false), assets, obs, now);
        engine.positions == t.positions && engine.regimes == t.regimes && closed == t.closed
      ensures engine.crossStates == old(engine.crossStates)
    {
      closed := [];
      var stopped := false;
      var i := 0;
      while i < |assets| && !stopped
        invariant 0 <= i <= |assets|
        invariant engine.Valid()
        invariant var t := SweepSpec(Sweep(old(engine.positions), old(engine.regimes), [], false), assets[..i], obs[..i], now);
          engine.positions == t.positions && engine.regimes == t.regimes && closed == t.closed && stopped == t.stopped
        invariant engine.crossStates == old(engine.crossStates)
      {
        var asset := assets[i];
        var o := obs[i];
        assert assets[..i + 1][..i] == assets[..i] && obs[..i + 1][..i] == obs[..i];
        if asset !in engine.positions {
          stopped := true;
        } else if engine.positions[asset].inPosition {
          if o.quote.None? {
            stopped := true;
          } else {
            var q := o.quote.value;
            var _ := engine.DetermineMarketRegime(SE.MarketData(asset, q.price, q.ema240, q.ema600, q.volume, now));
            if o.decision.None? {
              stopped := true;
            } else if o.decision.value && o.closed {
              var p := engine.positions[asset];
              if p.entryPrice != 0.0 {
                closed := closed + [ExitRecordOf(asset, p, q.price, now)];
                engine.UpdatePosition(asset, false, 0.0, 0.0, 0.0, now);
              }
            }
          }
        }
        i := i + 1;
      }
      if i < |assets| {
        StoppedIsFinal(Sweep(old(engine.positions), old(engine.regimes), [], false), assets, obs, now, i, |assets|);
      }
      assert assets[..|assets|] == assets && obs[..|obs|] == obs;
    }
  }
}

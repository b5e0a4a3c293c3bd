/** The multi-asset strategy engine (src/core/strategy_engine.py): per-asset
    position records, market regimes and the previous EMA-cross state, kept in
    three maps that the engine's methods update in place. Prices are exact
    reals; times are whole seconds on one UTC clock. */
module StrategyEngine {
  import opened Common

  datatype SignalType = NoAction | EnterShort | ExitPosition
  datatype MarketRegime = Active | Inactive
  /** Which of the two averages is on top: bullish when EMA240 is above EMA600. */
  datatype CrossState = Bullish | Bearish
  datatype CrossEvent = BearishCross | BullishCross

  datatype MarketData = MarketData(asset: string, price: real, ema240: real, ema600: real, volume: real, timestamp: int)

  datatype SignalMetadata = SignalMetadata(ema240: real, ema600: real, regime: MarketRegime, crossType: Option<CrossEvent>)

  datatype TradingSignal = TradingSignal(asset: string, signalType: SignalType, price: real, reason: string, metadata: SignalMetadata)

  datatype Position = Position(inPosition: bool, entryPrice: real, assetAmount: real, leveragedValue: real, entryTime: Option<int>)

  datatype AssetStatus = AssetStatus(inPosition: bool, regime: MarketRegime, entryPrice: Option<real>, leveragedValue: real)

  datatype PortfolioSummary = PortfolioSummary(activePositions: nat, totalExposure: real, assetsStatus: map<string, AssetStatus>)

  /** The assets the engine tracks, in the order its dictionaries list them. */
  const Assets: seq<string> := ["BTC", "ETH", "SOL"]
  const Flat: Position := Position(false, 0.0, 0.0, 0.0, None)
  /** Longest hold before a time-based exit: 24 hours. */
  const MaxHoldSeconds: int := 86400
  const StopLossPnlPct: real := -1.5
  const TakeProfitPnlPct: real := 6.0

  function RegimeName(r: MarketRegime): string
  {
    match r
    case Active => "ACTIVE"
    case Inactive => "INACTIVE"
  }

  function CrossName(c: Option<CrossEvent>): string
  {
    match c
    case None => "None"
    case Some(BearishCross) => "bearish_cross"
    case Some(BullishCross) => "bullish_cross"
  }

  /** The regime rule: ACTIVE when the price lies between the two averages,
      both ends included, whichever average is the larger. */
  function RegimeOf(price: real, ema240: real, ema600: real): (r: MarketRegime)
    ensures r == Active <==> (ema240 <= price <= ema600 || ema600 <= price <= ema240)
  {
    var upper := if ema240 >= ema600 then ema240 else ema600;
    var lower := if ema240 <= ema600 then ema240 else ema600;
    if lower <= price <= upper then Active else Inactive
  }

  /** Equal averages count as bearish. */
  function CrossStateOf(ema240: real, ema600: real): CrossState
  {
    if ema240 > ema600 then Bullish else Bearish
  }

  /** What one `detect_ema_cross` call reports, given the stored state. */
  function CrossOutcome(previous: Option<CrossState>, current: CrossState): (c: Option<CrossEvent>)
    ensures c == Some(BearishCross) <==> previous == Some(Bullish) && current == Bearish
    ensures c == Some(BullishCross) <==> previous == Some(Bearish) && current == Bullish
    ensures c == None <==> previous == None || previous == Some(current)
  {
    match (previous, current)
    case (None, _) => None
    case (Some(Bullish), Bearish) => Some(BearishCross)
    case (Some(Bearish), Bullish) => Some(BullishCross)
    case (Some(_), _) => None
  }

  /** Short return of a position, in percent: positive when the price fell. */
  function PnlPct(entryPrice: real, price: real): (pct: real)
    requires entryPrice != 0.0
    ensures entryPrice > 0.0 ==> (pct > 0.0 <==> price < entryPrice)
    ensures pct * entryPrice == (entryPrice - price) * 100.0
  {
    (entryPrice - price) / entryPrice * 100.0
  }

  /** For a positive entry price the stop-loss and take-profit thresholds on
      the percentage return are price levels 1.5% above and 6% below entry. */
  lemma ThresholdsAsPrices(entryPrice: real, price: real)
    requires entryPrice > 0.0
    ensures PnlPct(entryPrice, price) <= StopLossPnlPct <==> price >= entryPrice * 1.015
    ensures PnlPct(entryPrice, price) >= TakeProfitPnlPct <==> price <= entryPrice * 0.94
  {
    var q := (entryPrice - price) / entryPrice;
    assert q * entryPrice == entryPrice - price;
    assert PnlPct(entryPrice, price) == q * 100.0;
    QuotientBound(entryPrice - price, entryPrice, -0.015);
    QuotientBound(entryPrice - price, entryPrice, 0.06);
  }

  /** For a positive divisor, comparing a quotient is comparing the dividend. */
  lemma QuotientBound(d: real, e: real, k: real)
    requires e > 0.0
    ensures d / e <= k <==> d <= k * e
    ensures d / e >= k <==> d >= k * e
  {
    var q := d / e;
    assert q * e == d;
    if q <= k {
      assert (k - q) * e >= 0.0;
    } else {
      assert (q - k) * e > 0.0;
    }
    if q >= k {
      assert (q - k) * e >= 0.0;
    } else {
      assert (k - q) * e > 0.0;
    }
  }

  /** The outcomes of successive `detect_ema_cross` calls for one asset whose
      states are `states`, starting from the stored state `previous`: after
      every call the stored state is the current one. */
  function CrossTrace(previous: Option<CrossState>, states: seq<CrossState>): (t: seq<Option<CrossEvent>>)
    ensures |t| == |states|
    decreases |states|
  {
    if |states| == 0 then []
    else [CrossOutcome(previous, states[0])] + CrossTrace(Some(states[0]), states[1..])
  }

  lemma {:induction false} CrossTraceAt(previous: Option<CrossState>, states: seq<CrossState>, k: nat)
    requires k < |states|
    decreases k
    ensures CrossTrace(previous, states)[k] ==
            CrossOutcome(if k == 0 then previous else Some(states[k - 1]), states[k])
  {
    if k > 0 {
      CrossTraceAt(Some(states[0]), states[1..], k - 1);
    }
  }

  /** Cold start: the first observation of an asset never reports a cross. */
  lemma ColdStartIsSilent(states: seq<CrossState>)
    requires |states| > 0
    ensures CrossTrace(None, states)[0] == None
  {
  }

  lemma {:induction false} FindFlip(states: seq<CrossState>, lo: nat, hi: nat) returns (k: nat)
    requires lo < hi < |states| && states[lo] == Bearish && states[hi] == Bullish
    ensures lo < k <= hi && states[k - 1] == Bearish && states[k] == Bullish
    decreases hi - lo
  {
    if states[lo + 1] == Bullish {
      k := lo + 1;
    } else {
      k := FindFlip(states, lo + 1, hi);
    }
  }

  /** Two bearish crosses of one asset are always separated by a bullish one:
      once a bearish cross has been reported, the same downward crossing can
      never be reported again. */
  lemma BearishCrossesAlternate(previous: Option<CrossState>, states: seq<CrossState>, i: nat, j: nat)
    requires i < j < |states|
    requires CrossTrace(previous, states)[i] == Some(BearishCross)
    requires CrossTrace(previous, states)[j] == Some(BearishCross)
    ensures exists k :: i < k < j && CrossTrace(previous, states)[k] == Some(BullishCross)
  {
    CrossTraceAt(previous, states, i);
    CrossTraceAt(previous, states, j);
    assert states[i] == Bearish && states[j - 1] == Bullish;
    var k := FindFlip(states, i, j - 1);
    CrossTraceAt(previous, states, k);
  }

  /** The entry rule of `generate_asset_signal` as a function of its three inputs. */
  function SignalKind(inPosition: bool, cross: Option<CrossEvent>, regime: MarketRegime): (kind: SignalType)
    ensures kind != ExitPosition
    ensures kind == EnterShort <==> !inPosition && cross == Some(BearishCross) && regime == Active
  {
    if inPosition then NoAction
    else if cross == Some(BearishCross) && regime == Active then EnterShort
    else NoAction
  }

  /** A bearish cross seen while the asset is in position is consumed: a later
      entry needs a bullish cross in between, i.e. a fresh downward crossing.
      The in-position condition only names the scenario: the conclusion holds
      for any earlier bearish cross. */
  lemma ConsumedCrossCannotEnterLater(previous: Option<CrossState>, states: seq<CrossState>,
                                      inPosition: seq<bool>, regimes: seq<MarketRegime>, i: nat, j: nat)
    requires |inPosition| == |regimes| == |states|
    requires i < j < |states|
    requires inPosition[i] && CrossTrace(previous, states)[i] == Some(BearishCross)
    requires SignalKind(inPosition[j], CrossTrace(previous, states)[j], regimes[j]) == EnterShort
    ensures exists k :: i < k < j && CrossTrace(previous, states)[k] == Some(BullishCross)
  {
    BearishCrossesAlternate(previous, states, i, j);
  }

  /** Number of in-position assets among `assets`. */
  function ActiveCount(positions: map<string, Position>, assets: seq<string>): (n: nat)
    ensures n <= |assets|
  {
    if |assets| == 0 then 0
    else (if assets[0] in positions && positions[assets[0]].inPosition then 1 else 0)
         + ActiveCount(positions, assets[1..])
  }

  /** Sum of the leveraged values of the in-position assets among `assets`. */
  function Exposure(positions: map<string, Position>, assets: seq<string>): real
  {
    if |assets| == 0 then 0.0
    else (if assets[0] in positions && positions[assets[0]].inPosition then positions[assets[0]].leveragedValue else 0.0)
         + Exposure(positions, assets[1..])
  }

  /** The leveraged values of the in-position assets among `assets`, in order:
      the values `get_portfolio_summary` adds up. */
  function HeldValues(positions: map<string, Position>, assets: seq<string>): (v: seq<real>)
    ensures |v| == ActiveCount(positions, assets)
    ensures forall x :: x in v ==> exists a :: a in assets && a in positions && positions[a].inPosition
                                              && positions[a].leveragedValue == x
  {
    if |assets| == 0 then []
    else
      var rest := HeldValues(positions, assets[1..]);
      assert forall a :: a in assets[1..] ==> a in assets;
      (if assets[0] in positions && positions[assets[0]].inPosition then [positions[assets[0]].leveragedValue] else [])
      + rest
  }

  /** The exposure is the plain sum of the held leveraged values. */
  lemma {:induction false} ExposureIsSumOfHeldValues(positions: map<string, Position>, assets: seq<string>)
    ensures Exposure(positions, assets) == Sum(HeldValues(positions, assets))
  {
    if |assets| > 0 {
      var rest := HeldValues(positions, assets[1..]);
      ExposureIsSumOfHeldValues(positions, assets[1..]);
      if assets[0] in positions && positions[assets[0]].inPosition {
        SumCons(positions[assets[0]].leveragedValue, rest);
      } else {
        assert [] + rest == rest;
      }
    }
  }

  ghost function InPositionSet(positions: map<string, Position>, assets: seq<string>): set<string>
  {
    set a | a in assets && a in positions && positions[a].inPosition
  }

  /** Over a list without repeats, the count is the size of the set of in-position assets. */
  lemma {:induction false} ActiveCountIsCardinality(positions: map<string, Position>, assets: seq<string>)
    requires forall i, j :: 0 <= i < j < |assets| ==> assets[i] != assets[j]
    ensures ActiveCount(positions, assets) == |InPositionSet(positions, assets)|
  {
    if |assets| > 0 {
      var rest := assets[1..];
      ActiveCountIsCardinality(positions, rest);
      assert assets[0] !in rest by {
        forall j | 0 <= j < |rest| ensures rest[j] != assets[0] {
          assert rest[j] == assets[j + 1];
        }
      }
      assert forall a :: a in assets <==> a == assets[0] || a in rest;
      if assets[0] in positions && positions[assets[0]].inPosition {
        assert InPositionSet(positions, assets) == {assets[0]} + InPositionSet(positions, rest);
      } else {
        assert InPositionSet(positions, assets) == InPositionSet(positions, rest);
      }
    }
  }

  /** With nothing in position there is no exposure. */
  lemma {:induction false} NoActiveNoExposure(positions: map<string, Position>, assets: seq<string>)
    ensures ActiveCount(positions, assets) == 0 ==> Exposure(positions, assets) == 0.0
  {
    if |assets| > 0 {
      NoActiveNoExposure(positions, assets[1..]);
    }
  }

  /** Non-negative leveraged values give a non-negative exposure. */
  lemma {:induction false} ExposureNonNegative(positions: map<string, Position>, assets: seq<string>)
    ensures (forall a :: a in positions ==> positions[a].leveragedValue >= 0.0) ==> Exposure(positions, assets) >= 0.0
  {
    if |assets| > 0 {
      ExposureNonNegative(positions, assets[1..]);
    }
  }

  class Engine {
    var positions: map<string, Position>
    var regimes: map<string, MarketRegime>
    /** `None` until the first `detect_ema_cross` call for the asset. */
    var crossStates: map<string, Option<CrossState>>

    ghost predicate Valid()
      reads this
    {
      && positions.Keys == {"BTC", "ETH", "SOL"}
      && positions.Keys <= regimes.Keys
      && forall a :: a in positions ==> (positions[a].entryTime.Some? <==> positions[a].inPosition)
    }

    constructor ()
      ensures Valid()
      ensures positions == map["BTC" := Flat, "ETH" := Flat, "SOL" := Flat]
      ensures regimes == map["BTC" := Active, "ETH" := Active, "SOL" := Active]
      ensures crossStates == map["BTC" := None, "ETH" := None, "SOL" := None]
    {
      positions := map["BTC" := Flat, "ETH" := Flat, "SOL" := Flat];
      regimes := map["BTC" := Active, "ETH" := Active, "SOL" := Active];
      crossStates := map["BTC" := None, "ETH" := None, "SOL" := None];
    }

    /** The stored cross state, as `dict.get` reads it. */
    function PreviousCross(asset: string): Option<CrossState>
      reads this
    {
      if asset in crossStates then crossStates[asset] else None
    }

    /** `update_position`: all four fields are overwritten and the entry time
        is the clock reading `now` exactly when the asset is in position;
        unknown assets are ignored. */
    method UpdatePosition(asset: string, inPosition: bool, entryPrice: real, assetAmount: real, leveragedValue: real, now: int)
      requires Valid()
      modifies this
      ensures Valid()
      ensures asset in old(positions) ==>
        positions == old(positions)[asset := Position(inPosition, entryPrice, assetAmount, leveragedValue,
                                                     if inPosition then Some(now) else None)]
      ensures asset !in old(positions) ==> positions == old(positions)
      ensures regimes == old(regimes) && crossStates == old(crossStates)
    {
      if asset in positions {
        positions := positions[asset := Position(inPosition, entryPrice, assetAmount, leveragedValue,
                                                 if inPosition then Some(now) else None)];
      }
    }

    /** `determine_market_regime`: classifies the snapshot and records the
        regime for its asset only. */
    method DetermineMarketRegime(md: MarketData) returns (regime: MarketRegime)
      requires Valid()
      modifies this
      ensures Valid()
      ensures regime == Active <==> (md.ema240 <= md.price <= md.ema600 || md.ema600 <= md.price <= md.ema240)
      ensures regimes == old(regimes)[md.asset := regime]
      ensures positions == old(positions) && crossStates == old(crossStates)
    {
      regime := RegimeOf(md.price, md.ema240, md.ema600);
      regimes := regimes[md.asset := regime];
    }

    /** `detect_ema_cross`: compares the current state with the stored one and
        leaves the current state stored. */
    method DetectEmaCross(md: MarketData) returns (cross: Option<CrossEvent>)
      requires Valid()
      modifies this
      ensures Valid()
      ensures cross == CrossOutcome(old(PreviousCross(md.asset)), CrossStateOf(md.ema240, md.ema600))
      ensures crossStates == old(crossStates)[md.asset := Some(CrossStateOf(md.ema240, md.ema600))]
      ensures positions == old(positions) && regimes == old(regimes)
    {
      var current := CrossStateOf(md.ema240, md.ema600);
      var previous := PreviousCross(md.asset);
      if previous.None? {
        crossStates := crossStates[md.asset := Some(current)];
        return None;
      }
      if previous.value != current {
        crossStates := crossStates[md.asset := Some(current)];
        if current == Bearish {
          return Some(BearishCross);
        } else {
          return Some(BullishCross);
        }
      }
      assert crossStates == crossStates[md.asset := Some(current)];
      return None;
    }

    /** `generate_asset_signal`: regime and cross state are updated first, for
        every asset and whether or not it is in position; then an asset outside
        the position table raises `KeyError`, and otherwise the signal is
        ENTER_SHORT exactly when the asset is flat, this call reports a bearish
        cross and the regime is ACTIVE. */
    method GenerateAssetSignal(md: MarketData) returns (r: Result<TradingSignal, Error>)
      requires Valid()
      modifies this
      ensures Valid()
      ensures regimes == old(regimes)[md.asset := RegimeOf(md.price, md.ema240, md.ema600)]
      ensures crossStates == old(crossStates)[md.asset := Some(CrossStateOf(md.ema240, md.ema600))]
      ensures positions == old(positions)
      ensures r.Err? <==> md.asset !in positions
    ensures r.Err? ==> r.error == KeyError(md.asset)
      ensures r.Ok? ==>
        var cross := CrossOutcome(old(PreviousCross(md.asset)), CrossStateOf(md.ema240, md.ema600));
        && r.value.asset == md.asset
        && r.value.price == md.price
        && r.value.signalType != ExitPosition
        && (r.value.signalType == EnterShort <==>
              && !positions[md.asset].inPosition
              && cross == Some(BearishCross)
              && (md.ema240 <= md.price <= md.ema600 || md.ema600 <= md.price <= md.ema240))
        && r.value.metadata == SignalMetadata(md.ema240, md.ema600, RegimeOf(md.price, md.ema240, md.ema600), cross)
    {
      var regime := DetermineMarketRegime(md);
      var crossType := DetectEmaCross(md);
      if md.asset !in positions {
        return Err(KeyError(md.asset));
      }
      var inPosition := positions[md.asset].inPosition;
      var metadata := SignalMetadata(md.ema240, md.ema600, regime, crossType);
      if inPosition {
        return Ok(TradingSignal(md.asset, NoAction, md.price,
                                "In position - exit conditions checked separately", metadata));
      }
      if crossType == Some(BearishCross) && regime == Active {
        return Ok(TradingSignal(md.asset, EnterShort, md.price,
                                "Bearish EMA cross in ACTIVE market regime", metadata));
      }
      return Ok(TradingSignal(md.asset, NoAction, md.price,
                              "No entry conditions met - Regime: " + RegimeName(regime) + ", Cross: " + CrossName(crossType),
                              metadata));
    }

    /** `should_exit_position`: an unknown asset raises `KeyError`; a flat
        asset never exits; otherwise the return is computed first (a zero
        entry price raises), then the position exits when held strictly longer
        than 24 hours, or the return is at most -1.5%, or at least +6%. */
    function ShouldExitPosition(asset: string, currentPrice: real, currentTime: int): (r: Result<bool, Error>)
      reads this
      ensures asset !in positions ==> r == Err(KeyError(asset))
      ensures asset in positions && !positions[asset].inPosition ==> r == Ok(false)
      ensures asset in positions && positions[asset].inPosition ==>
        var p := positions[asset];
        if p.entryPrice == 0.0 then r == Err(ZeroDivision)
        else r.Ok? && (r.value <==>
          || (p.entryTime.Some? && currentTime - p.entryTime.value > MaxHoldSeconds)
          || PnlPct(p.entryPrice, currentPrice) <= StopLossPnlPct
          || PnlPct(p.entryPrice, currentPrice) >= TakeProfitPnlPct)
    {
      if asset !in positions then Err(KeyError(asset))
      else if !positions[asset].inPosition then Ok(false)
      else
        var p := positions[asset];
        if p.entryPrice == 0.0 then Err(ZeroDivision)
        else
          var pnlPct := PnlPct(p.entryPrice, currentPrice);
          if p.entryTime.Some? && currentTime - p.entryTime.value > MaxHoldSeconds then Ok(true)
          else if pnlPct <= StopLossPnlPct then Ok(true)
          else if pnlPct >= TakeProfitPnlPct then Ok(true)
          else Ok(false)
    }

    /** `get_portfolio_summary`: counts and sums over the in-position assets;
        flat assets report no entry price and no leveraged value. */
    function GetPortfolioSummary(): (s: PortfolioSummary)
      reads this
      requires Valid()
      ensures s.activePositions == |set a | a in positions && positions[a].inPosition|
      ensures s.totalExposure == Sum(HeldValues(positions, Assets))
      ensures |HeldValues(positions, Assets)| == s.activePositions
      ensures s.activePositions == 0 ==> s.totalExposure == 0.0
      ensures (forall a :: a in positions ==> positions[a].leveragedValue >= 0.0) ==> s.totalExposure >= 0.0
      ensures s.assetsStatus.Keys == positions.Keys
      ensures forall a :: a in s.assetsStatus ==>
        && s.assetsStatus[a].inPosition == positions[a].inPosition
        && s.assetsStatus[a].regime == regimes[a]
        && s.assetsStatus[a].entryPrice == (if positions[a].inPosition then Some(positions[a].entryPrice) else None)
        && s.assetsStatus[a].leveragedValue == (if positions[a].inPosition then positions[a].leveragedValue else 0.0)
    {
      ActiveCountIsCardinality(positions, Assets);
      assert (set a | a in Assets && a in positions && positions[a].inPosition)
          == (set a | a in positions && positions[a].inPosition);
      NoActiveNoExposure(positions, Assets);
      ExposureNonNegative(positions, Assets);
      ExposureIsSumOfHeldValues(positions, Assets);
      PortfolioSummary(
        ActiveCount(positions, Assets),
        Exposure(positions, Assets),
        map a | a in positions :: AssetStatus(
          positions[a].inPosition,
          regimes[a],
          if positions[a].inPosition then Some(positions[a].entryPrice) else None,
          if positions[a].inPosition then positions[a].leveragedValue else 0.0))
    }
  }

  /** Exit thresholds on a position entered at 100: exits at 101.5 and at 94,
      holds at 100.5 within the day, and exits at any price after 25 hours. */
  method ExitThresholdExamples() returns (atStop: Result<bool, Error>, atTarget: Result<bool, Error>,
                                          inside: Result<bool, Error>, late: Result<bool, Error>)
    ensures atStop == Ok(true) && atTarget == Ok(true) && inside == Ok(false) && late == Ok(true)
  {
    var e := new Engine();
    e.UpdatePosition("SOL", true, 100.0, 1.0, 100.0, 0);
    atStop := e.ShouldExitPosition("SOL", 101.5, 3600);
    atTarget := e.ShouldExitPosition("SOL", 94.0, 3600);
    inside := e.ShouldExitPosition("SOL", 100.5, 3600);
    late := e.ShouldExitPosition("SOL", 100.0, 25 * 3600);
  }

  /** A fresh engine never signals on its first snapshot, and one recorded
      position shows up in the summary with its leveraged value. */
  method FreshEngineScenario() returns (first: Result<TradingSignal, Error>, summary: PortfolioSummary)
    ensures first.Ok? && first.value.signalType == NoAction && first.value.asset == "BTC"
    ensures summary.activePositions == 1 && summary.totalExposure == 50000.0
  {
    var e := new Engine();
    first := e.GenerateAssetSignal(MarketData("BTC", 50000.0, 49000.0, 48000.0, 1000000.0, 0));
    e.UpdatePosition("BTC", true, 50000.0, 0.1, 50000.0, 0);
    summary := e.GetPortfolioSummary();
    assert e.positions["BTC"].inPosition && !e.positions["ETH"].inPosition && !e.positions["SOL"].inPosition;
    OnlyFirstAssetHeld(e.positions);
    assert [50000.0][..0] == [];
  }

  /** With BTC the only position held, the held values are BTC's alone. */
  lemma OnlyFirstAssetHeld(positions: map<string, Position>)
    requires "BTC" in positions && positions["BTC"].inPosition
    requires "ETH" in positions && !positions["ETH"].inPosition
    requires "SOL" in positions && !positions["SOL"].inPosition
    ensures HeldValues(positions, Assets) == [positions["BTC"].leveragedValue]
  {
    assert Assets[1..] == ["ETH", "SOL"] && Assets[1..][1..] == ["SOL"] && Assets[1..][1..][1..] == [];
  }
}

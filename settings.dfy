/** Configuration of the trading system (config/settings.py): exchange endpoint
    selection, Telegram enablement, the per-asset table and its lookups.
    Environment variables are inputs: `None` stands for an unset variable. */
module Settings {
  import opened Common

  datatype AssetConfig = AssetConfig(
    symbol: string,
    allocationPct: real,
    leverage: int,
    stopLossPct: real,
    takeProfitPct: real,
    trailingStopPct: real,
    trailingActivationPct: real,
    enabled: bool)

  datatype ExchangeConfig = ExchangeConfig(apiKey: string, apiSecret: string, testnet: bool, baseUrl: string)

  datatype TelegramConfig = TelegramConfig(botToken: string, channelId: string, adminChatId: string, enabled: bool)

  datatype RiskConfig = RiskConfig(
    perAssetAllocationPct: real,
    leveragePerAsset: int,
    stopLossPct: real,
    takeProfitPct: real,
    maxDailyLossPct: real,
    maxPortfolioDrawdownPct: real,
    maxTotalExposurePct: real)

  /** The four risk fields reported by `get_asset_risk_params`. */
  datatype RiskParams = RiskParams(stopLossPct: real, takeProfitPct: real, trailingStopPct: real, trailingActivationPct: real)

  const DemoUrl: string := "https://api-demo.bybit.com"
  const TestnetUrl: string := "https://api-testnet.bybit.com"
  const LiveUrl: string := "https://api.bybit.com"

  /** The built-in asset table, in its declared order. */
  const DefaultAssets: seq<AssetConfig> := [
    AssetConfig("BTC", 0.07, 10, 0.01, 0.03, 0.01, 0.02, true),
    AssetConfig("ETH", 0.07, 10, 0.015, 0.045, 0.02, 0.02, true),
    AssetConfig("SOL", 0.07, 10, 0.015, 0.06, 0.02, 0.03, true)
  ]

  /** Risk settings when none of their environment variables is set. */
  const DefaultRisk: RiskConfig := RiskConfig(0.07, 10, 0.015, 0.06, 0.05, 0.20, 2.1)

  function EnvOr(v: Option<string>, default: string): string
  {
    if v.Some? then v.value else default
  }

  function LowerChar(c: char): char
  {
    if 'A' <= c <= 'Z' then (c as int + 32) as char else c
  }

  /** `str.lower()` restricted to ASCII letters. */
  function Lower(s: string): (r: string)
    ensures |r| == |s|
    ensures forall i :: 0 <= i < |s| ==> r[i] == LowerChar(s[i])
  {
    if |s| == 0 then [] else [LowerChar(s[0])] + Lower(s[1..])
  }

  /** The exchange section of `Settings.__init__`: demo mode wins over the
      testnet switch, and the testnet flag is read from its own variable only. */
  function ExchangeFromEnv(testnetVar: Option<string>, demoVar: Option<string>, apiKey: Option<string>, apiSecret: Option<string>): (c: ExchangeConfig)
    ensures c.apiKey == EnvOr(apiKey, "") && c.apiSecret == EnvOr(apiSecret, "")
    ensures c.testnet <==> Lower(EnvOr(testnetVar, "true")) == "true"
    ensures c.baseUrl in {DemoUrl, TestnetUrl, LiveUrl}
    ensures c.baseUrl == DemoUrl <==> Lower(EnvOr(demoVar, "false")) == "true"
    ensures c.baseUrl == LiveUrl <==> !(Lower(EnvOr(demoVar, "false")) == "true") && !c.testnet
  {
    var envMode := Lower(EnvOr(testnetVar, "true"));
    var demoMode := Lower(EnvOr(demoVar, "false")) == "true";
    var baseUrl :=
      if demoMode then DemoUrl
      else if envMode == "true" then TestnetUrl
      else LiveUrl;
    ExchangeConfig(EnvOr(apiKey, ""), EnvOr(apiSecret, ""), envMode == "true", baseUrl)
  }

  /** With no exchange variables set the client talks to the testnet. */
  lemma DefaultExchangeIsTestnet()
    ensures ExchangeFromEnv(None, None, None, None).testnet
    ensures ExchangeFromEnv(None, None, None, None).baseUrl == TestnetUrl
  {
    assert Lower("true") == "true";
    assert Lower("false") == "false";
  }

  /** Demo mode selects the demo endpoint but leaves the testnet flag as the
      testnet variable says, so a demo configuration can report `testnet`. */
  lemma DemoKeepsTestnetFlag(t: Option<string>, d: Option<string>)
    requires Lower(EnvOr(d, "false")) == "true"
    ensures ExchangeFromEnv(t, d, None, None).baseUrl == DemoUrl
    ensures ExchangeFromEnv(t, d, None, None).testnet == ExchangeFromEnv(t, None, None, None).testnet
  {
  }

  /** The switch is case-insensitive: "TRUE" selects the demo endpoint. */
  lemma DemoSwitchIgnoresCase()
    ensures ExchangeFromEnv(None, Some("TRUE"), None, None).baseUrl == DemoUrl
    ensures ExchangeFromEnv(Some("False"), None, None, None).baseUrl == LiveUrl
  {
    assert Lower("TRUE") == "true";
    assert Lower("False") == "false";
    assert Lower("false") == "false";
  }

  /** Telegram notifications are on only when both the token and the channel are set. */
  function TelegramFromEnv(botToken: Option<string>, channelId: Option<string>, adminChatId: Option<string>): (t: TelegramConfig)
    ensures t.enabled <==> EnvOr(botToken, "") != "" && EnvOr(channelId, "") != ""
    ensures t.botToken == EnvOr(botToken, "") && t.channelId == EnvOr(channelId, "")
    ensures t.adminChatId == EnvOr(adminChatId, "")
  {
    var token := EnvOr(botToken, "");
    var channel := EnvOr(channelId, "");
    TelegramConfig(token, channel, EnvOr(adminChatId, ""), |token| > 0 && |channel| > 0)
  }

  /** `get_enabled_assets`: the enabled entries, in table order. */
  function EnabledAssets(assets: seq<AssetConfig>): (r: seq<AssetConfig>)
    ensures |r| <= |assets|
    ensures forall a :: a in r <==> a in assets && a.enabled
  {
    if |assets| == 0 then []
    else (if assets[0].enabled then [assets[0]] else []) + EnabledAssets(assets[1..])
  }

  /** Filtering distributes over concatenation: the order of the table is kept. */
  lemma {:induction false} EnabledAssetsAppend(a: seq<AssetConfig>, b: seq<AssetConfig>)
    ensures EnabledAssets(a + b) == EnabledAssets(a) + EnabledAssets(b)
  {
    if |a| == 0 {
      assert a + b == b;
    } else {
      assert (a + b)[1..] == a[1..] + b;
      EnabledAssetsAppend(a[1..], b);
    }
  }

  /** `get_asset_symbols`. */
  function AssetSymbols(assets: seq<AssetConfig>): seq<string>
  {
    var e := EnabledAssets(assets);
    seq(|e|, i requires 0 <= i < |e| => e[i].symbol)
  }

  /** `get_bybit_symbols`. */
  function BybitSymbols(assets: seq<AssetConfig>): seq<string>
  {
    var e := EnabledAssets(assets);
    seq(|e|, i requires 0 <= i < |e| => e[i].symbol + "USDT")
  }

  /** The two symbol lists run in step: same length, and the exchange symbol
      of each enabled asset is its own symbol followed by "USDT". */
  lemma SymbolListsAgree(assets: seq<AssetConfig>)
    ensures |AssetSymbols(assets)| == |BybitSymbols(assets)| == |EnabledAssets(assets)|
    ensures forall i :: 0 <= i < |BybitSymbols(assets)| ==>
      BybitSymbols(assets)[i] == AssetSymbols(assets)[i] + "USDT"
    ensures forall s :: s in AssetSymbols(assets) <==> exists a :: a in assets && a.enabled && a.symbol == s
  {
    var e := EnabledAssets(assets);
    forall s | s in AssetSymbols(assets) ensures exists a :: a in assets && a.enabled && a.symbol == s {
      var i :| 0 <= i < |e| && AssetSymbols(assets)[i] == s;
      assert e[i] in e;
    }
    forall s | exists a :: a in assets && a.enabled && a.symbol == s ensures s in AssetSymbols(assets) {
      var a :| a in assets && a.enabled && a.symbol == s;
      assert a in e;
      var i :| 0 <= i < |e| && e[i] == a;
      assert AssetSymbols(assets)[i] == s;
    }
  }

  /** The built-in table trades BTC, ETH and SOL, in that order. */
  lemma DefaultSymbols()
    ensures AssetSymbols(DefaultAssets) == ["BTC", "ETH", "SOL"]
    ensures BybitSymbols(DefaultAssets) == ["BTCUSDT", "ETHUSDT", "SOLUSDT"]
  {
    assert EnabledAssets(DefaultAssets) == DefaultAssets by {
      assert EnabledAssets(DefaultAssets[2..]) == DefaultAssets[2..];
      assert EnabledAssets(DefaultAssets[1..]) == DefaultAssets[1..];
    }
    assert "BTC" + "USDT" == "BTCUSDT";
    assert "ETH" + "USDT" == "ETHUSDT";
    assert "SOL" + "USDT" == "SOLUSDT";
  }

  /** `get_asset_config`: the first entry with the symbol, enabled or not;
      `ValueError` when there is none. */
  function GetAssetConfig(assets: seq<AssetConfig>, symbol: string): (r: Result<AssetConfig, Error>)
    ensures r.Ok? ==> exists i :: 0 <= i < |assets| && assets[i] == r.value && assets[i].symbol == symbol
                                  && forall j :: 0 <= j < i ==> assets[j].symbol != symbol
    ensures r.Err? <==> forall i :: 0 <= i < |assets| ==> assets[i].symbol != symbol
    ensures r.Err? ==> r.error == ValueError("Asset " + symbol + " not found in configuration")
  {
    if |assets| == 0 then Err(ValueError("Asset " + symbol + " not found in configuration"))
    else if assets[0].symbol == symbol then Ok(assets[0])
    else
      var rest := GetAssetConfig(assets[1..], symbol);
      assert forall i :: 1 <= i < |assets| ==> assets[i] == assets[1..][i - 1];
      if rest.Ok? then
        ghost var k :| 0 <= k < |assets[1..]| && assets[1..][k] == rest.value && assets[1..][k].symbol == symbol
                       && forall j :: 0 <= j < k ==> assets[1..][j].symbol != symbol;
        assert assets[k + 1] == rest.value;
        rest
      else rest
  }

  /** `get_asset_risk_params`: exactly the four risk fields of that entry. */
  function GetAssetRiskParams(assets: seq<AssetConfig>, symbol: string): (r: Result<RiskParams, Error>)
    ensures r.Err? <==> GetAssetConfig(assets, symbol).Err?
    ensures r.Err? ==> r.error == GetAssetConfig(assets, symbol).error
    ensures r.Ok? ==> var c := GetAssetConfig(assets, symbol).value;
      && c.symbol == symbol
      && r.value == RiskParams(c.stopLossPct, c.takeProfitPct, c.trailingStopPct, c.trailingActivationPct)
  {
    match GetAssetConfig(assets, symbol)
    case Err(e) => Err(e)
    case Ok(c) => Ok(RiskParams(c.stopLossPct, c.takeProfitPct, c.trailingStopPct, c.trailingActivationPct))
  }

  /** Lookup also finds disabled assets, which the symbol lists leave out. */
  lemma LookupSeesDisabled(assets: seq<AssetConfig>, i: nat)
    requires i < |assets| && !assets[i].enabled
    requires forall j :: 0 <= j < |assets| && j != i ==> assets[j].symbol != assets[i].symbol
    ensures GetAssetConfig(assets, assets[i].symbol) == Ok(assets[i])
    ensures assets[i].symbol !in AssetSymbols(assets)
  {
    var r := GetAssetConfig(assets, assets[i].symbol);
    SymbolListsAgree(assets);
  }
}

/** The deterministic part of the exchange client (src/exchange/bybit_client.py):
    how order, close and cancel requests are shaped, the client-side rate
    limit and response check of every request, the string that is signed,
    and what the getters return when a request fails. The HTTP transport,
    JSON decoding and the HMAC computation are not modelled: a request's
    reply is an input. */
module Exchange {
  import opened Common

  /** A request parameter: Python strings, numbers (`str(qty)` is kept as the
      number it renders) and the boolean `reduceOnly`. */
  datatype ParamValue = Text(text: string) | Number(number: real) | Flag(flag: bool)

  type Params = map<string, ParamValue>

  /** Python truthiness of an optional float and an optional string. */
  predicate Given(x: Option<real>)
  {
    x.Some? && x.value != 0.0
  }

  predicate GivenText(x: Option<string>)
  {
    x.Some? && x.value != ""
  }

  /** Every key `place_order` may send. */
  const OrderKeys: set<string> := {"category", "symbol", "side", "orderType", "qty", "timeInForce", "price",
                                   "stopLoss", "slOrderType", "takeProfit", "tpOrderType", "tpslMode", "reduceOnly"}

  /** The parameter dictionary `place_order` posts to /v5/order/create, built by
      successive insertions: GTC unless reduce-only (then IOC with the flag),
      a limit price only for a given price on a non-market order, each of stop
      loss and take profit with its market trigger type when given, and "Full"
      TP/SL mode when both are given. */
  method PlaceOrderParams(symbol: string, side: string, orderType: string, qty: real,
                          price: Option<real>, stopLoss: Option<real>, takeProfit: Option<real>,
                          reduceOnly: bool) returns (params: Params)
    ensures params.Keys <= OrderKeys
    ensures {"category", "symbol", "side", "orderType", "qty", "timeInForce"} <= params.Keys
    ensures params["category"] == Text("linear") && params["symbol"] == Text(symbol)
    ensures params["side"] == Text(side) && params["orderType"] == Text(orderType) && params["qty"] == Number(qty)
    ensures params["timeInForce"] == Text(if reduceOnly then "IOC" else "GTC")
    ensures "reduceOnly" in params <==> reduceOnly
    ensures reduceOnly ==> params["reduceOnly"] == Flag(true)
    ensures "price" in params <==> Given(price) && orderType != "Market"
    ensures "price" in params ==> params["price"] == Number(price.value)
    ensures "stopLoss" in params <==> Given(stopLoss)
    ensures "slOrderType" in params <==> Given(stopLoss)
    ensures Given(stopLoss) ==> params["stopLoss"] == Number(stopLoss.value) && params["slOrderType"] == Text("Market")
    ensures "takeProfit" in params <==> Given(takeProfit)
    ensures "tpOrderType" in params <==> Given(takeProfit)
    ensures Given(takeProfit) ==> params["takeProfit"] == Number(takeProfit.value) && params["tpOrderType"] == Text("Market")
    ensures "tpslMode" in params <==> "stopLoss" in params && "takeProfit" in params
    ensures "tpslMode" in params ==> params["tpslMode"] == Text("Full")
  {
    params := map[
      "category" := Text("linear"),
      "symbol" := Text(symbol),
      "side" := Text(side),
      "orderType" := Text(orderType),
      "qty" := Number(qty),
      "timeInForce" := Text("GTC")
    ];
    if Given(price) && orderType != "Market" {
      params := params["price" := Number(price.value)];
    }
    if Given(stopLoss) {
      params := params["stopLoss" := Number(stopLoss.value)];
      params := params["slOrderType" := Text("Market")];
    }
    if Given(takeProfit) {
      params := params["takeProfit" := Number(takeProfit.value)];
      params := params["tpOrderType" := Text("Market")];
    }
    if Given(stopLoss) && Given(takeProfit) {
      params := params["tpslMode" := Text("Full")];
    }
    if reduceOnly {
      params := params["reduceOnly" := Flag(true)];
      params := params["timeInForce" := Text("IOC")];
    }
  }

  /** One entry of the position list: its size and its side ("Buy", "Sell" or "None"). */
  datatype PositionEntry = PositionEntry(size: real, side: string)

  /** A long entry counts positive, anything else negative; zero sizes count nothing. */
  function Signed(p: PositionEntry): real
  {
    if p.size == 0.0 then 0.0 else if p.side == "Buy" then p.size else -p.size
  }

  /** The net size of a position list, summed in list order. */
  function NetSize(ps: seq<PositionEntry>): real
  {
    if |ps| == 0 then 0.0 else NetSize(ps[..|ps| - 1]) + Signed(ps[|ps| - 1])
  }

  /** Netting is additive over concatenated position lists. */
  lemma {:induction false} NetSizeAppend(a: seq<PositionEntry>, b: seq<PositionEntry>)
    ensures NetSize(a + b) == NetSize(a) + NetSize(b)
    decreases |b|
  {
    if |b| > 0 {
      var c := b[..|b| - 1];
      assert (a + b)[..|a + b| - 1] == a + c;
      NetSizeAppend(a, c);
    } else {
      assert a + b == a;
    }
  }

  /** A hedged pair of equal long and short legs nets to nothing. */
  lemma HedgedPairNetsToZero(x: real)
    ensures NetSize([PositionEntry(x, "Buy"), PositionEntry(x, "Sell")]) == 0.0
  {
    var ps := [PositionEntry(x, "Buy"), PositionEntry(x, "Sell")];
    assert ps[..1] == [PositionEntry(x, "Buy")];
    assert ps[..1][..0] == [];
    assert "Sell" != "Buy";
    assert Signed(ps[1]) == -Signed(ps[0]);
    assert NetSize(ps) == NetSize(ps[..1]) + Signed(ps[1]);
  }

  /** The accumulation loop of `close_position`. */
  method SumSignedSizes(ps: seq<PositionEntry>) returns (total: real)
    ensures total == NetSize(ps)
  {
    total := 0.0;
    var i := 0;
    while i < |ps|
      invariant 0 <= i <= |ps|
      invariant total == NetSize(ps[..i])
    {
      var size := ps[i].size;
      if size != 0.0 {
        total := total + (if ps[i].side == "Buy" then size else -size);
      }
      assert ps[..i + 1][..i] == ps[..i];
      i := i + 1;
    }
    assert ps[..i] == ps;
  }

  function Abs(x: real): real
  {
    if x < 0.0 then -x else x
  }

  /** Below this net size there is nothing to close. */
  const DustSize: real := 0.000001

  datatype CloseDecision = NoPosition | CloseOrder(side: string, qty: real, params: Params)

  /** `close_position`: nets the position list, reports "no_position" for a
      net size below 1e-6 in magnitude, and otherwise closes the whole net
      size with a reduce-only market order on the opposite side. */
  method ClosePosition(symbol: string, ps: seq<PositionEntry>) returns (d: CloseDecision)
    ensures d.NoPosition? <==> Abs(NetSize(ps)) < DustSize
    ensures d.CloseOrder? ==>
      && {"symbol", "side", "orderType", "qty", "reduceOnly", "timeInForce"} <= d.params.Keys
      && d.side == (if NetSize(ps) > 0.0 then "Sell" else "Buy")
      && d.qty == Abs(NetSize(ps)) && d.qty >= DustSize
      && d.params["symbol"] == Text(symbol) && d.params["side"] == Text(d.side)
      && d.params["orderType"] == Text("Market") && d.params["qty"] == Number(d.qty)
      && d.params["reduceOnly"] == Flag(true) && d.params["timeInForce"] == Text("IOC")
      && "price" !in d.params && "stopLoss" !in d.params && "takeProfit" !in d.params
  {
    var total := SumSignedSizes(ps);
    if Abs(total) < DustSize {
      return NoPosition;
    }
    var side, qty;
    if total > 0.0 {
      side, qty := "Sell", Abs(total);
    } else {
      side, qty := "Buy", Abs(total);
    }
    var params := PlaceOrderParams(symbol, side, "Market", qty, None, None, None, true);
    d := CloseOrder(side, qty, params);
  }

  /** `cancel_order`: the order id when given, else the link id, else `ValueError`. */
  function CancelOrderParams(symbol: string, orderId: Option<string>, orderLinkId: Option<string>): (r: Result<Params, Error>)
    ensures r.Err? <==> !GivenText(orderId) && !GivenText(orderLinkId)
    ensures r.Err? ==> r.error == ValueError("Either order_id or order_link_id must be provided")
    ensures r.Ok? ==> "category" in r.value && "symbol" in r.value
    ensures r.Ok? ==> r.value["category"] == Text("linear") && r.value["symbol"] == Text(symbol)
    ensures r.Ok? ==> ("orderId" in r.value <==> GivenText(orderId))
    ensures r.Ok? ==> ("orderLinkId" in r.value <==> !GivenText(orderId))
    ensures r.Ok? && GivenText(orderId) ==> r.value["orderId"] == Text(orderId.value)
    ensures r.Ok? && !GivenText(orderId) ==> r.value["orderLinkId"] == Text(orderLinkId.value)
    ensures r.Ok? ==> |r.value| == 3
  {
    var base := map["category" := Text("linear"), "symbol" := Text(symbol)];
    if GivenText(orderId) then Ok(base["orderId" := Text(orderId.value)])
    else if GivenText(orderLinkId) then Ok(base["orderLinkId" := Text(orderLinkId.value)])
    else Err(ValueError("Either order_id or order_link_id must be provided"))
  }

  /** The receive window sent with every request, in milliseconds. */
  const RecvWindow: string := "5000"

  /** The string that `_generate_signature` signs: timestamp, API key,
      receive window and parameter string, concatenated. */
  function SignaturePayload(timestamp: string, apiKey: string, params: string): (p: string)
    ensures |p| == |timestamp| + |apiKey| + 4 + |params|
    ensures p[..|timestamp|] == timestamp
    ensures p[|timestamp|..|timestamp| + |apiKey|] == apiKey
    ensures p[|timestamp| + |apiKey|..|timestamp| + |apiKey| + 4] == RecvWindow
    ensures p[|timestamp| + |apiKey| + 4..] == params
  {
    timestamp + apiKey + RecvWindow + params
  }

  /** For a fixed timestamp and key the signed string determines the
      parameter string, so distinct requests are signed differently. */
  lemma PayloadDeterminesParams(timestamp: string, apiKey: string, a: string, b: string)
    requires SignaturePayload(timestamp, apiKey, a) == SignaturePayload(timestamp, apiKey, b)
    ensures a == b
  {
    var n := |timestamp| + |apiKey| + 4;
    assert a == SignaturePayload(timestamp, apiKey, a)[n..];
  }

  /** Python's string order: code point by code point, a proper prefix first. */
  predicate LexLess(a: string, b: string)
  {
    if |a| == 0 then |b| > 0
    else if |b| == 0 then false
    else if a[0] < b[0] then true
    else if a[0] == b[0] then LexLess(a[1..], b[1..])
    else false
  }

  lemma {:induction false} LexLessIrreflexive(a: string)
    ensures !LexLess(a, a)
  {
    if |a| > 0 { LexLessIrreflexive(a[1..]); }
  }

  lemma {:induction false} LexLessTransitive(a: string, b: string, c: string)
    requires LexLess(a, b) && LexLess(b, c)
    ensures LexLess(a, c)
  {
    if |a| > 0 && |b| > 0 && |c| > 0 && a[0] == b[0] && b[0] == c[0] {
      LexLessTransitive(a[1..], b[1..], c[1..]);
    }
  }

  lemma {:induction false} LexLessTotal(a: string, b: string)
    requires a != b
    ensures LexLess(a, b) || LexLess(b, a)
  {
    if |a| > 0 && |b| > 0 && a[0] == b[0] {
      assert a == [a[0]] + a[1..] && b == [b[0]] + b[1..];
      LexLessTotal(a[1..], b[1..]);
    }
  }

  lemma {:induction false} LexLessAsymmetric(a: string, b: string)
    requires LexLess(a, b)
    ensures !LexLess(b, a)
  {
    if LexLess(b, a) {
      LexLessTransitive(a, b, a);
      LexLessIrreflexive(a);
    }
  }

  type Pair = (string, string)

  /** Sorted by key: no key is smaller than the one before it. */
  predicate KeySorted(s: seq<Pair>)
  {
    forall i, j :: 0 <= i < j < |s| ==> !LexLess(s[j].0, s[i].0)
  }

  /** No key occurs twice, as in a dictionary. */
  predicate DistinctKeys(s: seq<Pair>)
  {
    forall i, j :: 0 <= i < j < |s| ==> s[i].0 != s[j].0
  }

  function Insert(x: Pair, s: seq<Pair>): (r: seq<Pair>)
    ensures multiset(r) == multiset(s) + multiset{x}
    ensures forall y :: y in r <==> y == x || y in s
    ensures KeySorted(s) ==> KeySorted(r)
  {
    if |s| == 0 then [x]
    else if !LexLess(s[0].0, x.0) then
      var r := [x] + s;
      assert KeySorted(s) ==> KeySorted(r) by {
        if KeySorted(s) {
          forall i, j | 0 <= i < j < |r| ensures !LexLess(r[j].0, r[i].0) {
            if i == 0 && j > 1 {
              if LexLess(r[j].0, x.0) {
                assert !LexLess(s[j - 1].0, s[0].0);
                LexLessTotalOrEqual(s[0].0, x.0, r[j].0);
              }
            }
          }
        }
      }
      r
    else
      var t := Insert(x, s[1..]);
      var r := [s[0]] + t;
      assert s == [s[0]] + s[1..];
      assert KeySorted(s) ==> KeySorted(r) by {
        if KeySorted(s) {
          assert KeySorted(s[1..]);
          forall j | 0 < j < |r| ensures !LexLess(r[j].0, s[0].0) {
            assert r[j] in t;
            if r[j] == x {
              LexLessAsymmetric(s[0].0, x.0);
            } else {
              var k :| 0 <= k < |s[1..]| && s[1..][k] == r[j];
              assert s[k + 1] == r[j];
            }
          }
        }
      }
      r
  }

  /** If b is not below a and c is below b, then c is below a too or equal to it. */
  lemma LexLessTotalOrEqual(a: string, b: string, c: string)
    requires !LexLess(a, b) && LexLess(c, b)
    ensures LexLess(c, a) || c == a
  {
    if c != a && !LexLess(c, a) {
      LexLessTotal(c, a);
      if a == b {
      } else {
        LexLessTotal(a, b);
        LexLessTransitive(a, c, b);
        LexLessAsymmetric(c, b);
      }
    }
  }

  /** `sorted(params.items())`: an insertion sort on the keys. */
  function SortByKey(s: seq<Pair>): (r: seq<Pair>)
    ensures multiset(r) == multiset(s)
    ensures KeySorted(r)
  {
    if |s| == 0 then []
    else
      assert s == [s[0]] + s[1..];
      Insert(s[0], SortByKey(s[1..]))
  }

  lemma LexLessConnex(a: string, b: string)
    ensures a == b || LexLess(a, b) || LexLess(b, a)
  {
    if a != b { LexLessTotal(a, b); }
  }

  /** Sorted arrangements of the same items start with the same item. */
  lemma SortedHeadsAgree(a: seq<Pair>, b: seq<Pair>)
    requires KeySorted(a) && KeySorted(b) && DistinctKeys(a)
    requires multiset(a) == multiset(b) && |a| > 0
    ensures |b| > 0 && a[0] == b[0]
  {
    assert a[0] in multiset(b);
    assert |b| > 0;
    assert b[0] in multiset(a);
    var i :| 0 <= i < |a| && a[i] == b[0];
    var j :| 0 <= j < |b| && b[j] == a[0];
    assert !LexLess(b[0].0, a[0].0) by {
      if i > 0 { assert !LexLess(a[i].0, a[0].0); }
      else { LexLessIrreflexive(a[0].0); }
    }
    assert !LexLess(a[0].0, b[0].0) by {
      if j > 0 { assert !LexLess(b[j].0, b[0].0); }
      else { LexLessIrreflexive(b[0].0); }
    }
    LexLessConnex(a[0].0, b[0].0);
    assert a[i].0 == a[0].0;
  }

  lemma TailMultiset(a: seq<Pair>)
    requires |a| > 0
    ensures multiset(a[1..]) == multiset(a) - multiset{a[0]}
  {
    assert a == [a[0]] + a[1..];
  }

  /** Two key-sorted arrangements of the same dictionary items are identical. */
  lemma {:induction false} SortedArrangementUnique(a: seq<Pair>, b: seq<Pair>)
    requires KeySorted(a) && KeySorted(b) && DistinctKeys(a)
    requires multiset(a) == multiset(b)
    ensures a == b
    decreases |a|
  {
    if |a| == 0 {
      assert |b| == |multiset(b)| == 0;
    } else {
      SortedHeadsAgree(a, b);
      TailMultiset(a);
      TailMultiset(b);
      assert KeySorted(a[1..]) && KeySorted(b[1..]);
      assert DistinctKeys(a[1..]) by {
        forall p, q | 0 <= p < q < |a[1..]| ensures a[1..][p].0 != a[1..][q].0 {
          assert a[1..][p] == a[p + 1] && a[1..][q] == a[q + 1];
        }
      }
      SortedArrangementUnique(a[1..], b[1..]);
      assert a == [a[0]] + a[1..] && b == [b[0]] + b[1..];
    }
  }

  lemma CountAtLeastTwo(s: seq<Pair>, p: nat, q: nat)
    requires p < q < |s| && s[p] == s[q]
    ensures multiset(s)[s[p]] >= 2
  {
    assert s == s[..q] + s[q..];
    assert s[..q][p] == s[p];
    assert s[q..][0] == s[q];
    assert multiset(s) == multiset(s[..q]) + multiset(s[q..]);
  }

  lemma {:induction false} DistinctKeysCountOne(s: seq<Pair>, k: nat)
    requires DistinctKeys(s) && k < |s|
    ensures multiset(s)[s[k]] == 1
  {
    var x := s[k];
    assert s == s[..k] + [x] + s[k + 1..];
    forall i | 0 <= i < k ensures s[..k][i] != x { assert s[..k][i] == s[i]; }
    var rest := s[k + 1..];
    forall i | 0 <= i < |rest| ensures rest[i] != x { assert rest[i] == s[k + 1 + i]; }
    assert multiset(s) == multiset(s[..k]) + multiset{x} + multiset(rest);
  }

  /** Rearranging dictionary items keeps their keys distinct. */
  lemma DistinctKeysPermutation(a: seq<Pair>, b: seq<Pair>)
    requires DistinctKeys(a) && multiset(a) == multiset(b)
    ensures DistinctKeys(b)
  {
    forall p, q | 0 <= p < q < |b| ensures b[p].0 != b[q].0 {
      assert b[p] in multiset(a) && b[q] in multiset(a);
      var p' :| 0 <= p' < |a| && a[p'] == b[p];
      var q' :| 0 <= q' < |a| && a[q'] == b[q];
      if b[p] == b[q] {
        CountAtLeastTwo(b, p, q);
        DistinctKeysCountOne(a, p');
      } else {
        assert p' != q';
      }
    }
  }

  /** The GET parameter string signs the same whatever order the dictionary
      holds its items in: the items are sorted first. */
  lemma QueryOrderIrrelevant(a: seq<Pair>, b: seq<Pair>)
    requires DistinctKeys(a) && multiset(a) == multiset(b)
    ensures SortByKey(a) == SortByKey(b)
  {
    DistinctKeysPermutation(a, SortByKey(a));
    SortedArrangementUnique(SortByKey(a), SortByKey(b));
  }

  /** `key=value` pairs joined by "&": the text starts with the first key and its "=". */
  function JoinQuery(s: seq<Pair>): (q: string)
    ensures q == "" <==> |s| == 0
    ensures |s| > 0 ==> |q| > |s[0].0| && q[..|s[0].0|] == s[0].0 && q[|s[0].0|] == '='
  {
    if |s| == 0 then ""
    else if |s| == 1 then s[0].0 + "=" + s[0].1
    else s[0].0 + "=" + s[0].1 + "&" + JoinQuery(s[1..])
  }

  /** The parameter string of a GET request: "" with no parameters, else the
      key-sorted `key=value` pairs joined by "&" (percent-encoding not modelled). */
  function GetParamString(items: seq<Pair>): (q: string)
    ensures q == "" <==> |items| == 0
  {
    if |items| == 0 then "" else JoinQuery(SortByKey(items))
  }

  /** The GET string depends only on which items the dictionary holds. */
  lemma GetParamStringOrderIrrelevant(a: seq<Pair>, b: seq<Pair>)
    requires DistinctKeys(a) && multiset(a) == multiset(b)
    ensures GetParamString(a) == GetParamString(b)
  {
    assert |a| == |multiset(a)| && |b| == |multiset(b)|;
    QueryOrderIrrelevant(a, b);
  }

  /** One `"key":value` member of a compact JSON object; the value is taken as
      its already-rendered JSON text. */
  function JsonMember(p: Pair): (m: string)
    ensures |m| == |p.0| + |p.1| + 3
    ensures m[0] == '"' && m[1..|p.0| + 1] == p.0 && m[|p.0| + 1..|p.0| + 3] == "\":"
  {
    "\"" + p.0 + "\":" + p.1
  }

  /** Members joined by "," with no spaces, as `separators=(',', ':')` asks. */
  function JoinJson(s: seq<Pair>): (j: string)
    ensures j == "" <==> |s| == 0
    ensures |s| > 0 ==> |j| >= |JsonMember(s[0])| && j[..|JsonMember(s[0])|] == JsonMember(s[0])
  {
    if |s| == 0 then ""
    else if |s| == 1 then JsonMember(s[0])
    else JsonMember(s[0]) + "," + JoinJson(s[1..])
  }

  /** The body of a POST request, which is also the string it signs: "" with
      no parameters, else a compact JSON object whose members are in key
      order (`sort_keys=True`). */
  function PostParamString(items: seq<Pair>): (q: string)
    ensures q == "" <==> |items| == 0
    ensures |items| > 0 ==> |q| >= 2 && q[0] == '{' && q[|q| - 1] == '}'
  {
    if |items| == 0 then "" else "{" + JoinJson(SortByKey(items)) + "}"
  }

  /** The POST body, too, depends only on which items the dictionary holds. */
  lemma PostParamStringOrderIrrelevant(a: seq<Pair>, b: seq<Pair>)
    requires DistinctKeys(a) && multiset(a) == multiset(b)
    ensures PostParamString(a) == PostParamString(b)
  {
    assert |a| == |multiset(a)| && |b| == |multiset(b)|;
    QueryOrderIrrelevant(a, b);
  }

  /** A reply of the transport: an HTTP status with a decoded body, or a
      client-side connection failure. */
  datatype Reply<T> =
    | Received(status: int, retCode: Option<int>, retMsg: Option<string>, result: Option<T>)
    | ConnectionFailed

  class Client {
    const apiKey: string
    /** Spacing the client keeps between requests, in seconds. */
    const requestInterval: real
    var lastRequestTime: real

    constructor (apiKey: string)
      ensures this.apiKey == apiKey && requestInterval == 0.1 && lastRequestTime == 0.0
    {
      this.apiKey := apiKey;
      requestInterval := 0.1;
      lastRequestTime := 0.0;
    }

    /** `_make_request`: waits so that the request starts a full interval
        after the previous one completed, records the completion time of
        every request that got an HTTP 200, and accepts only `retCode` 0.
        Returns the wait and the `result` field (`None` when it is missing,
        which the source reads as an empty dictionary). */
    method MakeRequest<T>(now: real, reply: Reply<T>, completedAt: real) returns (wait: real, r: Result<Option<T>, Error>)
      modifies this
      ensures wait >= 0.0
      ensures wait == 0.0 <==> now - old(lastRequestTime) >= requestInterval
      ensures now + wait >= old(lastRequestTime) + requestInterval
      ensures wait > 0.0 ==> now + wait == old(lastRequestTime) + requestInterval
      ensures lastRequestTime == (if reply.Received? && reply.status == 200 then completedAt else old(lastRequestTime))
      ensures reply.ConnectionFailed? ==> r.Err?
      ensures reply.Received? && reply.status != 200 ==> r == Err(HttpError(reply.status))
      ensures reply.Received? && reply.status == 200 && reply.retCode != Some(0) ==>
        r == Err(ApiError(if reply.retMsg.Some? then reply.retMsg.value else "Unknown error"))
      ensures r.Ok? <==> reply.Received? && reply.status == 200 && reply.retCode == Some(0)
      ensures r.Ok? ==> r.value == reply.result
    {
      wait := 0.0;
      if now - lastRequestTime < requestInterval {
        wait := requestInterval - (now - lastRequestTime);
      }
      if reply.ConnectionFailed? {
        return wait, Err(HttpError(0));
      }
      if reply.status != 200 {
        return wait, Err(HttpError(reply.status));
      }
      lastRequestTime := completedAt;
      if reply.retCode != Some(0) {
        return wait, Err(ApiError(if reply.retMsg.Some? then reply.retMsg.value else "Unknown error"));
      }
      return wait, Ok(reply.result);
    }
  }

  /** The `result` of a list endpoint: its `list` field, when present. */
  datatype Listing<T> = Listing(list: Option<seq<T>>)

  /** The list getters (positions, klines, order and execution history):
      the list on success, and an empty list when the request failed or the
      reply has no list. */
  function ListOrEmpty<T>(r: Result<Option<Listing<T>>, Error>): (l: seq<T>)
    ensures r.Err? ==> l == []
    ensures l != [] <==> r.Ok? && r.value.Some? && r.value.value.list.Some? && r.value.value.list.value != []
    ensures l != [] ==> l == r.value.value.list.value
  {
    match r
    case Ok(Some(Listing(Some(l)))) => l
    case _ => []
  }

  /** `get_ticker`: the first ticker, or nothing (the empty dictionary). */
  function FirstOrNothing<T>(r: Result<Option<Listing<T>>, Error>): (t: Option<T>)
    ensures t.Some? <==> ListOrEmpty(r) != []
    ensures t.Some? ==> t.value == ListOrEmpty(r)[0]
  {
    var l := ListOrEmpty(r);
    if |l| > 0 then Some(l[0]) else None
  }

  datatype Coin = Coin(coin: string, walletBalance: real)
  datatype Account = Account(accountType: string, coins: seq<Coin>)

  /** The `result` of the wallet-balance request: its `list` of accounts, if any. */
  datatype Balance = Balance(list: Option<seq<Account>>)

  /** What `get_account_balance` substitutes when the request fails. */
  const DemoBalance: Balance := Balance(Some([Account("UNIFIED", [Coin("USDT", 100000.0)])]))

  /** `get_account_balance`: the result (an empty dictionary when missing), or
      the demo structure when the request failed. */
  function AccountBalanceOrDemo(r: Result<Option<Balance>, Error>): (b: Balance)
    ensures r.Err? ==> b == DemoBalance
    ensures r.Ok? && r.value.None? ==> b.list.None?
    ensures r.Ok? && r.value.Some? ==> b == r.value.value
  {
    match r
    case Err(_) => DemoBalance
    case Ok(None) => Balance(None)
    case Ok(Some(b)) => b
  }
}

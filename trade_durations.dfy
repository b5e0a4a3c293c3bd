/** The trade-duration bookkeeping (src/utils/trade_duration_tracker.py):
    entry and exit events read from the log are sorted by time and paired
    first-in first-out per asset, and per-asset statistics are computed over
    the completed trades. Reading and parsing the log file is not modelled:
    its result, a list of events per asset, is the input. Timestamps are
    integer milliseconds, as the log lines carry them. */
module TradeDurations {
  import opened Common

  datatype EventKind = Entry | Exit

  datatype Event = Event(kind: EventKind, timestamp: int, price: real)

  /** One completed trade; `formatted` is the "{hours}h {minutes}m" split. */
  datatype Trade = Trade(entryTime: int, exitTime: int, entryPrice: real, exitPrice: real,
                         durationMs: int, formatted: (int, int), durationHours: real, pnlPct: real)

  /** The assets whose events the parser collects, in its order. */
  const TrackedAssets: seq<string> := ["BTC", "ETH", "SOL"]

  // ---------------------------------------------------------------------
  // Sorting by timestamp

  predicate SortedByTime(s: seq<Event>)
  {
    forall i, j :: 0 <= i < j < |s| ==> s[i].timestamp <= s[j].timestamp
  }

  lemma HeadNotLater(s: seq<Event>, x: Event)
    requires SortedByTime(s) && |s| > 0 && x in s[1..]
    ensures s[0].timestamp <= x.timestamp
  {
    var k :| 0 <= k < |s[1..]| && s[1..][k] == x;
    assert s[k + 1] == x;
  }

  /** Inserts `e` before the first element that is not earlier, so that it
      stays ahead of equal timestamps that came after it. */
  function InsertByTime(e: Event, s: seq<Event>): (r: seq<Event>)
    requires SortedByTime(s)
    ensures SortedByTime(r)
    ensures forall x :: x in r ==> x == e || x in s
    ensures multiset(r) == multiset(s) + multiset{e}
    ensures |r| == |s| + 1
  {
    if |s| == 0 || e.timestamp <= s[0].timestamp then
      [e] + s
    else
      var rest := InsertByTime(e, s[1..]);
      assert forall x :: x in rest ==> s[0].timestamp <= x.timestamp by {
        forall x | x in rest ensures s[0].timestamp <= x.timestamp {
          if x != e { HeadNotLater(s, x); }
        }
      }
      assert s == [s[0]] + s[1..];
      [s[0]] + rest
  }

  /** `sorted(events, key=timestamp)`, an insertion sort that keeps the log
      order of equal timestamps. */
  function SortByTime(s: seq<Event>): (r: seq<Event>)
    ensures SortedByTime(r)
    ensures multiset(r) == multiset(s)
    ensures |r| == |s|
  {
    if |s| == 0 then []
    else
      assert s == [s[0]] + s[1..];
      InsertByTime(s[0], SortByTime(s[1..]))
  }

  // ---------------------------------------------------------------------
  // FIFO matching

  /** `int(x)` of a duration in seconds: truncation toward zero. */
  function TruncDiv(a: int, b: int): int
    requires b > 0
  {
    if a >= 0 then a / b else -((-a) / b)
  }

  /** The record built for an entry matched with an exit. */
  function TradeOf(entry: Event, exit: Event): Trade
    requires entry.price != 0.0
  {
    var durationMs := exit.timestamp - entry.timestamp;
    Trade(entry.timestamp, exit.timestamp, entry.price, exit.price, durationMs,
          HourSplit(TruncDiv(durationMs, 1000)), (durationMs as real) / 3600000.0,
          (entry.price - exit.price) / entry.price * 100.0)
  }

  /** A matched trade spans entry to exit, its hours are its milliseconds
      over 3 600 000, and for a positive entry price it wins exactly when the
      exit price is lower. */
  lemma TradeOfMeaning(entry: Event, exit: Event)
    requires entry.price != 0.0
    ensures var t := TradeOf(entry, exit);
      && t.entryTime == entry.timestamp && t.exitTime == exit.timestamp
      && t.durationHours * 3600000.0 == t.durationMs as real
      && (entry.price > 0.0 ==> (t.pnlPct > 0.0 <==> exit.price < entry.price))
  {
    var q := (entry.price - exit.price) / entry.price;
    assert q * entry.price == entry.price - exit.price;
    if entry.price > 0.0 {
      if q > 0.0 {
        assert entry.price - exit.price > 0.0;
      } else {
        assert entry.price - exit.price <= 0.0;
      }
    }
  }

  /** The open-entry queue and the trades completed so far. */
  datatype Matching = Matching(queue: seq<Event>, trades: seq<Trade>)

  /** One event: an entry joins the back of the queue; an exit takes the
      oldest open entry, and is dropped when none is open; a zero entry price
      makes the return divide by zero. */
  function MatchStep(m: Matching, e: Event): (r: Result<Matching, Error>)
    ensures r.Err? <==> e.kind.Exit? && |m.queue| > 0 && m.queue[0].price == 0.0
    ensures r.Ok? ==> |r.value.queue| + |r.value.trades| == |m.queue| + |m.trades| + (if e.kind == Entry then 1 else 0)
    ensures r.Ok? ==> m.trades <= r.value.trades
  {
    if e.kind == Entry then Ok(Matching(m.queue + [e], m.trades))
    else if |m.queue| == 0 then Ok(m)
    else if m.queue[0].price == 0.0 then Err(ZeroDivision)
    else Ok(Matching(m.queue[1..], m.trades + [TradeOf(m.queue[0], e)]))
  }

  function MatchPrefix(events: seq<Event>, n: nat): Result<Matching, Error>
    requires n <= |events|
  {
    if n == 0 then Ok(Matching([], []))
    else match MatchPrefix(events, n - 1)
      case Err(e) => Err(e)
      case Ok(m) => MatchStep(m, events[n - 1])
  }

  /** The trades completed over a whole event list. */
  function MatchSpec(events: seq<Event>): Result<seq<Trade>, Error>
  {
    match MatchPrefix(events, |events|)
    case Err(e) => Err(e)
    case Ok(m) => Ok(m.trades)
  }

  lemma {:induction false} ErrorIsFinal(events: seq<Event>, i: nat, n: nat)
    requires i <= n <= |events| && MatchPrefix(events, i).Err?
    ensures MatchPrefix(events, n) == MatchPrefix(events, i)
    decreases n
  {
    if n > i {
      ErrorIsFinal(events, i, n - 1);
    }
  }

  /** The matching loop of `calculate_completed_trade_durations` for one asset. */
  method MatchTrades(events: seq<Event>) returns (r: Result<seq<Trade>, Error>)
    ensures r == MatchSpec(events)
  {
    var openPositions: seq<Event> := [];
    var completed: seq<Trade> := [];
    var i := 0;
    while i < |events|
      invariant 0 <= i <= |events|
      invariant MatchPrefix(events, i) == Ok(Matching(openPositions, completed))
    {
      var event := events[i];
      if event.kind == Entry {
        openPositions := openPositions + [event];
      } else if |openPositions| > 0 {
        var entryEvent := openPositions[0];
        openPositions := openPositions[1..];
        if entryEvent.price == 0.0 {
          ErrorIsFinal(events, i + 1, |events|);
          return Err(ZeroDivision);
        }
        completed := completed + [TradeOf(entryEvent, event)];
      }
      i := i + 1;
    }
    return Ok(completed);
  }

  /** The entry events, in order. */
  function Entries(events: seq<Event>): (r: seq<Event>)
    ensures |r| <= |events|
    ensures forall e :: e in r ==> e in events && e.kind == Entry
  {
    if |events| == 0 then []
    else
      var init := Entries(events[..|events| - 1]);
      assert forall e :: e in events[..|events| - 1] ==> e in events;
      init + (if events[|events| - 1].kind == Entry then [events[|events| - 1]] else [])
  }

  function ExitCount(events: seq<Event>): (c: nat)
    ensures c <= |events|
  {
    if |events| == 0 then 0
    else ExitCount(events[..|events| - 1]) + (if events[|events| - 1].kind == Exit then 1 else 0)
  }

  /** The entry event each trade was matched from. */
  function EntryEvents(trades: seq<Trade>): (r: seq<Event>)
    ensures |r| == |trades|
    ensures forall k :: 0 <= k < |trades| ==> r[k] == Event(Entry, trades[k].entryTime, trades[k].entryPrice)
  {
    seq(|trades|, k requires 0 <= k < |trades| => Event(Entry, trades[k].entryTime, trades[k].entryPrice))
  }

  /** A trade as `TradeOf` builds it from its own entry and exit. */
  predicate WellFormedTrade(t: Trade)
  {
    t.entryPrice != 0.0 &&
    t == TradeOf(Event(Entry, t.entryTime, t.entryPrice), Event(Exit, t.exitTime, t.exitPrice))
  }

  /** The matching invariant over the entries `ents` and the exit count
      `exits` seen so far. */
  predicate MatchInvariant(m: Matching, ents: seq<Event>, exits: nat)
  {
    && ents == EntryEvents(m.trades) + m.queue
    && |m.trades| <= exits
    && (forall k :: 0 <= k < |m.trades| ==> WellFormedTrade(m.trades[k]))
  }

  lemma StepKeepsInvariant(m: Matching, ents: seq<Event>, exits: nat, e: Event)
    requires MatchInvariant(m, ents, exits) && MatchStep(m, e).Ok?
    requires forall x :: x in ents ==> x.kind == Entry
    ensures MatchInvariant(MatchStep(m, e).value, ents + (if e.kind == Entry then [e] else []),
                           exits + (if e.kind == Exit then 1 else 0))
  {
    if e.kind == Entry {
      assert ents + [e] == EntryEvents(m.trades) + (m.queue + [e]);
    } else if |m.queue| > 0 {
      var q := m.queue[0];
      var m' := MatchStep(m, e).value;
      assert q in ents;
      assert q == Event(Entry, q.timestamp, q.price);
      assert e == Event(Exit, e.timestamp, e.price);
      assert EntryEvents(m'.trades) == EntryEvents(m.trades) + [q];
      assert ents + [] == EntryEvents(m'.trades) + m'.queue;
    }
  }

  lemma EntriesStep(events: seq<Event>, n: nat)
    requires 0 < n <= |events|
    ensures Entries(events[..n]) == Entries(events[..n - 1]) + (if events[n - 1].kind == Entry then [events[n - 1]] else [])
    ensures ExitCount(events[..n]) == ExitCount(events[..n - 1]) + (if events[n - 1].kind == Exit then 1 else 0)
  {
    assert events[..n][..n - 1] == events[..n - 1];
  }

  /** The invariant of the matching: the entries seen so far are exactly the
      matched ones, oldest first, followed by the open queue; there are no
      more trades than exits; and every trade is built from its entry and exit. */
  lemma {:induction false} MatchFacts(events: seq<Event>, n: nat)
    requires n <= |events|
    ensures MatchPrefix(events, n).Ok? ==>
      MatchInvariant(MatchPrefix(events, n).value, Entries(events[..n]), ExitCount(events[..n]))
    decreases n
  {
    if n > 0 {
      MatchFacts(events, n - 1);
      EntriesStep(events, n);
      if MatchPrefix(events, n - 1).Ok? && MatchPrefix(events, n).Ok? {
        StepKeepsInvariant(MatchPrefix(events, n - 1).value, Entries(events[..n - 1]), ExitCount(events[..n - 1]), events[n - 1]);
      }
    }
  }

  /** A failure is always the division by a zero entry price, and there is a
      zero-priced entry among the events. */
  lemma {:induction false} MatchFailure(events: seq<Event>, n: nat)
    requires n <= |events|
    ensures MatchPrefix(events, n).Err? ==>
      MatchPrefix(events, n).error == ZeroDivision
      && exists i :: 0 <= i < n && events[i].kind == Entry && events[i].price == 0.0
    decreases n
  {
    if n > 0 {
      MatchFailure(events, n - 1);
      MatchFacts(events, n - 1);
      assert events[..n][..n - 1] == events[..n - 1];
      if MatchPrefix(events, n - 1).Ok? && MatchPrefix(events, n).Err? {
        var m := MatchPrefix(events, n - 1).value;
        var q := m.queue[0];
        assert q in Entries(events[..n - 1]);
        var i :| 0 <= i < n - 1 && events[..n - 1][i] == q;
        assert events[i] == q;
      }
    }
  }

  /** On time-sorted events the queue only holds entries no later than the
      event being processed, so every trade ends no earlier than it began. */
  lemma {:induction false} SortedMatchFacts(events: seq<Event>, n: nat)
    requires n <= |events| && SortedByTime(events)
    ensures MatchPrefix(events, n).Ok? ==>
      forall k :: 0 <= k < |MatchPrefix(events, n).value.trades| ==>
        MatchPrefix(events, n).value.trades[k].exitTime >= MatchPrefix(events, n).value.trades[k].entryTime
    decreases n
  {
    if n > 0 {
      SortedMatchFacts(events, n - 1);
      MatchFacts(events, n - 1);
      assert events[..n][..n - 1] == events[..n - 1];
      if MatchPrefix(events, n - 1).Ok? && MatchPrefix(events, n).Ok? {
        var m := MatchPrefix(events, n - 1).value;
        var e := events[n - 1];
        if e.kind == Exit && |m.queue| > 0 {
          var q := m.queue[0];
          assert q in Entries(events[..n - 1]);
          var i :| 0 <= i < n - 1 && events[..n - 1][i] == q;
          assert events[i].timestamp <= e.timestamp;
        }
        ForwardStep(m, e);
      }
    }
  }

  /** One matching step keeps every trade forward in time when the oldest
      open entry is no later than the exit that closes it. */
  lemma ForwardStep(m: Matching, e: Event)
    requires MatchStep(m, e).Ok?
    requires forall k :: 0 <= k < |m.trades| ==> m.trades[k].exitTime >= m.trades[k].entryTime
    requires e.kind == Exit && |m.queue| > 0 ==> m.queue[0].timestamp <= e.timestamp
    ensures forall k :: 0 <= k < |MatchStep(m, e).value.trades| ==>
      MatchStep(m, e).value.trades[k].exitTime >= MatchStep(m, e).value.trades[k].entryTime
  {
  }

  /** At most one trade per entry and per exit. */
  lemma TradesBounded(events: seq<Event>)
    requires MatchSpec(events).Ok?
    ensures |MatchSpec(events).value| <= |Entries(events)|
    ensures |MatchSpec(events).value| <= ExitCount(events)
  {
    MatchFacts(events, |events|);
    assert events[..|events|] == events;
  }

  /** First in, first out: the k-th trade is opened by the k-th entry event. */
  lemma MatchingIsFifo(events: seq<Event>, k: nat)
    requires MatchSpec(events).Ok? && k < |MatchSpec(events).value|
    ensures k < |Entries(events)|
    ensures MatchSpec(events).value[k].entryTime == Entries(events)[k].timestamp
    ensures MatchSpec(events).value[k].entryPrice == Entries(events)[k].price
  {
    MatchFacts(events, |events|);
    assert events[..|events|] == events;
    var m := MatchPrefix(events, |events|).value;
    assert Entries(events)[k] == EntryEvents(m.trades)[k];
  }

  lemma {:induction false} NoEntries(events: seq<Event>)
    requires forall i :: 0 <= i < |events| ==> events[i].kind == Exit
    ensures Entries(events) == []
  {
    if |events| > 0 {
      NoEntries(events[..|events| - 1]);
    }
  }

  /** Exits with no open entry are dropped: a log of exits alone yields no trade. */
  lemma ExitsAloneMatchNothing(events: seq<Event>)
    requires forall i :: 0 <= i < |events| ==> events[i].kind == Exit
    ensures MatchSpec(events) == Ok([])
  {
    MatchFacts(events, |events|);
    MatchFailure(events, |events|);
    NoEntries(events);
    assert events[..|events|] == events;
  }

  /** What a well-formed trade records: its duration, the hour/minute split
      of the whole seconds, and the short's return on the matched prices. */
  lemma TradeFields(t: Trade)
    requires WellFormedTrade(t)
    ensures t.entryPrice != 0.0
    ensures t.durationMs == t.exitTime - t.entryTime
    ensures 0 <= t.formatted.1 < 60
    ensures t.durationMs >= 0 ==> t.formatted == HourSplit(t.durationMs / 1000) && t.formatted.0 >= 0
    ensures t.pnlPct == (t.entryPrice - t.exitPrice) / t.entryPrice * 100.0
  {
  }

  /** On time-sorted events every matched trade is well formed and ends no
      earlier than it began. */
  lemma SortedTradeWellFormed(s: seq<Event>, k: nat)
    requires SortedByTime(s) && MatchSpec(s).Ok? && k < |MatchSpec(s).value|
    ensures WellFormedTrade(MatchSpec(s).value[k])
    ensures MatchSpec(s).value[k].exitTime >= MatchSpec(s).value[k].entryTime
  {
    assert s[..|s|] == s;
    MatchFacts(s, |s|);
    SortedMatchFacts(s, |s|);
  }

  /** After sorting, every trade's duration is non-negative, its minute
      count lies in [0, 60), and its return is the short's return on the
      matched prices. */
  lemma SortedTradesMoveForward(events: seq<Event>, k: nat)
    requires MatchSpec(SortByTime(events)).Ok? && k < |MatchSpec(SortByTime(events)).value|
    ensures var t := MatchSpec(SortByTime(events)).value[k];
      && t.exitTime >= t.entryTime && t.durationMs == t.exitTime - t.entryTime
      && 0 <= t.formatted.0 && 0 <= t.formatted.1 < 60
      && t.entryPrice != 0.0
      && t.pnlPct == (t.entryPrice - t.exitPrice) / t.entryPrice * 100.0
  {
    var t := MatchSpec(SortByTime(events)).value[k];
    SortedTradeWellFormed(SortByTime(events), k);
    TradeFields(t);
  }

  // ---------------------------------------------------------------------
  // All assets

  /** `calculate_completed_trade_durations` from a given point of the asset
      list on; the first zero-price failure ends it. */
  function CompletedFrom(events: map<string, seq<Event>>, assets: seq<string>,
                         acc: map<string, seq<Trade>>): Result<map<string, seq<Trade>>, Error>
  {
    if |assets| == 0 then Ok(acc)
    else if assets[0] !in events then CompletedFrom(events, assets[1..], acc)
    else match MatchSpec(SortByTime(events[assets[0]]))
      case Err(e) => Err(e)
      case Ok(ts) => CompletedFrom(events, assets[1..], acc[assets[0] := ts])
  }

  const NoTradesYet: map<string, seq<Trade>> := map["BTC" := [], "ETH" := [], "SOL" := []]

  function CompletedSpec(events: map<string, seq<Event>>): Result<map<string, seq<Trade>>, Error>
  {
    CompletedFrom(events, TrackedAssets, NoTradesYet)
  }

  /** The per-asset loop of `calculate_completed_trade_durations`. */
  method CalculateCompletedTradeDurations(events: map<string, seq<Event>>) returns (r: Result<map<string, seq<Trade>>, Error>)
    ensures r == CompletedSpec(events)
  {
    var completed := NoTradesYet;
    var i := 0;
    while i < |TrackedAssets|
      invariant 0 <= i <= |TrackedAssets|
      invariant CompletedFrom(events, TrackedAssets[i..], completed) == CompletedSpec(events)
    {
      var asset := TrackedAssets[i];
      assert TrackedAssets[i..][1..] == TrackedAssets[i + 1..];
      if asset in events {
        var sorted := SortByTime(events[asset]);
        var trades := MatchTrades(sorted);
        if trades.Err? {
          return Err(trades.error);
        }
        completed := completed[asset := trades.value];
      }
      i := i + 1;
    }
    return Ok(completed);
  }

  /** The result always lists the three tracked assets. */
  lemma {:induction false} CompletedKeys(events: map<string, seq<Event>>, assets: seq<string>, acc: map<string, seq<Trade>>)
    requires forall a :: a in assets ==> a in acc
    ensures CompletedFrom(events, assets, acc).Ok? ==> CompletedFrom(events, assets, acc).value.Keys == acc.Keys
  {
    if |assets| > 0 {
      CompletedKeys(events, assets[1..], if assets[0] in events && MatchSpec(SortByTime(events[assets[0]])).Ok?
                                          then acc[assets[0] := MatchSpec(SortByTime(events[assets[0]])).value] else acc);
    }
  }

  /** A missing log file parses to no events at all: every asset is listed
      with no trades. */
  lemma MissingLogMeansNoTrades()
    ensures CompletedSpec(map[]) == Ok(NoTradesYet)
  {
    assert TrackedAssets[1..][1..][1..] == [];
  }

  // ---------------------------------------------------------------------
  // Statistics

  datatype AssetStats =
    | NoTrades
    | Stats(totalTrades: nat, avgDurationHours: real, minDurationHours: real, maxDurationHours: real,
            avgPnlPct: real, winRate: real, recentTrades: seq<Trade>)

  function DurationsHours(trades: seq<Trade>): (d: seq<real>)
    ensures |d| == |trades|
    ensures forall k :: 0 <= k < |trades| ==> d[k] == trades[k].durationHours
  {
    seq(|trades|, k requires 0 <= k < |trades| => trades[k].durationHours)
  }

  function PnlPcts(trades: seq<Trade>): (p: seq<real>)
    ensures |p| == |trades|
    ensures forall k :: 0 <= k < |trades| ==> p[k] == trades[k].pnlPct
  {
    seq(|trades|, k requires 0 <= k < |trades| => trades[k].pnlPct)
  }

  /** How many returns are strictly positive. */
  function WinCount(p: seq<real>): (c: nat)
    ensures c <= |p|
  {
    if |p| == 0 then 0 else WinCount(p[..|p| - 1]) + (if p[|p| - 1] > 0.0 then 1 else 0)
  }

  /** The positions of the strictly positive returns. */
  ghost function Winners(p: seq<real>): set<int>
  {
    set k | 0 <= k < |p| && p[k] > 0.0
  }

  /** The running count of winners is the number of winning positions. */
  lemma {:induction false} WinCountCountsWinners(p: seq<real>)
    ensures WinCount(p) == |Winners(p)|
  {
    if |p| > 0 {
      var n := |p| - 1;
      var init := p[..n];
      WinCountCountsWinners(init);
      assert forall k :: 0 <= k < n ==> init[k] == p[k];
      if p[n] > 0.0 {
        assert Winners(p) == Winners(init) + {n};
        assert n !in Winners(init);
      } else {
        assert Winners(p) == Winners(init);
      }
    }
  }

  lemma FractionAtMostOne(c: nat, n: nat)
    requires 0 < n && c <= n
    ensures 0.0 <= (c as real) / (n as real) * 100.0 <= 100.0
  {
    var q := (c as real) / (n as real);
    assert q * (n as real) == c as real;
    assert (q - 1.0) * (n as real) <= 0.0;
  }

  /** `get_trade_statistics` for one asset: no trades gives the count alone;
      otherwise the count, the mean, least and greatest duration in hours,
      the mean return, the share of winning trades in percent, and the last
      five trades. */
  function TradeStatistics(trades: seq<Trade>): (s: AssetStats)
    ensures s.NoTrades? <==> |trades| == 0
    ensures s.Stats? ==>
      && s.totalTrades == |trades|
      && s.minDurationHours <= s.avgDurationHours <= s.maxDurationHours
      && s.minDurationHours in DurationsHours(trades) && s.maxDurationHours in DurationsHours(trades)
      && (forall k :: 0 <= k < |trades| ==>
            s.minDurationHours <= trades[k].durationHours <= s.maxDurationHours)
      && s.avgDurationHours == Sum(DurationsHours(trades)) / (|trades| as real)
      && s.avgPnlPct == Sum(PnlPcts(trades)) / (|trades| as real)
      && s.winRate == (|Winners(PnlPcts(trades))| as real) / (|trades| as real) * 100.0
      && 0.0 <= s.winRate <= 100.0
      && |s.recentTrades| == (if |trades| < 5 then |trades| else 5)
      && s.recentTrades == trades[|trades| - |s.recentTrades|..]
  {
    if |trades| == 0 then NoTrades
    else
      var d := DurationsHours(trades);
      var p := PnlPcts(trades);
      var n := |trades| as real;
      var lo := MinOf(d);
      var hi := MaxOf(d);
      assert Within(d, lo, hi);
      MeanWithin(d, lo, hi);
      FractionAtMostOne(WinCount(p), |p|);
      WinCountCountsWinners(p);
      Stats(|trades|, Sum(d) / n, lo, hi, Sum(p) / n, (WinCount(p) as real) / (|p| as real) * 100.0,
            if |trades| <= 5 then trades else trades[|trades| - 5..])
  }

  /** `get_trade_statistics` over all assets. */
  function StatisticsSpec(events: map<string, seq<Event>>): Result<map<string, AssetStats>, Error>
  {
    match CompletedSpec(events)
    case Err(e) => Err(e)
    case Ok(c) => Ok(map a | a in c :: TradeStatistics(c[a]))
  }

  /** Without a log file every tracked asset reports zero trades. */
  lemma MissingLogStatistics()
    ensures StatisticsSpec(map[]) == Ok(map["BTC" := NoTrades, "ETH" := NoTrades, "SOL" := NoTrades])
  {
    MissingLogMeansNoTrades();
    var c := NoTradesYet;
    var st := map a | a in c :: TradeStatistics(c[a]);
    assert st.Keys == {"BTC", "ETH", "SOL"};
    assert st["BTC"] == NoTrades && st["ETH"] == NoTrades && st["SOL"] == NoTrades;
    assert st == map["BTC" := NoTrades, "ETH" := NoTrades, "SOL" := NoTrades];
  }
}

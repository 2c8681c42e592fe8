/** How a trade message is cut into summaries. */
module Trades {
  import opened Common

  datatype TradeItem = TradeItem(symbol: string, side: Side, price: Option<real>, size: Option<real>, matchId: string,
                                 timestamp: int)

  datatype Trade = Trade(side: Side, price: Option<real>, quantity: Option<real>, tradeId: string)

  datatype Summary = Summary(symbol: string, trades: seq<Trade>, timestamp: int, isLast: bool)

  function ToTrade(item: TradeItem): Trade {
    Trade(item.side, item.price, item.size, item.matchId)
  }

  function ToTrades(items: seq<TradeItem>): (ts: seq<Trade>)
    ensures |ts| == |items| && forall i :: 0 <= i < |ts| ==> ts[i] == ToTrade(items[i])
  {
    seq(|items|, i requires 0 <= i < |items| => ToTrade(items[i]))
  }

  function LatestOf(items: seq<TradeItem>): int {
    if items == [] then 0 else Max(LatestOf(DropLast(items)), Last(items).timestamp)
  }

  /** `items[s..k]` is a longest stretch of one symbol. */
  ghost predicate IsRun(items: seq<TradeItem>, s: nat, k: nat) {
    && s < k <= |items|
    && (forall i :: s <= i < k ==> items[i].symbol == items[s].symbol)
    && (s > 0 ==> items[s - 1].symbol != items[s].symbol)
    && (k < |items| ==> items[k].symbol != items[s].symbol)
  }

  /** Where the run that ends before `k` starts. */
  function StartOf(items: seq<TradeItem>, k: nat): (s: nat)
    requires 0 < k <= |items|
    ensures s < k && (s > 0 ==> items[s - 1].symbol != items[s].symbol)
    ensures forall i :: s <= i < k ==> items[i].symbol == items[s].symbol
  {
    if k == 1 || items[k - 2].symbol != items[k - 1].symbol then k - 1 else StartOf(items, k - 1)
  }

  predicate Keeps(discard: Discard, symbol: string) {
    symbol != "" && !discard(symbol)
  }

  /** The summary of the run that ends before `k`. Its time is the latest of the run without its first
      item, but with the first item of the next run: the time is read before the symbol is compared, and
      reset after. */
  function SummaryOf(items: seq<TradeItem>, k: nat): Summary
    requires 0 < k <= |items|
  {
    var s := StartOf(items, k);
    Summary(items[s].symbol, ToTrades(items[s..k]), LatestOf(items[s + 1..if k < |items| then k + 1 else k]),
            k == |items|)
  }

  /** The summaries before `k` and that of the run that ends before `k`, if one does and its symbol is kept. */
  function WithEnding(discard: Discard, items: seq<TradeItem>, before: seq<Summary>, k: nat): seq<Summary>
    requires 0 < k <= |items|
  {
    if EndsAt(items, k) && Keeps(discard, items[k - 1].symbol) then before + [SummaryOf(items, k)] else before
  }

  /** The summaries of the runs that end at or before `k`. */
  function SummariesUpTo(discard: Discard, items: seq<TradeItem>, k: nat): seq<Summary>
    requires k <= |items|
  {
    if k == 0 then [] else WithEnding(discard, items, SummariesUpTo(discard, items, k - 1), k)
  }

  function OnTrade(discard: Discard, action: Action, items: seq<TradeItem>): seq<Summary> {
    if action != Insert then [] else SummariesUpTo(discard, items, |items|)
  }

  // ---- the handler's buffers ----

  datatype Run = Run(symbol: string, trades: seq<Trade>, timestamp: int)

  /** The open run after `i` items: its symbol, its trades, and the latest time since it was opened. */
  function OpenRun(items: seq<TradeItem>, i: nat): Run
    requires i <= |items|
  {
    if i == 0 then
      Run("", [], 0)
    else
      RunFrom(items, StartOf(items, i), i)
  }

  function RunFrom(items: seq<TradeItem>, s: nat, i: nat): Run
    requires s < i <= |items|
  {
    Run(items[s].symbol, ToTrades(items[s..i]),
        LatestOf(items[if s == 0 && items[0].symbol == "" then 0 else s + 1..i]))
  }

  /** The summaries sent after `i` items. */
  function Sent(discard: Discard, items: seq<TradeItem>, i: nat): seq<Summary>
    requires i <= |items|
  {
    SummariesUpTo(discard, items, if i == 0 then 0 else i - 1)
  }

  lemma LatestGrows(items: seq<TradeItem>, s: nat, i: nat)
    requires s <= i < |items|
    ensures LatestOf(items[s..i + 1]) == Max(LatestOf(items[s..i]), items[i].timestamp)
  {
    assert DropLast(items[s..i + 1]) == items[s..i];
  }

  lemma RunContinues(items: seq<TradeItem>, i: nat)
    requires i < |items| && items[i].symbol == OpenRun(items, i).symbol
    ensures var run := OpenRun(items, i);
      OpenRun(items, i + 1) == Run(run.symbol, run.trades + [ToTrade(items[i])], Max(run.timestamp, items[i].timestamp))
  {
    if i == 0 {
      assert items[0..1] == [items[0]] && ToTrades([items[0]]) == [] + [ToTrade(items[0])];
      assert DropLast([items[0]]) == [] && LatestOf([]) == 0;
      assert LatestOf([items[0]]) == Max(0, items[0].timestamp);
    } else {
      RunGrows(items, i);
    }
  }

  lemma ToTradesGrow(items: seq<TradeItem>, s: nat, k: nat)
    requires s <= k < |items|
    ensures ToTrades(items[s..k + 1]) == ToTrades(items[s..k]) + [ToTrade(items[k])]
  {
    var longer, shorter := items[s..k + 1], items[s..k];
    assert longer == shorter + [items[k]];
    assert forall i :: 0 <= i < |shorter| ==> ToTrades(longer)[i] == ToTrades(shorter)[i];
  }

  lemma RunFromGrows(items: seq<TradeItem>, s: nat, i: nat)
    requires s < i < |items|
    ensures var run := RunFrom(items, s, i);
      RunFrom(items, s, i + 1) ==
        Run(run.symbol, run.trades + [ToTrade(items[i])], Max(run.timestamp, items[i].timestamp))
  {
    ToTradesGrow(items, s, i);
    LatestGrows(items, if s == 0 && items[0].symbol == "" then 0 else s + 1, i);
  }

  lemma RunGrows(items: seq<TradeItem>, i: nat)
    requires 0 < i < |items| && items[i].symbol == items[i - 1].symbol
    ensures var run := OpenRun(items, i);
      OpenRun(items, i + 1) == Run(run.symbol, run.trades + [ToTrade(items[i])], Max(run.timestamp, items[i].timestamp))
  {
    assert StartOf(items, i + 1) == StartOf(items, i);
    RunFromGrows(items, StartOf(items, i), i);
  }

  lemma RunOpens(items: seq<TradeItem>, i: nat)
    requires i < |items| && items[i].symbol != OpenRun(items, i).symbol
    ensures OpenRun(items, i + 1) == Run(items[i].symbol, [ToTrade(items[i])], 0)
  {
    assert StartOf(items, i + 1) == i;
    assert items[i..i + 1] == [items[i]] && items[i + 1..i + 1] == [];
  }

  lemma RunCloses(items: seq<TradeItem>, i: nat)
    requires 0 < i < |items| && items[i].symbol != OpenRun(items, i).symbol && OpenRun(items, i).symbol != ""
    ensures var run := OpenRun(items, i);
      run.trades != [] && SummaryOf(items, i) ==
        Summary(run.symbol, run.trades, Max(run.timestamp, items[i].timestamp), false)
  {
    LatestGrows(items, StartOf(items, i) + 1, i);
  }

  /** The summary of a run that ends, if its symbol is kept. */
  function Closing(discard: Discard, run: Run, isLast: bool): seq<Summary> {
    if Keeps(discard, run.symbol) then [Summary(run.symbol, run.trades, run.timestamp, isLast)] else []
  }

  lemma EndingCloses(discard: Discard, items: seq<TradeItem>, before: seq<Summary>, k: nat, run: Run)
    requires EndsAt(items, k) && run.symbol == items[k - 1].symbol
    requires run.symbol != "" ==> SummaryOf(items, k) == Summary(run.symbol, run.trades, run.timestamp, k == |items|)
    ensures WithEnding(discard, items, before, k) == before + Closing(discard, run, k == |items|)
  {
  }

  lemma SentStays(discard: Discard, items: seq<TradeItem>, i: nat)
    requires i < |items| && items[i].symbol == OpenRun(items, i).symbol
    ensures Sent(discard, items, i + 1) == Sent(discard, items, i)
  {
  }

  lemma SentGrows(discard: Discard, items: seq<TradeItem>, i: nat)
    requires i < |items| && items[i].symbol != OpenRun(items, i).symbol
    ensures var run := OpenRun(items, i);
      Sent(discard, items, i + 1) ==
        Sent(discard, items, i) + Closing(discard, run.(timestamp := Max(run.timestamp, items[i].timestamp)), false)
  {
    if i > 0 {
      var run := OpenRun(items, i);
      if run.symbol != "" {
        RunCloses(items, i);
      }
      EndingCloses(discard, items, Sent(discard, items, i), i,
                   run.(timestamp := Max(run.timestamp, items[i].timestamp)));
    }
  }

  /** How the buffers and what is sent grow by one item. */
  lemma ItemRead(discard: Discard, items: seq<TradeItem>, i: nat)
    requires i < |items|
    ensures var item := items[i];
      var run := OpenRun(items, i).(timestamp := Max(OpenRun(items, i).timestamp, item.timestamp));
      && (run.symbol != "" ==> run.trades != [])
      && (OpenRun(items, i + 1), Sent(discard, items, i + 1)) ==
           if item.symbol == run.symbol then
             (run.(trades := run.trades + [ToTrade(item)]), Sent(discard, items, i))
           else
             (Run(item.symbol, [] + [ToTrade(item)], 0), Sent(discard, items, i) + Closing(discard, run, false))
  {
    if items[i].symbol == OpenRun(items, i).symbol {
      RunContinues(items, i);
      SentStays(discard, items, i);
    } else {
      RunOpens(items, i);
      SentGrows(discard, items, i);
      assert [] + [ToTrade(items[i])] == [ToTrade(items[i])];
    }
    OpenRunHasTrades(items, i);
  }

  lemma OpenRunHasTrades(items: seq<TradeItem>, i: nat)
    requires i <= |items|
    ensures OpenRun(items, i).symbol != "" ==> OpenRun(items, i).trades != []
  {
  }

  lemma SentAtEnd(discard: Discard, items: seq<TradeItem>)
    ensures SummariesUpTo(discard, items, |items|) ==
            Sent(discard, items, |items|) + Closing(discard, OpenRun(items, |items|), true)
    ensures OpenRun(items, |items|).symbol != "" ==> OpenRun(items, |items|).trades != []
  {
    if items != [] {
      LastRunEnds(items);
      EndingCloses(discard, items, Sent(discard, items, |items|), |items|, OpenRun(items, |items|));
    }
  }

  lemma LastRunEnds(items: seq<TradeItem>)
    requires items != []
    ensures var n, run := |items|, OpenRun(items, |items|);
      && run.symbol == items[n - 1].symbol && run.trades != []
      && (run.symbol != "" ==> SummaryOf(items, n) == Summary(run.symbol, run.trades, run.timestamp, true))
  {
  }

  // ---- what the summaries contain ----

  function AllTrades(ss: seq<Summary>): seq<Trade> {
    if ss == [] then [] else AllTrades(DropLast(ss)) + Last(ss).trades
  }

  function KeptTrades(discard: Discard, items: seq<TradeItem>): seq<Trade> {
    if items == [] then [] else KeptTrades(discard, DropLast(items)) + KeptTrade(discard, Last(items))
  }

  function KeptTrade(discard: Discard, item: TradeItem): seq<Trade> {
    if Keeps(discard, item.symbol) then [ToTrade(item)] else []
  }

  lemma AllTradesAppend(ss: seq<Summary>, s: Summary)
    ensures AllTrades(ss + [s]) == AllTrades(ss) + s.trades
  {
    assert DropLast(ss + [s]) == ss;
  }

  /** The kept trades among the first `k` items. */
  function KeptUpTo(discard: Discard, items: seq<TradeItem>, k: nat): seq<Trade>
    requires k <= |items|
  {
    if k == 0 then
      []
    else
      var before := KeptUpTo(discard, items, k - 1);
      if Keeps(discard, items[k - 1].symbol) then before + [ToTrade(items[k - 1])] else before
  }

  lemma {:induction false} KeptUpToPrefix(discard: Discard, items: seq<TradeItem>, k: nat)
    requires k <= |items|
    ensures KeptUpTo(discard, items, k) == KeptTrades(discard, items[..k])
  {
    if k > 0 {
      KeptUpToPrefix(discard, items, k - 1);
      assert DropLast(items[..k]) == items[..k - 1];
    }
  }

  lemma {:induction false} RunPassedOver(discard: Discard, items: seq<TradeItem>, s: nat, k: nat)
    requires s < k <= |items| && forall i :: s <= i < k ==> items[i].symbol == items[s].symbol
    requires !Keeps(discard, items[s].symbol)
    ensures KeptUpTo(discard, items, k) == KeptUpTo(discard, items, s)
    decreases k
  {
    if s + 1 < k {
      RunPassedOver(discard, items, s, k - 1);
    }
  }

  lemma {:induction false} RunKept(discard: Discard, items: seq<TradeItem>, s: nat, k: nat)
    requires s < k <= |items| && forall i :: s <= i < k ==> items[i].symbol == items[s].symbol
    requires Keeps(discard, items[s].symbol)
    ensures KeptUpTo(discard, items, k) == KeptUpTo(discard, items, s) + ToTrades(items[s..k])
    decreases k
  {
    if s + 1 < k {
      RunKept(discard, items, s, k - 1);
      GrowsAlike(KeptUpTo(discard, items, s), ToTrades(items[s..k - 1]), ToTrade(items[k - 1]));
      ToTradesGrow(items, s, k - 1);
    } else {
      assert ToTrades(items[s..k]) == [ToTrade(items[s])];
    }
  }

  lemma GrowsAlike(before: seq<Trade>, run: seq<Trade>, trade: Trade)
    ensures before + run + [trade] == before + (run + [trade])
  {
  }

  predicate EndsAt(items: seq<TradeItem>, k: nat) {
    0 < k <= |items| && (k == |items| || items[k].symbol != items[k - 1].symbol)
  }

  /** The trades before the run that is still open after `k` items. */
  function ClosedBefore(items: seq<TradeItem>, k: nat): (s: nat)
    requires k <= |items|
    ensures s <= k
  {
    if k == 0 || EndsAt(items, k) then k else StartOf(items, k)
  }

  lemma ClosedBeforeOpenRun(items: seq<TradeItem>, k: nat)
    requires 0 < k <= |items|
    ensures ClosedBefore(items, k - 1) == StartOf(items, k)
  {
  }

  lemma EndingSends(discard: Discard, items: seq<TradeItem>, before: seq<Summary>, k: nat)
    requires 0 < k <= |items| && AllTrades(before) == KeptUpTo(discard, items, StartOf(items, k))
    ensures AllTrades(WithEnding(discard, items, before, k)) == KeptUpTo(discard, items, ClosedBefore(items, k))
  {
    if EndsAt(items, k) {
      if Keeps(discard, items[k - 1].symbol) {
        RunKept(discard, items, StartOf(items, k), k);
        AllTradesAppend(before, SummaryOf(items, k));
      } else {
        RunPassedOver(discard, items, StartOf(items, k), k);
      }
    }
  }

  /** The trades of `ss` are the kept ones before the run that is open after `k` items. */
  predicate HoldsClosed(discard: Discard, items: seq<TradeItem>, ss: seq<Summary>, k: nat)
    requires k <= |items|
  {
    AllTrades(ss) == KeptUpTo(discard, items, ClosedBefore(items, k))
  }

  lemma NothingSentYet(discard: Discard, items: seq<TradeItem>)
    ensures HoldsClosed(discard, items, SummariesUpTo(discard, items, 0), 0)
  {
  }

  lemma NextHoldsClosed(discard: Discard, items: seq<TradeItem>, k: nat)
    requires 0 < k <= |items| && HoldsClosed(discard, items, SummariesUpTo(discard, items, k - 1), k - 1)
    ensures HoldsClosed(discard, items, SummariesUpTo(discard, items, k), k)
  {
    ClosedBeforeOpenRun(items, k);
    EndingSends(discard, items, SummariesUpTo(discard, items, k - 1), k);
  }

  /** After the summaries up to `k`, exactly the kept trades before the open run were sent. */
  lemma {:induction false} SentSoFar(discard: Discard, items: seq<TradeItem>, k: nat)
    requires k <= |items|
    ensures HoldsClosed(discard, items, SummariesUpTo(discard, items, k), k)
    decreases k
  {
    if k == 0 {
      NothingSentYet(discard, items);
    } else {
      SentSoFar(discard, items, k - 1);
      NextHoldsClosed(discard, items, k);
    }
  }

  /** For every insert message, the summaries together are exactly the trades of the symbols that are
      neither empty nor discarded, in order. */
  lemma TradesPartitioned(discard: Discard, items: seq<TradeItem>)
    ensures AllTrades(OnTrade(discard, Insert, items)) == KeptTrades(discard, items)
  {
    SentSoFar(discard, items, |items|);
    KeptUpToPrefix(discard, items, |items|);
    assert items[..|items|] == items;
  }

  /** `m` is the summary of a run of a kept symbol that ends at or before `k`. */
  ghost predicate IsRunSummary(discard: Discard, items: seq<TradeItem>, m: Summary, s: nat, e: nat, k: nat) {
    && IsRun(items, s, e) && e <= k && m.symbol == items[s].symbol && m.symbol != "" && !discard(m.symbol)
    && Copies(m.trades, items[s..e]) && (m.isLast <==> e == |items|)
  }

  /** Each summary holds one symbol's whole run; the last run's summary, and no other, is marked last. */
  lemma {:induction false} SummariesAreRuns(discard: Discard, items: seq<TradeItem>, k: nat)
    requires k <= |items|
    ensures forall m :: m in SummariesUpTo(discard, items, k) ==>
            exists s: nat, e: nat :: IsRunSummary(discard, items, m, s, e, k)
  {
    if k > 0 {
      SummariesAreRuns(discard, items, k - 1);
      forall m | m in SummariesUpTo(discard, items, k)
        ensures exists s: nat, e: nat :: IsRunSummary(discard, items, m, s, e, k)
      {
        if m in SummariesUpTo(discard, items, k - 1) {
          var s: nat, e: nat :| IsRunSummary(discard, items, m, s, e, k - 1);
          assert IsRunSummary(discard, items, m, s, e, k);
        } else {
          assert IsRunSummary(discard, items, m, StartOf(items, k), k, k);
        }
      }
    }
  }

  /** The stretch `items[s..k]` is stamped with its latest time: the next item is not later, and the first
      item, which is passed over, is not later than the others, or the next item makes up for it. */
  predicate KeepsTime(items: seq<TradeItem>, s: nat, k: nat)
    requires s < k <= |items|
  {
    && (k < |items| ==> items[k].timestamp <= LatestOf(items[s..k]))
    && (items[s].timestamp <= LatestOf(items[s + 1..k]) || (k < |items| && items[k].timestamp == items[s].timestamp))
  }

  lemma {:induction false} LatestOfHead(g: seq<TradeItem>)
    requires g != []
    ensures LatestOf(g) == Max(g[0].timestamp, LatestOf(g[1..])) && LatestOf(g[1..]) >= 0
  {
    if |g| == 1 {
      assert DropLast(g) == [] && g[1..] == [];
    } else {
      LatestOfHead(DropLast(g));
      assert DropLast(g)[1..] == DropLast(g[1..]);
    }
  }

  /** The time of a summary is the latest time of its trades exactly when the next item is not later, and
      the first trade is not later than the others or as late as the next item. */
  lemma SummaryTimeExactlyWhen(items: seq<TradeItem>, k: nat)
    requires 0 < k <= |items|
    ensures var s := StartOf(items, k);
      SummaryOf(items, k).timestamp == LatestOf(items[s..k]) <==> KeepsTime(items, s, k)
  {
    var s := StartOf(items, k);
    StretchTime(items, s, k);
  }

  lemma StretchTime(items: seq<TradeItem>, s: nat, k: nat)
    requires s < k <= |items|
    ensures LatestOf(items[s + 1..if k < |items| then k + 1 else k]) == LatestOf(items[s..k]) <==>
            KeepsTime(items, s, k)
  {
    LatestOfHead(items[s..k]);
    assert items[s..k][1..] == items[s + 1..k];
    if k < |items| {
      LatestGrows(items, s + 1, k);
    }
  }

  /** `m` is the summary of the run `items[s..e]`, and its time is the latest exactly when that is kept. */
  ghost predicate IsTimed(discard: Discard, items: seq<TradeItem>, m: Summary, s: nat, e: nat) {
    && IsRunSummary(discard, items, m, s, e, |items|)
    && m.timestamp == LatestOf(items[s + 1..if e < |items| then e + 1 else e])
    && (m.timestamp == LatestOf(items[s..e]) <==> KeepsTime(items, s, e))
  }

  lemma SummaryIsTimed(discard: Discard, items: seq<TradeItem>, k: nat)
    requires EndsAt(items, k) && Keeps(discard, items[k - 1].symbol)
    ensures IsTimed(discard, items, SummaryOf(items, k), StartOf(items, k), k)
  {
    SummaryTimeExactlyWhen(items, k);
  }

  lemma {:induction false} SummariesUpToAreTimed(discard: Discard, items: seq<TradeItem>, k: nat)
    requires k <= |items|
    ensures forall m :: m in SummariesUpTo(discard, items, k) ==>
            exists s: nat, e: nat :: IsTimed(discard, items, m, s, e)
  {
    if k > 0 {
      SummariesUpToAreTimed(discard, items, k - 1);
      if EndsAt(items, k) && Keeps(discard, items[k - 1].symbol) {
        SummaryIsTimed(discard, items, k);
      }
    }
  }

  lemma {:induction false} StaysSent(discard: Discard, items: seq<TradeItem>, m: Summary, e: nat, k: nat)
    requires e <= k <= |items| && m in SummariesUpTo(discard, items, e)
    ensures m in SummariesUpTo(discard, items, k)
    decreases k
  {
    if e < k {
      StaysSent(discard, items, m, e, k - 1);
      NextEnding(discard, items, m, k);
    }
  }

  lemma NextEnding(discard: Discard, items: seq<TradeItem>, m: Summary, k: nat)
    requires 0 < k <= |items| && m in SummariesUpTo(discard, items, k - 1)
    ensures m in SummariesUpTo(discard, items, k)
  {
  }

  lemma SummaryIsSent(discard: Discard, items: seq<TradeItem>, e: nat)
    requires EndsAt(items, e) && Keeps(discard, items[e - 1].symbol)
    ensures SummaryOf(items, e) in SummariesUpTo(discard, items, e)
  {
    assert Last(SummariesUpTo(discard, items, e)) == SummaryOf(items, e);
  }

  lemma {:induction false} RunStartsAt(items: seq<TradeItem>, s: nat, e: nat)
    requires s < e <= |items| && (s > 0 ==> items[s - 1].symbol != items[s].symbol)
    requires forall i :: s <= i < e ==> items[i].symbol == items[s].symbol
    ensures StartOf(items, e) == s
  {
    if s + 1 < e {
      RunStartsAt(items, s, e - 1);
    }
  }

  /** For every insert message: each summary is that of a run and each run of a kept symbol has its summary;
      its time is the latest of the run without its first item but with the item after it, which is the latest
      of the run exactly when the run keeps it. */
  lemma TimesExactlyWhen(discard: Discard, items: seq<TradeItem>)
    ensures forall m :: m in OnTrade(discard, Insert, items) ==>
            exists s: nat, e: nat :: IsTimed(discard, items, m, s, e)
    ensures forall s: nat, e: nat :: IsRun(items, s, e) && items[s].symbol != "" && !discard(items[s].symbol) ==>
              exists m :: m in OnTrade(discard, Insert, items) && IsTimed(discard, items, m, s, e)
  {
    SummariesUpToAreTimed(discard, items, |items|);
    forall s: nat, e: nat | IsRun(items, s, e) && items[s].symbol != "" && !discard(items[s].symbol)
      ensures exists m :: m in OnTrade(discard, Insert, items) && IsTimed(discard, items, m, s, e)
    {
      RunStartsAt(items, s, e);
      SummaryIsSent(discard, items, e);
      StaysSent(discard, items, SummaryOf(items, e), e, |items|);
      SummaryIsTimed(discard, items, e);
    }
  }

  /** The time of a summary is not the latest time of its trades: the first trade is passed over, and the
      first trade of the next symbol counts. */
  lemma SummaryTimeMisleads(discard: Discard)
    requires !discard("A") && discard("B")
    ensures var a, b := TradeItem("A", Buy, Some(1.0), Some(1.0), "1", 5),
            TradeItem("B", Buy, Some(1.0), Some(1.0), "2", 9);
      && OnTrade(discard, Insert, [a]) == [Summary("A", [ToTrade(a)], 0, true)]
      && OnTrade(discard, Insert, [a, b]) == [Summary("A", [ToTrade(a)], 9, false)]
  {
    var a, b := TradeItem("A", Buy, Some(1.0), Some(1.0), "1", 5), TradeItem("B", Buy, Some(1.0), Some(1.0), "2", 9);
    assert "A" != "B";
    assert [a][0..1] == [a] && [a][1..1] == [];
    assert ToTrades([a]) == [ToTrade(a)];
    assert SummariesUpTo(discard, [a], 0) == [];
    assert SummariesUpTo(discard, [a], 1) == [] + [SummaryOf([a], 1)];
    var ab := [a, b];
    assert ab[0..1] == [a] && ab[1..2] == [b] && DropLast([b]) == [];
    assert LatestOf([]) == 0 && LatestOf([b]) == 9;
    assert SummariesUpTo(discard, ab, 0) == [];
    assert SummariesUpTo(discard, ab, 1) == [] + [SummaryOf(ab, 1)];
    assert SummariesUpTo(discard, ab, 2) == SummariesUpTo(discard, ab, 1);
  }

  // ---- what a trade is ----

  function KeptItems(discard: Discard, items: seq<TradeItem>): seq<TradeItem> {
    if items == [] then
      []
    else
      KeptItems(discard, DropLast(items)) +
      if Last(items).symbol != "" && !discard(Last(items).symbol) then [Last(items)] else []
  }

  /** The trades are those of the items, one for one: side, price, size as quantity, and match id. */
  ghost predicate Copies(ts: seq<Trade>, items: seq<TradeItem>) {
    && |ts| == |items|
    && forall i :: 0 <= i < |ts| ==>
         && ts[i].side == items[i].side && ts[i].price == items[i].price
         && ts[i].quantity == items[i].size && ts[i].tradeId == items[i].matchId
  }

  lemma {:induction false} KeptTradesCopy(discard: Discard, items: seq<TradeItem>)
    ensures Copies(KeptTrades(discard, items), KeptItems(discard, items))
  {
    if items != [] {
      KeptTradesCopy(discard, DropLast(items));
    }
  }

  /** What is sent for a trade message: for an insert, the trades of the kept items, in order, each with its
      item's side, price, size and match id; for any other action, nothing. */
  lemma TradesSentExactly(discard: Discard, action: Action, items: seq<TradeItem>)
    ensures Copies(AllTrades(OnTrade(discard, action, items)),
                   if action == Insert then KeptItems(discard, items) else [])
    ensures action != Insert ==> OnTrade(discard, action, items) == []
  {
    if action == Insert {
      TradesPartitioned(discard, items);
      KeptTradesCopy(discard, items);
    }
  }

  /** No item is later than the latest, and if that is not zero, some item is as late. */
  lemma {:induction false} LatestOfIsLatest(items: seq<TradeItem>)
    ensures LatestOf(items) >= 0 && forall i :: 0 <= i < |items| ==> items[i].timestamp <= LatestOf(items)
    ensures LatestOf(items) == 0 || exists i :: 0 <= i < |items| && items[i].timestamp == LatestOf(items)
  {
    if items != [] {
      var front := DropLast(items);
      LatestOfIsLatest(front);
      assert items == front + [Last(items)];
      if LatestOf(items) == LatestOf(front) && LatestOf(items) != 0 {
        var i :| 0 <= i < |front| && front[i].timestamp == LatestOf(front);
        assert items[i].timestamp == LatestOf(items);
      } else if LatestOf(items) != 0 {
        assert items[|front|].timestamp == LatestOf(items);
      }
    }
  }
}

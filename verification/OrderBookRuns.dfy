/** Facts about the publications of one message: they are the maximal runs of equal symbol, exactly
    when no level of an empty symbol runs into a published symbol; no level is lost, repeated or given
    to another symbol; and a message that is abandoned has published whole segments only. */
module OrderBookRuns {
  import opened Common
  import opened PriceCaching
  import opened OrderBook

  // ---- what a cut is ----

  function Flatten(gs: seq<Segment>): seq<Entry> {
    if gs == [] then [] else Flatten(DropLast(gs)) + Last(gs)
  }

  ghost predicate Unbroken(breaks: (string, string) -> bool, g: seq<Entry>) {
    forall i :: 0 < i < |g| ==> !breaks(g[i - 1].symbol, g[i].symbol)
  }

  /** `gs` cuts `es` at every break and nowhere else. */
  ghost predicate CutsAtBreaks(breaks: (string, string) -> bool, es: seq<Entry>, gs: seq<Segment>) {
    && Flatten(gs) == es
    && (forall g :: g in gs ==> Unbroken(breaks, g))
    && (forall k :: 0 < k < |gs| ==> breaks(Last(gs[k - 1]).symbol, gs[k][0].symbol))
  }

  lemma {:induction false} CutIsMaximal(breaks: (string, string) -> bool, es: seq<Entry>)
    ensures CutsAtBreaks(breaks, es, Cut(breaks, es))
  {
    if es != [] {
      var front, e := DropLast(es), Last(es);
      CutIsMaximal(breaks, front);
      var before, after := Cut(breaks, front), Cut(breaks, es);
      assert es == front + [e];
      if before != [] && !breaks(Last(front).symbol, e.symbol) {
        assert DropLast(after) == DropLast(before);
        assert Last(before) in before;
        assert Last(Last(before)) == Last(front);
        assert Unbroken(breaks, Last(after));
      } else {
        assert DropLast(after) == before;
      }
    }
  }

  /** How a cut grows by one entry. */
  lemma CutGrows(breaks: (string, string) -> bool, front: seq<Entry>, e: Entry)
    requires front != []
    ensures var before, after := Cut(breaks, front), Cut(breaks, front + [e]);
      if breaks(Last(front).symbol, e.symbol) then
        after == before + [[e]] && DropLast(after) == before && Last(after) == [e]
      else
        && after == DropLast(before) + [Last(before) + [e]]
        && DropLast(after) == DropLast(before) && Last(after) == Last(before) + [e]
  {
    assert DropLast(front + [e]) == front;
  }

  // ---- levels and pieces ----

  lemma {:induction false} LevelsConcat(a: seq<Entry>, b: seq<Entry>, side: Side)
    ensures Levels(a + b, side) == Levels(a, side) + Levels(b, side)
  {
    if b == [] {
      assert a + b == a;
    } else {
      assert DropLast(a + b) == a + DropLast(b);
      LevelsConcat(a, DropLast(b), side);
    }
  }

  lemma {:induction false} LatestConcat(a: seq<Entry>, b: seq<Entry>)
    ensures Latest(a + b) == Max(Latest(a), Latest(b))
  {
    if b == [] {
      assert a + b == a;
      LatestNonNegative(a);
    } else {
      assert DropLast(a + b) == a + DropLast(b);
      LatestConcat(a, DropLast(b));
    }
  }

  lemma {:induction false} LatestNonNegative(a: seq<Entry>)
    ensures Latest(a) >= 0
  {
    if a != [] {
      LatestNonNegative(DropLast(a));
    }
  }

  /** What a scan guarantees about its entries: exactly the discarded symbols have no level. */
  ghost predicate Faithful(discard: Discard, es: seq<Entry>) {
    forall e :: e in es ==>
      (e.quote.Some? <==> !discard(e.symbol)) && (e.quote.Some? ==> e.quote.value.side != UnknownSide)
  }

  /** `e` is the item with side, time and (defaulted) size. */
  ghost predicate Keeps(e: Entry, item: Level) {
    && e.symbol == item.symbol
    && (e.quote.Some? ==>
          && e.quote.value.side == item.side
          && e.quote.value.timestamp == item.timestamp
          && e.quote.value.size == if item.size.Some? then item.size.value else 0.0)
  }

  lemma ItemIsKept(discard: Discard, action: Action, s: Scan, item: Level)
    requires s.halt.None?
    ensures var t := ScanItem(discard, action, s, item);
      if t.halt.Some? then t.entries == s.entries
      else |t.entries| == |s.entries| + 1 && t.entries == s.entries + [Last(t.entries)]
           && Keeps(Last(t.entries), item) && Faithful(discard, [Last(t.entries)])
  {
  }

  lemma {:induction false} ScanKeepsItems(discard: Discard, action: Action, prices: Prices, items: seq<Level>)
    ensures Faithful(discard, ScanItems(discard, action, prices, items).entries)
    ensures forall j :: 0 <= j < |ScanItems(discard, action, prices, items).entries| ==>
              Keeps(ScanItems(discard, action, prices, items).entries[j], items[j])
  {
    if items != [] {
      ScanKeepsItems(discard, action, prices, DropLast(items));
      var s := ScanItems(discard, action, prices, DropLast(items));
      var t := ScanItems(discard, action, prices, items);
      if s.halt.None? {
        ItemIsKept(discard, action, s, Last(items));
      }
      assert t.entries == s.entries || t.entries == s.entries + [Last(t.entries)];
    }
  }

  lemma {:induction false} NoLevels(g: seq<Entry>, side: Side)
    requires forall e :: e in g ==> e.quote.None?
    ensures Levels(g, side) == [] && Latest(g) == 0
  {
    if g != [] {
      NoLevels(DropLast(g), side);
    }
  }

  lemma {:induction false} AllLevels(g: seq<Entry>)
    requires forall e :: e in g ==> e.quote.Some? && e.quote.value.side != UnknownSide
    ensures |Levels(g, Buy)| + |Levels(g, Sell)| == |g|
  {
    if g != [] {
      AllLevels(DropLast(g));
    }
  }

  // ---- runs of equal symbol ----

  predicate Differ(a: string, b: string) {
    a != b
  }

  function Runs(es: seq<Entry>): seq<Segment> {
    Cut(Differ, es)
  }

  /** A level without a symbol is followed by a level that is published. */
  ghost predicate Leaks(discard: Discard, es: seq<Entry>) {
    !discard("") && exists i {:trigger es[i]} ::
      0 <= i < |es| - 1 && es[i].symbol == "" && es[i + 1].symbol != "" && !discard(es[i + 1].symbol)
  }

  function Weight(ps: seq<Publication>): nat {
    if ps == [] then 0 else Weight(DropLast(ps)) + |Last(ps).bids| + |Last(ps).asks|
  }

  lemma WeightOfOne(ps: seq<Publication>, discard: Discard, snapshot: bool, g: Segment)
    ensures Weight(ps + ToPublication(discard, snapshot, g)) ==
            Weight(ps) + if Last(g).symbol == "" || discard(Last(g).symbol) then 0
                         else |Levels(g, Buy)| + |Levels(g, Sell)|
  {
    var p := ToPublication(discard, snapshot, g);
    if p == [] {
      assert ps + p == ps;
    } else {
      assert DropLast(ps + p) == ps;
    }
  }

  /** How the last segment relates to the last run: it may start with stray levels of the empty
      symbol. `before` says whether an earlier segment leaked. */
  ghost predicate LastSegmentIs(discard: Discard, snapshot: bool, es: seq<Entry>, stray: seq<Entry>, before: bool)
    requires es != []
  {
    var s, r := Segments(es), Runs(es);
    && Last(s) == stray + Last(r)
    && (forall e :: e in stray ==> e.symbol == "" && e in es)
    && (forall e :: e in Last(r) ==> e.symbol == Last(es).symbol && e in es)
    && (stray != [] ==> Last(es).symbol != "")
    && (Leaks(discard, es) <==> before || (stray != [] && !discard("") && !discard(Last(es).symbol)))
    && (!before ==> PublishAll(discard, snapshot, DropLast(s)) == PublishAll(discard, snapshot, DropLast(r)))
    && (before ==>
          Weight(PublishAll(discard, snapshot, DropLast(s))) > Weight(PublishAll(discard, snapshot, DropLast(r))))
  }

  lemma LeaksGrows(discard: Discard, front: seq<Entry>, e: Entry)
    requires front != []
    ensures Leaks(discard, front + [e]) <==>
              Leaks(discard, front) || (Last(front).symbol == "" && e.symbol != "" && !discard("")
                                        && !discard(e.symbol))
  {
    var es := front + [e];
    if Leaks(discard, front) {
      var i :| 0 <= i < |front| - 1 && front[i].symbol == "" && front[i + 1].symbol != ""
        && !discard(front[i + 1].symbol);
      assert es[i] == front[i] && es[i + 1] == front[i + 1];
    }
    if Leaks(discard, es) {
      var i :| 0 <= i < |es| - 1 && es[i].symbol == "" && es[i + 1].symbol != "" && !discard(es[i + 1].symbol);
      if i < |front| - 1 {
        assert front[i] == es[i] && front[i + 1] == es[i + 1];
      }
    }
    assert es[|front| - 1] == Last(front);
  }

  lemma {:induction false} LastSegment(
    discard: Discard, snapshot: bool, es: seq<Entry>)
    returns (stray: seq<Entry>, before: bool)
    requires es != [] && Faithful(discard, es)
    ensures LastSegmentIs(discard, snapshot, es, stray, before)
  {
    var front, e := DropLast(es), Last(es);
    assert es == front + [e];
    if front == [] {
      stray, before := [], false;
      assert Segments(es) == [[e]] == Runs(es);
    } else {
      stray, before := LastSegment(discard, snapshot, front);
      var symbol := Last(front).symbol;
      if symbol == e.symbol {
        LastSegmentGrows(discard, snapshot, front, e, stray, before);
      } else if symbol != "" {
        LastSegmentBreaks(discard, snapshot, front, e, stray, before);
        stray, before := [], Leaks(discard, front);
      } else {
        LastSegmentTurnsStray(discard, snapshot, front, e, stray, before);
        stray := Last(Segments(front));
      }
    }
  }

  lemma LastSegmentBreaks(
    discard: Discard, snapshot: bool, front: seq<Entry>, e: Entry, stray: seq<Entry>, before: bool)
    requires front != [] && Faithful(discard, front) && LastSegmentIs(discard, snapshot, front, stray, before)
    requires Last(front).symbol != "" && Last(front).symbol != e.symbol
    ensures LastSegmentIs(discard, snapshot, front + [e], [], Leaks(discard, front))
  {
    SegmentAgainstRun(discard, snapshot, front, stray, before);
    CutGrows(Breaks, front, e);
    CutGrows(Differ, front, e);
    LeaksGrows(discard, front, e);
    assert [] + [e] == [e];
  }

  lemma LastSegmentGrows(discard: Discard, snapshot: bool, front: seq<Entry>, e: Entry, stray: seq<Entry>, before: bool)
    requires front != [] && LastSegmentIs(discard, snapshot, front, stray, before)
    requires Last(front).symbol == e.symbol
    ensures LastSegmentIs(discard, snapshot, front + [e], stray, before)
  {
    CutGrows(Breaks, front, e);
    CutGrows(Differ, front, e);
    LeaksGrows(discard, front, e);
    var run := Last(Runs(front));
    assert (stray + run) + [e] == stray + (run + [e]);
  }

  lemma LastSegmentTurnsStray(
    discard: Discard, snapshot: bool, front: seq<Entry>, e: Entry, stray: seq<Entry>, before: bool)
    requires front != [] && LastSegmentIs(discard, snapshot, front, stray, before)
    requires Last(front).symbol == "" != e.symbol
    ensures LastSegmentIs(discard, snapshot, front + [e], Last(Segments(front)), before)
  {
    CutGrows(Breaks, front, e);
    CutGrows(Differ, front, e);
    LeaksGrows(discard, front, e);
    var runs := Runs(front);
    assert stray == [] && Last(Segments(front)) == Last(runs);
    assert ToPublication(discard, snapshot, Last(runs)) == [];
    var published := PublishAll(discard, snapshot, DropLast(runs));
    assert PublishAll(discard, snapshot, runs) == published + [] == published;
  }

  /** Publishing the last segment instead of the last run adds the stray levels, and nothing else. */
  lemma SegmentAgainstRun(discard: Discard, snapshot: bool, es: seq<Entry>, stray: seq<Entry>, before: bool)
    requires es != [] && Faithful(discard, es)
    requires LastSegmentIs(discard, snapshot, es, stray, before)
    ensures !Leaks(discard, es) ==>
            PublishAll(discard, snapshot, Segments(es)) == PublishAll(discard, snapshot, Runs(es))
    ensures Leaks(discard, es) ==>
            Weight(PublishAll(discard, snapshot, Segments(es))) > Weight(PublishAll(discard, snapshot, Runs(es)))
  {
    var s, r := Segments(es), Runs(es);
    var symbol, run := Last(es).symbol, Last(r);
    LevelsConcat(stray, run, Buy);
    LevelsConcat(stray, run, Sell);
    LatestConcat(stray, run);
    LatestNonNegative(run);
    WeightOfOne(PublishAll(discard, snapshot, DropLast(s)), discard, snapshot, Last(s));
    WeightOfOne(PublishAll(discard, snapshot, DropLast(r)), discard, snapshot, run);
    if stray == [] {
      assert Last(s) == run;
    } else if discard("") {
      NoLevels(stray, Buy);
      NoLevels(stray, Sell);
      assert Levels(Last(s), Buy) == Levels(run, Buy) && Levels(Last(s), Sell) == Levels(run, Sell);
      assert Last(Last(s)) == Last(run);
      assert ToPublication(discard, snapshot, Last(s)) == ToPublication(discard, snapshot, run);
    } else {
      AllLevels(stray);
    }
  }

  /** The publications are those of the maximal runs of equal symbol exactly when no level without a
      symbol is followed by a level that is published. */
  lemma PublishesRunsExactlyWhen(discard: Discard, snapshot: bool, es: seq<Entry>)
    requires Faithful(discard, es)
    ensures PublishAll(discard, snapshot, Segments(es)) == PublishAll(discard, snapshot, Runs(es)) <==>
            !Leaks(discard, es)
  {
    if es != [] {
      var stray, before := LastSegment(discard, snapshot, es);
      SegmentAgainstRun(discard, snapshot, es, stray, before);
    }
  }

  /** The same condition, read off the message. */
  ghost predicate ItemsLeak(discard: Discard, items: seq<Level>) {
    !discard("") && exists i {:trigger items[i]} ::
      0 <= i < |items| - 1 && items[i].symbol == "" && items[i + 1].symbol != "" && !discard(items[i + 1].symbol)
  }

  /** A completed message publishes the maximal runs of its symbols exactly when it does not leak. */
  lemma MessagePublishesRunsExactlyWhen(
    discard: Discard, latch: bool, prices: Prices, action: Action, items: seq<Level>, rejected: set<nat>)
    requires OnMessage(discard, latch, prices, action, items, rejected).outcome == Completed
    ensures OnMessage(discard, latch, prices, action, items, rejected).published ==
              PublishAll(discard, action == Partial, Runs(ScanItems(discard, action, prices, items).entries))
       <==> !ItemsLeak(discard, items)
  {
    var es := ScanItems(discard, action, prices, items).entries;
    ScanKeepsItems(discard, action, prices, items);
    PublishesRunsExactlyWhen(discard, action == Partial, es);
    assert forall i :: 0 <= i < |es| ==> es[i].symbol == items[i].symbol;
  }

  /** The leak is real: a level without a symbol is published under the next symbol. */
  lemma StrayLevelIsPublished(discard: Discard, a: Level, b: Level)
    requires !discard("") && !discard("XBTUSD")
    requires a == Level("", 1, Buy, Some(10.0), Some(5.0), 0)
    requires b == Level("XBTUSD", 2, Buy, Some(9.0), Some(7.0), 0)
    ensures OnMessage(discard, false, map[], Partial, [a, b], {}).published ==
              [Publication("XBTUSD", [MBPUpdate(10.0, 5.0), MBPUpdate(9.0, 7.0)], [], true, 0)]
  {
    var ea, eb := Entry("", Some(Quote(Buy, 10.0, 5.0, 0))), Entry("XBTUSD", Some(Quote(Buy, 9.0, 7.0, 0)));
    var segment: Segment := [ea, eb];
    StrayScan(discard, a, b);
    StraySegment(ea, eb);
    StrayLevels(ea, eb);
    OnlyPublication(discard, true, segment);
  }

  lemma StraySegment(a: Entry, b: Entry)
    requires a.symbol == ""
    ensures Segments([a, b]) == [[a, b]]
  {
    var g: Segment := [a];
    assert DropLast([a, b]) == [a] && DropLast(g) == [];
    assert Segments(g) == [g];
    assert DropLast([g]) == [] && [a] + [b] == [a, b];
  }

  lemma StrayScan(discard: Discard, a: Level, b: Level)
    requires !discard(a.symbol) && !discard(b.symbol) && a.side == b.side == Buy && a.id != b.id
    requires a.price.Some? && a.size.Some? && b.price.Some? && b.size.Some?
    ensures var s := ScanItems(discard, Partial, map[], [a, b]);
      && s.halt.None?
      && s.entries == [Entry(a.symbol, Some(Quote(Buy, a.price.value, a.size.value, a.timestamp))),
                       Entry(b.symbol, Some(Quote(Buy, b.price.value, b.size.value, b.timestamp)))]
  {
    assert DropLast([a, b]) == [a] && DropLast([a]) == [];
    var s0 := Scan(map[], [], None);
    assert ScanItems(discard, Partial, map[], []) == s0;
    assert ScanItems(discard, Partial, map[], [a]) == ScanItem(discard, Partial, s0, a);
  }

  lemma StrayLevels(a: Entry, b: Entry)
    requires a.quote.Some? && a.quote.value.side == Buy && b.quote.Some? && b.quote.value.side == Buy
    ensures Levels([a, b], Sell) == []
            && Latest([a, b]) == Max(Max(0, a.quote.value.timestamp), b.quote.value.timestamp)
    ensures Levels([a, b], Buy) ==
            [MBPUpdate(a.quote.value.price, a.quote.value.size), MBPUpdate(b.quote.value.price, b.quote.value.size)]
  {
    assert DropLast([a, b]) == [a] && DropLast([a]) == [];
    assert Levels([], Buy) == [] && Levels([], Sell) == [] && Latest([]) == 0;
    assert Levels([a], Sell) == [] && Levels([a], Buy) == [MBPUpdate(a.quote.value.price, a.quote.value.size)];
    assert Latest([a]) == Max(0, a.quote.value.timestamp);
  }

  lemma OnlyPublication(discard: Discard, snapshot: bool, g: Segment)
    ensures PublishAll(discard, snapshot, [g]) == ToPublication(discard, snapshot, g)
  {
    assert DropLast([g]) == [];
    assert PublishAll(discard, snapshot, [g]) == [] + ToPublication(discard, snapshot, g);
  }

  // ---- no level is lost, repeated or misattributed ----

  function Of(es: seq<Entry>, symbol: string): seq<Entry> {
    if es == [] then [] else Of(DropLast(es), symbol) + if Last(es).symbol == symbol then [Last(es)] else []
  }

  function PublishedLevels(ps: seq<Publication>, symbol: string, side: Side): seq<MBPUpdate> {
    if ps == [] then
      []
    else
      PublishedLevels(DropLast(ps), symbol, side) +
      if Last(ps).symbol != symbol then [] else if side == Buy then Last(ps).bids else Last(ps).asks
  }

  lemma {:induction false} OfConcat(a: seq<Entry>, b: seq<Entry>, symbol: string)
    ensures Of(a + b, symbol) == Of(a, symbol) + Of(b, symbol)
  {
    if b == [] {
      assert a + b == a;
    } else {
      assert DropLast(a + b) == a + DropLast(b);
      OfConcat(a, DropLast(b), symbol);
    }
  }

  lemma {:induction false} OfUniform(g: seq<Entry>, symbol: string)
    requires g != [] && Unbroken(Differ, g)
    ensures Of(g, symbol) == if Last(g).symbol == symbol then g else []
  {
    var front := DropLast(g);
    assert g == front + [Last(g)];
    if front != [] {
      assert !Differ(g[|g| - 2].symbol, g[|g| - 1].symbol);
      forall i | 0 < i < |front| ensures !Differ(front[i - 1].symbol, front[i].symbol) {
        assert !Differ(g[i - 1].symbol, g[i].symbol);
      }
      OfUniform(front, symbol);
    }
  }

  lemma {:induction false} RunsConserve(discard: Discard, snapshot: bool, gs: seq<Segment>, symbol: string, side: Side)
    requires symbol != "" && (side == Buy || side == Sell)
    requires forall g :: g in gs ==> Unbroken(Differ, g) && Faithful(discard, g)
    ensures PublishedLevels(PublishAll(discard, snapshot, gs), symbol, side) == Levels(Of(Flatten(gs), symbol), side)
  {
    if gs != [] {
      var front, g := DropLast(gs), Last(gs);
      RunsConserve(discard, snapshot, front, symbol, side);
      OfConcat(Flatten(front), g, symbol);
      LevelsConcat(Of(Flatten(front), symbol), Of(g, symbol), side);
      RunConserves(discard, snapshot, g, symbol, side);
      PublishedLevelsConcat(PublishAll(discard, snapshot, front), ToPublication(discard, snapshot, g), symbol, side);
    }
  }

  lemma PublishedLevelsOfOne(ps: seq<Publication>, symbol: string, side: Side)
    requires |ps| <= 1
    ensures PublishedLevels(ps, symbol, side) ==
            if ps == [] || ps[0].symbol != symbol then [] else if side == Buy then ps[0].bids else ps[0].asks
  {
    if ps != [] {
      assert DropLast(ps) == [];
    }
  }

  lemma RunConserves(discard: Discard, snapshot: bool, g: Segment, symbol: string, side: Side)
    requires symbol != "" && (side == Buy || side == Sell)
    requires Unbroken(Differ, g) && Faithful(discard, g)
    ensures PublishedLevels(ToPublication(discard, snapshot, g), symbol, side) == Levels(Of(g, symbol), side)
  {
    OfUniform(g, symbol);
    PublishedLevelsOfOne(ToPublication(discard, snapshot, g), symbol, side);
    if discard(symbol) && Last(g).symbol == symbol {
      OfAll(g, symbol);
      NoLevels(g, side);
    }
  }

  lemma PublishedLevelsConcat(ps: seq<Publication>, qs: seq<Publication>, symbol: string, side: Side)
    requires |qs| <= 1
    ensures PublishedLevels(ps + qs, symbol, side) ==
            PublishedLevels(ps, symbol, side) + PublishedLevels(qs, symbol, side)
  {
    PublishedLevelsOfOne(qs, symbol, side);
    if qs == [] {
      assert ps + qs == ps;
    } else {
      assert DropLast(ps + qs) == ps && Last(ps + qs) == qs[0];
    }
  }

  lemma {:induction false} OfAll(g: seq<Entry>, symbol: string)
    ensures forall e :: e in Of(g, symbol) ==> e.symbol == symbol
  {
    if g != [] {
      OfAll(DropLast(g), symbol);
    }
  }

  /** A completed message that does not leak publishes, for each symbol and side, exactly the levels
      of that symbol and side, in order; and never an empty or discarded book. */
  lemma LevelsConserved(
    discard: Discard, latch: bool, prices: Prices, action: Action, items: seq<Level>, rejected: set<nat>,
    symbol: string, side: Side)
    requires OnMessage(discard, latch, prices, action, items, rejected).outcome == Completed
    requires !ItemsLeak(discard, items) && symbol != "" && (side == Buy || side == Sell)
    ensures PublishedLevels(OnMessage(discard, latch, prices, action, items, rejected).published, symbol, side)
         == Levels(Of(ScanItems(discard, action, prices, items).entries, symbol), side)
  {
    var es := ScanItems(discard, action, prices, items).entries;
    MessagePublishesRunsExactlyWhen(discard, latch, prices, action, items, rejected);
    ScanKeepsItems(discard, action, prices, items);
    CutIsMaximal(Differ, es);
    PiecesFaithful(discard, Runs(es));
    RunsConserve(discard, action == Partial, Runs(es), symbol, side);
  }

  lemma {:induction false} PiecesFaithful(discard: Discard, gs: seq<Segment>)
    requires Faithful(discard, Flatten(gs))
    ensures forall g :: g in gs ==> Faithful(discard, g)
  {
    if gs != [] {
      assert forall e :: e in Last(gs) || e in Flatten(DropLast(gs)) ==> e in Flatten(gs);
      PiecesFaithful(discard, DropLast(gs));
    }
  }

  /** No publication is empty or about a discarded or empty symbol, whatever the message. */
  lemma {:induction false} NothingEmptyPublished(discard: Discard, snapshot: bool, gs: seq<Segment>)
    ensures forall p :: p in PublishAll(discard, snapshot, gs) ==>
              p.symbol != "" && !discard(p.symbol) && (p.bids != [] || p.asks != []) && p.snapshot == snapshot
  {
    if gs != [] {
      NothingEmptyPublished(discard, snapshot, DropLast(gs));
    }
  }

  // ---- abandoned messages ----

  /** A cut without its last piece is the cut of what precedes the last piece. */
  lemma {:induction false} CutPrefix(breaks: (string, string) -> bool, es: seq<Entry>) returns (k: nat)
    requires es != []
    ensures k < |es| && DropLast(Cut(breaks, es)) == Cut(breaks, es[..k]) && Last(Cut(breaks, es)) == es[k..]
    ensures Unbroken(breaks, es[k..]) && (k > 0 ==> breaks(es[k - 1].symbol, es[k].symbol))
  {
    var front, e := DropLast(es), Last(es);
    assert es == front + [e];
    if front == [] {
      k := 0;
    } else {
      CutGrows(breaks, front, e);
      if breaks(Last(front).symbol, e.symbol) {
        k := |front|;
      } else {
        k := CutPrefix(breaks, front);
        assert es[..k] == front[..k];
        UnbrokenGrows(breaks, front[k..], e);
        assert es[k..] == front[k..] + [e];
      }
    }
  }

  lemma UnbrokenGrows(breaks: (string, string) -> bool, g: Segment, e: Entry)
    requires Unbroken(breaks, g) && !breaks(Last(g).symbol, e.symbol)
    ensures Unbroken(breaks, g + [e])
  {
    forall i | 0 < i < |g| + 1 ensures !breaks((g + [e])[i - 1].symbol, (g + [e])[i].symbol) {
      if i < |g| {
        assert !breaks(g[i - 1].symbol, g[i].symbol);
      }
    }
  }

  /** `time` is the latest time of the resolved levels, or zero if none is later. */
  ghost predicate IsLatest(time: int, g: seq<Entry>) {
    && (forall e :: e in g && e.quote.Some? ==> e.quote.value.timestamp <= time)
    && (time == 0 || exists e :: e in g && e.quote.Some? && e.quote.value.timestamp == time)
  }

  lemma {:induction false} LatestIsLatest(g: seq<Entry>)
    ensures Latest(g) >= 0 && IsLatest(Latest(g), g)
  {
    if g != [] {
      LatestIsLatest(DropLast(g));
      assert g == DropLast(g) + [Last(g)];
      if Latest(g) == Latest(DropLast(g)) && Latest(g) != 0 {
        var e :| e in DropLast(g) && e.quote.Some? && e.quote.value.timestamp == Latest(g);
        assert e in g;
      } else if Latest(g) != 0 {
        assert Last(g) in g;
      }
    }
  }

  /** `es[s..e]` is a longest stretch of `symbol`. */
  ghost predicate IsStretch(es: seq<Entry>, symbol: string, s: nat, e: nat) {
    && s < e <= |es|
    && (forall i :: s <= i < e ==> es[i].symbol == symbol)
    && (s > 0 ==> es[s - 1].symbol != symbol) && (e < |es| ==> es[e].symbol != symbol)
  }

  /** `p` says what the entries say: split by side, in order, with their latest time. */
  ghost predicate Publishes(p: Publication, g: seq<Entry>) {
    p.bids == Levels(g, Buy) && p.asks == Levels(g, Sell) && IsLatest(p.timestamp, g)
  }

  ghost predicate IsRunPublication(es: seq<Entry>, p: Publication, s: nat, e: nat) {
    IsStretch(es, p.symbol, s, e) && Publishes(p, es[s..e])
  }

  lemma {:induction false} UnbrokenIsUniform(g: seq<Entry>, i: nat)
    requires Unbroken(Differ, g) && i < |g|
    ensures g[i].symbol == Last(g).symbol
    decreases |g| - i
  {
    if i < |g| - 1 {
      assert !Differ(g[i + 1 - 1].symbol, g[i + 1].symbol);
      UnbrokenIsUniform(g, i + 1);
    }
  }

  lemma RunPublication(discard: Discard, snapshot: bool, es: seq<Entry>, k: nat, p: Publication)
    requires k < |es| && Unbroken(Differ, es[k..]) && (k > 0 ==> Differ(es[k - 1].symbol, es[k].symbol))
    requires p in ToPublication(discard, snapshot, es[k..])
    ensures IsRunPublication(es, p, k, |es|)
  {
    var g := es[k..];
    LatestIsLatest(g);
    forall i | k <= i < |es| ensures es[i].symbol == p.symbol {
      UnbrokenIsUniform(g, i - k);
    }
    assert es[k..|es|] == g;
  }

  lemma StretchExtends(es: seq<Entry>, symbol: string, k: nat, s: nat, e: nat)
    requires k < |es| && (k > 0 ==> Differ(es[k - 1].symbol, es[k].symbol)) && IsStretch(es[..k], symbol, s, e)
    ensures IsStretch(es, symbol, s, e) && es[..k][s..e] == es[s..e]
  {
    assert forall i :: 0 <= i < k ==> es[..k][i] == es[i];
  }

  lemma RunPublicationExtends(es: seq<Entry>, p: Publication, k: nat)
    requires k < |es| && (k > 0 ==> Differ(es[k - 1].symbol, es[k].symbol))
    requires exists s: nat, e: nat :: IsRunPublication(es[..k], p, s, e)
    ensures exists s: nat, e: nat :: IsRunPublication(es, p, s, e)
  {
    var s: nat, e: nat :| IsRunPublication(es[..k], p, s, e);
    StretchExtends(es, p.symbol, k, s, e);
    assert IsRunPublication(es, p, s, e);
  }

  /** Each publication of the runs is one symbol's maximal run, split by side with the order kept and
      stamped with the latest time of its levels. */
  lemma {:induction false} PublicationsAreRuns(discard: Discard, snapshot: bool, es: seq<Entry>)
    ensures forall p :: p in PublishAll(discard, snapshot, Runs(es)) ==>
            exists s: nat, e: nat :: IsRunPublication(es, p, s, e)
    decreases |es|
  {
    if es != [] {
      var k := CutPrefix(Differ, es);
      PublicationsAreRuns(discard, snapshot, es[..k]);
      var front := Runs(es[..k]);
      assert DropLast(Runs(es)) == front && Last(Runs(es)) == es[k..];
      forall p | p in PublishAll(discard, snapshot, Runs(es))
        ensures exists s: nat, e: nat :: IsRunPublication(es, p, s, e)
      {
        if p in PublishAll(discard, snapshot, front) {
          assert exists s: nat, e: nat :: IsRunPublication(es[..k], p, s, e);
          RunPublicationExtends(es, p, k);
        } else {
          RunPublication(discard, snapshot, es, k, p);
        }
      }
    }
  }

  lemma {:induction false} ScanPrefix(discard: Discard, action: Action, prices: Prices, items: seq<Level>, k: nat)
    requires k <= |ScanItems(discard, action, prices, items).entries|
    ensures var s, t := ScanItems(discard, action, prices, items), ScanItems(discard, action, prices, items[..k]);
      t.halt.None? && t.entries == s.entries[..k]
  {
    var s := ScanItems(discard, action, prices, items);
    if k == |items| {
      assert items[..k] == items;
    } else {
      var front := DropLast(items);
      var t := ScanItems(discard, action, prices, front);
      assert front[..k] == items[..k];
      assert t.entries == s.entries[..|t.entries|];
      assert |t.entries| >= k;
      ScanPrefix(discard, action, prices, front, k);
    }
  }

  /** The message failed at `f`, in the segment that starts at `k`. */
  ghost predicate FailsInSegment(items: seq<Level>, k: nat, f: nat) {
    && k <= f < |items|
    && (k > 0 ==> Breaks(items[k - 1].symbol, items[k].symbol))
    && (forall i :: k < i <= f ==> !Breaks(items[i - 1].symbol, items[i].symbol))
  }

  /** When a price cannot be resolved, what was published is what a message made of the finished
      segments alone publishes, and the latch does not advance: it stays unless one of those
      publications was rejected. */
  lemma AbortIsSegmentAtomic(
    discard: Discard, latch: bool, prices: Prices, action: Action, items: seq<Level>, rejected: set<nat>)
    returns (k: nat, f: nat)
    requires OnMessage(discard, latch, prices, action, items, rejected).outcome in {Closed, Fatal}
    ensures f == |ScanItems(discard, action, prices, items).entries|
    ensures FailsInSegment(items, k, f)
    ensures var whole := OnMessage(discard, latch, prices, action, items, rejected);
      var finished := OnMessage(discard, latch, prices, action, items[..k], rejected);
      && finished.outcome == Completed && finished.published == whole.published
      && (whole.latch <==> latch && !AnyRejected(whole.published, rejected))
  {
    var s := ScanItems(discard, action, prices, items);
    f := |s.entries|;
    k := FailingSegment(discard, action, prices, items);
    ScanPrefix(discard, action, prices, items, k);
    FinishedAlone(discard, latch, prices, action, items, rejected, k);
  }

  lemma {:induction false} ScanKeepsSymbols(discard: Discard, action: Action, prices: Prices, items: seq<Level>)
    ensures var es := ScanItems(discard, action, prices, items).entries;
      forall i :: 0 <= i < |es| ==> es[i].symbol == items[i].symbol
  {
    var es := ScanItems(discard, action, prices, items).entries;
    ScanKeepsItems(discard, action, prices, items);
    forall i | 0 <= i < |es| ensures es[i].symbol == items[i].symbol {
      assert Keeps(es[i], items[i]);
    }
  }

  /** The segments that are finished before an entry, and where its own segment starts. */
  lemma FinishedBefore(es: seq<Entry>, e: Entry) returns (k: nat)
    ensures k <= |es| && DropLast(Segments(es + [e])) == Segments(es[..k])
    ensures Unbroken(Breaks, (es + [e])[k..]) && (k > 0 ==> Breaks((es + [e])[k - 1].symbol, (es + [e])[k].symbol))
  {
    k := CutPrefix(Breaks, es + [e]);
    assert (es + [e])[..k] == es[..k];
  }

  lemma FailingSegment(discard: Discard, action: Action, prices: Prices, items: seq<Level>) returns (k: nat)
    requires ScanItems(discard, action, prices, items).halt.Some?
    ensures var s := ScanItems(discard, action, prices, items);
      FailsInSegment(items, k, |s.entries|) && Finished(s.entries, items[|s.entries|]) == Segments(s.entries[..k])
  {
    var es := ScanItems(discard, action, prices, items).entries;
    var e := Entry(items[|es|].symbol, None);
    k := FinishedBefore(es, e);
    ScanKeepsSymbols(discard, action, prices, items);
    SymbolsBreakAlike(es + [e], items, k);
  }

  lemma FinishedAlone(
    discard: Discard, latch: bool, prices: Prices, action: Action, items: seq<Level>, rejected: set<nat>, k: nat)
    requires OnMessage(discard, latch, prices, action, items, rejected).outcome in {Closed, Fatal}
    requires k <= |items|
    requires var s, t := ScanItems(discard, action, prices, items), ScanItems(discard, action, prices, items[..k]);
      s.halt.Some? && t.halt.None? && Finished(s.entries, items[|s.entries|]) == Segments(t.entries)
    ensures var whole := OnMessage(discard, latch, prices, action, items, rejected);
      var finished := OnMessage(discard, latch, prices, action, items[..k], rejected);
      && finished.outcome == Completed && finished.published == whole.published
      && (whole.latch <==> latch && !AnyRejected(whole.published, rejected))
  {
  }

  lemma SymbolsBreakAlike(es: seq<Entry>, items: seq<Level>, k: nat)
    requires k < |es| <= |items|
    requires forall i :: 0 <= i < |es| - 1 ==> es[i].symbol == items[i].symbol
    requires Last(es).symbol == items[|es| - 1].symbol
    requires Unbroken(Breaks, es[k..]) && (k > 0 ==> Breaks(es[k - 1].symbol, es[k].symbol))
    ensures FailsInSegment(items, k, |es| - 1)
  {
    forall i | 0 <= i < |es| ensures es[i].symbol == items[i].symbol {
    }
    forall i | k < i < |es| ensures !Breaks(items[i - 1].symbol, items[i].symbol) {
      var g := es[k..];
      assert !Breaks(g[i - k - 1].symbol, g[i - k].symbol);
    }
  }
}

/** When a partial recovers the books for good: whatever the gateway cached and the consumer had before it,
    every gapless run from the partial on keeps the books exact exactly when the cache held no other id than
    the live ones of kept symbols at their prices, and the consumer no symbol that the partial passes over. */
module BookRecovery {
  import opened Common
  import opened PriceCaching
  import opened OrderBook
  import opened OrderBookRuns
  import opened ConsumerBook
  import opened Exchange
  import opened BookRefinement

  ghost predicate BookIsExact(discard: Discard, w: World) {
    WellFormed(w.x) && w.book == Project(discard, w.x)
  }

  ghost predicate IsGaplessRun(discard: Discard, w: World, ws: seq<World>, hs: seq<Happening>) {
    IsRun(discard, map[], ws, hs) && ws[0] == w && forall h :: h in hs ==> Gapless(h)
  }

  /** However the exchange goes on, as long as nothing is missed, rejected or disconnected, the consumer's
      book is the exchange's book by price. */
  ghost predicate ExactForEver(discard: Discard, w: World) {
    forall ws, hs :: IsGaplessRun(discard, w, ws, hs) ==> BookIsExact(discard, Last(ws))
  }

  // ---- an exact world stays exact ----

  lemma {:induction false} ExactStays(discard: Discard, ws: seq<World>, hs: seq<Happening>, n: nat)
    requires IsRun(discard, map[], ws, hs) && n <= |hs| && forall h :: h in hs ==> Gapless(h)
    requires ws[0].latch && Exact(discard, ws[0])
    ensures ws[n].latch && Exact(discard, ws[n])
  {
    if n > 0 {
      ExactStays(discard, ws, hs, n - 1);
      var w, h, w' := ws[n - 1], hs[n - 1], ws[n];
      assert h in hs && Legal(map[], w, h) && Next(discard, w, h, ws[n - 1 + 1]);
      if IsPartial(h) {
        GaplessPartial(discard, w, h, w');
      } else if h.Feed? {
        GaplessIncremental(discard, w, h, w');
      }
    }
  }

  lemma ExactIsForEver(discard: Discard, w: World)
    requires w.latch && Exact(discard, w)
    ensures ExactForEver(discard, w)
  {
    forall ws, hs | IsGaplessRun(discard, w, ws, hs) ensures BookIsExact(discard, Last(ws)) {
      ExactStays(discard, ws, hs, |hs|);
      ExactIsInSync(discard, Last(ws));
    }
  }

  // ---- one message further ----

  lemma ForEverNow(discard: Discard, w: World)
    requires ExactForEver(discard, w)
    ensures BookIsExact(discard, w)
  {
    assert IsGaplessRun(discard, w, [w], []);
    assert Last([w]) == w;
  }

  lemma RunPrepends(discard: Discard, w: World, h: Happening, ws: seq<World>, hs: seq<Happening>)
    requires IsRun(discard, map[], ws, hs)
    requires Legal(map[], w, h) && Next(discard, w, h, ws[0])
    ensures IsRun(discard, map[], [w] + ws, [h] + hs) && Last([w] + ws) == Last(ws)
  {
    var ws', hs' := [w] + ws, [h] + hs;
    forall i | 0 <= i < |hs'| ensures Legal(map[], ws'[i], hs'[i]) && Next(discard, ws'[i], hs'[i], ws'[i + 1]) {
      if i > 0 {
        assert Legal(map[], ws[i - 1], hs[i - 1]) && Next(discard, ws[i - 1], hs[i - 1], ws[i - 1 + 1]);
      }
    }
  }

  lemma ForEverStep(discard: Discard, w: World, h: Happening, w': World)
    requires ExactForEver(discard, w) && Legal(map[], w, h) && Next(discard, w, h, w') && Gapless(h)
    ensures ExactForEver(discard, w')
  {
    forall ws, hs | IsGaplessRun(discard, w', ws, hs) ensures BookIsExact(discard, Last(ws)) {
      RunPrepends(discard, w, h, ws, hs);
      assert forall g :: g in [h] + hs ==> Gapless(g);
      assert IsGaplessRun(discard, w, [w] + ws, [h] + hs);
    }
  }

  /** The world after a message that is delivered and whose publications are all accepted. */
  function Fed(discard: Discard, w: World, action: Action, items: seq<Level>): World {
    var step := OnMessage(discard, w.latch, w.prices, action, items, {});
    World(if action == Partial then w.x else ExchangeAfter(w.x, action, items), step.latch, step.prices,
          ApplyAll(w.book, step.published))
  }

  lemma ForEverFed(discard: Discard, w: World, action: Action, items: seq<Level>)
    requires ExactForEver(discard, w) && action != Partial && LegalItems(w.x, map[], action, items)
    ensures ExactForEver(discard, Fed(discard, w, action, items))
  {
    ForEverStep(discard, w, Feed(action, items, {}), Fed(discard, w, action, items));
  }

  /** What a message of one item leaves behind. */
  lemma OneItem(discard: Discard, w: World, action: Action, item: Level)
    requires w.latch && action != Partial
    ensures var s := ScanItem(discard, action, Scan(w.prices, [], None), item);
      && ScanItems(discard, action, w.prices, [item]) == s
      && Fed(discard, w, action, [item]).latch && Fed(discard, w, action, [item]).prices == s.prices
      && Fed(discard, w, action, [item]).x == ExchangeItem(w.x, action, item)
  {
    assert DropLast([item]) == [];
    assert ScanItems(discard, action, w.prices, []) == Scan(w.prices, [], None);
    assert ExchangeAfter(w.x, action, []) == w.x;
  }

  lemma OneEntrySets(discard: Discard, book: Book, e: Entry)
    requires Faithful(discard, [e]) && e.symbol != "" && e.quote.Some?
    ensures ApplyAll(book, PublishAll(discard, false, Segments([e]))) == SetLevel(book, SlotOf(e), e.quote.value.size)
  {
    PublicationsAreLevelwise(discard, false, book, [e]);
    ApplyEntriesGrow(book, false, [], e);
    assert [] + [e] == [e];
  }

  /** A level whose price is resolved sets that price and no other. */
  lemma OneItemSets(discard: Discard, w: World, action: Action, item: Level, e: Entry)
    requires w.latch && action != Partial && item.symbol != ""
    requires ScanItem(discard, action, Scan(w.prices, [], None), item).halt.None?
    requires ScanItem(discard, action, Scan(w.prices, [], None), item).entries == [e]
    requires e.symbol == item.symbol && e.quote.Some?
    ensures Fed(discard, w, action, [item]).book == SetLevel(w.book, SlotOf(e), e.quote.value.size)
  {
    OneItem(discard, w, action, item);
    ScanKeepsItems(discard, action, w.prices, [item]);
    OneEntrySets(discard, w.book, e);
  }

  /** A level whose price is not resolved closes the socket and publishes nothing. */
  lemma OneItemCloses(discard: Discard, w: World, action: Action, item: Level)
    requires w.latch && action != Partial
    requires ScanItem(discard, action, Scan(w.prices, [], None), item).halt.Some?
    requires ScanItem(discard, action, Scan(w.prices, [], None), item).entries == []
    ensures Fed(discard, w, action, [item]).book == w.book
  {
    OneItem(discard, w, action, item);
    var e := Entry(item.symbol, None);
    assert [] + [e] == [e] && DropLast([e]) == [];
    assert Finished([], item) == [];
  }

  // ---- a cache that is not exact misleads ----

  /** The update that makes a live level one larger, without naming its price. */
  function Larger(id: Id, l: Live): Level {
    Level(l.symbol, id, l.side, None, Some(l.size + 1.0), 0)
  }

  lemma LargerLeavesSlot(discard: Discard, w: World, id: Id)
    requires w.latch && WellFormed(w.x) && Kept(discard, w.x, id)
    requires id in w.prices ==> w.prices[id] != w.x[id].price
    ensures var slot, book := LiveSlot(w.x[id]), Fed(discard, w, Update, [Larger(id, w.x[id])]).book;
      (slot in book <==> slot in w.book) && (slot in book ==> book[slot] == w.book[slot])
  {
    var l := w.x[id];
    var item := Larger(id, l);
    if id in w.prices {
      var e := Entry(l.symbol, Some(Quote(l.side, w.prices[id], l.size + 1.0, 0)));
      OneItemSets(discard, w, Update, item, e);
      assert SlotOf(e) != LiveSlot(l);
    } else {
      OneItemCloses(discard, w, Update, item);
    }
  }

  lemma LargerIsMissed(discard: Discard, w: World, id: Id)
    requires w.latch && BookIsExact(discard, w) && Kept(discard, w.x, id)
    requires id in w.prices ==> w.prices[id] != w.x[id].price
    ensures !BookIsExact(discard, Fed(discard, w, Update, [Larger(id, w.x[id])]))
  {
    var l := w.x[id];
    var w' := Fed(discard, w, Update, [Larger(id, l)]);
    OneItem(discard, w, Update, Larger(id, l));
    LegalItemKeepsWellFormed(w.x, map[], Update, Larger(id, l));
    LargerLeavesSlot(discard, w, id);
    ProjectIsProjection(discard, w.x);
    ProjectIsProjection(discard, w'.x);
    assert w.book[LiveSlot(l)] == l.size;
    assert Kept(discard, w'.x, id) && Project(discard, w'.x)[LiveSlot(l)] == l.size + 1.0;
  }

  /** A kept live level that is not cached at its price: its next update goes astray or closes the socket. */
  lemma UncoveredMisleads(discard: Discard, w: World, id: Id)
    requires w.latch && WellFormed(w.x) && Kept(discard, w.x, id)
    requires id in w.prices ==> w.prices[id] != w.x[id].price
    ensures !ExactForEver(discard, w)
  {
    if ExactForEver(discard, w) {
      var item := Larger(id, w.x[id]);
      ForEverNow(discard, w);
      LargerIsMissed(discard, w, id);
      OneLegalItem(w.x, Update, item);
      ForEverFed(discard, w, Update, [item]);
      ForEverNow(discard, Fed(discard, w, Update, [item]));
    }
  }

  lemma {:induction false} Above(prices: set<real>) returns (p: real)
    ensures forall q :: q in prices ==> q < p
  {
    p := 0.0;
    if q :| q in prices {
      var r := Above(prices - {q});
      p := if q < r then r else q + 1.0;
      assert forall s :: s in prices ==> s == q || s in prices - {q};
    }
  }

  /** A price that no live level has, nor the given one. */
  lemma FreePrice(x: LiveBook, taken: real) returns (p: real)
    ensures p != taken && forall id :: id in x ==> x[id].price != p
  {
    var prices := set id | id in x :: x[id].price;
    p := Above(prices + {taken});
    forall id | id in x ensures x[id].price != p {
      assert x[id].price in prices;
    }
  }

  /** A cached id that is not live can come back at any free price, and is then uncovered. */
  lemma DeadMisleads(discard: Discard, w: World, id: Id, symbol: string)
    requires w.latch && WellFormed(w.x) && symbol != "" && !discard(symbol)
    requires id in w.prices && id !in w.x
    ensures !ExactForEver(discard, w)
  {
    if ExactForEver(discard, w) {
      var p := FreePrice(w.x, w.prices[id]);
      var item := Level(symbol, id, Buy, Some(p), Some(1.0), 0);
      var w' := Fed(discard, w, Insert, [item]);
      OneLegalItem(w.x, Insert, item);
      ForEverFed(discard, w, Insert, [item]);
      OneItem(discard, w, Insert, item);
      LegalItemKeepsWellFormed(w.x, map[], Insert, item);
      assert Kept(discard, w'.x, id) && w'.prices == w.prices && w'.x[id].price == p;
      UncoveredMisleads(discard, w', id);
    }
  }

  /** A cached id that is live on a discarded symbol can be deleted unseen, and is then dead. */
  lemma DiscardedMisleads(discard: Discard, w: World, id: Id, symbol: string)
    requires w.latch && WellFormed(w.x) && symbol != "" && !discard(symbol)
    requires id in w.prices && id in w.x && discard(w.x[id].symbol)
    ensures !ExactForEver(discard, w)
  {
    if ExactForEver(discard, w) {
      var item := Level(w.x[id].symbol, id, w.x[id].side, None, None, 0);
      OneLegalItem(w.x, Delete, item);
      ForEverFed(discard, w, Delete, [item]);
      OneItem(discard, w, Delete, item);
      LegalItemKeepsWellFormed(w.x, map[], Delete, item);
      DeadMisleads(discard, Fed(discard, w, Delete, [item]), id, symbol);
    }
  }

  lemma ForEverCovers(discard: Discard, w: World)
    requires w.latch && WellFormed(w.x) && ExactForEver(discard, w)
    ensures Covers(discard, w.x, w.prices)
  {
    forall id | Kept(discard, w.x, id) ensures id in w.prices && w.prices[id] == w.x[id].price {
      if id !in w.prices || w.prices[id] != w.x[id].price {
        UncoveredMisleads(discard, w, id);
      }
    }
  }

  lemma ForEverSound(discard: Discard, w: World, symbol: string)
    requires w.latch && WellFormed(w.x) && symbol != "" && !discard(symbol)
    requires ExactForEver(discard, w)
    ensures Sound(discard, w.x, w.prices, map[])
  {
    ForEverCovers(discard, w);
    forall id | id in w.prices ensures Kept(discard, w.x, id) && w.prices[id] == w.x[id].price {
      if id !in w.x {
        DeadMisleads(discard, w, id, symbol);
      } else if discard(w.x[id].symbol) {
        DiscardedMisleads(discard, w, id, symbol);
      }
    }
  }

  lemma InSyncExactlyWhen(discard: Discard, w: World)
    requires w.latch && WellFormed(w.x)
    ensures InSync(discard, w) <==>
            w.book == Project(discard, w.x) && Covers(discard, w.x, w.prices) && Sound(discard, w.x, w.prices, map[])
  {
    if Covers(discard, w.x, w.prices) && Sound(discard, w.x, w.prices, map[]) {
      CacheIsExact(discard, w.x, w.prices);
    }
  }

  lemma ForEverIsInSync(discard: Discard, w: World, symbol: string)
    requires w.latch && WellFormed(w.x) && symbol != "" && !discard(symbol) && ExactForEver(discard, w)
    ensures InSync(discard, w)
  {
    ForEverNow(discard, w);
    ForEverCovers(discard, w);
    ForEverSound(discard, w, symbol);
    InSyncExactlyWhen(discard, w);
  }

  lemma InSyncIsExact(discard: Discard, w: World)
    requires InSync(discard, w)
    ensures Exact(discard, w)
  {
    InSyncExactlyWhen(discard, w);
    var exact := Project(discard, w.x);
    forall symbol ensures SameFor(w.book, exact, symbol) {
      EqualIsSame(w.book, exact, symbol);
    }
  }

  lemma EqualIsSame(a: Book, b: Book, symbol: string)
    requires a == b
    ensures SameFor(a, b, symbol)
  {
  }

  lemma InSyncIsForEver(discard: Discard, w: World)
    requires InSync(discard, w)
    ensures ExactForEver(discard, w)
  {
    InSyncIsExact(discard, w);
    ExactIsForEver(discard, w);
  }

  /** With an open latch, and if any symbol is kept at all, the books stay exact over every gapless run
      exactly when they are exact now and the cache is exactly the kept live ids with their prices. */
  lemma ExactForEverExactlyWhen(discard: Discard, w: World, symbol: string)
    requires w.latch && WellFormed(w.x) && symbol != "" && !discard(symbol)
    ensures ExactForEver(discard, w) <==> InSync(discard, w)
  {
    if InSync(discard, w) {
      InSyncIsForEver(discard, w);
    } else if ExactForEver(discard, w) {
      ForEverIsInSync(discard, w, symbol);
    }
  }

  // ---- after a partial ----

  /** The cache after a partial is exactly the kept live levels if and only if the cache before it held
      nothing else. */
  lemma PartialCacheExactlyWhen(discard: Discard, prices: Prices, items: seq<Level>)
    requires LegalItems(map[], map[], Insert, items)
    ensures var x, after := Listed(items), ScanItems(discard, Partial, prices, items).prices;
      Covers(discard, x, after) && Sound(discard, x, after, map[]) <==> Sound(discard, x, prices, map[])
  {
    PartialScan(discard, map[], prices, items);
  }

  /** The consumer had nothing but kept symbols that the partial mentions. */
  ghost predicate IsReplaced(discard: Discard, items: seq<Level>, book: Book) {
    forall slot :: slot in book ==> Mentions(items, slot.symbol) && !discard(slot.symbol)
  }

  ghost predicate IsReplacedFor(discard: Discard, items: seq<Level>, book: Book, symbol: string) {
    (Mentions(items, symbol) && !discard(symbol)) || forall slot :: slot in book ==> slot.symbol != symbol
  }

  lemma ReplacedBySymbol(discard: Discard, items: seq<Level>, book: Book)
    ensures IsReplaced(discard, items, book) <==> forall symbol :: IsReplacedFor(discard, items, book, symbol)
  {
    if forall symbol :: IsReplacedFor(discard, items, book, symbol) {
      forall slot | slot in book ensures Mentions(items, slot.symbol) && !discard(slot.symbol) {
        assert IsReplacedFor(discard, items, book, slot.symbol);
      }
    }
  }

  lemma SameBySymbol(a: Book, b: Book)
    ensures a == b <==> forall symbol :: SameFor(a, b, symbol)
  {
    if forall symbol :: SameFor(a, b, symbol) {
      SameForAll(a, b);
    }
  }

  lemma SymbolAfterPartial(discard: Discard, latch: bool, prices: Prices, book: Book, items: seq<Level>, symbol: string)
    requires LegalItems(map[], map[], Insert, items) && Contiguous(items) && WellFormed(Listed(items))
    ensures var after := ApplyAll(book, OnMessage(discard, latch, prices, Partial, items, {}).published);
      SameFor(after, Project(discard, Listed(items)), symbol) <==> IsReplacedFor(discard, items, book, symbol)
  {
    if Mentions(items, symbol) && !discard(symbol) {
      MentionedPartial(discard, map[], latch, prices, book, items, {}, symbol);
    } else {
      OthersPartial(discard, map[], latch, prices, book, items, {}, symbol);
      NothingProjected(discard, map[], items, symbol);
      SameAsNothing(book, ApplyAll(book, OnMessage(discard, latch, prices, Partial, items, {}).published),
                    Project(discard, Listed(items)), symbol);
    }
  }

  lemma SameExactlyWhenReplaced(discard: Discard, items: seq<Level>, book: Book, after: Book, exact: Book)
    requires forall symbol :: SameFor(after, exact, symbol) <==> IsReplacedFor(discard, items, book, symbol)
    ensures after == exact <==> IsReplaced(discard, items, book)
  {
    SameBySymbol(after, exact);
    ReplacedBySymbol(discard, items, book);
  }

  /** All books are exact after a partial if and only if it replaced all that the consumer had. */
  lemma PartialBooksExactlyWhen(discard: Discard, latch: bool, prices: Prices, book: Book, items: seq<Level>)
    requires LegalItems(map[], map[], Insert, items) && Contiguous(items) && WellFormed(Listed(items))
    ensures (ApplyAll(book, OnMessage(discard, latch, prices, Partial, items, {}).published) ==
             Project(discard, Listed(items)))
       <==> IsReplaced(discard, items, book)
  {
    var after := ApplyAll(book, OnMessage(discard, latch, prices, Partial, items, {}).published);
    var exact := Project(discard, Listed(items));
    forall symbol
      ensures SameFor(after, exact, symbol) <==> IsReplacedFor(discard, items, book, symbol)
    {
      SymbolAfterPartial(discard, latch, prices, book, items, symbol);
    }
    SameExactlyWhenReplaced(discard, items, book, after, exact);
  }

  lemma FedPartial(discard: Discard, w: World, items: seq<Level>)
    requires Lists(map[], items, w.x)
    ensures var w' := Fed(discard, w, Partial, items);
      && WellFormed(w.x) && w'.x == w.x && w'.latch
      && w'.prices == ScanItems(discard, Partial, w.prices, items).prices
      && w'.book == ApplyAll(w.book, OnMessage(discard, w.latch, w.prices, Partial, items, {}).published)
  {
    LegalKeepsWellFormed(map[], map[], Insert, items);
    PartialCompletes(discard, map[], w.latch, w.prices, items, {});
  }

  /** A partial brings gateway and consumer in step with the exchange exactly under that condition. */
  lemma InSyncAfterPartialExactlyWhen(discard: Discard, w: World, items: seq<Level>)
    requires Lists(map[], items, w.x)
    ensures InSync(discard, Fed(discard, w, Partial, items)) <==>
            Sound(discard, w.x, w.prices, map[]) && IsReplaced(discard, items, w.book)
  {
    FedPartial(discard, w, items);
    PartialCacheExactlyWhen(discard, w.prices, items);
    PartialBooksExactlyWhen(discard, w.latch, w.prices, w.book, items);
    InSyncExactlyWhen(discard, Fed(discard, w, Partial, items));
  }

  /** Recovery: from any state of the gateway and the consumer, a partial makes the books exact and every
      gapless run from it keeps them exact if and only if, before the partial, each cached id was that of a
      live level of a kept symbol at its price, and each symbol the consumer had was a kept one that the
      partial mentions. */
  lemma RecoveryExactlyWhen(discard: Discard, w: World, items: seq<Level>, symbol: string)
    requires Lists(map[], items, w.x) && symbol != "" && !discard(symbol)
    ensures ExactForEver(discard, Fed(discard, w, Partial, items))
       <==> Sound(discard, w.x, w.prices, map[]) && IsReplaced(discard, items, w.book)
  {
    FedPartial(discard, w, items);
    ExactForEverExactlyWhen(discard, Fed(discard, w, Partial, items), symbol);
    InSyncAfterPartialExactlyWhen(discard, w, items);
  }

  // ---- concrete messages ----

  const DEAD: Prices := map[2 := 10.0]
  const INSERTED := Level("XBTUSD", 2, Buy, Some(12.0), Some(5.0), 0)
  const ENLARGED := Level("XBTUSD", 2, Buy, None, Some(6.0), 0)

  lemma DeadMessagesAreLegal()
    ensures Lists(map[], [LISTED], Listed([LISTED]))
    ensures LegalItems(Listed([LISTED]), map[], Insert, [INSERTED])
    ensures LegalItems(ExchangeAfter(Listed([LISTED]), Insert, [INSERTED]), map[], Update, [ENLARGED])
  {
    StaleMessagesAreLegal();
    assert DropLast([LISTED]) == [] && DropLast([INSERTED]) == [];
    var x := Listed([LISTED]);
    assert x == map[1 := Live("XBTUSD", Buy, 11.0, 5.0)];
    OneLegalItem(x, Insert, INSERTED);
    assert ExchangeAfter(x, Insert, []) == x;
    assert ExchangeAfter(x, Insert, [INSERTED]) == x[2 := Live("XBTUSD", Buy, 12.0, 5.0)];
    OneLegalItem(ExchangeAfter(x, Insert, [INSERTED]), Update, ENLARGED);
  }

  /** The partial may be exact and leave the cache covering, and the books still go astray later: an id that
      is cached without being live comes back at another price, and its update is published at the old one. */
  lemma DeadPriceMisleads(discard: Discard)
    requires !discard("XBTUSD")
    ensures Compatible(discard, DEAD, [LISTED]) && !Sound(discard, Listed([LISTED]), DEAD, map[])
    ensures LegalItems(Listed([LISTED]), map[], Insert, [INSERTED])
    ensures LegalItems(ExchangeAfter(Listed([LISTED]), Insert, [INSERTED]), map[], Update, [ENLARGED])
    ensures var partial := OnMessage(discard, false, DEAD, Partial, [LISTED], {});
      var insert := OnMessage(discard, true, partial.prices, Insert, [INSERTED], {});
      var update := OnMessage(discard, true, insert.prices, Update, [ENLARGED], {});
      && partial.published == [Publication("XBTUSD", [MBPUpdate(11.0, 5.0)], [], true, 0)]
      && insert.published == [Publication("XBTUSD", [MBPUpdate(12.0, 5.0)], [], false, 0)]
      && update.published == [Publication("XBTUSD", [MBPUpdate(10.0, 6.0)], [], false, 0)]
  {
    DeadMessagesAreLegal();
    assert DropLast([LISTED]) == [] && 2 !in Listed([LISTED]) && 2 in DEAD;
    OneLevelMessage(discard, false, DEAD, Partial, LISTED, {});
    var cached := DEAD[1 := 11.0];
    OneLevelMessage(discard, true, cached, Insert, INSERTED, {});
    OneLevelMessage(discard, true, cached, Update, ENLARGED, {});
  }

  /** A partial that lists nothing leaves the consumer's stale book where it was. */
  lemma SilentSymbolKeepsBook(discard: Discard, latch: bool, prices: Prices)
    ensures var book := map[Slot("XBTUSD", Buy, 10.0) := 5.0];
      && Lists(map[], [], map[]) && WellFormed(Listed([]))
      && !ExactFor(discard, Listed([]), ApplyAll(book, OnMessage(discard, latch, prices, Partial, [], {}).published),
                   "XBTUSD")
  {
    var book := map[Slot("XBTUSD", Buy, 10.0) := 5.0];
    SilentSymbolExactlyWhen(discard, map[], latch, prices, book, [], "XBTUSD");
    assert Slot("XBTUSD", Buy, 10.0) in book;
  }
}

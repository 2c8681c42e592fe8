/** The exchange's order book, keyed by level id, and what one well-formed message does to it, to the
    price cache and to the consumer's book. */
module Exchange {
  import opened Common
  import opened PriceCaching
  import opened OrderBook
  import opened OrderBookRuns
  import opened ConsumerBook

  datatype Live = Live(symbol: string, side: Side, price: real, size: real)

  /** The live levels. An id is live on one symbol and side at a time. */
  type LiveBook = map<Id, Live>

  function LiveSlot(l: Live): Slot {
    Slot(l.symbol, l.side, l.price)
  }

  ghost predicate WellFormed(x: LiveBook) {
    && (forall id :: id in x ==> x[id].symbol != "" && x[id].side != UnknownSide && x[id].size > 0.0)
    && (forall i, j :: i in x && j in x && LiveSlot(x[i]) == LiveSlot(x[j]) ==> i == j)
  }

  ghost predicate Kept(discard: Discard, x: LiveBook, id: Id) {
    id in x && !discard(x[id].symbol)
  }

  /** The exchange's book as a consumer should see it: by price, without the discarded symbols. */
  ghost function Project(discard: Discard, x: LiveBook): Book
    requires WellFormed(x)
  {
    map id | id in x && !discard(x[id].symbol) :: LiveSlot(x[id]) := x[id].size
  }

  // ---- what the exchange sends ----

  function ExchangeItem(x: LiveBook, action: Action, item: Level): LiveBook {
    match action
    case Insert =>
      if item.price.Some? && item.size.Some? then
        x[item.id := Live(item.symbol, item.side, item.price.value, item.size.value)]
      else x
    case Update =>
      if item.id in x && item.size.Some? then x[item.id := x[item.id].(size := item.size.value)] else x
    case Delete => x - {item.id}
    case _ => x
  }

  function ExchangeAfter(x: LiveBook, action: Action, items: seq<Level>): LiveBook {
    if items == [] then x else ExchangeItem(ExchangeAfter(x, action, DropLast(items)), action, Last(items))
  }

  /** An item the exchange may send. `fixed` lists ids whose price never changes, whenever they are live. */
  ghost predicate LegalItem(x: LiveBook, fixed: Prices, action: Action, item: Level) {
    match action
    case Insert =>
      && item.symbol != "" && item.side != UnknownSide
      && item.price.Some? && item.size.Some? && item.size.value > 0.0
      && item.id !in x
      && (forall id :: id in x ==> LiveSlot(x[id]) != Slot(item.symbol, item.side, item.price.value))
      && (item.id in fixed ==> fixed[item.id] == item.price.value)
    case Update =>
      && item.id in x && x[item.id].symbol == item.symbol && x[item.id].side == item.side
      && item.size.Some? && item.size.value > 0.0
    case Delete =>
      && item.id in x && x[item.id].symbol == item.symbol && x[item.id].side == item.side
      && (item.size.None? || item.size.value == 0.0)
    case _ => false
  }

  ghost predicate LegalItems(x: LiveBook, fixed: Prices, action: Action, items: seq<Level>) {
    items == [] ||
    (LegalItems(x, fixed, action, DropLast(items))
     && LegalItem(ExchangeAfter(x, action, DropLast(items)), fixed, action, Last(items)))
  }

  /** A symbol's levels stand together. */
  ghost predicate Contiguous(items: seq<Level>) {
    forall i, j :: 0 <= i < j < |items| && items[i].symbol == items[j].symbol ==> items[j - 1].symbol == items[j].symbol
  }

  function Listed(items: seq<Level>): LiveBook {
    ExchangeAfter(map[], Insert, items)
  }

  /** A partial lists the live levels, each once, symbol by symbol. */
  ghost predicate Lists(fixed: Prices, items: seq<Level>, x: LiveBook) {
    LegalItems(map[], fixed, Insert, items) && Contiguous(items) && Listed(items) == x
  }

  lemma {:induction false} LegalKeepsWellFormed(x: LiveBook, fixed: Prices, action: Action, items: seq<Level>)
    requires WellFormed(x) && LegalItems(x, fixed, action, items)
    ensures WellFormed(ExchangeAfter(x, action, items))
    ensures forall item :: item in items ==> item.symbol != ""
  {
    if items != [] {
      LegalKeepsWellFormed(x, fixed, action, DropLast(items));
    }
  }

  // ---- the cache ----

  /** Every kept live level is cached at its price. */
  ghost predicate Covers(discard: Discard, x: LiveBook, prices: Prices) {
    forall id :: Kept(discard, x, id) ==> id in prices && prices[id] == x[id].price
  }

  /** Nothing else is cached, but for ids whose price is fixed. */
  ghost predicate Sound(discard: Discard, x: LiveBook, prices: Prices, fixed: Prices) {
    forall id :: id in prices ==>
      || (Kept(discard, x, id) && prices[id] == x[id].price)
      || (id in fixed && prices[id] == fixed[id])
  }

  /** Without fixed ids, a sound and covering cache is exactly the kept live levels. */
  lemma CacheIsExact(discard: Discard, x: LiveBook, prices: Prices)
    requires Covers(discard, x, prices) && Sound(discard, x, prices, map[])
    ensures prices == map id | id in x && !discard(x[id].symbol) :: x[id].price
  {
    forall id ensures id in prices <==> Kept(discard, x, id) {
    }
  }

  // ---- an incremental message ----

  ghost predicate IsProjection(discard: Discard, x: LiveBook, b: Book) {
    && (forall id :: Kept(discard, x, id) ==> LiveSlot(x[id]) in b && b[LiveSlot(x[id])] == x[id].size)
    && (forall slot :: slot in b ==> exists id :: Kept(discard, x, id) && LiveSlot(x[id]) == slot)
  }

  lemma ProjectIsProjection(discard: Discard, x: LiveBook)
    requires WellFormed(x)
    ensures IsProjection(discard, x, Project(discard, x))
  {
    var b := Project(discard, x);
    forall slot | slot in b ensures exists id :: Kept(discard, x, id) && LiveSlot(x[id]) == slot {
      var id :| id in x && !discard(x[id].symbol) && LiveSlot(x[id]) == slot;
      assert Kept(discard, x, id);
    }
  }

  lemma ProjectionIsProject(discard: Discard, x: LiveBook, b: Book)
    requires WellFormed(x) && IsProjection(discard, x, b)
    ensures b == Project(discard, x)
  {
    ProjectIsProjection(discard, x);
    var a := Project(discard, x);
    forall slot: Slot ensures (slot in a <==> slot in b) && (slot in a ==> a[slot] == b[slot]) {
    }
  }

  /** Putting a level under a new slot, or again under its old one. */
  lemma PutProjects(discard: Discard, x: LiveBook, id: Id, l: Live, a: Book, b: Book)
    requires forall i :: i in x && i != id ==> LiveSlot(x[i]) != LiveSlot(l)
    requires id in x ==> LiveSlot(x[id]) == LiveSlot(l)
    requires IsProjection(discard, x, a) && b == if discard(l.symbol) then a else a[LiveSlot(l) := l.size]
    ensures IsProjection(discard, x[id := l], b)
  {
    var x' := x[id := l];
    forall i | Kept(discard, x', i) ensures LiveSlot(x'[i]) in b && b[LiveSlot(x'[i])] == x'[i].size {
      assert i != id ==> Kept(discard, x, i);
    }
    forall slot | slot in b ensures exists i :: Kept(discard, x', i) && LiveSlot(x'[i]) == slot {
      if slot in a {
        var i :| Kept(discard, x, i) && LiveSlot(x[i]) == slot;
        assert Kept(discard, x', i) && LiveSlot(x'[i]) == slot;
      } else {
        assert Kept(discard, x', id);
      }
    }
  }

  lemma RemoveProjects(discard: Discard, x: LiveBook, id: Id, a: Book, b: Book)
    requires id in x && forall i :: i in x && i != id ==> LiveSlot(x[i]) != LiveSlot(x[id])
    requires IsProjection(discard, x, a) && b == if discard(x[id].symbol) then a else a - {LiveSlot(x[id])}
    ensures IsProjection(discard, x - {id}, b)
  {
    var x' := x - {id};
    forall i | Kept(discard, x', i) ensures LiveSlot(x'[i]) in b && b[LiveSlot(x'[i])] == x'[i].size {
      assert Kept(discard, x, i);
    }
    forall slot | slot in b ensures exists i :: Kept(discard, x', i) && LiveSlot(x'[i]) == slot {
      var i :| Kept(discard, x, i) && LiveSlot(x[i]) == slot;
      assert Kept(discard, x', i) && LiveSlot(x'[i]) == slot;
    }
  }

  lemma LegalItemKeepsWellFormed(x: LiveBook, fixed: Prices, action: Action, item: Level)
    requires WellFormed(x) && LegalItem(x, fixed, action, item)
    ensures WellFormed(ExchangeItem(x, action, item))
  {
    var x' := ExchangeItem(x, action, item);
    assert forall id :: id in x' && id != item.id ==> id in x && x'[id] == x[id];
  }

  /** The level by which the projected book changes. */
  function Changed(x: LiveBook, action: Action, item: Level): Live
    requires action == Delete ==> item.id in x
    requires action != Delete ==> item.id in ExchangeItem(x, action, item)
  {
    if action == Delete then x[item.id].(size := 0.0) else ExchangeItem(x, action, item)[item.id]
  }

  /** An item resolves to the level's price. */
  lemma ItemResolves(discard: Discard, fixed: Prices, x: LiveBook, action: Action, s: Scan, item: Level)
    requires WellFormed(x) && s.halt.None? && LegalItem(x, fixed, action, item)
    requires Covers(discard, x, s.prices)
    ensures var t := ScanItem(discard, action, s, item);
      && t.halt.None?
      && t.prices == (if discard(item.symbol) then s.prices else PricesAfter(s.prices, RequestOf(action, item)))
      && t.entries == s.entries + [Entry(item.symbol,
           if discard(item.symbol) then None
           else var l := Changed(x, action, item);
                Some(Quote(l.side, l.price, l.size, item.timestamp)))]
  {
    assert action != Insert && !discard(item.symbol) ==> Kept(discard, x, item.id);
  }

  /** The cache follows the exchange. */
  lemma CacheFollows(discard: Discard, fixed: Prices, x: LiveBook, action: Action, prices: Prices, item: Level)
    requires LegalItem(x, fixed, action, item)
    requires Covers(discard, x, prices) && Sound(discard, x, prices, fixed)
    ensures var x', after := ExchangeItem(x, action, item), if discard(item.symbol) then prices
                                                            else PricesAfter(prices, RequestOf(action, item));
      Covers(discard, x', after) && Sound(discard, x', after, fixed)
  {
    var x', after := ExchangeItem(x, action, item), if discard(item.symbol) then prices
                                                    else PricesAfter(prices, RequestOf(action, item));
    assert forall id :: id != item.id ==> (id in x' <==> id in x) && (id in x ==> x'[id] == x[id]);
    assert forall id :: id != item.id ==> (id in after <==> id in prices) && (id in prices ==> after[id] == prices[id]);
    forall id ensures Kept(discard, x', id) ==> id in after && after[id] == x'[id].price {
      assert id != item.id ==> (Kept(discard, x', id) <==> Kept(discard, x, id));
    }
    forall id | id in after
      ensures (Kept(discard, x', id) && after[id] == x'[id].price) || (id in fixed && after[id] == fixed[id])
    {
      assert id != item.id ==> (Kept(discard, x', id) <==> Kept(discard, x, id));
    }
  }

  lemma ItemProjects(discard: Discard, fixed: Prices, x: LiveBook, action: Action, item: Level, a: Book)
    requires WellFormed(x) && LegalItem(x, fixed, action, item) && IsProjection(discard, x, a)
    ensures var l := Changed(x, action, item);
      IsProjection(discard, ExchangeItem(x, action, item),
                   if discard(item.symbol) then a else SetLevel(a, LiveSlot(l), l.size))
  {
    LegalItemKeepsWellFormed(x, fixed, action, item);
    if action == Delete {
      RemoveProjects(discard, x, item.id, a, if discard(item.symbol) then a else a - {LiveSlot(x[item.id])});
    } else {
      var l := Changed(x, action, item);
      assert l.size > 0.0 && ExchangeItem(x, action, item) == x[item.id := l];
      PutProjects(discard, x, item.id, l, a, if discard(item.symbol) then a else a[LiveSlot(l) := l.size]);
    }
  }

  /** A scan that has followed the exchange so far. */
  ghost predicate Follows(discard: Discard, fixed: Prices, x: LiveBook, s: Scan, a: Book) {
    && s.halt.None? && WellFormed(x)
    && Covers(discard, x, s.prices) && Sound(discard, x, s.prices, fixed)
    && IsProjection(discard, x, ApplyEntries(a, false, s.entries))
  }

  lemma ItemFollows(discard: Discard, fixed: Prices, x: LiveBook, action: Action, s: Scan, item: Level, a: Book)
    requires Follows(discard, fixed, x, s, a) && LegalItem(x, fixed, action, item)
    ensures Follows(discard, fixed, ExchangeItem(x, action, item), ScanItem(discard, action, s, item), a)
  {
    LegalItemKeepsWellFormed(x, fixed, action, item);
    ItemResolves(discard, fixed, x, action, s, item);
    CacheFollows(discard, fixed, x, action, s.prices, item);
    ItemProjects(discard, fixed, x, action, item, ApplyEntries(a, false, s.entries));
    ApplyEntriesGrow(a, false, s.entries, Last(ScanItem(discard, action, s, item).entries));
  }

  /** An incremental message always resolves, keeps the cache covering and sound, and changes the
      projected book as it changes the exchange. */
  lemma {:induction false} IncrementalFollows(
    discard: Discard, fixed: Prices, x: LiveBook, action: Action, prices: Prices, items: seq<Level>, a: Book)
    requires LegalItems(x, fixed, action, items)
    requires Follows(discard, fixed, x, Scan(prices, [], None), a)
    ensures Follows(discard, fixed, ExchangeAfter(x, action, items), ScanItems(discard, action, prices, items), a)
  {
    if items != [] {
      var front := DropLast(items);
      IncrementalFollows(discard, fixed, x, action, prices, front, a);
      ItemFollows(discard, fixed, ExchangeAfter(x, action, front), action, ScanItems(discard, action, prices, front),
                  Last(items), a);
    }
  }

  // ---- a partial ----

  predicate Mentions(items: seq<Level>, symbol: string) {
    exists i :: 0 <= i < |items| && items[i].symbol == symbol
  }

  /** No listed level is cached at another price. */
  ghost predicate Compatible(discard: Discard, prices: Prices, items: seq<Level>) {
    forall i :: 0 <= i < |items| && !discard(items[i].symbol) && items[i].id in prices ==>
      items[i].price == Some(prices[items[i].id])
  }

  /** A listed level is live as listed. */
  lemma {:induction false} ListedItems(fixed: Prices, items: seq<Level>)
    requires LegalItems(map[], fixed, Insert, items)
    ensures forall i :: 0 <= i < |items| ==> var item := items[i];
              && item.id in Listed(items) && item.price.Some? && item.size.Some?
              && Listed(items)[item.id] == Live(item.symbol, item.side, item.price.value, item.size.value)
    ensures forall id :: id in Listed(items) ==> exists i :: 0 <= i < |items| && items[i].id == id
    ensures forall i :: 0 <= i < |items| && items[i].id in fixed ==> items[i].price == Some(fixed[items[i].id])
  {
    if items != [] {
      var front, item := DropLast(items), Last(items);
      ListedItems(fixed, front);
      assert items == front + [item];
      assert Listed(items) == Listed(front)[item.id := Live(item.symbol, item.side, item.price.value, item.size.value)];
    }
  }

  /** The entry of a listed item. */
  function ListedEntry(discard: Discard, item: Level): Entry
    requires item.price.Some? && item.size.Some?
  {
    Entry(item.symbol,
          if discard(item.symbol) then None
          else Some(Quote(item.side, item.price.value, item.size.value, item.timestamp)))
  }

  /** A listed item always resolves to its own price, and is cached unless its id is. */
  lemma ListedItemResolves(discard: Discard, fixed: Prices, x: LiveBook, s: Scan, item: Level)
    requires s.halt.None? && LegalItem(x, fixed, Insert, item)
    ensures ScanItem(discard, Partial, s, item) ==
            Scan(if discard(item.symbol) || item.id in s.prices then s.prices
                 else s.prices[item.id := item.price.value],
                 s.entries + [ListedEntry(discard, item)], None)
  {
  }

  /** A partial always resolves; it adds the kept listed ids that were not cached and changes nothing else. */
  lemma {:induction false} PartialScan(discard: Discard, fixed: Prices, prices: Prices, items: seq<Level>)
    requires LegalItems(map[], fixed, Insert, items)
    ensures var s, x := ScanItems(discard, Partial, prices, items), Listed(items);
      && s.halt.None?
      && (forall id :: id in s.prices <==> id in prices || Kept(discard, x, id))
      && (forall id :: id in prices ==> s.prices[id] == prices[id])
      && (forall id :: id in s.prices && id !in prices ==> id in x && s.prices[id] == x[id].price)
  {
    if items != [] {
      var front, item := DropLast(items), Last(items);
      PartialScan(discard, fixed, prices, front);
      ListedItemResolves(discard, fixed, Listed(front), ScanItems(discard, Partial, prices, front), item);
      assert Listed(items) == Listed(front)[item.id := Live(item.symbol, item.side, item.price.value, item.size.value)];
    }
  }

  /** After a partial the cache covers the exchange exactly when no kept listed level was cached at
      another price before: a stale price is never replaced. */
  lemma PartialCoversExactlyWhen(discard: Discard, fixed: Prices, prices: Prices, items: seq<Level>)
    requires LegalItems(map[], fixed, Insert, items)
    ensures Covers(discard, Listed(items), ScanItems(discard, Partial, prices, items).prices) <==>
            Compatible(discard, prices, items)
  {
    PartialScan(discard, fixed, prices, items);
    ListedItems(fixed, items);
    var x, after := Listed(items), ScanItems(discard, Partial, prices, items).prices;
    if Covers(discard, x, after) {
      forall i | 0 <= i < |items| && !discard(items[i].symbol) && items[i].id in prices
        ensures items[i].price == Some(prices[items[i].id])
      {
        assert Kept(discard, x, items[i].id);
      }
    }
    if Compatible(discard, prices, items) {
      forall id | Kept(discard, x, id) ensures id in after && after[id] == x[id].price {
        var i :| 0 <= i < |items| && items[i].id == id;
      }
    }
  }

  /** A sound cache is compatible with a listing of the live levels. */
  lemma SoundIsCompatible(discard: Discard, fixed: Prices, prices: Prices, items: seq<Level>)
    requires LegalItems(map[], fixed, Insert, items)
    requires Sound(discard, Listed(items), prices, fixed)
    ensures Compatible(discard, prices, items)
    ensures Sound(discard, Listed(items), ScanItems(discard, Partial, prices, items).prices, fixed)
  {
    PartialScan(discard, fixed, prices, items);
    ListedItems(fixed, items);
  }

  /** What the last item of a partial adds to the scan. */
  lemma PartialEntry(discard: Discard, fixed: Prices, prices: Prices, items: seq<Level>)
    requires LegalItems(map[], fixed, Insert, items) && items != []
    ensures var s, t, item :=
            ScanItems(discard, Partial, prices, DropLast(items)), ScanItems(discard, Partial, prices,
                                                                            items), Last(items);
      && (s.entries != [] ==> DropLast(items) != [] && Last(s.entries).symbol == Last(DropLast(items)).symbol)
      && |s.entries| == |items| - 1
      && item.price.Some? && item.size.Some? && t.entries == s.entries + [ListedEntry(discard, item)]
  {
    var front := DropLast(items);
    var s := ScanItems(discard, Partial, prices, front);
    PartialScan(discard, fixed, prices, front);
    ListedItemResolves(discard, fixed, Listed(front), s, Last(items));
    ScanKeepsItems(discard, Partial, prices, front);
    assert s.entries != [] ==> Keeps(s.entries[|s.entries| - 1], front[|s.entries| - 1]);
  }

  lemma ProjectedIsListed(discard: Discard, fixed: Prices, items: seq<Level>, a: Book, slot: Slot)
    requires LegalItems(map[], fixed, Insert, items) && IsProjection(discard, Listed(items), a) && slot in a
    ensures Mentions(items, slot.symbol) && !discard(slot.symbol)
  {
    ListedItems(fixed, items);
    var x := Listed(items);
    var id :| Kept(discard, x, id) && LiveSlot(x[id]) == slot;
    var i :| 0 <= i < |items| && items[i].id == id;
    assert items[i].symbol == slot.symbol;
  }

  /** When a symbol's stretch starts, none of its levels was listed before. */
  lemma NotListedYet(discard: Discard, fixed: Prices, front: seq<Level>, item: Level, a: Book)
    requires LegalItems(map[], fixed, Insert, front) && Contiguous(front + [item])
    requires front == [] || Last(front).symbol != item.symbol
    requires IsProjection(discard, Listed(front), a)
    ensures Without(a, item.symbol) == a
  {
    var items := front + [item];
    forall slot | slot in a ensures slot.symbol != item.symbol {
      ProjectedIsListed(discard, fixed, front, a, slot);
      var i :| 0 <= i < |front| && front[i].symbol == slot.symbol;
      assert items[i].symbol == slot.symbol && items[|front|] == item && items[|front| - 1] == Last(front);
    }
  }

  /** From an empty book, a partial's levels build the projection of what it lists. */
  lemma {:induction false} PartialTracks(discard: Discard, fixed: Prices, prices: Prices, items: seq<Level>)
    requires LegalItems(map[], fixed, Insert, items) && Contiguous(items)
    ensures WellFormed(Listed(items))
    ensures IsProjection(discard, Listed(items),
                         ApplyEntries(map[], true, ScanItems(discard, Partial, prices, items).entries))
  {
    if items != [] {
      var front := DropLast(items);
      PartialTracks(discard, fixed, prices, front);
      LegalItemKeepsWellFormed(Listed(front), fixed, Insert, Last(items));
      PartialItemTracks(discard, fixed, prices, items);
    }
  }

  /** How the last item of a partial changes the book that its levels build. */
  lemma PartialGrows(discard: Discard, fixed: Prices, prices: Prices, items: seq<Level>, before: Book)
    requires LegalItems(map[], fixed, Insert, items) && Contiguous(items) && items != []
    requires before == ApplyEntries(map[], true, ScanItems(discard, Partial, prices, DropLast(items)).entries)
    requires IsProjection(discard, Listed(DropLast(items)), before)
    ensures var item := Last(items);
      var after := ApplyEntries(map[], true, ScanItems(discard, Partial, prices, items).entries);
      && item.price.Some? && item.size.Some?
      && after == if discard(item.symbol) then before
                  else SetLevel(before, Slot(item.symbol, item.side, item.price.value), item.size.value)
  {
    var front, item := DropLast(items), Last(items);
    PartialEntry(discard, fixed, prices, items);
    assert items == front + [item];
    ApplyEntriesGrow(map[], true, ScanItems(discard, Partial, prices, front).entries, ListedEntry(discard, item));
    if front == [] || Last(front).symbol != item.symbol {
      NotListedYet(discard, fixed, front, item, before);
    }
  }

  lemma PartialItemTracks(discard: Discard, fixed: Prices, prices: Prices, items: seq<Level>)
    requires LegalItems(map[], fixed, Insert, items) && Contiguous(items) && items != []
    requires WellFormed(Listed(DropLast(items)))
    requires IsProjection(discard, Listed(DropLast(items)),
                          ApplyEntries(map[], true, ScanItems(discard, Partial, prices, DropLast(items)).entries))
    ensures IsProjection(discard, Listed(items),
                         ApplyEntries(map[], true, ScanItems(discard, Partial, prices, items).entries))
  {
    var before := ApplyEntries(map[], true, ScanItems(discard, Partial, prices, DropLast(items)).entries);
    PartialGrows(discard, fixed, prices, items, before);
    ItemProjects(discard, fixed, Listed(DropLast(items)), Insert, Last(items), before);
  }
}

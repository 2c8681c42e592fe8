/** What a partial does to a symbol whose levels do not stand together: each stretch is published as a
    snapshot of its own, so the last one replaces the others. */
module SplitPartials {
  import opened Common
  import opened PriceCaching
  import opened OrderBook
  import opened OrderBookRuns
  import opened ConsumerBook
  import opened Exchange
  import opened BookRefinement

  /** The levels of one symbol stand together. */
  ghost predicate Together(items: seq<Level>, symbol: string) {
    forall i, j :: 0 <= i < j < |items| && items[i].symbol == symbol && items[j].symbol == symbol ==>
      items[j - 1].symbol == symbol
  }

  /** Where the last stretch of a symbol starts. */
  function LastStretch(items: seq<Level>, symbol: string): (s: nat)
    ensures s <= |items|
  {
    if items == [] then
      0
    else
      var front := DropLast(items);
      if Last(items).symbol != symbol || (front != [] && Last(front).symbol == symbol) then
        LastStretch(front, symbol)
      else
        |front|
  }

  lemma {:induction false} TogetherExactlyWhen(items: seq<Level>, symbol: string)
    ensures Together(items, symbol) <==> forall i :: 0 <= i < LastStretch(items, symbol) ==> items[i].symbol != symbol
  {
    if items != [] {
      var front, item := DropLast(items), Last(items);
      assert items == front + [item];
      TogetherExactlyWhen(front, symbol);
      TogetherGrows(front, item, symbol);
    }
  }

  lemma TogetherGrows(front: seq<Level>, item: Level, symbol: string)
    ensures Together(front + [item], symbol) <==>
            Together(front, symbol) &&
            (item.symbol == symbol && !(front != [] && Last(front).symbol == symbol) ==> !Mentions(front, symbol))
  {
    var items := front + [item];
    assert items[|front|] == item && forall i :: 0 <= i < |front| ==> items[i] == front[i];
    if Together(items, symbol) {
      forall i, j | 0 <= i < j < |front| && front[i].symbol == symbol && front[j].symbol == symbol
        ensures front[j - 1].symbol == symbol
      {
        assert items[i].symbol == symbol && items[j].symbol == symbol;
      }
      if item.symbol == symbol && Mentions(front, symbol) {
        var i :| 0 <= i < |front| && front[i].symbol == symbol;
        assert items[i].symbol == symbol && items[|front|].symbol == symbol && items[|front| - 1] == Last(front);
      }
    }
  }

  function ItemSlot(item: Level): Slot
    requires item.price.Some?
  {
    Slot(item.symbol, item.side, item.price.value)
  }

  /** The book of a symbol consists of the listed levels from `s` on. */
  ghost predicate Builds(items: seq<Level>, s: nat, book: Book, symbol: string) {
    && (forall i :: s <= i < |items| && items[i].symbol == symbol ==>
          && items[i].price.Some? && ItemSlot(items[i]) in book
          && items[i].size == Some(book[ItemSlot(items[i])]))
    && (forall slot :: slot in book && slot.symbol == symbol ==>
          exists i :: s <= i < |items| && items[i].price.Some? && ItemSlot(items[i]) == slot)
  }

  /** No two listed levels have the same place in the book. */
  lemma {:induction false} SlotsDiffer(fixed: Prices, items: seq<Level>)
    requires LegalItems(map[], fixed, Insert, items)
    ensures forall i, j :: 0 <= i < j < |items| && items[i].price.Some? && items[j].price.Some? ==>
              ItemSlot(items[i]) != ItemSlot(items[j])
  {
    if items != [] {
      var front, item := DropLast(items), Last(items);
      SlotsDiffer(fixed, front);
      forall i | 0 <= i < |front|
        ensures front[i].price.Some? && item.price.Some? && ItemSlot(front[i]) != ItemSlot(item)
      {
        ListedItems(fixed, front);
        assert LiveSlot(Listed(front)[front[i].id]) == ItemSlot(front[i]);
      }
      assert items == front + [item];
    }
  }

  /** How a partial's book grows by one item. */
  lemma BookGrows(discard: Discard, fixed: Prices, prices: Prices, book: Book, items: seq<Level>)
    requires LegalItems(map[], fixed, Insert, items) && items != []
    ensures var front, item := DropLast(items), Last(items);
      var before := ApplyEntries(book, true, ScanItems(discard, Partial, prices, front).entries);
      && item.price.Some? && item.size.Some?
      && ApplyEntries(book, true, ScanItems(discard, Partial, prices, items).entries) ==
         if discard(item.symbol) then before
         else SetLevel(if front == [] || Last(front).symbol != item.symbol then Without(before, item.symbol)
                       else before,
                       ItemSlot(item), item.size.value)
  {
    var front := DropLast(items);
    PartialEntry(discard, fixed, prices, items);
    ApplyEntriesGrow(book, true, ScanItems(discard, Partial, prices, front).entries, ListedEntry(discard, Last(items)));
  }

  lemma OtherBuilds(front: seq<Level>, item: Level, s: nat, before: Book, after: Book, symbol: string)
    requires item.symbol != symbol && Builds(front, s, before, symbol) && SameFor(after, before, symbol)
    ensures Builds(front + [item], s, after, symbol)
  {
    var items := front + [item];
    assert forall i :: 0 <= i < |front| ==> items[i] == front[i];
    forall slot | slot in after && slot.symbol == symbol
      ensures exists i :: s <= i < |items| && items[i].price.Some? && ItemSlot(items[i]) == slot
    {
      var i :| s <= i < |front| && front[i].price.Some? && ItemSlot(front[i]) == slot;
      assert ItemSlot(items[i]) == slot;
    }
  }

  lemma NextBuilds(front: seq<Level>, item: Level, s: nat, before: Book, symbol: string)
    requires item.symbol == symbol && item.price.Some? && item.size.Some? && item.size.value != 0.0
    requires Builds(front, s, before, symbol) && s <= |front|
    requires forall i :: 0 <= i < |front| && front[i].price.Some? ==> ItemSlot(front[i]) != ItemSlot(item)
    ensures Builds(front + [item], s, SetLevel(before, ItemSlot(item), item.size.value), symbol)
  {
    var items, after := front + [item], SetLevel(before, ItemSlot(item), item.size.value);
    assert items[|front|] == item && forall i :: 0 <= i < |front| ==> items[i] == front[i];
    forall slot | slot in after && slot.symbol == symbol
      ensures exists i :: s <= i < |items| && items[i].price.Some? && ItemSlot(items[i]) == slot
    {
      if slot == ItemSlot(item) {
        assert ItemSlot(items[|front|]) == slot;
      } else {
        var i :| s <= i < |front| && front[i].price.Some? && ItemSlot(front[i]) == slot;
        assert ItemSlot(items[i]) == slot;
      }
    }
  }

  lemma FirstBuilds(front: seq<Level>, item: Level, before: Book)
    requires item.price.Some? && item.size.Some? && item.size.value != 0.0
    ensures Builds(front + [item], |front|, SetLevel(Without(before, item.symbol), ItemSlot(item), item.size.value),
                   item.symbol)
  {
    assert (front + [item])[|front|] == item;
  }

  /** After a partial, the book of a kept symbol it mentions consists of the levels of its last stretch. */
  lemma {:induction false} LastStretchBuilds(
    discard: Discard, fixed: Prices, prices: Prices, book: Book, items: seq<Level>, symbol: string)
    requires LegalItems(map[], fixed, Insert, items) && Mentions(items, symbol) && !discard(symbol)
    ensures Builds(items, LastStretch(items, symbol),
                   ApplyEntries(book, true, ScanItems(discard, Partial, prices, items).entries), symbol)
  {
    var front, item := DropLast(items), Last(items);
    var before := ApplyEntries(book, true, ScanItems(discard, Partial, prices, front).entries);
    var after := ApplyEntries(book, true, ScanItems(discard, Partial, prices, items).entries);
    assert items == front + [item];
    BookGrows(discard, fixed, prices, book, items);
    if item.symbol != symbol {
      assert Mentions(front, symbol);
      LastStretchBuilds(discard, fixed, prices, book, front, symbol);
      OtherBuilds(front, item, LastStretch(front, symbol), before, after, symbol);
    } else if front != [] && Last(front).symbol == symbol {
      assert Mentions(front, symbol);
      LastStretchBuilds(discard, fixed, prices, book, front, symbol);
      StretchGrows(fixed, front, item, before);
    } else {
      FirstBuilds(front, item, before);
    }
  }

  lemma StretchGrows(fixed: Prices, front: seq<Level>, item: Level, before: Book)
    requires LegalItems(map[], fixed, Insert, front + [item])
    requires front != [] && Last(front).symbol == item.symbol && Mentions(front, item.symbol)
    requires Builds(front, LastStretch(front, item.symbol), before, item.symbol)
    ensures item.price.Some? && item.size.Some?
    ensures Builds(front + [item], LastStretch(front + [item], item.symbol),
                   SetLevel(before, ItemSlot(item), item.size.value), item.symbol)
  {
    assert DropLast(front + [item]) == front && Last(front + [item]) == item;
    SlotsDiffer(fixed, front + [item]);
    LastSlotIsNew(front, item);
    NextBuilds(front, item, LastStretch(front, item.symbol), before, item.symbol);
  }

  lemma LastSlotIsNew(front: seq<Level>, item: Level)
    requires var items := front + [item];
      forall i, j :: 0 <= i < j < |items| && items[i].price.Some? && items[j].price.Some? ==>
        ItemSlot(items[i]) != ItemSlot(items[j])
    requires item.price.Some?
    ensures forall i :: 0 <= i < |front| && front[i].price.Some? ==> ItemSlot(front[i]) != ItemSlot(item)
  {
    var items := front + [item];
    forall i | 0 <= i < |front| && front[i].price.Some? ensures ItemSlot(front[i]) != ItemSlot(item) {
      assert items[i] == front[i] && items[|front|] == item;
    }
  }

  /** The exchange's book of a kept symbol consists of all the levels listed. */
  lemma ProjectBuilds(discard: Discard, fixed: Prices, items: seq<Level>, symbol: string)
    requires LegalItems(map[], fixed, Insert, items) && WellFormed(Listed(items)) && !discard(symbol)
    ensures Builds(items, 0, Project(discard, Listed(items)), symbol)
  {
    var x := Listed(items);
    ListedItems(fixed, items);
    ProjectIsProjection(discard, x);
    forall i | 0 <= i < |items| && items[i].symbol == symbol
      ensures items[i].price.Some? && ItemSlot(items[i]) in Project(discard, x)
      ensures items[i].size == Some(Project(discard, x)[ItemSlot(items[i])])
    {
      assert Kept(discard, x, items[i].id) && LiveSlot(x[items[i].id]) == ItemSlot(items[i]);
    }
    forall slot | slot in Project(discard, x) && slot.symbol == symbol
      ensures exists i :: 0 <= i < |items| && items[i].price.Some? && ItemSlot(items[i]) == slot
    {
      var id :| Kept(discard, x, id) && LiveSlot(x[id]) == slot;
      var i :| 0 <= i < |items| && items[i].id == id;
      assert ItemSlot(items[i]) == slot;
    }
  }

  lemma EarlierIsMissed(items: seq<Level>, s: nat, all: Book, last: Book, symbol: string, i: nat)
    requires i < s <= |items| && items[i].symbol == symbol
    requires Builds(items, 0, all, symbol) && Builds(items, s, last, symbol)
    requires forall i, j :: 0 <= i < j < |items| && items[i].price.Some? && items[j].price.Some? ==>
               ItemSlot(items[i]) != ItemSlot(items[j])
    ensures !SameFor(last, all, symbol)
  {
    var slot := ItemSlot(items[i]);
    assert slot in all && slot.symbol == symbol;
    assert forall j :: s <= j < |items| && items[j].price.Some? ==> ItemSlot(items[j]) != slot;
    assert slot !in last;
  }

  /** Books built from all levels and from those since `s` agree exactly when there is none before `s`. */
  lemma BuiltAlikeExactlyWhen(items: seq<Level>, s: nat, all: Book, last: Book, symbol: string)
    requires s <= |items| && Builds(items, 0, all, symbol) && Builds(items, s, last, symbol)
    requires forall i, j :: 0 <= i < j < |items| && items[i].price.Some? && items[j].price.Some? ==>
               ItemSlot(items[i]) != ItemSlot(items[j])
    ensures SameFor(last, all, symbol) <==> forall i :: 0 <= i < s ==> items[i].symbol != symbol
  {
    if i :| 0 <= i < s && items[i].symbol == symbol {
      EarlierIsMissed(items, s, all, last, symbol, i);
    }
    if forall i :: 0 <= i < s ==> items[i].symbol != symbol {
      forall slot: Slot | slot.symbol == symbol
        ensures (slot in last <==> slot in all) && (slot in last ==> last[slot] == all[slot])
      {
        if slot in all {
          var i :| 0 <= i < |items| && items[i].price.Some? && ItemSlot(items[i]) == slot;
          assert items[i].symbol == symbol;
        }
      }
    }
  }

  /** After a partial that lists the live levels in any order, the book of a kept symbol it mentions is exact
      if and only if the levels of the symbol stand together. */
  lemma PartialExactExactlyWhen(
    discard: Discard, fixed: Prices, latch: bool, prices: Prices, book: Book, items: seq<Level>, rejected: set<nat>,
    symbol: string)
    requires LegalItems(map[], fixed, Insert, items) && Mentions(items, symbol) && !discard(symbol)
    ensures WellFormed(Listed(items))
    ensures ExactFor(discard, Listed(items),
                     ApplyAll(book, OnMessage(discard, latch, prices, Partial, items, rejected).published), symbol)
       <==> Together(items, symbol)
  {
    LegalKeepsWellFormed(map[], fixed, Insert, items);
    EntriesExactExactlyWhen(discard, fixed, prices, book, items, symbol);
    PartialPublishes(discard, fixed, latch, prices, book, items, rejected);
  }

  lemma EntriesExactExactlyWhen(
    discard: Discard, fixed: Prices, prices: Prices, book: Book, items: seq<Level>, symbol: string)
    requires LegalItems(map[], fixed, Insert, items) && WellFormed(Listed(items))
    requires Mentions(items, symbol) && !discard(symbol)
    ensures ExactFor(discard, Listed(items),
                     ApplyEntries(book, true, ScanItems(discard, Partial, prices, items).entries), symbol)
       <==> Together(items, symbol)
  {
    SlotsDiffer(fixed, items);
    ProjectBuilds(discard, fixed, items, symbol);
    LastStretchBuilds(discard, fixed, prices, book, items, symbol);
    BuiltAlikeExactlyWhen(items, LastStretch(items, symbol), Project(discard, Listed(items)),
                          ApplyEntries(book, true, ScanItems(discard, Partial, prices, items).entries), symbol);
    TogetherExactlyWhen(items, symbol);
  }

  // ---- a split symbol ----

  const SPLIT := [Level("XBTUSD", 1, Buy, Some(11.0), Some(5.0), 0), Level("ETHUSD", 2, Buy, Some(7.0), Some(5.0), 0),
                  Level("XBTUSD", 3, Buy, Some(10.0), Some(5.0), 0)]

  lemma ListingGrows(front: seq<Level>, item: Level)
    requires LegalItems(map[], map[], Insert, front) && LegalItem(Listed(front), map[], Insert, item)
    ensures LegalItems(map[], map[], Insert, front + [item])
    ensures Listed(front + [item]) ==
            Listed(front)[item.id := Live(item.symbol, item.side, item.price.value, item.size.value)]
  {
    assert DropLast(front + [item]) == front;
  }

  lemma SplitIsLegal()
    ensures LegalItems(map[], map[], Insert, SPLIT) && Mentions(SPLIT, "XBTUSD") && !Together(SPLIT, "XBTUSD")
  {
    var none: seq<Level> := [];
    assert "XBTUSD" != "ETHUSD" && Listed(none) == map[];
    ListingGrows(none, SPLIT[0]);
    ListingGrows(none + [SPLIT[0]], SPLIT[1]);
    ListingGrows(none + [SPLIT[0]] + [SPLIT[1]], SPLIT[2]);
    assert none + [SPLIT[0]] + [SPLIT[1]] + [SPLIT[2]] == SPLIT;
    assert SPLIT[0].symbol == "XBTUSD" && SPLIT[2].symbol == "XBTUSD" && SPLIT[2 - 1].symbol != "XBTUSD";
  }

  /** A partial that splits a symbol leaves its book inexact, whatever it was before. */
  lemma SplitSymbolLosesLevels(discard: Discard, latch: bool, prices: Prices, book: Book)
    requires !discard("XBTUSD")
    ensures WellFormed(Listed(SPLIT))
    ensures !ExactFor(discard, Listed(SPLIT),
                      ApplyAll(book, OnMessage(discard, latch, prices, Partial, SPLIT, {}).published), "XBTUSD")
  {
    SplitIsLegal();
    PartialExactExactlyWhen(discard, map[], latch, prices, book, SPLIT, {}, "XBTUSD");
  }
}

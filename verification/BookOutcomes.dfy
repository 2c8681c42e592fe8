/** How a message ends, read off its items and the cache it finds: at the first kept item whose price cannot
    be resolved the socket is closed, at the first unexpected one the process ends, and otherwise the message
    is read to its end. */
module BookOutcomes {
  import opened Common
  import opened PriceCaching
  import opened OrderBook

  /** The id of item `i` is not cached when the message reaches it: it was not cached before the message, or
      the message deleted it. */
  predicate IsUncached(discard: Discard, action: Action, prices: Prices, items: seq<Level>, i: nat)
    requires i < |items|
  {
    || items[i].id !in prices
    || (action == Delete && exists j :: 0 <= j < i && !discard(items[j].symbol) && items[j].id == items[i].id)
  }

  /** A kept update or delete without a price, of an id that is not cached. */
  predicate HasNoPrice(discard: Discard, action: Action, prices: Prices, items: seq<Level>, i: nat)
    requires i < |items|
  {
    && !discard(items[i].symbol) && (action == Action.Update || action == Delete)
    && items[i].price.None? && IsUncached(discard, action, prices, items, i)
  }

  /** A kept item that ends the process: of no known action, listed or inserted without price or size, or on
      no known side. */
  predicate IsUnexpected(discard: Discard, action: Action, prices: Prices, items: seq<Level>, i: nat)
    requires i < |items|
  {
    && !discard(items[i].symbol)
    && (|| action == Undefined
        || ((action == Partial || action == Insert) && (items[i].price.None? || items[i].size.None?))
        || (items[i].side == UnknownSide && !HasNoPrice(discard, action, prices, items, i)))
  }

  predicate Stops(discard: Discard, action: Action, prices: Prices, items: seq<Level>, i: nat)
    requires i < |items|
  {
    HasNoPrice(discard, action, prices, items, i) || IsUnexpected(discard, action, prices, items, i)
  }

  /** Item `i` is the first at which the message stops, for want of a price. */
  ghost predicate ClosesAt(discard: Discard, action: Action, prices: Prices, items: seq<Level>, i: nat) {
    && i < |items| && HasNoPrice(discard, action, prices, items, i)
    && forall j :: 0 <= j < i ==> !Stops(discard, action, prices, items, j)
  }

  ghost predicate FailsAt(discard: Discard, action: Action, prices: Prices, items: seq<Level>, i: nat) {
    && i < |items| && IsUnexpected(discard, action, prices, items, i)
    && forall j :: 0 <= j < i ==> !Stops(discard, action, prices, items, j)
  }

  // ---- the scan stops there ----

  /** Whether an item stops does not depend on what follows it. */
  lemma StopsAlike(discard: Discard, action: Action, prices: Prices, front: seq<Level>, item: Level, i: nat)
    requires i < |front|
    ensures HasNoPrice(discard, action, prices, front + [item], i) == HasNoPrice(discard, action, prices, front, i)
    ensures IsUnexpected(discard, action, prices, front + [item], i) == IsUnexpected(discard, action, prices, front, i)
    ensures Stops(discard, action, prices, front + [item], i) == Stops(discard, action, prices, front, i)
  {
    assert forall j :: 0 <= j <= i ==> (front + [item])[j] == front[j];
  }

  /** What an unfinished scan made of the cache. */
  ghost predicate CachedSoFar(discard: Discard, action: Action, prices: Prices, items: seq<Level>, now: Prices) {
    && (action == Action.Update ==> now == prices)
    && (action == Delete ==>
          forall id :: id in now <==>
            id in prices && !exists j :: 0 <= j < |items| && !discard(items[j].symbol) && items[j].id == id)
  }

  lemma CacheGrows(discard: Discard, action: Action, prices: Prices, front: seq<Level>, item: Level, s: Scan)
    requires s.halt.None? && CachedSoFar(discard, action, prices, front, s.prices)
    requires ScanItem(discard, action, s, item).halt.None?
    ensures CachedSoFar(discard, action, prices, front + [item], ScanItem(discard, action, s, item).prices)
  {
    var items, now := front + [item], ScanItem(discard, action, s, item).prices;
    assert items[|front|] == item && forall j :: 0 <= j < |front| ==> items[j] == front[j];
    if action == Delete {
      forall id
        ensures id in now <==>
                id in prices && !exists j :: 0 <= j < |items| && !discard(items[j].symbol) && items[j].id == id
      {
        if j :| 0 <= j < |front| && !discard(front[j].symbol) && front[j].id == id {
          assert !discard(items[j].symbol) && items[j].id == id;
        }
        if !discard(item.symbol) && item.id == id {
          assert !discard(items[|front|].symbol) && items[|front|].id == id;
        }
      }
    }
  }

  lemma ItemStops(discard: Discard, action: Action, prices: Prices, front: seq<Level>, item: Level, s: Scan)
    requires s.halt.None? && CachedSoFar(discard, action, prices, front, s.prices)
    ensures var t, items, i := ScanItem(discard, action, s, item), front + [item], |front|;
      t.halt == if HasNoPrice(discard, action, prices, items, i) then Some(Closed)
                else if IsUnexpected(discard, action, prices, items, i) then Some(Fatal)
                else None
  {
    var items, i := front + [item], |front|;
    assert items[i] == item && forall j :: 0 <= j < i ==> items[j] == front[j];
    assert action == Delete ==> (item.id in s.prices <==> !IsUncached(discard, action, prices, items, i));
  }

  lemma {:induction false} ScanStops(discard: Discard, action: Action, prices: Prices, items: seq<Level>)
    ensures var s := ScanItems(discard, action, prices, items);
      if s.halt.None? then
        CachedSoFar(discard, action, prices, items, s.prices) && forall j :: 0 <= j < |items| ==>
          !Stops(discard, action, prices, items, j)
      else
        var i := |s.entries|;
        && (forall j :: 0 <= j < i ==> !Stops(discard, action, prices, items, j))
        && (s.halt == Some(Closed) <==> HasNoPrice(discard, action, prices, items, i))
        && (s.halt == Some(Fatal) <==> IsUnexpected(discard, action, prices, items, i))
  {
    if items != [] {
      var front, item := DropLast(items), Last(items);
      var s := ScanItems(discard, action, prices, front);
      assert items == front + [item];
      ScanStops(discard, action, prices, front);
      forall j | 0 <= j < |front|
        ensures HasNoPrice(discard, action, prices, items, j) == HasNoPrice(discard, action, prices, front, j)
        ensures IsUnexpected(discard, action, prices, items, j) == IsUnexpected(discard, action, prices, front, j)
        ensures Stops(discard, action, prices, items, j) == Stops(discard, action, prices, front, j)
      {
        StopsAlike(discard, action, prices, front, item, j);
      }
      if s.halt.None? {
        ItemStops(discard, action, prices, front, item, s);
        if ScanItem(discard, action, s, item).halt.None? {
          CacheGrows(discard, action, prices, front, item, s);
        }
      }
    }
  }

  lemma ThereItStops(discard: Discard, action: Action, prices: Prices, items: seq<Level>, k: nat)
    ensures ClosesAt(discard, action, prices, items, k) || FailsAt(discard, action, prices, items, k) ==>
              k < |items| && Stops(discard, action, prices, items, k)
  {
  }

  lemma FirstStopDecides(discard: Discard, action: Action, prices: Prices, items: seq<Level>, i: nat)
    requires i < |items| && forall j :: 0 <= j < i ==> !Stops(discard, action, prices, items, j)
    requires Stops(discard, action, prices, items, i)
    ensures (exists k :: ClosesAt(discard, action, prices, items, k)) <==> HasNoPrice(discard, action, prices, items, i)
    ensures (exists k :: FailsAt(discard, action, prices, items, k)) <==>
            IsUnexpected(discard, action, prices, items, i)
  {
    if k: nat :| ClosesAt(discard, action, prices, items, k) {
      assert Stops(discard, action, prices, items, k);
      assert k == i;
    }
    if k: nat :| FailsAt(discard, action, prices, items, k) {
      assert Stops(discard, action, prices, items, k);
      assert k == i;
    }
    assert HasNoPrice(discard, action, prices, items, i) ==> ClosesAt(discard, action, prices, items, i);
    assert IsUnexpected(discard, action, prices, items, i) ==> FailsAt(discard, action, prices, items, i);
  }

  /** A message that is read closes the socket if and only if its first item that stops it is a kept update or
      delete without a price, of an id that is not cached; it ends the process if and only if that item is an
      unexpected one; and it is read to its end if and only if no item stops it. */
  lemma OutcomeExactlyWhen(
    discard: Discard, latch: bool, prices: Prices, action: Action, items: seq<Level>, rejected: set<nat>)
    requires latch || action == Partial
    ensures var outcome := OnMessage(discard, latch, prices, action, items, rejected).outcome;
      && (outcome == Closed <==> exists i :: ClosesAt(discard, action, prices, items, i))
      && (outcome == Fatal <==> exists i :: FailsAt(discard, action, prices, items, i))
      && (outcome == Completed <==> forall j :: 0 <= j < |items| ==> !Stops(discard, action, prices, items, j))
  {
    var s := ScanItems(discard, action, prices, items);
    ScanStops(discard, action, prices, items);
    if s.halt.Some? {
      FirstStopDecides(discard, action, prices, items, |s.entries|);
      assert Stops(discard, action, prices, items, |s.entries|);
    } else {
      forall k: nat {
        ThereItStops(discard, action, prices, items, k);
      }
    }
  }

  // ---- the cache and the prices, by what was asked before ----

  /** What the kept items ask of the cache. */
  function Requests(discard: Discard, action: Action, items: seq<Level>): seq<Request> {
    if items == [] then
      []
    else
      var item := Last(items);
      Requests(discard, action, DropLast(items)) +
      if discard(item.symbol) then [] else [Request(action, item.id, item.price, item.size)]
  }

  /** How many items are read from item `i` on: up to and including the first that stops the message. */
  function ReadFrom(discard: Discard, action: Action, prices: Prices, items: seq<Level>, i: nat): (n: nat)
    requires i <= |items|
    ensures i <= n <= |items|
    decreases |items| - i
  {
    if i == |items| then i
    else if Stops(discard, action, prices, items, i) then i + 1
    else ReadFrom(discard, action, prices, items, i + 1)
  }

  lemma {:induction false} ReadFromSkips(discard: Discard, action: Action, prices: Prices, items: seq<Level>, i: nat)
    requires i <= |items| && forall j :: 0 <= j < i ==> !Stops(discard, action, prices, items, j)
    ensures ReadFrom(discard, action, prices, items, 0) == ReadFrom(discard, action, prices, items, i)
  {
    if i > 0 {
      ReadFromSkips(discard, action, prices, items, i - 1);
    }
  }

  lemma ReadCountIs(discard: Discard, action: Action, prices: Prices, items: seq<Level>)
    ensures var s := ScanItems(discard, action, prices, items);
      ReadFrom(discard, action, prices, items, 0) == if s.halt.Some? then |s.entries| + 1 else |items|
  {
    var s := ScanItems(discard, action, prices, items);
    ScanStops(discard, action, prices, items);
    if s.halt.Some? {
      assert Stops(discard, action, prices, items, |s.entries|);
      ReadFromSkips(discard, action, prices, items, |s.entries|);
    } else {
      ReadFromSkips(discard, action, prices, items, |items|);
    }
  }

  /** The items of a message that a scan read. */
  function ItemsRead(items: seq<Level>, s: Scan): seq<Level> {
    if s.halt.Some? && |s.entries| < |items| then items[..|s.entries| + 1] else items
  }

  lemma {:induction false} ScanAsks(discard: Discard, action: Action, prices: Prices, items: seq<Level>)
    ensures var s := ScanItems(discard, action, prices, items);
      s.prices == PricesAfterAll(prices, Requests(discard, action, ItemsRead(items, s)))
  {
    if items != [] {
      var front, item := DropLast(items), Last(items);
      var s := ScanItems(discard, action, prices, front);
      assert items == front + [item];
      ScanAsks(discard, action, prices, front);
      if s.halt.Some? {
        assert ItemsRead(items, s) == ItemsRead(front, s);
      } else {
        ItemAsks(discard, action, prices, front, item, s);
        LastItemRead(discard, action, front, item, s);
      }
    }
  }

  lemma LastItemRead(discard: Discard, action: Action, front: seq<Level>, item: Level, s: Scan)
    requires s.halt.None? && |s.entries| == |front|
    ensures ItemsRead(front + [item], ScanItem(discard, action, s, item)) == front + [item]
  {
    var t := ScanItem(discard, action, s, item);
    if t.halt.Some? {
      assert t.entries == s.entries;
    }
  }

  lemma ItemAsks(discard: Discard, action: Action, prices: Prices, front: seq<Level>, item: Level, s: Scan)
    requires s.halt.None? && s.prices == PricesAfterAll(prices, Requests(discard, action, front))
    ensures ScanItem(discard, action, s, item).prices ==
            PricesAfterAll(prices, Requests(discard, action, front + [item]))
  {
    assert DropLast(front + [item]) == front;
    var rs := Requests(discard, action, front);
    if discard(item.symbol) {
      assert rs + [] == rs;
    } else {
      var r := Request(action, item.id, item.price, item.size);
      assert DropLast(rs + [r]) == rs;
    }
  }

  /** A message leaves the cache as its kept items, up to and including the one that stops it, ask for. */
  lemma CacheFollowsRequests(
    discard: Discard, latch: bool, prices: Prices, action: Action, items: seq<Level>, rejected: set<nat>)
    requires latch || action == Partial
    ensures OnMessage(discard, latch, prices, action, items, rejected).prices ==
            PricesAfterAll(prices, Requests(discard, action, items[..ReadFrom(discard, action, prices, items, 0)]))
  {
    ScanAsks(discard, action, prices, items);
    ReadCountIs(discard, action, prices, items);
    assert items[..|items|] == items;
  }

  /** The price and size of a level, after the requests `rs`: a partial or insert has its own price; an update
      or delete the price at which its id was announced first since it was last deleted, or its own price if
      there is no such announcement. An absent size is zero. */
  ghost predicate ResolvesTo(rs: seq<Request>, action: Action, item: Level, price: real, size: real) {
    && size == (if item.size.Some? then item.size.value else 0.0)
    && (if action == Partial || action == Insert then
          item.price == Some(price)
        else
          || (exists k :: AnnouncedAt(rs, item.id, k, price))
          || (AllForgotten(rs, item.id) && item.price == Some(price)))
  }

  ghost predicate IsResolved(rs: seq<Request>, action: Action, item: Level, e: Entry) {
    e.quote.Some? && ResolvesTo(rs, action, item, e.quote.value.price, e.quote.value.size)
  }

  lemma QuoteResolves(discard: Discard, action: Action, rs: seq<Request>, s: Scan, item: Level)
    requires s.halt.None? && s.prices == PricesAfterAll(map[], rs) && !discard(item.symbol)
    requires ScanItem(discard, action, s, item).halt.None?
    ensures var t := ScanItem(discard, action, s, item);
      && |t.entries| == |s.entries| + 1 && t.entries[..|s.entries|] == s.entries
      && IsResolved(rs, action, item, Last(t.entries))
  {
    AnswerExactly(rs, RequestOf(action, item));
  }

  /** Every level of a kept symbol that is read resolves so, by all that was asked before it, in earlier
      messages and in its own. */
  lemma {:induction false} ReadLevelsResolve(
    discard: Discard, action: Action, rs: seq<Request>, items: seq<Level>, j: nat)
    requires j < |ScanItems(discard, action, PricesAfterAll(map[], rs), items).entries| && !discard(items[j].symbol)
    ensures IsResolved(rs + Requests(discard, action, items[..j]), action, items[j],
                       ScanItems(discard, action, PricesAfterAll(map[], rs), items).entries[j])
  {
    var prices := PricesAfterAll(map[], rs);
    var front, item := DropLast(items), Last(items);
    var s := ScanItems(discard, action, prices, front);
    assert items == front + [item];
    if j < |s.entries| {
      ReadLevelsResolve(discard, action, rs, front, j);
      assert items[..j] == front[..j] && items[j] == front[j];
      EntryStays(discard, action, s, item, j);
    } else {
      assert items[..j] == front;
      LastLevelResolves(discard, action, rs, front, item);
    }
  }

  lemma LastLevelResolves(discard: Discard, action: Action, rs: seq<Request>, front: seq<Level>, item: Level)
    requires !discard(item.symbol)
    requires var s := ScanItems(discard, action, PricesAfterAll(map[], rs), front);
      s.halt.None? && ScanItem(discard, action, s, item).halt.None?
    ensures var s := ScanItems(discard, action, PricesAfterAll(map[], rs), front);
      var es := ScanItem(discard, action, s, item).entries;
      |es| == |s.entries| + 1 && IsResolved(rs + Requests(discard, action, front), action, item, Last(es))
  {
    var prices := PricesAfterAll(map[], rs);
    ScanAsks(discard, action, prices, front);
    PricesAfterConcat(map[], rs, Requests(discard, action, front));
    QuoteResolves(discard, action, rs + Requests(discard, action, front),
                  ScanItems(discard, action, prices, front), item);
  }

  lemma EntryStays(discard: Discard, action: Action, s: Scan, item: Level, j: nat)
    requires j < |s.entries|
    ensures var t := if s.halt.Some? then s else ScanItem(discard, action, s, item);
      j < |t.entries| && t.entries[j] == s.entries[j]
  {
  }
}

/** The market-data stream: an object that reads table messages, keeps the session, the order-book latch,
    the price cache and the products, and sends what consumers see. Each method is proved against the
    specification of its component. */
module MarketDataStream {
  import opened Common
  import opened PriceCaching
  import opened OrderBook
  import Runs = OrderBookRuns
  import Products
  import Instruments
  import Trades
  import Downloading
  import Session = MarketSession

  /** Everything the stream sends: to the exchange and to the consumers. */
  datatype Outgoing =
    | Told(notice: Session.Notice)
    | Book(publication: Publication, accepted: bool)
    | About(update: Instruments.Update)
    | Traded(summary: Trades.Summary)
    | CloseSocket

  function Tell(ns: seq<Session.Notice>): (os: seq<Outgoing>)
    ensures |os| == |ns| && forall i :: 0 <= i < |ns| ==> os[i] == Told(ns[i])
  {
    seq(|ns|, i requires 0 <= i < |ns| => Told(ns[i]))
  }

  function TellUpdates(us: seq<Instruments.Update>): (os: seq<Outgoing>)
    ensures |os| == |us| && forall i :: 0 <= i < |us| ==> os[i] == About(us[i])
  {
    seq(|us|, i requires 0 <= i < |us| => About(us[i]))
  }

  function TellSummaries(ss: seq<Trades.Summary>): (os: seq<Outgoing>)
    ensures |os| == |ss| && forall i :: 0 <= i < |ss| ==> os[i] == Traded(ss[i])
  {
    seq(|ss|, i requires 0 <= i < |ss| => Traded(ss[i]))
  }

  const RESUBSCRIBE := [Told(Session.Unsubscribe("orderBookL2")), Told(Session.Subscribe(["orderBookL2"]))]

  /** A publication at position `k` of its message; a rejected one is followed by a resubscription. */
  function TellBook(p: Publication, k: nat, rejected: set<nat>): seq<Outgoing> {
    [Book(p, k !in rejected)] + if k in rejected then RESUBSCRIBE else []
  }

  function TellBooks(ps: seq<Publication>, rejected: set<nat>): seq<Outgoing> {
    if ps == [] then [] else TellBooks(DropLast(ps), rejected) + TellBook(Last(ps), |ps| - 1, rejected)
  }

  lemma TellBooksAppend(start: seq<Outgoing>, ps: seq<Publication>, p: Publication, rejected: set<nat>)
    ensures start + TellBooks(ps + [p], rejected) == start + TellBooks(ps, rejected) + TellBook(p, |ps|, rejected)
    ensures AnyRejected(ps + [p], rejected) <==> AnyRejected(ps, rejected) || |ps| in rejected
  {
    assert DropLast(ps + [p]) == ps;
  }

  /** Publishing the pending segment, in terms of the buffers. */
  lemma PublishesLast(discard: Discard, snapshot: bool, es: seq<Entry>)
    requires es != []
    ensures var b := BuffersOf(discard, snapshot, es);
      PublishAll(discard, snapshot, Segments(es)) ==
        if b.previous != "" && !(b.bids == [] && b.asks == []) && !discard(b.previous) then
          b.published + [Publication(b.previous, b.bids, b.asks, snapshot, b.timestamp)]
        else
          b.published
  {
    var b := BuffersOf(discard, snapshot, es);
    assert b.published + [] == b.published;
  }

  datatype Buffers = Buffers(previous: string, bids: seq<MBPUpdate>, asks: seq<MBPUpdate>, timestamp: int,
                             published: seq<Publication>)

  /** The handler's buffers after `es`: they hold the last segment, and everything before it was published. */
  function BuffersOf(discard: Discard, snapshot: bool, es: seq<Entry>): Buffers {
    if es == [] then
      Buffers("", [], [], 0, [])
    else
      var gs := Segments(es);
      Buffers(Last(es).symbol, Levels(Last(gs), Buy), Levels(Last(gs), Sell), Latest(Last(gs)),
              PublishAll(discard, snapshot, DropLast(gs)))
  }

  class MarketData {
    const discard: string -> bool
    const zeroIsAbsent: bool
    const cache: PriceCache
    // buffers
    var bids: seq<MBPUpdate>
    var asks: seq<MBPUpdate>
    var trades: seq<Trades.Trade>
    // products
    var products: map<string, Products.Product>
    // state
    var ready: bool
    var status: Status
    var download: Downloading.Download
    var partialInstrument: bool
    var partialOrderBook: bool
    // everything sent so far
    var sent: seq<Outgoing>

    /** No two symbols share a product. */
    ghost predicate Valid()
      reads this`products
    {
      forall s, t :: s in products && t in products && products[s] == products[t] ==> s == t
    }

    ghost function SessionNow(): Session.Session
      reads this`ready, this`status, this`download, this`partialInstrument
    {
      Session.Session(ready, status, download, partialInstrument)
    }

    ghost function ProductsNow(): Instruments.Cache
      reads this`products, products.Values
    {
      map s | s in products :: products[s].Value()
    }

    constructor (discard: string -> bool, zeroIsAbsent: bool)
      ensures Valid() && SessionNow() == Session.FRESH && !partialOrderBook && sent == []
      ensures fresh(cache) && cache.lookup == map[] && products == map[] && this.discard == discard
              && this.zeroIsAbsent == zeroIsAbsent
    {
      this.discard, this.zeroIsAbsent := discard, zeroIsAbsent;
      cache := new PriceCache();
      bids, asks, trades, products := [], [], [], map[];
      ready, status, download, partialInstrument, partialOrderBook, sent :=
        false, Unknown, Downloading.Idle, false, false, [];
    }

    // ---- session ----

    method Tells(notice: Session.Notice)
      modifies this`sent
      ensures sent == old(sent) + [Told(notice)]
    {
      sent := sent + [Told(notice)];
    }

    method ReportStatus(status: Status)
      modifies this`status, this`sent
      ensures this.status == status && sent == old(sent) + [Told(Session.Report(status))]
    {
      this.status := status;
      Tells(Session.Report(status));
    }

    /** The download callback for one stage. */
    method OnStage(stage: nat)
      modifies this`ready, this`status, this`sent
      ensures SessionNow() == Session.EnterStage(old(SessionNow()), stage).0
      ensures sent == old(sent) + Tell(Session.EnterStage(old(SessionNow()), stage).1)
    {
      if stage == 0 {
        ReportStatus(Fetching("accounts"));
      } else if stage == 1 {
        ReportStatus(Fetching("instrument"));
        Tells(Session.Subscribe(["instrument"]));
      } else if stage == 2 {
        ReportStatus(Fetching("order-book-l2"));
        Tells(Session.Subscribe(Session.REMAINING_TOPICS));
      } else {
        ReportStatus(Ready);
        ready := true;
      }
    }

    method OnStages(stages: seq<nat>)
      modifies this`ready, this`status, this`sent
      ensures SessionNow() == Session.EnterAll(old(SessionNow()), stages).0
      ensures sent == old(sent) + Tell(Session.EnterAll(old(SessionNow()), stages).1)
    {
      ghost var before := SessionNow();
      for i := 0 to |stages|
        invariant SessionNow() == Session.EnterAll(before, stages[..i]).0
        invariant sent == old(sent) + Tell(Session.EnterAll(before, stages[..i]).1)
      {
        OnStage(stages[i]);
        assert DropLast(stages[..i + 1]) == stages[..i];
      }
      assert stages[..|stages|] == stages;
    }

    method Release(stage: nat)
      modifies this`ready, this`status, this`download, this`sent
      ensures var step := Session.Advance(old(SessionNow()),
                                          Downloading.CheckRelaxed(Session.STAGES, old(download), stage));
        SessionNow() == step.0 && sent == old(sent) + Tell(step.1)
    {
      var released := Downloading.CheckRelaxed(Session.STAGES, download, stage);
      download := released.0;
      OnStages(released.1);
    }

    method OnSocketReady()
      modifies this`status, this`sent
      ensures SessionNow() == Session.Handle(old(SessionNow()), Session.SocketReady).0
      ensures sent == old(sent) + Tell(Session.Handle(old(SessionNow()), Session.SocketReady).1)
    {
      ReportStatus(LoginSent);
    }

    /** A lost socket closes both latches and resets the download; the price cache and the products stay. */
    method OnSocketLost()
      modifies this`ready, this`status, this`download, this`partialInstrument, this`partialOrderBook, this`sent
      ensures SessionNow() == Session.Handle(old(SessionNow()), Session.SocketLost).0 && !partialOrderBook
      ensures sent == old(sent) + Tell(Session.Handle(old(SessionNow()), Session.SocketLost).1)
    {
      ready := false;
      partialInstrument, partialOrderBook := false, false;
      download := Downloading.Idle;
      ReportStatus(Offline);
    }

    method OnWelcome()
      modifies this`ready, this`status, this`download, this`sent
      ensures SessionNow() == Session.Handle(old(SessionNow()), Session.Welcome).0
      ensures sent == old(sent) + Tell(Session.Handle(old(SessionNow()), Session.Welcome).1)
    {
      var begun := Downloading.Begin(Session.STAGES);
      download := begun.0;
      OnStages(begun.1);
    }

    // ---- order book ----

    method Resubscribe()
      modifies this`partialOrderBook, this`sent
      ensures !partialOrderBook && sent == old(sent) + RESUBSCRIBE
    {
      Tells(Session.Unsubscribe("orderBookL2"));
      partialOrderBook := false;
      Tells(Session.Subscribe(["orderBookL2"]));
    }

    ghost predicate Pending(
      snapshot: bool, es: seq<Entry>, previous: string, timestamp: int, published: seq<Publication>)
      reads this
    {
      Buffers(previous, bids, asks, timestamp, published) == BuffersOf(discard, snapshot, es)
    }

    /** What this message has published so far is sent, and the latch is open unless one was rejected. */
    ghost predicate Progress(
      start: seq<Outgoing>, latch: bool, published: seq<Publication>, count: nat, rejected: set<nat>)
      reads this
    {
      (count, sent, partialOrderBook) ==
        (|published|, start + TellBooks(published, rejected), latch && !AnyRejected(published, rejected))
    }

    /** Send a publication; a consumer that rejects it makes the stream resubscribe. */
    method Send(p: Publication, count: nat, rejected: set<nat>)
      modifies this`partialOrderBook, this`sent
      ensures sent == old(sent) + TellBook(p, count, rejected)
      ensures partialOrderBook == (old(partialOrderBook) && count !in rejected)
    {
      sent := sent + [Book(p, count !in rejected)];
      if count in rejected {
        Resubscribe();
      }
    }

    /** Publish the pending segment, unless there is nothing to say. */
    method Publish(
      snapshot: bool, symbol: string, timestamp: int, count: nat, rejected: set<nat>, ghost es: seq<Entry>,
      ghost published: seq<Publication>, ghost start: seq<Outgoing>, ghost latch: bool)
      returns (count': nat, ghost published': seq<Publication>)
      requires es != [] && Pending(snapshot, es, symbol, timestamp, published)
      requires Progress(start, latch, published, count, rejected)
      modifies this`partialOrderBook, this`sent
      ensures published' == PublishAll(discard, snapshot, Segments(es))
              && Progress(start, latch, published', count', rejected)
    {
      count', published' := count, PublishAll(discard, snapshot, Segments(es));
      PublishesLast(discard, snapshot, es);
      if symbol != "" && !(bids == [] && asks == []) && !discard(symbol) {
        var p := Publication(symbol, bids, asks, snapshot, timestamp);
        TellBooksAppend(start, published, p, rejected);
        Send(p, count, rejected);
        count' := count + 1;
      }
    }

    /** Before an item is resolved: at a change of symbol, publish and clear the buffers. */
    method NextItem(
      snapshot: bool, symbol: string, previous: string, timestamp: int, count: nat, rejected: set<nat>,
      ghost es: seq<Entry>, ghost published: seq<Publication>, ghost start: seq<Outgoing>, ghost latch: bool)
      returns (timestamp': int, count': nat, ghost published': seq<Publication>)
      requires Pending(snapshot, es, previous, timestamp, published)
      requires Progress(start, latch, published, count, rejected)
      modifies this`bids, this`asks, this`partialOrderBook, this`sent
      ensures Pending(snapshot, es + [Entry(symbol, None)], symbol, timestamp', published')
      ensures Progress(start, latch, published', count', rejected)
    {
      timestamp', count', published' := timestamp, count, published;
      if previous != "" && previous != symbol {
        count', published' := Publish(snapshot, previous, timestamp, count, rejected, es, published, start, latch);
        timestamp', bids, asks := 0, [], [];
      }
      SegmentsWithBlank(es, symbol);
    }

    /** Append a resolved level to its side. */
    method Append(
      snapshot: bool, item: Level, price: real, size: real, timestamp: int, ghost es: seq<Entry>,
      ghost published: seq<Publication>)
      returns (timestamp': int)
      requires item.side != UnknownSide
      requires Pending(snapshot, es + [Entry(item.symbol, None)], item.symbol, timestamp, published)
      modifies this`bids, this`asks
      ensures Pending(snapshot, es + [Entry(item.symbol, Some(Quote(item.side, price, size, item.timestamp)))],
                      item.symbol, timestamp', published)
    {
      timestamp' := Max(timestamp, item.timestamp);
      if item.side == Buy {
        bids := bids + [MBPUpdate(price, size)];
      } else {
        asks := asks + [MBPUpdate(price, size)];
      }
      SegmentsWithQuote(es, item.symbol, Quote(item.side, price, size, item.timestamp));
    }

    /** Resolve the price of an item that is kept. */
    method Resolve(action: Action, item: Level, ghost s: Scan) returns (halt: Option<Outcome>, price: real, size: real)
      requires s.halt.None? && s.prices == cache.lookup && !discard(item.symbol)
      modifies cache
      ensures var t := ScanItem(discard, action, s, item);
        && halt == t.halt && cache.lookup == t.prices
        && t.entries == s.entries +
           (if halt.Some? then [] else [Entry(item.symbol, Some(Quote(item.side, price, size, item.timestamp)))])
        && (halt.None? ==> item.side != UnknownSide)
    {
      price, size := 0.0, 0.0;
      assert s.entries + [] == s.entries;
      var answer := cache.Consult(RequestOf(action, item));
      if answer.Abort? {
        halt := Some(Fatal);
      } else if answer.price.None? {
        halt := Some(Closed);
      } else if item.side == UnknownSide {
        halt := Some(Fatal);
      } else {
        halt, price, size := None, answer.price.value, answer.size;
      }
    }

    /** Resolve an item that is kept and append its level. */
    method Take(action: Action, item: Level, timestamp: int, ghost s: Scan, ghost published: seq<Publication>)
      returns (halt: Option<Outcome>, timestamp': int)
      requires s.halt.None? && s.prices == cache.lookup && !discard(item.symbol)
      requires Pending(action == Partial, s.entries + [Entry(item.symbol, None)], item.symbol, timestamp, published)
      modifies this`bids, this`asks, cache
      ensures var t := ScanItem(discard, action, s, item);
        && halt == t.halt && cache.lookup == t.prices
        && (halt.None? ==> Pending(action == Partial, t.entries, item.symbol, timestamp', published))
    {
      timestamp' := timestamp;
      var price, size;
      halt, price, size := Resolve(action, item, s);
      if halt.None? {
        timestamp' := Append(action == Partial, item, price, size, timestamp, s.entries, published);
      }
    }

    /** What was published when an item opened its segment are the segments finished before it. */
    lemma PublishedBefore(snapshot: bool, es: seq<Entry>, item: Level, timestamp: int, published: seq<Publication>)
      requires Pending(snapshot, es + [Entry(item.symbol, None)], item.symbol, timestamp, published)
      ensures published == PublishAll(discard, snapshot, Finished(es, item))
    {
    }

    /** Read one item: publish at a change of symbol, then resolve the level and append it. */
    method ReadItem(
      action: Action, item: Level, previous: string, discarding: bool, timestamp: int, count: nat, rejected: set<nat>,
      ghost s: Scan, ghost published: seq<Publication>, ghost start: seq<Outgoing>, ghost latch: bool)
      returns (halt: Option<Outcome>, discarding': bool, timestamp': int, count': nat,
               ghost published': seq<Publication>)
      requires s.halt.None? && s.prices == cache.lookup && (s.entries != [] ==> discarding == discard(previous))
      requires Pending(action == Partial, s.entries, previous, timestamp, published)
      requires Progress(start, latch, published, count, rejected)
      modifies this`bids, this`asks, this`partialOrderBook, this`sent, cache
      ensures var t := ScanItem(discard, action, s, item);
        && halt == t.halt && cache.lookup == t.prices && discarding' == discard(item.symbol)
        && Progress(start, latch, published', count', rejected)
        && if halt.None? then Pending(action == Partial, t.entries, item.symbol, timestamp', published')
           else published' == PublishAll(discard, action == Partial, Finished(s.entries, item))
    {
      timestamp', count', published' :=
        NextItem(action == Partial, item.symbol, previous, timestamp, count, rejected, s.entries, published, start,
                 latch);
      discarding' := if previous == "" || previous != item.symbol then discard(item.symbol) else discarding;
      PublishedBefore(action == Partial, s.entries, item, timestamp', published');
      if discarding' {
        halt := None;
      } else {
        halt, timestamp' := Take(action, item, timestamp', s, published');
      }
    }

    /** Read the items of a message, until one cannot be resolved. */
    method ReadItems(action: Action, items: seq<Level>, rejected: set<nat>)
      returns (halt: Option<Outcome>, previous: string, timestamp: int, count: nat, ghost published: seq<Publication>)
      modifies this`bids, this`asks, this`partialOrderBook, this`sent, cache
      ensures var s := ScanItems(discard, action, old(cache.lookup), items);
        && halt == s.halt && cache.lookup == s.prices
        && Progress(old(sent), old(partialOrderBook), published, count, rejected)
        && if halt.None? then Pending(action == Partial, s.entries, previous, timestamp, published)
           else published == PublishAll(discard, action == Partial, Finished(s.entries, items[|s.entries|]))
    {
      ghost var start, latch, prices := sent, partialOrderBook, cache.lookup;
      var discarding := true;
      halt, previous, timestamp, count, published := None, "", 0, 0, [];
      bids, asks := [], [];
      ghost var s := Scan(prices, [], None);
      assert Progress(start, latch, published, count, rejected) by {
        assert start + TellBooks([], rejected) == start;
      }
      for i := 0 to |items|
        invariant s == ScanItems(discard, action, prices, items[..i]) && s.halt.None? && halt.None?
                  && s.prices == cache.lookup
        invariant Pending(action == Partial, s.entries, previous, timestamp, published)
                  && Progress(start, latch, published, count, rejected)
        invariant s.entries != [] ==> discarding == discard(previous)
      {
        halt, discarding, timestamp, count, published :=
          ReadItem(action, items[i], previous, discarding, timestamp, count, rejected, s, published, start, latch);
        previous := items[i].symbol;
        ScanContinues(discard, action, prices, items, i);
        s := ScanItem(discard, action, s, items[i]);
        if halt.Some? {
          return;
        }
      }
      assert items[..|items|] == items;
    }

    /** Read the items of a message and, if all are resolved, publish what is pending. */
    method ReadMessage(action: Action, items: seq<Level>, rejected: set<nat>) returns (outcome: Outcome)
      modifies this`bids, this`asks, this`partialOrderBook, this`sent, cache
      ensures var s := ScanItems(discard, action, old(cache.lookup), items);
        var published := PublishedBy(discard, action == Partial, s, items);
        (outcome, cache.lookup, sent, partialOrderBook) ==
        (OutcomeOf(s), s.prices, old(sent) + TellBooks(published, rejected),
         old(partialOrderBook) && !AnyRejected(published, rejected))
    {
      ghost var start, latch, s := sent, partialOrderBook, ScanItems(discard, action, cache.lookup, items);
      var halt, previous, timestamp, count;
      ghost var published;
      halt, previous, timestamp, count, published := ReadItems(action, items, rejected);
      if halt.Some? {
        return halt.value;
      }
      outcome := Completed;
      if previous != "" && !(bids == [] && asks == []) {
        count, published := Publish(action == Partial, previous, timestamp, count, rejected, s.entries, published,
                                    start, latch);
      } else {
        NothingPending(action == Partial, s.entries, previous, timestamp, published);
      }
    }

    /** What follows a message: close the socket, or set the latch and release the download. */
    method Conclude(action: Action, outcome: Outcome)
      modifies this`partialOrderBook, this`ready, this`status, this`download, this`sent
      ensures (partialOrderBook, SessionNow(), sent) ==
        (old(partialOrderBook) || Releases(action, outcome), AfterBook(old(SessionNow()), action, outcome).0,
         old(sent) + Conclusion(old(SessionNow()), action, outcome))
    {
      if outcome == Closed {
        sent := sent + [CloseSocket];
      } else if outcome == Completed && action == Partial {
        partialOrderBook := true;
        Release(2);
      }
      assert sent == old(sent) + Conclusion(old(SessionNow()), action, outcome);
    }

    /** Read one order-book message. `rejected` says for which of its publications the consumers raise
        `BadState`. Fatal means that the process ends. */
    method OnOrderBook(action: Action, items: seq<Level>, rejected: set<nat>) returns (outcome: Outcome)
      modifies this`bids, this`asks, this`partialOrderBook, this`ready, this`status, this`download, this`sent, cache
      ensures (outcome, BookState(partialOrderBook, cache.lookup, SessionNow(), sent)) ==
              AfterOrderBook(discard, old(BookState(partialOrderBook, cache.lookup, SessionNow(), sent)), action, items,
                             rejected)
    {
      ghost var b := BookState(partialOrderBook, cache.lookup, SessionNow(), sent);
      EffectOfMessage(discard, b, action, items, rejected);
      if action != Partial && !partialOrderBook {
        return Dropped;
      }
      outcome := ReadMessage(action, items, rejected);
      Conclude(action, outcome);
    }

    /** Without levels or a symbol there is nothing left to publish. */
    lemma NothingPending(snapshot: bool, es: seq<Entry>, previous: string, timestamp: int, published: seq<Publication>)
      requires Pending(snapshot, es, previous, timestamp, published)
      requires previous == "" || (bids == [] && asks == [])
      ensures published == PublishAll(discard, snapshot, Segments(es))
    {
      if es != [] {
        assert ToPublication(discard, snapshot, Last(Segments(es))) == [];
        assert published + [] == published;
      }
    }

    // ---- instruments and funding ----

    method UpdateProduct(item: Products.InstrumentItem, p: Products.Product)
      requires Valid() && item.symbol in products && products[item.symbol] == p
      modifies p
      ensures ProductsNow() ==
              old(ProductsNow())[item.symbol := Products.Updated(old(ProductsNow())[item.symbol], item)]
    {
      var _ := p.Update(item);
    }

    method FindProduct(item: Products.InstrumentItem) returns (p: Products.Product)
      requires Valid()
      modifies this`products, products.Values
      ensures Valid() && fresh(products.Values - old(products.Values))
      ensures item.symbol in products && products[item.symbol] == p
      ensures ProductsNow() ==
              old(ProductsNow())[item.symbol := Instruments.Found(zeroIsAbsent, old(ProductsNow()), item)]
    {
      if item.symbol !in products {
        p := new Products.Product.FromInstrument(zeroIsAbsent, item);
        products := products[item.symbol := p];
      } else {
        p := products[item.symbol];
        UpdateProduct(item, p);
      }
    }

    method ClearProduct(symbol: string, p: Products.Product)
      requires Valid() && symbol in products && products[symbol] == p
      modifies p`referenceDirty, p`statusDirty, p`statistics
      ensures ProductsNow() == old(ProductsNow())[symbol := Products.Cleared(old(p.Value()))]
    {
      p.Clear();
    }

    /** Publish what is dirty and clear it. */
    method PublishProduct(symbol: string, p: Products.Product)
      requires Valid() && symbol in products && products[symbol] == p
      modifies p, this`sent
      ensures sent == old(sent) + TellUpdates(Instruments.StatusAndStatistics(symbol, old(p.Value())))
      ensures ProductsNow() == old(ProductsNow())[symbol := Products.Cleared(old(p.Value()))]
    {
      if p.statusDirty {
        sent := sent + [About(Instruments.MarketStatus(symbol, p.state))];
      }
      if p.statistics != [] {
        sent := sent + [About(Instruments.StatisticsUpdate(symbol, p.statistics))];
      }
      assert sent == old(sent) + TellUpdates(Instruments.StatusAndStatistics(symbol, old(p.Value())));
      ClearProduct(symbol, p);
    }

    method PublishReference(symbol: string, p: Products.Product)
      modifies this`sent
      ensures sent == old(sent) + [About(Instruments.ReferenceData(symbol, p.currencies, p.reference, discard(symbol)))]
    {
      sent := sent + [About(Instruments.ReferenceData(symbol, p.currencies, p.reference, discard(symbol)))];
    }

    method OnPartialItem(item: Products.InstrumentItem)
      requires Valid()
      modifies this`products, this`sent, products.Values
      ensures Valid() && fresh(products.Values - old(products.Values))
      ensures (ProductsNow(), sent) ==
              AfterTouch(discard, zeroIsAbsent, old(ProductsNow()), old(sent), Instruments.ByPartial(item))
    {
      PartialTouch(discard, zeroIsAbsent, ProductsNow(), sent, item);
      var p := FindProduct(item);
      assert p.Value() == ProductsNow()[item.symbol];
      PublishReference(item.symbol, p);
      if !discard(item.symbol) {
        PublishProduct(item.symbol, p);
      }
    }

    /** An instrument update merges its item twice: once when the product is found, once by the caller. */
    method FindAndUpdate(item: Products.InstrumentItem) returns (p: Products.Product)
      requires Valid()
      modifies this`products, products.Values
      ensures Valid() && fresh(products.Values - old(products.Values))
      ensures item.symbol in products && products[item.symbol] == p
      ensures ProductsNow() ==
              old(ProductsNow())[item.symbol :=
                                 Products.Updated(Instruments.Found(zeroIsAbsent, old(ProductsNow()), item), item)]
    {
      ghost var cache := ProductsNow();
      p := FindProduct(item);
      ghost var found := Instruments.Found(zeroIsAbsent, cache, item);
      UpdateProduct(item, p);
      LastPutWins(cache, item.symbol, found, Products.Updated(found, item));
    }

    /** Publish what is dirty, reference data first, and clear it. */
    method PublishDirty(symbol: string, p: Products.Product)
      requires Valid() && symbol in products && products[symbol] == p
      modifies p, this`sent
      ensures var was := old(p.Value());
        && sent == (if was.referenceDirty then
                      old(sent) + [About(Instruments.ReferenceData(symbol, was.currencies, was.reference,
                                                                   discard(symbol)))]
                    else
                      old(sent)) + TellUpdates(Instruments.StatusAndStatistics(symbol, was))
        && ProductsNow() == old(ProductsNow())[symbol := Products.Cleared(was)]
    {
      if p.referenceDirty {
        PublishReference(symbol, p);
      }
      PublishProduct(symbol, p);
    }

    method OnUpdateItem(item: Products.InstrumentItem)
      requires Valid()
      modifies this`products, this`sent, products.Values
      ensures Valid() && fresh(products.Values - old(products.Values))
      ensures (ProductsNow(), sent) ==
              AfterTouch(discard, zeroIsAbsent, old(ProductsNow()), old(sent), Instruments.ByUpdate(item))
    {
      UpdateTouch(discard, zeroIsAbsent, ProductsNow(), sent, item);
      if !discard(item.symbol) {
        var p := FindAndUpdate(item);
        assert p.Value() == ProductsNow()[item.symbol];
        PublishDirty(item.symbol, p);
      }
    }

    method OnItems(partial: bool, items: seq<Products.InstrumentItem>)
      requires Valid()
      modifies this`products, this`sent, products.Values
      ensures Valid() && fresh(products.Values - old(products.Values))
      ensures (ProductsNow(), sent) == AfterTouches(discard, zeroIsAbsent, old(ProductsNow()), old(sent),
                                                     if partial then Instruments.Partials(items)
                                                     else Instruments.Updates(items))
    {
      ghost var before, start, ts := ProductsNow(), sent, if partial then Instruments.Partials(items)
                                                          else Instruments.Updates(items);
      assert start + TellUpdates([]) == start;
      for i := 0 to |items|
        invariant Valid() && fresh(products.Values - old(products.Values))
        invariant (ProductsNow(), sent) == AfterTouches(discard, zeroIsAbsent, before, start, ts[..i])
      {
        if partial {
          OnPartialItem(items[i]);
        } else {
          OnUpdateItem(items[i]);
        }
        TouchesStep(discard, zeroIsAbsent, before, start, ts, i);
      }
      assert ts[..|items|] == ts;
    }

    method LatchAndRead(items: seq<Products.InstrumentItem>)
      requires Valid()
      modifies this`products, this`sent, this`partialInstrument, products.Values
      ensures Valid() && fresh(products.Values - old(products.Values))
      ensures SessionNow() == old(SessionNow()).(instrument := true)
      ensures (ProductsNow(), sent) ==
              AfterTouches(discard, zeroIsAbsent, old(ProductsNow()), old(sent), Instruments.Partials(items))
    {
      partialInstrument := true;
      OnItems(true, items);
    }

    /** The first partial of a session: read its items and release the download. */
    method OnFirstPartial(items: seq<Products.InstrumentItem>)
      requires Valid()
      modifies this`products, this`sent, this`partialInstrument, this`ready, this`status, this`download, products.Values
      ensures Valid() && fresh(products.Values - old(products.Values))
      ensures var s, touched :=
              old(SessionNow()), AfterTouches(discard, zeroIsAbsent, old(ProductsNow()), old(sent),
                                              Instruments.Partials(items));
        var step := Session.Advance(s.(instrument := true), Downloading.CheckRelaxed(Session.STAGES, s.download, 1));
        (ProductsNow(), SessionNow(), sent) == (touched.0, step.0, touched.1 + Tell(step.1))
    {
      LatchAndRead(items);
      Release(1);
    }

    /** Read one instrument message. Only the first partial of a session is read, and updates only after
        it; fatal means that the process ends. */
    method OnInstrument(action: Action, items: seq<Products.InstrumentItem>) returns (fatal: bool)
      requires Valid()
      modifies this`products, this`sent, this`partialInstrument, this`ready, this`status, this`download, products.Values
      ensures Valid() && fresh(products.Values - old(products.Values))
      ensures fatal == (action == Undefined)
      ensures (ProductsNow(), SessionNow(), sent) ==
              AfterInstrument(discard, zeroIsAbsent, old(ProductsNow()), old(SessionNow()), old(sent), action, items)
    {
      InstrumentEffect(discard, zeroIsAbsent, ProductsNow(), SessionNow(), sent, action, items);
      if action == Partial && !partialInstrument {
        OnFirstPartial(items);
      } else if action == Action.Update && partialInstrument {
        OnItems(false, items);
      }
      fatal := action == Undefined;
    }

    /** Read one funding message: products are created if need be, and nothing is published. */
    method OnFunding(items: seq<Products.FundingItem>)
      requires Valid()
      modifies this`products, products.Values
      ensures Valid() && fresh(products.Values - old(products.Values))
      ensures (ProductsNow(), []) ==
              Instruments.TouchedAll(discard, zeroIsAbsent, old(ProductsNow()), Instruments.Fundings(items))
    {
      ghost var before, ts := ProductsNow(), Instruments.Fundings(items);
      for i := 0 to |items|
        invariant Valid() && fresh(products.Values - old(products.Values))
        invariant (ProductsNow(), []) == Instruments.TouchedAll(discard, zeroIsAbsent, before, ts[..i])
      {
        FundingStep(discard, zeroIsAbsent, before, items, i);
        OnFundingItem(items[i]);
      }
      assert ts[..|items|] == ts;
    }

    method OnFundingItem(item: Products.FundingItem)
      requires Valid()
      modifies this`products, products.Values
      ensures Valid() && fresh(products.Values - old(products.Values))
      ensures ProductsNow() == if item.symbol in old(products) then old(ProductsNow())
                               else old(ProductsNow())[item.symbol := Products.CreatedByFunding(zeroIsAbsent)]
    {
      if item.symbol !in products {
        var p := new Products.Product.FromFunding(zeroIsAbsent);
        products := products[item.symbol := p];
      }
      var dirty := products[item.symbol].UpdateFromFunding(item);
    }

    // ---- trades ----

    method SendSummary(previous: string, timestamp: int, isLast: bool)
      requires previous != "" ==> trades != []
      modifies this`sent
      ensures sent == old(sent) +
              TellSummaries(Trades.Closing(discard, Trades.Run(previous, trades, timestamp), isLast))
    {
      assert sent == sent + TellSummaries([]);
      if previous != "" && trades != [] && !discard(previous) {
        sent := sent + [Traded(Trades.Summary(previous, trades, timestamp, isLast))];
      }
    }

    method ReadTrade(items: seq<Trades.TradeItem>, i: nat, previous: string, timestamp: int, ghost start: seq<Outgoing>)
      returns (previous': string, timestamp': int)
      requires i < |items|
      requires (Trades.Run(previous, trades, timestamp), sent) ==
               (Trades.OpenRun(items, i), start + TellSummaries(Trades.Sent(discard, items, i)))
      modifies this`trades, this`sent
      ensures (Trades.Run(previous', trades, timestamp'), sent) ==
              (Trades.OpenRun(items, i + 1), start + TellSummaries(Trades.Sent(discard, items, i + 1)))
    {
      var item := items[i];
      previous', timestamp' := previous, Max(timestamp, item.timestamp);
      Trades.ItemRead(discard, items, i);
      if item.symbol != previous {
        SummariesConcat(start, Trades.Sent(discard, items, i),
                        Trades.Closing(discard, Trades.Run(previous, trades, timestamp'), false));
        SendSummary(previous, timestamp', false);
        previous' := item.symbol;
        trades := [];
        timestamp' := 0;
      }
      trades := trades + [Trades.ToTrade(item)];
    }

    /** Read one trade message: one summary for each run of a kept symbol. */
    method OnTrade(action: Action, items: seq<Trades.TradeItem>)
      modifies this`trades, this`sent
      ensures sent == old(sent) + TellSummaries(Trades.OnTrade(discard, action, items))
    {
      ghost var start := sent;
      assert sent == start + TellSummaries([]);
      if action != Insert {
        return;
      }
      trades := [];
      var timestamp, previous := 0, "";
      for i := 0 to |items|
        invariant (Trades.Run(previous, trades, timestamp), sent) ==
                  (Trades.OpenRun(items, i), start + TellSummaries(Trades.Sent(discard, items, i)))
      {
        previous, timestamp := ReadTrade(items, i, previous, timestamp, start);
      }
      Trades.SentAtEnd(discard, items);
      SummariesConcat(start, Trades.Sent(discard, items, |items|),
                      Trades.Closing(discard, Trades.Run(previous, trades, timestamp), true));
      SendSummary(previous, timestamp, true);
    }
  }

  lemma LastPutWins(cache: Instruments.Cache, symbol: string, first: Products.ProductState, last: Products.ProductState)
    ensures cache[symbol := first][symbol := last] == cache[symbol := last]
    ensures symbol in cache[symbol := first] && cache[symbol := first][symbol] == first
  {
  }

  function AfterInstrument(
    discard: Discard, zeroIsAbsent: bool, cache: Instruments.Cache, s: Session.Session, sent: seq<Outgoing>,
    action: Action, items: seq<Products.InstrumentItem>): (Instruments.Cache, Session.Session, seq<Outgoing>)
  {
    var (after, us) := Instruments.TouchedAll(discard, zeroIsAbsent, cache,
                                              Instruments.Touches(s.instrument, action, items));
    var (session, notices) := if action == Partial then Session.Handle(s, Session.InstrumentPartial) else (s, []);
    (after, session, sent + TellUpdates(us) + Tell(notices))
  }

  /** The effect of an instrument message, case by case. */
  lemma InstrumentEffect(
    discard: Discard, zeroIsAbsent: bool, cache: Instruments.Cache, s: Session.Session, sent: seq<Outgoing>,
    action: Action, items: seq<Products.InstrumentItem>)
    ensures AfterInstrument(discard, zeroIsAbsent, cache, s, sent, action, items) ==
      if action == Partial && !s.instrument then
        var (after, sent1) := AfterTouches(discard, zeroIsAbsent, cache, sent, Instruments.Partials(items));
        var (session, notices) :=
          Session.Advance(s.(instrument := true), Downloading.CheckRelaxed(Session.STAGES, s.download, 1));
        (after, session, sent1 + Tell(notices))
      else if action == Action.Update && s.instrument then
        var (after, sent1) := AfterTouches(discard, zeroIsAbsent, cache, sent, Instruments.Updates(items));
        (after, s, sent1)
      else
        (cache, s, sent)
  {
    assert sent + TellUpdates([]) == sent;
    forall os: seq<Outgoing> ensures os + Tell([]) == os {
    }
  }

  lemma TellConcat(start: seq<Outgoing>, a: seq<Instruments.Update>, b: seq<Instruments.Update>)
    ensures start + TellUpdates(a) + TellUpdates(b) == start + TellUpdates(a + b)
  {
  }

  lemma SummariesConcat(start: seq<Outgoing>, a: seq<Trades.Summary>, b: seq<Trades.Summary>)
    ensures start + TellSummaries(a) + TellSummaries(b) == start + TellSummaries(a + b)
    ensures b == [] ==> a + b == a
  {
  }

  lemma FundingStep(
    discard: Discard, zeroIsAbsent: bool, cache: Instruments.Cache, items: seq<Products.FundingItem>, i: nat)
    requires i < |items|
    ensures var ts := Instruments.Fundings(items);
      var before := Instruments.TouchedAll(discard, zeroIsAbsent, cache, ts[..i]);
      Instruments.TouchedAll(discard, zeroIsAbsent, cache, ts[..i + 1]) ==
        (if items[i].symbol in before.0 then before.0
         else before.0[items[i].symbol := Products.CreatedByFunding(zeroIsAbsent)], before.1)
  {
    var ts := Instruments.Fundings(items);
    assert DropLast(ts[..i + 1]) == ts[..i] && Last(ts[..i + 1]) == Instruments.ByFunding(items[i]);
    var before := Instruments.TouchedAll(discard, zeroIsAbsent, cache, ts[..i]);
    assert before.1 + [] == before.1;
  }

  function AfterTouch(
    discard: Discard, zeroIsAbsent: bool, cache: Instruments.Cache, sent: seq<Outgoing>, t: Instruments.Touch):
    (Instruments.Cache, seq<Outgoing>)
  {
    var (after, us) := Instruments.Touched(discard, zeroIsAbsent, cache, t);
    (after, sent + TellUpdates(us))
  }

  /** The effect of a partial's item, step by step. */
  lemma PartialTouch(
    discard: Discard, zeroIsAbsent: bool, cache: Instruments.Cache, sent: seq<Outgoing>, item: Products.InstrumentItem)
    ensures var symbol, found := item.symbol, Instruments.Found(zeroIsAbsent, cache, item);
      var reference := sent + [About(Instruments.ReferenceData(symbol, found.currencies, found.reference,
                                                               discard(symbol)))];
      AfterTouch(discard, zeroIsAbsent, cache, sent, Instruments.ByPartial(item)) ==
        if discard(symbol) then (cache[symbol := found], reference)
        else (cache[symbol := found][symbol := Products.Cleared(found)],
              reference + TellUpdates(Instruments.StatusAndStatistics(symbol, found)))
  {
    var symbol, found := item.symbol, Instruments.Found(zeroIsAbsent, cache, item);
    var reference := [Instruments.ReferenceData(symbol, found.currencies, found.reference, discard(symbol))];
    assert TellUpdates(reference) == [About(reference[0])];
    TellConcat(sent, reference, Instruments.StatusAndStatistics(symbol, found));
    assert cache[symbol := found][symbol := Products.Cleared(found)] == cache[symbol := Products.Cleared(found)];
  }

  /** The effect of an update's item, step by step. */
  lemma UpdateTouch(
    discard: Discard, zeroIsAbsent: bool, cache: Instruments.Cache, sent: seq<Outgoing>, item: Products.InstrumentItem)
    ensures var symbol, updated := item.symbol, Products.Updated(Instruments.Found(zeroIsAbsent, cache, item), item);
      var reference :=
        if updated.referenceDirty then
          sent + [About(Instruments.ReferenceData(symbol, updated.currencies, updated.reference, discard(symbol)))]
        else
          sent;
      AfterTouch(discard, zeroIsAbsent, cache, sent, Instruments.ByUpdate(item)) ==
        if discard(symbol) then (cache, sent)
        else (cache[symbol := updated][symbol := Products.Cleared(updated)],
              reference + TellUpdates(Instruments.StatusAndStatistics(symbol, updated)))
  {
    var symbol, updated := item.symbol, Products.Updated(Instruments.Found(zeroIsAbsent, cache, item), item);
    var reference :=
      if updated.referenceDirty then
        [Instruments.ReferenceData(symbol, updated.currencies, updated.reference, false)]
      else
        [];
    assert sent + TellUpdates([]) == sent;
    assert TellUpdates(reference) == if reference == [] then [] else [About(reference[0])];
    TellConcat(sent, reference, Instruments.StatusAndStatistics(symbol, updated));
    assert cache[symbol := updated][symbol := Products.Cleared(updated)] == cache[symbol := Products.Cleared(updated)];
  }

  function AfterTouches(
    discard: Discard, zeroIsAbsent: bool, cache: Instruments.Cache, sent: seq<Outgoing>, ts: seq<Instruments.Touch>):
    (Instruments.Cache, seq<Outgoing>)
  {
    var (after, us) := Instruments.TouchedAll(discard, zeroIsAbsent, cache, ts);
    (after, sent + TellUpdates(us))
  }

  lemma TouchesStep(
    discard: Discard, zeroIsAbsent: bool, cache: Instruments.Cache, sent: seq<Outgoing>, ts: seq<Instruments.Touch>,
    i: nat)
    requires i < |ts|
    ensures var (before, sentBefore) := AfterTouches(discard, zeroIsAbsent, cache, sent, ts[..i]);
      AfterTouches(discard, zeroIsAbsent, cache, sent, ts[..i + 1]) ==
        AfterTouch(discard, zeroIsAbsent, before, sentBefore, ts[i])
  {
    assert DropLast(ts[..i + 1]) == ts[..i];
    var (before, us) := Instruments.TouchedAll(discard, zeroIsAbsent, cache, ts[..i]);
    var more := Instruments.Touched(discard, zeroIsAbsent, before, ts[i]).1;
    TellConcat(sent, us, more);
  }

  predicate Releases(action: Action, outcome: Outcome) {
    outcome == Completed && action == Partial
  }

  /** A completed partial releases the order-book stage of the download. */
  function AfterBook(s: Session.Session, action: Action, outcome: Outcome): (Session.Session, seq<Session.Notice>) {
    if Releases(action, outcome) then Session.Handle(s, Session.BookPartial) else (s, [])
  }

  /** What is sent after a message: a closed socket, or what the download reports and asks for. */
  function Conclusion(s: Session.Session, action: Action, outcome: Outcome): seq<Outgoing> {
    (if outcome == Closed then [CloseSocket] else []) + Tell(AfterBook(s, action, outcome).1)
  }

  function OutcomeOf(s: Scan): Outcome {
    if s.halt.Some? then s.halt.value else Completed
  }

  function PublishedBy(discard: Discard, snapshot: bool, s: Scan, items: seq<Level>): seq<Publication>
    requires s.halt.Some? ==> |s.entries| < |items|
  {
    PublishAll(discard, snapshot, if s.halt.Some? then Finished(s.entries, items[|s.entries|]) else Segments(s.entries))
  }

  /** What an order-book message reads and changes. */
  datatype BookState = BookState(latch: bool, prices: Prices, session: Session.Session, sent: seq<Outgoing>)

  /** The effect of an order-book message: the latch and the cache as `OnMessage` says; each publication
      sent, with a resubscription after a rejected one; then the conclusion. */
  function AfterOrderBook(
    discard: Discard, b: BookState, action: Action, items: seq<Level>, rejected: set<nat>): (Outcome, BookState)
  {
    var step := OnMessage(discard, b.latch, b.prices, action, items, rejected);
    (step.outcome,
     BookState(step.latch, step.prices, AfterBook(b.session, action, step.outcome).0,
               b.sent + TellBooks(step.published, rejected) + Conclusion(b.session, action, step.outcome)))
  }

  /** The part of the last segment of `es` that an item of `symbol` continues. */
  function OpenSegment(es: seq<Entry>, symbol: string): seq<Entry> {
    if es == [] || Breaks(Last(es).symbol, symbol) then [] else Last(Segments(es))
  }

  function ClosedSegments(es: seq<Entry>, symbol: string): seq<Segment> {
    if es == [] || Breaks(Last(es).symbol, symbol) then Segments(es) else DropLast(Segments(es))
  }

  lemma SegmentsWith(es: seq<Entry>, e: Entry)
    ensures DropLast(Segments(es + [e])) == ClosedSegments(es, e.symbol)
    ensures Last(Segments(es + [e])) == OpenSegment(es, e.symbol) + [e]
  {
    assert DropLast(es + [e]) == es;
    if es == [] {
      assert [] + [e] == [e];
    } else {
      Runs.CutGrows(Breaks, es, e);
    }
  }

  lemma LevelsWith(g: seq<Entry>, e: Entry)
    ensures DropLast(g + [e]) == g
    ensures e.quote.None? ==>
              Levels(g + [e], Buy) == Levels(g, Buy) && Levels(g + [e], Sell) == Levels(g, Sell)
                && Latest(g + [e]) == Latest(g)
  {
  }

  /** A level that is not kept opens its segment all the same. */
  lemma SegmentsWithBlank(es: seq<Entry>, symbol: string)
    ensures var gs := Segments(es + [Entry(symbol, None)]);
      if es == [] || Breaks(Last(es).symbol, symbol) then
        DropLast(gs) == Segments(es) && Levels(Last(gs), Buy) == [] && Levels(Last(gs), Sell) == []
          && Latest(Last(gs)) == 0
      else
        && DropLast(gs) == DropLast(Segments(es))
        && Levels(Last(gs), Buy) == Levels(Last(Segments(es)), Buy)
           && Levels(Last(gs), Sell) == Levels(Last(Segments(es)), Sell)
        && Latest(Last(gs)) == Latest(Last(Segments(es)))
  {
    SegmentsWith(es, Entry(symbol, None));
    LevelsWith(OpenSegment(es, symbol), Entry(symbol, None));
  }

  /** A resolved level adds itself to the segment that its item opened. */
  lemma SegmentsWithQuote(es: seq<Entry>, symbol: string, q: Quote)
    requires q.side != UnknownSide
    ensures var gs, hs := Segments(es + [Entry(symbol, None)]), Segments(es + [Entry(symbol, Some(q))]);
      && DropLast(hs) == DropLast(gs)
      && Levels(Last(hs), Buy) == Levels(Last(gs), Buy) + (if q.side == Buy then [MBPUpdate(q.price, q.size)] else [])
      && Levels(Last(hs), Sell) ==
         Levels(Last(gs), Sell) + (if q.side == Sell then [MBPUpdate(q.price, q.size)] else [])
      && Latest(Last(hs)) == Max(Latest(Last(gs)), q.timestamp)
  {
    var g := OpenSegment(es, symbol);
    SegmentsWith(es, Entry(symbol, None));
    SegmentsWith(es, Entry(symbol, Some(q)));
    LevelsWith(g, Entry(symbol, None));
    LevelsWith(g, Entry(symbol, Some(q)));
  }

  /** Once a scan has stopped, the rest of the message does not matter. */
  lemma {:induction false} StoppedStays(discard: Discard, action: Action, prices: Prices, items: seq<Level>, n: nat)
    requires n <= |items| && ScanItems(discard, action, prices, items[..n]).halt.Some?
    ensures ScanItems(discard, action, prices, items) == ScanItems(discard, action, prices, items[..n])
  {
    if n == |items| {
      assert items[..n] == items;
    } else {
      assert DropLast(items)[..n] == items[..n];
      StoppedStays(discard, action, prices, DropLast(items), n);
    }
  }

  /** One more item; if it stops the scan, this is the scan of the message. */
  lemma ScanContinues(discard: Discard, action: Action, prices: Prices, items: seq<Level>, i: nat)
    requires i < |items| && ScanItems(discard, action, prices, items[..i]).halt.None?
    ensures var s := ScanItem(discard, action, ScanItems(discard, action, prices, items[..i]), items[i]);
      && ScanItems(discard, action, prices, items[..i + 1]) == s
      && (s.halt.Some? ==>
            && ScanItems(discard, action, prices, items) == s && |s.entries| == i
            && s.entries == ScanItems(discard, action, prices, items[..i]).entries)
  {
    assert DropLast(items[..i + 1]) == items[..i];
    if ScanItems(discard, action, prices, items[..i + 1]).halt.Some? {
      StoppedStays(discard, action, prices, items, i + 1);
    }
  }

  /** The effect of a message, in terms of its scan. */
  lemma EffectOfMessage(discard: Discard, b: BookState, action: Action, items: seq<Level>, rejected: set<nat>)
    ensures var s := ScanItems(discard, action, b.prices, items);
      var published, outcome := PublishedBy(discard, action == Partial, s, items), OutcomeOf(s);
      AfterOrderBook(discard, b, action, items, rejected) ==
        if action != Partial && !b.latch then (Dropped, b)
        else (outcome, BookState((b.latch && !AnyRejected(published, rejected)) || Releases(action, outcome), s.prices,
                                 AfterBook(b.session, action, outcome).0,
                                 b.sent + TellBooks(published, rejected) + Conclusion(b.session, action, outcome)))
  {
    assert b.sent + TellBooks([], rejected) + Conclusion(b.session, action, Dropped) == b.sent;
  }
}

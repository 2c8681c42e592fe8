/** The consumer's price-keyed book refines the exchange's id-keyed book: message by message, and over
    whole runs with filtering, rejected books, disconnects and missed messages. */
module BookRefinement {
  import opened Common
  import opened PriceCaching
  import opened OrderBook
  import opened OrderBookRuns
  import opened ConsumerBook
  import opened Exchange

  // ---- one message ----

  ghost predicate ExactFor(discard: Discard, x: LiveBook, book: Book, symbol: string)
    requires WellFormed(x)
  {
    SameFor(book, Project(discard, x), symbol)
  }

  lemma LegalNames(
    discard: Discard, fixed: Prices, x: LiveBook, action: Action, read: Action, prices: Prices, items: seq<Level>)
    requires WellFormed(x) && LegalItems(x, fixed, action, items)
    ensures Named(ScanItems(discard, read, prices, items).entries)
  {
    var es := ScanItems(discard, read, prices, items).entries;
    LegalKeepsWellFormed(x, fixed, action, items);
    ScanKeepsItems(discard, read, prices, items);
    forall e | e in es ensures e.symbol != "" {
      var j :| 0 <= j < |es| && es[j] == e;
      assert items[j] in items && Keeps(es[j], items[j]);
    }
  }

  /** An incremental message that is read with a covering cache never closes the socket; the cache stays
      covering, and each book that was exact stays exact. */
  lemma IncrementalStaysExact(
    discard: Discard, fixed: Prices, x: LiveBook, prices: Prices, book: Book, action: Action, items: seq<Level>,
    rejected: set<nat>)
    requires action != Partial && WellFormed(x) && LegalItems(x, fixed, action, items)
    requires Covers(discard, x, prices) && Sound(discard, x, prices, fixed)
    ensures var x', step := ExchangeAfter(x, action, items), OnMessage(discard, true, prices, action, items, rejected);
      && step.outcome == Completed && (step.latch <==> !AnyRejected(step.published, rejected))
      && WellFormed(x') && Covers(discard, x', step.prices) && Sound(discard, x', step.prices, fixed)
      && forall symbol :: ExactFor(discard, x, book, symbol) ==>
         ExactFor(discard, x', ApplyAll(book, step.published), symbol)
  {
    var x', s := ExchangeAfter(x, action, items), ScanItems(discard, action, prices, items);
    var a := Project(discard, x);
    ProjectIsProjection(discard, x);
    IncrementalFollows(discard, fixed, x, action, prices, items, a);
    ProjectionIsProject(discard, x', ApplyEntries(a, false, s.entries));
    LegalNames(discard, fixed, x, action, action, prices, items);
    ScanKeepsItems(discard, action, prices, items);
    PublicationsAreLevelwise(discard, false, book, s.entries);
    forall symbol | ExactFor(discard, x, book, symbol)
      ensures ExactFor(discard, x', ApplyEntries(book, false, s.entries), symbol)
    {
      ApplyEntriesSame(book, a, false, s.entries, symbol);
    }
  }

  /** A partial is always read to its end and sets the latch, even when the consumer rejects some of its
      books; the cache covers the exchange afterwards if nothing kept was cached at another price. */
  lemma PartialCompletes(
    discard: Discard, fixed: Prices, latch: bool, prices: Prices, items: seq<Level>, rejected: set<nat>)
    requires LegalItems(map[], fixed, Insert, items)
    ensures var s, step := ScanItems(discard, Partial, prices, items),
            OnMessage(discard, latch, prices, Partial, items, rejected);
      && step == Step(true, s.prices, PublishAll(discard, true, Segments(s.entries)), Completed)
      && |s.entries| == |items|
  {
    PartialScan(discard, fixed, prices, items);
  }

  /** From an empty book, the levels of a partial build the exchange's book. */
  lemma ListedIsExact(discard: Discard, fixed: Prices, prices: Prices, items: seq<Level>)
    requires LegalItems(map[], fixed, Insert, items) && Contiguous(items)
    ensures WellFormed(Listed(items))
    ensures ApplyEntries(map[], true, ScanItems(discard, Partial, prices, items).entries) ==
            Project(discard, Listed(items))
  {
    PartialTracks(discard, fixed, prices, items);
    ProjectionIsProject(discard, Listed(items),
                        ApplyEntries(map[], true, ScanItems(discard, Partial, prices, items).entries));
  }

  /** From any book, they do so for each kept symbol that is mentioned. */
  lemma MentionedIsExact(
    discard: Discard, fixed: Prices, prices: Prices, book: Book, items: seq<Level>, symbol: string, listed: Book)
    requires LegalItems(map[], fixed, Insert, items) && Mentions(items, symbol) && !discard(symbol)
    requires listed == ApplyEntries(map[], true, ScanItems(discard, Partial, prices, items).entries)
    ensures SameFor(ApplyEntries(book, true, ScanItems(discard, Partial, prices, items).entries), listed, symbol)
  {
    PartialScan(discard, fixed, prices, items);
    ScanKeepsItems(discard, Partial, prices, items);
    PartialForSymbol(discard, items, ScanItems(discard, Partial, prices, items).entries, book, symbol);
  }

  lemma OthersAreKept(discard: Discard, fixed: Prices, prices: Prices, book: Book, items: seq<Level>, symbol: string)
    requires LegalItems(map[], fixed, Insert, items) && (!Mentions(items, symbol) || discard(symbol))
    ensures SameFor(ApplyEntries(book, true, ScanItems(discard, Partial, prices, items).entries), book, symbol)
  {
    PartialScan(discard, fixed, prices, items);
    ScanKeepsItems(discard, Partial, prices, items);
    PartialForSymbol(discard, items, ScanItems(discard, Partial, prices, items).entries, book, symbol);
  }

  /** Publishing a partial is applying its levels. */
  lemma PartialPublishes(
    discard: Discard, fixed: Prices, latch: bool, prices: Prices, book: Book, items: seq<Level>, rejected: set<nat>)
    requires LegalItems(map[], fixed, Insert, items)
    ensures ApplyAll(book, OnMessage(discard, latch, prices, Partial, items, rejected).published) ==
            ApplyEntries(book, true, ScanItems(discard, Partial, prices, items).entries)
  {
    LegalNames(discard, fixed, map[], Insert, Partial, prices, items);
    ScanKeepsItems(discard, Partial, prices, items);
    PartialCompletes(discard, fixed, latch, prices, items, rejected);
    PublicationsAreLevelwise(discard, true, book, ScanItems(discard, Partial, prices, items).entries);
  }

  lemma MentionedPartial(
    discard: Discard, fixed: Prices, latch: bool, prices: Prices, book: Book, items: seq<Level>, rejected: set<nat>,
    symbol: string)
    requires LegalItems(map[], fixed, Insert, items) && Contiguous(items) && WellFormed(Listed(items))
    requires Mentions(items, symbol) && !discard(symbol)
    ensures ExactFor(discard, Listed(items),
                     ApplyAll(book, OnMessage(discard, latch, prices, Partial, items, rejected).published), symbol)
  {
    ListedIsExact(discard, fixed, prices, items);
    MentionedIsExact(discard, fixed, prices, book, items, symbol, Project(discard, Listed(items)));
    PartialPublishes(discard, fixed, latch, prices, book, items, rejected);
  }

  lemma OthersPartial(
    discard: Discard, fixed: Prices, latch: bool, prices: Prices, book: Book, items: seq<Level>, rejected: set<nat>,
    symbol: string)
    requires LegalItems(map[], fixed, Insert, items) && (!Mentions(items, symbol) || discard(symbol))
    ensures SameFor(ApplyAll(book, OnMessage(discard, latch, prices, Partial, items, rejected).published), book, symbol)
  {
    OthersAreKept(discard, fixed, prices, book, items, symbol);
    PartialPublishes(discard, fixed, latch, prices, book, items, rejected);
  }

  /** Whatever was cached, a partial makes the book of each kept symbol it mentions exact and leaves the
      other books alone. */
  lemma PartialMakesExact(
    discard: Discard, fixed: Prices, latch: bool, prices: Prices, book: Book, items: seq<Level>, rejected: set<nat>,
    symbol: string)
    requires LegalItems(map[], fixed, Insert, items) && Contiguous(items)
    ensures WellFormed(Listed(items))
    ensures var after := ApplyAll(book, OnMessage(discard, latch, prices, Partial, items, rejected).published);
      if Mentions(items, symbol) && !discard(symbol) then ExactFor(discard, Listed(items), after, symbol)
      else SameFor(after, book, symbol)
  {
    LegalKeepsWellFormed(map[], fixed, Insert, items);
    if Mentions(items, symbol) && !discard(symbol) {
      MentionedPartial(discard, fixed, latch, prices, book, items, rejected, symbol);
    } else {
      OthersPartial(discard, fixed, latch, prices, book, items, rejected, symbol);
    }
  }

  lemma PartialForSymbol(discard: Discard, items: seq<Level>, es: seq<Entry>, book: Book, symbol: string)
    requires |es| == |items| && Faithful(discard, es)
    requires forall j :: 0 <= j < |es| ==> Keeps(es[j], items[j])
    ensures var after := ApplyEntries(book, true, es);
      if Mentions(items, symbol) && !discard(symbol) then SameFor(after, ApplyEntries(map[], true, es), symbol)
      else SameFor(after, book, symbol)
  {
    if Mentions(items, symbol) && !discard(symbol) {
      var i :| 0 <= i < |items| && items[i].symbol == symbol;
      assert es[i] in es && es[i].symbol == symbol;
      ApplyEntriesSame(book, map[], true, es, symbol);
    } else {
      forall e | e in es && e.quote.Some? ensures e.symbol != symbol {
        var j :| 0 <= j < |es| && es[j] == e;
        assert Keeps(es[j], items[j]);
      }
      ApplyEntriesFrame(book, true, es, symbol);
    }
  }

  lemma NothingProjected(discard: Discard, fixed: Prices, items: seq<Level>, symbol: string)
    requires LegalItems(map[], fixed, Insert, items) && WellFormed(Listed(items))
    requires !Mentions(items, symbol) || discard(symbol)
    ensures SameFor(map[], Project(discard, Listed(items)), symbol)
  {
    ProjectIsProjection(discard, Listed(items));
    forall slot | slot in Project(discard, Listed(items)) ensures slot.symbol != symbol {
      ProjectedIsListed(discard, fixed, items, Project(discard, Listed(items)), slot);
    }
  }

  lemma SameAsNothing(book: Book, after: Book, nothing: Book, symbol: string)
    requires SameFor(after, book, symbol) && SameFor(map[], nothing, symbol)
    ensures SameFor(after, nothing, symbol) <==> forall slot :: slot in book ==> slot.symbol != symbol
  {
    if SameFor(after, nothing, symbol) {
      forall slot | slot in book ensures slot.symbol != symbol {
        assert slot.symbol == symbol ==> slot in after;
      }
    }
  }

  /** A symbol without live levels is not mentioned by a partial, so it gets no snapshot: its book is
      exact afterwards exactly when the consumer had nothing for it. */
  lemma SilentSymbolExactlyWhen(
    discard: Discard, fixed: Prices, latch: bool, prices: Prices, book: Book, items: seq<Level>, symbol: string)
    requires LegalItems(map[], fixed, Insert, items) && Contiguous(items) && !Mentions(items, symbol)
    ensures WellFormed(Listed(items))
    ensures ExactFor(discard, Listed(items),
                     ApplyAll(book, OnMessage(discard, latch, prices, Partial, items, {}).published), symbol)
       <==> forall slot :: slot in book ==> slot.symbol != symbol
  {
    PartialMakesExact(discard, fixed, latch, prices, book, items, {}, symbol);
    NothingProjected(discard, fixed, items, symbol);
    var after := ApplyAll(book, OnMessage(discard, latch, prices, Partial, items, {}).published);
    SameAsNothing(book, after, Project(discard, Listed(items)), symbol);
  }

  // ---- runs ----

  /** The exchange, the gateway's latch and cache, and the consumer's book. */
  datatype World = World(x: LiveBook, latch: bool, prices: Prices, book: Book)

  datatype Happening =
    | Feed(action: Action, items: seq<Level>, rejected: set<nat>)  // sent by the exchange and delivered
    | Missed(now: LiveBook)                                        // the exchange moved on unobserved
    | Disconnected
    | Quiet                                                        // anything else the gateway does

  /** The consumer folds what it accepts; about a symbol it rejected nothing is known. */
  ghost predicate Reacts(book: Book, published: seq<Publication>, rejected: set<nat>, book': Book) {
    forall symbol :: !RejectedFor(published, rejected, symbol) ==> SameFor(book', ApplyAll(book, published), symbol)
  }

  lemma AcceptedReacts(book: Book, published: seq<Publication>, rejected: set<nat>)
    ensures Reacts(book, published, rejected, ApplyAccepted(book, published, rejected))
  {
    forall symbol | !RejectedFor(published, rejected, symbol)
      ensures SameFor(ApplyAccepted(book, published, rejected), ApplyAll(book, published), symbol)
    {
      AcceptedSame(book, published, rejected, symbol);
    }
  }

  ghost predicate Next(discard: Discard, w: World, h: Happening, w': World) {
    match h
    case Feed(action, items, rejected) =>
      var step := OnMessage(discard, w.latch, w.prices, action, items, rejected);
      && w'.x == (if action == Partial then w.x else ExchangeAfter(w.x, action, items))
      && w'.latch == step.latch && w'.prices == step.prices
      && Reacts(w.book, step.published, rejected, w'.book)
    case Missed(now) => w' == w.(x := now)
    case Disconnected => w' == w.(latch := false)
    case Quiet => w' == w
  }

  /** What the exchange may do. */
  ghost predicate Legal(fixed: Prices, w: World, h: Happening) {
    match h
    case Feed(action, items, _) =>
      if action == Partial then Lists(fixed, items, w.x) else LegalItems(w.x, fixed, action, items)
    case Missed(now) => WellFormed(now)
    case _ => true
  }

  ghost predicate IsRun(discard: Discard, fixed: Prices, ws: seq<World>, hs: seq<Happening>) {
    && |ws| == |hs| + 1
    && forall i :: 0 <= i < |hs| ==> Legal(fixed, ws[i], hs[i]) && Next(discard, ws[i], hs[i], ws[i + 1])
  }

  /** Nothing was missed, rejected or disconnected. */
  predicate Gapless(h: Happening) {
    (h.Feed? && h.rejected == {}) || h.Quiet?
  }

  predicate IsPartial(h: Happening) {
    h.Feed? && h.action == Partial
  }

  /** Some partial came among the first `n` happenings. */
  ghost predicate Started(hs: seq<Happening>, n: nat)
    requires n <= |hs|
  {
    exists i :: 0 <= i < n && IsPartial(hs[i])
  }

  /** Nothing was cached or seen yet. */
  ghost predicate Untouched(w: World) {
    WellFormed(w.x) && !w.latch && w.prices == map[] && w.book == map[]
  }

  ghost predicate InSync(discard: Discard, w: World) {
    && w.latch && WellFormed(w.x)
    && w.prices == (map id | id in w.x && !discard(w.x[id].symbol) :: w.x[id].price)
    && w.book == Project(discard, w.x)
  }

  /** The same, as an invariant: the books of all symbols are exact. */
  ghost predicate Exact(discard: Discard, w: World) {
    && WellFormed(w.x)
    && Covers(discard, w.x, w.prices) && Sound(discard, w.x, w.prices, map[])
    && forall symbol :: ExactFor(discard, w.x, w.book, symbol)
  }

  lemma ExactIsInSync(discard: Discard, w: World)
    requires w.latch && Exact(discard, w)
    ensures InSync(discard, w)
  {
    CacheIsExact(discard, w.x, w.prices);
    forall symbol ensures SameFor(w.book, Project(discard, w.x), symbol) {
      assert ExactFor(discard, w.x, w.book, symbol);
    }
    SameForAll(w.book, Project(discard, w.x));
  }

  ghost predicate Completes(discard: Discard, w: World, h: Happening) {
    h.Feed? && OnMessage(discard, w.latch, w.prices, h.action, h.items, h.rejected).outcome == Completed
  }

  /** The consumer folds what is published when it rejects nothing. */
  lemma AcceptedBook(discard: Discard, w: World, h: Happening, w': World)
    requires h.Feed? && h.rejected == {} && Next(discard, w, h, w')
    ensures w'.book == ApplyAll(w.book, OnMessage(discard, w.latch, w.prices, h.action, h.items, {}).published)
  {
    var published := OnMessage(discard, w.latch, w.prices, h.action, h.items, {}).published;
    forall symbol ensures SameFor(w'.book, ApplyAll(w.book, published), symbol) {
      assert !RejectedFor(published, {}, symbol);
    }
    SameForAll(w'.book, ApplyAll(w.book, published));
  }

  lemma GaplessIncremental(discard: Discard, w: World, h: Happening, w': World)
    requires Legal(map[], w, h) && Next(discard, w, h, w') && Gapless(h) && h.Feed? && h.action != Partial
    requires w.latch && Exact(discard, w)
    ensures w'.latch && Exact(discard, w') && Completes(discard, w, h)
  {
    IncrementalStaysExact(discard, map[], w.x, w.prices, w.book, h.action, h.items, {});
    AcceptedBook(discard, w, h, w');
  }

  /** What a partial does to the cache, whoever rejects what. */
  lemma PartialCovers(discard: Discard, fixed: Prices, w: World, h: Happening, w': World)
    requires h.Feed? && h.action == Partial && Legal(fixed, w, h) && Next(discard, w, h, w')
    requires Sound(discard, w.x, w.prices, fixed)
    ensures Covers(discard, w'.x, w'.prices) && Sound(discard, w'.x, w'.prices, fixed)
    ensures w'.x == w.x == Listed(h.items) && w'.latch && Completes(discard, w, h)
  {
    PartialCompletes(discard, fixed, w.latch, w.prices, h.items, h.rejected);
    SoundIsCompatible(discard, fixed, w.prices, h.items);
    PartialCoversExactlyWhen(discard, fixed, w.prices, h.items);
  }

  /** What a partial does to the book of a symbol that was not rejected. */
  lemma PartialBook(discard: Discard, fixed: Prices, w: World, h: Happening, w': World, symbol: string)
    requires h.Feed? && h.action == Partial && Legal(fixed, w, h) && Next(discard, w, h, w')
    requires !RejectedFor(OnMessage(discard, w.latch, w.prices, Partial, h.items, h.rejected).published, h.rejected,
                          symbol)
    ensures WellFormed(w'.x)
    ensures if Mentions(h.items, symbol) && !discard(symbol) then ExactFor(discard, w'.x, w'.book, symbol)
            else SameFor(w'.book, w.book, symbol)
  {
    PartialMakesExact(discard, fixed, w.latch, w.prices, w.book, h.items, h.rejected, symbol);
    var after := ApplyAll(w.book, OnMessage(discard, w.latch, w.prices, Partial, h.items, h.rejected).published);
    assert SameFor(w'.book, after, symbol);
    if Mentions(h.items, symbol) && !discard(symbol) {
      SameForTransitive(w'.book, after, Project(discard, w'.x), symbol);
    } else {
      SameForTransitive(w'.book, after, w.book, symbol);
    }
  }

  lemma GaplessPartial(discard: Discard, w: World, h: Happening, w': World)
    requires Legal(map[], w, h) && Next(discard, w, h, w') && Gapless(h) && IsPartial(h)
    requires Exact(discard, w) || Untouched(w)
    ensures w'.latch && Exact(discard, w') && Completes(discard, w, h)
  {
    PartialCovers(discard, map[], w, h, w');
    var published := OnMessage(discard, w.latch, w.prices, Partial, h.items, {}).published;
    forall symbol ensures ExactFor(discard, w'.x, w'.book, symbol) {
      assert Exact(discard, w) ==> ExactFor(discard, w.x, w.book, symbol);
      assert !RejectedFor(published, {}, symbol);
      PartialBook(discard, map[], w, h, w', symbol);
      AfterPartial(discard, h.items, w.book, w'.book, symbol);
    }
  }

  lemma AfterPartial(discard: Discard, items: seq<Level>, book: Book, book': Book, symbol: string)
    requires LegalItems(map[], map[], Insert, items) && WellFormed(Listed(items))
    requires ExactFor(discard, Listed(items), book, symbol) || book == map[]
    requires if Mentions(items, symbol) && !discard(symbol) then ExactFor(discard, Listed(items), book', symbol)
             else SameFor(book', book, symbol)
    ensures ExactFor(discard, Listed(items), book', symbol)
  {
    if !Mentions(items, symbol) || discard(symbol) {
      NothingProjected(discard, map[], items, symbol);
    }
  }

  /** Before the first partial, an incremental message is dropped. */
  lemma UntouchedIncremental(discard: Discard, w: World, h: Happening, w': World)
    requires Legal(map[], w, h) && Next(discard, w, h, w') && Gapless(h) && h.Feed? && h.action != Partial
    requires Untouched(w)
    ensures Untouched(w')
  {
    LegalKeepsWellFormed(w.x, map[], h.action, h.items);
    AcceptedBook(discard, w, h, w');
  }

  /** Book refinement: over every gapless run from a closed latch, an empty cache and an empty consumer,
      nothing is published or cached before the first partial; from then on, after each happening, the
      consumer's book is the exchange's book by price, the cache is exactly the kept live ids with their
      prices, and every message is read to its end, so the socket is never closed. No id needs to keep
      its price once it is no longer live. */
  lemma {:induction false} GaplessRunRefines(discard: Discard, ws: seq<World>, hs: seq<Happening>, n: nat)
    requires IsRun(discard, map[], ws, hs) && n <= |hs| && Untouched(ws[0])
    requires forall i :: 0 <= i < n ==> Gapless(hs[i])
    ensures if Started(hs, n) then ws[n].latch && InSync(discard, ws[n]) && Exact(discard, ws[n]) else Untouched(ws[n])
    ensures n > 0 && Started(hs, n) && hs[n - 1].Feed? ==> Completes(discard, ws[n - 1], hs[n - 1])
  {
    if n > 0 {
      var w, h, w' := ws[n - 1], hs[n - 1], ws[n];
      assert Legal(map[], w, h) && Next(discard, w, h, ws[n - 1 + 1]) && Gapless(h);
      GaplessRunRefines(discard, ws, hs, n - 1);
      assert Started(hs, n) <==> Started(hs, n - 1) || IsPartial(h);
      if IsPartial(h) {
        GaplessPartial(discard, w, h, w');
        ExactIsInSync(discard, w');
      } else if h.Feed? && Started(hs, n - 1) {
        GaplessIncremental(discard, w, h, w');
        ExactIsInSync(discard, w');
      } else if h.Feed? {
        UntouchedIncremental(discard, w, h, w');
      }
    }
  }

  // ---- runs with gaps ----

  /** Every id denotes one price, listed in `fixed`. */
  ghost predicate Denotes(fixed: Prices, h: Happening) {
    match h
    case Feed(_, items, _) => forall item :: item in items ==> item.id in fixed
    case _ => true
  }

  ghost predicate CacheFixed(prices: Prices, fixed: Prices) {
    forall id :: id in prices ==> id in fixed && prices[id] == fixed[id]
  }

  /** Whatever a legal message finds in the cache, it caches only the prices its ids denote. */
  lemma {:induction false} ScanKeepsFixed(
    discard: Discard, fixed: Prices, action: Action, prices: Prices, items: seq<Level>)
    requires CacheFixed(prices, fixed)
    requires forall item :: item in items ==> item.id in fixed
    requires action == Insert || action == Partial ==> forall item :: item in items ==>
             item.price == Some(fixed[item.id])
    ensures CacheFixed(ScanItems(discard, action, prices, items).prices, fixed)
  {
    if items != [] {
      ScanKeepsFixed(discard, fixed, action, prices, DropLast(items));
    }
  }

  lemma {:induction false} InsertedPrices(fixed: Prices, x: LiveBook, items: seq<Level>)
    requires LegalItems(x, fixed, Insert, items)
    requires forall item :: item in items ==> item.id in fixed
    ensures forall item :: item in items ==> item.price == Some(fixed[item.id])
  {
    if items != [] {
      InsertedPrices(fixed, x, DropLast(items));
    }
  }

  /** What is known about the consumer after a run: `covered` says that the cache covers the exchange,
      `synced` holds the symbols whose book is exact. */
  datatype Track = Track(covered: bool, synced: set<string>)

  /** A partial covers the cache and synchronises each kept symbol it mentions; an incremental message
      that is read with a covering cache loses only the symbols whose book was rejected; a message that
      is dropped or read after a gap, and a missed change, lose everything. */
  function TrackNext(discard: Discard, t: Track, w: World, h: Happening): Track {
    match h
    case Feed(action, items, rejected) =>
      var published := OnMessage(discard, w.latch, w.prices, action, items, rejected).published;
      var lost := set k | k in rejected && k < |published| :: published[k].symbol;
      if action == Partial then
        Track(true, t.synced + (set i | 0 <= i < |items| && !discard(items[i].symbol) :: items[i].symbol) - lost)
      else if w.latch && t.covered then
        Track(true, t.synced - lost)
      else
        Track(false, {})
    case Missed(_) => Track(false, {})
    case _ => t
  }

  function TrackAfter(discard: Discard, ws: seq<World>, hs: seq<Happening>, n: nat): Track
    requires n <= |hs| && |ws| == |hs| + 1
  {
    if n == 0 then Track(false, {}) else TrackNext(discard, TrackAfter(discard, ws, hs, n - 1), ws[n - 1], hs[n - 1])
  }

  ghost predicate Tracked(discard: Discard, fixed: Prices, w: World, t: Track) {
    && WellFormed(w.x) && CacheFixed(w.prices, fixed)
    && (t.covered ==> Covers(discard, w.x, w.prices))
    && forall symbol :: symbol in t.synced ==> ExactFor(discard, w.x, w.book, symbol)
  }

  lemma FeedKeepsFixed(discard: Discard, fixed: Prices, w: World, h: Happening)
    requires h.Feed? && Legal(fixed, w, h) && Denotes(fixed, h) && CacheFixed(w.prices, fixed)
    ensures CacheFixed(OnMessage(discard, w.latch, w.prices, h.action, h.items, h.rejected).prices, fixed)
  {
    if h.action == Partial {
      InsertedPrices(fixed, map[], h.items);
    } else if h.action == Insert {
      InsertedPrices(fixed, w.x, h.items);
    }
    ScanKeepsFixed(discard, fixed, h.action, w.prices, h.items);
  }

  lemma LostIsRejected(discard: Discard, t: Track, w: World, h: Happening, symbol: string)
    requires h.Feed? && symbol in TrackNext(discard, t, w, h).synced
    ensures !RejectedFor(OnMessage(discard, w.latch, w.prices, h.action, h.items, h.rejected).published, h.rejected,
                         symbol)
  {
  }

  lemma PartialTracked(discard: Discard, fixed: Prices, w: World, h: Happening, w': World, t: Track)
    requires h.Feed? && h.action == Partial
    requires Legal(fixed, w, h) && Denotes(fixed, h) && Next(discard, w, h, w') && Tracked(discard, fixed, w, t)
    ensures Tracked(discard, fixed, w', TrackNext(discard, t, w, h)) && w'.latch && Completes(discard, w, h)
  {
    FeedKeepsFixed(discard, fixed, w, h);
    PartialCovers(discard, fixed, w, h, w');
    forall symbol | symbol in TrackNext(discard, t, w, h).synced ensures ExactFor(discard, w'.x, w'.book, symbol) {
      assert symbol in t.synced ==> ExactFor(discard, w.x, w.book, symbol);
      SyncedByPartial(discard, t, w, h, symbol);
      PartialBook(discard, fixed, w, h, w', symbol);
    }
  }

  lemma SyncedByPartial(discard: Discard, t: Track, w: World, h: Happening, symbol: string)
    requires h.Feed? && h.action == Partial && symbol in TrackNext(discard, t, w, h).synced
    ensures symbol in t.synced || (Mentions(h.items, symbol) && !discard(symbol))
    ensures !RejectedFor(OnMessage(discard, w.latch, w.prices, Partial, h.items, h.rejected).published, h.rejected,
                         symbol)
  {
  }

  lemma IncrementalTracked(discard: Discard, fixed: Prices, w: World, h: Happening, w': World, t: Track)
    requires h.Feed? && h.action != Partial && w.latch && t.covered
    requires Legal(fixed, w, h) && Denotes(fixed, h) && Next(discard, w, h, w') && Tracked(discard, fixed, w, t)
    ensures Tracked(discard, fixed, w', TrackNext(discard, t, w, h)) && Completes(discard, w, h)
  {
    var step := OnMessage(discard, w.latch, w.prices, h.action, h.items, h.rejected);
    FeedKeepsFixed(discard, fixed, w, h);
    IncrementalStaysExact(discard, fixed, w.x, w.prices, w.book, h.action, h.items, h.rejected);
    forall symbol | symbol in TrackNext(discard, t, w, h).synced ensures ExactFor(discard, w'.x, w'.book, symbol) {
      LostIsRejected(discard, t, w, h, symbol);
      assert SameFor(w'.book, ApplyAll(w.book, step.published), symbol);
      assert symbol in t.synced;
      assert ExactFor(discard, w.x, w.book, symbol);
    }
  }

  /** Recovery: in every run in which each id denotes one price, whatever was missed, dropped, rejected
      or abandoned before, after `n` happenings each symbol in `synced` has an exact book, the cache
      covers the exchange whenever `covered` holds, and no message that is read while it does is
      abandoned. In particular one partial covers the cache and synchronises every kept symbol it
      mentions whose book is accepted. */
  lemma {:induction false} RunsRecover(discard: Discard, fixed: Prices, ws: seq<World>, hs: seq<Happening>, n: nat)
    requires IsRun(discard, fixed, ws, hs) && n <= |hs|
    requires WellFormed(ws[0].x) && CacheFixed(ws[0].prices, fixed)
    requires forall i :: 0 <= i < n ==> Denotes(fixed, hs[i])
    ensures Tracked(discard, fixed, ws[n], TrackAfter(discard, ws, hs, n))
    ensures forall i {:trigger hs[i]} ::
            0 <= i < n && hs[i].Feed?
              && (hs[i].action == Partial || (ws[i].latch && TrackAfter(discard, ws, hs, i).covered)) ==>
              Completes(discard, ws[i], hs[i])
  {
    if n > 0 {
      RunsRecover(discard, fixed, ws, hs, n - 1);
      var w, h, w', t := ws[n - 1], hs[n - 1], ws[n], TrackAfter(discard, ws, hs, n - 1);
      assert Legal(fixed, w, h) && Next(discard, w, h, ws[n - 1 + 1]) && Denotes(fixed, h);
      if h.Feed? {
        if h.action == Partial {
          PartialTracked(discard, fixed, w, h, w', t);
        } else if w.latch && t.covered {
          IncrementalTracked(discard, fixed, w, h, w', t);
        } else {
          LegalKeepsWellFormed(w.x, fixed, h.action, h.items);
          FeedKeepsFixed(discard, fixed, w, h);
        }
      }
    }
  }

  /** The happening leaves a symbol's book in step: nothing was missed, and if a message came it was read
      and none of its publications about the symbol was rejected. */
  predicate Undisturbed(discard: Discard, w: World, h: Happening, symbol: string) {
    && !h.Missed?
    && (h.Feed? ==>
          var step := OnMessage(discard, w.latch, w.prices, h.action, h.items, h.rejected);
          step.outcome != Dropped && !RejectedFor(step.published, h.rejected, symbol))
  }

  /** A partial mentioned the kept symbol at `k`, and from then on the symbol was undisturbed. */
  ghost predicate HeldSince(discard: Discard, ws: seq<World>, hs: seq<Happening>, symbol: string, k: nat, n: nat) {
    && |ws| == |hs| + 1 && k < n <= |hs|
    && IsPartial(hs[k]) && Mentions(hs[k].items, symbol) && !discard(symbol)
    && forall i :: k <= i < n ==> Undisturbed(discard, ws[i], hs[i], symbol)
  }

  lemma TrackKeeps(discard: Discard, t: Track, w: World, h: Happening, symbol: string)
    requires Undisturbed(discard, w, h, symbol) && !discard(symbol)
    requires (t.covered && symbol in t.synced) || (IsPartial(h) && Mentions(h.items, symbol))
    ensures TrackNext(discard, t, w, h).covered && symbol in TrackNext(discard, t, w, h).synced
  {
    if IsPartial(h) && Mentions(h.items, symbol) {
      var i :| 0 <= i < |h.items| && h.items[i].symbol == symbol;
      assert !discard(h.items[i].symbol);
    }
  }

  lemma {:induction false} HeldIsTracked(
    discard: Discard, ws: seq<World>, hs: seq<Happening>, symbol: string, k: nat, n: nat)
    requires HeldSince(discard, ws, hs, symbol, k, n)
    ensures TrackAfter(discard, ws, hs, n).covered && symbol in TrackAfter(discard, ws, hs, n).synced
  {
    if k + 1 < n {
      HeldIsTracked(discard, ws, hs, symbol, k, n - 1);
    }
    assert Undisturbed(discard, ws[n - 1], hs[n - 1], symbol);
    TrackKeeps(discard, TrackAfter(discard, ws, hs, n - 1), ws[n - 1], hs[n - 1], symbol);
  }

  /** Recovery in one sentence: whatever happened before, if a partial mentioned a kept symbol, its
      publication was accepted, and since then nothing was missed or dropped and nothing about the symbol
      rejected, then the symbol's book is exact and the cache covers the exchange. */
  lemma ExactSincePartial(
    discard: Discard, fixed: Prices, ws: seq<World>, hs: seq<Happening>, symbol: string, k: nat, n: nat)
    requires IsRun(discard, fixed, ws, hs) && HeldSince(discard, ws, hs, symbol, k, n)
    requires WellFormed(ws[0].x) && CacheFixed(ws[0].prices, fixed)
    requires forall i :: 0 <= i < n ==> Denotes(fixed, hs[i])
    ensures WellFormed(ws[n].x) && ExactFor(discard, ws[n].x, ws[n].book, symbol)
            && Covers(discard, ws[n].x, ws[n].prices)
  {
    RunsRecover(discard, fixed, ws, hs, n);
    HeldIsTracked(discard, ws, hs, symbol, k, n);
  }

  // ---- concrete messages ----

  /** A snapshot that the consumer rejects opens the latch all the same, although nobody has its book. */
  lemma RejectedSnapshotOpens(discard: Discard)
    requires !discard("XBTUSD")
    ensures var item := Level("XBTUSD", 1, Buy, Some(11.0), Some(5.0), 0);
      var step := OnMessage(discard, false, map[], Partial, [item], {0});
      && step.latch && step.outcome == Completed && AnyRejected(step.published, {0})
      && RejectedFor(step.published, {0}, "XBTUSD")
  {
    OneLevelMessage(discard, false, map[], Partial, Level("XBTUSD", 1, Buy, Some(11.0), Some(5.0), 0), {0});
  }

  const LISTED := Level("XBTUSD", 1, Buy, Some(11.0), Some(5.0), 0)
  const UPDATED := Level("XBTUSD", 1, Buy, None, Some(6.0), 0)
  const STALE: Prices := map[1 := 10.0]

  lemma StaleMessagesAreLegal()
    ensures LegalItems(map[], map[], Insert, [LISTED]) && LegalItems(Listed([LISTED]), map[], Update, [UPDATED])
  {
    OneLegalItem(map[], Insert, LISTED);
    assert DropLast([LISTED]) == [];
    assert Listed([LISTED]) == map[1 := Live("XBTUSD", Buy, 11.0, 5.0)];
    OneLegalItem(Listed([LISTED]), Update, UPDATED);
  }

  /** An id that was cached, vanished unobserved and is listed again at another price: the partial is
      published exactly, but the cache keeps the old price, so the next update of that level is published
      at a price where the exchange has nothing. */
  lemma StalePriceMisleads(discard: Discard)
    requires !discard("XBTUSD")
    ensures LegalItems(map[], map[], Insert, [LISTED]) && LegalItems(Listed([LISTED]), map[], Update, [UPDATED])
    ensures var partial := OnMessage(discard, false, STALE, Partial, [LISTED], {});
      var update := OnMessage(discard, true, partial.prices, Update, [UPDATED], {});
      && partial.published == [Publication("XBTUSD", [MBPUpdate(11.0, 5.0)], [], true, 0)]
      && partial.prices == STALE
      && update.published == [Publication("XBTUSD", [MBPUpdate(10.0, 6.0)], [], false, 0)]
  {
    StaleMessagesAreLegal();
    OneLevelMessage(discard, false, STALE, Partial, LISTED, {});
    OneLevelMessage(discard, true, STALE, Update, UPDATED, {});
  }

  lemma OneLegalItem(x: LiveBook, action: Action, item: Level)
    requires LegalItem(x, map[], action, item)
    ensures LegalItems(x, map[], action, [item])
  {
    assert DropLast([item]) == [];
  }

  lemma OneLevelScan(discard: Discard, prices: Prices, action: Action, item: Level)
    requires !discard(item.symbol) && item.side == Buy
    requires AnswerTo(prices, RequestOf(action, item)).Answer? && AnswerTo(prices, RequestOf(action, item)).price.Some?
    ensures var answer := AnswerTo(prices, RequestOf(action, item));
      ScanItems(discard, action, prices, [item]) ==
      Scan(PricesAfter(prices, RequestOf(action, item)),
           [Entry(item.symbol, Some(Quote(Buy, answer.price.value, answer.size, item.timestamp)))], None)
  {
    assert DropLast([item]) == [];
    assert ScanItems(discard, action, prices, []) == Scan(prices, [], None);
    assert ScanItems(discard, action, prices, [item]) == ScanItem(discard, action, Scan(prices, [], None), item);
  }

  /** A message of one kept level that resolves publishes that level. */
  lemma OneLevelMessage(discard: Discard, latch: bool, prices: Prices, action: Action, item: Level, rejected: set<nat>)
    requires latch || action == Partial
    requires item.symbol != "" && !discard(item.symbol) && item.side == Buy && item.timestamp == 0
    requires AnswerTo(prices, RequestOf(action, item)).Answer? && AnswerTo(prices, RequestOf(action, item)).price.Some?
    ensures var step, answer :=
            OnMessage(discard, latch, prices, action, [item], rejected), AnswerTo(prices, RequestOf(action, item));
      && step.outcome == Completed && step.prices == PricesAfter(prices, RequestOf(action, item))
      && step.published == [Publication(item.symbol, [MBPUpdate(answer.price.value, answer.size)], [],
                                        action == Partial, 0)]
      && (action == Partial ==> step.latch)
  {
    var answer := AnswerTo(prices, RequestOf(action, item));
    OneLevelScan(discard, prices, action, item);
    OneLevelSegment(discard, action == Partial,
                    Entry(item.symbol, Some(Quote(Buy, answer.price.value, answer.size, 0))));
  }

  lemma OneLevelSegment(discard: Discard, snapshot: bool, e: Entry)
    requires e.symbol != "" && !discard(e.symbol) && e.quote.Some? && e.quote.value.side == Buy
    requires e.quote.value.timestamp == 0
    ensures PublishAll(discard, snapshot, Segments([e])) ==
              [Publication(e.symbol, [MBPUpdate(e.quote.value.price, e.quote.value.size)], [], snapshot, 0)]
  {
    var g: Segment := [e];
    assert DropLast(g) == [];
    assert Segments([e]) == [g];
    assert Levels([], Buy) == [] && Levels([], Sell) == [] && Latest([]) == 0;
    assert Levels(g, Buy) == [MBPUpdate(e.quote.value.price, e.quote.value.size)] && Levels(g, Sell) == []
           && Latest(g) == 0;
    OnlyPublication(discard, snapshot, g);
  }
}

/** What one order-book message does: which price each level resolves to, how the levels are cut into
    publications, and when the handler stops early. The imperative handler in `MarketData` is proved
    to compute `OnMessage`. */
module OrderBook {
  import opened Common
  import opened PriceCaching

  /** One level of an order-book message. */
  datatype Level = Level(symbol: string, id: Id, side: Side, price: Option<real>, size: Option<real>, timestamp: int)

  /** A level whose price was resolved; `side` is Buy or Sell. */
  datatype Quote = Quote(side: Side, price: real, size: real, timestamp: int)

  /** What is left of an item: its symbol and, unless its symbol is discarded, its resolved level. */
  datatype Entry = Entry(symbol: string, quote: Option<Quote>)

  /** Consecutive entries that are published together. */
  type Segment = g: seq<Entry> | g != [] witness [Entry("", None)]

  datatype MBPUpdate = MBPUpdate(price: real, quantity: real)

  datatype Publication = Publication(symbol: string, bids: seq<MBPUpdate>, asks: seq<MBPUpdate>, snapshot: bool,
                                     timestamp: int)

  datatype Outcome = Dropped | Completed | Closed | Fatal

  // ---- resolving prices ----

  /** How far a message was scanned: `halt` says why the scan stopped at item `|entries|`. */
  datatype Scan = Scan(prices: Prices, entries: seq<Entry>, halt: Option<Outcome>)

  function RequestOf(action: Action, item: Level): Request {
    Request(action, item.id, item.price, item.size)
  }

  function ScanItem(discard: Discard, action: Action, s: Scan, item: Level): Scan {
    if discard(item.symbol) then
      s.(entries := s.entries + [Entry(item.symbol, None)])
    else
      var r := RequestOf(action, item);
      var after := PricesAfter(s.prices, r);
      match AnswerTo(s.prices, r)
      case Abort => s.(halt := Some(Fatal))
      case Answer(None, _) => Scan(after, s.entries, Some(Closed))
      case Answer(Some(price), size) =>
        if item.side == UnknownSide then
          Scan(after, s.entries, Some(Fatal))
        else
          Scan(after, s.entries + [Entry(item.symbol, Some(Quote(item.side, price, size, item.timestamp)))], None)
  }

  function ScanItems(discard: Discard, action: Action, prices: Prices, items: seq<Level>): (s: Scan)
    ensures |s.entries| <= |items|
    ensures s.halt.None? ==> |s.entries| == |items|
    ensures s.halt.Some? ==> |s.entries| < |items| && (s.halt.value == Closed || s.halt.value == Fatal)
  {
    if items == [] then
      Scan(prices, [], None)
    else
      var s := ScanItems(discard, action, prices, DropLast(items));
      if s.halt.Some? then s else ScanItem(discard, action, s, Last(items))
  }

  // ---- cutting a message into publications ----

  /** The handler starts a new segment at a change of symbol, except after an empty symbol. */
  predicate Breaks(a: string, b: string) {
    a != "" && a != b
  }

  /** The longest stretches of `es` without a break between neighbours. */
  function Cut(breaks: (string, string) -> bool, es: seq<Entry>): (segments: seq<Segment>)
    ensures es == [] <==> segments == []
    ensures es != [] ==> Last(Last(segments)) == Last(es)
  {
    if es == [] then
      []
    else
      var segments := Cut(breaks, DropLast(es));
      if segments != [] && !breaks(Last(DropLast(es)).symbol, Last(es).symbol) then
        DropLast(segments) + [Last(segments) + [Last(es)]]
      else
        segments + [[Last(es)]]
  }

  function Segments(es: seq<Entry>): seq<Segment> {
    Cut(Breaks, es)
  }

  function Levels(g: seq<Entry>, side: Side): seq<MBPUpdate> {
    if g == [] then
      []
    else
      var rest, e := Levels(DropLast(g), side), Last(g);
      if e.quote.Some? && e.quote.value.side == side then
        rest + [MBPUpdate(e.quote.value.price, e.quote.value.size)]
      else
        rest
  }

  /** The latest time of the resolved levels, or zero. */
  function Latest(g: seq<Entry>): int {
    if g == [] then
      0
    else
      var rest, e := Latest(DropLast(g)), Last(g);
      if e.quote.Some? then Max(rest, e.quote.value.timestamp) else rest
  }

  /** The publication of a segment, or none: there is nothing to say about an empty or discarded
      symbol, nor about a segment without levels. */
  function ToPublication(discard: Discard, snapshot: bool, g: Segment): seq<Publication>
  {
    var symbol, bids, asks := Last(g).symbol, Levels(g, Buy), Levels(g, Sell);
    if symbol == "" || discard(symbol) || (bids == [] && asks == []) then
      []
    else
      [Publication(symbol, bids, asks, snapshot, Latest(g))]
  }

  function PublishAll(discard: Discard, snapshot: bool, gs: seq<Segment>): seq<Publication>
  {
    if gs == [] then [] else PublishAll(discard, snapshot, DropLast(gs)) + ToPublication(discard, snapshot, Last(gs))
  }

  // ---- the whole message ----

  /** What a message leaves behind: the latch, the cache and what was published. */
  datatype Step = Step(latch: bool, prices: Prices, published: seq<Publication>, outcome: Outcome)

  /** `rejected` holds the positions of the publications for which the consumer raised `BadState`. */
  predicate AnyRejected(published: seq<Publication>, rejected: set<nat>) {
    exists k :: k in rejected && k < |published|
  }

  /** The segments that were finished when the scan stopped at `item`. */
  function Finished(es: seq<Entry>, item: Level): seq<Segment> {
    DropLast(Segments(es + [Entry(item.symbol, None)]))
  }

  function OnMessage(
    discard: Discard, latch: bool, prices: Prices, action: Action, items: seq<Level>, rejected: set<nat>): Step
  {
    var snapshot := action == Partial;
    if !snapshot && !latch then
      Step(latch, prices, [], Dropped)
    else
      var s := ScanItems(discard, action, prices, items);
      match s.halt
      case None =>
        var published := PublishAll(discard, snapshot, Segments(s.entries));
        Step(snapshot || !AnyRejected(published, rejected), s.prices, published, Completed)
      case Some(outcome) =>
        var published := PublishAll(discard, snapshot, Finished(s.entries, items[|s.entries|]));
        Step(latch && !AnyRejected(published, rejected), s.prices, published, outcome)
  }
}

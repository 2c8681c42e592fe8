/** Whole runs of the market-data stream: every event it handles, in any order. Its session, its
    order-book gate and its products are those of the component machines, so what is proved about each
    component holds of the stream. */
module StreamRuns {
  import opened Common
  import opened PriceCaching
  import opened OrderBook
  import opened ConsumerBook
  import opened Exchange
  import opened MarketDataStream
  import Downloading
  import Products
  import Instruments
  import Trades
  import Session = MarketSession
  import Gating = BookGating
  import Refinement = BookRefinement

  datatype Event =
    | SocketReady
    | SocketLost
    | Welcome
    | InstrumentMessage(action: Action, instruments: seq<Products.InstrumentItem>)
    | BookMessage(action: Action, levels: seq<Level>, rejected: set<nat>)
    | TradeMessage(action: Action, trades: seq<Trades.TradeItem>)
    | FundingMessage(fundings: seq<Products.FundingItem>)

  datatype Stream = Stream(session: Session.Session, latch: bool, prices: Prices, products: Instruments.Cache)

  const START := Stream(Session.FRESH, false, map[], map[])

  /** What one event makes of the stream, and what is sent; these are the contracts of the methods of
      `MarketData`. */
  function Handle(discard: Discard, zeroIsAbsent: bool, s: Stream, e: Event): (Stream, seq<Outgoing>) {
    match e
    case SocketReady => var (session, notices) := Session.Handle(s.session, Session.SocketReady);
      (s.(session := session), Tell(notices))
    case SocketLost => var (session, notices) := Session.Handle(s.session, Session.SocketLost);
      (s.(session := session, latch := false), Tell(notices))
    case Welcome => var (session, notices) := Session.Handle(s.session, Session.Welcome);
      (s.(session := session), Tell(notices))
    case InstrumentMessage(action, items) =>
      var (products, session, sent) := AfterInstrument(discard, zeroIsAbsent, s.products, s.session, [], action, items);
      (s.(products := products, session := session), sent)
    case BookMessage(action, items, rejected) =>
      var b := AfterOrderBook(discard, BookState(s.latch, s.prices, s.session, []), action, items, rejected).1;
      (Stream(b.session, b.latch, b.prices, s.products), b.sent)
    case TradeMessage(action, items) => (s, TellSummaries(Trades.OnTrade(discard, action, items)))
    case FundingMessage(items) =>
      (s.(products := Instruments.TouchedAll(discard, zeroIsAbsent, s.products, Instruments.Fundings(items)).0), [])
  }

  // ---- the object is the machine ----

  ghost function StreamOf(m: MarketData): Stream
    reads m, m.cache, m.products.Values
  {
    Stream(m.SessionNow(), m.partialOrderBook, m.cache.lookup, m.ProductsNow())
  }

  /** What an event adds to what was sent before. */
  function Extends(sent: seq<Outgoing>, step: (Stream, seq<Outgoing>)): (Stream, seq<Outgoing>) {
    (step.0, sent + step.1)
  }

  lemma Reassociate(sent: seq<Outgoing>, a: seq<Outgoing>, b: seq<Outgoing>)
    ensures sent + a + b == sent + ([] + a + b)
  {
  }

  lemma SentExtends(
    sent: seq<Outgoing>, discard: Discard, zeroIsAbsent: bool, cache: Instruments.Cache, s: Session.Session,
    action: Action, items: seq<Products.InstrumentItem>)
    ensures var (after, session, more) := AfterInstrument(discard, zeroIsAbsent, cache, s, [], action, items);
      AfterInstrument(discard, zeroIsAbsent, cache, s, sent, action, items) == (after, session, sent + more)
  {
    var us := Instruments.TouchedAll(discard, zeroIsAbsent, cache, Instruments.Touches(s.instrument, action, items)).1;
    var notices := if action == Partial then Session.Handle(s, Session.InstrumentPartial).1 else [];
    Reassociate(sent, TellUpdates(us), Tell(notices));
  }

  lemma BookExtends(
    sent: seq<Outgoing>, discard: Discard, s: Stream, action: Action, items: seq<Level>, rejected: set<nat>)
    ensures var (outcome, b) :=
            AfterOrderBook(discard, BookState(s.latch, s.prices, s.session, []), action, items, rejected);
      AfterOrderBook(discard, BookState(s.latch, s.prices, s.session, sent), action, items, rejected) ==
      (outcome, b.(sent := sent + b.sent))
  {
    var step := OnMessage(discard, s.latch, s.prices, action, items, rejected);
    Reassociate(sent, TellBooks(step.published, rejected), Conclusion(s.session, action, step.outcome));
  }

  lemma InstrumentsExtend(
    sent: seq<Outgoing>, discard: Discard, zeroIsAbsent: bool, s: Stream, action: Action,
    items: seq<Products.InstrumentItem>)
    ensures var (products, session, all) :=
              AfterInstrument(discard, zeroIsAbsent, s.products, s.session, sent, action, items);
      (s.(products := products, session := session), all) ==
      Extends(sent, Handle(discard, zeroIsAbsent, s, InstrumentMessage(action, items)))
  {
    SentExtends(sent, discard, zeroIsAbsent, s.products, s.session, action, items);
  }

  method ReadInstruments(m: MarketData, action: Action, items: seq<Products.InstrumentItem>)
    requires m.Valid()
    modifies m, m.products.Values
    ensures m.Valid() && fresh(m.products.Values - old(m.products.Values))
    ensures (StreamOf(m), m.sent) ==
            Extends(old(m.sent), Handle(m.discard, m.zeroIsAbsent, old(StreamOf(m)), InstrumentMessage(action, items)))
  {
    InstrumentsExtend(m.sent, m.discard, m.zeroIsAbsent, StreamOf(m), action, items);
    var _ := m.OnInstrument(action, items);
  }

  method ReadBook(m: MarketData, action: Action, levels: seq<Level>, rejected: set<nat>)
    requires m.Valid()
    modifies m, m.cache
    ensures m.Valid() && m.products == old(m.products)
    ensures (StreamOf(m), m.sent) ==
            Extends(old(m.sent), Handle(m.discard, m.zeroIsAbsent, old(StreamOf(m)),
                                        BookMessage(action, levels, rejected)))
  {
    BookExtends(m.sent, m.discard, StreamOf(m), action, levels, rejected);
    var _ := m.OnOrderBook(action, levels, rejected);
  }

  method ReadFundings(m: MarketData, fundings: seq<Products.FundingItem>)
    requires m.Valid()
    modifies m, m.products.Values
    ensures m.Valid() && fresh(m.products.Values - old(m.products.Values))
    ensures (StreamOf(m), m.sent) ==
            Extends(old(m.sent), Handle(m.discard, m.zeroIsAbsent, old(StreamOf(m)), FundingMessage(fundings)))
  {
    assert m.sent + [] == m.sent;
    m.OnFunding(fundings);
  }

  method ReadTrades(m: MarketData, action: Action, trades: seq<Trades.TradeItem>)
    requires m.Valid()
    modifies m`trades, m`sent
    ensures (StreamOf(m), m.sent) ==
            Extends(old(m.sent), Handle(m.discard, m.zeroIsAbsent, old(StreamOf(m)), TradeMessage(action, trades)))
  {
    m.OnTrade(action, trades);
  }

  /** The events that concern the session alone. */
  method ReadSignal(m: MarketData, e: Event)
    requires m.Valid() && (e.SocketReady? || e.SocketLost? || e.Welcome?)
    modifies m
    ensures m.Valid() && m.products == old(m.products)
    ensures (StreamOf(m), m.sent) == Extends(old(m.sent), Handle(m.discard, m.zeroIsAbsent, old(StreamOf(m)), e))
  {
    match e
    case SocketReady => m.OnSocketReady();
    case SocketLost => m.OnSocketLost();
    case Welcome => m.OnWelcome();
  }

  /** Each method of the object does what the machine does with its event, so what is proved about runs of
      the machine holds of the object. */
  method Deliver(m: MarketData, e: Event)
    requires m.Valid()
    modifies m, m.cache, m.products.Values
    ensures m.Valid() && fresh(m.products.Values - old(m.products.Values))
    ensures (StreamOf(m), m.sent) == Extends(old(m.sent), Handle(m.discard, m.zeroIsAbsent, old(StreamOf(m)), e))
  {
    match e
    case InstrumentMessage(action, items) => ReadInstruments(m, action, items);
    case BookMessage(action, levels, rejected) => ReadBook(m, action, levels, rejected);
    case FundingMessage(fundings) => ReadFundings(m, fundings);
    case TradeMessage(action, trades) => ReadTrades(m, action, trades);
    case _ => ReadSignal(m, e);
  }

  // ---- runs ----

  function After(discard: Discard, zeroIsAbsent: bool, s: Stream, es: seq<Event>): (Stream, seq<Outgoing>) {
    if es == [] then
      (s, [])
    else
      var (t, sent) := After(discard, zeroIsAbsent, s, DropLast(es));
      var (u, more) := Handle(discard, zeroIsAbsent, t, Last(es));
      (u, sent + more)
  }

  // ---- the session ----

  function SignalOf(discard: Discard, s: Stream, e: Event): Session.Signal {
    match e
    case SocketReady => Session.SocketReady
    case SocketLost => Session.SocketLost
    case Welcome => Session.Welcome
    case InstrumentMessage(action, _) => if action == Partial then Session.InstrumentPartial else Session.Quiet
    case BookMessage(action, items, rejected) =>
      if Gating.Opens(discard, Gating.Gate(s.latch, s.prices), Gating.Message(action, items, rejected))
        then Session.BookPartial else Session.Quiet
    case _ => Session.Quiet
  }

  /** One signal for each event. */
  function Signals(discard: Discard, zeroIsAbsent: bool, s: Stream, es: seq<Event>): (signals: seq<Session.Signal>)
    ensures |signals| == |es|
  {
    if es == [] then
      []
    else
      Signals(discard, zeroIsAbsent, s, DropLast(es)) +
        [SignalOf(discard, After(discard, zeroIsAbsent, s, DropLast(es)).0, Last(es))]
  }

  /** How often a notice was sent. */
  function CountTold(sent: seq<Outgoing>, n: Session.Notice): nat {
    if sent == [] then 0 else CountTold(DropLast(sent), n) + if Last(sent) == Told(n) then 1 else 0
  }

  lemma {:induction false} CountToldConcat(a: seq<Outgoing>, b: seq<Outgoing>, n: Session.Notice)
    ensures CountTold(a + b, n) == CountTold(a, n) + CountTold(b, n)
  {
    if b == [] {
      assert a + b == a;
    } else {
      assert DropLast(a + b) == a + DropLast(b);
      CountToldConcat(a, DropLast(b), n);
    }
  }

  lemma {:induction false} CountToldNotices(ns: seq<Session.Notice>, n: Session.Notice)
    ensures CountTold(Tell(ns), n) == Session.Count(ns, n)
  {
    if ns != [] {
      assert DropLast(Tell(ns)) == Tell(DropLast(ns));
      CountToldNotices(DropLast(ns), n);
    }
  }

  lemma {:induction false} CountsWhatIsSent(sent: seq<Outgoing>, n: Session.Notice)
    ensures CountTold(sent, n) == 0 <==> Told(n) !in sent
  {
    if sent != [] {
      assert sent == DropLast(sent) + [Last(sent)];
      CountsWhatIsSent(DropLast(sent), n);
    }
  }

  /** The notices that only the session sends. */
  predicate Watched(n: Session.Notice) {
    n == Session.Report(Ready) || n == Session.Subscribe(Session.REMAINING_TOPICS)
    || n == Session.Subscribe(["instrument"])
  }

  lemma {:induction false} BooksDoNotTell(ps: seq<Publication>, rejected: set<nat>, n: Session.Notice)
    requires Watched(n)
    ensures Told(n) !in TellBooks(ps, rejected)
  {
    if ps != [] {
      assert |["orderBookL2"]| != |Session.REMAINING_TOPICS| && ["orderBookL2"][0] != ["instrument"][0];
      BooksDoNotTell(DropLast(ps), rejected, n);
    }
  }

  lemma ToldAfterUpdates(us: seq<Instruments.Update>, notices: seq<Session.Notice>, n: Session.Notice)
    ensures CountTold([] + TellUpdates(us) + Tell(notices), n) == Session.Count(notices, n)
  {
    CountsWhatIsSent([] + TellUpdates(us), n);
    CountToldNotices(notices, n);
    CountToldConcat([] + TellUpdates(us), Tell(notices), n);
  }

  lemma ToldAfterBooks(
    ps: seq<Publication>, rejected: set<nat>, close: seq<Outgoing>, notices: seq<Session.Notice>, n: Session.Notice)
    requires Watched(n) && (close == [] || close == [CloseSocket])
    ensures CountTold([] + TellBooks(ps, rejected) + (close + Tell(notices)), n) == Session.Count(notices, n)
  {
    BooksDoNotTell(ps, rejected, n);
    CountsWhatIsSent([] + TellBooks(ps, rejected), n);
    CountsWhatIsSent(close, n);
    CountToldNotices(notices, n);
    CountToldConcat(close, Tell(notices), n);
    CountToldConcat([] + TellBooks(ps, rejected), close + Tell(notices), n);
  }

  /** An order-book message moves the session by its signal. */
  lemma BookSignal(discard: Discard, s: Stream, action: Action, items: seq<Level>, rejected: set<nat>)
    ensures AfterBook(s.session, action, OnMessage(discard, s.latch, s.prices, action, items, rejected).outcome) ==
            Session.Handle(s.session, SignalOf(discard, s, BookMessage(action, items, rejected)))
  {
  }

  lemma BookSessionStep(
    discard: Discard, s: Stream, action: Action, items: seq<Level>, rejected: set<nat>, n: Session.Notice)
    requires Watched(n)
    ensures var b := AfterOrderBook(discard, BookState(s.latch, s.prices, s.session, []), action, items, rejected).1;
      var (session, notices) := Session.Handle(s.session, SignalOf(discard, s, BookMessage(action, items, rejected)));
      b.session == session && CountTold(b.sent, n) == Session.Count(notices, n)
  {
    var step := OnMessage(discard, s.latch, s.prices, action, items, rejected);
    BookSignal(discard, s, action, items, rejected);
    ToldAfterBooks(step.published, rejected, if step.outcome == Closed then [CloseSocket] else [],
                   AfterBook(s.session, action, step.outcome).1, n);
  }

  lemma InstrumentSessionStep(
    discard: Discard, zeroIsAbsent: bool, cache: Instruments.Cache, s: Session.Session,
    action: Action, items: seq<Products.InstrumentItem>, n: Session.Notice)
    ensures var (_, session, sent) := AfterInstrument(discard, zeroIsAbsent, cache, s, [], action, items);
      var (session', notices) :=
        Session.Handle(s, if action == Partial then Session.InstrumentPartial else Session.Quiet);
      session == session' && CountTold(sent, n) == Session.Count(notices, n)
  {
    var us := Instruments.TouchedAll(discard, zeroIsAbsent, cache, Instruments.Touches(s.instrument, action, items)).1;
    ToldAfterUpdates(us, if action == Partial then Session.Handle(s, Session.InstrumentPartial).1 else [], n);
  }

  /** One event moves the session by its signal, and sends the session's notices as often as that does. */
  lemma SessionStep(discard: Discard, zeroIsAbsent: bool, s: Stream, e: Event, n: Session.Notice)
    requires Watched(n)
    ensures var (t, sent) := Handle(discard, zeroIsAbsent, s, e);
      var (session, notices) := Session.Handle(s.session, SignalOf(discard, s, e));
      t.session == session && CountTold(sent, n) == Session.Count(notices, n)
  {
    match e
    case BookMessage(action, items, rejected) => BookSessionStep(discard, s, action, items, rejected, n);
    case InstrumentMessage(action, items) =>
      InstrumentSessionStep(discard, zeroIsAbsent, s.products, s.session, action, items, n);
    case TradeMessage(action, items) => CountsWhatIsSent(TellSummaries(Trades.OnTrade(discard, action, items)), n);
    case _ => CountToldNotices(Session.Handle(s.session, SignalOf(discard, s, e)).1, n);
  }

  lemma {:induction false} SessionFollowsSignals(
    discard: Discard, zeroIsAbsent: bool, s: Stream, es: seq<Event>, n: Session.Notice)
    requires Watched(n)
    ensures var (t, sent) := After(discard, zeroIsAbsent, s, es);
      var signals := Signals(discard, zeroIsAbsent, s, es);
      t.session == Session.After(s.session, signals)
      && CountTold(sent, n) == Session.Count(Session.Notices(s.session, signals), n)
  {
    if es != [] {
      var (t, sent) := After(discard, zeroIsAbsent, s, DropLast(es));
      var signals := Signals(discard, zeroIsAbsent, s, DropLast(es));
      SessionFollowsSignals(discard, zeroIsAbsent, s, DropLast(es), n);
      SessionStep(discard, zeroIsAbsent, t, Last(es), n);
      CountToldConcat(sent, Handle(discard, zeroIsAbsent, t, Last(es)).1, n);
      assert DropLast(Signals(discard, zeroIsAbsent, s, es)) == signals;
      Session.CountConcat(Session.Notices(s.session, signals),
                          Session.Handle(t.session, SignalOf(discard, t, Last(es))).1, n);
    }
  }

  /** Where a session starts: before the first connection, or after a lost socket. */
  predicate StartsSession(before: seq<Event>) {
    before == [] || Last(before) == SocketLost
  }

  lemma SessionsStartFresh(discard: Discard, zeroIsAbsent: bool, before: seq<Event>)
    requires StartsSession(before)
    ensures var s := After(discard, zeroIsAbsent, START, before).0.session;
      s.download == Session.FRESH.download && !s.ready && !s.instrument
  {
  }

  lemma {:induction false} NoneLost(discard: Discard, zeroIsAbsent: bool, s: Stream, es: seq<Event>)
    requires forall e :: e in es ==> e != SocketLost
    ensures forall k :: 0 <= k < |es| ==> Signals(discard, zeroIsAbsent, s, es)[k] != Session.SocketLost
  {
    if es != [] {
      assert Last(es) in es && forall e :: e in DropLast(es) ==> e in es;
      NoneLost(discard, zeroIsAbsent, s, DropLast(es));
    }
  }

  /** Download safety of the stream: in every session, the first and those after a lost socket, after each
      event: the stream is ready, and has reported READY once, exactly when the first instrument partial
      came after a welcome and an order-book partial was read to its end after it, with no further welcome
      in between; and it has requested the remaining topics once exactly when that instrument partial came. */
  lemma StreamReadyExactlyWhen(discard: Discard, zeroIsAbsent: bool, before: seq<Event>, es: seq<Event>)
    requires StartsSession(before) && forall e :: e in es ==> e != SocketLost
    ensures var s := After(discard, zeroIsAbsent, START, before).0;
      var (t, sent) := After(discard, zeroIsAbsent, s, es);
      var signals := Signals(discard, zeroIsAbsent, s, es);
      && (t.session.ready <==> exists i, j :: Session.Completed(signals, i, j))
      && CountTold(sent, Session.Report(Ready)) == (if t.session.ready then 1 else 0)
      && CountTold(sent, Session.Subscribe(Session.REMAINING_TOPICS)) == if exists i ::
         Session.Opened(signals, i) then 1 else 0
  {
    var s := After(discard, zeroIsAbsent, START, before).0;
    SessionsStartFresh(discard, zeroIsAbsent, before);
    SessionFollowsSignals(discard, zeroIsAbsent, s, es, Session.Report(Ready));
    SessionFollowsSignals(discard, zeroIsAbsent, s, es, Session.Subscribe(Session.REMAINING_TOPICS));
    NoneLost(discard, zeroIsAbsent, s, es);
    Session.ReadyExactlyWhen(s.session, Signals(discard, zeroIsAbsent, s, es));
  }

  // ---- the order-book gate ----

  function GateOf(s: Stream): Gating.Gate {
    Gating.Gate(s.latch, s.prices)
  }

  function GateEvent(e: Event): Gating.Event {
    match e
    case BookMessage(action, items, rejected) => Gating.Message(action, items, rejected)
    case SocketLost => Gating.Disconnected
    case _ => Gating.Other
  }

  function GateEvents(es: seq<Event>): (gs: seq<Gating.Event>)
    ensures |gs| == |es| && forall i :: 0 <= i < |es| ==> gs[i] == GateEvent(es[i])
  {
    seq(|es|, i requires 0 <= i < |es| => GateEvent(es[i]))
  }

  function Gates(discard: Discard, zeroIsAbsent: bool, es: seq<Event>): (gates: seq<Gating.Gate>)
    ensures |gates| == |es| + 1 && forall i :: 0 <= i <= |es| ==>
            gates[i] == GateOf(After(discard, zeroIsAbsent, START, es[..i]).0)
  {
    seq(|es| + 1, i requires 0 <= i <= |es| => GateOf(After(discard, zeroIsAbsent, START, es[..i]).0))
  }

  lemma GateStep(discard: Discard, zeroIsAbsent: bool, s: Stream, e: Event)
    ensures GateOf(Handle(discard, zeroIsAbsent, s, e).0) == Gating.Next(discard, GateOf(s), GateEvent(e))
  {
  }

  lemma AfterOneMore(discard: Discard, zeroIsAbsent: bool, es: seq<Event>, i: nat)
    requires i < |es|
    ensures After(discard, zeroIsAbsent, START, es[..i + 1]).0 ==
            Handle(discard, zeroIsAbsent, After(discard, zeroIsAbsent, START, es[..i]).0, es[i]).0
  {
    assert DropLast(es[..i + 1]) == es[..i];
  }

  /** Nothing but order-book messages and lost sockets moves the gate, and these move it as `BookGating`
      says; so its theorems hold of the gates of every run of the stream. */
  lemma GatesAreRun(discard: Discard, zeroIsAbsent: bool, es: seq<Event>)
    ensures Gating.IsRun(discard, Gates(discard, zeroIsAbsent, es), GateEvents(es))
  {
    var gates, gs := Gates(discard, zeroIsAbsent, es), GateEvents(es);
    forall i | 0 <= i < |es| ensures gates[i + 1] == Gating.Next(discard, gates[i], gs[i]) {
      AfterOneMore(discard, zeroIsAbsent, es, i);
      GateStep(discard, zeroIsAbsent, After(discard, zeroIsAbsent, START, es[..i]).0, es[i]);
    }
  }

  /** An incremental message changes the cache or opens the latch of the stream only if an order-book
      partial was read to its end before, with no lost socket and no rejected book since. */
  lemma StreamGating(discard: Discard, zeroIsAbsent: bool, es: seq<Event>, n: nat)
    requires n < |es| && es[n].BookMessage? && es[n].action != Partial
    requires var s := After(discard, zeroIsAbsent, START, es[..n]).0;
      OnMessage(discard, s.latch, s.prices, es[n].action, es[n].levels, es[n].rejected).outcome != Dropped
    ensures exists k :: Gating.OpenSince(discard, Gates(discard, zeroIsAbsent, es), GateEvents(es), k, n)
  {
    GatesAreRun(discard, zeroIsAbsent, es);
    Gating.LatchOpenExactlyWhen(discard, Gates(discard, zeroIsAbsent, es), GateEvents(es), n);
  }

  // ---- the consumer's book ----

  /** The book of a consumer that folds, of what the stream sent, every publication it accepted. */
  function Folded(book: Book, sent: seq<Outgoing>): Book {
    if sent == [] then
      book
    else
      var before := Folded(book, DropLast(sent));
      match Last(sent)
      case Book(p, accepted) => if accepted then ApplyPublication(before, p) else before
      case _ => before
  }

  lemma {:induction false} FoldedConcat(book: Book, a: seq<Outgoing>, b: seq<Outgoing>)
    ensures Folded(book, a + b) == Folded(Folded(book, a), b)
  {
    if b == [] {
      assert a + b == a;
    } else {
      assert DropLast(a + b) == a + DropLast(b);
      FoldedConcat(book, a, DropLast(b));
    }
  }

  lemma {:induction false} NothingFolded(book: Book, sent: seq<Outgoing>)
    requires forall o :: o in sent ==> !o.Book?
    ensures Folded(book, sent) == book
  {
    if sent != [] {
      assert Last(sent) in sent && forall o :: o in DropLast(sent) ==> o in sent;
      NothingFolded(book, DropLast(sent));
    }
  }

  lemma OneFolded(book: Book, p: Publication, k: nat, rejected: set<nat>)
    ensures Folded(book, TellBook(p, k, rejected)) == if k in rejected then book else ApplyPublication(book, p)
  {
    var first, rest := [Outgoing.Book(p, k !in rejected)], if k in rejected then RESUBSCRIBE else [];
    FoldedConcat(book, first, rest);
    assert DropLast(first) == [];
    NothingFolded(Folded(book, first), rest);
  }

  lemma {:induction false} BooksFolded(book: Book, ps: seq<Publication>, rejected: set<nat>)
    ensures Folded(book, TellBooks(ps, rejected)) == ApplyAccepted(book, ps, rejected)
  {
    if ps != [] {
      BooksFolded(book, DropLast(ps), rejected);
      FoldedConcat(book, TellBooks(DropLast(ps), rejected), TellBook(Last(ps), |ps| - 1, rejected));
      OneFolded(ApplyAccepted(book, DropLast(ps), rejected), Last(ps), |ps| - 1, rejected);
    }
  }

  lemma BookMessageFolds(discard: Discard, s: Stream, action: Action, items: seq<Level>, rejected: set<nat>, book: Book)
    ensures Folded(book, AfterOrderBook(discard, BookState(s.latch, s.prices, s.session, []), action, items,
                                        rejected).1.sent) ==
            ApplyAccepted(book, OnMessage(discard, s.latch, s.prices, action, items, rejected).published, rejected)
  {
    var step := OnMessage(discard, s.latch, s.prices, action, items, rejected);
    var books, conclusion := TellBooks(step.published, rejected), Conclusion(s.session, action, step.outcome);
    assert [] + books == books;
    BooksFolded(book, step.published, rejected);
    FoldedConcat(book, books, conclusion);
    NothingFolded(ApplyAccepted(book, step.published, rejected), conclusion);
  }

  lemma OthersFoldNothing(discard: Discard, zeroIsAbsent: bool, s: Stream, e: Event, book: Book)
    requires !e.BookMessage?
    ensures Folded(book, Handle(discard, zeroIsAbsent, s, e).1) == book
  {
    NothingFolded(book, Handle(discard, zeroIsAbsent, s, e).1);
  }

  /** What the exchange's book may do while the stream handles an event: it sends order-book messages as it
      changes, and any other change is one that the stream misses. */
  ghost predicate Moves(fixed: Prices, x: LiveBook, e: Event, x': LiveBook) {
    match e
    case BookMessage(action, levels, _) =>
      if action == Partial then Lists(fixed, levels, x) && x' == x
      else LegalItems(x, fixed, action, levels) && x' == ExchangeAfter(x, action, levels)
    case SocketLost => x' == x
    case _ => x' == x || WellFormed(x')
  }

  ghost predicate IsExchangeRun(fixed: Prices, es: seq<Event>, xs: seq<LiveBook>) {
    && |xs| == |es| + 1 && WellFormed(xs[0])
    && forall i :: 0 <= i < |es| ==> Moves(fixed, xs[i], es[i], xs[i + 1])
  }

  function HappeningOf(e: Event, x: LiveBook, x': LiveBook): Refinement.Happening {
    match e
    case BookMessage(action, levels, rejected) => Refinement.Feed(action, levels, rejected)
    case SocketLost => Refinement.Disconnected
    case _ => if x' == x then Refinement.Quiet else Refinement.Missed(x')
  }

  /** The exchange, the stream, and the consumer that folds what the stream sent, after `es`. */
  function WorldAfter(discard: Discard, zeroIsAbsent: bool, es: seq<Event>, x: LiveBook): Refinement.World {
    var (s, sent) := After(discard, zeroIsAbsent, START, es);
    Refinement.World(x, s.latch, s.prices, Folded(map[], sent))
  }

  function Worlds(discard: Discard, zeroIsAbsent: bool, es: seq<Event>, xs: seq<LiveBook>): (ws: seq<Refinement.World>)
    requires |xs| == |es| + 1
    ensures |ws| == |xs|
    ensures forall i :: 0 <= i < |ws| ==> ws[i] == WorldAfter(discard, zeroIsAbsent, es[..i], xs[i])
  {
    seq(|xs|, i requires 0 <= i < |xs| => WorldAfter(discard, zeroIsAbsent, es[..i], xs[i]))
  }

  function Happenings(es: seq<Event>, xs: seq<LiveBook>): (hs: seq<Refinement.Happening>)
    requires |xs| == |es| + 1
    ensures |hs| == |es| && forall i :: 0 <= i < |es| ==> hs[i] == HappeningOf(es[i], xs[i], xs[i + 1])
  {
    seq(|es|, i requires 0 <= i < |es| => HappeningOf(es[i], xs[i], xs[i + 1]))
  }

  /** One event is one step of exchange, gateway and consumer. */
  lemma WorldStep(
    discard: Discard, zeroIsAbsent: bool, fixed: Prices, s: Stream, book: Book, e: Event, x: LiveBook, x': LiveBook)
    requires Moves(fixed, x, e, x')
    ensures var (t, sent) := Handle(discard, zeroIsAbsent, s, e);
      var w, w' := Refinement.World(x, s.latch, s.prices, book),
        Refinement.World(x', t.latch, t.prices, Folded(book, sent));
      Refinement.Legal(fixed, w, HappeningOf(e, x, x')) && Refinement.Next(discard, w, HappeningOf(e, x, x'), w')
  {
    if e.BookMessage? {
      BookMessageFolds(discard, s, e.action, e.levels, e.rejected, book);
      Refinement.AcceptedReacts(book, OnMessage(discard, s.latch, s.prices, e.action, e.levels, e.rejected).published,
                                e.rejected);
    } else {
      OthersFoldNothing(discard, zeroIsAbsent, s, e, book);
    }
  }

  lemma WorldsStep(
    discard: Discard, zeroIsAbsent: bool, fixed: Prices, front: seq<Event>, e: Event, x: LiveBook, x': LiveBook)
    requires Moves(fixed, x, e, x')
    ensures var w, w' := WorldAfter(discard, zeroIsAbsent, front, x),
            WorldAfter(discard, zeroIsAbsent, front + [e], x');
      Refinement.Legal(fixed, w, HappeningOf(e, x, x')) && Refinement.Next(discard, w, HappeningOf(e, x, x'), w')
  {
    var (s, sent) := After(discard, zeroIsAbsent, START, front);
    assert DropLast(front + [e]) == front;
    FoldedConcat(map[], sent, Handle(discard, zeroIsAbsent, s, e).1);
    WorldStep(discard, zeroIsAbsent, fixed, s, Folded(map[], sent), e, x, x');
  }

  lemma TakeGrows(es: seq<Event>, i: nat)
    requires i < |es|
    ensures es[..i + 1] == es[..i] + [es[i]]
  {
  }

  lemma WorldsAreRun(discard: Discard, zeroIsAbsent: bool, fixed: Prices, es: seq<Event>, xs: seq<LiveBook>)
    requires IsExchangeRun(fixed, es, xs)
    ensures Refinement.IsRun(discard, fixed, Worlds(discard, zeroIsAbsent, es, xs), Happenings(es, xs))
    ensures Refinement.Untouched(Worlds(discard, zeroIsAbsent, es, xs)[0])
  {
    var ws, hs := Worlds(discard, zeroIsAbsent, es, xs), Happenings(es, xs);
    assert es[..0] == [];
    forall i | 0 <= i < |es|
      ensures Refinement.Legal(fixed, ws[i], hs[i]) && Refinement.Next(discard, ws[i], hs[i], ws[i + 1])
    {
      TakeGrows(es, i);
      WorldsStep(discard, zeroIsAbsent, fixed, es[..i], es[i], xs[i], xs[i + 1]);
    }
  }

  /** The stream missed nothing, nothing was rejected and the socket was not lost. */
  predicate IsGapless(es: seq<Event>, xs: seq<LiveBook>)
    requires |xs| == |es| + 1
  {
    forall i :: 0 <= i < |es| ==> Refinement.Gapless(HappeningOf(es[i], xs[i], xs[i + 1]))
  }

  predicate IsBookPartial(e: Event) {
    e.BookMessage? && e.action == Partial
  }

  lemma StartsWithPartial(es: seq<Event>, xs: seq<LiveBook>, n: nat)
    requires |xs| == |es| + 1 && n <= |es|
    ensures Refinement.Started(Happenings(es, xs), n) <==> exists i :: 0 <= i < n && IsBookPartial(es[i])
  {
    var hs := Happenings(es, xs);
    assert forall i :: 0 <= i < n ==> (Refinement.IsPartial(hs[i]) <==> IsBookPartial(es[i]));
  }

  /** Book refinement of the stream: over every run in which nothing is missed, rejected or disconnected,
      from the first order-book partial on, folding everything the stream sent gives, after each event, the
      exchange's book by price, and the stream's cache is exactly the kept live ids with their prices.
      Before it, nothing was cached and the fold is empty. */
  lemma StreamBookIsExact(discard: Discard, zeroIsAbsent: bool, es: seq<Event>, xs: seq<LiveBook>, n: nat)
    requires IsExchangeRun(map[], es, xs) && IsGapless(es, xs) && n <= |es|
    ensures if exists i :: 0 <= i < n && IsBookPartial(es[i]) then
              Refinement.InSync(discard, WorldAfter(discard, zeroIsAbsent, es[..n], xs[n]))
            else
              Refinement.Untouched(WorldAfter(discard, zeroIsAbsent, es[..n], xs[n]))
  {
    var ws, hs := Worlds(discard, zeroIsAbsent, es, xs), Happenings(es, xs);
    WorldsAreRun(discard, zeroIsAbsent, map[], es, xs);
    Refinement.GaplessRunRefines(discard, ws, hs, n);
    StartsWithPartial(es, xs, n);
  }

  predicate DenotesOnePrice(fixed: Prices, e: Event) {
    e.BookMessage? ==> forall level :: level in e.levels ==> level.id in fixed
  }

  lemma HappeningDenotes(fixed: Prices, e: Event, x: LiveBook, x': LiveBook)
    requires DenotesOnePrice(fixed, e)
    ensures Refinement.Denotes(fixed, HappeningOf(e, x, x'))
  {
  }

  /** Recovery of the stream: over every run in which each id denotes one price, whatever was missed,
      dropped, rejected or disconnected before: if a partial mentioned a kept symbol and its publication was
      accepted, and since then nothing was missed or dropped and nothing about the symbol rejected, then
      folding what the stream sent gives the exchange's book of the symbol, and the stream's cache covers
      the exchange. */
  lemma StreamRecovers(
    discard: Discard, zeroIsAbsent: bool, fixed: Prices, es: seq<Event>, xs: seq<LiveBook>, symbol: string, k: nat,
    n: nat)
    requires IsExchangeRun(fixed, es, xs) && forall i :: 0 <= i < |es| ==> DenotesOnePrice(fixed, es[i])
    requires Refinement.HeldSince(discard, Worlds(discard, zeroIsAbsent, es, xs), Happenings(es, xs), symbol, k, n)
    ensures WellFormed(xs[n])
    ensures Refinement.ExactFor(discard, xs[n], WorldAfter(discard, zeroIsAbsent, es[..n], xs[n]).book, symbol)
    ensures Covers(discard, xs[n], WorldAfter(discard, zeroIsAbsent, es[..n], xs[n]).prices)
  {
    var ws, hs := Worlds(discard, zeroIsAbsent, es, xs), Happenings(es, xs);
    WorldsAreRun(discard, zeroIsAbsent, fixed, es, xs);
    forall i | 0 <= i < n ensures Refinement.Denotes(fixed, hs[i]) {
      HappeningDenotes(fixed, es[i], xs[i], xs[i + 1]);
    }
    Refinement.ExactSincePartial(discard, fixed, ws, hs, symbol, k, n);
  }

  // ---- products ----

  /** What the products notice of an event. */
  function InstrumentEvent(e: Event): seq<Instruments.Event> {
    match e
    case InstrumentMessage(action, items) => [Instruments.InstrumentMessage(action, items)]
    case FundingMessage(items) => [Instruments.FundingMessage(items)]
    case SocketLost => [Instruments.Disconnected]
    case _ => []
  }

  function InstrumentEvents(es: seq<Event>): seq<Instruments.Event> {
    if es == [] then
      []
    else
      InstrumentEvents(DropLast(es)) + InstrumentEvent(Last(es))
  }

  /** The updates among what was sent. */
  function UpdatesIn(sent: seq<Outgoing>): seq<Instruments.Update> {
    if sent == [] then
      []
    else
      var before := UpdatesIn(DropLast(sent));
      if Last(sent).About? then before + [Last(sent).update] else before
  }

  lemma {:induction false} UpdatesInConcat(a: seq<Outgoing>, b: seq<Outgoing>)
    ensures UpdatesIn(a + b) == UpdatesIn(a) + UpdatesIn(b)
  {
    if b == [] {
      assert a + b == a;
    } else {
      assert DropLast(a + b) == a + DropLast(b);
      UpdatesInConcat(a, DropLast(b));
    }
  }

  lemma {:induction false} UpdatesTold(us: seq<Instruments.Update>)
    ensures UpdatesIn(TellUpdates(us)) == us
  {
    if us != [] {
      assert DropLast(TellUpdates(us)) == TellUpdates(DropLast(us));
      UpdatesTold(DropLast(us));
    }
  }

  lemma {:induction false} NoUpdates(sent: seq<Outgoing>)
    requires forall o :: o in sent ==> !o.About?
    ensures UpdatesIn(sent) == []
  {
    if sent != [] {
      assert Last(sent) in sent && forall o :: o in DropLast(sent) ==> o in sent;
      NoUpdates(DropLast(sent));
    }
  }

  lemma {:induction false} BooksAreNotUpdates(ps: seq<Publication>, rejected: set<nat>)
    ensures forall o :: o in TellBooks(ps, rejected) ==> !o.About?
  {
    if ps != [] {
      BooksAreNotUpdates(DropLast(ps), rejected);
    }
  }

  /** The items of one event that reach the products. */
  function TouchesOf(s: Stream, e: Event): seq<Instruments.Touch> {
    match e
    case InstrumentMessage(action, items) => Instruments.Touches(s.session.instrument, action, items)
    case FundingMessage(items) => Instruments.Fundings(items)
    case _ => []
  }

  lemma {:induction false} FundingsSendNothing(
    discard: Discard, zeroIsAbsent: bool, cache: Instruments.Cache, items: seq<Products.FundingItem>)
    ensures Instruments.TouchedAll(discard, zeroIsAbsent, cache, Instruments.Fundings(items)).1 == []
  {
    if items != [] {
      assert DropLast(Instruments.Fundings(items)) == Instruments.Fundings(DropLast(items));
      FundingsSendNothing(discard, zeroIsAbsent, cache, DropLast(items));
    }
  }

  lemma UpdatesAmongNotices(us: seq<Instruments.Update>, notices: seq<Session.Notice>)
    ensures UpdatesIn([] + TellUpdates(us) + Tell(notices)) == us
  {
    assert [] + TellUpdates(us) == TellUpdates(us);
    UpdatesTold(us);
    NoUpdates(Tell(notices));
    UpdatesInConcat(TellUpdates(us), Tell(notices));
    assert us + [] == us;
  }

  lemma InstrumentUpdates(
    discard: Discard, zeroIsAbsent: bool, cache: Instruments.Cache, s: Session.Session, action: Action,
    items: seq<Products.InstrumentItem>)
    ensures var (after, session, sent) := AfterInstrument(discard, zeroIsAbsent, cache, s, [], action, items);
      (after, UpdatesIn(sent)) ==
        Instruments.TouchedAll(discard, zeroIsAbsent, cache, Instruments.Touches(s.instrument, action, items))
  {
    UpdatesAmongNotices(Instruments.TouchedAll(discard, zeroIsAbsent, cache,
                                               Instruments.Touches(s.instrument, action, items)).1,
                        if action == Partial then Session.Handle(s, Session.InstrumentPartial).1 else []);
  }

  lemma BookSendsNoUpdates(discard: Discard, b: BookState, action: Action, items: seq<Level>, rejected: set<nat>)
    requires b.sent == []
    ensures UpdatesIn(AfterOrderBook(discard, b, action, items, rejected).1.sent) == []
  {
    var step := OnMessage(discard, b.latch, b.prices, action, items, rejected);
    BooksAreNotUpdates(step.published, rejected);
    NoUpdates(AfterOrderBook(discard, b, action, items, rejected).1.sent);
  }

  lemma OtherTouchesNothing(discard: Discard, zeroIsAbsent: bool, s: Stream, e: Event)
    requires !e.InstrumentMessage? && !e.BookMessage? && !e.FundingMessage?
    ensures Handle(discard, zeroIsAbsent, s, e).0.products == s.products
    ensures UpdatesIn(Handle(discard, zeroIsAbsent, s, e).1) == []
  {
    NoUpdates(Handle(discard, zeroIsAbsent, s, e).1);
  }

  /** One event changes the products, and sends updates, as its items do. */
  lemma ProductsStep(discard: Discard, zeroIsAbsent: bool, s: Stream, e: Event)
    ensures var (t, sent) := Handle(discard, zeroIsAbsent, s, e);
      (t.products, UpdatesIn(sent)) == Instruments.TouchedAll(discard, zeroIsAbsent, s.products, TouchesOf(s, e))
  {
    match e
    case InstrumentMessage(action, items) =>
      InstrumentUpdates(discard, zeroIsAbsent, s.products, s.session, action, items);
    case BookMessage(action, items, rejected) =>
      BookSendsNoUpdates(discard, BookState(s.latch, s.prices, s.session, []), action, items, rejected);
    case FundingMessage(items) => FundingsSendNothing(discard, zeroIsAbsent, s.products, items);
    case _ => OtherTouchesNothing(discard, zeroIsAbsent, s, e);
  }

  lemma TouchedOneMore(
    discard: Discard, zeroIsAbsent: bool, cache: Instruments.Cache, ts: seq<Instruments.Touch>, t: Instruments.Touch,
    before: Instruments.Cache, us: seq<Instruments.Update>)
    requires Instruments.TouchedAll(discard, zeroIsAbsent, cache, ts) == (before, us)
    ensures Instruments.TouchedAll(discard, zeroIsAbsent, cache, ts + [t]) ==
            (Instruments.Touched(discard, zeroIsAbsent, before, t).0,
             us + Instruments.Touched(discard, zeroIsAbsent, before, t).1)
  {
    assert DropLast(ts + [t]) == ts;
  }

  lemma ConcatAssociates(a: seq<Instruments.Update>, b: seq<Instruments.Update>, c: seq<Instruments.Update>)
    ensures a + b + c == a + (b + c)
  {
  }

  lemma TouchedBothOneMore(
    discard: Discard, zeroIsAbsent: bool, cache: Instruments.Cache, ts: seq<Instruments.Touch>, t: Instruments.Touch,
    before: Instruments.Cache, front: seq<Instruments.Touch>, middle: Instruments.Cache, us: seq<Instruments.Update>,
    more: seq<Instruments.Update>)
    requires Instruments.TouchedAll(discard, zeroIsAbsent, cache, ts) == (middle, us + more)
    requires Instruments.TouchedAll(discard, zeroIsAbsent, before, front) == (middle, more)
    ensures var (after, all) := Instruments.TouchedAll(discard, zeroIsAbsent, before, front + [t]);
      Instruments.TouchedAll(discard, zeroIsAbsent, cache, ts + [t]) == (after, us + all)
  {
    TouchedOneMore(discard, zeroIsAbsent, cache, ts, t, middle, us + more);
    TouchedOneMore(discard, zeroIsAbsent, before, front, t, middle, more);
    ConcatAssociates(us, more, Instruments.Touched(discard, zeroIsAbsent, middle, t).1);
  }

  lemma {:induction false} TouchedConcat(
    discard: Discard, zeroIsAbsent: bool, cache: Instruments.Cache, a: seq<Instruments.Touch>,
    b: seq<Instruments.Touch>, before: Instruments.Cache, us: seq<Instruments.Update>)
    requires Instruments.TouchedAll(discard, zeroIsAbsent, cache, a) == (before, us)
    ensures var (after, more) := Instruments.TouchedAll(discard, zeroIsAbsent, before, b);
      Instruments.TouchedAll(discard, zeroIsAbsent, cache, a + b) == (after, us + more)
  {
    if b == [] {
      assert a + b == a && us + [] == us;
    } else {
      var front, t := DropLast(b), Last(b);
      assert b == front + [t] && a + b == a + front + [t];
      TouchedConcat(discard, zeroIsAbsent, cache, a, front, before, us);
      var (middle, more) := Instruments.TouchedAll(discard, zeroIsAbsent, before, front);
      TouchedBothOneMore(discard, zeroIsAbsent, cache, a + front, t, before, front, middle, us, more);
    }
  }

  lemma InstrumentLatchStep(discard: Discard, zeroIsAbsent: bool, s: Stream, e: Event)
    ensures Handle(discard, zeroIsAbsent, s, e).0.session.instrument ==
              match e
              case InstrumentMessage(action, _) => action == Partial || s.session.instrument
              case SocketLost => false
              case _ => s.session.instrument
  {
    SessionStep(discard, zeroIsAbsent, s, e, Session.Report(Ready));
    SignalLatches(s.session, SignalOf(discard, s, e));
  }

  /** An instrument partial sets the session's latch, a lost socket resets it, and nothing else does. */
  lemma SignalLatches(s: Session.Session, x: Session.Signal)
    ensures Session.Handle(s, x).0.instrument ==
            (x != Session.SocketLost && (x == Session.InstrumentPartial || s.instrument))
  {
    var latched := s.(instrument := s.instrument || x == Session.InstrumentPartial);
    AdvanceKeeps(latched, Downloading.Begin(Session.STAGES));
    AdvanceKeeps(latched, Downloading.CheckRelaxed(Session.STAGES, s.download, 1));
    AdvanceKeeps(latched, Downloading.CheckRelaxed(Session.STAGES, s.download, 2));
  }

  lemma AdvanceKeeps(s: Session.Session, to: (Downloading.Download, seq<nat>))
    ensures Session.Advance(s, to).0.instrument == s.instrument
  {
    InstrumentKept(s.(download := to.0), to.1);
  }

  lemma {:induction false} InstrumentKept(s: Session.Session, stages: seq<nat>)
    ensures Session.EnterAll(s, stages).0.instrument == s.instrument
  {
    if stages != [] {
      InstrumentKept(s, DropLast(stages));
    }
  }

  lemma {:induction false} ProductsFollow(discard: Discard, zeroIsAbsent: bool, es: seq<Event>)
    ensures var (s, sent) := After(discard, zeroIsAbsent, START, es);
      && s.session.instrument == Instruments.LatchAfter(InstrumentEvents(es))
      && (s.products, UpdatesIn(sent)) ==
         Instruments.TouchedAll(discard, zeroIsAbsent, map[], Instruments.TouchesAfter(InstrumentEvents(es)))
  {
    if es != [] {
      var front, e := DropLast(es), Last(es);
      var (s, sent) := After(discard, zeroIsAbsent, START, front);
      ProductsFollow(discard, zeroIsAbsent, front);
      InstrumentLatchStep(discard, zeroIsAbsent, s, e);
      ProductsStep(discard, zeroIsAbsent, s, e);
      UpdatesInConcat(sent, Handle(discard, zeroIsAbsent, s, e).1);
      TouchesGrow(InstrumentEvents(front), es, s);
      TouchedConcat(discard, zeroIsAbsent, map[], Instruments.TouchesAfter(InstrumentEvents(front)), TouchesOf(s, e),
                    s.products, UpdatesIn(sent));
    }
  }

  lemma TouchesGrow(before: seq<Instruments.Event>, es: seq<Event>, s: Stream)
    requires es != [] && before == InstrumentEvents(DropLast(es))
    requires s.session.instrument == Instruments.LatchAfter(before)
    ensures Instruments.TouchesAfter(InstrumentEvents(es)) == Instruments.TouchesAfter(before) + TouchesOf(s, Last(es))
    ensures Instruments.LatchAfter(InstrumentEvents(es)) ==
              match Last(es)
              case InstrumentMessage(action, _) => action == Partial || s.session.instrument
              case SocketLost => false
              case _ => s.session.instrument
  {
    var all := InstrumentEvents(es);
    if |all| > |before| {
      assert DropLast(all) == before;
    } else {
      assert all == before;
    }
  }

  /** Lossless products of the stream: after every run, a subscriber that folds what was sent about a kept
      symbol has the current statistics and status of its product and, exactly when some item read sent
      it, its current reference data; and nothing is left dirty or queued. */
  lemma StreamSubscriberIsCurrent(discard: Discard, zeroIsAbsent: bool, es: seq<Event>, symbol: string)
    requires !discard(symbol)
    ensures var (s, sent) := After(discard, zeroIsAbsent, START, es);
      var v := Instruments.SeeAll(Instruments.BLANK, symbol, UpdatesIn(sent));
      var ts := Instruments.TouchesAfter(InstrumentEvents(es));
      && (if symbol in s.products then
            Products.IsClean(s.products[symbol]) && Instruments.Mirrors(v, s.products[symbol])
          else
            v == Instruments.BLANK)
      && (v.reference.Some? <==> exists k :: Instruments.SendsAt(discard, zeroIsAbsent, ts, symbol, k))
  {
    ProductsFollow(discard, zeroIsAbsent, es);
    Instruments.SubscriberIsCurrent(discard, zeroIsAbsent, InstrumentEvents(es), symbol);
  }

  /** End to end: the value a subscriber sees of each statistic is the last one said by an item that the
      stream read. */
  lemma StreamSubscriberSeesLastSaid(
    discard: Discard, zeroIsAbsent: bool, es: seq<Event>, symbol: string, kind: Products.StatisticsType)
    requires !discard(symbol)
    ensures var (s, sent) := After(discard, zeroIsAbsent, START, es);
      var board := Instruments.SeeAll(Instruments.BLANK, symbol, UpdatesIn(sent)).board;
      Instruments.LastSaid(zeroIsAbsent, Instruments.TouchesAfter(InstrumentEvents(es)), symbol,
                           Instruments.FigureOf(kind)) ==
      if kind in board then Instruments.AsNumber(board[kind].value) else None
  {
    ProductsFollow(discard, zeroIsAbsent, es);
    Instruments.SubscriberSeesLastSaid(discard, zeroIsAbsent, Instruments.TouchesAfter(InstrumentEvents(es)), symbol,
                                       kind);
  }

  // ---- where currencies come from ----

  const REQUEST := Told(Session.Subscribe(Session.REMAINING_TOPICS))

  /** Funding messages come only after the remaining topics, of which funding is one, were requested. */
  ghost predicate FundingIsRequested(discard: Discard, zeroIsAbsent: bool, es: seq<Event>) {
    forall i :: 0 <= i < |es| && es[i].FundingMessage? ==> REQUEST in After(discard, zeroIsAbsent, START, es[..i]).1
  }

  predicate IsInstrumentPartial(e: Event) {
    e.InstrumentMessage? && e.action == Partial
  }

  /** Without an instrument partial, the remaining topics are never requested. */
  lemma {:induction false} NotRequestedYet(discard: Discard, zeroIsAbsent: bool, es: seq<Event>)
    requires forall e :: e in es ==> !IsInstrumentPartial(e)
    ensures var (s, sent) := After(discard, zeroIsAbsent, START, es);
      Session.Unopened(s.session) && CountTold(sent, Session.Subscribe(Session.REMAINING_TOPICS)) == 0
  {
    if es != [] {
      var front, e, n := DropLast(es), Last(es), Session.Subscribe(Session.REMAINING_TOPICS);
      assert e in es && forall f :: f in front ==> f in es;
      NotRequestedYet(discard, zeroIsAbsent, front);
      var (s, sent) := After(discard, zeroIsAbsent, START, front);
      SessionStep(discard, zeroIsAbsent, s, e, n);
      Session.UnopenedStays(s.session, SignalOf(discard, s, e));
      CountToldConcat(sent, Handle(discard, zeroIsAbsent, s, e).1, n);
    }
  }

  lemma InstrumentEventsGrow(es: seq<Event>, e: Event)
    ensures InstrumentEvents(es + [e]) == InstrumentEvents(es) + InstrumentEvent(e)
  {
    assert DropLast(es + [e]) == es;
  }

  lemma {:induction false} InstrumentEventsConcat(a: seq<Event>, b: seq<Event>)
    ensures InstrumentEvents(a + b) == InstrumentEvents(a) + InstrumentEvents(b)
  {
    if b == [] {
      assert a + b == a;
    } else {
      var front, e := DropLast(b), Last(b);
      assert b == front + [e] && a + b == a + front + [e];
      InstrumentEventsConcat(a, front);
      InstrumentEventsGrow(a + front, e);
      InstrumentEventsGrow(front, e);
      EventsAssociate(InstrumentEvents(a), InstrumentEvents(front), InstrumentEvent(e));
    }
  }

  lemma EventsAssociate(a: seq<Instruments.Event>, b: seq<Instruments.Event>, c: seq<Instruments.Event>)
    ensures a + b + c == a + (b + c)
  {
  }

  lemma {:induction false} QuietInstrumentEvents(es: seq<Event>)
    requires forall e :: e in es ==> !e.FundingMessage? && !IsInstrumentPartial(e)
    ensures forall f :: f in InstrumentEvents(es) ==>
            !f.FundingMessage? && !(f.InstrumentMessage? && f.action == Partial)
  {
    if es != [] {
      assert Last(es) in es && forall e :: e in DropLast(es) ==> e in es;
      QuietInstrumentEvents(DropLast(es));
    }
  }

  lemma NoFundingBefore(discard: Discard, zeroIsAbsent: bool, es: seq<Event>, k: nat)
    requires FundingIsRequested(discard, zeroIsAbsent, es) && k <= |es|
    requires forall i :: 0 <= i < k ==> !IsInstrumentPartial(es[i])
    ensures forall i :: 0 <= i < k ==> !es[i].FundingMessage?
  {
    forall i | 0 <= i < k ensures !es[i].FundingMessage? {
      NotRequestedYet(discard, zeroIsAbsent, es[..i]);
      CountsWhatIsSent(After(discard, zeroIsAbsent, START, es[..i]).1, Session.Subscribe(Session.REMAINING_TOPICS));
    }
  }

  lemma EventsAround(before: seq<Event>, e: Event, later: seq<Event>)
    ensures InstrumentEvents(before + [e] + later) ==
            InstrumentEvents(before) + InstrumentEvent(e) + InstrumentEvents(later)
  {
    InstrumentEventsConcat(before + [e], later);
    InstrumentEventsGrow(before, e);
  }

  lemma SplitAt(es: seq<Event>, k: nat)
    requires k < |es|
    ensures es == es[..k] + [es[k]] + es[k + 1..]
  {
  }

  lemma CurrenciesOfEvents(
    discard: Discard, zeroIsAbsent: bool, es: seq<Event>, before: seq<Instruments.Event>,
    items: seq<Products.InstrumentItem>, later: seq<Instruments.Event>, i: nat)
    requires InstrumentEvents(es) == before + [Instruments.InstrumentMessage(Partial, items)] + later
    requires forall f :: f in before ==> !f.FundingMessage? && !(f.InstrumentMessage? && f.action == Partial)
    requires i < |items| && forall j :: 0 <= j < i ==> items[j].symbol != items[i].symbol
    ensures var products := After(discard, zeroIsAbsent, START, es).0.products;
      items[i].symbol in products && products[items[i].symbol].currencies == items[i].currencies
  {
    Instruments.FirstPartialKeepsCurrencies(discard, zeroIsAbsent, before, items, later, i);
    ProductsFollow(discard, zeroIsAbsent, es);
  }

  lemma FirstPartialDecides(
    discard: Discard, zeroIsAbsent: bool, before: seq<Event>, items: seq<Products.InstrumentItem>, later: seq<Event>,
    i: nat)
    requires forall e :: e in before ==> !e.FundingMessage? && !IsInstrumentPartial(e)
    requires i < |items| && forall j :: 0 <= j < i ==> items[j].symbol != items[i].symbol
    ensures var es := before + [InstrumentMessage(Partial, items)] + later;
      var products := After(discard, zeroIsAbsent, START, es).0.products;
      items[i].symbol in products && products[items[i].symbol].currencies == items[i].currencies
  {
    QuietInstrumentEvents(before);
    EventsAround(before, InstrumentMessage(Partial, items), later);
    CurrenciesOfEvents(discard, zeroIsAbsent, before + [InstrumentMessage(Partial, items)] + later,
                       InstrumentEvents(before), items, InstrumentEvents(later), i);
  }

  /** Provenance: in every run of the stream in which funding comes only after it was requested, every
      symbol of the first instrument partial has a product with the currencies that this partial gave, for
      ever after: across reconnects, later partials, updates and funding. */
  lemma StreamKeepsCurrencies(discard: Discard, zeroIsAbsent: bool, es: seq<Event>, k: nat, i: nat)
    requires FundingIsRequested(discard, zeroIsAbsent, es)
    requires k < |es| && IsInstrumentPartial(es[k]) && forall j :: 0 <= j < k ==> !IsInstrumentPartial(es[j])
    requires i < |es[k].instruments|
    requires forall j :: 0 <= j < i ==> es[k].instruments[j].symbol != es[k].instruments[i].symbol
    ensures var products, item := After(discard, zeroIsAbsent, START, es).0.products, es[k].instruments[i];
      item.symbol in products && products[item.symbol].currencies == item.currencies
  {
    NoFundingBefore(discard, zeroIsAbsent, es, k);
    SplitAt(es, k);
    FirstPartialDecides(discard, zeroIsAbsent, es[..k], es[k].instruments, es[k + 1..], i);
  }
}

/** What whole runs of the stream send besides books and products: when the socket is closed, what is requested
    and when it is requested again, which trades are passed on, and what the cache remembers throughout. */
module StreamSends {
  import opened Common
  import opened PriceCaching
  import opened OrderBook
  import opened MarketDataStream
  import opened StreamRuns
  import opened BookOutcomes
  import Downloading
  import Instruments
  import Trades
  import Session = MarketSession

  // ---- closing the socket ----

  /** The event is an order-book message that is read, and its first item that stops it is a kept update or
      delete without a price, of an id that is not cached. */
  ghost predicate Closes(discard: Discard, s: Stream, e: Event) {
    && e.BookMessage? && (e.action == Partial || s.latch)
    && exists i :: ClosesAt(discard, e.action, s.prices, e.levels, i)
  }

  /** The socket is closed by the last thing sent, if at all. */
  predicate ClosesLast(sent: seq<Outgoing>) {
    CloseSocket in sent ==> Last(sent) == CloseSocket && CloseSocket !in DropLast(sent)
  }

  lemma {:induction false} BooksCloseNothing(ps: seq<Publication>, rejected: set<nat>)
    ensures CloseSocket !in TellBooks(ps, rejected)
  {
    if ps != [] {
      BooksCloseNothing(DropLast(ps), rejected);
    }
  }

  lemma ConclusionCloses(books: seq<Outgoing>, closes: bool, notices: seq<Session.Notice>)
    requires CloseSocket !in books && (closes ==> notices == [])
    ensures var sent := [] + books + ((if closes then [CloseSocket] else []) + Tell(notices));
      (CloseSocket in sent <==> closes) && ClosesLast(sent)
  {
    if closes {
      assert [] + books + ([CloseSocket] + Tell(notices)) == books + [CloseSocket];
    }
  }

  lemma BookMessageCloses(discard: Discard, s: Stream, action: Action, items: seq<Level>, rejected: set<nat>)
    ensures var sent := AfterOrderBook(discard, BookState(s.latch, s.prices, s.session, []), action, items,
                                       rejected).1.sent;
      && (CloseSocket in sent <==> OnMessage(discard, s.latch, s.prices, action, items, rejected).outcome == Closed)
      && ClosesLast(sent)
  {
    var step := OnMessage(discard, s.latch, s.prices, action, items, rejected);
    BooksCloseNothing(step.published, rejected);
    ConclusionCloses(TellBooks(step.published, rejected), step.outcome == Closed,
                     AfterBook(s.session, action, step.outcome).1);
  }

  /** One event closes the socket exactly when it is such a message; it does so once, after everything else. */
  lemma EventClosesExactlyWhen(discard: Discard, zeroIsAbsent: bool, s: Stream, e: Event)
    ensures CloseSocket in Handle(discard, zeroIsAbsent, s, e).1 <==> Closes(discard, s, e)
    ensures ClosesLast(Handle(discard, zeroIsAbsent, s, e).1)
  {
    if e.BookMessage? {
      BookMessageCloses(discard, s, e.action, e.levels, e.rejected);
      if e.action == Partial || s.latch {
        OutcomeExactlyWhen(discard, s.latch, s.prices, e.action, e.levels, e.rejected);
      }
    }
  }

  function CountOf(sent: seq<Outgoing>, o: Outgoing): nat {
    if sent == [] then 0 else CountOf(DropLast(sent), o) + if Last(sent) == o then 1 else 0
  }

  lemma {:induction false} CountConcat(a: seq<Outgoing>, b: seq<Outgoing>, o: Outgoing)
    ensures CountOf(a + b, o) == CountOf(a, o) + CountOf(b, o)
  {
    if b == [] {
      assert a + b == a;
    } else {
      assert DropLast(a + b) == a + DropLast(b);
      CountConcat(a, DropLast(b), o);
    }
  }

  lemma {:induction false} CountNone(sent: seq<Outgoing>, o: Outgoing)
    requires o !in sent
    ensures CountOf(sent, o) == 0
  {
    if sent != [] {
      assert Last(sent) in sent && forall p :: p in DropLast(sent) ==> p in sent;
      CountNone(DropLast(sent), o);
    }
  }

  /** How many events of a run close the socket. */
  ghost function Closings(discard: Discard, zeroIsAbsent: bool, es: seq<Event>): nat {
    if es == [] then
      0
    else
      Closings(discard, zeroIsAbsent, DropLast(es)) +
      if Closes(discard, After(discard, zeroIsAbsent, START, DropLast(es)).0, Last(es)) then 1 else 0
  }

  lemma ClosesOnce(sent: seq<Outgoing>)
    requires ClosesLast(sent)
    ensures CountOf(sent, CloseSocket) == if CloseSocket in sent then 1 else 0
  {
    CountNone(if CloseSocket in sent then DropLast(sent) else sent, CloseSocket);
  }

  /** Over every run the socket is closed exactly as often as such a message is read. */
  lemma {:induction false} SocketClosedExactlyWhen(discard: Discard, zeroIsAbsent: bool, es: seq<Event>)
    ensures CountOf(After(discard, zeroIsAbsent, START, es).1, CloseSocket) == Closings(discard, zeroIsAbsent, es)
  {
    if es != [] {
      var (s, sent) := After(discard, zeroIsAbsent, START, DropLast(es));
      var more := Handle(discard, zeroIsAbsent, s, Last(es)).1;
      SocketClosedExactlyWhen(discard, zeroIsAbsent, DropLast(es));
      EventClosesExactlyWhen(discard, zeroIsAbsent, s, Last(es));
      ClosesOnce(more);
      CountConcat(sent, more, CloseSocket);
    }
  }

  // ---- rejected books ----

  predicate IsRejected(o: Outgoing) {
    o.Book? && !o.accepted
  }

  /** Each rejected publication is followed by one unsubscription from the order book and one subscription to
      it, and there are no others. */
  predicate Resubscribes(sent: seq<Outgoing>) {
    forall i: nat :: i < |sent| ==> ResubscribesAt(sent, i)
  }

  predicate ResubscribesAt(sent: seq<Outgoing>, i: nat)
    requires i < |sent|
  {
    && (IsRejected(sent[i]) ==> i + 2 < |sent| && IsUnsubscription(sent[i + 1]) && IsSubscription(sent[i + 2]))
    && (IsUnsubscription(sent[i]) ==> i > 0 && IsRejected(sent[i - 1]))
    && (IsSubscription(sent[i]) ==> i > 1 && IsRejected(sent[i - 2]))
    && (sent[i].Told? && sent[i].notice.Unsubscribe? ==> IsUnsubscription(sent[i]))
  }

  predicate IsUnsubscription(o: Outgoing) {
    o == Told(Session.Unsubscribe("orderBookL2"))
  }

  predicate IsSubscription(o: Outgoing) {
    o == Told(Session.Subscribe(["orderBookL2"]))
  }

  lemma ResubscribesConcat(a: seq<Outgoing>, b: seq<Outgoing>)
    requires Resubscribes(a) && Resubscribes(b)
    ensures Resubscribes(a + b)
  {
    forall i: nat | i < |a + b|
      ensures ResubscribesAt(a + b, i)
    {
      if i < |a| {
        assert ResubscribesAt(a, i);
      } else {
        assert ResubscribesAt(b, i - |a|);
      }
    }
  }

  lemma {:induction false} BooksResubscribe(ps: seq<Publication>, rejected: set<nat>)
    ensures Resubscribes(TellBooks(ps, rejected))
  {
    if ps != [] {
      BooksResubscribe(DropLast(ps), rejected);
      OneBookResubscribes(Last(ps), |ps| - 1, rejected);
      ResubscribesConcat(TellBooks(DropLast(ps), rejected), TellBook(Last(ps), |ps| - 1, rejected));
    }
  }

  lemma OneBookResubscribes(p: Publication, k: nat, rejected: set<nat>)
    ensures Resubscribes(TellBook(p, k, rejected))
  {
    var sent := TellBook(p, k, rejected);
    if k in rejected {
      assert sent == [Book(p, false), Told(Session.Unsubscribe("orderBookL2")),
                      Told(Session.Subscribe(["orderBookL2"]))];
      assert ResubscribesAt(sent, 0) && ResubscribesAt(sent, 1) && ResubscribesAt(sent, 2);
    } else {
      assert sent == [Book(p, true)] && ResubscribesAt(sent, 0);
    }
  }

  /** Nothing here is rejected or about the order book alone. */
  predicate IsUnrelated(o: Outgoing) {
    !IsRejected(o) && !(o.Told? && o.notice.Unsubscribe?) && !IsSubscription(o)
  }

  lemma UnrelatedResubscribes(sent: seq<Outgoing>)
    requires forall o :: o in sent ==> IsUnrelated(o)
    ensures Resubscribes(sent)
  {
    forall i: nat | i < |sent|
      ensures ResubscribesAt(sent, i)
    {
      assert sent[i] in sent;
    }
  }

  lemma {:induction false} StagesAreUnrelated(s: Session.Session, stages: seq<nat>)
    ensures forall n :: n in Session.EnterAll(s, stages).1 ==> IsUnrelated(Told(n))
  {
    if stages != [] {
      StagesAreUnrelated(s, DropLast(stages));
      assert |["orderBookL2"]| != |Session.REMAINING_TOPICS| && ["orderBookL2"][0] != ["instrument"][0];
    }
  }

  lemma SignalIsUnrelated(s: Session.Session, x: Session.Signal)
    ensures forall n :: n in Session.Handle(s, x).1 ==> IsUnrelated(Told(n))
  {
    forall t: Session.Session, to: (Downloading.Download, seq<nat>)
      ensures forall n :: n in Session.Advance(t, to).1 ==> IsUnrelated(Told(n))
    {
      StagesAreUnrelated(t.(download := to.0), to.1);
    }
  }

  lemma BookMessageResubscribes(discard: Discard, s: Stream, action: Action, items: seq<Level>, rejected: set<nat>)
    ensures Resubscribes(AfterOrderBook(discard, BookState(s.latch, s.prices, s.session, []), action, items,
                                        rejected).1.sent)
  {
    var step := OnMessage(discard, s.latch, s.prices, action, items, rejected);
    var books, conclusion := TellBooks(step.published, rejected), Conclusion(s.session, action, step.outcome);
    BooksResubscribe(step.published, rejected);
    SignalIsUnrelated(s.session, Session.BookPartial);
    UnrelatedResubscribes(conclusion);
    assert [] + books == books;
    ResubscribesConcat(books, conclusion);
  }

  lemma EventResubscribes(discard: Discard, zeroIsAbsent: bool, s: Stream, e: Event)
    ensures Resubscribes(Handle(discard, zeroIsAbsent, s, e).1)
  {
    if e.BookMessage? {
      BookMessageResubscribes(discard, s, e.action, e.levels, e.rejected);
    } else {
      SignalIsUnrelated(s.session, SignalOf(discard, s, e));
      UnrelatedResubscribes(Handle(discard, zeroIsAbsent, s, e).1);
    }
  }

  /** Over every run, each rejected publication is followed directly by one unsubscription from the order book
      and one subscription to it, and neither is ever sent otherwise. */
  lemma {:induction false} RejectedBooksResubscribe(discard: Discard, zeroIsAbsent: bool, es: seq<Event>)
    ensures Resubscribes(After(discard, zeroIsAbsent, START, es).1)
  {
    if es != [] {
      var (s, sent) := After(discard, zeroIsAbsent, START, DropLast(es));
      RejectedBooksResubscribe(discard, zeroIsAbsent, DropLast(es));
      EventResubscribes(discard, zeroIsAbsent, s, Last(es));
      ResubscribesConcat(sent, Handle(discard, zeroIsAbsent, s, Last(es)).1);
    }
  }

  // ---- the session's notices ----

  function WelcomesIn(es: seq<Event>): nat {
    if es == [] then 0 else WelcomesIn(DropLast(es)) + if Last(es) == Welcome then 1 else 0
  }

  lemma {:induction false} WelcomesAreSignals(discard: Discard, zeroIsAbsent: bool, es: seq<Event>)
    ensures Session.Welcomes(Signals(discard, zeroIsAbsent, START, es)) == WelcomesIn(es)
  {
    if es != [] {
      WelcomesAreSignals(discard, zeroIsAbsent, DropLast(es));
      assert DropLast(Signals(discard, zeroIsAbsent, START, es)) == Signals(discard, zeroIsAbsent, START, DropLast(es));
    }
  }

  /** Over every run, across sessions, the instruments are requested once for each welcome; the status is the
      last that the session's notices, written out, report; and READY and the request for the remaining topics
      are sent as often as there. */
  lemma StreamSaysExactly(discard: Discard, zeroIsAbsent: bool, es: seq<Event>)
    ensures var (s, sent) := After(discard, zeroIsAbsent, START, es);
      var said := Session.AllSaid(Signals(discard, zeroIsAbsent, START, es));
      var remaining := Session.Subscribe(["quote", "orderBookL2", "trade", "funding", "liquidation", "settlement"]);
      && CountTold(sent, Session.Subscribe(["instrument"])) == WelcomesIn(es)
      && CountTold(sent, remaining) == Session.Count(said, remaining)
      && CountTold(sent, Session.Report(Ready)) == Session.Count(said, Session.Report(Ready))
      && s.session.status == Session.LastReport(said, Unknown)
  {
    var signals := Signals(discard, zeroIsAbsent, START, es);
    Session.SaysExactly(signals);
    Session.InstrumentsAreRequested(signals);
    WelcomesAreSignals(discard, zeroIsAbsent, es);
    SessionFollowsSignals(discard, zeroIsAbsent, START, es, Session.Subscribe(["instrument"]));
    SessionFollowsSignals(discard, zeroIsAbsent, START, es, Session.Subscribe(Session.REMAINING_TOPICS));
    SessionFollowsSignals(discard, zeroIsAbsent, START, es, Session.Report(Ready));
  }

  // ---- trades ----

  /** The trades among what was sent. */
  function TradesTold(sent: seq<Outgoing>): seq<Trades.Trade> {
    if sent == [] then
      []
    else
      var before := TradesTold(DropLast(sent));
      if Last(sent).Traded? then before + Last(sent).summary.trades else before
  }

  /** The kept items of the insert messages received. */
  function TradesReceived(discard: Discard, es: seq<Event>): seq<Trades.TradeItem> {
    if es == [] then [] else TradesReceived(discard, DropLast(es)) + ItemsReceived(discard, Last(es))
  }

  function ItemsReceived(discard: Discard, e: Event): seq<Trades.TradeItem> {
    if e.TradeMessage? && e.action == Insert then Trades.KeptItems(discard, e.trades) else []
  }

  lemma CopiesConcat(xs: seq<Trades.Trade>, ys: seq<Trades.Trade>, xis: seq<Trades.TradeItem>,
                     yis: seq<Trades.TradeItem>)
    requires Trades.Copies(xs, xis) && Trades.Copies(ys, yis)
    ensures Trades.Copies(xs + ys, xis + yis)
  {
  }

  lemma {:induction false} TradesToldConcat(a: seq<Outgoing>, b: seq<Outgoing>)
    ensures TradesTold(a + b) == TradesTold(a) + TradesTold(b)
  {
    if b == [] {
      assert a + b == a;
    } else {
      assert DropLast(a + b) == a + DropLast(b);
      TradesToldConcat(a, DropLast(b));
    }
  }

  lemma {:induction false} NoTradesTold(sent: seq<Outgoing>)
    requires forall o :: o in sent ==> !o.Traded?
    ensures TradesTold(sent) == []
  {
    if sent != [] {
      assert Last(sent) in sent && forall o :: o in DropLast(sent) ==> o in sent;
      NoTradesTold(DropLast(sent));
    }
  }

  lemma {:induction false} SummariesTold(ss: seq<Trades.Summary>)
    ensures TradesTold(TellSummaries(ss)) == Trades.AllTrades(ss)
  {
    if ss != [] {
      assert DropLast(TellSummaries(ss)) == TellSummaries(DropLast(ss));
      SummariesTold(DropLast(ss));
    }
  }

  lemma {:induction false} BooksTellNoTrades(ps: seq<Publication>, rejected: set<nat>)
    ensures forall o :: o in TellBooks(ps, rejected) ==> !o.Traded?
  {
    if ps != [] {
      BooksTellNoTrades(DropLast(ps), rejected);
    }
  }

  lemma BookMessageTradesNothing(discard: Discard, s: Stream, action: Action, items: seq<Level>, rejected: set<nat>)
    ensures TradesTold(AfterOrderBook(discard, BookState(s.latch, s.prices, s.session, []), action, items,
                                      rejected).1.sent) == []
  {
    var sent := AfterOrderBook(discard, BookState(s.latch, s.prices, s.session, []), action, items, rejected).1.sent;
    BooksTellNoTrades(OnMessage(discard, s.latch, s.prices, action, items, rejected).published, rejected);
    assert forall o :: o in sent ==> !o.Traded?;
    NoTradesTold(sent);
  }

  lemma OtherEventTradesNothing(discard: Discard, zeroIsAbsent: bool, s: Stream, e: Event)
    requires !e.TradeMessage?
    ensures TradesTold(Handle(discard, zeroIsAbsent, s, e).1) == []
  {
    if e.BookMessage? {
      BookMessageTradesNothing(discard, s, e.action, e.levels, e.rejected);
    } else {
      var sent := Handle(discard, zeroIsAbsent, s, e).1;
      assert forall o :: o in sent ==> !o.Traded?;
      NoTradesTold(sent);
    }
  }

  lemma EventTrades(discard: Discard, zeroIsAbsent: bool, s: Stream, e: Event)
    ensures Trades.Copies(TradesTold(Handle(discard, zeroIsAbsent, s, e).1), ItemsReceived(discard, e))
  {
    if e.TradeMessage? {
      Trades.TradesSentExactly(discard, e.action, e.trades);
      SummariesTold(Trades.OnTrade(discard, e.action, e.trades));
    } else {
      OtherEventTradesNothing(discard, zeroIsAbsent, s, e);
    }
  }

  /** Over every run the trades sent are those of the kept items of the insert messages received, one for one
      and in order, each with its item's side, price, size and match id. */
  lemma {:induction false} StreamTrades(discard: Discard, zeroIsAbsent: bool, es: seq<Event>)
    ensures Trades.Copies(TradesTold(After(discard, zeroIsAbsent, START, es).1), TradesReceived(discard, es))
  {
    if es != [] {
      var (s, sent) := After(discard, zeroIsAbsent, START, DropLast(es));
      StreamTrades(discard, zeroIsAbsent, DropLast(es));
      var more := Handle(discard, zeroIsAbsent, s, Last(es)).1;
      EventTrades(discard, zeroIsAbsent, s, Last(es));
      TradesToldConcat(sent, more);
      CopiesConcat(TradesTold(sent), TradesTold(more), TradesReceived(discard, DropLast(es)),
                   ItemsReceived(discard, Last(es)));
    }
  }

  // ---- what the cache remembers ----

  /** What an event asks of the cache. */
  function RequestsAt(discard: Discard, s: Stream, e: Event): seq<Request> {
    if e.BookMessage? && (e.action == Partial || s.latch) then
      Requests(discard, e.action, e.levels[..ReadFrom(discard, e.action, s.prices, e.levels, 0)])
    else
      []
  }

  function AllRequests(discard: Discard, zeroIsAbsent: bool, es: seq<Event>): seq<Request> {
    if es == [] then
      []
    else
      AllRequests(discard, zeroIsAbsent, DropLast(es)) +
      RequestsAt(discard, After(discard, zeroIsAbsent, START, DropLast(es)).0, Last(es))
  }

  lemma EventAsks(discard: Discard, zeroIsAbsent: bool, s: Stream, e: Event)
    ensures Handle(discard, zeroIsAbsent, s, e).0.prices == PricesAfterAll(s.prices, RequestsAt(discard, s, e))
  {
    if e.BookMessage? && (e.action == Partial || s.latch) {
      CacheFollowsRequests(discard, s.latch, s.prices, e.action, e.levels, e.rejected);
    }
  }

  /** Over every run, the cache is what all kept items that were read asked for, since the start: it is never
      cleared, neither by a lost socket nor by a partial. */
  lemma {:induction false} CacheRemembersRequests(discard: Discard, zeroIsAbsent: bool, es: seq<Event>)
    ensures After(discard, zeroIsAbsent, START, es).0.prices ==
            PricesAfterAll(map[], AllRequests(discard, zeroIsAbsent, es))
  {
    if es != [] {
      var s := After(discard, zeroIsAbsent, START, DropLast(es)).0;
      CacheRemembersRequests(discard, zeroIsAbsent, DropLast(es));
      EventAsks(discard, zeroIsAbsent, s, Last(es));
      PricesAfterConcat(map[], AllRequests(discard, zeroIsAbsent, DropLast(es)), RequestsAt(discard, s, Last(es)));
    }
  }
}

/** What is sent for instruments and what is not: which messages are read, that everything sent is news and
    comes in order, that discarded symbols are only ever listed, and which funding window a subscriber sees. */
module InstrumentSends {
  import opened Common
  import opened Products
  import opened Instruments

  // ---- which messages are read ----

  /** Message `k` is an instrument partial, and the socket was not lost since. */
  ghost predicate PartialSince(es: seq<Event>, k: nat) {
    && k < |es| && es[k].InstrumentMessage? && es[k].action == Partial
    && forall j :: k < j < |es| ==> es[j] != Disconnected
  }

  lemma PartialSinceGrows(front: seq<Event>, e: Event, k: nat)
    ensures PartialSince(front + [e], k) <==>
            (PartialSince(front, k) && e != Disconnected) ||
            (k == |front| && e.InstrumentMessage? && e.action == Partial)
  {
    var es := front + [e];
    assert es[|front|] == e && forall j :: 0 <= j < |front| ==> es[j] == front[j];
  }

  lemma {:induction false} LatchExactlyWhen(es: seq<Event>)
    ensures LatchAfter(es) <==> exists k :: PartialSince(es, k)
  {
    if es != [] {
      var front, e := DropLast(es), Last(es);
      assert es == front + [e];
      LatchExactlyWhen(front);
      forall k: nat {
        PartialSinceGrows(front, e, k);
      }
      if k: nat :| PartialSince(front, k) {
        assert e != Disconnected ==> PartialSince(es, k);
      }
      PartialSinceGrows(front, e, |front|);
    }
  }

  /** An instrument message is read if it is the first partial since the socket was last lost, or an update
      after that partial, and otherwise not; a funding message is always read. All items of a message that is
      read reach the products, in order, and no others. */
  lemma MessageReadExactly(es: seq<Event>, e: Event) returns (read: seq<Touch>)
    ensures TouchesAfter(es + [e]) == TouchesAfter(es) + read
    ensures match e
      case InstrumentMessage(action, items) =>
        var latched := exists k :: PartialSince(es, k);
        if action == Partial && !latched then
          |read| == |items| && forall i :: 0 <= i < |read| ==> read[i] == ByPartial(items[i])
        else if action == Action.Update && latched then
          |read| == |items| && forall i :: 0 <= i < |read| ==> read[i] == ByUpdate(items[i])
        else
          read == []
      case FundingMessage(items) => |read| == |items| && forall i :: 0 <= i < |read| ==> read[i] == ByFunding(items[i])
      case Disconnected => read == []
  {
    assert DropLast(es + [e]) == es;
    LatchExactlyWhen(es);
    read := TouchesOf(LatchAfter(es), e);
  }

  // ---- discarded symbols ----

  /** Reference data says whether its symbol is discarded; nothing else is sent of a discarded symbol. */
  predicate IsFlagged(discard: Discard, u: Update) {
    match u
    case ReferenceData(symbol, _, _, flag) => flag == discard(symbol)
    case _ => !discard(u.symbol)
  }

  lemma PartialIsFlagged(discard: Discard, zeroIsAbsent: bool, cache: Cache, item: InstrumentItem)
    ensures forall u :: u in Touched(discard, zeroIsAbsent, cache, ByPartial(item)).1 ==>
            u.symbol == item.symbol && IsFlagged(discard, u)
  {
  }

  lemma UpdateIsFlagged(discard: Discard, zeroIsAbsent: bool, cache: Cache, item: InstrumentItem)
    ensures forall u :: u in Touched(discard, zeroIsAbsent, cache, ByUpdate(item)).1 ==>
            u.symbol == item.symbol && IsFlagged(discard, u)
  {
  }

  lemma TouchIsFlagged(discard: Discard, zeroIsAbsent: bool, cache: Cache, t: Touch)
    ensures forall u :: u in Touched(discard, zeroIsAbsent, cache, t).1 ==>
            u.symbol == SymbolOf(t) && IsFlagged(discard, u)
  {
    match t
    case ByPartial(item) => PartialIsFlagged(discard, zeroIsAbsent, cache, item);
    case ByUpdate(item) => UpdateIsFlagged(discard, zeroIsAbsent, cache, item);
    case ByFunding(_) =>
  }

  function ReferencesOf(us: seq<Update>, symbol: string): nat {
    if us == [] then 0
    else ReferencesOf(DropLast(us), symbol) + if Last(us).ReferenceData? && Last(us).symbol == symbol then 1 else 0
  }

  function ListingsOf(ts: seq<Touch>, symbol: string): nat {
    if ts == [] then 0
    else ListingsOf(DropLast(ts), symbol) + if Last(ts).ByPartial? && Last(ts).item.symbol == symbol then 1 else 0
  }

  lemma {:induction false} ReferencesConcat(a: seq<Update>, b: seq<Update>, symbol: string)
    ensures ReferencesOf(a + b, symbol) == ReferencesOf(a, symbol) + ReferencesOf(b, symbol)
  {
    if b == [] {
      assert a + b == a;
    } else {
      assert DropLast(a + b) == a + DropLast(b);
      ReferencesConcat(a, DropLast(b), symbol);
    }
  }

  lemma {:induction false} NoReferences(us: seq<Update>, symbol: string)
    requires forall u :: u in us ==> u.symbol != symbol
    ensures ReferencesOf(us, symbol) == 0
  {
    if us != [] {
      assert Last(us) in us && forall u :: u in DropLast(us) ==> u in us;
      NoReferences(DropLast(us), symbol);
    }
  }

  lemma DiscardedTouch(discard: Discard, zeroIsAbsent: bool, cache: Cache, t: Touch, symbol: string)
    requires discard(symbol)
    ensures ReferencesOf(Touched(discard, zeroIsAbsent, cache, t).1, symbol) ==
            if t.ByPartial? && t.item.symbol == symbol then 1 else 0
  {
    var us := Touched(discard, zeroIsAbsent, cache, t).1;
    if SymbolOf(t) != symbol {
      OtherTouched(discard, zeroIsAbsent, cache, t, symbol);
      NoReferences(us, symbol);
    } else if us != [] {
      assert |us| == 1 && DropLast(us) == [];
    }
  }

  /** Of a discarded symbol exactly one thing is sent for each item of a partial that lists it: reference data
      that says so. */
  lemma {:induction false} DiscardedIsOnlyListed(discard: Discard, zeroIsAbsent: bool, ts: seq<Touch>, symbol: string)
    ensures forall u :: u in TouchedAll(discard, zeroIsAbsent, map[], ts).1 ==> IsFlagged(discard, u)
    ensures discard(symbol) ==>
              ReferencesOf(TouchedAll(discard, zeroIsAbsent, map[], ts).1, symbol) == ListingsOf(ts, symbol)
  {
    if ts != [] {
      var (cache, us) := TouchedAll(discard, zeroIsAbsent, map[], DropLast(ts));
      DiscardedIsOnlyListed(discard, zeroIsAbsent, DropLast(ts), symbol);
      TouchIsFlagged(discard, zeroIsAbsent, cache, Last(ts));
      ReferencesConcat(us, Touched(discard, zeroIsAbsent, cache, Last(ts)).1, symbol);
      if discard(symbol) {
        DiscardedTouch(discard, zeroIsAbsent, cache, Last(ts), symbol);
      }
    }
  }

  // ---- order and news ----

  function Rank(u: Update): nat {
    match u
    case ReferenceData(_, _, _, _) => 0
    case MarketStatus(_, _) => 1
    case StatisticsUpdate(_, _) => 2
  }

  /** Reference data, then the status, then the statistics, each at most once. */
  predicate InOrder(us: seq<Update>) {
    forall i, j :: 0 <= i < j < |us| ==> Rank(us[i]) < Rank(us[j])
  }

  /** Of an item of `t`, nothing that the subscriber already has is sent, but for the reference data in a
      partial: a status differs from the last one, reference data in an update from the last, and statistics are
      not empty and differ from the board. */
  ghost predicate IsNews(v: View, t: Touch, us: seq<Update>) {
    forall u :: u in us && u.symbol == SymbolOf(t) ==>
      match u
      case ReferenceData(_, currencies, reference, _) => t.ByUpdate? ==> v.reference != Some((currencies, reference))
      case MarketStatus(_, state) => state != v.status
      case StatisticsUpdate(_, statistics) => statistics != [] && forall d :: d in statistics ==> IsChange(v.board, d)
  }

  lemma StatusIsNews(p: ProductState, item: InstrumentItem)
    requires IsClean(p)
    ensures Updated(p, item).statusDirty ==> Updated(p, item).state != p.state
    ensures Updated(p, item).referenceDirty ==> Updated(p, item).reference != p.reference
  {
  }

  lemma UpdateIsNews(v: View, t: Touch, symbol: string, p: ProductState, sends: bool)
    requires !t.ByFunding? && symbol == t.item.symbol
    requires p.statusDirty ==> p.state != v.status
    requires forall d :: d in p.statistics ==> IsChange(v.board, d)
    requires sends && t.ByUpdate? ==> v.reference != Some((p.currencies, p.reference))
    ensures IsNews(v, t, ReferenceOf(symbol, p, sends) + StatusAndStatistics(symbol, p))
    ensures InOrder(ReferenceOf(symbol, p, sends) + StatusAndStatistics(symbol, p))
  {
  }

  lemma ItemIsNews(discard: Discard, zeroIsAbsent: bool, cache: Cache, t: Touch, v: View)
    requires !t.ByFunding? && !discard(t.item.symbol) && Settled(zeroIsAbsent, cache, t.item.symbol, v)
    ensures IsNews(v, t, Touched(discard, zeroIsAbsent, cache, t).1)
            && InOrder(Touched(discard, zeroIsAbsent, cache, t).1)
  {
    var base := Base(zeroIsAbsent, cache, t.item);
    var p := Updated(base, t.item);
    ItemTouched(discard, zeroIsAbsent, cache, t);
    MergedStatistics(v.board, base, p, t.item);
    StatusIsNews(base, t.item);
    UpdateIsNews(v, t, t.item.symbol, p, t.ByPartial? || p.referenceDirty);
  }

  /** Whatever came before, everything an item sends of a kept symbol is news to its subscriber and in order. */
  lemma EverythingIsNews(discard: Discard, zeroIsAbsent: bool, ts: seq<Touch>, t: Touch)
    requires !discard(SymbolOf(t))
    ensures var (cache, us) := TouchedAll(discard, zeroIsAbsent, map[], ts);
      var more := Touched(discard, zeroIsAbsent, cache, t).1;
      IsNews(SeeAll(BLANK, SymbolOf(t), us), t, more) && InOrder(more)
  {
    TouchesKeepSettled(discard, zeroIsAbsent, ts, SymbolOf(t));
    var (cache, us) := TouchedAll(discard, zeroIsAbsent, map[], ts);
    if !t.ByFunding? {
      ItemIsNews(discard, zeroIsAbsent, cache, t, SeeAll(BLANK, SymbolOf(t), us));
    } else {
      FundingTouched(discard, zeroIsAbsent, cache, t.funding);
    }
  }

  // ---- the funding window ----

  /** The item has a funding rate at `t` seconds and an interval of `s` seconds beyond whole days. */
  predicate HasRate(item: InstrumentItem, t: nat, r: nat, days: nat, s: nat, r': nat) {
    && item.fundingRate.Some? && t > 0 && r < 1000 && s < 86400 && r' < 1000
    && item.timestamp == 1000 * t + r && item.fundingInterval == 86400000 * days + 1000 * s + r'
  }

  lemma WindowIsHeld(
    discard: Discard, zeroIsAbsent: bool, cache: Cache, touch: Touch, t: nat, r: nat, days: nat, s: nat, r': nat)
    requires !touch.ByFunding? && !discard(touch.item.symbol) && HasRate(touch.item, t, r, days, s, r')
    ensures var after := Touched(discard, zeroIsAbsent, cache, touch).0;
      && touch.item.symbol in after
      && after[touch.item.symbol].figures.fundingRate == Window(touch.item.fundingRate, t, t + s)
  {
    ItemTouched(discard, zeroIsAbsent, cache, touch);
    FundingWindowIs(Base(zeroIsAbsent, cache, touch.item), touch.item, t, r, days, s, r');
  }

  lemma WindowIsShown(zeroIsAbsent: bool, cache: Cache, symbol: string, v: View, rate: real, t: nat, s: nat)
    requires Settled(zeroIsAbsent, cache, symbol, v)
    requires symbol in cache && cache[symbol].figures.fundingRate == Window(Some(rate), t, t + s)
    ensures FundingRate in v.board && v.board[FundingRate] == Statistic(FundingRate, Some(rate), t, t + s)
  {
    assert Figure(cache[symbol].figures, FundingRate) == Statistic(FundingRate, Some(rate), t, t + s);
    assert Figure(NO_FIGURES, FundingRate).value == None;
  }

  /** After an item of a kept symbol with a funding rate, whatever came before, the product's window and the
      statistic that its subscriber sees have that rate, begin at the item's time and end the interval's time
      of day later, in whole seconds. */
  lemma SubscriberSeesWindow(
    discard: Discard, zeroIsAbsent: bool, ts: seq<Touch>, touch: Touch, t: nat, r: nat, days: nat, s: nat, r': nat)
    requires !touch.ByFunding? && !discard(touch.item.symbol) && HasRate(touch.item, t, r, days, s, r')
    ensures var (cache, us) := TouchedAll(discard, zeroIsAbsent, map[], ts + [touch]);
      var symbol, board := touch.item.symbol, SeeAll(BLANK, touch.item.symbol, us).board;
      && symbol in cache && cache[symbol].figures.fundingRate == Window(touch.item.fundingRate, t, t + s)
      && FundingRate in board && board[FundingRate] == Statistic(FundingRate, touch.item.fundingRate, t, t + s)
  {
    var symbol := touch.item.symbol;
    assert DropLast(ts + [touch]) == ts;
    WindowIsHeld(discard, zeroIsAbsent, TouchedAll(discard, zeroIsAbsent, map[], ts).0, touch, t, r, days, s, r');
    TouchesKeepSettled(discard, zeroIsAbsent, ts + [touch], symbol);
    var (cache, us) := TouchedAll(discard, zeroIsAbsent, map[], ts + [touch]);
    WindowIsShown(zeroIsAbsent, cache, symbol, SeeAll(BLANK, symbol, us), touch.item.fundingRate.value, t, s);
  }
}

/** The product cache over sequences of instrument and funding messages, and what a subscriber of one
    symbol learns from what is published. */
module Instruments {
  import opened Common
  import opened Products

  type Cache = map<string, ProductState>

  datatype Update =
    | ReferenceData(symbol: string, currencies: Currencies, reference: Reference, discard: bool)
    | MarketStatus(symbol: string, state: Option<State>)
    | StatisticsUpdate(symbol: string, statistics: seq<Statistic>)

  /** One item that reaches the cache, and by which message. */
  datatype Touch = ByPartial(item: InstrumentItem) | ByUpdate(item: InstrumentItem) | ByFunding(funding: FundingItem)

  function SymbolOf(t: Touch): string {
    if t.ByFunding? then t.funding.symbol else t.item.symbol
  }

  // ---- what one item does ----

  function Found(zeroIsAbsent: bool, cache: Cache, item: InstrumentItem): ProductState {
    if item.symbol in cache then Updated(cache[item.symbol], item) else Created(zeroIsAbsent, item)
  }

  function StatusAndStatistics(symbol: string, p: ProductState): seq<Update> {
    (if p.statusDirty then [MarketStatus(symbol, p.state)] else []) +
    (if p.statistics != [] then [StatisticsUpdate(symbol, p.statistics)] else [])
  }

  function Touched(discard: Discard, zeroIsAbsent: bool, cache: Cache, t: Touch): (Cache, seq<Update>) {
    var symbol := SymbolOf(t);
    match t
    case ByPartial(item) =>
      var p := Found(zeroIsAbsent, cache, item);
      var reference := [ReferenceData(symbol, p.currencies, p.reference, discard(symbol))];
      if discard(symbol) then
        (cache[symbol := p], reference)
      else
        (cache[symbol := Cleared(p)], reference + StatusAndStatistics(symbol, p))
    case ByUpdate(item) =>
      if discard(symbol) then
        (cache, [])
      else
        var p := Updated(Found(zeroIsAbsent, cache, item), item);
        (cache[symbol := Cleared(p)],
         (if p.referenceDirty then [ReferenceData(symbol, p.currencies, p.reference, false)] else []) +
           StatusAndStatistics(symbol, p))
    case ByFunding(item) =>
      (if symbol in cache then cache else cache[symbol := CreatedByFunding(zeroIsAbsent)], [])
  }

  function TouchedAll(discard: Discard, zeroIsAbsent: bool, cache: Cache, ts: seq<Touch>): (Cache, seq<Update>) {
    if ts == [] then
      (cache, [])
    else
      var (before, updates) := TouchedAll(discard, zeroIsAbsent, cache, DropLast(ts));
      var (after, more) := Touched(discard, zeroIsAbsent, before, Last(ts));
      (after, updates + more)
  }

  // ---- which items of a message reach the cache ----

  function Partials(items: seq<InstrumentItem>): (ts: seq<Touch>)
    ensures |ts| == |items| && forall i :: 0 <= i < |ts| ==> ts[i] == ByPartial(items[i])
  {
    seq(|items|, i requires 0 <= i < |items| => ByPartial(items[i]))
  }

  function Updates(items: seq<InstrumentItem>): (ts: seq<Touch>)
    ensures |ts| == |items| && forall i :: 0 <= i < |ts| ==> ts[i] == ByUpdate(items[i])
  {
    seq(|items|, i requires 0 <= i < |items| => ByUpdate(items[i]))
  }

  function Fundings(items: seq<FundingItem>): (ts: seq<Touch>)
    ensures |ts| == |items| && forall i :: 0 <= i < |ts| ==> ts[i] == ByFunding(items[i])
  {
    seq(|items|, i requires 0 <= i < |items| => ByFunding(items[i]))
  }

  /** Only the first partial of a session is read, and updates only after it. */
  function Touches(latch: bool, action: Action, items: seq<InstrumentItem>): seq<Touch> {
    if action == Partial && !latch then Partials(items)
    else if action == Action.Update && latch then Updates(items)
    else []
  }

  datatype Event =
    | InstrumentMessage(action: Action, items: seq<InstrumentItem>)
    | FundingMessage(fundings: seq<FundingItem>)
    | Disconnected

  predicate LatchAfter(es: seq<Event>) {
    es != [] &&
    match Last(es)
    case InstrumentMessage(action, _) => action == Partial || LatchAfter(DropLast(es))
    case FundingMessage(_) => LatchAfter(DropLast(es))
    case Disconnected => false
  }

  function TouchesOf(latch: bool, e: Event): seq<Touch> {
    match e
    case InstrumentMessage(action, items) => Touches(latch, action, items)
    case FundingMessage(items) => Fundings(items)
    case Disconnected => []
  }

  function TouchesAfter(es: seq<Event>): seq<Touch> {
    if es == [] then [] else TouchesAfter(DropLast(es)) + TouchesOf(LatchAfter(DropLast(es)), Last(es))
  }

  // ---- what a subscriber of one symbol sees ----

  datatype View = View(reference: Option<(Currencies, Reference)>, status: Option<State>, board: Board)

  const BLANK := View(None, None, map[])

  function See(v: View, symbol: string, u: Update): View {
    if u.symbol != symbol then v
    else match u
      case ReferenceData(_, currencies, reference, _) => v.(reference := Some((currencies, reference)))
      case MarketStatus(_, state) => v.(status := state)
      case StatisticsUpdate(_, statistics) => v.(board := Overlay(v.board, statistics))
  }

  function SeeAll(v: View, symbol: string, us: seq<Update>): View {
    if us == [] then v else See(SeeAll(v, symbol, DropLast(us)), symbol, Last(us))
  }

  /** The view agrees with the product; `None` as reference data means that none was sent yet. */
  ghost predicate Mirrors(v: View, p: ProductState) {
    && Shows(v.board, p.figures)
    && v.status == p.state
    && (v.reference.Some? ==> v.reference.value == (p.currencies, p.reference))
  }

  /** A product and its subscriber between messages. */
  ghost predicate Settled(zeroIsAbsent: bool, cache: Cache, symbol: string, v: View) {
    if symbol in cache then cache[symbol].zeroIsAbsent == zeroIsAbsent && IsClean(cache[symbol])
      && Mirrors(v, cache[symbol])
    else v == BLANK
  }

  /** Every statistic of the symbol changes what the view showed, and each type is sent once. */
  ghost predicate OnlyChanges(v: View, symbol: string, us: seq<Update>) {
    forall u :: u in us && u.StatisticsUpdate? && u.symbol == symbol ==>
      (forall d :: d in u.statistics ==> IsChange(v.board, d)) && OncePerKind(u.statistics)
  }

  lemma ViewAfter(v: View, p: ProductState, symbol: string, reference: seq<Update>)
    requires reference == [] || (exists d :: reference == [ReferenceData(symbol, p.currencies, p.reference, d)])
    ensures SeeAll(v, symbol, reference + StatusAndStatistics(symbol, p)) ==
            View(if reference == [] then v.reference else Some((p.currencies, p.reference)),
                 if p.statusDirty then p.state else v.status,
                 Overlay(v.board, p.statistics))
  {
    SeeThree(v, symbol, reference, if p.statusDirty then [MarketStatus(symbol, p.state)] else [],
             if p.statistics != [] then [StatisticsUpdate(symbol, p.statistics)] else []);
  }

  /** Merging an item into a clean product and publishing what is dirty keeps the view in step. */
  lemma PublishKeepsView(
    v: View, before: ProductState, p: ProductState, symbol: string, item: InstrumentItem, reference: seq<Update>)
    requires IsClean(before) && p == Updated(before, item)
    requires Shows(v.board, before.figures) && v.status == before.state
    requires reference == [] || (exists d :: reference == [ReferenceData(symbol, p.currencies, p.reference, d)])
    ensures var us := reference + StatusAndStatistics(symbol, p);
      var w := SeeAll(v, symbol, us);
      && Shows(w.board, p.figures) && w.status == p.state
      && w.reference == (if reference == [] then v.reference else Some((p.currencies, p.reference)))
      && OnlyChanges(v, symbol, us)
  {
    MergedStatistics(v.board, before, p, item);
    ViewAfter(v, p, symbol, reference);
  }

  lemma MergedStatistics(b: Board, before: ProductState, p: ProductState, item: InstrumentItem)
    requires IsClean(before) && p == Updated(before, item) && Shows(b, before.figures)
    ensures Shows(Overlay(b, p.statistics), p.figures)
    ensures (forall d :: d in p.statistics ==> IsChange(b, d)) && OncePerKind(p.statistics)
  {
    assert p.statistics == [] + Differences(before.figures, p.figures, KINDS) ==
           Differences(before.figures, p.figures, KINDS);
    DifferencesShow(b, before.figures, p.figures);
    DifferencesAreChanges(b, before.figures, p.figures, KINDS);
  }

  lemma SeeThree(v: View, symbol: string, a: seq<Update>, b: seq<Update>, c: seq<Update>)
    requires |a| <= 1 && |b| <= 1 && |c| <= 1
    ensures var v1 := if a == [] then v else See(v, symbol, a[0]);
      var v2 := if b == [] then v1 else See(v1, symbol, b[0]);
      SeeAll(v, symbol, a + (b + c)) == if c == [] then v2 else See(v2, symbol, c[0])
  {
    SeeConcat(v, symbol, a, b + c);
    SeeConcat(SeeAll(v, symbol, a), symbol, b, c);
    SeeOne(v, symbol, a);
    SeeOne(SeeAll(v, symbol, a), symbol, b);
    SeeOne(SeeAll(SeeAll(v, symbol, a), symbol, b), symbol, c);
  }

  lemma SeeOne(v: View, symbol: string, us: seq<Update>)
    requires |us| <= 1
    ensures SeeAll(v, symbol, us) == if us == [] then v else See(v, symbol, us[0])
  {
    if us != [] {
      assert DropLast(us) == [];
    }
  }

  lemma {:induction false} SeeConcat(v: View, symbol: string, a: seq<Update>, b: seq<Update>)
    ensures SeeAll(v, symbol, a + b) == SeeAll(SeeAll(v, symbol, a), symbol, b)
  {
    if b == [] {
      assert a + b == a;
    } else {
      assert DropLast(a + b) == a + DropLast(b);
      SeeConcat(v, symbol, a, DropLast(b));
    }
  }

  /** The product that an item finds, before it is merged. */
  function Base(zeroIsAbsent: bool, cache: Cache, item: InstrumentItem): ProductState {
    if item.symbol in cache then cache[item.symbol]
    else ProductState(zeroIsAbsent, item.currencies, item.reference, false, None, false, NO_FIGURES, [])
  }

  function ReferenceOf(symbol: string, p: ProductState, sends: bool): seq<Update> {
    if sends then [ReferenceData(symbol, p.currencies, p.reference, false)] else []
  }

  /** What an item of a kept symbol does, whether it is merged once or twice. */
  lemma ItemTouched(discard: Discard, zeroIsAbsent: bool, cache: Cache, t: Touch)
    requires !t.ByFunding? && !discard(t.item.symbol)
    ensures var symbol, p := t.item.symbol, Updated(Base(zeroIsAbsent, cache, t.item), t.item);
      Touched(discard, zeroIsAbsent, cache, t) ==
      (cache[symbol := Cleared(p)],
       ReferenceOf(symbol, p, t.ByPartial? || p.referenceDirty) + StatusAndStatistics(symbol, p))
  {
    var base := Base(zeroIsAbsent, cache, t.item);
    UpdateIsIdempotent(base, t.item);
    assert Found(zeroIsAbsent, cache, t.item) == Updated(base, t.item);
  }

  /** One item of a symbol keeps the product and its subscriber settled. */
  lemma ItemKeepsSettled(discard: Discard, zeroIsAbsent: bool, cache: Cache, t: Touch, v: View)
    requires !t.ByFunding? && !discard(t.item.symbol) && Settled(zeroIsAbsent, cache, t.item.symbol, v)
    ensures var (after, us) := Touched(discard, zeroIsAbsent, cache, t);
      && Settled(zeroIsAbsent, after, t.item.symbol, SeeAll(v, t.item.symbol, us))
      && OnlyChanges(v, t.item.symbol, us)
  {
    var symbol, base := t.item.symbol, Base(zeroIsAbsent, cache, t.item);
    var p := Updated(base, t.item);
    ItemTouched(discard, zeroIsAbsent, cache, t);
    PublishKeepsView(v, base, p, symbol, t.item, ReferenceOf(symbol, p, t.ByPartial? || p.referenceDirty));
  }

  /** What concerns another symbol is not seen. */
  lemma OtherTouched(discard: Discard, zeroIsAbsent: bool, cache: Cache, t: Touch, symbol: string)
    requires SymbolOf(t) != symbol
    ensures var (after, us) := Touched(discard, zeroIsAbsent, cache, t);
      && (forall u :: u in us ==> u.symbol != symbol)
      && (symbol in after <==> symbol in cache) && (symbol in cache ==> after[symbol] == cache[symbol])
  {
  }

  lemma FundingTouched(discard: Discard, zeroIsAbsent: bool, cache: Cache, item: FundingItem)
    ensures Touched(discard, zeroIsAbsent, cache, ByFunding(item)) ==
            (if item.symbol in cache then cache else cache[item.symbol := CreatedByFunding(zeroIsAbsent)], [])
  {
  }

  /** What does not concern a symbol leaves it settled. */
  lemma OtherKeepsSettled(discard: Discard, zeroIsAbsent: bool, cache: Cache, t: Touch, symbol: string, v: View)
    requires SymbolOf(t) != symbol || t.ByFunding?
    requires Settled(zeroIsAbsent, cache, symbol, v)
    ensures var (after, us) := Touched(discard, zeroIsAbsent, cache, t);
      && SeeAll(v, symbol, us) == v && Settled(zeroIsAbsent, after, symbol, v) && OnlyChanges(v, symbol, us)
  {
    if SymbolOf(t) != symbol {
      OtherTouched(discard, zeroIsAbsent, cache, t, symbol);
      OthersUnseen(v, symbol, Touched(discard, zeroIsAbsent, cache, t).1);
    } else {
      FundingTouched(discard, zeroIsAbsent, cache, t.funding);
    }
  }

  lemma TouchKeepsSettled(discard: Discard, zeroIsAbsent: bool, cache: Cache, t: Touch, symbol: string, v: View)
    requires !discard(symbol) && Settled(zeroIsAbsent, cache, symbol, v)
    ensures var (after, us) := Touched(discard, zeroIsAbsent, cache, t);
      Settled(zeroIsAbsent, after, symbol, SeeAll(v, symbol, us)) && OnlyChanges(v, symbol, us)
  {
    if SymbolOf(t) != symbol || t.ByFunding? {
      OtherKeepsSettled(discard, zeroIsAbsent, cache, t, symbol, v);
    } else {
      ItemKeepsSettled(discard, zeroIsAbsent, cache, t, v);
    }
  }

  lemma {:induction false} OthersUnseen(v: View, symbol: string, us: seq<Update>)
    requires forall u :: u in us ==> u.symbol != symbol
    ensures SeeAll(v, symbol, us) == v
  {
    if us != [] {
      OthersUnseen(v, symbol, DropLast(us));
    }
  }

  lemma {:induction false} TouchesKeepSettled(discard: Discard, zeroIsAbsent: bool, ts: seq<Touch>, symbol: string)
    requires !discard(symbol)
    ensures var (cache, us) := TouchedAll(discard, zeroIsAbsent, map[], ts);
      Settled(zeroIsAbsent, cache, symbol, SeeAll(BLANK, symbol, us))
  {
    if ts != [] {
      var front := DropLast(ts);
      TouchesKeepSettled(discard, zeroIsAbsent, front, symbol);
      var (before, us) := TouchedAll(discard, zeroIsAbsent, map[], front);
      TouchKeepsSettled(discard, zeroIsAbsent, before, Last(ts), symbol, SeeAll(BLANK, symbol, us));
      SeeConcat(BLANK, symbol, us, Touched(discard, zeroIsAbsent, before, Last(ts)).1);
    }
  }

  /** An item sends reference data: every item of a partial does, and an update that changes the reference
      data of a product already in the cache. The update that creates a product does not. */
  predicate Sends(zeroIsAbsent: bool, cache: Cache, t: Touch, symbol: string) {
    SymbolOf(t) == symbol &&
    match t
    case ByPartial(_) => true
    case ByUpdate(item) =>
      symbol in cache && MergeReference(zeroIsAbsent, cache[symbol].reference,
                                        item.reference) != cache[symbol].reference
    case ByFunding(_) => false
  }

  lemma TouchShowsReference(discard: Discard, zeroIsAbsent: bool, cache: Cache, t: Touch, symbol: string, v: View)
    requires !discard(symbol) && Settled(zeroIsAbsent, cache, symbol, v)
    ensures SeeAll(v, symbol, Touched(discard, zeroIsAbsent, cache, t).1).reference.Some?
       <==> v.reference.Some? || Sends(zeroIsAbsent, cache, t, symbol)
  {
    if SymbolOf(t) != symbol || t.ByFunding? {
      OtherKeepsSettled(discard, zeroIsAbsent, cache, t, symbol, v);
    } else {
      var base := Base(zeroIsAbsent, cache, t.item);
      var p := Updated(base, t.item);
      ItemTouched(discard, zeroIsAbsent, cache, t);
      PublishKeepsView(v, base, p, symbol, t.item, ReferenceOf(symbol, p, t.ByPartial? || p.referenceDirty));
    }
  }

  ghost predicate SendsAt(discard: Discard, zeroIsAbsent: bool, ts: seq<Touch>, symbol: string, k: nat) {
    k < |ts| && Sends(zeroIsAbsent, TouchedAll(discard, zeroIsAbsent, map[], ts[..k]).0, ts[k], symbol)
  }

  lemma SendsAtGrows(discard: Discard, zeroIsAbsent: bool, front: seq<Touch>, t: Touch, symbol: string, k: nat)
    ensures SendsAt(discard, zeroIsAbsent, front + [t], symbol, k) <==>
            SendsAt(discard, zeroIsAbsent, front, symbol, k) ||
            (k == |front| && Sends(zeroIsAbsent, TouchedAll(discard, zeroIsAbsent, map[], front).0, t, symbol))
  {
    var ts := front + [t];
    if k < |front| {
      assert ts[..k] == front[..k];
    } else if k == |front| {
      assert ts[..k] == front;
    }
  }

  lemma AnySendsGrows(discard: Discard, zeroIsAbsent: bool, front: seq<Touch>, t: Touch, symbol: string)
    ensures (exists k :: SendsAt(discard, zeroIsAbsent, front + [t], symbol, k)) <==>
            (exists k :: SendsAt(discard, zeroIsAbsent, front, symbol, k)) ||
            Sends(zeroIsAbsent, TouchedAll(discard, zeroIsAbsent, map[], front).0, t, symbol)
  {
    if k: nat :| SendsAt(discard, zeroIsAbsent, front + [t], symbol, k) {
      SendsAtGrows(discard, zeroIsAbsent, front, t, symbol, k);
    }
    if k: nat :| SendsAt(discard, zeroIsAbsent, front, symbol, k) {
      SendsAtGrows(discard, zeroIsAbsent, front, t, symbol, k);
      assert SendsAt(discard, zeroIsAbsent, front + [t], symbol, k);
    }
    SendsAtGrows(discard, zeroIsAbsent, front, t, symbol, |front|);
  }

  /** Over all items read, a subscriber has reference data of a kept symbol exactly when a partial listed
      the symbol or an update changed the reference data of its product. A symbol that is only ever seen
      in updates that repeat what the first one said has none, although it has a product. */
  lemma {:induction false} ReferenceKnownExactlyWhen(
    discard: Discard, zeroIsAbsent: bool, ts: seq<Touch>, symbol: string)
    requires !discard(symbol)
    ensures SeeAll(BLANK, symbol, TouchedAll(discard, zeroIsAbsent, map[], ts).1).reference.Some?
       <==> exists k :: SendsAt(discard, zeroIsAbsent, ts, symbol, k)
  {
    if ts != [] {
      var front, t := DropLast(ts), Last(ts);
      assert ts == front + [t];
      var (before, us) := TouchedAll(discard, zeroIsAbsent, map[], front);
      ReferenceKnownExactlyWhen(discard, zeroIsAbsent, front, symbol);
      TouchesKeepSettled(discard, zeroIsAbsent, front, symbol);
      TouchShowsReference(discard, zeroIsAbsent, before, t, symbol, SeeAll(BLANK, symbol, us));
      SeeConcat(BLANK, symbol, us, Touched(discard, zeroIsAbsent, before, t).1);
      AnySendsGrows(discard, zeroIsAbsent, front, t, symbol);
    }
  }

  /** Lossless and clean: after every sequence of instrument and funding messages and disconnects, each
      product of a kept symbol has nothing dirty and nothing queued; overlaying the published statistics
      on an empty board gives its current figures; the last published status is its state; and the
      subscriber has its current reference data, exactly when some item read sent it. */
  lemma SubscriberIsCurrent(discard: Discard, zeroIsAbsent: bool, es: seq<Event>, symbol: string)
    requires !discard(symbol)
    ensures var ts := TouchesAfter(es);
      var (cache, us) := TouchedAll(discard, zeroIsAbsent, map[], ts);
      var v := SeeAll(BLANK, symbol, us);
      && (if symbol in cache then IsClean(cache[symbol]) && Mirrors(v, cache[symbol]) else v == BLANK)
      && (v.reference.Some? <==> exists k :: SendsAt(discard, zeroIsAbsent, ts, symbol, k))
  {
    TouchesKeepSettled(discard, zeroIsAbsent, TouchesAfter(es), symbol);
    ReferenceKnownExactlyWhen(discard, zeroIsAbsent, TouchesAfter(es), symbol);
  }

  /** No repeats: whatever came before, the statistics sent for an item differ from what was shown. */
  lemma StatisticsAreChanges(discard: Discard, zeroIsAbsent: bool, ts: seq<Touch>, t: Touch, symbol: string)
    requires !discard(symbol)
    ensures var (cache, us) := TouchedAll(discard, zeroIsAbsent, map[], ts);
      OnlyChanges(SeeAll(BLANK, symbol, us), symbol, Touched(discard, zeroIsAbsent, cache, t).1)
  {
    TouchesKeepSettled(discard, zeroIsAbsent, ts, symbol);
    var (cache, us) := TouchedAll(discard, zeroIsAbsent, map[], ts);
    TouchKeepsSettled(discard, zeroIsAbsent, cache, t, symbol, SeeAll(BLANK, symbol, us));
  }

  // ---- what a product holds ----

  /** Everything a product tracks. */
  datatype Field =
    | TickSize | Multiplier | LotSize | StrikePrice | Underlying | Expiry | Settle | TradingState
    | FigureOf(kind: StatisticsType) | FundingBegin | FundingEnd

  datatype Datum = Number(number: real) | Text(text: string) | Time(time: int) | Trading(state: State)

  function AsNumber(x: Option<real>): Option<Datum> {
    if x.Some? then Some(Number(x.value)) else None
  }

  function AsText(x: Option<string>): Option<Datum> {
    if x.Some? then Some(Text(x.value)) else None
  }

  function AsTrading(x: Option<State>): Option<Datum> {
    if x.Some? then Some(Trading(x.value)) else None
  }

  function AsTime(zeroIsAbsent: bool, time: int): Option<Datum> {
    if zeroIsAbsent && time == 0 then None else Some(Time(time))
  }

  /** What an item says about a field, if anything. */
  function Says(zeroIsAbsent: bool, item: InstrumentItem, f: Field): Option<Datum> {
    match f
    case TickSize => AsNumber(item.reference.tickSize)
    case Multiplier => AsNumber(item.reference.multiplier)
    case LotSize => AsNumber(item.reference.lotSize)
    case StrikePrice => AsNumber(item.reference.strikePrice)
    case Underlying => AsText(item.reference.underlying)
    case Expiry => AsTime(zeroIsAbsent, item.reference.expiry)
    case Settle => AsTime(zeroIsAbsent, item.reference.settle)
    case TradingState => AsTrading(item.state)
    case FigureOf(SettlementPrice) => AsNumber(item.markPrice)
    case FigureOf(OpenInterest) => AsNumber(item.openInterest)
    case FigureOf(PreSettlementPrice) => AsNumber(item.indicativeSettlePrice)
    case FigureOf(UpperLimitPrice) => AsNumber(item.limitUpPrice)
    case FigureOf(LowerLimitPrice) => AsNumber(item.limitDownPrice)
    case FigureOf(IndexValue) => AsNumber(item.fairPrice)
    case FigureOf(FundingRate) => AsNumber(item.fundingRate)
    case FigureOf(FundingRatePrediction) => AsNumber(item.indicativeFundingRate)
    case FundingBegin => if item.fundingRate.Some? then AsTime(zeroIsAbsent, BeginTime(item)) else None
    case FundingEnd => if item.fundingRate.Some? then AsTime(zeroIsAbsent, EndTime(item)) else None
  }

  function ReferenceHolds(r: Reference, f: Field): Option<Datum> {
    match f
    case TickSize => AsNumber(r.tickSize)
    case Multiplier => AsNumber(r.multiplier)
    case LotSize => AsNumber(r.lotSize)
    case StrikePrice => AsNumber(r.strikePrice)
    case Underlying => AsText(r.underlying)
    case Expiry => Some(Time(r.expiry))
    case Settle => Some(Time(r.settle))
    case _ => None
  }

  function FiguresHold(g: Figures, f: Field): Option<Datum> {
    match f
    case FigureOf(kind) => AsNumber(Figure(g, kind).value)
    case FundingBegin => Some(Time(g.fundingRate.begin))
    case FundingEnd => Some(Time(g.fundingRate.end))
    case _ => None
  }

  function Holds(p: ProductState, f: Field): Option<Datum> {
    match f
    case TradingState => AsTrading(p.state)
    case FigureOf(_) => FiguresHold(p.figures, f)
    case FundingBegin => FiguresHold(p.figures, f)
    case FundingEnd => FiguresHold(p.figures, f)
    case _ => ReferenceHolds(p.reference, f)
  }

  /** What a field holds before anything is said. */
  function Unset(f: Field): Option<Datum> {
    if f == Expiry || f == Settle || f == FundingBegin || f == FundingEnd then Some(Time(0)) else None
  }

  /** The last thing said about a field of a symbol. */
  function LastSaid(zeroIsAbsent: bool, ts: seq<Touch>, symbol: string, f: Field): Option<Datum> {
    if ts == [] then Unset(f)
    else if !Last(ts).ByFunding? && SymbolOf(Last(ts)) == symbol && Says(zeroIsAbsent, Last(ts).item, f).Some? then
      Says(zeroIsAbsent, Last(ts).item, f)
    else LastSaid(zeroIsAbsent, DropLast(ts), symbol, f)
  }

  lemma MergedReferenceHolds(zeroIsAbsent: bool, r: Reference, item: InstrumentItem, f: Field)
    requires !f.TradingState? && !f.FigureOf? && !f.FundingBegin? && !f.FundingEnd?
    ensures ReferenceHolds(MergeReference(zeroIsAbsent, r, item.reference), f) ==
            if Says(zeroIsAbsent, item, f).Some? then Says(zeroIsAbsent, item, f) else ReferenceHolds(r, f)
  {
  }

  lemma MergedFiguresHold(zeroIsAbsent: bool, g: Figures, item: InstrumentItem, f: Field)
    requires f.FigureOf? || f.FundingBegin? || f.FundingEnd?
    ensures FiguresHold(MergeFigures(zeroIsAbsent, g, item), f) ==
            if Says(zeroIsAbsent, item, f).Some? then Says(zeroIsAbsent, item, f) else FiguresHold(g, f)
  {
  }

  lemma UpdatedHolds(p: ProductState, item: InstrumentItem, f: Field)
    ensures Holds(Cleared(Updated(p, item)), f) == Holds(Updated(p, item), f)
    ensures Holds(Updated(p, item), f) ==
            if Says(p.zeroIsAbsent, item, f).Some? then Says(p.zeroIsAbsent, item, f) else Holds(p, f)
  {
    if f.FigureOf? || f.FundingBegin? || f.FundingEnd? {
      MergedFiguresHold(p.zeroIsAbsent, p.figures, item, f);
    } else if !f.TradingState? {
      MergedReferenceHolds(p.zeroIsAbsent, p.reference, item, f);
    }
  }

  /** Of a new product, exactly what its item said is set. */
  lemma BaseHolds(zeroIsAbsent: bool, item: InstrumentItem, f: Field)
    ensures var base := Base(zeroIsAbsent, map[], item);
      Says(zeroIsAbsent, item, f).None? ==> Holds(base, f) == Unset(f)
  {
  }

  function HeldIn(cache: Cache, symbol: string, f: Field): Option<Datum> {
    if symbol in cache then Holds(cache[symbol], f) else Unset(f)
  }

  lemma TouchedHolds(discard: Discard, zeroIsAbsent: bool, cache: Cache, t: Touch, symbol: string, f: Field)
    requires !discard(symbol) && (symbol in cache ==> cache[symbol].zeroIsAbsent == zeroIsAbsent)
    ensures HeldIn(Touched(discard, zeroIsAbsent, cache, t).0, symbol, f) ==
            if !t.ByFunding? && SymbolOf(t) == symbol && Says(zeroIsAbsent, t.item, f).Some? then
              Says(zeroIsAbsent, t.item, f)
            else
              HeldIn(cache, symbol, f)
  {
    if SymbolOf(t) == symbol && !t.ByFunding? {
      ItemTouched(discard, zeroIsAbsent, cache, t);
      UpdatedHolds(Base(zeroIsAbsent, cache, t.item), t.item, f);
      BaseHolds(zeroIsAbsent, t.item, f);
    }
  }

  /** Every product of a kept symbol holds, field by field, the last value that any item read said. */
  lemma {:induction false} ProductsHoldLastSaid(
    discard: Discard, zeroIsAbsent: bool, ts: seq<Touch>, symbol: string, f: Field)
    requires !discard(symbol)
    ensures LastSaid(zeroIsAbsent, ts, symbol, f) == HeldIn(TouchedAll(discard, zeroIsAbsent, map[], ts).0, symbol, f)
  {
    if ts != [] {
      ProductsHoldLastSaid(discard, zeroIsAbsent, DropLast(ts), symbol, f);
      TouchesKeepSettled(discard, zeroIsAbsent, DropLast(ts), symbol);
      TouchedHolds(discard, zeroIsAbsent, TouchedAll(discard, zeroIsAbsent, map[], DropLast(ts)).0, Last(ts), symbol,
                   f);
    }
  }

  lemma BoardShowsHeld(zeroIsAbsent: bool, cache: Cache, symbol: string, v: View, kind: StatisticsType)
    requires Settled(zeroIsAbsent, cache, symbol, v)
    ensures HeldIn(cache, symbol, FigureOf(kind)) == if kind in v.board then AsNumber(v.board[kind].value) else None
  {
  }

  /** End to end: the value a subscriber sees of each statistic is the last one that any item read said; it
      sees no value exactly when none said any. */
  lemma SubscriberSeesLastSaid(
    discard: Discard, zeroIsAbsent: bool, ts: seq<Touch>, symbol: string, kind: StatisticsType)
    requires !discard(symbol)
    ensures var board := SeeAll(BLANK, symbol, TouchedAll(discard, zeroIsAbsent, map[], ts).1).board;
      LastSaid(zeroIsAbsent, ts, symbol, FigureOf(kind)) == if kind in board then AsNumber(board[kind].value) else None
  {
    var (cache, us) := TouchedAll(discard, zeroIsAbsent, map[], ts);
    TouchesKeepSettled(discard, zeroIsAbsent, ts, symbol);
    BoardShowsHeld(zeroIsAbsent, cache, symbol, SeeAll(BLANK, symbol, us), kind);
    ProductsHoldLastSaid(discard, zeroIsAbsent, ts, symbol, FigureOf(kind));
  }

  // ---- when reference data is sent ----

  /** A symbol first seen in an update has a product and no reference data at its subscribers. */
  lemma UpdateAloneSendsNoReference(discard: Discard, zeroIsAbsent: bool, item: InstrumentItem)
    requires !discard(item.symbol)
    ensures var (cache, us) := TouchedAll(discard, zeroIsAbsent, map[], [ByUpdate(item)]);
      item.symbol in cache && SeeAll(BLANK, item.symbol, us).reference.None?
  {
    var ts := [ByUpdate(item)];
    assert DropLast(ts) == [] && TouchedAll(discard, zeroIsAbsent, map[], []) == (map[], []);
    ItemTouched(discard, zeroIsAbsent, map[], ByUpdate(item));
    ReferenceKnownExactlyWhen(discard, zeroIsAbsent, ts, item.symbol);
    assert ts[..0] == [];
    assert forall k :: !SendsAt(discard, zeroIsAbsent, ts, item.symbol, k);
  }

  /** A partial sends the reference data of every item it lists. */
  lemma PartialSendsReference(discard: Discard, zeroIsAbsent: bool, cache: Cache, item: InstrumentItem, v: View)
    requires !discard(item.symbol) && Settled(zeroIsAbsent, cache, item.symbol, v)
    ensures var (after, us) := Touched(discard, zeroIsAbsent, cache, ByPartial(item));
      SeeAll(v, item.symbol, us).reference == Some((after[item.symbol].currencies, after[item.symbol].reference))
  {
    var base := Base(zeroIsAbsent, cache, item);
    var p := Updated(base, item);
    ItemTouched(discard, zeroIsAbsent, cache, ByPartial(item));
    PublishKeepsView(v, base, p, item.symbol, item, ReferenceOf(item.symbol, p, true));
  }

  // ---- where currencies come from ----

  /** The touch puts a product into a cache that has none. */
  predicate Creates(discard: Discard, t: Touch, symbol: string) {
    SymbolOf(t) == symbol && (t.ByUpdate? ==> !discard(symbol))
  }

  function CurrenciesOf(t: Touch): Currencies {
    if t.ByFunding? then NO_CURRENCIES else t.item.currencies
  }

  ghost predicate FirstTouch(discard: Discard, ts: seq<Touch>, symbol: string, k: nat) {
    k < |ts| && Creates(discard, ts[k], symbol) && forall j :: 0 <= j < k ==> !Creates(discard, ts[j], symbol)
  }

  lemma TouchKeepsCurrencies(discard: Discard, zeroIsAbsent: bool, cache: Cache, t: Touch, symbol: string)
    ensures var after := Touched(discard, zeroIsAbsent, cache, t).0;
      && (symbol in after <==> symbol in cache || Creates(discard, t, symbol))
      && (symbol in after ==>
            after[symbol].currencies == if symbol in cache then cache[symbol].currencies else CurrenciesOf(t))
  {
    if SymbolOf(t) != symbol {
      OtherTouched(discard, zeroIsAbsent, cache, t, symbol);
    }
  }

  /** Provenance: a product keeps, for ever after, the currencies of the item that created it; they are
      lost for good if that was a funding item. */
  lemma {:induction false} CurrenciesOfFirstTouch(
    discard: Discard, zeroIsAbsent: bool, ts: seq<Touch>, symbol: string, k: nat)
    requires FirstTouch(discard, ts, symbol, k)
    ensures var cache := TouchedAll(discard, zeroIsAbsent, map[], ts).0;
      symbol in cache && cache[symbol].currencies == CurrenciesOf(ts[k])
  {
    var front := DropLast(ts);
    var cache := TouchedAll(discard, zeroIsAbsent, map[], front).0;
    if k < |front| {
      assert FirstTouch(discard, front, symbol, k) && ts[k] == front[k];
      CurrenciesOfFirstTouch(discard, zeroIsAbsent, front, symbol, k);
    } else {
      assert forall j :: 0 <= j < |front| ==> ts[j] == front[j];
      UncreatedIsAbsent(discard, zeroIsAbsent, front, symbol);
    }
    TouchKeepsCurrencies(discard, zeroIsAbsent, cache, Last(ts), symbol);
    assert TouchedAll(discard, zeroIsAbsent, map[], ts).0 == Touched(discard, zeroIsAbsent, cache, Last(ts)).0;
  }

  lemma {:induction false} UncreatedIsAbsent(discard: Discard, zeroIsAbsent: bool, ts: seq<Touch>, symbol: string)
    requires forall j :: 0 <= j < |ts| ==> !Creates(discard, ts[j], symbol)
    ensures symbol !in TouchedAll(discard, zeroIsAbsent, map[], ts).0
  {
    if ts != [] {
      var front := DropLast(ts);
      assert forall j :: 0 <= j < |front| ==> ts[j] == front[j];
      UncreatedIsAbsent(discard, zeroIsAbsent, front, symbol);
      TouchKeepsCurrencies(discard, zeroIsAbsent, TouchedAll(discard, zeroIsAbsent, map[], front).0, Last(ts), symbol);
    }
  }

  /** A partial does not repair a product that a funding item created. */
  lemma FundingLosesCurrencies(discard: Discard, zeroIsAbsent: bool, funding: FundingItem, item: InstrumentItem)
    requires funding.symbol == item.symbol && item.currencies != NO_CURRENCIES
    ensures var cache := TouchedAll(discard, zeroIsAbsent, map[], [ByFunding(funding), ByPartial(item)]).0;
      item.symbol in cache && cache[item.symbol].currencies == NO_CURRENCIES != item.currencies
  {
    CurrenciesOfFirstTouch(discard, zeroIsAbsent, [ByFunding(funding), ByPartial(item)], item.symbol, 0);
  }

  /** Before the first instrument partial, and without funding messages, nothing reaches the cache. */
  lemma {:induction false} NothingBeforePartial(es: seq<Event>)
    requires forall e :: e in es ==> !e.FundingMessage? && !(e.InstrumentMessage? && e.action == Partial)
    ensures TouchesAfter(es) == [] && !LatchAfter(es)
  {
    if es != [] {
      assert forall e :: e in DropLast(es) ==> e in es;
      NothingBeforePartial(DropLast(es));
      assert Last(es) in es;
    }
  }

  lemma {:induction false} TouchesExtend(before: seq<Event>, later: seq<Event>)
    ensures TouchesAfter(before) <= TouchesAfter(before + later)
  {
    if later == [] {
      assert before + later == before;
    } else {
      assert DropLast(before + later) == before + DropLast(later);
      TouchesExtend(before, DropLast(later));
    }
  }

  /** If no funding message precedes the first instrument partial, every symbol it lists has, after
      whatever follows, the currencies of its first item there. */
  lemma FirstPartialKeepsCurrencies(
    discard: Discard, zeroIsAbsent: bool, before: seq<Event>, items: seq<InstrumentItem>, later: seq<Event>, i: nat)
    requires forall e :: e in before ==> !e.FundingMessage? && !(e.InstrumentMessage? && e.action == Partial)
    requires i < |items| && forall j :: 0 <= j < i ==> items[j].symbol != items[i].symbol
    ensures var cache := TouchedAll(discard, zeroIsAbsent, map[],
                                    TouchesAfter(before + [InstrumentMessage(Partial, items)] + later)).0;
      items[i].symbol in cache && cache[items[i].symbol].currencies == items[i].currencies
  {
    FirstPartialTouches(before, items);
    var upTo := before + [InstrumentMessage(Partial, items)];
    TouchesExtend(upTo, later);
    FirstOfItems(discard, items, TouchesAfter(upTo + later), i);
    CurrenciesOfFirstTouch(discard, zeroIsAbsent, TouchesAfter(upTo + later), items[i].symbol, i);
  }

  lemma FirstPartialTouches(before: seq<Event>, items: seq<InstrumentItem>)
    requires forall e :: e in before ==> !e.FundingMessage? && !(e.InstrumentMessage? && e.action == Partial)
    ensures TouchesAfter(before + [InstrumentMessage(Partial, items)]) == Partials(items)
  {
    NothingBeforePartial(before);
    assert DropLast(before + [InstrumentMessage(Partial, items)]) == before;
  }

  lemma FirstOfItems(discard: Discard, items: seq<InstrumentItem>, ts: seq<Touch>, i: nat)
    requires Partials(items) <= ts
    requires i < |items| && forall j :: 0 <= j < i ==> items[j].symbol != items[i].symbol
    ensures FirstTouch(discard, ts, items[i].symbol, i) && CurrenciesOf(ts[i]) == items[i].currencies
  {
    forall j | 0 <= j < |items| ensures ts[j] == ByPartial(items[j]) {
      assert Partials(items)[j] == ts[j];
    }
  }
}

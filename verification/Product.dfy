/** Change tracking of one product: what an instrument item changes, what is marked dirty and which
    statistics are queued. */
module Products {
  import opened Common

  datatype StatisticsType =
    | SettlementPrice | OpenInterest | PreSettlementPrice | UpperLimitPrice | LowerLimitPrice | IndexValue
    | FundingRate | FundingRatePrediction

  datatype Statistic = Statistic(kind: StatisticsType, value: Option<real>, begin: int, end: int)

  datatype State = State(name: string)

  datatype Reference = Reference(
    tickSize: Option<real>, multiplier: Option<real>, lotSize: Option<real>, strikePrice: Option<real>,
    underlying: Option<string>, expiry: int, settle: int)

  datatype Currencies = Currencies(quote: Option<string>, settl: Option<string>)

  datatype Window = Window(value: Option<real>, begin: int, end: int)

  datatype Figures = Figures(
    settlementPrice: Option<real>, openInterest: Option<real>, indicativeSettlePrice: Option<real>,
    limitUpPrice: Option<real>, limitDownPrice: Option<real>, fairPrice: Option<real>,
    fundingRate: Window, indicativeFundingRate: Option<real>)

  /** The fields of an instrument item that a product reads. Times are in milliseconds. */
  datatype InstrumentItem = InstrumentItem(
    symbol: string, currencies: Currencies, reference: Reference, state: Option<State>,
    markPrice: Option<real>, openInterest: Option<real>, indicativeSettlePrice: Option<real>,
    limitUpPrice: Option<real>, limitDownPrice: Option<real>, fairPrice: Option<real>,
    fundingRate: Option<real>, indicativeFundingRate: Option<real>, timestamp: int, fundingInterval: int)

  datatype FundingItem = FundingItem(symbol: string)

  // ---- the assumed contract of utils::update ----

  /** An absent value is ignored. */
  function Merge<T>(current: Option<T>, value: Option<T>): Option<T> {
    if value.Some? then value else current
  }

  predicate Changes<T(==)>(current: Option<T>, value: Option<T>) {
    value.Some? && value != current
  }

  /** Whether `utils::update` takes a zero time for an absent value is not visible in the repository, so
      everything here holds for both readings. */
  function MergeTime(zeroIsAbsent: bool, current: int, value: int): int {
    if zeroIsAbsent && value == 0 then current else value
  }

  // ---- times ----

  /** Division and remainder that truncate towards zero. */
  function TruncDiv(a: int, b: int): int
    requires b > 0
  {
    if a >= 0 then a / b else -(-a / b)
  }

  function TruncMod(a: int, b: int): int
    requires b > 0
  {
    a - TruncDiv(a, b) * b
  }

  const SECONDS_PER_DAY := 86400

  function StripTimePart(timestamp: int): int {
    TruncMod(TruncDiv(timestamp, 1000), SECONDS_PER_DAY)
  }

  /** The time of day in seconds stays below one day and whole days do not matter, before and after
      time zero. */
  lemma StripTimePartBounds(days: nat, millis: nat)
    requires millis < SECONDS_PER_DAY * 1000
    ensures StripTimePart(days * SECONDS_PER_DAY * 1000 + millis) == millis / 1000 < SECONDS_PER_DAY
    ensures StripTimePart(-(days * SECONDS_PER_DAY * 1000 + millis)) == -(millis / 1000)
  {
    var time, seconds := days * SECONDS_PER_DAY * 1000 + millis, millis / 1000;
    assert time / 1000 == days * SECONDS_PER_DAY + seconds;
    assert (days * SECONDS_PER_DAY + seconds) / SECONDS_PER_DAY == days;
    assert TruncDiv(-time, 1000) == -TruncDiv(time, 1000);
    assert TruncMod(-TruncDiv(time, 1000), SECONDS_PER_DAY) == -TruncMod(TruncDiv(time, 1000), SECONDS_PER_DAY);
  }

  /** Whole seconds of a time, and the seconds of the day of an interval, in literal units. */
  lemma TimesInSeconds(t: nat, r: nat, days: nat, s: nat, r': nat)
    requires r < 1000 && s < 86400 && r' < 1000
    ensures TruncDiv(1000 * t + r, 1000) == t
    ensures StripTimePart(86400000 * days + 1000 * s + r') == s
  {
    assert (1000 * t + r) / 1000 == t;
    var interval := 86400000 * days + 1000 * s + r';
    assert interval / 1000 == 86400 * days + s;
    assert (86400 * days + s) / 86400 == days;
  }

  // ---- the product ----

  datatype ProductState = ProductState(
    zeroIsAbsent: bool, currencies: Currencies,
    reference: Reference, referenceDirty: bool,
    state: Option<State>, statusDirty: bool,
    figures: Figures, statistics: seq<Statistic>)

  const NO_REFERENCE := Reference(None, None, None, None, None, 0, 0)
  const NO_FIGURES := Figures(None, None, None, None, None, None, Window(None, 0, 0), None)
  const NO_CURRENCIES := Currencies(None, None)

  function MergeReference(zeroIsAbsent: bool, r: Reference, item: Reference): Reference {
    Reference(Merge(r.tickSize, item.tickSize), Merge(r.multiplier, item.multiplier), Merge(r.lotSize, item.lotSize),
              Merge(r.strikePrice, item.strikePrice), Merge(r.underlying, item.underlying),
              MergeTime(zeroIsAbsent, r.expiry, item.expiry), MergeTime(zeroIsAbsent, r.settle, item.settle))
  }

  function BeginTime(item: InstrumentItem): int {
    TruncDiv(item.timestamp, 1000)
  }

  function EndTime(item: InstrumentItem): int {
    if BeginTime(item) != 0 then BeginTime(item) + StripTimePart(item.fundingInterval) else 0
  }

  function MergeWindow(zeroIsAbsent: bool, w: Window, item: InstrumentItem): Window {
    if item.fundingRate.None? then w
    else Window(item.fundingRate, MergeTime(zeroIsAbsent, w.begin, BeginTime(item)),
                MergeTime(zeroIsAbsent, w.end, EndTime(item)))
  }

  function MergeFigures(zeroIsAbsent: bool, f: Figures, item: InstrumentItem): Figures {
    Figures(
      Merge(f.settlementPrice, item.markPrice), Merge(f.openInterest, item.openInterest),
      Merge(f.indicativeSettlePrice, item.indicativeSettlePrice),
      Merge(f.limitUpPrice, item.limitUpPrice), Merge(f.limitDownPrice, item.limitDownPrice), Merge(f.fairPrice,
        item.fairPrice),
      MergeWindow(zeroIsAbsent, f.fundingRate, item),
      Merge(f.indicativeFundingRate, item.indicativeFundingRate))
  }

  /** The current statistic of a type. */
  function Figure(f: Figures, kind: StatisticsType): Statistic {
    match kind
    case SettlementPrice => Statistic(kind, f.settlementPrice, 0, 0)
    case OpenInterest => Statistic(kind, f.openInterest, 0, 0)
    case PreSettlementPrice => Statistic(kind, f.indicativeSettlePrice, 0, 0)
    case UpperLimitPrice => Statistic(kind, f.limitUpPrice, 0, 0)
    case LowerLimitPrice => Statistic(kind, f.limitDownPrice, 0, 0)
    case IndexValue => Statistic(kind, f.fairPrice, 0, 0)
    case FundingRate => Statistic(kind, f.fundingRate.value, f.fundingRate.begin, f.fundingRate.end)
    case FundingRatePrediction => Statistic(kind, f.indicativeFundingRate, 0, 0)
  }

  const KINDS: seq<StatisticsType> :=
    [SettlementPrice, OpenInterest, PreSettlementPrice, UpperLimitPrice, LowerLimitPrice, IndexValue, FundingRate,
     FundingRatePrediction]

  /** The statistics of `kinds` that differ between two sets of figures, in order. */
  function Differences(before: Figures, after: Figures, kinds: seq<StatisticsType>): seq<Statistic> {
    if kinds == [] then
      []
    else
      Differences(before, after, DropLast(kinds)) +
      if Figure(before, Last(kinds)) == Figure(after, Last(kinds)) then [] else [Figure(after, Last(kinds))]
  }

  /** What an instrument item makes of a product. */
  function Updated(p: ProductState, item: InstrumentItem): ProductState {
    var reference := MergeReference(p.zeroIsAbsent, p.reference, item.reference);
    var figures := MergeFigures(p.zeroIsAbsent, p.figures, item);
    p.(reference := reference, referenceDirty := p.referenceDirty || reference != p.reference,
       state := Merge(p.state, item.state), statusDirty := p.statusDirty || Changes(p.state, item.state),
       figures := figures, statistics := p.statistics + Differences(p.figures, figures, KINDS))
  }

  function Created(zeroIsAbsent: bool, item: InstrumentItem): ProductState {
    Updated(ProductState(zeroIsAbsent, item.currencies, item.reference, false, None, false, NO_FIGURES, []), item)
  }

  function CreatedByFunding(zeroIsAbsent: bool): ProductState {
    ProductState(zeroIsAbsent, NO_CURRENCIES, NO_REFERENCE, false, None, false, NO_FIGURES, [])
  }

  function Cleared(p: ProductState): ProductState {
    p.(referenceDirty := false, statusDirty := false, statistics := [])
  }

  predicate IsClean(p: ProductState) {
    !p.referenceDirty && !p.statusDirty && p.statistics == []
  }

  /** The window of a funding rate: it begins at the item's time and ends the interval's time of day later, in
      whole seconds. An item at time zero says nothing about either, if zero counts as absent, and else that
      both are zero. Without a funding rate the window stays. */
  lemma FundingWindowIs(p: ProductState, item: InstrumentItem, t: nat, r: nat, days: nat, s: nat, r': nat)
    requires r < 1000 && s < 86400 && r' < 1000
    requires item.timestamp == 1000 * t + r && item.fundingInterval == 86400000 * days + 1000 * s + r'
    ensures var before, after := p.figures.fundingRate, Updated(p, item).figures.fundingRate;
      after == if item.fundingRate.None? then before
               else if t > 0 then Window(item.fundingRate, t, t + s)
               else if p.zeroIsAbsent then Window(item.fundingRate, before.begin, before.end)
               else Window(item.fundingRate, 0, 0)
  {
    TimesInSeconds(t, r, days, s, r');
  }

  /** Applying an item twice is applying it once, so the double update of an instrument update queues
      each change once. */
  lemma UpdateIsIdempotent(p: ProductState, item: InstrumentItem)
    ensures Updated(Updated(p, item), item) == Updated(p, item)
  {
    var q := Updated(p, item);
    assert MergeFigures(p.zeroIsAbsent, q.figures, item) == q.figures;
    assert MergeReference(p.zeroIsAbsent, q.reference, item.reference) == q.reference;
    NoDifferences(q.figures, KINDS);
  }

  lemma {:induction false} NoDifferences(f: Figures, kinds: seq<StatisticsType>)
    ensures Differences(f, f, kinds) == []
  {
    if kinds != [] {
      NoDifferences(f, DropLast(kinds));
    }
  }

  // ---- statistics as a subscriber sees them ----

  type Board = map<StatisticsType, Statistic>

  /** A subscriber keeps the latest statistic of each type. */
  function Overlay(b: Board, statistics: seq<Statistic>): Board {
    if statistics == [] then b else Overlay(b, DropLast(statistics))[Last(statistics).kind := Last(statistics)]
  }

  /** The board shows the current statistic of every type; a type not shown was never set. */
  ghost predicate Shows(b: Board, f: Figures) {
    forall kind: StatisticsType ::
      if kind in b then b[kind] == Figure(f, kind) else Figure(f, kind) == Figure(NO_FIGURES, kind)
  }

  predicate NoDuplicates(kinds: seq<StatisticsType>) {
    forall i, j :: 0 <= i < j < |kinds| ==> kinds[i] != kinds[j]
  }

  /** The differences bring a board from one set of figures to the other. */
  lemma {:induction false} DifferencesOverlay(b: Board, before: Figures, after: Figures, kinds: seq<StatisticsType>)
    requires Shows(b, before)
    ensures var o := Overlay(b, Differences(before, after, kinds));
      forall kind: StatisticsType ::
        if kind in kinds then (if kind in o then o[kind] == Figure(after, kind)
                               else Figure(after, kind) == Figure(NO_FIGURES, kind))
        else (kind in o <==> kind in b) && (kind in b ==> o[kind] == b[kind])
  {
    if kinds != [] {
      var front, last := DropLast(kinds), Last(kinds);
      assert kinds == front + [last];
      DifferencesOverlay(b, before, after, front);
      var ds := Differences(before, after, front);
      if Figure(before, last) != Figure(after, last) {
        assert DropLast(ds + [Figure(after, last)]) == ds;
        assert Figure(after, last).kind == last;
      } else {
        assert ds + [] == ds;
      }
    }
  }

  lemma AllKinds(kind: StatisticsType)
    ensures kind in KINDS
  {
    assert KINDS[0] == SettlementPrice && KINDS[1] == OpenInterest && KINDS[2] == PreSettlementPrice
           && KINDS[3] == UpperLimitPrice;
    assert KINDS[4] == LowerLimitPrice && KINDS[5] == IndexValue && KINDS[6] == FundingRate
           && KINDS[7] == FundingRatePrediction;
  }

  lemma DifferencesShow(b: Board, before: Figures, after: Figures)
    requires Shows(b, before)
    ensures Shows(Overlay(b, Differences(before, after, KINDS)), after)
  {
    DifferencesOverlay(b, before, after, KINDS);
    forall kind: StatisticsType {
      AllKinds(kind);
    }
  }

  /** `d` differs from what the board shows, or from the unset value. */
  ghost predicate IsChange(b: Board, d: Statistic) {
    d != if d.kind in b then b[d.kind] else Figure(NO_FIGURES, d.kind)
  }

  ghost predicate OncePerKind(ds: seq<Statistic>) {
    forall i, j :: 0 <= i < j < |ds| ==> ds[i].kind != ds[j].kind
  }

  /** Every queued statistic is a change, and no type is queued twice. */
  lemma {:induction false} DifferencesAreChanges(b: Board, before: Figures, after: Figures, kinds: seq<StatisticsType>)
    requires Shows(b, before) && NoDuplicates(kinds)
    ensures forall d :: d in Differences(before, after, kinds) ==> d.kind in kinds && IsChange(b, d)
    ensures OncePerKind(Differences(before, after, kinds))
  {
    if kinds != [] {
      var front, last := DropLast(kinds), Last(kinds);
      assert kinds == front + [last];
      assert forall i :: 0 <= i < |front| ==> kinds[i] == front[i];
      DifferencesAreChanges(b, before, after, front);
      var ds, d := Differences(before, after, front), Figure(after, last);
      if Figure(before, last) != d {
        assert last !in front;
        assert Differences(before, after, kinds) == ds + [d];
        assert d.kind == last && IsChange(b, d);
        assert forall i :: 0 <= i < |ds| ==> ds[i] in ds;
      } else {
        assert Differences(before, after, kinds) == ds;
      }
    }
  }

  // ---- the class ----

  method UpdateField<T(==)>(current: Option<T>, value: Option<T>) returns (merged: Option<T>, changed: bool)
    ensures merged == Merge(current, value) && changed == (merged != current)
  {
    changed := value.Some? && value != current;
    merged := if value.Some? then value else current;
  }

  method UpdateTime(zeroIsAbsent: bool, current: int, value: int) returns (merged: int, changed: bool)
    ensures merged == MergeTime(zeroIsAbsent, current, value) && changed == (merged != current)
  {
    changed := !(zeroIsAbsent && value == 0) && value != current;
    merged := if zeroIsAbsent && value == 0 then current else value;
  }

  class Product {
    const zeroIsAbsent: bool
    var currencies: Currencies
    var reference: Reference
    var referenceDirty: bool
    var state: Option<State>
    var statusDirty: bool
    var figures: Figures
    var statistics: seq<Statistic>

    function Value(): ProductState
      reads this
    {
      ProductState(zeroIsAbsent, currencies, reference, referenceDirty, state, statusDirty, figures, statistics)
    }

    constructor FromInstrument(zeroIsAbsent: bool, item: InstrumentItem)
      ensures Value() == Created(zeroIsAbsent, item)
    {
      this.zeroIsAbsent := zeroIsAbsent;
      currencies, reference, referenceDirty := item.currencies, item.reference, false;
      state, statusDirty, figures, statistics := None, false, NO_FIGURES, [];
      new;
      var _ := Update(item);
    }

    constructor FromFunding(zeroIsAbsent: bool)
      ensures Value() == CreatedByFunding(zeroIsAbsent)
    {
      this.zeroIsAbsent := zeroIsAbsent;
      currencies, reference, referenceDirty := NO_CURRENCIES, NO_REFERENCE, false;
      state, statusDirty, figures, statistics := None, false, NO_FIGURES, [];
    }

    method UpdateReference(r: Reference)
      modifies this`referenceDirty, this`reference
      ensures reference == MergeReference(zeroIsAbsent, old(reference), r)
      ensures referenceDirty == (old(referenceDirty) || reference != old(reference))
    {
      var tickSize, changed1 := UpdateField(reference.tickSize, r.tickSize);
      var multiplier, changed2 := UpdateField(reference.multiplier, r.multiplier);
      var lotSize, changed3 := UpdateField(reference.lotSize, r.lotSize);
      var strikePrice, changed4 := UpdateField(reference.strikePrice, r.strikePrice);
      var underlying, changed5 := UpdateField(reference.underlying, r.underlying);
      var expiry, changed6 := UpdateTime(zeroIsAbsent, reference.expiry, r.expiry);
      var settle, changed7 := UpdateTime(zeroIsAbsent, reference.settle, r.settle);
      reference := Reference(tickSize, multiplier, lotSize, strikePrice, underlying, expiry, settle);
      referenceDirty := referenceDirty || changed1 || changed2 || changed3 || changed4 || changed5 || changed6
        || changed7;
    }

    /** Merge one figure and queue its statistic if it changed. */
    method UpdateFigure(kind: StatisticsType, current: Option<real>, value: Option<real>) returns (merged: Option<real>)
      modifies this`statistics
      ensures merged == Merge(current, value)
      ensures statistics == old(statistics) + Queued(kind, current, merged)
    {
      var changed: bool;
      merged, changed := UpdateField(current, value);
      if changed {
        statistics := statistics + [Statistic(kind, merged, 0, 0)];
      }
    }

    method UpdateWindow(item: InstrumentItem)
      modifies this`figures, this`statistics
      ensures figures == old(figures).(fundingRate := MergeWindow(zeroIsAbsent, old(figures.fundingRate), item))
      ensures statistics == old(statistics) + Difference(old(figures), figures, FundingRate)
    {
      if item.fundingRate.Some? {
        var before := figures.fundingRate;
        var value, changed := UpdateField(before.value, item.fundingRate);
        var begin, changed2 := UpdateTime(zeroIsAbsent, before.begin, BeginTime(item));
        var end, changed3 := UpdateTime(zeroIsAbsent, before.end, EndTime(item));
        figures := figures.(fundingRate := Window(value, begin, end));
        if changed || changed2 || changed3 {
          statistics := statistics + [Statistic(FundingRate, value, begin, end)];
        }
      }
    }

    method UpdateStatistics(item: InstrumentItem)
      modifies this`figures, this`statistics
      ensures figures == MergeFigures(zeroIsAbsent, old(figures), item)
      ensures statistics == old(statistics) + Differences(old(figures), figures, KINDS)
    {
      ghost var before, queued := figures, statistics;
      var settlementPrice := UpdateFigure(SettlementPrice, figures.settlementPrice, item.markPrice);
      var openInterest := UpdateFigure(OpenInterest, figures.openInterest, item.openInterest);
      var indicativeSettlePrice :=
        UpdateFigure(PreSettlementPrice, figures.indicativeSettlePrice, item.indicativeSettlePrice);
      var limitUpPrice := UpdateFigure(UpperLimitPrice, figures.limitUpPrice, item.limitUpPrice);
      var limitDownPrice := UpdateFigure(LowerLimitPrice, figures.limitDownPrice, item.limitDownPrice);
      var fairPrice := UpdateFigure(IndexValue, figures.fairPrice, item.fairPrice);
      figures := Figures(settlementPrice, openInterest, indicativeSettlePrice, limitUpPrice, limitDownPrice, fairPrice,
                         figures.fundingRate, figures.indicativeFundingRate);
      UpdateWindow(item);
      if item.indicativeFundingRate.Some? {
        var rate := UpdateFigure(FundingRatePrediction, figures.indicativeFundingRate, item.indicativeFundingRate);
        figures := figures.(indicativeFundingRate := rate);
      }
      QueuedInOrder(queued, before, figures);
    }

    method UpdateState(item: InstrumentItem)
      modifies this`state, this`statusDirty
      ensures state == Merge(old(state), item.state)
      ensures statusDirty == (old(statusDirty) || Changes(old(state), item.state))
    {
      if item.state.Some? {
        var changed: bool;
        state, changed := UpdateField(state, item.state);
        statusDirty := statusDirty || changed;
      }
    }

    /** Merge an instrument item; say whether anything is waiting to be published. */
    method Update(item: InstrumentItem) returns (dirty: bool)
      modifies this
      ensures Value() == Updated(old(Value()), item)
      ensures dirty == !IsClean(Value())
    {
      UpdateReference(item.reference);
      UpdateState(item);
      UpdateStatistics(item);
      dirty := referenceDirty || statusDirty || statistics != [];
    }

    /** A funding item changes nothing. */
    method UpdateFromFunding(item: FundingItem) returns (dirty: bool)
      ensures !dirty
    {
      dirty := false;
    }

    method Clear()
      modifies this`referenceDirty, this`statusDirty, this`statistics
      ensures Value() == Cleared(old(Value()))
    {
      referenceDirty, statusDirty, statistics := false, false, [];
    }
  }

  function Queued(kind: StatisticsType, before: Option<real>, after: Option<real>): seq<Statistic> {
    if before == after then [] else [Statistic(kind, after, 0, 0)]
  }

  function Difference(before: Figures, after: Figures, kind: StatisticsType): seq<Statistic> {
    if Figure(before, kind) == Figure(after, kind) then [] else [Figure(after, kind)]
  }

  lemma QueueStep(queued: seq<Statistic>, now: seq<Statistic>, f: Figures, g: Figures, n: nat)
    requires n < |KINDS| && now == queued + Differences(f, g, KINDS[..n])
    ensures now + Difference(f, g, KINDS[n]) == queued + Differences(f, g, KINDS[..n + 1])
  {
    assert DropLast(KINDS[..n + 1]) == KINDS[..n];
  }

  /** Queueing a figure that is a single number. */
  lemma QueueFigure(
    queued: seq<Statistic>, now: seq<Statistic>, f: Figures, g: Figures, n: nat,
    kind: StatisticsType, before: Option<real>, after: Option<real>)
    requires n < |KINDS| && KINDS[n] == kind
    requires Figure(f, kind) == Statistic(kind, before, 0, 0) && Figure(g, kind) == Statistic(kind, after, 0, 0)
    requires now == queued + Differences(f, g, KINDS[..n])
    ensures now + Queued(kind, before, after) == queued + Differences(f, g, KINDS[..n + 1])
  {
    QueueStep(queued, now, f, g, n);
  }

  /** Queueing field by field queues the differences. */
  lemma QueuedInOrder(queued: seq<Statistic>, f: Figures, g: Figures)
    ensures queued
      + Queued(SettlementPrice, f.settlementPrice, g.settlementPrice) +
        Queued(OpenInterest, f.openInterest, g.openInterest)
      + Queued(PreSettlementPrice, f.indicativeSettlePrice, g.indicativeSettlePrice) +
        Queued(UpperLimitPrice, f.limitUpPrice, g.limitUpPrice)
      + Queued(LowerLimitPrice, f.limitDownPrice, g.limitDownPrice) + Queued(IndexValue, f.fairPrice, g.fairPrice)
      + (if f.fundingRate == g.fundingRate then []
         else [Statistic(FundingRate, g.fundingRate.value, g.fundingRate.begin, g.fundingRate.end)])
      + Queued(FundingRatePrediction, f.indicativeFundingRate, g.indicativeFundingRate)
      == queued + Differences(f, g, KINDS)
  {
    FirstFour(queued, f, g);
    LastFour(queued, queued + Differences(f, g, KINDS[..4]), f, g);
  }

  lemma FirstFour(queued: seq<Statistic>, f: Figures, g: Figures)
    ensures queued
      + Queued(SettlementPrice, f.settlementPrice, g.settlementPrice) +
        Queued(OpenInterest, f.openInterest, g.openInterest)
      + Queued(PreSettlementPrice, f.indicativeSettlePrice, g.indicativeSettlePrice) +
        Queued(UpperLimitPrice, f.limitUpPrice, g.limitUpPrice)
      == queued + Differences(f, g, KINDS[..4])
  {
    assert KINDS[..0] == [] && queued == queued + [];
    var q1 := queued + Queued(SettlementPrice, f.settlementPrice, g.settlementPrice);
    var q2 := q1 + Queued(OpenInterest, f.openInterest, g.openInterest);
    var q3 := q2 + Queued(PreSettlementPrice, f.indicativeSettlePrice, g.indicativeSettlePrice);
    QueueFigure(queued, queued, f, g, 0, SettlementPrice, f.settlementPrice, g.settlementPrice);
    QueueFigure(queued, q1, f, g, 1, OpenInterest, f.openInterest, g.openInterest);
    QueueFigure(queued, q2, f, g, 2, PreSettlementPrice, f.indicativeSettlePrice, g.indicativeSettlePrice);
    QueueFigure(queued, q3, f, g, 3, UpperLimitPrice, f.limitUpPrice, g.limitUpPrice);
  }

  lemma LastFour(queued: seq<Statistic>, q4: seq<Statistic>, f: Figures, g: Figures)
    requires q4 == queued + Differences(f, g, KINDS[..4])
    ensures q4
      + Queued(LowerLimitPrice, f.limitDownPrice, g.limitDownPrice) + Queued(IndexValue, f.fairPrice, g.fairPrice)
      + (if f.fundingRate == g.fundingRate then []
         else [Statistic(FundingRate, g.fundingRate.value, g.fundingRate.begin, g.fundingRate.end)])
      + Queued(FundingRatePrediction, f.indicativeFundingRate, g.indicativeFundingRate)
      == queued + Differences(f, g, KINDS)
  {
    assert KINDS[..8] == KINDS;
    var q5 := q4 + Queued(LowerLimitPrice, f.limitDownPrice, g.limitDownPrice);
    var q6 := q5 + Queued(IndexValue, f.fairPrice, g.fairPrice);
    var q7 := q6 + if f.fundingRate == g.fundingRate then []
                   else [Statistic(FundingRate, g.fundingRate.value, g.fundingRate.begin, g.fundingRate.end)];
    QueueFigure(queued, q4, f, g, 4, LowerLimitPrice, f.limitDownPrice, g.limitDownPrice);
    QueueFigure(queued, q5, f, g, 5, IndexValue, f.fairPrice, g.fairPrice);
    QueueStep(queued, q6, f, g, 6);
    QueueFigure(queued, q7, f, g, 7, FundingRatePrediction, f.indicativeFundingRate, g.indicativeFundingRate);
  }
}

/** The price-keyed book a consumer folds from what is published. */
module ConsumerBook {
  import opened Common
  import opened PriceCaching
  import opened OrderBook
  import opened OrderBookRuns

  datatype Slot = Slot(symbol: string, side: Side, price: real)

  type Book = map<Slot, real>

  /** A size of zero removes the price, any other size sets it. */
  function SetLevel(book: Book, slot: Slot, size: real): Book {
    if size == 0.0 then book - {slot} else book[slot := size]
  }

  function ApplySide(book: Book, symbol: string, side: Side, us: seq<MBPUpdate>): Book {
    if us == [] then
      book
    else
      SetLevel(ApplySide(book, symbol, side, DropLast(us)), Slot(symbol, side, Last(us).price), Last(us).quantity)
  }

  function Without(book: Book, symbol: string): Book {
    map slot | slot in book && slot.symbol != symbol :: book[slot]
  }

  /** A snapshot replaces the book of its symbol. */
  function ApplyPublication(book: Book, p: Publication): Book {
    var base := if p.snapshot then Without(book, p.symbol) else book;
    ApplySide(ApplySide(base, p.symbol, Buy, p.bids), p.symbol, Sell, p.asks)
  }

  function ApplyAll(book: Book, ps: seq<Publication>): Book {
    if ps == [] then book else ApplyPublication(ApplyAll(book, DropLast(ps)), Last(ps))
  }

  // ---- the same book, level by level ----

  /** The book after each resolved level is applied by itself, in message order. For a snapshot, the
      first level of a symbol's stretch clears that symbol. */
  function ApplyEntries(book: Book, snapshot: bool, es: seq<Entry>): Book {
    if es == [] then
      book
    else
      var front, e := DropLast(es), Last(es);
      var before := ApplyEntries(book, snapshot, front);
      if e.quote.None? then
        before
      else
        var starts := front == [] || Last(front).symbol != e.symbol;
        SetLevel(if snapshot && starts then Without(before, e.symbol) else before,
                 SlotOf(e), e.quote.value.size)
  }

  lemma ApplyEntriesGrow(book: Book, snapshot: bool, front: seq<Entry>, e: Entry)
    ensures var before := ApplyEntries(book, snapshot, front);
      ApplyEntries(book, snapshot, front + [e]) ==
        if e.quote.None? then before
        else SetLevel(if snapshot && (front == [] || Last(front).symbol != e.symbol) then Without(before, e.symbol)
                      else before,
                      SlotOf(e), e.quote.value.size)
  {
    assert DropLast(front + [e]) == front;
  }

  lemma {:induction false} ApplySideCommutes(
    book: Book, symbol: string, side: Side, us: seq<MBPUpdate>, slot: Slot, size: real)
    requires slot.side != side
    ensures ApplySide(SetLevel(book, slot, size), symbol, side, us) ==
            SetLevel(ApplySide(book, symbol, side, us), slot, size)
  {
    if us != [] {
      ApplySideCommutes(book, symbol, side, DropLast(us), slot, size);
      var before := ApplySide(book, symbol, side, DropLast(us));
      var other := Slot(symbol, side, Last(us).price);
      assert SetLevel(SetLevel(before, slot, size), other, Last(us).quantity) ==
             SetLevel(SetLevel(before, other, Last(us).quantity), slot, size);
    }
  }

  function ApplyLevels(book: Book, symbol: string, g: seq<Entry>): Book {
    ApplySide(ApplySide(book, symbol, Buy, Levels(g, Buy)), symbol, Sell, Levels(g, Sell))
  }

  function SlotOf(e: Entry): Slot
    requires e.quote.Some?
  {
    Slot(e.symbol, e.quote.value.side, e.quote.value.price)
  }

  /** Applying a level after the bids and asks that precede it is the same as appending it to its side. */
  lemma LevelsGrow(book: Book, g: seq<Entry>, e: Entry)
    requires e.quote.Some? && e.quote.value.side != UnknownSide
    ensures ApplyLevels(book, e.symbol, g + [e]) ==
            SetLevel(ApplyLevels(book, e.symbol, g), SlotOf(e), e.quote.value.size)
  {
    var q := e.quote.value;
    var u := MBPUpdate(q.price, q.size);
    assert DropLast(g + [e]) == g;
    var bids, asks := Levels(g, Buy), Levels(g, Sell);
    if q.side == Buy {
      assert DropLast(bids + [u]) == bids;
      assert Levels(g + [e], Buy) == bids + [u] && Levels(g + [e], Sell) == asks;
      ApplySideCommutes(ApplySide(book, e.symbol, Buy, bids), e.symbol, Sell, asks, SlotOf(e), q.size);
    } else {
      assert DropLast(asks + [u]) == asks;
      assert Levels(g + [e], Buy) == bids && Levels(g + [e], Sell) == asks + [u];
    }
  }

  /** What publishing one segment does to the book. */
  function ApplySegment(discard: Discard, snapshot: bool, book: Book, g: Segment): Book {
    if ToPublication(discard, snapshot, g) == [] then
      book
    else
      ApplyLevels(if snapshot then Without(book, Last(g).symbol) else book, Last(g).symbol, g)
  }

  lemma ApplyAllConcat(book: Book, ps: seq<Publication>, qs: seq<Publication>)
    requires |qs| <= 1
    ensures ApplyAll(book, ps + qs) == if qs == [] then ApplyAll(book, ps)
                                       else ApplyPublication(ApplyAll(book, ps), qs[0])
  {
    if qs == [] {
      assert ps + qs == ps;
    } else {
      assert DropLast(ps + qs) == ps;
    }
  }

  lemma PublishLast(discard: Discard, snapshot: bool, book: Book, gs: seq<Segment>)
    requires gs != []
    ensures ApplyAll(book, PublishAll(discard, snapshot, gs)) ==
            ApplySegment(discard, snapshot, ApplyAll(book, PublishAll(discard, snapshot, DropLast(gs))), Last(gs))
  {
    var ps, qs := PublishAll(discard, snapshot, DropLast(gs)), ToPublication(discard, snapshot, Last(gs));
    assert PublishAll(discard, snapshot, gs) == ps + qs;
    ApplyAllConcat(book, ps, qs);
    var before := ApplyAll(book, ps);
    assert qs != [] ==> ApplyPublication(before, qs[0]) == ApplySegment(discard, snapshot, before, Last(gs));
  }

  /** A segment of one symbol that is not discarded and that has levels. */
  ghost predicate Speaks(discard: Discard, g: seq<Entry>, symbol: string) {
    && g != [] && Last(g).symbol == symbol && symbol != "" && !discard(symbol)
    && (Levels(g, Buy) != [] || Levels(g, Sell) != [])
  }

  /** The effect of publishing a segment that grows by one level. */
  lemma SegmentGrows(discard: Discard, snapshot: bool, book: Book, g: seq<Entry>, e: Entry)
    requires e.symbol != "" && !discard(e.symbol) && e.quote.Some? && e.quote.value.side != UnknownSide
    requires g == [] || Speaks(discard, g, e.symbol)
    ensures Speaks(discard, g + [e], e.symbol)
    ensures ApplySegment(discard, snapshot, book, g + [e]) ==
            SetLevel(if g != [] then ApplySegment(discard, snapshot, book, g)
                     else if snapshot then Without(book, e.symbol) else book,
                     SlotOf(e), e.quote.value.size)
  {
    assert DropLast(g + [e]) == g;
    LevelsGrow(if snapshot then Without(book, e.symbol) else book, g, e);
  }

  /** Every entry has a symbol, so segments are runs. */
  ghost predicate Named(es: seq<Entry>) {
    forall e :: e in es ==> e.symbol != ""
  }

  /** Splitting a message into publications, and each publication into bids and asks, does not change
      the book: it is the book of the levels applied one by one. */
  lemma {:induction false} PublicationsAreLevelwise(discard: Discard, snapshot: bool, book: Book, es: seq<Entry>)
    requires Faithful(discard, es) && Named(es)
    ensures ApplyAll(book, PublishAll(discard, snapshot, Segments(es))) == ApplyEntries(book, snapshot, es)
    ensures es != [] && Last(es).quote.Some? ==> Speaks(discard, Last(Segments(es)), Last(es).symbol)
  {
    if es != [] {
      var front, e := DropLast(es), Last(es);
      assert es == front + [e];
      PublicationsAreLevelwise(discard, snapshot, book, front);
      PublishLast(discard, snapshot, book, Segments(es));
      ApplyEntriesGrow(book, snapshot, front, e);
      if front == [] || Last(front).symbol != e.symbol {
        assert front != [] ==> Last(front) in es;
        SegmentStarts(front, e);
        if e.quote.Some? {
          SegmentGrows(discard, snapshot, ApplyAll(book, PublishAll(discard, snapshot, Segments(front))), [], e);
        }
      } else {
        assert Last(front) in es;
        CutGrows(Breaks, front, e);
        PublishLast(discard, snapshot, book, Segments(front));
        if e.quote.Some? {
          SegmentGrows(discard, snapshot, ApplyAll(book, PublishAll(discard, snapshot, DropLast(Segments(front)))),
                       Last(Segments(front)), e);
        }
      }
    }
  }

  lemma SegmentStarts(front: seq<Entry>, e: Entry)
    requires front == [] || (Last(front).symbol != "" && Last(front).symbol != e.symbol)
    ensures DropLast(Segments(front + [e])) == Segments(front) && Last(Segments(front + [e])) == [e] == [] + [e]
  {
    if front == [] {
      assert front + [e] == [e] && DropLast([e]) == [];
    } else {
      CutGrows(Breaks, front, e);
    }
  }

  // ---- books that agree on a symbol ----

  ghost predicate SameFor(a: Book, b: Book, symbol: string) {
    forall slot: Slot :: slot.symbol == symbol ==> (slot in a <==> slot in b) && (slot in a ==> a[slot] == b[slot])
  }

  lemma SameForAll(a: Book, b: Book)
    requires forall symbol :: SameFor(a, b, symbol)
    ensures a == b
  {
    forall slot: Slot ensures (slot in a <==> slot in b) && (slot in a ==> a[slot] == b[slot]) {
      assert SameFor(a, b, slot.symbol);
    }
  }

  lemma SameForTransitive(a: Book, b: Book, c: Book, symbol: string)
    requires SameFor(a, b, symbol) && SameFor(b, c, symbol)
    ensures SameFor(a, c, symbol)
  {
  }

  lemma SetLevelSame(a: Book, b: Book, slot: Slot, size: real, symbol: string)
    requires SameFor(a, b, symbol)
    ensures SameFor(SetLevel(a, slot, size), SetLevel(b, slot, size), symbol)
  {
  }

  /** Levels of other symbols leave a symbol's book alone. */
  lemma {:induction false} ApplyEntriesFrame(book: Book, snapshot: bool, es: seq<Entry>, symbol: string)
    requires forall e :: e in es && e.quote.Some? ==> e.symbol != symbol
    ensures SameFor(ApplyEntries(book, snapshot, es), book, symbol)
  {
    if es != [] {
      ApplyEntriesFrame(book, snapshot, DropLast(es), symbol);
    }
  }

  /** Books that agree on a symbol still agree after the same levels; and after a snapshot with a level
      of that symbol they agree whatever they were before. */
  lemma {:induction false} ApplyEntriesSame(a: Book, b: Book, snapshot: bool, es: seq<Entry>, symbol: string)
    requires SameFor(a, b, symbol) || (snapshot && exists e :: e in es && e.symbol == symbol)
    requires snapshot ==> forall e :: e in es && e.symbol == symbol ==> e.quote.Some?
    ensures SameFor(ApplyEntries(a, snapshot, es), ApplyEntries(b, snapshot, es), symbol)
  {
    if es != [] {
      var front, e := DropLast(es), Last(es);
      assert es == front + [e];
      var a', b' := ApplyEntries(a, snapshot, front), ApplyEntries(b, snapshot, front);
      if SameFor(a, b, symbol) || (exists f :: f in front && f.symbol == symbol) {
        ApplyEntriesSame(a, b, snapshot, front, symbol);
        if e.quote.Some? {
          SetLevelSame(a', b', SlotOf(e), e.quote.value.size, symbol);
          SetLevelSame(Without(a', e.symbol), Without(b', e.symbol), SlotOf(e), e.quote.value.size, symbol);
        }
      } else {
        assert e.symbol == symbol && (front == [] || Last(front) in front);
        assert SameFor(Without(a', symbol), Without(b', symbol), symbol);
        SetLevelSame(Without(a', symbol), Without(b', symbol), SlotOf(e), e.quote.value.size, symbol);
      }
    }
  }

  // ---- what the consumer accepts ----

  lemma {:induction false} ApplySideSame(a: Book, b: Book, symbol: string, side: Side, us: seq<MBPUpdate>, of: string)
    requires SameFor(a, b, of)
    ensures SameFor(ApplySide(a, symbol, side, us), ApplySide(b, symbol, side, us), of)
  {
    if us != [] {
      ApplySideSame(a, b, symbol, side, DropLast(us), of);
      SetLevelSame(ApplySide(a, symbol, side, DropLast(us)), ApplySide(b, symbol, side, DropLast(us)),
                   Slot(symbol, side, Last(us).price), Last(us).quantity, of);
    }
  }

  lemma {:induction false} ApplySideFrame(a: Book, symbol: string, side: Side, us: seq<MBPUpdate>, of: string)
    requires symbol != of
    ensures SameFor(ApplySide(a, symbol, side, us), a, of)
  {
    if us != [] {
      ApplySideFrame(a, symbol, side, DropLast(us), of);
    }
  }

  lemma ApplyPublicationSame(a: Book, b: Book, p: Publication, symbol: string)
    requires SameFor(a, b, symbol)
    ensures SameFor(ApplyPublication(a, p), ApplyPublication(b, p), symbol)
  {
    var a', b' := if p.snapshot then Without(a, p.symbol) else a, if p.snapshot then Without(b, p.symbol) else b;
    ApplySideSame(a', b', p.symbol, Buy, p.bids, symbol);
    ApplySideSame(ApplySide(a', p.symbol, Buy, p.bids), ApplySide(b', p.symbol, Buy, p.bids), p.symbol, Sell, p.asks,
                  symbol);
  }

  lemma ApplyPublicationFrame(a: Book, p: Publication, symbol: string)
    requires p.symbol != symbol
    ensures SameFor(ApplyPublication(a, p), a, symbol)
  {
    var a' := if p.snapshot then Without(a, p.symbol) else a;
    ApplySideFrame(a', p.symbol, Buy, p.bids, symbol);
    ApplySideFrame(ApplySide(a', p.symbol, Buy, p.bids), p.symbol, Sell, p.asks, symbol);
  }

  /** The book of a consumer that folds what it accepts and passes over what it rejects. */
  function ApplyAccepted(book: Book, ps: seq<Publication>, rejected: set<nat>): Book {
    if ps == [] then
      book
    else
      var before := ApplyAccepted(book, DropLast(ps), rejected);
      if |ps| - 1 in rejected then before else ApplyPublication(before, Last(ps))
  }

  predicate RejectedFor(published: seq<Publication>, rejected: set<nat>, symbol: string) {
    exists k :: k in rejected && k < |published| && published[k].symbol == symbol
  }

  /** For a symbol of which nothing was rejected, that is folding everything. */
  lemma {:induction false} AcceptedSame(book: Book, ps: seq<Publication>, rejected: set<nat>, symbol: string)
    requires !RejectedFor(ps, rejected, symbol)
    ensures SameFor(ApplyAccepted(book, ps, rejected), ApplyAll(book, ps), symbol)
  {
    if ps != [] {
      var front, p := DropLast(ps), Last(ps);
      assert forall k :: k in rejected && k < |front| ==> front[k] == ps[k];
      AcceptedSame(book, front, rejected, symbol);
      var some, all := ApplyAccepted(book, front, rejected), ApplyAll(book, front);
      if |ps| - 1 in rejected {
        ApplyPublicationFrame(all, p, symbol);
      } else {
        ApplyPublicationSame(some, all, p, symbol);
      }
    }
  }
}

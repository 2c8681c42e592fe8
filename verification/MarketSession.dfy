/** The session state of the market-data stream: the download stages, the instrument latch and the ready
    flag, driven by the signals that matter to them. */
module MarketSession {
  import opened Common
  import opened Downloading

  /** What the stream reports and asks for. */
  datatype Notice = Report(status: Status) | Subscribe(topics: seq<string>) | Unsubscribe(topic: string)

  datatype Session = Session(ready: bool, status: Status, download: Download, instrument: bool)

  // ACCOUNTS, INSTRUMENT, ORDER_BOOK_L2, DONE
  const STAGES: seq<nat> := [0, 1, 1, 0]

  const REMAINING_TOPICS: seq<string> := ["quote", "orderBookL2", "trade", "funding", "liquidation", "settlement"]

  /** What entering a stage reports and asks for. */
  function Entering(stage: nat): seq<Notice> {
    if stage == 0 then [Report(Fetching("accounts"))]
    else if stage == 1 then [Report(Fetching("instrument")), Subscribe(["instrument"])]
    else if stage == 2 then [Report(Fetching("order-book-l2")), Subscribe(REMAINING_TOPICS)]
    else [Report(Ready)]
  }

  function EnterStage(s: Session, stage: nat): (Session, seq<Notice>) {
    if stage == 0 then (s.(status := Fetching("accounts")), Entering(0))
    else if stage == 1 then (s.(status := Fetching("instrument")), Entering(1))
    else if stage == 2 then (s.(status := Fetching("order-book-l2")), Entering(2))
    else (s.(status := Ready, ready := true), Entering(3))
  }

  function EnterAll(s: Session, stages: seq<nat>): (Session, seq<Notice>) {
    EnterInOrder(EnterStage, s, stages)
  }

  datatype Signal =
    | SocketReady
    | SocketLost
    | Welcome
    | InstrumentPartial
    | BookPartial  // an order-book partial that was read to its end
    | Quiet        // anything else

  function Advance(s: Session, to: (Download, seq<nat>)): (Session, seq<Notice>) {
    EnterAll(s.(download := to.0), to.1)
  }

  function Handle(s: Session, signal: Signal): (Session, seq<Notice>) {
    match signal
    case SocketReady => (s.(status := LoginSent), [Report(LoginSent)])
    case SocketLost => (Session(false, Offline, Idle, false), [Report(Offline)])
    case Welcome => Advance(s, Begin(STAGES))
    case InstrumentPartial =>
      if s.instrument then (s, []) else Advance(s.(instrument := true), CheckRelaxed(STAGES, s.download, 1))
    case BookPartial => Advance(s, CheckRelaxed(STAGES, s.download, 2))
    case Quiet => (s, [])
  }

  const FRESH := Session(false, Unknown, Idle, false)

  function After(s: Session, signals: seq<Signal>): Session {
    if signals == [] then s else Handle(After(s, DropLast(signals)), Last(signals)).0
  }

  function Notices(s: Session, signals: seq<Signal>): seq<Notice> {
    if signals == [] then [] else Notices(s, DropLast(signals)) + Handle(After(s, DropLast(signals)), Last(signals)).1
  }

  function Count(notices: seq<Notice>, n: Notice): nat {
    if notices == [] then 0 else Count(DropLast(notices), n) + if Last(notices) == n then 1 else 0
  }

  // ---- one session, signal by signal ----

  /** `signals[i]` is the first instrument partial, and the exchange had welcomed us before it. */
  ghost predicate Opened(signals: seq<Signal>, i: nat) {
    && i < |signals| && signals[i] == InstrumentPartial
    && (forall k :: 0 <= k < i ==> signals[k] != InstrumentPartial)
    && exists w :: 0 <= w < i && signals[w] == Welcome
  }

  /** An order-book partial at `j` follows, with no further welcome in between. */
  ghost predicate Completed(signals: seq<Signal>, i: nat, j: nat) {
    && Opened(signals, i) && i < j < |signals| && signals[j] == BookPartial
    && forall k :: i < k < j ==> signals[k] != Welcome
  }

  ghost predicate WelcomedSince(signals: seq<Signal>, i: nat) {
    exists k :: i < k < |signals| && signals[k] == Welcome
  }

  ghost predicate Seen(signals: seq<Signal>, signal: Signal) {
    exists k :: 0 <= k < |signals| && signals[k] == signal
  }

  // ---- how each description grows by one signal ----

  lemma SeenGrows(front: seq<Signal>, x: Signal, signal: Signal)
    ensures Seen(front + [x], signal) <==> Seen(front, signal) || x == signal
  {
    if Seen(front, signal) {
      var k :| 0 <= k < |front| && front[k] == signal;
      assert (front + [x])[k] == signal;
    }
    assert (front + [x])[|front|] == x;
  }

  lemma WelcomedSinceGrows(front: seq<Signal>, x: Signal, i: nat)
    requires i < |front|
    ensures WelcomedSince(front + [x], i) <==> WelcomedSince(front, i) || x == Welcome
  {
    if WelcomedSince(front, i) {
      var k :| i < k < |front| && front[k] == Welcome;
      assert (front + [x])[k] == Welcome;
    }
    assert (front + [x])[|front|] == x;
  }

  lemma OpenedGrows(front: seq<Signal>, x: Signal, i: nat)
    ensures Opened(front + [x], i) <==>
              Opened(front, i) || (i == |front| && x == InstrumentPartial && !Seen(front, InstrumentPartial)
                                   && Seen(front, Welcome))
  {
    var all := front + [x];
    assert forall k :: 0 <= k < |front| ==> all[k] == front[k];
    if Opened(front, i) {
      var w :| 0 <= w < i && front[w] == Welcome;
      assert all[w] == Welcome;
    }
    if Opened(all, i) {
      var w :| 0 <= w < i && all[w] == Welcome;
      assert front[w] == Welcome;
      assert i == |front| ==> forall k :: 0 <= k < |front| ==> front[k] != InstrumentPartial;
    }
    if i == |front| && !Seen(front, InstrumentPartial) && Seen(front, Welcome) {
      var w :| 0 <= w < |front| && front[w] == Welcome;
      assert all[w] == Welcome;
    }
  }

  lemma CompletedGrows(front: seq<Signal>, x: Signal, i: nat, j: nat)
    ensures Completed(front + [x], i, j) <==>
              Completed(front, i, j) || (j == |front| && x == BookPartial && Opened(front, i)
                                         && !WelcomedSince(front, i))
  {
    var all := front + [x];
    assert forall k :: 0 <= k < |front| ==> all[k] == front[k];
    OpenedGrows(front, x, i);
  }

  /** The history of a session as flags: an instrument partial was seen, a welcome was seen, the session
      opened, it completed, and a welcome came after it opened. */
  datatype History = History(instrument: bool, welcome: bool, isOpen: bool, isDone: bool, again: bool)

  ghost predicate Describes(h: History, signals: seq<Signal>) {
    && (h.instrument <==> Seen(signals, InstrumentPartial))
    && (h.welcome <==> Seen(signals, Welcome))
    && (h.isOpen <==> exists i :: Opened(signals, i))
    && (h.isDone <==> exists i, j :: Completed(signals, i, j))
    && (h.again <==> exists i :: Opened(signals, i) && WelcomedSince(signals, i))
  }

  function Record(h: History, x: Signal): History {
    match x
    case Welcome => h.(welcome := true, again := h.again || h.isOpen)
    case InstrumentPartial => h.(instrument := true, isOpen := h.isOpen || (!h.instrument && h.welcome))
    case BookPartial => h.(isDone := h.isDone || (h.isOpen && !h.again))
    case _ => h
  }

  function RecordAll(signals: seq<Signal>): History {
    if signals == [] then History(false, false, false, false, false)
    else Record(RecordAll(DropLast(signals)), Last(signals))
  }

  lemma OpenGrows(front: seq<Signal>, x: Signal)
    ensures (exists i :: Opened(front + [x], i)) <==>
              (exists i :: Opened(front, i))
                || (x == InstrumentPartial && !Seen(front, InstrumentPartial) && Seen(front, Welcome))
  {
    forall i: nat {
      OpenedGrows(front, x, i);
    }
    if x == InstrumentPartial && !Seen(front, InstrumentPartial) && Seen(front, Welcome) {
      assert Opened(front + [x], |front|);
    }
    if exists i :: Opened(front, i) {
      var i: nat :| Opened(front, i);
      assert Opened(front + [x], i);
    }
  }

  lemma DoneGrows(front: seq<Signal>, x: Signal)
    ensures (exists i, j :: Completed(front + [x], i, j)) <==>
              (exists i, j :: Completed(front, i, j))
                || (x == BookPartial && exists i :: Opened(front, i) && !WelcomedSince(front, i))
  {
    forall i: nat, j: nat {
      CompletedGrows(front, x, i, j);
    }
    if exists i, j :: Completed(front, i, j) {
      var i: nat, j: nat :| Completed(front, i, j);
      assert Completed(front + [x], i, j);
    }
    if x == BookPartial && exists i :: Opened(front, i) && !WelcomedSince(front, i) {
      var i: nat :| Opened(front, i) && !WelcomedSince(front, i);
      assert Completed(front + [x], i, |front|);
    }
  }

  lemma AgainGrows(front: seq<Signal>, x: Signal)
    ensures (exists i :: Opened(front + [x], i) && WelcomedSince(front + [x], i)) <==>
              (exists i :: Opened(front, i) && (WelcomedSince(front, i) || x == Welcome))
  {
    if i: nat :| Opened(front, i) && (WelcomedSince(front, i) || x == Welcome) {
      OpenedGrows(front, x, i);
      WelcomedSinceGrows(front, x, i);
    }
    if i: nat :| Opened(front + [x], i) && WelcomedSince(front + [x], i) {
      OpenedGrows(front, x, i);
      assert i < |front|;
      WelcomedSinceGrows(front, x, i);
    }
  }

  /** A session opens at most once. */
  lemma OpensOnce(signals: seq<Signal>)
    ensures (exists i :: Opened(signals, i) && !WelcomedSince(signals, i)) <==>
              (exists i :: Opened(signals, i)) && !exists i :: Opened(signals, i) && WelcomedSince(signals, i)
  {
    assert forall i, j :: Opened(signals, i) && Opened(signals, j) ==> i == j;
  }

  lemma {:induction false} HistoryIsDescribed(signals: seq<Signal>)
    ensures Describes(RecordAll(signals), signals)
  {
    if signals != [] {
      var front, x := DropLast(signals), Last(signals);
      assert signals == front + [x];
      HistoryIsDescribed(front);
      SeenGrows(front, x, InstrumentPartial);
      SeenGrows(front, x, Welcome);
      OpenGrows(front, x);
      DoneGrows(front, x);
      AgainGrows(front, x);
      OpensOnce(front);
    }
  }

  // ---- download safety ----

  /** The session that a history leaves behind. */
  ghost predicate Reflects(s: Session, h: History) {
    && s.instrument == h.instrument && s.ready == h.isDone
    && s.download == (if !h.welcome then Idle
                      else if !h.isOpen || h.again then Waiting(1, 1)
                      else if !h.isDone then Waiting(2, 1)
                      else Finished)
    && (h.isDone ==> h.isOpen) && (h.isOpen ==> h.instrument && h.welcome) && (h.again ==> h.isOpen)
  }

  lemma EnterStages()
    ensures Begin(STAGES) == (Waiting(1, 1), [0, 1])
    ensures Enter(STAGES, 2) == (Waiting(2, 1), [2])
    ensures Enter(STAGES, 3) == (Finished, [3])
  {
    assert Enter(STAGES, 4) == (Finished, []);
    assert [3] + [] == [3];
    assert Enter(STAGES, 1) == (Waiting(1, 1), [1]);
    assert [0] + [1] == [0, 1];
  }

  lemma EnterNotices(s: Session)
    ensures EnterAll(s, [0, 1]).1 == Entering(0) + Entering(1) && EnterAll(s, [0, 1]).0.ready == s.ready
    ensures EnterAll(s, [0, 1]).0.download == s.download && EnterAll(s, [0, 1]).0.instrument == s.instrument
    ensures EnterAll(s, [2]).1 == Entering(2) && EnterAll(s, [2]).0 == s.(status := Fetching("order-book-l2"))
    ensures EnterAll(s, [3]).1 == Entering(3) && EnterAll(s, [3]).0 == s.(status := Ready, ready := true)
  {
    assert DropLast([0, 1]) == [0] && DropLast([0]) == [] && DropLast([2]) == [] && DropLast([3]) == [];
    assert EnterAll(s, []) == (s, []);
    assert EnterAll(s, [0]) == (EnterStage(s, 0).0, [] + Entering(0));
    assert EnterAll(s, [2]) == (EnterStage(s, 2).0, [] + Entering(2));
    assert EnterAll(s, [3]) == (EnterStage(s, 3).0, [] + Entering(3));
  }

  lemma CountConcat(a: seq<Notice>, b: seq<Notice>, n: Notice)
    ensures Count(a + b, n) == Count(a, n) + Count(b, n)
  {
    if b == [] {
      assert a + b == a;
    } else {
      assert DropLast(a + b) == a + DropLast(b);
      CountConcat(a, DropLast(b), n);
    }
  }

  lemma SignalReflects(s: Session, h: History, x: Signal)
    requires Reflects(s, h) && x != SocketLost
    ensures var (t, notices) := Handle(s, x);
      && Reflects(t, Record(h, x))
      && Count(notices, Report(Ready)) == (if t.ready && !s.ready then 1 else 0)
      && Count(notices, Subscribe(REMAINING_TOPICS)) == (if Record(h, x).isOpen && !h.isOpen then 1 else 0)
  {
    EnterStages();
    EnterNotices(s.(download := Waiting(1, 1)));
    EnterNotices(s.(instrument := true, download := Waiting(2, 1)));
    EnterNotices(s.(download := Finished));
    CountEntering();
  }

  lemma CountEntering()
    ensures forall n :: Count([], n) == 0
    ensures Count(Entering(0) + Entering(1), Report(Ready)) == 0
            && Count(Entering(0) + Entering(1), Subscribe(REMAINING_TOPICS)) == 0
    ensures Count(Entering(2), Report(Ready)) == 0 && Count(Entering(2), Subscribe(REMAINING_TOPICS)) == 1
    ensures Count(Entering(3), Report(Ready)) == 1 && Count(Entering(3), Subscribe(REMAINING_TOPICS)) == 0
    ensures Count([Report(LoginSent)], Report(Ready)) == 0
            && Count([Report(LoginSent)], Subscribe(REMAINING_TOPICS)) == 0
  {
    assert ["instrument"] != REMAINING_TOPICS;
    forall a: Notice, b: Notice, n ensures Count([a, b], n) == (if a == n then 1 else 0) + (if b == n then 1 else 0) {
      CountTwo(a, b, n);
    }
    CountConcat(Entering(0), Entering(1), Report(Ready));
    CountConcat(Entering(0), Entering(1), Subscribe(REMAINING_TOPICS));
  }

  lemma CountTwo(a: Notice, b: Notice, n: Notice)
    ensures Count([a], n) == (if a == n then 1 else 0)
    ensures Count([a, b], n) == (if a == n then 1 else 0) + (if b == n then 1 else 0)
  {
    assert DropLast([a]) == [] && DropLast([a, b]) == [a];
  }

  lemma {:induction false} SessionReflects(s: Session, signals: seq<Signal>)
    requires s.download == Idle && !s.ready && !s.instrument
    requires forall k :: 0 <= k < |signals| ==> signals[k] != SocketLost
    ensures Reflects(After(s, signals), RecordAll(signals))
    ensures Count(Notices(s, signals), Report(Ready)) == (if RecordAll(signals).isDone then 1 else 0)
    ensures Count(Notices(s, signals), Subscribe(REMAINING_TOPICS)) == (if RecordAll(signals).isOpen then 1 else 0)
  {
    if signals != [] {
      var front, x := DropLast(signals), Last(signals);
      SessionReflects(s, front);
      SignalReflects(After(s, front), RecordAll(front), x);
      var more := Handle(After(s, front), x).1;
      CountConcat(Notices(s, front), more, Report(Ready));
      CountConcat(Notices(s, front), more, Subscribe(REMAINING_TOPICS));
    }
  }

  /** Download safety, for every session and after each of its signals. The stream is ready exactly when
      the first instrument partial came after a welcome and an order-book partial was completed after it
      with no further welcome in between; READY was reported once if so and never otherwise; the
      remaining topics were requested once if that instrument partial came, and never otherwise. */
  lemma ReadyExactlyWhen(s: Session, signals: seq<Signal>)
    requires s.download == Idle && !s.ready && !s.instrument
    requires forall k :: 0 <= k < |signals| ==> signals[k] != SocketLost
    ensures After(s, signals).ready <==> exists i, j :: Completed(signals, i, j)
    ensures Count(Notices(s, signals), Report(Ready)) == (if exists i, j :: Completed(signals, i, j) then 1 else 0)
    ensures Count(Notices(s, signals), Subscribe(REMAINING_TOPICS)) == (if exists i :: Opened(signals, i) then 1 else 0)
  {
    SessionReflects(s, signals);
    HistoryIsDescribed(signals);
  }

  /** The ready flag holds in the last stage only; and it holds exactly there unless a second welcome
      came after the session opened, which sends the download back to the instruments for good. */
  lemma ReadyIsFinishedExactlyWhen(s: Session, signals: seq<Signal>)
    requires s.download == Idle && !s.ready && !s.instrument
    requires forall k :: 0 <= k < |signals| ==> signals[k] != SocketLost
    ensures After(s, signals).download == Finished ==> After(s, signals).ready
    ensures After(s, signals).ready ==>
              (After(s, signals).download == Finished <==> !exists i :: Opened(signals, i) && WelcomedSince(signals, i))
  {
    SessionReflects(s, signals);
    HistoryIsDescribed(signals);
  }

  /** The download has not passed the instruments, and no instrument partial was read. */
  predicate Unopened(s: Session) {
    !s.instrument && (s.download == Idle || s.download == Waiting(1, 1))
  }

  /** Nothing but an instrument partial opens a session or requests the remaining topics. */
  lemma UnopenedStays(s: Session, x: Signal)
    requires Unopened(s) && x != InstrumentPartial
    ensures Unopened(Handle(s, x).0) && Count(Handle(s, x).1, Subscribe(REMAINING_TOPICS)) == 0
  {
    EnterStages();
    EnterNotices(s.(download := Waiting(1, 1)));
    CountEntering();
    CountTwo(Report(Offline), Report(Offline), Subscribe(REMAINING_TOPICS));
  }

  /** A second welcome is possible and does so: the stream stays ready in an unfinished download. */
  lemma WelcomeAgainUnfinishes()
    ensures var s := After(FRESH, [Welcome, InstrumentPartial, BookPartial, Welcome]);
      s.ready && s.download == Waiting(1, 1)
  {
    var signals := [Welcome, InstrumentPartial, BookPartial, Welcome];
    assert DropLast(signals) == [Welcome, InstrumentPartial, BookPartial];
    assert DropLast(DropLast(signals)) == [Welcome, InstrumentPartial]
           && DropLast([Welcome, InstrumentPartial]) == [Welcome];
    assert DropLast([Welcome]) == [] && After(FRESH, []) == FRESH;
    EnterStages();
    var s1, s2, s3 := After(FRESH, [Welcome]), After(FRESH, [Welcome, InstrumentPartial]),
      After(FRESH, DropLast(signals));
    EnterNotices(FRESH.(download := Waiting(1, 1)));
    EnterNotices(s1.(instrument := true, download := Waiting(2, 1)));
    EnterNotices(s2.(download := Finished));
    EnterNotices(s3.(download := Waiting(1, 1)));
  }

  // ---- what is said, over any number of sessions ----

  const NOTHING_YET := History(false, false, false, false, false)

  /** The history of the current session. */
  function HistoryOf(signals: seq<Signal>): History {
    if signals == [] || Last(signals) == SocketLost then NOTHING_YET
    else Record(HistoryOf(DropLast(signals)), Last(signals))
  }

  /** What one signal makes the stream report and ask for, written out. */
  function Said(h: History, x: Signal): seq<Notice> {
    match x
    case SocketReady => [Report(LoginSent)]
    case SocketLost => [Report(Offline)]
    case Welcome => [Report(Fetching("accounts")), Report(Fetching("instrument")), Subscribe(["instrument"])]
    case InstrumentPartial =>
      if h.welcome && !h.instrument then
        [Report(Fetching("order-book-l2")),
         Subscribe(["quote", "orderBookL2", "trade", "funding", "liquidation", "settlement"])]
      else
        []
    case BookPartial => if h.isOpen && !h.again && !h.isDone then [Report(Ready)] else []
    case Quiet => []
  }

  function AllSaid(signals: seq<Signal>): seq<Notice> {
    if signals == [] then [] else AllSaid(DropLast(signals)) + Said(HistoryOf(DropLast(signals)), Last(signals))
  }

  /** The last status among some notices. */
  function LastReport(ns: seq<Notice>, before: Status): Status {
    if ns == [] then before
    else if Last(ns).Report? then Last(ns).status
    else LastReport(DropLast(ns), before)
  }

  lemma {:induction false} LastReportConcat(a: seq<Notice>, b: seq<Notice>, before: Status)
    ensures LastReport(a + b, before) == LastReport(b, LastReport(a, before))
  {
    if b == [] {
      assert a + b == a;
    } else {
      assert DropLast(a + b) == a + DropLast(b);
      LastReportConcat(a, DropLast(b), before);
    }
  }

  lemma LastReportOfOne(a: Notice, before: Status)
    ensures LastReport([a], before) == if a.Report? then a.status else before
  {
    assert DropLast([a]) == [];
  }

  lemma LastReportOfTwo(a: Notice, b: Notice, before: Status)
    ensures LastReport([a, b], before) == if b.Report? then b.status else if a.Report? then a.status else before
  {
    assert DropLast([a, b]) == [a];
    LastReportOfOne(a, before);
  }

  lemma WelcomeSays(s: Session)
    ensures Handle(s, Welcome).1 ==
            [Report(Fetching("accounts")), Report(Fetching("instrument")), Subscribe(["instrument"])]
    ensures Handle(s, Welcome).0.status == Fetching("instrument")
    ensures forall before :: LastReport(Handle(s, Welcome).1, before) == Fetching("instrument")
  {
    EnterStages();
    EnterNotices(s.(download := Waiting(1, 1)));
    var t := s.(download := Waiting(1, 1));
    assert DropLast([0, 1]) == [0] && DropLast([0]) == [];
    assert EnterAll(t, []) == (t, []);
    assert EnterAll(t, [0]).0 == EnterStage(t, 0).0;
    assert EnterAll(t, [0, 1]).0 == EnterStage(EnterStage(t, 0).0, 1).0;
    var a, b, c := Report(Fetching("accounts")), Report(Fetching("instrument")), Subscribe(["instrument"]);
    assert Entering(0) + Entering(1) == [a, b, c];
    forall before ensures LastReport([a, b, c], before) == Fetching("instrument") {
      assert DropLast([a, b, c]) == [a, b];
      LastReportOfTwo(a, b, before);
    }
  }

  /** One signal says what is written out, and leaves the last status it reports. */
  lemma SignalSays(s: Session, h: History, x: Signal)
    requires Reflects(s, h)
    ensures var (t, notices) := Handle(s, x);
      notices == Said(h, x) && t.status == LastReport(notices, s.status)
  {
    EnterStages();
    match x
    case SocketReady => LastReportOfOne(Report(LoginSent), s.status);
    case SocketLost => LastReportOfOne(Report(Offline), s.status);
    case Welcome => WelcomeSays(s);
    case InstrumentPartial =>
      EnterNotices(s.(instrument := true, download := Waiting(2, 1)));
      LastReportOfTwo(Report(Fetching("order-book-l2")), Subscribe(REMAINING_TOPICS), s.status);
      assert EnterAll(s.(instrument := true), []) == (s.(instrument := true), []);
    case BookPartial =>
      EnterNotices(s.(download := Finished));
      LastReportOfOne(Report(Ready), s.status);
      assert EnterAll(s, []) == (s, []);
    case Quiet =>
  }

  lemma {:induction false} HistoryReflects(signals: seq<Signal>)
    ensures Reflects(After(FRESH, signals), HistoryOf(signals))
  {
    if signals != [] {
      var front, x := DropLast(signals), Last(signals);
      HistoryReflects(front);
      if x != SocketLost {
        SignalReflects(After(FRESH, front), HistoryOf(front), x);
      }
    }
  }

  /** Over any signals, in any number of sessions, exactly what is written out is reported and asked for, in
      that order, and the status is the last one reported. */
  lemma {:induction false} SaysExactly(signals: seq<Signal>)
    ensures Notices(FRESH, signals) == AllSaid(signals)
    ensures After(FRESH, signals).status == LastReport(AllSaid(signals), Unknown)
  {
    if signals != [] {
      var front, x := DropLast(signals), Last(signals);
      SaysExactly(front);
      HistoryReflects(front);
      SignalSays(After(FRESH, front), HistoryOf(front), x);
      LastReportConcat(AllSaid(front), Said(HistoryOf(front), x), Unknown);
    }
  }

  function Welcomes(signals: seq<Signal>): nat {
    if signals == [] then 0 else Welcomes(DropLast(signals)) + if Last(signals) == Welcome then 1 else 0
  }

  lemma CountThree(a: Notice, b: Notice, c: Notice, n: Notice)
    ensures Count([a, b, c], n) == (if a == n then 1 else 0) + (if b == n then 1 else 0) + (if c == n then 1 else 0)
  {
    assert DropLast([a, b, c]) == [a, b];
    CountTwo(a, b, n);
  }

  lemma SignalRequestsInstruments(h: History, x: Signal)
    ensures Count(Said(h, x), Subscribe(["instrument"])) == if x == Welcome then 1 else 0
  {
    var n := Subscribe(["instrument"]);
    assert |["instrument"]| != |["quote", "orderBookL2", "trade", "funding", "liquidation", "settlement"]|;
    CountThree(Report(Fetching("accounts")), Report(Fetching("instrument")), n, n);
    CountTwo(Report(Fetching("order-book-l2")),
             Subscribe(["quote", "orderBookL2", "trade", "funding", "liquidation", "settlement"]), n);
    forall status ensures Count([Report(status)], n) == 0 {
      CountTwo(Report(status), Report(status), n);
    }
  }

  /** The instruments are requested once for each welcome. */
  lemma {:induction false} InstrumentsAreRequested(signals: seq<Signal>)
    ensures Count(Notices(FRESH, signals), Subscribe(["instrument"])) == Welcomes(signals)
  {
    if signals != [] {
      var front := DropLast(signals);
      InstrumentsAreRequested(front);
      SaysExactly(front);
      SaysExactly(signals);
      SignalRequestsInstruments(HistoryOf(front), Last(signals));
      CountConcat(AllSaid(front), Said(HistoryOf(front), Last(signals)), Subscribe(["instrument"]));
    }
  }
}

/** The drop-copy stream of one account: its session, the order snapshot, executions and fills, and the
    timer that renews the dead man's switch. */
module DropCopies {
  import opened Common
  import opened Downloading
  import opened DeadMansSwitch

  datatype OrderItem = OrderItem(orderId: string, clientOrderId: string, symbol: string, quantity: Option<real>,
                                 price: Option<real>)

  datatype ExecType = New | Replaced | Canceled | Rejected | Trade | Funding | CancelReject | OtherExec

  datatype ExecutionItem = ExecutionItem(
    orderId: string, clientOrderId: string, symbol: string, execType: ExecType,
    lastQty: Option<real>, lastPx: Option<real>, matchId: string)

  datatype Fill = Fill(tradeId: string, quantity: Option<real>, price: Option<real>)

  /** The ids of the order an execution belongs to, if the dispatcher knew it and called back. */
  datatype OrderIds = NoIds | OrderIds(user: nat, order: nat, strategy: nat)

  datatype Notice =
    | Report(status: Status)
    | Subscribe(topics: seq<string>)
    | CancelAllAfter(millis: int)
    | OrderSnapshot(order: OrderItem)
    | OrderUpdate(execution: ExecutionItem)
    | TradeUpdate(of: ExecutionItem, ids: OrderIds, fill: Fill)

  datatype Config = Config(cancelOnDisconnect: bool, cancelAllAfter: nat)

  datatype Session = Session(ready: bool, next: int, status: Status, download: Download, orders: bool)

  datatype Event =
    | SocketReady
    | SocketLost
    | Welcome
    | Orders(action: Action, orders: seq<OrderItem>)
    | Executions(executions: seq<ExecutionItem>, answers: seq<OrderIds>)  // one answer per execution
    | Tick(now: int, alive: bool)                                         // `alive` as the connection's refresh says

  // SUBSCRIBE, DONE
  const STAGES: seq<nat> := [1, 0]

  const TOPICS: seq<string> := ["execution", "order", "margin", "position"]

  const FRESH := Session(false, 0, Unknown, Idle, false)

  predicate Enabled(cfg: Config) {
    cfg.cancelOnDisconnect && cfg.cancelAllAfter != 0
  }

  function EnterStage(s: Session, stage: nat): (Session, seq<Notice>) {
    if stage == 0 then (s.(status := Fetching("subscribe")), [Report(Fetching("subscribe")), Subscribe(TOPICS)])
    else (s.(status := Ready, ready := true), [Report(Ready)])
  }

  function EnterAll(s: Session, stages: seq<nat>): (Session, seq<Notice>) {
    EnterInOrder(EnterStage, s, stages)
  }

  function Snapshots(items: seq<OrderItem>): (ns: seq<Notice>)
    ensures |ns| == |items| && forall i :: 0 <= i < |items| ==> ns[i] == OrderSnapshot(items[i])
  {
    seq(|items|, i requires 0 <= i < |items| => OrderSnapshot(items[i]))
  }

  function FillOf(item: ExecutionItem): Fill {
    Fill(item.matchId, item.lastQty, item.lastPx)
  }

  /** The notices of one execution: its order update, then its trade update if it is a trade. */
  function ExecutionNotices(item: ExecutionItem, ids: OrderIds): seq<Notice> {
    [OrderUpdate(item)] + if item.execType == Trade then [TradeUpdate(item, ids, FillOf(item))] else []
  }

  function AllExecutionNotices(items: seq<ExecutionItem>, answers: seq<OrderIds>): seq<Notice>
    requires |items| == |answers|
  {
    if items == [] then
      []
    else
      AllExecutionNotices(DropLast(items), DropLast(answers)) + ExecutionNotices(Last(items), Last(answers))
  }

  predicate Proper(e: Event) {
    e.Executions? ==> |e.executions| == |e.answers|
  }

  function Handle(cfg: Config, s: Session, e: Event): (Session, seq<Notice>)
    requires Proper(e)
  {
    match e
    case SocketReady => (s.(status := LoginSent), [Report(LoginSent)])
    case SocketLost => (Session(false, 0, Offline, Idle, false), [Report(Offline)])
    case Welcome =>
      var (download, entered) := Begin(STAGES);
      var (t, notices) := EnterAll(s.(download := download), entered);
      (t, notices + if Enabled(cfg) then [] else [CancelAllAfter(0)])
    case Orders(action, items) =>
      if s.orders || action != Partial then
        (s, [])
      else
        var (download, entered) := CheckRelaxed(STAGES, s.download, 0);
        var (t, notices) := EnterAll(s.(orders := true, download := download), entered);
        (t, Snapshots(items) + notices)
    case Executions(items, answers) => (s, AllExecutionNotices(items, answers))
    case Tick(now, alive) =>
      if alive && Enabled(cfg) && s.ready && Renews(s.next, now) then
        (s.(next := now + cfg.cancelAllAfter / 4), [CancelAllAfter(cfg.cancelAllAfter / NANOS_PER_MILLI)])
      else
        (s, [])
  }

  class DropCopy {
    const cfg: Config
    var ready: bool
    var nextCancelAllAfter: int
    var status: Status
    var download: Download
    var partialOrders: bool
    var sent: seq<Notice>  // everything dispatched or sent so far

    function State(): Session
      reads this
    {
      Session(ready, nextCancelAllAfter, status, download, partialOrders)
    }

    constructor (cfg: Config)
      ensures this.cfg == cfg && State() == FRESH && sent == []
    {
      this.cfg := cfg;
      ready, nextCancelAllAfter, status, download, partialOrders, sent := false, 0, Unknown, Idle, false, [];
    }

    method ReportStatus(status: Status)
      modifies this`status, this`sent
      ensures this.status == status && sent == old(sent) + [Report(status)]
    {
      this.status := status;
      sent := sent + [Report(status)];
    }

    /** The download callback, for each stage that is entered. */
    method OnStages(stages: seq<nat>)
      modifies this`ready, this`status, this`sent
      ensures State() == EnterAll(old(State()), stages).0
      ensures sent == old(sent) + EnterAll(old(State()), stages).1
    {
      ghost var before := State();
      for i := 0 to |stages|
        invariant State() == EnterAll(before, stages[..i]).0
        invariant sent == old(sent) + EnterAll(before, stages[..i]).1
      {
        ghost var now := State();
        if stages[i] == 0 {
          ReportStatus(Fetching("subscribe"));
          sent := sent + [Subscribe(TOPICS)];
        } else {
          ReportStatus(Ready);
          ready := true;
        }
        assert DropLast(stages[..i + 1]) == stages[..i];
        assert State() == EnterStage(now, stages[i]).0;
      }
      assert stages[..|stages|] == stages;
    }

    method OnSocketReady()
      modifies this
      ensures State() == Handle(cfg, old(State()), SocketReady).0
      ensures sent == old(sent) + Handle(cfg, old(State()), SocketReady).1
    {
      ReportStatus(LoginSent);
    }

    method OnSocketLost()
      modifies this
      ensures State() == Handle(cfg, old(State()), SocketLost).0
      ensures sent == old(sent) + Handle(cfg, old(State()), SocketLost).1
    {
      ready := false;
      nextCancelAllAfter := 0;
      partialOrders := false;
      download := Idle;
      ReportStatus(Offline);
    }

    method OnWelcome()
      modifies this
      ensures State() == Handle(cfg, old(State()), Welcome).0
      ensures sent == old(sent) + Handle(cfg, old(State()), Welcome).1
    {
      var begun := Begin(STAGES);
      download := begun.0;
      OnStages(begun.1);
      if !cfg.cancelOnDisconnect || cfg.cancelAllAfter == 0 {
        sent := sent + [CancelAllAfter(0)];
      }
      assert sent == old(sent) + Handle(cfg, old(State()), Welcome).1;
    }

    method OnOrders(action: Action, items: seq<OrderItem>)
      modifies this
      ensures State() == Handle(cfg, old(State()), Orders(action, items)).0
      ensures sent == old(sent) + Handle(cfg, old(State()), Orders(action, items)).1
    {
      var isDownload := !partialOrders && action == Partial;
      for i := 0 to |items|
        invariant State() == old(State())
        invariant sent == old(sent) + if isDownload then Snapshots(items[..i]) else []
      {
        if isDownload {
          assert Snapshots(items[..i + 1]) == Snapshots(items[..i]) + [OrderSnapshot(items[i])];
          sent := sent + [OrderSnapshot(items[i])];
        }
      }
      assert items[..|items|] == items;
      if isDownload {
        partialOrders := true;
        var released := CheckRelaxed(STAGES, download, 0);
        download := released.0;
        OnStages(released.1);
      }
      assert sent == old(sent) + Handle(cfg, old(State()), Orders(action, items)).1;
    }

    method OnExecutions(items: seq<ExecutionItem>, answers: seq<OrderIds>)
      requires |items| == |answers|
      modifies this`sent
      ensures sent == old(sent) + AllExecutionNotices(items, answers)
    {
      for i := 0 to |items|
        invariant sent == old(sent) + AllExecutionNotices(items[..i], answers[..i])
      {
        var item := items[i];
        var ids := NoIds;
        sent := sent + [OrderUpdate(item)];
        // the dispatcher may call back with the order
        if answers[i] != NoIds {
          ids := answers[i];
        }
        assert DropLast(items[..i + 1]) == items[..i] && DropLast(answers[..i + 1]) == answers[..i];
        if item.execType != Trade {
          continue;
        }
        sent := sent + [TradeUpdate(item, ids, FillOf(item))];
      }
      assert items[..|items|] == items && answers[..|answers|] == answers;
    }

    method OnTick(now: int, alive: bool)
      modifies this`nextCancelAllAfter, this`sent
      ensures State() == Handle(cfg, old(State()), Tick(now, alive)).0
      ensures sent == old(sent) + Handle(cfg, old(State()), Tick(now, alive)).1
    {
      assert sent == sent + [];
      if !alive {
        return;
      }
      if cfg.cancelOnDisconnect && cfg.cancelAllAfter != 0 && ready && nextCancelAllAfter <= now {
        nextCancelAllAfter := now + cfg.cancelAllAfter / 4;
        sent := sent + [CancelAllAfter(cfg.cancelAllAfter / NANOS_PER_MILLI)];
      }
    }
  }

  // ---- runs ----

  ghost predicate IsRun(es: seq<Event>) {
    forall e :: e in es ==> Proper(e)
  }

  lemma RunPrefix(es: seq<Event>)
    requires IsRun(es) && es != []
    ensures IsRun(DropLast(es)) && Proper(Last(es))
  {
    assert Last(es) in es && forall e :: e in DropLast(es) ==> e in es;
  }

  function After(cfg: Config, s: Session, es: seq<Event>): (Session, seq<Notice>)
    requires IsRun(es)
  {
    if es == [] then
      (s, [])
    else
      RunPrefix(es);
      var (t, sent) := After(cfg, s, DropLast(es));
      var (u, more) := Handle(cfg, t, Last(es));
      (u, sent + more)
  }

  ghost predicate OneSession(es: seq<Event>) {
    IsRun(es) && forall e :: e in es ==> e != SocketLost
  }

  lemma SessionPrefix(es: seq<Event>)
    requires OneSession(es) && es != []
    ensures OneSession(DropLast(es)) && Proper(Last(es)) && Last(es) != SocketLost
  {
    assert Last(es) in es && forall e :: e in DropLast(es) ==> e in es;
  }

  // ---- orders ----

  /** The orders forwarded as snapshots. */
  function Forwarded(ns: seq<Notice>): seq<OrderItem> {
    if ns == [] then [] else Forwarded(DropLast(ns)) + if Last(ns).OrderSnapshot? then [Last(ns).order] else []
  }

  function ReadyReports(ns: seq<Notice>): nat {
    if ns == [] then 0 else ReadyReports(DropLast(ns)) + if Last(ns) == Report(Ready) then 1 else 0
  }

  /** The orders of the first partial, if there was one. */
  function FirstPartial(es: seq<Event>): Option<seq<OrderItem>> {
    if es == [] then None
    else if FirstPartial(DropLast(es)).Some? then FirstPartial(DropLast(es))
    else if Last(es).Orders? && Last(es).action == Partial then Some(Last(es).orders)
    else None
  }

  /** The first order partial came after a welcome. */
  predicate Downloaded(es: seq<Event>) {
    if es == [] then false
    else Downloaded(DropLast(es)) ||
         (Last(es).Orders? && Last(es).action == Partial && FirstPartial(DropLast(es)).None? && Welcome in DropLast(es))
  }

  lemma {:induction false} ForwardedConcat(a: seq<Notice>, b: seq<Notice>)
    ensures Forwarded(a + b) == Forwarded(a) + Forwarded(b)
    ensures ReadyReports(a + b) == ReadyReports(a) + ReadyReports(b)
  {
    if b == [] {
      assert a + b == a;
    } else {
      assert DropLast(a + b) == a + DropLast(b);
      ForwardedConcat(a, DropLast(b));
    }
  }

  lemma {:induction false} SnapshotsForwarded(items: seq<OrderItem>)
    ensures Forwarded(Snapshots(items)) == items && ReadyReports(Snapshots(items)) == 0
  {
    if items != [] {
      SnapshotsForwarded(DropLast(items));
      assert DropLast(Snapshots(items)) == Snapshots(DropLast(items));
    }
  }

  lemma ExecutionForwardsNothing(item: ExecutionItem, ids: OrderIds)
    ensures Forwarded(ExecutionNotices(item, ids)) == [] && ReadyReports(ExecutionNotices(item, ids)) == 0
  {
    var a := [OrderUpdate(item)];
    assert DropLast(a) == [] && Forwarded([]) == [] && ReadyReports([]) == 0;
    assert Forwarded(a) == [] && ReadyReports(a) == 0;
    var b := [TradeUpdate(item, ids, FillOf(item))];
    assert DropLast(b) == [] && Forwarded(b) == [] && ReadyReports(b) == 0;
    ForwardedConcat(a, if item.execType == Trade then b else []);
  }

  lemma {:induction false} ExecutionsForwardNothing(items: seq<ExecutionItem>, answers: seq<OrderIds>)
    requires |items| == |answers|
    ensures Forwarded(AllExecutionNotices(items, answers)) == []
            && ReadyReports(AllExecutionNotices(items, answers)) == 0
  {
    if items != [] {
      ExecutionsForwardNothing(DropLast(items), DropLast(answers));
      ExecutionForwardsNothing(Last(items), Last(answers));
      ForwardedConcat(AllExecutionNotices(DropLast(items), DropLast(answers)),
                      ExecutionNotices(Last(items), Last(answers)));
    }
  }

  /** The snapshots that come after a READY report. */
  function LateSnapshots(ns: seq<Notice>): seq<OrderItem> {
    if ns == [] then
      []
    else
      var before := DropLast(ns);
      LateSnapshots(before) + if Last(ns).OrderSnapshot? && ReadyReports(before) > 0 then [Last(ns).order] else []
  }

  lemma LateGrows(ns: seq<Notice>, n: Notice)
    ensures LateSnapshots(ns + [n]) == LateSnapshots(ns) + if n.OrderSnapshot? && ReadyReports(ns) > 0 then [n.order]
                                                           else []
    ensures Forwarded(ns + [n]) == Forwarded(ns) + if n.OrderSnapshot? then [n.order] else []
  {
    assert DropLast(ns + [n]) == ns;
  }

  lemma {:induction false} LateConcat(a: seq<Notice>, b: seq<Notice>)
    ensures LateSnapshots(a + b) == LateSnapshots(a) + if ReadyReports(a) > 0 then Forwarded(b) else LateSnapshots(b)
  {
    if b == [] {
      assert a + b == a;
    } else {
      var front, n := DropLast(b), Last(b);
      assert b == front + [n] && a + b == a + front + [n];
      LateConcat(a, front);
      ForwardedConcat(a, front);
      LateGrows(a + front, n);
      LateGrows(front, n);
    }
  }

  lemma {:induction false} NothingLate(ns: seq<Notice>)
    requires ReadyReports(ns) == 0
    ensures LateSnapshots(ns) == []
  {
    if ns != [] {
      NothingLate(DropLast(ns));
    }
  }

  /** What a session has done so far. */
  ghost predicate Characterised(es: seq<Event>, t: Session, sent: seq<Notice>) {
    && (t.orders <==> FirstPartial(es).Some?)
    && (t.ready <==> Downloaded(es))
    && (Downloaded(es) ==> FirstPartial(es).Some?)
    && (if Welcome !in es then t.download == Idle else !t.ready ==> t.download == Waiting(0, 1))
    && Forwarded(sent) == (if FirstPartial(es).Some? then FirstPartial(es).value else [])
    && LateSnapshots(sent) == []
    && ReadyReports(sent) == (if t.ready then 1 else 0)
  }

  lemma StageNotices(s: Session)
    ensures Begin(STAGES) == (Waiting(0, 1), [0]) && CheckRelaxed(STAGES, Waiting(0, 1), 0) == (Finished, [1])
    ensures EnterAll(s, []) == (s, []) && EnterAll(s, [0]) == EnterStage(s, 0) && EnterAll(s, [1]) == EnterStage(s, 1)
  {
    assert Enter(STAGES, 2) == (Finished, []);
    assert [1] + [] == [1];
    assert DropLast([0]) == [] && DropLast([1]) == [];
    assert EnterAll(s, []) == (s, []);
    assert forall ns: seq<Notice> :: [] + ns == ns;
  }

  lemma QuietNotice(a: Notice)
    requires !a.OrderSnapshot? && a != Report(Ready)
    ensures Forwarded([a]) == [] && ReadyReports([a]) == 0 && Forwarded([]) == [] && ReadyReports([]) == 0
  {
    assert DropLast([a]) == [];
  }

  lemma WelcomeNotices(cfg: Config, s: Session)
    ensures Handle(cfg, s, Welcome) ==
              (s.(download := Waiting(0, 1), status := Fetching("subscribe")),
               [Report(Fetching("subscribe")), Subscribe(TOPICS)] + if Enabled(cfg) then [] else [CancelAllAfter(0)])
  {
    StageNotices(s.(download := Waiting(0, 1)));
  }

  lemma WelcomeForwardsNothing(cfg: Config, s: Session)
    ensures Forwarded(Handle(cfg, s, Welcome).1) == [] && ReadyReports(Handle(cfg, s, Welcome).1) == 0
  {
    WelcomeNotices(cfg, s);
    var a, b, c := Report(Fetching("subscribe")), Subscribe(TOPICS), CancelAllAfter(0);
    QuietNotice(a);
    QuietNotice(b);
    QuietNotice(c);
    ForwardedConcat([a], [b]);
    assert [a] + [b] == [a, b];
    ForwardedConcat([a, b], if Enabled(cfg) then [] else [c]);
  }

  /** What one event adds, apart from forwarding a first partial. */
  lemma EventAddsNothing(cfg: Config, s: Session, e: Event)
    requires Proper(e) && e != SocketLost
    requires e.Orders? ==> s.orders || e.action != Partial
    ensures var (t, more) := Handle(cfg, s, e);
      && Forwarded(more) == [] && ReadyReports(more) == 0 && t.orders == s.orders && t.ready == s.ready
      && t.download == (if e == Welcome then Waiting(0, 1) else s.download)
  {
    match e
    case Executions(items, answers) => ExecutionsForwardNothing(items, answers);
    case Welcome =>
      WelcomeNotices(cfg, s);
      WelcomeForwardsNothing(cfg, s);
    case SocketReady => QuietNotice(Report(LoginSent));
    case Tick(_, _) => QuietNotice(CancelAllAfter(cfg.cancelAllAfter / NANOS_PER_MILLI));
    case Orders(_, _) => QuietNotice(CancelAllAfter(0));
  }

  lemma ReadyAlone()
    ensures var ready := [Report(Ready)];
      Forwarded(ready) == [] && LateSnapshots(ready) == [] && ReadyReports(ready) == 1
  {
    var ready := [Report(Ready)];
    assert DropLast(ready) == [] && Forwarded([]) == [] && LateSnapshots([]) == [] && ReadyReports([]) == 0;
  }

  lemma SnapshotsThenReady(items: seq<OrderItem>, isReady: bool)
    ensures var more := Snapshots(items) + if isReady then [Report(Ready)] else [];
      Forwarded(more) == items && LateSnapshots(more) == [] && ReadyReports(more) == if isReady then 1 else 0
  {
    var snapshots := Snapshots(items);
    SnapshotsForwarded(items);
    NothingLate(snapshots);
    if isReady {
      ReadyAlone();
      ForwardedConcat(snapshots, [Report(Ready)]);
      LateConcat(snapshots, [Report(Ready)]);
      assert items + [] == items;
    } else {
      assert snapshots + [] == snapshots;
    }
  }

  /** The first order partial forwards its orders, and reports READY after them if welcomed. */
  lemma FirstPartialForwards(cfg: Config, s: Session, e: Event)
    requires e.Orders? && e.action == Partial && !s.orders && !s.ready
    requires s.download == Idle || s.download == Waiting(0, 1)
    ensures var (t, more) := Handle(cfg, s, e);
      && t.orders && Forwarded(more) == e.orders && LateSnapshots(more) == []
      && t.ready == (s.download != Idle) && ReadyReports(more) == (if t.ready then 1 else 0)
      && (!t.ready ==> t.download == s.download)
  {
    StageNotices(s.(orders := true, download := Finished));
    StageNotices(s.(orders := true));
    SnapshotsThenReady(e.orders, s.download != Idle);
  }

  lemma PartialCharacterises(front: seq<Event>, e: Event, t: Session, sent: seq<Notice>, t': Session, more: seq<Notice>)
    requires Characterised(front, t, sent) && e.Orders? && e.action == Partial && !t.orders
    requires t'.orders && Forwarded(more) == e.orders && LateSnapshots(more) == []
    requires t'.ready == (t.download != Idle) && ReadyReports(more) == (if t'.ready then 1 else 0)
    requires !t'.ready ==> t'.download == t.download
    ensures Characterised(front + [e], t', sent + more)
  {
    assert DropLast(front + [e]) == front;
    ForwardedConcat(sent, more);
    LateConcat(sent, more);
    assert [] + e.orders == e.orders && LateSnapshots(sent) + [] == [];
  }

  lemma OtherCharacterises(front: seq<Event>, e: Event, t: Session, sent: seq<Notice>, t': Session, more: seq<Notice>)
    requires Characterised(front, t, sent) && (e.Orders? && e.action == Partial ==> t.orders)
    requires Forwarded(more) == [] && LateSnapshots(more) == [] && ReadyReports(more) == 0
    requires t'.orders == t.orders && t'.ready == t.ready
    requires t'.download == if e == Welcome then Waiting(0, 1) else t.download
    ensures Characterised(front + [e], t', sent + more)
  {
    assert DropLast(front + [e]) == front;
    ForwardedConcat(sent, more);
    LateConcat(sent, more);
    assert Forwarded(sent) + [] == Forwarded(sent) && LateSnapshots(sent) + [] == [];
  }

  lemma {:induction false} SessionCharacterised(cfg: Config, s: Session, es: seq<Event>)
    requires OneSession(es) && !s.ready && !s.orders && s.download == Idle
    ensures Characterised(es, After(cfg, s, es).0, After(cfg, s, es).1)
  {
    if es != [] {
      SessionPrefix(es);
      var front, e := DropLast(es), Last(es);
      assert es == front + [e];
      SessionCharacterised(cfg, s, front);
      var (t, sent) := After(cfg, s, front);
      var more := Handle(cfg, t, e).1;
      if e.Orders? && e.action == Partial && !t.orders {
        FirstPartialForwards(cfg, t, e);
        PartialCharacterises(front, e, t, sent, Handle(cfg, t, e).0, more);
      } else {
        EventAddsNothing(cfg, t, e);
        NothingLate(more);
        OtherCharacterises(front, e, t, sent, Handle(cfg, t, e).0, more);
      }
    }
  }

  /** Order snapshot, for every session and after each of its events: exactly the orders of the first
      order partial were forwarded, each once and in order, and none after READY; READY was reported once
      if that partial came after a welcome and never otherwise, and the stream is ready exactly then. */
  lemma OrdersForwardedOnce(cfg: Config, s: Session, es: seq<Event>)
    requires OneSession(es) && !s.ready && !s.orders && s.download == Idle
    ensures var (t, sent) := After(cfg, s, es);
      && Forwarded(sent) == (if FirstPartial(es).Some? then FirstPartial(es).value else [])
      && LateSnapshots(sent) == []
      && ReadyReports(sent) == (if Downloaded(es) then 1 else 0)
      && (t.ready <==> Downloaded(es))
  {
    SessionCharacterised(cfg, s, es);
  }

  // ---- executions and fills ----

  function TradesIn(items: seq<ExecutionItem>): nat {
    if items == [] then 0 else TradesIn(DropLast(items)) + if Last(items).execType == Trade then 1 else 0
  }

  lemma {:induction false} NoticesLength(items: seq<ExecutionItem>, answers: seq<OrderIds>)
    requires |items| == |answers|
    ensures |AllExecutionNotices(items, answers)| == |items| + TradesIn(items)
  {
    if items != [] {
      NoticesLength(DropLast(items), DropLast(answers));
    }
  }

  /** Each execution has its order update, and directly after it, if it is a trade, one trade update with
      the ids its own callback delivered; nothing else is sent. */
  lemma {:induction false} TradeFollowsItsOrder(items: seq<ExecutionItem>, answers: seq<OrderIds>, i: nat)
    requires |items| == |answers| && i < |items|
    ensures var ns, at := AllExecutionNotices(items, answers), i + TradesIn(items[..i]);
      && |ns| == |items| + TradesIn(items)
      && at < |ns| && ns[at] == OrderUpdate(items[i])
      && (items[i].execType == Trade ==>
            && at + 1 < |ns| && ns[at + 1].TradeUpdate? && ns[at + 1].of == items[i] && ns[at + 1].ids == answers[i]
            && ns[at + 1].fill.tradeId == items[i].matchId
            && ns[at + 1].fill.quantity == items[i].lastQty && ns[at + 1].fill.price == items[i].lastPx)
  {
    NoticesLength(items, answers);
    NoticesLength(DropLast(items), DropLast(answers));
    if i < |items| - 1 {
      TradeFollowsItsOrder(DropLast(items), DropLast(answers), i);
      assert DropLast(items)[..i] == items[..i];
    } else {
      assert items[..i] == DropLast(items);
    }
  }

  function Quantity(q: Option<real>): real {
    if q.Some? then q.value else 0.0
  }

  function Filled(ns: seq<Notice>): real {
    if ns == [] then
      0.0
    else
      Filled(DropLast(ns)) + if Last(ns).TradeUpdate? then Quantity(Last(ns).fill.quantity) else 0.0
  }

  function Traded(items: seq<ExecutionItem>): real {
    if items == [] then
      0.0
    else
      Traded(DropLast(items)) + if Last(items).execType == Trade then Quantity(Last(items).lastQty) else 0.0
  }

  function AllTraded(es: seq<Event>): real {
    if es == [] then
      0.0
    else
      AllTraded(DropLast(es)) + if Last(es).Executions? then Traded(Last(es).executions) else 0.0
  }

  lemma {:induction false} FilledConcat(a: seq<Notice>, b: seq<Notice>)
    ensures Filled(a + b) == Filled(a) + Filled(b)
  {
    if b == [] {
      assert a + b == a;
    } else {
      assert DropLast(a + b) == a + DropLast(b);
      FilledConcat(a, DropLast(b));
    }
  }

  lemma {:induction false} ExecutionsFill(items: seq<ExecutionItem>, answers: seq<OrderIds>)
    requires |items| == |answers|
    ensures Filled(AllExecutionNotices(items, answers)) == Traded(items)
  {
    if items != [] {
      ExecutionsFill(DropLast(items), DropLast(answers));
      var item, ids := Last(items), Last(answers);
      var a, b := [OrderUpdate(item)], [TradeUpdate(item, ids, FillOf(item))];
      assert DropLast(a) == [] && DropLast(b) == [] && Filled([]) == 0.0;
      assert Filled(a) == 0.0 && Filled(b) == Quantity(item.lastQty);
      FilledConcat(a, if item.execType == Trade then b else []);
      FilledConcat(AllExecutionNotices(DropLast(items), DropLast(answers)), ExecutionNotices(item, ids));
    }
  }

  lemma {:induction false} NothingFilled(ns: seq<Notice>)
    requires forall n :: n in ns ==> !n.TradeUpdate?
    ensures Filled(ns) == 0.0
  {
    if ns != [] {
      NothingFilled(DropLast(ns));
    }
  }

  lemma {:induction false} StagesFillNothing(s: Session, stages: seq<nat>)
    ensures forall n :: n in EnterAll(s, stages).1 ==> !n.TradeUpdate?
  {
    if stages != [] {
      StagesFillNothing(s, DropLast(stages));
    }
  }

  lemma EventFills(cfg: Config, s: Session, e: Event)
    requires Proper(e)
    ensures Filled(Handle(cfg, s, e).1) == if e.Executions? then Traded(e.executions) else 0.0
  {
    if e.Executions? {
      ExecutionsFill(e.executions, e.answers);
    } else {
      if e == Welcome {
        StagesFillNothing(s.(download := Begin(STAGES).0), Begin(STAGES).1);
      } else if e.Orders? {
        var (download, entered) := CheckRelaxed(STAGES, s.download, 0);
        StagesFillNothing(s.(orders := true, download := download), entered);
      }
      NothingFilled(Handle(cfg, s, e).1);
    }
  }

  /** Fill conservation: over any events, across sessions, the fills sent add up to the last quantities of
      the trade executions received. */
  lemma {:induction false} FillsConserved(cfg: Config, s: Session, es: seq<Event>)
    requires IsRun(es)
    ensures Filled(After(cfg, s, es).1) == AllTraded(es)
  {
    if es != [] {
      RunPrefix(es);
      var (t, sent) := After(cfg, s, DropLast(es));
      FillsConserved(cfg, s, DropLast(es));
      EventFills(cfg, t, Last(es));
      FilledConcat(sent, Handle(cfg, t, Last(es)).1);
    }
  }

  function Fills(ns: seq<Notice>): seq<Fill> {
    if ns == [] then [] else Fills(DropLast(ns)) + if Last(ns).TradeUpdate? then [Last(ns).fill] else []
  }

  function TradeItems(items: seq<ExecutionItem>): seq<ExecutionItem> {
    if items == [] then [] else TradeItems(DropLast(items)) + if Last(items).execType == Trade then [Last(items)]
    else []
  }

  /** The trade executions received, over all sessions. */
  function AllTradeItems(es: seq<Event>): seq<ExecutionItem> {
    if es == [] then
      []
    else
      AllTradeItems(DropLast(es)) + if Last(es).Executions? then TradeItems(Last(es).executions) else []
  }

  /** The fills are those of the executions, one for one: match id, last quantity and last price. */
  ghost predicate Matches(fills: seq<Fill>, items: seq<ExecutionItem>) {
    && |fills| == |items|
    && forall i :: 0 <= i < |fills| ==>
         && fills[i].tradeId == items[i].matchId
         && fills[i].quantity == items[i].lastQty && fills[i].price == items[i].lastPx
  }

  lemma {:induction false} FillsConcat(a: seq<Notice>, b: seq<Notice>)
    ensures Fills(a + b) == Fills(a) + Fills(b)
  {
    if b == [] {
      assert a + b == a;
    } else {
      assert DropLast(a + b) == a + DropLast(b);
      FillsConcat(a, DropLast(b));
    }
  }

  lemma {:induction false} NoFills(ns: seq<Notice>)
    requires forall n :: n in ns ==> !n.TradeUpdate?
    ensures Fills(ns) == []
  {
    if ns != [] {
      assert Last(ns) in ns && forall n :: n in DropLast(ns) ==> n in ns;
      NoFills(DropLast(ns));
    }
  }

  lemma FillsOfOne(item: ExecutionItem, ids: OrderIds)
    ensures Fills(ExecutionNotices(item, ids)) == if item.execType == Trade then [FillOf(item)] else []
  {
    var a, b := [OrderUpdate(item)], [TradeUpdate(item, ids, FillOf(item))];
    assert DropLast(a) == [] && DropLast(b) == [] && Fills([]) == [];
    assert Fills(a) == [] && Fills(b) == [FillOf(item)];
    FillsConcat(a, if item.execType == Trade then b else []);
  }

  lemma {:induction false} ExecutionsMatch(items: seq<ExecutionItem>, answers: seq<OrderIds>)
    requires |items| == |answers|
    ensures Matches(Fills(AllExecutionNotices(items, answers)), TradeItems(items))
  {
    if items != [] {
      ExecutionsMatch(DropLast(items), DropLast(answers));
      FillsOfOne(Last(items), Last(answers));
      FillsConcat(AllExecutionNotices(DropLast(items), DropLast(answers)),
                  ExecutionNotices(Last(items), Last(answers)));
    }
  }

  lemma EventMatches(cfg: Config, s: Session, e: Event)
    requires Proper(e)
    ensures Matches(Fills(Handle(cfg, s, e).1), if e.Executions? then TradeItems(e.executions) else [])
  {
    if e.Executions? {
      ExecutionsMatch(e.executions, e.answers);
    } else {
      if e == Welcome {
        StagesFillNothing(s.(download := Begin(STAGES).0), Begin(STAGES).1);
      } else if e.Orders? {
        var (download, entered) := CheckRelaxed(STAGES, s.download, 0);
        StagesFillNothing(s.(orders := true, download := download), entered);
      }
      NoFills(Handle(cfg, s, e).1);
    }
  }

  lemma MatchesConcat(a: seq<Fill>, b: seq<Fill>, x: seq<ExecutionItem>, y: seq<ExecutionItem>)
    requires Matches(a, x) && Matches(b, y)
    ensures Matches(a + b, x + y)
  {
  }

  /** Over any events, across sessions, the fills sent are those of the trade executions received, one for one
      and in order, each with its execution's match id, last quantity and last price. */
  lemma {:induction false} FillsMatchTrades(cfg: Config, s: Session, es: seq<Event>)
    requires IsRun(es)
    ensures Matches(Fills(After(cfg, s, es).1), AllTradeItems(es))
  {
    if es != [] {
      RunPrefix(es);
      var front, e := DropLast(es), Last(es);
      var (t, sent) := After(cfg, s, front);
      FillsMatchTrades(cfg, s, front);
      EventMatches(cfg, t, e);
      FillsConcat(sent, Handle(cfg, t, e).1);
      MatchesConcat(Fills(sent), Fills(Handle(cfg, t, e).1), AllTradeItems(front),
                    if e.Executions? then TradeItems(e.executions) else []);
    }
  }

  // ---- what is said of status and topics ----

  /** The last status among some notices. */
  function LastReport(ns: seq<Notice>, before: Status): Status {
    if ns == [] then before
    else if Last(ns).Report? then Last(ns).status
    else LastReport(DropLast(ns), before)
  }

  lemma {:induction false} LastReportConcat(a: seq<Notice>, b: seq<Notice>, before: Status)
    ensures LastReport(a + b, before) == LastReport(b, LastReport(a, before))
  {
    if b == [] {
      assert a + b == a;
    } else {
      assert DropLast(a + b) == a + DropLast(b);
      LastReportConcat(a, DropLast(b), before);
    }
  }

  lemma {:induction false} NoReport(ns: seq<Notice>, before: Status)
    requires forall n :: n in ns ==> !n.Report?
    ensures LastReport(ns, before) == before
  {
    if ns != [] {
      assert Last(ns) in ns && forall n :: n in DropLast(ns) ==> n in ns;
      NoReport(DropLast(ns), before);
    }
  }

  lemma ReportFirst(status: Status, rest: seq<Notice>, before: Status)
    requires forall n :: n in rest ==> !n.Report?
    ensures LastReport([Report(status)] + rest, before) == status
  {
    assert DropLast([Report(status)]) == [];
    LastReportConcat([Report(status)], rest, before);
    NoReport(rest, status);
  }

  lemma ReportLast(rest: seq<Notice>, status: Status, before: Status)
    ensures LastReport(rest + [Report(status)], before) == status
  {
    LastReportConcat(rest, [Report(status)], before);
    assert DropLast([Report(status)]) == [];
  }

  lemma {:induction false} ExecutionsReportNothing(items: seq<ExecutionItem>, answers: seq<OrderIds>)
    requires |items| == |answers|
    ensures forall n :: n in AllExecutionNotices(items, answers) ==> !n.Report? && !n.Subscribe? && !n.CancelAllAfter?
  {
    if items != [] {
      ExecutionsReportNothing(DropLast(items), DropLast(answers));
    }
  }

  /** What a ready or lost socket and a welcome make the stream say, written out. */
  lemma SessionSays(cfg: Config, s: Session)
    ensures Handle(cfg, s, SocketReady).1 == [Report(LoginSent)]
    ensures Handle(cfg, s, SocketLost).1 == [Report(Offline)]
    ensures Handle(cfg, s, Welcome).1 ==
            [Report(Fetching("subscribe")), Subscribe(["execution", "order", "margin", "position"])] +
            if cfg.cancelOnDisconnect && cfg.cancelAllAfter > 0 then [] else [CancelAllAfter(0)]
  {
    WelcomeNotices(cfg, s);
  }

  lemma WelcomeReports(cfg: Config, s: Session)
    ensures Handle(cfg, s, Welcome).0.status == LastReport(Handle(cfg, s, Welcome).1, s.status)
  {
    WelcomeNotices(cfg, s);
    var rest := [Subscribe(TOPICS)] + if Enabled(cfg) then [] else [CancelAllAfter(0)];
    assert Handle(cfg, s, Welcome).1 == [Report(Fetching("subscribe"))] + rest;
    ReportFirst(Fetching("subscribe"), rest, s.status);
  }

  lemma OrdersReport(cfg: Config, s: Session, e: Event)
    requires e.Orders? && (s.download == Idle || s.download == Waiting(0, 1) || s.download == Finished)
    ensures Handle(cfg, s, e).0.status == LastReport(Handle(cfg, s, e).1, s.status)
  {
    var snapshots := Snapshots(e.orders);
    StageNotices(s.(orders := true, download := Finished));
    StageNotices(s.(orders := true));
    if e.action == Partial && !s.orders {
      if s.download == Waiting(0, 1) {
        ReportLast(snapshots, Ready, s.status);
      } else {
        assert snapshots + [] == snapshots;
        NoReport(snapshots, s.status);
      }
    }
  }

  /** Over any events from the start, the status is the last one reported. */
  lemma {:induction false} StatusIsLastReported(cfg: Config, es: seq<Event>)
    requires IsRun(es)
    ensures var (s, sent) := After(cfg, FRESH, es);
      && s.status == LastReport(sent, Unknown)
      && (s.download == Idle || s.download == Waiting(0, 1) || s.download == Finished)
  {
    if es != [] {
      RunPrefix(es);
      var (t, sent) := After(cfg, FRESH, DropLast(es));
      var e := Last(es);
      StatusIsLastReported(cfg, DropLast(es));
      EventReports(cfg, t, e);
      LastReportConcat(sent, Handle(cfg, t, e).1, Unknown);
    }
  }

  lemma EventReports(cfg: Config, s: Session, e: Event)
    requires Proper(e) && (s.download == Idle || s.download == Waiting(0, 1) || s.download == Finished)
    ensures var (t, notices) := Handle(cfg, s, e);
      && t.status == LastReport(notices, s.status)
      && (t.download == Idle || t.download == Waiting(0, 1) || t.download == Finished)
  {
    match e
    case SocketReady => ReportLast([], LoginSent, s.status);
    case SocketLost => ReportLast([], Offline, s.status);
    case Welcome =>
      WelcomeNotices(cfg, s);
      WelcomeReports(cfg, s);
    case Orders(_, _) =>
      StageNotices(s.(orders := true, download := Finished));
      StageNotices(s.(orders := true));
      OrdersReport(cfg, s, e);
    case Executions(items, answers) =>
      ExecutionsReportNothing(items, answers);
      NoReport(AllExecutionNotices(items, answers), s.status);
    case Tick(_, _) => NoReport(Handle(cfg, s, e).1, s.status);
  }

  // ---- the dead man's switch ----

  function Ticks(es: seq<Event>): seq<int> {
    if es == [] then [] else Ticks(DropLast(es)) + if Last(es).Tick? then [Last(es).now] else []
  }

  /** No renewal is scheduled unless the stream is ready, whatever happened before. */
  lemma {:induction false} NoRenewalBeforeReady(cfg: Config, es: seq<Event>)
    requires IsRun(es)
    ensures var s := After(cfg, FRESH, es).0; !s.ready ==> s.next == 0
  {
    if es != [] {
      RunPrefix(es);
      NoRenewalBeforeReady(cfg, DropLast(es));
      var t := After(cfg, FRESH, DropLast(es)).0;
      StageNotices(t.(download := Waiting(0, 1)));
      if Last(es).Orders? {
        StagesKeepNext(t.(orders := true, download := CheckRelaxed(STAGES, t.download, 0).0),
                       CheckRelaxed(STAGES, t.download, 0).1);
      }
    }
  }

  lemma {:induction false} StagesKeepNext(s: Session, stages: seq<nat>)
    ensures EnterAll(s, stages).0.next == s.next && (s.ready ==> EnterAll(s, stages).0.ready)
  {
    if stages != [] {
      StagesKeepNext(s, DropLast(stages));
    }
  }

  /** While the stream stays connected and ready with the switch enabled, its renewal time is the one the
      ticks determine, and a tick sends exactly when the switch says so. */
  lemma {:induction false} TicksDriveTheSwitch(cfg: Config, s: Session, es: seq<Event>)
    requires OneSession(es) && Enabled(cfg) && s.ready && s.next == 0
    requires forall e :: e in es && e.Tick? ==> e.alive
    ensures var t := After(cfg, s, es).0;
      t.ready && t.next == NextAt(cfg.cancelAllAfter, Ticks(es), |Ticks(es)|)
    ensures es != [] && Last(es).Tick? ==> IsRun(DropLast(es))
    ensures es != [] && Last(es).Tick? ==>
      (CancelAllAfter(cfg.cancelAllAfter / NANOS_PER_MILLI) in Handle(cfg, After(cfg, s, DropLast(es)).0, Last(es)).1
       <==> SendsAt(cfg.cancelAllAfter, Ticks(es), |Ticks(es)| - 1))
  {
    if es != [] {
      SessionPrefix(es);
      var front, e := DropLast(es), Last(es);
      TicksDriveTheSwitch(cfg, s, front);
      var t := After(cfg, s, front).0;
      if e == Welcome {
        StagesKeepNext(t.(download := Begin(STAGES).0), Begin(STAGES).1);
      } else if e.Orders? {
        var (download, entered) := CheckRelaxed(STAGES, t.download, 0);
        StagesKeepNext(t.(orders := true, download := download), entered);
      } else if e.Tick? {
        TicksPrefix(cfg.cancelAllAfter, Ticks(front), e.now);
      }
      if !e.Tick? {
        assert Ticks(es) == Ticks(front) + [] == Ticks(front);
      }
    }
  }

  lemma {:induction false} NextAtPrefix(timeout: nat, ticks: seq<int>, now: int, n: nat)
    requires n <= |ticks|
    ensures NextAt(timeout, ticks + [now], n) == NextAt(timeout, ticks, n)
  {
    if n > 0 {
      NextAtPrefix(timeout, ticks, now, n - 1);
    }
  }

  lemma TicksPrefix(timeout: nat, ticks: seq<int>, now: int)
    ensures var n, all := |ticks|, ticks + [now];
      NextAt(timeout, all, n + 1) == NextAfter(timeout, NextAt(timeout, ticks, n), now)
      && (SendsAt(timeout, all, n) <==> Renews(NextAt(timeout, ticks, n), now))
  {
    NextAtPrefix(timeout, ticks, now, |ticks|);
  }

  /** The event that made a stream ready leaves no renewal scheduled. */
  lemma ReadyStartsFresh(cfg: Config, es: seq<Event>)
    requires IsRun(es) && es != [] && IsRun(DropLast(es))
    requires !After(cfg, FRESH, DropLast(es)).0.ready && After(cfg, FRESH, es).0.ready
    ensures After(cfg, FRESH, es).0.next == 0
  {
    RunPrefix(es);
    NoRenewalBeforeReady(cfg, DropLast(es));
    var t, e := After(cfg, FRESH, DropLast(es)).0, Last(es);
    if e == Welcome {
      StagesKeepNext(t.(download := Begin(STAGES).0), Begin(STAGES).1);
    } else if e.Orders? {
      var (download, entered) := CheckRelaxed(STAGES, t.download, 0);
      StagesKeepNext(t.(orders := true, download := download), entered);
    }
  }

  /** Dead man's switch, for the stream: from the event that makes it ready, while it stays connected with
      the switch enabled, no tick after the first finds the exchange's countdown run out, provided the
      ticks are close enough. */
  lemma SwitchStaysAlive(cfg: Config, before: seq<Event>, es: seq<Event>, gap: nat, n: nat)
    requires IsRun(before) && before != [] && IsRun(DropLast(before)) && OneSession(es) && Enabled(cfg)
    requires !After(cfg, FRESH, DropLast(before)).0.ready && After(cfg, FRESH, before).0.ready
    requires forall e :: e in es && e.Tick? ==> e.alive
    requires Paced(Ticks(es), gap) && 0 < gap && cfg.cancelAllAfter / 4 + gap <= Countdown(cfg.cancelAllAfter)
    requires 0 < n < |Ticks(es)|
    ensures AliveAt(cfg.cancelAllAfter, Ticks(es), n)
    ensures After(cfg, After(cfg, FRESH, before).0, es).0.next ==
            LastSend(cfg.cancelAllAfter, Ticks(es), |Ticks(es)|) + cfg.cancelAllAfter / 4
  {
    ReadyStartsFresh(cfg, before);
    TicksDriveTheSwitch(cfg, After(cfg, FRESH, before).0, es);
    RenewalFollowsLastSend(cfg.cancelAllAfter, Ticks(es), gap, |Ticks(es)|);
    StaysAlive(cfg.cancelAllAfter, Ticks(es), gap, n);
  }

  // ---- every cancel-all-after sent ----

  /** When a renewal last went out in the current session. */
  function LastRenewal(cfg: Config, es: seq<Event>): Option<int>
    requires IsRun(es)
  {
    if es == [] then
      None
    else
      RunPrefix(es);
      var front, e := DropLast(es), Last(es);
      if e == SocketLost then None
      else if e.Tick? && Handle(cfg, After(cfg, FRESH, front).0, e).1 != [] then Some(e.now)
      else LastRenewal(cfg, front)
  }

  /** The next renewal is due at once, or a quarter of the time-out after the last. */
  function DueAt(cfg: Config, es: seq<Event>): int
    requires IsRun(es)
  {
    var last := LastRenewal(cfg, es);
    if last.Some? then last.value + cfg.cancelAllAfter / 4 else 0
  }

  lemma {:induction false} NextIsDue(cfg: Config, es: seq<Event>)
    requires IsRun(es)
    ensures After(cfg, FRESH, es).0.next == DueAt(cfg, es)
  {
    if es != [] {
      RunPrefix(es);
      var front, e := DropLast(es), Last(es);
      var t := After(cfg, FRESH, front).0;
      NextIsDue(cfg, front);
      if e == Welcome {
        StagesKeepNext(t.(download := Begin(STAGES).0), Begin(STAGES).1);
      } else if e.Orders? {
        var (download, entered) := CheckRelaxed(STAGES, t.download, 0);
        StagesKeepNext(t.(orders := true, download := download), entered);
      }
    }
  }

  /** After any events from the start, and whatever the configuration, a tick sends something if and only if
      the connection is alive, cancelling on disconnect is on with a time-out, the stream is ready, and the
      renewal is due; it then asks for the time-out in whole milliseconds, once. */
  lemma TickSendsExactlyWhen(cfg: Config, es: seq<Event>, now: int, alive: bool)
    requires IsRun(es)
    ensures var s := After(cfg, FRESH, es).0;
      Handle(cfg, s, Tick(now, alive)).1 ==
      if alive && cfg.cancelOnDisconnect && cfg.cancelAllAfter > 0 && s.ready && DueAt(cfg, es) <= now then
        [CancelAllAfter(cfg.cancelAllAfter / 1000000)]
      else
        []
  {
    NextIsDue(cfg, es);
  }

  /** The countdowns asked for, in order. */
  function Cancels(ns: seq<Notice>): seq<int> {
    if ns == [] then [] else Cancels(DropLast(ns)) + if Last(ns).CancelAllAfter? then [Last(ns).millis] else []
  }

  lemma {:induction false} CancelsConcat(a: seq<Notice>, b: seq<Notice>)
    ensures Cancels(a + b) == Cancels(a) + Cancels(b)
  {
    if b == [] {
      assert a + b == a;
    } else {
      assert DropLast(a + b) == a + DropLast(b);
      CancelsConcat(a, DropLast(b));
    }
  }

  lemma {:induction false} NoCancels(ns: seq<Notice>)
    requires forall n :: n in ns ==> !n.CancelAllAfter?
    ensures Cancels(ns) == []
  {
    if ns != [] {
      assert Last(ns) in ns && forall n :: n in DropLast(ns) ==> n in ns;
      NoCancels(DropLast(ns));
    }
  }

  lemma OneCancel(millis: int)
    ensures Cancels([CancelAllAfter(millis)]) == [millis]
  {
    var one := [CancelAllAfter(millis)];
    assert DropLast(one) == [] && Cancels([]) == [];
  }

  /** The countdowns that should be asked for at one event: if the switch is off, none at each welcome; if it is
      on, the time-out in whole milliseconds at each tick that finds the stream alive, ready and due. */
  function ShouldCancelAt(cfg: Config, front: seq<Event>, e: Event): seq<int>
    requires IsRun(front)
  {
    if cfg.cancelOnDisconnect && cfg.cancelAllAfter > 0 then
      if e.Tick? && e.alive && After(cfg, FRESH, front).0.ready && DueAt(cfg, front) <= e.now then
        [cfg.cancelAllAfter / 1000000]
      else
        []
    else if e == Welcome then
      [0]
    else
      []
  }

  function ShouldCancel(cfg: Config, es: seq<Event>): seq<int>
    requires IsRun(es)
  {
    if es == [] then
      []
    else
      RunPrefix(es);
      ShouldCancel(cfg, DropLast(es)) + ShouldCancelAt(cfg, DropLast(es), Last(es))
  }

  lemma {:induction false} StagesCancelNothing(s: Session, stages: seq<nat>)
    ensures forall n :: n in EnterAll(s, stages).1 ==> !n.CancelAllAfter?
  {
    if stages != [] {
      StagesCancelNothing(s, DropLast(stages));
    }
  }

  lemma WelcomeCancels(cfg: Config, s: Session)
    ensures Cancels(Handle(cfg, s, Welcome).1) == if cfg.cancelOnDisconnect && cfg.cancelAllAfter > 0 then [] else [0]
  {
    SessionSays(cfg, s);
    var first := [Report(Fetching("subscribe")), Subscribe(["execution", "order", "margin", "position"])];
    NoCancels(first);
    OneCancel(0);
    CancelsConcat(first, if cfg.cancelOnDisconnect && cfg.cancelAllAfter > 0 then [] else [CancelAllAfter(0)]);
  }

  lemma OthersCancelNothing(cfg: Config, s: Session, e: Event)
    requires Proper(e) && e != Welcome && !e.Tick?
    ensures Cancels(Handle(cfg, s, e).1) == []
  {
    if e.Executions? {
      ExecutionsReportNothing(e.executions, e.answers);
    } else if e.Orders? {
      var (download, entered) := CheckRelaxed(STAGES, s.download, 0);
      StagesCancelNothing(s.(orders := true, download := download), entered);
    }
    NoCancels(Handle(cfg, s, e).1);
  }

  lemma EventCancels(cfg: Config, front: seq<Event>, e: Event)
    requires IsRun(front) && Proper(e)
    ensures Cancels(Handle(cfg, After(cfg, FRESH, front).0, e).1) == ShouldCancelAt(cfg, front, e)
  {
    if e == Welcome {
      WelcomeCancels(cfg, After(cfg, FRESH, front).0);
    } else if e.Tick? {
      TickSendsExactlyWhen(cfg, front, e.now, e.alive);
      OneCancel(cfg.cancelAllAfter / 1000000);
    } else {
      OthersCancelNothing(cfg, After(cfg, FRESH, front).0, e);
    }
  }

  /** Over every run from the start, for any configuration, exactly those countdowns are asked for. */
  lemma {:induction false} CancelsExactly(cfg: Config, es: seq<Event>)
    requires IsRun(es)
    ensures Cancels(After(cfg, FRESH, es).1) == ShouldCancel(cfg, es)
  {
    if es != [] {
      RunPrefix(es);
      var front, e := DropLast(es), Last(es);
      var (s, sent) := After(cfg, FRESH, front);
      CancelsExactly(cfg, front);
      EventCancels(cfg, front, e);
      CancelsConcat(sent, Handle(cfg, s, e).1);
    }
  }

  /** If either option is off, no countdown but zero is ever asked for. */
  lemma {:induction false} DisabledNeverArms(cfg: Config, es: seq<Event>)
    requires IsRun(es) && !(cfg.cancelOnDisconnect && cfg.cancelAllAfter > 0)
    ensures forall millis :: millis in Cancels(After(cfg, FRESH, es).1) ==> millis == 0
  {
    if es != [] {
      RunPrefix(es);
      DisabledNeverArms(cfg, DropLast(es));
      CancelsExactly(cfg, DropLast(es));
    }
    CancelsExactly(cfg, es);
  }
}

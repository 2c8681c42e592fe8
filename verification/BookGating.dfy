/** When the order-book latch is open, over every sequence of messages and disconnects, well-formed or not. */
module BookGating {
  import opened Common
  import opened PriceCaching
  import opened OrderBook

  datatype Event =
    | Message(action: Action, items: seq<Level>, rejected: set<nat>)
    | Disconnected
    | Other

  datatype Gate = Gate(latch: bool, prices: Prices)

  function Read(discard: Discard, g: Gate, e: Event): Step
    requires e.Message?
  {
    OnMessage(discard, g.latch, g.prices, e.action, e.items, e.rejected)
  }

  function Next(discard: Discard, g: Gate, e: Event): Gate {
    match e
    case Message(_, _, _) => Gate(Read(discard, g, e).latch, Read(discard, g, e).prices)
    case Disconnected => g.(latch := false)
    case Other => g
  }

  /** The event is a partial that is read to its end. */
  predicate Opens(discard: Discard, g: Gate, e: Event) {
    e.Message? && e.action == Partial && Read(discard, g, e).outcome == Completed
  }

  /** The event is a disconnect, or a message with a rejected book other than a completed partial. */
  predicate Shuts(discard: Discard, g: Gate, e: Event) {
    e.Disconnected? || (e.Message? && !Opens(discard, g, e) && AnyRejected(Read(discard, g, e).published, e.rejected))
  }

  lemma LatchStep(discard: Discard, g: Gate, e: Event)
    ensures Next(discard, g, e).latch == (Opens(discard, g, e) || (g.latch && !Shuts(discard, g, e)))
    ensures !(Opens(discard, g, e) && Shuts(discard, g, e))
  {
    if e.Message? {
      var step := Read(discard, g, e);
      assert step.outcome == Dropped ==> step.published == [] && !AnyRejected(step.published, e.rejected);
    }
  }

  /** A run from a closed latch: the gate before each event, and after the last. */
  ghost predicate IsRun(discard: Discard, gates: seq<Gate>, es: seq<Event>) {
    && |gates| == |es| + 1 && !gates[0].latch
    && forall i :: 0 <= i < |es| ==> gates[i + 1] == Next(discard, gates[i], es[i])
  }

  /** Event `k` opened the latch and nothing shut it before event `n`. */
  ghost predicate OpenSince(discard: Discard, gates: seq<Gate>, es: seq<Event>, k: nat, n: nat) {
    && k < n <= |es| <= |gates| && Opens(discard, gates[k], es[k])
    && forall i :: k < i < n ==> !Shuts(discard, gates[i], es[i])
  }

  lemma OpenSinceGrows(discard: Discard, gates: seq<Gate>, es: seq<Event>, k: nat, n: nat, next: nat)
    requires n < |es| <= |gates| && next == n + 1
    ensures OpenSince(discard, gates, es, k, next) <==>
              (k == n && Opens(discard, gates[n], es[n]))
                || (OpenSince(discard, gates, es, k, n) && !Shuts(discard, gates[n], es[n]))
  {
  }

  /** The latch is open exactly when a partial was completed and since then nothing was disconnected and
      no book was rejected, but by a completed partial. */
  lemma {:induction false} LatchOpenExactlyWhen(discard: Discard, gates: seq<Gate>, es: seq<Event>, n: nat)
    requires IsRun(discard, gates, es) && n <= |es|
    ensures gates[n].latch <==> exists k :: OpenSince(discard, gates, es, k, n)
  {
    if n > 0 {
      var last := n - 1;
      LatchOpenExactlyWhen(discard, gates, es, last);
      LatchStep(discard, gates[last], es[last]);
      assert gates[last + 1] == Next(discard, gates[last], es[last]);
      forall k: nat {
        OpenSinceGrows(discard, gates, es, k, last, n);
      }
      if Opens(discard, gates[last], es[last]) {
        assert OpenSince(discard, gates, es, last, n);
      }
    }
  }

  /** An incremental message publishes or touches the cache only if a partial was completed before it,
      with no disconnect and no rejected book since. */
  lemma IncrementalNeedsOpenLatch(discard: Discard, gates: seq<Gate>, es: seq<Event>, n: nat)
    requires IsRun(discard, gates, es) && n < |es| && es[n].Message? && es[n].action != Partial
    requires Read(discard, gates[n], es[n]).published != [] || gates[n + 1] != gates[n]
    ensures exists k :: OpenSince(discard, gates, es, k, n)
  {
    LatchOpenExactlyWhen(discard, gates, es, n);
    assert gates[n + 1] == Next(discard, gates[n], es[n]);
  }

  /** From a shut until the next completed partial the latch is closed, and incremental messages are
      dropped without touching the cache. */
  lemma {:induction false} DroppedUntilPartial(discard: Discard, gates: seq<Gate>, es: seq<Event>, i: nat, n: nat)
    requires IsRun(discard, gates, es) && i < n <= |es| && Shuts(discard, gates[i], es[i])
    requires forall k :: i < k < n ==> !Opens(discard, gates[k], es[k])
    ensures !gates[n].latch
    ensures n < |es| && es[n].Message? && es[n].action != Partial ==>
              Read(discard, gates[n], es[n]) == Step(false, gates[n].prices, [], Dropped) && gates[n + 1] == gates[n]
  {
    LatchStep(discard, gates[n - 1], es[n - 1]);
    assert gates[n - 1 + 1] == Next(discard, gates[n - 1], es[n - 1]);
    if i + 1 < n {
      DroppedUntilPartial(discard, gates, es, i, n - 1);
    }
    if n < |es| {
      assert gates[n + 1] == Next(discard, gates[n], es[n]);
    }
  }
}

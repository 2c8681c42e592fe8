/** The cancel-all-after switch: when it is renewed, and when the exchange's countdown can expire. Times
    are in nanoseconds. */
module DeadMansSwitch {
  import opened Common

  const NANOS_PER_MILLI := 1_000_000

  /** The countdown asked for: whole milliseconds. */
  function Countdown(timeout: nat): nat {
    timeout / NANOS_PER_MILLI * NANOS_PER_MILLI
  }

  /** A tick renews the switch when the time set at the last renewal has come. */
  predicate Renews(next: int, now: int) {
    next <= now
  }

  function NextAfter(timeout: nat, next: int, now: int): int {
    if Renews(next, now) then now + timeout / 4 else next
  }

  /** The renewal time set after the first `n` ticks of a session; a session starts with none. */
  function NextAt(timeout: nat, ticks: seq<int>, n: nat): int
    requires n <= |ticks|
  {
    if n == 0 then 0 else NextAfter(timeout, NextAt(timeout, ticks, n - 1), ticks[n - 1])
  }

  predicate SendsAt(timeout: nat, ticks: seq<int>, n: nat)
    requires n < |ticks|
  {
    Renews(NextAt(timeout, ticks, n), ticks[n])
  }

  /** The last send before tick `n`. */
  function LastSend(timeout: nat, ticks: seq<int>, n: nat): int
    requires 0 < n <= |ticks|
  {
    if n == 1 || SendsAt(timeout, ticks, n - 1) then ticks[n - 1] else LastSend(timeout, ticks, n - 1)
  }

  /** Ticks from time zero on, in order, at most `gap` apart. */
  predicate Paced(ticks: seq<int>, gap: nat) {
    && (ticks != [] ==> ticks[0] >= 0)
    && forall i :: 0 < i < |ticks| ==> ticks[i - 1] <= ticks[i] <= ticks[i - 1] + gap
  }

  /** The first tick of a session sends, and the renewal time is always a quarter of the time-out after
      the last send. */
  lemma {:induction false} RenewalFollowsLastSend(timeout: nat, ticks: seq<int>, gap: nat, n: nat)
    requires Paced(ticks, gap) && 0 < n <= |ticks|
    ensures SendsAt(timeout, ticks, 0)
    ensures NextAt(timeout, ticks, n) == LastSend(timeout, ticks, n) + timeout / 4
    ensures LastSend(timeout, ticks, n) <= ticks[n - 1]
    ensures ticks[n - 1] < NextAt(timeout, ticks, n) || ticks[n - 1] == LastSend(timeout, ticks, n)
  {
    assert NextAt(timeout, ticks, 0) == 0;
    if n > 1 {
      RenewalFollowsLastSend(timeout, ticks, gap, n - 1);
      assert ticks[n - 2] <= ticks[n - 1];
    } else {
      assert NextAt(timeout, ticks, 1) == NextAfter(timeout, 0, ticks[0]);
    }
  }

  /** The switch is not renewed too often: consecutive sends are at least a quarter of the time-out apart. */
  lemma SendsAreSpaced(timeout: nat, ticks: seq<int>, gap: nat, n: nat)
    requires Paced(ticks, gap) && 0 < n < |ticks| && SendsAt(timeout, ticks, n)
    ensures ticks[n] - LastSend(timeout, ticks, n) >= timeout / 4
  {
    RenewalFollowsLastSend(timeout, ticks, gap, n);
  }

  /** Between the first tick of the session and tick `n` the countdown did not run out. */
  predicate AliveAt(timeout: nat, ticks: seq<int>, n: nat)
    requires 0 < n < |ticks|
  {
    ticks[n] - LastSend(timeout, ticks, n) < Countdown(timeout)
  }

  /** No session with ticks at most `gap` apart lets the countdown run out. */
  ghost predicate NeverExpires(timeout: nat, gap: nat) {
    forall ticks: seq<int>, n: nat :: Paced(ticks, gap) && 0 < n < |ticks| ==> AliveAt(timeout, ticks, n)
  }

  lemma StaysAlive(timeout: nat, ticks: seq<int>, gap: nat, n: nat)
    requires timeout / 4 + gap <= Countdown(timeout) && 0 < gap
    requires Paced(ticks, gap) && 0 < n < |ticks|
    ensures AliveAt(timeout, ticks, n)
  {
    RenewalFollowsLastSend(timeout, ticks, gap, n);
    assert ticks[n] <= ticks[n - 1] + gap;
  }

  /** The slowest session: ticks up to just before the renewal, then one full gap. */
  function SlowestTicks(timeout: nat, gap: nat): (ticks: seq<int>)
    ensures var m := if timeout / 4 > 0 then timeout / 4 else 1;
      && |ticks| == m + 1 && (forall i :: 0 <= i < m ==> ticks[i] == i) && ticks[m] == m - 1 + gap
  {
    var m := if timeout / 4 > 0 then timeout / 4 else 1;
    seq(m + 1, i requires 0 <= i <= m => if i < m then i else m - 1 + gap)
  }

  lemma {:induction false} SlowestSendsOnce(timeout: nat, gap: nat, n: nat)
    requires 0 < gap && 0 < n < |SlowestTicks(timeout, gap)|
    ensures Paced(SlowestTicks(timeout, gap), gap)
    ensures LastSend(timeout, SlowestTicks(timeout, gap), n) == 0
  {
    var ticks := SlowestTicks(timeout, gap);
    if n > 1 {
      SlowestSendsOnce(timeout, gap, n - 1);
      RenewalFollowsLastSend(timeout, ticks, gap, n - 1);
    }
  }

  /** Dead man's switch: the countdown never runs out, from the first tick of a session on, exactly when
      a quarter of the time-out and the longest gap between ticks fit into the countdown. In particular a
      time-out below one millisecond asks for no countdown at all and never qualifies. */
  lemma NeverExpiresExactlyWhen(timeout: nat, gap: nat)
    requires 0 < gap
    ensures NeverExpires(timeout, gap) <==> timeout / 4 + gap <= Countdown(timeout)
  {
    if timeout / 4 + gap <= Countdown(timeout) {
      forall ticks: seq<int>, n: nat | Paced(ticks, gap) && 0 < n < |ticks| ensures AliveAt(timeout, ticks, n) {
        StaysAlive(timeout, ticks, gap, n);
      }
    } else {
      var ticks := SlowestTicks(timeout, gap);
      var m := |ticks| - 1;
      SlowestSendsOnce(timeout, gap, m);
      assert !AliveAt(timeout, ticks, m);
    }
  }

  /** The countdown in literal units: whole milliseconds, in nanoseconds. */
  lemma CountdownIs(timeout: nat)
    ensures Countdown(timeout) == timeout / 1000000 * 1000000
  {
  }

  /** A time-out just below one millisecond, with ticks a nanosecond apart, lets the countdown run out. */
  lemma ShortTimeoutExpires()
    ensures Countdown(999999) == 0 && !NeverExpires(999999, 1)
  {
    NeverExpiresExactlyWhen(999999, 1);
  }
}

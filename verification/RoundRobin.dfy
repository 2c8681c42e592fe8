/** Which order-entry connection takes the next request. */
module RoundRobin {
  import opened Common

  /** Offset `k` from the cursor, around the ring. */
  function Around(n: nat, index: nat, k: nat): (i: nat)
    requires index < n && k < n
    ensures i < n
  {
    if index + k < n then index + k else index + k - n
  }

  /** How far `i` lies ahead of the cursor. */
  function Ahead(n: nat, index: nat, i: nat): (k: nat)
    requires index < n && i < n
    ensures k < n && Around(n, index, k) == i
  {
    if i >= index then i - index else i + n - index
  }

  predicate AnyReady(ready: seq<bool>) {
    exists i :: 0 <= i < |ready| && ready[i]
  }

  /** The ready connection nearest ahead of the cursor. */
  ghost predicate IsNearest(ready: seq<bool>, index: nat, i: nat) {
    && index < |ready| && i < |ready| && ready[i]
    && forall j :: 0 <= j < |ready| && ready[j] ==> Ahead(|ready|, index, i) <= Ahead(|ready|, index, j)
  }

  class OrderEntryRR {
    const length: nat
    var index: nat

    ghost predicate Valid()
      reads this
    {
      if length == 0 then index == 0 else index < length
    }

    constructor (length: nat)
      ensures Valid() && this.length == length && index == 0
    {
      this.length := length;
      index := 0;
    }

    /** Choose the ready connection nearest ahead of the cursor and move the cursor past it; fail, and
        leave the cursor, exactly when none is ready. */
    method GetNext(ready: seq<bool>) returns (chosen: Option<nat>)
      requires Valid() && |ready| == length
      modifies this
      ensures Valid()
      ensures chosen.Some? <==> AnyReady(ready)
      ensures chosen.None? ==> index == old(index)
      ensures chosen.Some? ==> IsNearest(ready, old(index), chosen.value) && index == (chosen.value + 1) % length
    {
      var offset := 0;
      while offset < length
        invariant offset <= length && index == old(index) && Valid()
        invariant forall k :: 0 <= k < offset ==> !ready[Around(length, index, k)]
      {
        var candidate := (index + offset) % length;
        WrapsOnce(index + offset, length);
        assert candidate == Around(length, index, offset);
        if ready[candidate] {
          forall j | 0 <= j < length && ready[j] ensures offset <= Ahead(length, index, j) {
            assert Around(length, index, Ahead(length, index, j)) == j;
          }
          index := (candidate + 1) % length;
          return Some(candidate);
        }
        offset := offset + 1;
      }
      forall j | 0 <= j < length ensures !ready[j] {
        assert Around(length, index, Ahead(length, index, j)) == j;
      }
      chosen := None;
    }
  }

  lemma WrapsOnce(a: nat, n: nat)
    requires 0 < n && a < 2 * n
    ensures a % n == if a < n then a else a - n
  {
  }

  // ---- sequences of calls ----

  /** The cursor after a choice. */
  function Past(n: nat, i: nat): (index: nat)
    requires i < n
    ensures index < n
  {
    if i + 1 < n then i + 1 else 0
  }

  /** A history of successful calls: what was ready, what was chosen and the cursor between calls. */
  ghost predicate IsHistory(n: nat, ready: seq<seq<bool>>, chosen: seq<nat>, index: seq<nat>) {
    && |ready| == |chosen| && |index| == |chosen| + 1
    && (forall t :: 0 <= t < |index| ==> index[t] < n)
    && forall t :: 0 <= t < |chosen| ==>
       |ready[t]| == n && IsNearest(ready[t], index[t], chosen[t]) && index[t + 1] == Past(n, chosen[t])
  }

  /** The contract of `GetNext` makes each successful call a step of a history. */
  lemma ChoiceIsStep(n: nat, ready: seq<bool>, index: nat, chosen: nat, next: nat)
    requires |ready| == n && IsNearest(ready, index, chosen) && next == (chosen + 1) % n
    ensures IsHistory(n, [ready], [chosen], [index, next])
  {
    WrapsOnce(chosen + 1, n);
  }

  /** A call that passes over a ready connection brings the cursor nearer to it. */
  lemma CursorApproaches(ready: seq<bool>, index: nat, chosen: nat, i: nat)
    requires IsNearest(ready, index, chosen) && i < |ready| && ready[i] && chosen != i
    ensures Ahead(|ready|, Past(|ready|, chosen), i) == Ahead(|ready|, index, i) - Ahead(|ready|, index, chosen) - 1
    ensures Ahead(|ready|, Past(|ready|, chosen), i) < Ahead(|ready|, index, i)
  {
    assert Around(|ready|, index, Ahead(|ready|, index, i)) == i;
    assert Around(|ready|, index, Ahead(|ready|, index, chosen)) == chosen;
  }

  /** Bounded waiting: a connection that is ready at every call is chosen within any `n` consecutive
      successful calls, whatever the others do; it waits for no more calls than it lies ahead. */
  lemma {:induction false} ChosenWithinARound(
    n: nat, ready: seq<seq<bool>>, chosen: seq<nat>, index: seq<nat>, i: nat, t: nat)
    returns (u: nat)
    requires IsHistory(n, ready, chosen, index) && i < n
    requires t + n <= |chosen| && forall v :: t <= v < t + n ==> ready[v][i]
    ensures t <= u <= t + Ahead(n, index[t], i) && u < t + n && chosen[u] == i
  {
    u := Awaits(n, ready, chosen, index, i, t);
  }

  lemma {:induction false} Awaits(n: nat, ready: seq<seq<bool>>, chosen: seq<nat>, index: seq<nat>, i: nat, t: nat)
    returns (u: nat)
    requires IsHistory(n, ready, chosen, index) && i < n && t < |index|
    requires t + Ahead(n, index[t], i) < |chosen| && forall v :: t <= v <= t + Ahead(n, index[t], i) ==> ready[v][i]
    ensures t <= u <= t + Ahead(n, index[t], i) && chosen[u] == i
    decreases Ahead(n, index[t], i)
  {
    assert IsNearest(ready[t], index[t], chosen[t]);
    if chosen[t] == i {
      u := t;
    } else {
      CursorApproaches(ready[t], index[t], chosen[t], i);
      u := Awaits(n, ready, chosen, index, i, t + 1);
    }
  }

  function Count(chosen: seq<nat>, i: nat): nat {
    if chosen == [] then 0 else Count(DropLast(chosen), i) + if Last(chosen) == i then 1 else 0
  }

  /** Balance: two connections that are both ready at every call are chosen alternately, whatever the
      others do, so their counts never differ by more than one. The one that starts nearer is ahead. */
  lemma {:induction false} AlwaysReadyAreBalanced(
    n: nat, ready: seq<seq<bool>>, chosen: seq<nat>, index: seq<nat>, i: nat, j: nat, t: nat)
    requires IsHistory(n, ready, chosen, index) && i < n && j < n && i != j && t <= |chosen|
    requires forall v :: 0 <= v < t ==> ready[v][i] && ready[v][j]
    requires Ahead(n, index[0], i) < Ahead(n, index[0], j)
    ensures Count(chosen[..t], i) - Count(chosen[..t], j) == if Ahead(n, index[t], i) < Ahead(n, index[t], j) then 0
                                                             else 1
  {
    if t > 0 {
      var v := t - 1;
      AlwaysReadyAreBalanced(n, ready, chosen, index, i, j, v);
      assert DropLast(chosen[..t]) == chosen[..v];
      assert IsNearest(ready[v], index[v], chosen[v]) && index[v + 1] == Past(n, chosen[v]);
      NearerIsFirst(ready[v], index[v], chosen[v], i, j);
    }
  }

  lemma CountsDifferByAtMostOne(n: nat, ready: seq<seq<bool>>, chosen: seq<nat>, index: seq<nat>, i: nat, j: nat)
    requires IsHistory(n, ready, chosen, index) && i < n && j < n
    requires forall v :: 0 <= v < |chosen| ==> ready[v][i] && ready[v][j]
    ensures -1 <= Count(chosen, i) - Count(chosen, j) <= 1
  {
    assert chosen[..|chosen|] == chosen;
    assert Around(n, index[0], Ahead(n, index[0], i)) == i && Around(n, index[0], Ahead(n, index[0], j)) == j;
    if Ahead(n, index[0], i) < Ahead(n, index[0], j) {
      AlwaysReadyAreBalanced(n, ready, chosen, index, i, j, |chosen|);
    } else if i != j {
      AlwaysReadyAreBalanced(n, ready, chosen, index, j, i, |chosen|);
    }
  }

  /** How one call reorders two ready connections. */
  lemma NearerIsFirst(ready: seq<bool>, index: nat, chosen: nat, i: nat, j: nat)
    requires IsNearest(ready, index, chosen) && i < |ready| && j < |ready| && ready[i] && ready[j] && i != j
    ensures var n := |ready|;
      var nearer := Ahead(n, index, i) < Ahead(n, index, j);
      var nearer' := Ahead(n, Past(n, chosen), i) < Ahead(n, Past(n, chosen), j);
      && (chosen == i ==> nearer && !nearer')
      && (chosen == j ==> !nearer && nearer')
      && (chosen != i && chosen != j ==> nearer == nearer')
  {
    var n := |ready|;
    assert Around(n, index, Ahead(n, index, i)) == i && Around(n, index, Ahead(n, index, j)) == j;
    if chosen != i {
      CursorApproaches(ready, index, chosen, i);
    }
    if chosen != j {
      CursorApproaches(ready, index, chosen, j);
    }
  }
}

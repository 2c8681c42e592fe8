/** The ids given to the gateway's streams. */
module StreamIds {
  import opened Common

  // stream ids are 16 bits wide
  const WIDTH := 65536

  /** The `n` ids that follow `last`, in the order they are given out. */
  function IdsAfter(last: nat, n: nat): (ids: seq<nat>)
    ensures |ids| == n && forall k :: 0 <= k < n ==> ids[k] == (last + k + 1) % WIDTH
  {
    seq(n, k requires 0 <= k < n => (last + k + 1) % WIDTH)
  }

  function Ids(n: nat): seq<nat> {
    IdsAfter(0, n)
  }

  function Flatten(xss: seq<seq<nat>>): seq<nat> {
    if xss == [] then [] else Flatten(DropLast(xss)) + Last(xss)
  }

  datatype Streams = Streams(orderEntry: seq<seq<nat>>, dropCopy: seq<nat>, marketData: nat)

  function AllIds(s: Streams): seq<nat> {
    Flatten(s.orderEntry) + s.dropCopy + [s.marketData]
  }

  lemma NextId(last: nat, n: nat)
    ensures ((last + n) % WIDTH + 1) % WIDTH == (last + n + 1) % WIDTH
    ensures IdsAfter(last, n + 1) == IdsAfter(last, n) + [(last + n + 1) % WIDTH]
  {
  }

  lemma IdsConcat(last: nat, n: nat, m: nat)
    ensures IdsAfter(last, n) + IdsAfter(last + n, m) == IdsAfter(last, n + m)
  {
  }

  lemma FlattenAppend(xss: seq<seq<nat>>, xs: seq<nat>)
    ensures Flatten(xss + [xs]) == Flatten(xss) + xs
  {
    assert DropLast(xss + [xs]) == xss;
  }

  /** The order-entry connections of one account. The ghost `given` counts the ids given out before. */
  method CreateConnections(connections: nat, last: nat, ghost given: nat) returns (streamId: nat, account: seq<nat>)
    requires last == given % WIDTH
    ensures streamId == (given + connections) % WIDTH && account == IdsAfter(given, connections)
  {
    streamId, account := last, [];
    for i := 0 to connections
      invariant streamId == (given + i) % WIDTH && account == IdsAfter(given, i)
    {
      streamId := (streamId + 1) % WIDTH;
      NextId(given, i);
      account := account + [streamId];
    }
  }

  /** Order entry, account by account. */
  method CreateOrderEntry(
    accounts: nat, connections: nat)
    returns (streamId: nat, orderEntry: seq<seq<nat>>, ghost given: nat)
    ensures given == accounts * connections && streamId == given % WIDTH
    ensures |orderEntry| == accounts && forall a :: 0 <= a < accounts ==> |orderEntry[a]| == connections
    ensures Flatten(orderEntry) == Ids(given)
  {
    streamId, orderEntry, given := 0, [], 0;
    for a := 0 to accounts
      invariant |orderEntry| == a && given == a * connections && streamId == given % WIDTH
      invariant forall b :: 0 <= b < a ==> |orderEntry[b]| == connections
      invariant Flatten(orderEntry) == Ids(given)
    {
      var account: seq<nat>;
      streamId, account := CreateConnections(connections, streamId, given);
      FlattenAppend(orderEntry, account);
      IdsConcat(0, given, connections);
      orderEntry := orderEntry + [account];
      given := given + connections;
    }
  }

  /** One drop copy per account. */
  method CreateDropCopy(accounts: nat, last: nat, ghost given: nat) returns (streamId: nat, dropCopy: seq<nat>)
    requires last == given % WIDTH
    ensures streamId == (given + accounts) % WIDTH && dropCopy == IdsAfter(given, accounts)
  {
    streamId, dropCopy := last, [];
    for a := 0 to accounts
      invariant streamId == (given + a) % WIDTH && dropCopy == IdsAfter(given, a)
    {
      streamId := (streamId + 1) % WIDTH;
      NextId(given, a);
      dropCopy := dropCopy + [streamId];
    }
  }

  /** Order entry first, then drop copy, market data last. Without order-entry connections the process
      ends. */
  method CreateStreams(accounts: nat, connections: nat) returns (streams: Option<Streams>)
    ensures streams.None? <==> connections == 0
    ensures streams.Some? ==>
      && |streams.value.orderEntry| == |streams.value.dropCopy| == accounts
      && (forall a :: 0 <= a < accounts ==> |streams.value.orderEntry[a]| == connections)
      && AllIds(streams.value) == Ids(accounts * (connections + 1) + 1)
  {
    if connections == 0 {
      return None;
    }
    var streamId, orderEntry, given := CreateOrderEntry(accounts, connections);
    var lastId, dropCopy := CreateDropCopy(accounts, streamId, given);
    streams := Some(Streams(orderEntry, dropCopy, (lastId + 1) % WIDTH));
    IdsConcat(0, given, accounts);
    NextId(0, given + accounts);
    assert given + accounts == accounts * (connections + 1);
  }

  predicate Distinct(xs: seq<nat>) {
    forall i, j :: 0 <= i < j < |xs| ==> xs[i] != xs[j]
  }

  /** The ids are pairwise distinct exactly when they fit the width, counting the zero they wrap to. */
  lemma DistinctExactlyWhen(n: nat)
    ensures Distinct(Ids(n)) <==> n <= 65536
  {
    var ids := Ids(n);
    if n > WIDTH {
      assert ids[0] == ids[WIDTH];
    } else {
      forall i, j | 0 <= i < j < n ensures ids[i] != ids[j] {
        assert (i + 1) % WIDTH == i + 1;
      }
    }
  }

  /** They are exactly 1, 2, ..., n in order exactly when the last of them does not wrap. */
  lemma NumberedExactlyWhen(n: nat)
    ensures (forall k :: 0 <= k < n ==> Ids(n)[k] == k + 1) <==> n < 65536
  {
    if n >= WIDTH {
      assert Ids(n)[WIDTH - 1] == 0;
    }
  }
}

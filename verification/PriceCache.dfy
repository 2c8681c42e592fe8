/** The cache that remembers at which price each level id was announced. */
module PriceCaching {
  import opened Common

  type Id = nat
  type Prices = map<Id, real>

  /** What one consultation returns. `Abort` is `log::fatal`: the process ends. */
  datatype Answer = Abort | Answer(price: Option<real>, size: real)

  datatype Request = Request(action: Action, id: Id, price: Option<real>, size: Option<real>)

  function AnswerTo(prices: Prices, r: Request): Answer {
    var size := if r.size.Some? then r.size.value else 0.0;
    var cached := if r.id in prices then Some(prices[r.id]) else r.price;
    match r.action
    case Undefined => Abort
    case Partial | Insert => if r.price.None? || r.size.None? then Abort else Answer(r.price, size)
    case Update | Delete => Answer(cached, size)
  }

  function PricesAfter(prices: Prices, r: Request): Prices {
    match r.action
    case Undefined | Update => prices
    case Partial | Insert =>
      if r.price.None? || r.size.None? || r.id in prices then prices else prices[r.id := r.price.value]
    case Delete => prices - {r.id}
  }

  class PriceCache {
    var lookup: Prices

    constructor ()
      ensures lookup == map[]
    {
      lookup := map[];
    }

    method Consult(r: Request) returns (a: Answer)
      modifies this
      ensures a == AnswerTo(old(lookup), r)
      ensures lookup == PricesAfter(old(lookup), r)
    {
      var result := r.price;
      match r.action {
        case Undefined =>
          return Abort;
        case Partial | Insert =>
          if r.price.Some? && r.size.Some? {
            if r.id !in lookup {
              lookup := lookup[r.id := r.price.value];
              result := Some(lookup[r.id]);
            } else {
              var previous := lookup[r.id];
              if r.price.value == previous {
                result := Some(previous);
              }
            }
          } else {
            return Abort;
          }
        case Update =>
          if r.id in lookup {
            result := Some(lookup[r.id]);
          }
        case Delete =>
          if r.id in lookup {
            result := Some(lookup[r.id]);
            lookup := lookup - {r.id};
          }
      }
      a := Answer(result, if r.size.None? then 0.0 else r.size.value);
    }
  }

  function PricesAfterAll(prices: Prices, rs: seq<Request>): Prices {
    if rs == [] then prices else PricesAfter(PricesAfterAll(prices, DropLast(rs)), Last(rs))
  }

  /** The requests that make the cache remember a price. */
  predicate Announces(r: Request, id: Id) {
    (r.action == Partial || r.action == Insert) && r.id == id && r.price.Some? && r.size.Some?
  }

  predicate Forgets(r: Request, id: Id) {
    r.action == Delete && r.id == id
  }

  /** Every announcement of the id was forgotten later. */
  ghost predicate AllForgotten(rs: seq<Request>, id: Id) {
    forall j :: 0 <= j < |rs| && Announces(rs[j], id) ==> exists i :: j < i < |rs| && Forgets(rs[i], id)
  }

  /** Request `k` announced the id at `p`, nothing forgot it since, and all earlier announcements were
      forgotten before. */
  ghost predicate AnnouncedAt(rs: seq<Request>, id: Id, k: nat, p: real) {
    && k < |rs|
    && Announces(rs[k], id) && rs[k].price == Some(p)
    && (forall j :: k <= j < |rs| ==> !Forgets(rs[j], id))
    && AllForgotten(rs[..k], id)
  }

  lemma AnnouncedAtGrows(front: seq<Request>, r: Request, id: Id, k: nat, p: real)
    ensures AnnouncedAt(front + [r], id, k, p) <==>
            (AnnouncedAt(front, id, k, p) && !Forgets(r, id)) ||
            (k == |front| && Announces(r, id) && r.price == Some(p) && AllForgotten(front, id))
  {
    var rs := front + [r];
    if k < |front| {
      assert rs[..k] == front[..k];
      assert rs[|front|] == r && forall j :: 0 <= j < |front| ==> rs[j] == front[j];
    } else if k == |front| {
      assert rs[..k] == front;
    }
  }

  lemma AnyAnnouncedGrows(front: seq<Request>, r: Request, id: Id, p: real)
    ensures (exists k :: AnnouncedAt(front + [r], id, k, p)) <==>
            ((exists k :: AnnouncedAt(front, id, k, p)) && !Forgets(r, id)) ||
            (Announces(r, id) && r.price == Some(p) && AllForgotten(front, id))
  {
    if k: nat :| AnnouncedAt(front + [r], id, k, p) {
      AnnouncedAtGrows(front, r, id, k, p);
    }
    if k: nat :| AnnouncedAt(front, id, k, p) {
      AnnouncedAtGrows(front, r, id, k, p);
    }
    AnnouncedAtGrows(front, r, id, |front|, p);
  }

  /** An id is cached at `p` exactly when some request announced it at `p`, nothing forgot it since,
      and it was not cached when it was announced: the first announcement wins, later ones do not
      change the price. */
  lemma {:induction false} FirstAnnouncementWins(rs: seq<Request>, id: Id, p: real)
    ensures (id in PricesAfterAll(map[], rs) && PricesAfterAll(map[], rs)[id] == p)
       <==> exists k :: AnnouncedAt(rs, id, k, p)
  {
    if rs != [] {
      var front, r := DropLast(rs), Last(rs);
      assert rs == front + [r];
      FirstAnnouncementWins(front, id, p);
      UncachedSinceForgotten(front, id);
      AnyAnnouncedGrows(front, r, id, p);
    }
  }

  /** An id is absent exactly when every announcement of it was forgotten later. */
  lemma {:induction false} UncachedSinceForgotten(rs: seq<Request>, id: Id)
    ensures id !in PricesAfterAll(map[], rs) <==> AllForgotten(rs, id)
  {
    if rs != [] {
      var front, r := DropLast(rs), Last(rs);
      assert rs == front + [r];
      UncachedSinceForgotten(front, id);
      AllForgottenGrows(front, r, id);
    }
  }

  lemma AllForgottenGrows(front: seq<Request>, r: Request, id: Id)
    ensures AllForgotten(front + [r], id) <==> Forgets(r, id) || (AllForgotten(front, id) && !Announces(r, id))
  {
    var rs := front + [r];
    assert rs[|front|] == r && forall j :: 0 <= j < |front| ==> rs[j] == front[j];
    if AllForgotten(rs, id) && !Forgets(r, id) {
      forall j | 0 <= j < |front| && Announces(front[j], id)
        ensures exists i :: j < i < |front| && Forgets(front[i], id)
      {
        assert Announces(rs[j], id);
        var i :| j < i < |rs| && Forgets(rs[i], id);
        assert Forgets(front[i], id);
      }
    }
    if AllForgotten(front, id) && !Announces(r, id) {
      forall j | 0 <= j < |rs| && Announces(rs[j], id) ensures exists i :: j < i < |rs| && Forgets(rs[i], id) {
        assert Announces(front[j], id);
        var i :| j < i < |front| && Forgets(front[i], id);
        assert Forgets(rs[i], id);
      }
    }
  }

  lemma {:induction false} PricesAfterConcat(prices: Prices, a: seq<Request>, b: seq<Request>)
    ensures PricesAfterAll(prices, a + b) == PricesAfterAll(PricesAfterAll(prices, a), b)
  {
    if b == [] {
      assert a + b == a;
    } else {
      assert DropLast(a + b) == a + DropLast(b);
      PricesAfterConcat(prices, a, DropLast(b));
    }
  }

  /** After any requests, the answer to an update or delete of an id is the price at which it was announced
      first since it was last deleted, whatever price the request carries; without such an announcement it is
      the price the request carries, if any. A partial or insert is answered with its own price, and ends the
      process without a price or a size; so does an unknown action. An absent size counts as zero. */
  lemma AnswerExactly(rs: seq<Request>, r: Request)
    ensures var answer := AnswerTo(PricesAfterAll(map[], rs), r);
      && (answer.Abort? <==> r.action == Undefined ||
                             ((r.action == Partial || r.action == Insert) && (r.price.None? || r.size.None?)))
      && (answer.Answer? ==> answer.size == if r.size.None? then 0.0 else r.size.value)
      && (answer.Answer? && (r.action == Partial || r.action == Insert) ==> answer.price == r.price)
      && (r.action == Action.Update || r.action == Delete ==>
            && (forall k, p :: AnnouncedAt(rs, r.id, k, p) ==> answer.price == Some(p))
            && (AllForgotten(rs, r.id) ==> answer.price == r.price)
            && (AllForgotten(rs, r.id) || exists k, p :: AnnouncedAt(rs, r.id, k, p)))
  {
    var prices := PricesAfterAll(map[], rs);
    UncachedSinceForgotten(rs, r.id);
    forall k: nat, p | AnnouncedAt(rs, r.id, k, p) ensures r.id in prices && prices[r.id] == p {
      FirstAnnouncementWins(rs, r.id, p);
    }
    if r.id in prices {
      FirstAnnouncementWins(rs, r.id, prices[r.id]);
    }
  }
}

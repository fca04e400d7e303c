/** Laws of the priority-list specification: what matching, resting and trimming keep. */
module PriorityLaws {
  import opened Orders
  import opened PriorityBook

  /** Matching leaves quantity over only when the rest of the side is out of reach. */
  lemma {:induction false} WalkExhausts(f: seq<Entry>, side: Side, limit: Option<int>, taker: nat, qty: nat)
    ensures var w := Walk(f, side, limit, taker, qty);
            w.left > 0 ==> w.rest == [] || !Crosses(side, limit, w.rest[0].price)
  {
    if !(qty == 0 || f == [] || !Crosses(side, limit, f[0].price)) && f[0].qty <= qty {
      WalkExhausts(f[1..], side, limit, taker, qty - f[0].qty);
    }
  }

  lemma {:induction false} WalkHolds(f: seq<Entry>, side: Side, limit: Option<int>, taker: nat, qty: nat, id: nat)
    ensures Holds(Walk(f, side, limit, taker, qty).rest, id) ==> Holds(f, id)
  {
    var w := Walk(f, side, limit, taker, qty);
    if Holds(w.rest, id) {
      var k :| 0 <= k < |w.rest| && w.rest[k].id == id;
      if qty == 0 || f == [] || !Crosses(side, limit, f[0].price) {
      } else if f[0].qty <= qty {
        WalkHolds(f[1..], side, limit, taker, qty - f[0].qty, id);
        var m :| 0 <= m < |f[1..]| && f[1..][m].id == id;
        assert f[m + 1].id == id;
      } else {
        assert f[k].id == id;
      }
    }
  }

  /** Resting does not touch the trades already made. */
  lemma RestFault(e: Engine, req: OrderRequest, qty: nat, trades: seq<Trade>)
    ensures RestBounded(e, req, qty, trades) == RestBounded(e, req, qty, []).(trades := trades)
  {
  }

  /** What is left of a swept order neither crosses nor collides with a resting id. */
  lemma SweepThenRest(b: Book, req: OrderRequest)
    requires req.kind.Limit?
    ensures var a := Arrive(b, req);
            && (a.rests > 0 ==> !WouldCross(a.book, req))
            && (Rests(a.book, req.id) ==> Rests(b, req.id))
  {
    var opp := Opposite(req.side);
    WalkExhausts(OnSide(b, opp), opp, LimitOf(req), req.id, req.qty);
    WalkHolds(OnSide(b, opp), opp, LimitOf(req), req.id, req.qty, req.id);
  }

  /** A fresh id never clashes. */
  lemma FreshNeverClashes(b: Book, req: OrderRequest)
    requires req.kind.Limit? || req.kind.PostOnly? ==> !Rests(b, req.id)
    ensures !Clashes(b, req)
  {
    hide Arrive, WouldCross, Rests;
    if req.kind.Limit? { SweepThenRest(b, req); }
  }

  /** The engine's own fill-or-kill test may also turn down an order for nothing. */
  lemma KillIsNeutral(b: Book, req: OrderRequest)
    requires req.kind.FOK?
    requires req.qty > 0 ==> Crossable(OnSide(b, Opposite(req.side)), Opposite(req.side), Some(req.price)) < req.qty
    ensures Arrive(b, req) == Arrival(b, [], 0)
  {
  }

  lemma FillIsAllowed(b: Book, req: OrderRequest)
    requires req.kind.FOK?
    requires req.qty > 0 ==> Crossable(OnSide(b, Opposite(req.side)), Opposite(req.side), Some(req.price)) >= req.qty
    ensures Arrive(b, req) == Sweep(b, req).(rests := 0)
  {
  }

  // ---------- a matching loop as a walk in progress ----------

  /** The trades so far plus the rest of the walk make up the whole walk. */
  ghost predicate Continues(w: Fills, done: seq<Trade>, f: seq<Entry>, side: Side, limit: Option<int>, taker: nat,
                            left: nat) {
    var r := Walk(f, side, limit, taker, left);
    w.trades == done + r.trades && w.rest == r.rest && w.left == r.left
  }

  lemma ContinueStep(w: Fills, done: seq<Trade>, f: seq<Entry>, side: Side, limit: Option<int>, taker: nat, left: nat)
    requires Continues(w, done, f, side, limit, taker, left)
    requires left > 0 && f != [] && Crosses(side, limit, f[0].price)
    ensures var fill := Min(left, f[0].qty);
            Continues(w, done + [Trade(f[0].id, taker, f[0].price, fill)],
                      if f[0].qty <= left then f[1..] else [f[0].(qty := f[0].qty - left)] + f[1..],
                      side, limit, taker, left - fill)
  {
  }

  lemma ContinueEnd(w: Fills, done: seq<Trade>, f: seq<Entry>, side: Side, limit: Option<int>, taker: nat, left: nat)
    requires Continues(w, done, f, side, limit, taker, left)
    requires left == 0 || f == [] || !Crosses(side, limit, f[0].price)
    ensures w == Fills(done, f, left)
  {
  }

  lemma NothingToFill(b: Book, req: OrderRequest)
    requires req.kind.FOK? && req.qty == 0
    ensures Arrive(b, req) == Arrival(b, [], 0)
  {
  }

  lemma CrossesByPrice(resting: Side, limit: int, price: int)
    ensures Crosses(resting, Some(limit), price) <==> if resting.Sell? then price <= limit else price >= limit
  {
  }

  lemma {:induction false} InsertLonger(f: seq<Entry>, side: Side, e: Entry)
    ensures |Insert(f, side, e)| == |f| + 1
  {
    if f != [] { InsertLonger(f[1..], side, e); }
  }

  // ---------- which ids rest after an operation ----------

  lemma {:induction false} InsertHolds(f: seq<Entry>, side: Side, e: Entry, id: nat)
    ensures Holds(Insert(f, side, e), id) ==> Holds(f, id) || e.id == id
  {
    var g := Insert(f, side, e);
    if Holds(g, id) && f != [] {
      var k :| 0 <= k < |g| && g[k].id == id;
      if Beats(side, e.price, f[0].price) {
        if k > 0 { assert f[k - 1].id == id; }
      } else if k > 0 {
        InsertHolds(f[1..], side, e, id);
        assert Insert(f[1..], side, e)[k - 1].id == id;
        if m :| 0 <= m < |f[1..]| && f[1..][m].id == id { assert f[m + 1].id == id; }
      } else {
        assert f[0].id == id;
      }
    }
  }

  lemma {:induction false} TrimHolds(f: seq<Entry>, x: nat, amount: Option<nat>, id: nat)
    ensures Holds(Trim(f, x, amount), id) ==> Holds(f, id)
  {
    var g := Trim(f, x, amount);
    if Holds(g, id) && f != [] {
      var k :| 0 <= k < |g| && g[k].id == id;
      var r := Trim(f[1..], x, amount);
      if g == r || k > 0 {
        assert r[if g == r then k else k - 1].id == id;
        TrimHolds(f[1..], x, amount, id);
        var m :| 0 <= m < |f[1..]| && f[1..][m].id == id;
        assert f[m + 1].id == id;
      } else {
        assert f[0].id == id;
      }
    }
  }

  lemma {:induction false} TrimRemoves(f: seq<Entry>, id: nat)
    ensures !Holds(Trim(f, id, None), id)
  {
    if f != [] {
      TrimRemoves(f[1..], id);
      var g, r := Trim(f, id, None), Trim(f[1..], id, None);
      forall k | 0 <= k < |g| ensures g[k].id != id {
        assert g == r || (g[0].id != id && (k > 0 ==> g[k] == r[k - 1]));
      }
    }
  }

  lemma TrimIssues(b: Book, x: nat, amount: Option<nat>, id: nat)
    ensures Rests(TrimBook(b, x, amount), id) ==> Rests(b, id)
  {
    TrimHolds(b.bids, x, amount, id);
    TrimHolds(b.asks, x, amount, id);
  }

  lemma ArriveIssues(b: Book, req: OrderRequest, id: nat)
    ensures Rests(Arrive(b, req).book, id) ==> Rests(b, id)
  {
    var opp := Opposite(req.side);
    hide Walk, Trim, Crossable;
    WalkHolds(OnSide(b, opp), opp, LimitOf(req), req.id, req.qty, id);
    TrimIssues(b, req.id, None, id);
  }

  lemma RestIssues(b: Book, req: OrderRequest, qty: nat, id: nat)
    ensures Rests(Rest(b, req, qty), id) ==> Rests(b, id) || req.id == id
  {
    InsertHolds(OnSide(b, req.side), req.side, Entry(req.id, req.price, qty), id);
  }

  lemma OnlyLimitRests(b: Book, req: OrderRequest)
    requires Arrive(b, req).rests > 0
    ensures req.kind.Limit? || req.kind.PostOnly?
  {
  }

  /** Only a submitted Limit or PostOnly order can be new on the book. */
  lemma AddIssues(b: Book, req: OrderRequest, id: nat)
    ensures Rests(Add(b, req).book, id) ==>
              Rests(b, id) || (req.id == id && (req.kind.Limit? || req.kind.PostOnly?))
  {
    hide Rests, Arrive, Rest, WouldCross;
    if Arrive(b, req).rests > 0 { OnlyLimitRests(b, req); }
    ArriveIssues(b, req, id);
    RestIssues(b, req, req.qty, id);
    RestIssues(Arrive(b, req).book, req, Arrive(b, req).rests, id);
  }
}

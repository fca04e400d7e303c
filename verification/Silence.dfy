/** When a message changes a book without publishing anything, told from the state before it:
    the risk verdict, the quantity within reach of the order's limit, and whether its price
    fits the axis. */
module Silence {
  import opened Orders
  import opened PriorityBook
  import opened EngineLaws
  import opened Ledgers
  import opened Sequencing
  import opened FeedLaws

  /** What the order could trade at once. */
  function Reach(b: Book, req: OrderRequest): nat {
    Crossable(OnSide(b, Opposite(req.side)), Opposite(req.side), Some(req.price))
  }

  /** The order would not be filled, and its price does not fit the axis. */
  predicate Refused(e: Engine, req: OrderRequest) {
    Reach(e.book, req) < req.qty && Reserve(e, req.price).None?
  }

  /** An added order is silent when risk accepts it, it can trade but not completely, and its
      price is refused; a replacement when risk declines it while the original rests, or when
      its price is refused and it either displaced a resting original or can trade. */
  predicate Silent<R>(setup: Setup<R>, desk: Desk<R>, info: OrderInfo, m: Msg) {
    match m
    case AddOrder(_, _, _, _, _, _, _) =>
      var req := AddRequest(m, info.side);
      && setup.risk.check(desk.risk, req, info.mpid, QuoteOf(desk.engine.book))
      && Refused(desk.engine, req) && Reach(desk.engine.book, req) > 0
    case OrderReplace(_, original, _, _, _) =>
      var req, d := AddRequest(m, info.side), Cleared(setup, desk, info, m);
      var rested := Rests(desk.engine.book, original);
      if !setup.risk.check(d.risk, req, info.mpid, QuoteOf(d.engine.book)) then rested
      else Refused(d.engine, req) && (rested || Reach(d.engine.book, req) > 0)
    case _ => false
  }

  /** With positive quantities an order trades exactly when something is within reach. */
  lemma TradesIfReach(b: Book, req: OrderRequest)
    requires Tidy(b) && req.kind.Limit? && req.qty > 0
    ensures Sweep(b, req).trades != [] <==> Reach(b, req) > 0
  {
    var f := OnSide(b, Opposite(req.side));
    assert Positive(f);
  }

  /** A limit order faults exactly when a remainder has no place. */
  lemma FaultExactly(e: Engine, req: OrderRequest)
    requires req.kind.Limit?
    ensures AddBounded(e, req).fault.Some? <==>
            Refused(e, req) || (Reach(e.book, req) < req.qty && Depth(Sweep(e.book, req).book) >= e.capacity)
  {
    var opp := Opposite(req.side);
    LeftOver(OnSide(e.book, opp), opp, Some(req.price), req.id, req.qty);
  }

  lemma {:induction false} TrimDrops(f: seq<Entry>, id: nat)
    requires Holds(f, id)
    ensures |Trim(f, id, None)| < |f|
  {
    if f[0].id == id {
      TrimShorter(f[1..], id, None);
    } else {
      var k :| 0 <= k < |f| && f[k].id == id;
      assert f[1..][k - 1].id == id;
      TrimDrops(f[1..], id);
    }
  }

  /** Removing a resting order frees a node. */
  lemma RemovalFrees(b: Book, id: nat)
    requires Rests(b, id)
    ensures Depth(TrimBook(b, id, None)) < Depth(b)
  {
    TrimShorter(b.bids, id, None);
    TrimShorter(b.asks, id, None);
    if Holds(b.bids, id) { TrimDrops(b.bids, id); } else { TrimDrops(b.asks, id); }
  }

  /** A message that risk lets through faults after trading, or with room in the arena, only
      because its price is refused. */
  lemma FaultIsRefusal(e: Engine, req: OrderRequest)
    requires Sound(e) && Tidy(e.book) && req.kind.Limit?
    requires Depth(e.book) < e.capacity || Sweep(e.book, req).trades != []
    ensures AddBounded(e, req).fault.Some? <==> Refused(e, req)
  {
    hide Sound, Tidy, Reach, Sweep;
    FaultExactly(e, req);
    SoundBook(e);
    SweepWellFormed(e.book, req);
    if AddBounded(e, req).fault == Some(ArenaExhausted) {
      ExhaustedTradesNothing(e, req);
      BookAfter(e, req);
    }
  }

  /** The two descriptions of a silent message agree. */
  lemma SilentExactly<R>(setup: Setup<R>, desk: Desk<R>, info: OrderInfo, m: Msg)
    requires Sound(desk.engine) && Tidy(desk.engine.book) && FreshAt(desk.engine.book, m)
    ensures Silent(setup, desk, info, m) <==> Unannounced(setup, desk, info, m)
  {
    hide Sound, Tidy, AddBounded, Sweep, Refused, Reach;
    match m {
      case AddOrder(_, _, _, _, _, _, _) => SilentAdd(setup, desk, info, m);
      case OrderReplace(_, _, _, _, _) => SilentReplace(setup, desk, info, m);
      case _ =>
    }
  }

  lemma SilentAdd<R>(setup: Setup<R>, desk: Desk<R>, info: OrderInfo, m: Msg)
    requires m.AddOrder? && Sound(desk.engine) && Tidy(desk.engine.book)
    ensures Silent(setup, desk, info, m) <==> Unannounced(setup, desk, info, m)
  {
    var e, req := desk.engine, AddRequest(m, info.side);
    EnterShape(setup, desk, req, info.mpid);
    FaultExactly(e, req);
    if req.qty > 0 { TradesIfReach(e.book, req); }
    if Sweep(e.book, req).trades != [] { FaultIsRefusal(e, req); }
    hide Sound, Tidy, AddBounded, Sweep, Reach;
  }

  lemma SilentReplace<R>(setup: Setup<R>, desk: Desk<R>, info: OrderInfo, m: Msg)
    requires m.OrderReplace? && Sound(desk.engine) && Tidy(desk.engine.book)
    ensures Silent(setup, desk, info, m) <==> Unannounced(setup, desk, info, m)
  {
    var req, d := AddRequest(m, info.side), Cleared(setup, desk, info, m);
    EnterShape(setup, d, req, info.mpid);
    TrimSound(desk.engine, m.original, None);
    TrimOrders(desk.engine.book, m.original, None, 0);
    FaultExactly(d.engine, req);
    if req.qty > 0 { TradesIfReach(d.engine.book, req); }
    if Rests(desk.engine.book, m.original) {
      RemovalFrees(desk.engine.book, m.original);
      FaultIsRefusal(d.engine, req);
    } else if Sweep(d.engine.book, req).trades != [] {
      FaultIsRefusal(d.engine, req);
    }
    hide Tidy, AddBounded, Sweep, Reach;
  }
}

/** The public feed determines the book: what a subscriber's builder holds after the
    published events is exactly what rests in the engines, unless a message changed a book
    without publishing anything; those messages are characterised exactly. Also: every
    resting order stays routable. */
module FeedLaws {
  import opened Orders
  import opened PriorityBook
  import opened PriorityLaws
  import opened EngineLaws
  import opened Wire
  import opened MarketData
  import opened Snapshots
  import opened Ledgers
  import opened Sequencing

  // ---------- a book as a map from ids to orders ----------

  function OrderIn(f: seq<Entry>, side: Side, id: nat): Option<RestingOrder> {
    if f == [] then None
    else if f[0].id == id then Some(RestingOrder(side, f[0].price, f[0].qty))
    else OrderIn(f[1..], side, id)
  }

  function OrderOf(b: Book, id: nat): Option<RestingOrder> {
    var o := OrderIn(b.bids, Buy, id);
    if o.Some? then o else OrderIn(b.asks, Sell, id)
  }

  /** Take shares off an order, dropping it at zero: what the subscriber does. */
  function Less(o: Option<RestingOrder>, qty: nat): Option<RestingOrder> {
    if o.None? || qty >= o.value.qty then None else Some(o.value.(qty := o.value.qty - qty))
  }

  function LessTrades(o: Option<RestingOrder>, trades: seq<Trade>, id: nat): Option<RestingOrder>
    decreases trades
  {
    if trades == [] then o
    else LessTrades(if trades[0].makerId == id then Less(o, trades[0].qty) else o, trades[1..], id)
  }

  ghost predicate Positive(f: seq<Entry>) {
    forall k :: 0 <= k < |f| ==> f[k].qty > 0
  }

  lemma {:induction false} OrderInHolds(f: seq<Entry>, side: Side, id: nat)
    ensures OrderIn(f, side, id).Some? <==> Holds(f, id)
    ensures OrderIn(f, side, id).Some? ==> OrderIn(f, side, id).value.side == side
  {
    if f != [] {
      if f[0].id != id {
        OrderInHolds(f[1..], side, id);
        if Holds(f, id) {
          var k :| 0 <= k < |f| && f[k].id == id;
          assert f[1..][k - 1].id == id;
        }
        if Holds(f[1..], id) {
          var k :| 0 <= k < |f[1..]| && f[1..][k].id == id;
          assert f[k + 1].id == id;
        }
      }
    }
  }

  lemma {:induction false} TrimOrder(f: seq<Entry>, side: Side, x: nat, amount: Option<nat>, id: nat)
    requires Unique(f) && Positive(f)
    ensures OrderIn(Trim(f, x, amount), side, id) ==
            if id != x then OrderIn(f, side, id)
            else if amount.None? then None else Less(OrderIn(f, side, id), amount.value)
    ensures Positive(Trim(f, x, amount))
  {
    if f != [] {
      assert Unique(f[1..]) && Positive(f[1..]);
      TrimOrder(f[1..], side, x, amount, id);
      var g, h := Trim(f[1..], x, amount), Trim(f, x, amount);
      if f[0].id == x {
        assert forall k :: 0 <= k < |f[1..]| ==> f[1..][k].id == f[k + 1].id != x;
        OrderInHolds(f[1..], side, x);
      }
      assert h != g ==> h[1..] == g && h[0].qty > 0;
    }
  }

  lemma {:induction false} WalkOrder(f: seq<Entry>, opp: Side, limit: Option<int>, taker: nat, qty: nat, id: nat)
    requires Unique(f) && Positive(f)
    ensures var w := Walk(f, opp, limit, taker, qty);
            && OrderIn(w.rest, opp, id) == LessTrades(OrderIn(f, opp, id), w.trades, id)
            && Positive(w.rest)
  {
    var w := Walk(f, opp, limit, taker, qty);
    if qty == 0 || f == [] || !Crosses(opp, limit, f[0].price) {
    } else if f[0].qty <= qty {
      var r := Walk(f[1..], opp, limit, taker, qty - f[0].qty);
      assert Unique(f[1..]) && Positive(f[1..]);
      WalkOrder(f[1..], opp, limit, taker, qty - f[0].qty, id);
      assert w.trades[1..] == r.trades;
      if f[0].id == id {
        assert forall k :: 0 <= k < |f[1..]| ==> f[1..][k].id == f[k + 1].id != id;
        OrderInHolds(f[1..], opp, id);
      }
    } else {
      assert w.trades[1..] == [] && w.rest[1..] == f[1..];
    }
  }

  lemma {:induction false} InsertOrder(f: seq<Entry>, side: Side, e: Entry, id: nat)
    requires !Holds(f, e.id)
    ensures OrderIn(Insert(f, side, e), side, id) ==
            if id == e.id then Some(RestingOrder(side, e.price, e.qty)) else OrderIn(f, side, id)
  {
    if f == [] {
    } else if Beats(side, e.price, f[0].price) {
      assert ([e] + f)[1..] == f;
    } else {
      assert f[0].id != e.id;
      assert forall k :: 0 <= k < |f[1..]| ==> f[1..][k] == f[k + 1];
      InsertOrder(f[1..], side, e, id);
      assert Insert(f, side, e)[1..] == Insert(f[1..], side, e);
    }
  }

  lemma {:induction false} InsertPositive(f: seq<Entry>, side: Side, e: Entry)
    requires Positive(f) && e.qty > 0
    ensures Positive(Insert(f, side, e))
  {
    if f != [] && !Beats(side, e.price, f[0].price) {
      assert Positive(f[1..]);
      InsertPositive(f[1..], side, e);
    }
  }

  lemma {:induction false} NoneStaysNone(trades: seq<Trade>, id: nat)
    ensures LessTrades(None, trades, id) == None
  {
    if trades != [] { NoneStaysNone(trades[1..], id); }
  }

  // ---------- a good book ----------

  ghost predicate Tidy(b: Book) {
    WellFormed(b) && Positive(b.bids) && Positive(b.asks)
  }

  lemma OrderOfRests(b: Book, id: nat)
    ensures OrderOf(b, id).Some? <==> Rests(b, id)
  {
    OrderInHolds(b.bids, Buy, id);
    OrderInHolds(b.asks, Sell, id);
  }

  lemma OneSide(b: Book, id: nat)
    requires WellFormed(b)
    ensures Unique(b.bids) && Unique(b.asks)
    ensures OrderIn(b.bids, Buy, id).None? || OrderIn(b.asks, Sell, id).None?
  {
    UniqueSides(b, id);
    OrderInHolds(b.bids, Buy, id);
    OrderInHolds(b.asks, Sell, id);
    var g := b.bids + b.asks;
    assert forall i :: 0 <= i < |b.bids| ==> g[i] == b.bids[i];
    assert forall i :: 0 <= i < |b.asks| ==> g[|b.bids| + i] == b.asks[i];
  }

  /** Cancel or reduce, order by order. */
  lemma TrimOrders(b: Book, x: nat, amount: Option<nat>, id: nat)
    requires Tidy(b)
    ensures Tidy(TrimBook(b, x, amount))
    ensures OrderOf(TrimBook(b, x, amount), id) ==
            if id != x then OrderOf(b, id)
            else if amount.None? then None else Less(OrderOf(b, id), amount.value)
  {
    OneSide(b, id);
    TrimWellFormed(b, x, amount);
    TrimOrder(b.bids, Buy, x, amount, id);
    TrimOrder(b.asks, Sell, x, amount, id);
  }

  /** A sweep takes exactly the traded shares off each maker. */
  lemma SweepOrders(b: Book, req: OrderRequest, id: nat)
    requires Tidy(b)
    ensures var s := Sweep(b, req);
            && Tidy(s.book)
            && OrderOf(s.book, id) == LessTrades(OrderOf(b, id), s.trades, id)
  {
    OneSide(b, id);
    SweepWellFormed(b, req);
    OneSide(Sweep(b, req).book, id);
    var opp := Opposite(req.side);
    WalkOrder(OnSide(b, opp), opp, LimitOf(req), req.id, req.qty, id);
    if OrderIn(OnSide(b, req.side), req.side, id).Some? { TradesTouchOppositeOnly(b, req, id); }
    NoneStaysNone(Sweep(b, req).trades, id);
  }

  /** An order on the taker's own side is no maker. */
  lemma TradesTouchOppositeOnly(b: Book, req: OrderRequest, id: nat)
    requires WellFormed(b) && OrderIn(OnSide(b, req.side), req.side, id).Some?
    ensures forall o :: LessTrades(o, Sweep(b, req).trades, id) == o
  {
    var opp := Opposite(req.side);
    var f := OnSide(b, opp);
    OneSide(b, id);
    OrderInHolds(f, opp, id);
    WalkIsPrefix(f, opp, LimitOf(req), req.id, req.qty);
    forall o ensures LessTrades(o, Sweep(b, req).trades, id) == o {
      NotAMaker(o, Sweep(b, req).trades, id);
    }
  }

  lemma {:induction false} NotAMaker(o: Option<RestingOrder>, trades: seq<Trade>, id: nat)
    requires forall k :: 0 <= k < |trades| ==> trades[k].makerId != id
    ensures LessTrades(o, trades, id) == o
  {
    if trades != [] { NotAMaker(o, trades[1..], id); }
  }

  lemma RestOrders(b: Book, req: OrderRequest, qty: nat, id: nat)
    requires Tidy(b) && !Rests(b, req.id) && !WouldCross(b, req) && qty > 0
    ensures Tidy(Rest(b, req, qty))
    ensures OrderOf(Rest(b, req, qty), id) ==
            if id == req.id then Some(RestingOrder(req.side, req.price, qty)) else OrderOf(b, id)
  {
    var e := Entry(req.id, req.price, qty);
    RestWellFormed(b, req, qty);
    InsertOrder(OnSide(b, req.side), req.side, e, id);
    InsertPositive(OnSide(b, req.side), req.side, e);
    OrderInHolds(OnSide(b, Opposite(req.side)), Opposite(req.side), req.id);
    OneSide(b, id);
  }

  /** A sweep that trades changes at least the first order it meets. */
  lemma SweepChanges(b: Book, req: OrderRequest) returns (id: nat)
    requires Tidy(b) && Sweep(b, req).trades != []
    ensures OrderOf(Sweep(b, req).book, id) != OrderOf(b, id)
  {
    var opp := Opposite(req.side);
    var f := OnSide(b, opp);
    id := f[0].id;
    var w := Walk(f, opp, LimitOf(req), req.id, req.qty);
    OneSide(b, id);
    SweepOrders(b, req, id);
    OneSide(Sweep(b, req).book, id);
    if f[0].qty <= req.qty {
      WalkHolds(f[1..], opp, LimitOf(req), req.id, req.qty - f[0].qty, id);
      if Holds(f[1..], id) {
        var k :| 0 <= k < |f[1..]| && f[1..][k].id == id;
        assert f[k + 1].id == f[0].id;
      }
      OrderInHolds(w.rest, opp, id);
    }
    assert OrderIn(f, opp, id).Some?;
  }

  // ---------- the subscriber ----------

  ghost predicate Agrees(book: SymbolBook, b: Book) {
    forall id :: Shown(book, id) == OrderOf(b, id)
  }

  function ApplyAll(bs: Books, events: seq<MDEvent>): Books
    decreases events
  {
    if events == [] then bs else ApplyAll(ApplyEvent(bs, events[0]), events[1..])
  }

  lemma {:induction false} ApplyAllConcat(bs: Books, a: seq<MDEvent>, b: seq<MDEvent>)
    ensures ApplyAll(bs, a + b) == ApplyAll(ApplyAll(bs, a), b)
    decreases a
  {
    if a == [] {
      assert a + b == b;
    } else {
      assert (a + b)[1..] == a[1..] + b;
      ApplyAllConcat(ApplyEvent(bs, a[0]), a[1..], b);
    }
  }

  /** What one event does to the orders shown. */
  function Change(o: Option<RestingOrder>, e: MDEvent, id: nat): Option<RestingOrder> {
    if (e.code == ADD && id == e.orderId) || (e.code == REPLACE && id == e.newOrderId) then
      if e.qty > 0 then Some(RestingOrder(e.side, e.price, e.qty)) else None
    else if (e.code == DELETE || e.code == REPLACE) && id == e.orderId then None
    else if (e.code == CANCEL || e.code == TRADE) && id == e.orderId then Less(o, e.qty)
    else o
  }

  lemma ShownChange(bs: Books, e: MDEvent, symbol: Bytes, s: Bytes, id: nat)
    requires e.symbol == SymbolPad(symbol) && IsSymbol(symbol)
    ensures Shown(BookFor(ApplyEvent(bs, e), s), id) ==
            if s == symbol then Change(Shown(BookFor(bs, s), id), e, id) else Shown(BookFor(bs, s), id)
  {
    PadThenTrim(symbol);
    hide TrimSpaces, SymbolPad;
  }

  lemma {:induction false} ShownTrades(bs: Books, ts: nat, side: Side, symbol: Bytes, trades: seq<Trade>, s: Bytes,
                                       id: nat)
    requires IsSymbol(symbol)
    ensures Shown(BookFor(ApplyAll(bs, TradeEvents(ts, side, symbol, trades)), s), id) ==
            if s == symbol then LessTrades(Shown(BookFor(bs, s), id), trades, id) else Shown(BookFor(bs, s), id)
    decreases trades
  {
    if trades != [] {
      var es := TradeEvents(ts, side, symbol, trades);
      assert es[1..] == TradeEvents(ts, side, symbol, trades[1..]);
      ShownChange(bs, es[0], symbol, s, id);
      ShownTrades(ApplyEvent(bs, es[0]), ts, side, symbol, trades[1..], s, id);
      hide ApplyEvent, IsSymbol, SymbolPad;
    }
  }

  lemma ShownThenTrades(bs: Books, first: MDEvent, ts: nat, side: Side, symbol: Bytes, trades: seq<Trade>, s: Bytes,
                        id: nat)
    requires IsSymbol(symbol) && first.symbol == SymbolPad(symbol)
    ensures Shown(BookFor(ApplyAll(bs, [first] + TradeEvents(ts, side, symbol, trades)), s), id) ==
            if s == symbol then LessTrades(Change(Shown(BookFor(bs, s), id), first, id), trades, id)
            else Shown(BookFor(bs, s), id)
  {
    var es := [first] + TradeEvents(ts, side, symbol, trades);
    assert es[1..] == TradeEvents(ts, side, symbol, trades);
    ShownChange(bs, first, symbol, s, id);
    ShownTrades(ApplyEvent(bs, first), ts, side, symbol, trades, s, id);
    hide ApplyEvent, IsSymbol, SymbolPad;
  }

  // ---------- accepted and refused orders ----------

  /** What an accepted limit order does, order by order, and what is published about it. */
  lemma AcceptedOrders(e: Engine, req: OrderRequest, id: nat)
    requires Tidy(e.book) && req.kind.Limit? && !Rests(e.book, req.id) && AddBounded(e, req).fault.None?
    ensures var o := AddBounded(e, req);
            var q := RestingQty(req, o.trades);
            && Tidy(o.engine.book)
            && o.trades == Sweep(e.book, req).trades
            && (forall k :: 0 <= k < |o.trades| ==> o.trades[k].makerId != req.id)
            && OrderOf(o.engine.book, id) ==
               if id == req.id && q > 0 then Some(RestingOrder(req.side, req.price, q))
               else LessTrades(OrderOf(e.book, id), o.trades, id)
  {
    var s := Sweep(e.book, req);
    BookAfter(e, req);
    SweepAccount(e.book, req, req.id);
    SweepOrders(e.book, req, id);
    SweepThenRest(e.book, req);
    MakersRest(e.book, req);
    hide Tidy, Walk, Rests, WouldCross;
    if s.rests > 0 { RestOrders(s.book, req, s.rests, id); }
  }

  lemma MakersRest(b: Book, req: OrderRequest)
    requires !Rests(b, req.id)
    ensures forall k :: 0 <= k < |Sweep(b, req).trades| ==> Sweep(b, req).trades[k].makerId != req.id
  {
    var opp := Opposite(req.side);
    WalkIsPrefix(OnSide(b, opp), opp, LimitOf(req), req.id, req.qty);
  }

  /** A faulting limit order has swept the book but rests nothing. */
  lemma FaultedOrders(e: Engine, req: OrderRequest, id: nat)
    requires Tidy(e.book) && req.kind.Limit? && AddBounded(e, req).fault.Some?
    ensures var o := AddBounded(e, req);
            && Tidy(o.engine.book) && o.trades == Sweep(e.book, req).trades
            && o.engine.book == Sweep(e.book, req).book
            && OrderOf(o.engine.book, id) == LessTrades(OrderOf(e.book, id), o.trades, id)
  {
    BookAfter(e, req);
    SweepOrders(e.book, req, id);
  }

  // ---------- one message at its desk ----------

  /** The message changes the book but publishes nothing: an order that traded before its
      remainder was refused, or a refused replacement whose original was resting. */
  predicate Unannounced<R>(setup: Setup<R>, desk: Desk<R>, info: OrderInfo, m: Msg) {
    match m
    case AddOrder(_, _, _, _, _, _, _) =>
      var req := AddRequest(m, info.side);
      Enter(setup, desk, req, info.mpid).verdict.Faulted? && Sweep(desk.engine.book, req).trades != []
    case OrderReplace(_, original, _, _, _) =>
      var req, d := AddRequest(m, info.side), Cleared(setup, desk, info, m);
      var v := Enter(setup, d, req, info.mpid).verdict;
      !v.Accepted? && (Rests(desk.engine.book, original) || (v.Faulted? && Sweep(d.engine.book, req).trades != []))
    case _ => false
  }

  /** The id a message brings in is not resting at its desk. */
  predicate FreshAt(b: Book, m: Msg) {
    match m
    case AddOrder(_, id, _, _, _, _, _) => !Rests(b, id)
    case OrderReplace(_, original, id, _, _) => id == original || !Rests(b, id)
    case _ => true
  }

  lemma EnterShape<R>(setup: Setup<R>, desk: Desk<R>, req: OrderRequest, mpid: Bytes)
    ensures var e, o := Enter(setup, desk, req, mpid), AddBounded(desk.engine, req);
            match e.verdict
            case Declined => e.desk == desk && e.trades == []
            case Faulted => e.desk.engine == o.engine && o.fault.Some?
            case Accepted => e.desk.engine == o.engine && e.trades == o.trades && o.fault.None?
  {
  }

  /** Events of an accepted order, given what is shown of `id` before them. */
  lemma ShownAccepted(bs: Books, e: Engine, first: seq<MDEvent>, req: OrderRequest, ts: nat, symbol: Bytes,
                      before: Option<RestingOrder>, s: Bytes, id: nat)
    requires Tidy(e.book) && req.kind.Limit? && !Rests(e.book, req.id) && AddBounded(e, req).fault.None?
    requires IsSymbol(symbol) && |first| <= 1 && (first != [] ==> first[0].symbol == SymbolPad(symbol))
    requires before == OrderOf(e.book, id)
    requires s == symbol ==>
               (if first == [] then Shown(BookFor(bs, s), id) else Change(Shown(BookFor(bs, s), id), first[0], id)) ==
               if id == req.id && RestingQty(req, AddBounded(e, req).trades) > 0
               then Some(RestingOrder(req.side, req.price, RestingQty(req, AddBounded(e, req).trades))) else before
    ensures var o := AddBounded(e, req);
            var bs' := ApplyAll(bs, first + TradeEvents(ts, req.side, symbol, o.trades));
            Shown(BookFor(bs', s), id) == if s == symbol then OrderOf(o.engine.book, id) else Shown(BookFor(bs, s), id)
  {
    var o := AddBounded(e, req);
    AcceptedOrders(e, req, id);
    if id == req.id {
      OrderOfRests(e.book, id);
      NotAMaker(Some(RestingOrder(req.side, req.price, RestingQty(req, o.trades))), o.trades, id);
    }
    if first == [] {
      assert first + TradeEvents(ts, req.side, symbol, o.trades) == TradeEvents(ts, req.side, symbol, o.trades);
      ShownTrades(bs, ts, req.side, symbol, o.trades, s, id);
    } else {
      assert first == [first[0]];
      ShownThenTrades(bs, first[0], ts, req.side, symbol, o.trades, s, id);
    }
  }

  lemma AddDesk<R>(setup: Setup<R>, desk: Desk<R>, info: OrderInfo, m: Msg, bs: Books, s: Bytes, id: nat)
    requires m.AddOrder? && Tidy(desk.engine.book) && IsSymbol(info.symbol) && !Rests(desk.engine.book, m.id)
    requires Agrees(BookFor(bs, info.symbol), desk.engine.book)
    ensures var l := AddLocal(setup, desk, info, m);
            && Tidy(l.desk.engine.book)
            && (s != info.symbol ==> Shown(BookFor(ApplyAll(bs, l.events), s), id) == Shown(BookFor(bs, s), id))
            && (!Unannounced(setup, desk, info, m) && s == info.symbol ==>
                  Shown(BookFor(ApplyAll(bs, l.events), s), id) == OrderOf(l.desk.engine.book, id))
  {
    hide Tidy, IsSymbol, Rests, AddBounded, SymbolPad, Shown, Sweep, OrderOf, ApplyEvent;
    var req := AddRequest(m, info.side);
    var e := Enter(setup, desk, req, info.mpid);
    EnterShape(setup, desk, req, info.mpid);
    assert Shown(BookFor(bs, info.symbol), id) == OrderOf(desk.engine.book, id);
    match e.verdict {
      case Declined =>
      case Faulted =>
        FaultedOrders(desk.engine, req, id);
      case Accepted =>
        var q := RestingQty(req, e.trades);
        var first := if q > 0 then [MDEvent(ADD, info.side, m.ts, m.id, 0, SymbolPad(info.symbol), req.price, q)]
                     else [];
        AcceptedOrders(desk.engine, req, id);
        ShownAccepted(bs, desk.engine, first, req, m.ts, info.symbol, OrderOf(desk.engine.book, id), s, id);
    }
  }

  lemma ReplaceDesk<R>(setup: Setup<R>, desk: Desk<R>, info: OrderInfo, m: Msg, bs: Books, s: Bytes, id: nat)
    requires m.OrderReplace? && Tidy(desk.engine.book) && IsSymbol(info.symbol) && FreshAt(desk.engine.book, m)
    requires Agrees(BookFor(bs, info.symbol), desk.engine.book)
    ensures var l := ReplaceLocal(setup, desk, info, m);
            && Tidy(l.desk.engine.book)
            && (s != info.symbol ==> Shown(BookFor(ApplyAll(bs, l.events), s), id) == Shown(BookFor(bs, s), id))
            && (!Unannounced(setup, desk, info, m) && s == info.symbol ==>
                  Shown(BookFor(ApplyAll(bs, l.events), s), id) == OrderOf(l.desk.engine.book, id))
  {
    hide Tidy, IsSymbol, AddBounded, SymbolPad, Shown, Sweep, OrderOf, ApplyEvent, TrimBook, Rests;
    var req := AddRequest(m, info.side);
    var d := Cleared(setup, desk, info, m);
    assert d.engine.book == TrimBook(desk.engine.book, m.original, None);
    TrimOrders(desk.engine.book, m.original, None, id);
    ClearedFresh(desk.engine.book, m);
    var e := Enter(setup, d, req, info.mpid);
    EnterShape(setup, d, req, info.mpid);
    assert Shown(BookFor(bs, info.symbol), id) == OrderOf(desk.engine.book, id);
    OrderOfRests(desk.engine.book, id);
    OrderOfRests(d.engine.book, req.id);
    match e.verdict {
      case Declined =>
      case Faulted =>
        FaultedOrders(d.engine, req, id);
      case Accepted =>
        var q := RestingQty(req, e.trades);
        var first := if q > 0 then MDEvent(REPLACE, info.side, m.ts, m.original, m.id, SymbolPad(info.symbol),
                                           req.price, q)
                     else MDEvent(DELETE, info.side, m.ts, m.original, 0, SymbolPad(info.symbol), 0, 0);
        AcceptedOrders(d.engine, req, id);
        ShownAccepted(bs, d.engine, [first], req, m.ts, info.symbol, OrderOf(d.engine.book, id), s, id);
    }
  }

  /** Once the original is gone, the new id rests nowhere on the book. */
  lemma ClearedFresh(b: Book, m: Msg)
    requires m.OrderReplace? && Tidy(b) && FreshAt(b, m)
    ensures !Rests(TrimBook(b, m.original, None), m.id)
  {
    TrimOrders(b, m.original, None, m.id);
    OrderOfRests(b, m.id);
    OrderOfRests(TrimBook(b, m.original, None), m.id);
  }

  /** A message keeps the book tidy; unless it is unannounced, the published events change the
      subscriber's orders exactly as the engine's orders change; other symbols are untouched. */
  lemma DeskFollows<R>(setup: Setup<R>, desk: Desk<R>, info: OrderInfo, m: Msg, bs: Books, s: Bytes, id: nat)
    requires Tidy(desk.engine.book) && IsSymbol(info.symbol) && FreshAt(desk.engine.book, m)
    requires Agrees(BookFor(bs, info.symbol), desk.engine.book)
    ensures var l := OnDesk(setup, desk, info, m);
            && Tidy(l.desk.engine.book)
            && (s != info.symbol ==> Shown(BookFor(ApplyAll(bs, l.events), s), id) == Shown(BookFor(bs, s), id))
            && (!Unannounced(setup, desk, info, m) && s == info.symbol ==>
                  Shown(BookFor(ApplyAll(bs, l.events), s), id) == OrderOf(l.desk.engine.book, id))
  {
    match m {
      case AddOrder(_, _, _, _, _, _, _) => AddDesk(setup, desk, info, m, bs, s, id);
      case OrderReplace(_, _, _, _, _) => ReplaceDesk(setup, desk, info, m, bs, s, id);
      case OtherMessage =>
      case _ => LesserDesk(setup, desk, info, m, bs, s, id);
    }
  }

  lemma LesserDesk<R>(setup: Setup<R>, desk: Desk<R>, info: OrderInfo, m: Msg, bs: Books, s: Bytes, id: nat)
    requires m.OrderCancel? || m.OrderDelete? || m.OrderExecuted? || m.OrderExecutedWithPrice?
    requires Tidy(desk.engine.book) && IsSymbol(info.symbol)
    requires Agrees(BookFor(bs, info.symbol), desk.engine.book)
    ensures var l := OnDesk(setup, desk, info, m);
            && Tidy(l.desk.engine.book)
            && Shown(BookFor(ApplyAll(bs, l.events), s), id) ==
               if s == info.symbol then OrderOf(l.desk.engine.book, id) else Shown(BookFor(bs, s), id)
  {
    hide Tidy, IsSymbol, SymbolPad, Shown, OrderOf, ApplyEvent, TrimBook;
    var l := OnDesk(setup, desk, info, m);
    var amount := if m.OrderDelete? then None else Some(m.shares);
    assert l.desk.engine.book == TrimBook(desk.engine.book, m.id, amount);
    TrimOrders(desk.engine.book, m.id, amount, id);
    assert Shown(BookFor(bs, info.symbol), id) == OrderOf(desk.engine.book, id);
    assert |l.events| == 1 && l.events == [l.events[0]];
    assert l.events[1..] == [];
    ShownChange(bs, l.events[0], info.symbol, s, id);
  }

  /** An unannounced message makes subscriber and engine disagree about some order. */
  lemma UnannouncedDisagrees<R>(setup: Setup<R>, desk: Desk<R>, info: OrderInfo, m: Msg, bs: Books)
    requires Tidy(desk.engine.book) && IsSymbol(info.symbol) && FreshAt(desk.engine.book, m)
    requires Agrees(BookFor(bs, info.symbol), desk.engine.book) && Unannounced(setup, desk, info, m)
    ensures var l := OnDesk(setup, desk, info, m);
            l.events == [] && !Agrees(BookFor(bs, info.symbol), l.desk.engine.book)
  {
    hide Tidy, IsSymbol, AddBounded, Shown, Sweep, OrderOf, TrimBook;
    var req := AddRequest(m, info.side);
    if m.AddOrder? {
      EnterShape(setup, desk, req, info.mpid);
      var id := SweepChanges(desk.engine.book, req);
      FaultedOrders(desk.engine, req, id);
      assert Shown(BookFor(bs, info.symbol), id) == OrderOf(desk.engine.book, id);
    } else {
      var d := Cleared(setup, desk, info, m);
      EnterShape(setup, d, req, info.mpid);
      if Rests(desk.engine.book, m.original) {
        var id := m.original;
        OrderOfRests(desk.engine.book, id);
        TrimOrders(desk.engine.book, m.original, None, id);
        if AddBounded(d.engine, req).fault.Some? { FaultedOrders(d.engine, req, id); }
        NoneStaysNone(AddBounded(d.engine, req).trades, id);
        assert Shown(BookFor(bs, info.symbol), id) == OrderOf(desk.engine.book, id);
      } else {
        TrimOrders(desk.engine.book, m.original, None, m.original);
        var id := SweepChanges(d.engine.book, req);
        TrimOrders(desk.engine.book, m.original, None, id);
        OrderOfRests(desk.engine.book, m.original);
        FaultedOrders(d.engine, req, id);
        assert Shown(BookFor(bs, info.symbol), id) == OrderOf(desk.engine.book, id);
      }
    }
  }
}

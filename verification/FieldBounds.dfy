/** Messages whose fields have the widths of the exchange's messages (cpp/feed/itch_messages.h)
    only ever publish events that the fixed-width records can carry. */
module FieldBounds {
  import opened Orders
  import opened PriorityBook
  import opened Wire
  import opened MarketData
  import opened Sequencing
  import opened Ledgers
  import opened FeedLaws

  predicate IdFits(id: nat) {
    id < U64
  }

  /** Shares and prices are 32 bits wide, time stamps and order ids at most 64. */
  predicate Fielded(m: Msg) {
    match m
    case AddOrder(ts, id, _, shares, _, price, _) => ts < U64 && IdFits(id) && shares < U32 && price < U32
    case OrderCancel(ts, id, shares) => ts < U64 && IdFits(id) && shares < U32
    case OrderDelete(ts, id) => ts < U64 && IdFits(id)
    case OrderExecuted(ts, id, shares) => ts < U64 && IdFits(id) && shares < U32
    case OrderExecutedWithPrice(ts, id, shares, _, price) => ts < U64 && IdFits(id) && shares < U32 && price < U32
    case OrderReplace(ts, original, id, shares, price) =>
      ts < U64 && IdFits(original) && IdFits(id) && shares < U32 && price < U32
    case OtherMessage => true
  }

  predicate AllFielded(ms: seq<Msg>) {
    forall i :: 0 <= i < |ms| ==> Fielded(ms[i])
  }

  /** The fields of every order of a list fit. */
  predicate Narrow(f: seq<Entry>) {
    forall k :: 0 <= k < |f| ==> IdFits(f[k].id) && 0 <= f[k].price < U32 && f[k].qty < U32
  }

  predicate NarrowBook(b: Book) {
    Narrow(b.bids) && Narrow(b.asks)
  }

  predicate NarrowTrades(t: seq<Trade>) {
    forall k :: 0 <= k < |t| ==> IdFits(t[k].makerId) && IdFits(t[k].takerId) && 0 <= t[k].price < U32 && t[k].qty < U32
  }

  predicate Encodable(events: seq<MDEvent>) {
    forall i :: 0 <= i < |events| ==> Representable(events[i])
  }

  lemma {:induction false} WalkNarrow(f: seq<Entry>, side: Side, limit: Option<int>, taker: nat, qty: nat)
    requires Narrow(f) && IdFits(taker) && qty < U32
    ensures var w := Walk(f, side, limit, taker, qty); Narrow(w.rest) && NarrowTrades(w.trades) && w.left <= qty
  {
    if qty > 0 && f != [] && Crosses(side, limit, f[0].price) && f[0].qty <= qty {
      WalkNarrow(f[1..], side, limit, taker, qty - f[0].qty);
    }
  }

  lemma {:induction false} InsertNarrow(f: seq<Entry>, side: Side, e: Entry)
    requires Narrow(f) && Narrow([e])
    ensures Narrow(Insert(f, side, e))
  {
    assert [e][0] == e;
    if f != [] && !Beats(side, e.price, f[0].price) { InsertNarrow(f[1..], side, e); }
  }

  lemma {:induction false} TrimNarrow(f: seq<Entry>, id: nat, amount: Option<nat>)
    requires Narrow(f)
    ensures Narrow(Trim(f, id, amount))
  {
    if f != [] { TrimNarrow(f[1..], id, amount); }
  }

  lemma SweepNarrow(b: Book, req: OrderRequest)
    requires NarrowBook(b) && IdFits(req.id) && req.qty < U32
    ensures var s := Sweep(b, req); NarrowBook(s.book) && NarrowTrades(s.trades) && s.rests <= req.qty
  {
    var opp := Opposite(req.side);
    WalkNarrow(OnSide(b, opp), opp, LimitOf(req), req.id, req.qty);
  }

  lemma RestNarrow(b: Book, req: OrderRequest, qty: nat)
    requires NarrowBook(b) && IdFits(req.id) && 0 <= req.price < U32 && qty < U32
    ensures NarrowBook(Rest(b, req, qty))
  {
    InsertNarrow(OnSide(b, req.side), req.side, Entry(req.id, req.price, qty));
  }

  lemma TrimBookNarrow(b: Book, id: nat, amount: Option<nat>)
    requires NarrowBook(b)
    ensures NarrowBook(TrimBook(b, id, amount))
  {
    TrimNarrow(b.bids, id, amount);
    TrimNarrow(b.asks, id, amount);
  }

  lemma EnterNarrow<R>(setup: Setup<R>, desk: Desk<R>, req: OrderRequest, mpid: Bytes)
    requires NarrowBook(desk.engine.book) && req.kind.Limit? && IdFits(req.id) && 0 <= req.price < U32
    requires req.qty < U32
    ensures var e := Enter(setup, desk, req, mpid); NarrowBook(e.desk.engine.book) && NarrowTrades(e.trades)
  {
    hide NarrowBook, Sweep, Rest, AddBounded;
    var b := desk.engine.book;
    EnterShape(setup, desk, req, mpid);
    BookAfter(desk.engine, req);
    SweepNarrow(b, req);
    RestNarrow(Sweep(b, req).book, req, Sweep(b, req).rests);
  }

  lemma {:induction false} TapeFits(ts: nat, side: Side, symbol: Bytes, trades: seq<Trade>)
    requires NarrowTrades(trades) && ts < U64
    ensures Encodable(TradeEvents(ts, side, symbol, trades))
  {
    if trades != [] {
      hide SymbolPad;
      TapeFits(ts, side, symbol, trades[1..]);
    }
  }

  lemma Joined(a: seq<MDEvent>, b: seq<MDEvent>)
    requires Encodable(a) && Encodable(b)
    ensures Encodable(a + b)
  {
  }

  /** At one desk: the book stays narrow and the events fit their records. */
  lemma DeskNarrow<R>(setup: Setup<R>, desk: Desk<R>, info: OrderInfo, m: Msg)
    requires NarrowBook(desk.engine.book) && Fielded(m)
    ensures var l := OnDesk(setup, desk, info, m); NarrowBook(l.desk.engine.book) && Encodable(l.events)
  {
    hide NarrowBook, Enter, TradeEvents, SymbolPad, TrimBook, AsTaker;
    var b := desk.engine.book;
    match m {
      case AddOrder(ts, id, _, _, _, _, _) =>
        var e := Enter(setup, desk, AddRequest(m, info.side), info.mpid);
        EnterNarrow(setup, desk, AddRequest(m, info.side), info.mpid);
        TapeFits(ts, info.side, info.symbol, e.trades);
        AddEventsFit(setup, desk, info, m);
      case OrderReplace(ts, original, id, _, _) =>
        TrimBookNarrow(b, original, None);
        var d := Cleared(setup, desk, info, m);
        var e := Enter(setup, d, AddRequest(m, info.side), info.mpid);
        EnterNarrow(setup, d, AddRequest(m, info.side), info.mpid);
        TapeFits(ts, info.side, info.symbol, e.trades);
        ReplaceEventsFit(info, m, e);
      case OtherMessage =>
      case OrderDelete(_, x) => TrimBookNarrow(b, x, None);
      case OrderCancel(_, x, shares) => TrimBookNarrow(b, x, Some(shares));
      case OrderExecuted(_, x, shares) => TrimBookNarrow(b, x, Some(shares));
      case OrderExecutedWithPrice(_, x, shares, _, _) => TrimBookNarrow(b, x, Some(shares));
    }
  }

  lemma AddEventsFit<R>(setup: Setup<R>, desk: Desk<R>, info: OrderInfo, m: Msg)
    requires m.AddOrder? && Fielded(m)
    requires var e := Enter(setup, desk, AddRequest(m, info.side), info.mpid);
             Encodable(TradeEvents(m.ts, info.side, info.symbol, e.trades))
    ensures Encodable(AddLocal(setup, desk, info, m).events)
  {
    hide Enter, TradeEvents, SymbolPad, AsTaker;
  }

  lemma ReplaceEventsFit<R>(info: OrderInfo, m: Msg, e: Entered<R>)
    requires m.OrderReplace? && Fielded(m) && Encodable(TradeEvents(m.ts, info.side, info.symbol, e.trades))
    ensures Encodable(ReplaceOutcome(info, m, e).events)
  {
    hide TradeEvents, SymbolPad, AsTaker;
  }

  ghost predicate AllNarrow<R>(setup: Setup<R>, st: State<R>) {
    forall symbol :: NarrowBook(DeskOf(setup, st.desks, symbol).engine.book)
  }

  lemma StepNarrow<R>(setup: Setup<R>, st: State<R>, m: Msg)
    requires AllNarrow(setup, st) && Fielded(m)
    ensures var s := Step(setup, st, m); AllNarrow(setup, s.state) && Encodable(s.events)
  {
    hide NarrowBook, OnDesk, Missed, Plus, Fielded;
    var t := Step(setup, st, m).state;
    if Target(st.routes, m).Some? {
      var info := Target(st.routes, m).value;
      assert NarrowBook(DeskOf(setup, st.desks, info.symbol).engine.book);
      DeskNarrow(setup, DeskOf(setup, st.desks, info.symbol), info, m);
    }
    forall symbol ensures NarrowBook(DeskOf(setup, t.desks, symbol).engine.book) {
      assert NarrowBook(DeskOf(setup, st.desks, symbol).engine.book);
    }
  }

  lemma {:induction false} RunNarrow<R>(setup: Setup<R>, st: State<R>, ms: seq<Msg>)
    requires AllNarrow(setup, st) && AllFielded(ms)
    ensures Encodable(RunAll(setup, st, ms).events)
    decreases ms
  {
    if ms != [] {
      hide Step, AllNarrow, Representable, Fielded;
      StepNarrow(setup, st, ms[0]);
      RunNarrow(setup, Step(setup, st, ms[0]).state, ms[1..]);
    }
  }

  /** Whatever the risk policy does, the published events fit their records. */
  lemma PublishedFits<R>(setup: Setup<R>, ms: seq<Msg>)
    requires AllFielded(ms)
    ensures Encodable(RunAll(setup, Start<R>(), ms).events)
  {
    forall symbol ensures NarrowBook(DeskOf(setup, Start<R>().desks, symbol).engine.book) { }
    hide RunAll, Representable, Fielded;
    RunNarrow(setup, Start<R>(), ms);
  }
}

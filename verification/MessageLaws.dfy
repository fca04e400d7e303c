/** What each exchange message does, told in the fields of the message alone: whose shares
    change and by how many, what is published, what is routed, what is counted and what the
    risk checks hear. */
module MessageLaws {
  import opened Orders
  import opened PriorityBook
  import opened PriorityLaws
  import opened EngineLaws
  import opened OrderTypes
  import opened Ledgers
  import opened Wire
  import opened MarketData
  import opened Snapshots
  import opened Sequencing
  import opened FeedLaws

  // ---------- messages that take shares off an order ----------

  /** One order's shares, `n` fewer (all, for None), every other order as before. */
  ghost predicate OnlyTakes(b: Book, c: Book, id: nat, n: Option<nat>) {
    && Lessened(b.bids, c.bids, id, n) && Lessened(b.asks, c.asks, id, n)
    && (forall x :: x != id ==> OrderOf(c, x) == OrderOf(b, x))
    && OrderOf(c, id) == match OrderOf(b, id)
                         case None => None
                         case Some(o) =>
                           if n.None? || n.value >= o.qty then None
                           else Some(RestingOrder(o.side, o.price, o.qty - n.value))
  }

  /** At the desk of `symbol` shares come off one order and the risk state becomes `risk`; the
      rest of that engine and every other desk is as before. */
  ghost predicate DeskTakes<R>(setup: Setup<R>, st: State<R>, t: State<R>, symbol: Bytes, id: nat, n: Option<nat>,
                               risk: R) {
    var d, e := DeskOf(setup, st.desks, symbol), DeskOf(setup, t.desks, symbol);
    && t.desks == st.desks[symbol := e]
    && e == Desk(d.engine.(book := e.engine.book), risk)
    && OnlyTakes(d.engine.book, e.engine.book, id, n)
  }

  ghost predicate GoodDesk<R>(d: Desk<R>) {
    Sound(d.engine) && Tidy(d.engine.book)
  }

  lemma ReduceTakes(e: Engine, id: nat, n: Option<nat>)
    requires Sound(e) && Tidy(e.book)
    ensures ReduceBounded(e, id, n) == e.(book := ReduceBounded(e, id, n).book)
    ensures OnlyTakes(e.book, ReduceBounded(e, id, n).book, id, n)
  {
    ReduceExactly(e, id, n);
    hide Tidy, Lessened, OrderOf, Sound;
    forall x ensures OrderOf(TrimBook(e.book, id, n), x) ==
                     if x != id then OrderOf(e.book, x)
                     else if n.None? then None else Less(OrderOf(e.book, id), n.value)
    {
      TrimOrders(e.book, id, n, x);
    }
    hide TrimBook;
  }

  /** Order Cancel: that many shares come off the order, which goes when none is left. */
  lemma CancelTakes<R>(setup: Setup<R>, st: State<R>, m: Msg)
    requires m.OrderCancel? && m.id in st.routes && GoodDesk(DeskOf(setup, st.desks, st.routes[m.id].symbol))
    ensures var info, s := st.routes[m.id], Step(setup, st, m);
            && DeskTakes(setup, st, s.state, info.symbol, m.id, Some(m.shares),
                         DeskOf(setup, st.desks, info.symbol).risk)
            && s.events == [MDEvent('X' as int, info.side, m.ts, m.id, 0, SymbolPad(info.symbol), 0, m.shares)]
            && s.state.routes == st.routes && s.state.stats == st.stats.(cancels := st.stats.cancels + 1)
  {
    hide Sound, Tidy, ReduceBounded, OnlyTakes, SymbolPad;
    ReduceTakes(DeskOf(setup, st.desks, st.routes[m.id].symbol).engine, m.id, Some(m.shares));
    assert st.routes - {} == st.routes;
  }

  /** Order Executed: those shares come off, and a trade without a price is published. */
  lemma ExecutionTakes<R>(setup: Setup<R>, st: State<R>, m: Msg)
    requires m.OrderExecuted? && m.id in st.routes && GoodDesk(DeskOf(setup, st.desks, st.routes[m.id].symbol))
    ensures var info, s := st.routes[m.id], Step(setup, st, m);
            && DeskTakes(setup, st, s.state, info.symbol, m.id, Some(m.shares),
                         DeskOf(setup, st.desks, info.symbol).risk)
            && s.events == [MDEvent('T' as int, info.side, m.ts, m.id, 0, SymbolPad(info.symbol), 0, m.shares)]
            && s.state.routes == st.routes && s.state.stats == st.stats.(executes := st.stats.executes + 1)
  {
    hide Sound, Tidy, ReduceBounded, OnlyTakes, SymbolPad;
    ReduceTakes(DeskOf(setup, st.desks, st.routes[m.id].symbol).engine, m.id, Some(m.shares));
    assert st.routes - {} == st.routes;
  }

  /** Order Executed With Price, when printable: the trade carries the message's price, and the
      risk checks hear it. */
  lemma PricedExecutionTakes<R>(setup: Setup<R>, st: State<R>, m: Msg)
    requires m.OrderExecutedWithPrice? && m.printable != 'N' as int && m.id in st.routes
    requires GoodDesk(DeskOf(setup, st.desks, st.routes[m.id].symbol))
    ensures var info, s := st.routes[m.id], Step(setup, st, m);
            && DeskTakes(setup, st, s.state, info.symbol, m.id, Some(m.shares),
                         setup.risk.onTrade(DeskOf(setup, st.desks, info.symbol).risk, m.price))
            && s.events == [MDEvent('T' as int, info.side, m.ts, m.id, 0, SymbolPad(info.symbol), m.price, m.shares)]
            && s.state.routes == st.routes && s.state.stats == st.stats.(executes := st.stats.executes + 1)
  {
    hide Sound, Tidy, ReduceBounded, OnlyTakes, SymbolPad;
    ReduceTakes(DeskOf(setup, st.desks, st.routes[m.id].symbol).engine, m.id, Some(m.shares));
    assert st.routes - {} == st.routes;
  }

  /** Order Delete: the order and its route go, and the risk checks hear of it. */
  lemma DeleteTakes<R>(setup: Setup<R>, st: State<R>, m: Msg)
    requires m.OrderDelete? && m.id in st.routes && GoodDesk(DeskOf(setup, st.desks, st.routes[m.id].symbol))
    ensures var info, s := st.routes[m.id], Step(setup, st, m);
            && DeskTakes(setup, st, s.state, info.symbol, m.id, None,
                         setup.risk.noteRemoved(DeskOf(setup, st.desks, info.symbol).risk, info.mpid, info.side))
            && s.events == [MDEvent('D' as int, info.side, m.ts, m.id, 0, SymbolPad(info.symbol), 0, 0)]
            && s.state.routes == st.routes - {m.id} && s.state.stats == st.stats.(deletes := st.stats.deletes + 1)
  {
    hide Sound, Tidy, ReduceBounded, OnlyTakes, SymbolPad;
    ReduceTakes(DeskOf(setup, st.desks, st.routes[m.id].symbol).engine, m.id, None);
  }

  /** The id a later message must find routed. */
  predicate Needs(m: Msg, id: nat) {
    match m
    case OrderReplace(_, original, _, _, _) => id == original
    case AddOrder(_, _, _, _, _, _, _) => false
    case OtherMessage => false
    case _ => id == m.id
  }

  /** A non-printable execution, a message about an id nobody routes, and every other message
      are counted, and nothing else happens. */
  lemma IgnoredMessages<R>(setup: Setup<R>, st: State<R>, m: Msg)
    ensures var s := Step(setup, st, m);
            var nonPrintable := m.OrderExecutedWithPrice? && m.printable == 'N' as int;
            && (nonPrintable ==>
                  s == StepResult(st.(stats := st.stats.(nonPrintableSkipped := st.stats.nonPrintableSkipped + 1)), []))
            && (m.OtherMessage? ==>
                  s == StepResult(st.(stats := st.stats.(otherMessageTypes := st.stats.otherMessageTypes + 1)), []))
            && (!nonPrintable && (exists id :: Needs(m, id) && id !in st.routes) ==>
                  s == StepResult(st.(stats := st.stats.(unrouted := st.stats.unrouted + 1)), []))
  {
    hide OnDesk;
  }

  /** A symbol nobody has traded opens with an empty engine of the set-up's capacity and window
      and with the initial risk state. */
  lemma OpensEmpty<R>(setup: Setup<R>, st: State<R>, symbol: Bytes)
    requires symbol !in st.desks
    ensures DeskOf(setup, st.desks, symbol) ==
            Desk(Engine(Book([], []), None, 0, setup.capacity, setup.initialWindow), setup.risk.initial)
  {
  }

  // ---------- messages that enter an order ----------

  /** The best prices of a book: its highest bid and its lowest ask. */
  ghost predicate BestPrices(q: Quote, b: Book) {
    && (match q.bid
        case None => b.bids == []
        case Some(p) =>
          && (exists k :: 0 <= k < |b.bids| && b.bids[k].price == p)
          && (forall k :: 0 <= k < |b.bids| ==> b.bids[k].price <= p))
    && (match q.ask
        case None => b.asks == []
        case Some(p) =>
          && (exists k :: 0 <= k < |b.asks| && b.asks[k].price == p)
          && (forall k :: 0 <= k < |b.asks| ==> b.asks[k].price >= p))
  }

  /** Risk lets the order through, judging it by its fields and the best prices. */
  ghost predicate Passes<R>(setup: Setup<R>, d: Desk<R>, req: OrderRequest, mpid: Bytes) {
    exists q :: BestPrices(q, d.engine.book) && setup.risk.check(d.risk, req, mpid, q)
  }

  lemma PassesByQuote<R>(setup: Setup<R>, d: Desk<R>, req: OrderRequest, mpid: Bytes)
    requires Sound(d.engine)
    ensures Passes(setup, d, req, mpid) <==> setup.risk.check(d.risk, req, mpid, QuoteOf(d.engine.book))
  {
    var b, q := d.engine.book, QuoteOf(d.engine.book);
    SidesInNumbers(d.engine);
    hide Sound;
    if b.bids != [] { assert b.bids[0].price == q.bid.value; }
    if b.asks != [] { assert b.asks[0].price == q.ask.value; }
    assert BestPrices(q, b);
    forall p | BestPrices(p, b) ensures p == q { }
  }

  /** The risk state after hearing the prices of the first `n` trades, in order. */
  function Heard<R>(risk: RiskPolicy<R>, before: R, trades: seq<Trade>, n: nat): R
    requires n <= |trades|
  {
    if n == 0 then before else risk.onTrade(Heard(risk, before, trades, n - 1), trades[n - 1].price)
  }

  lemma {:induction false} HeardLater<R>(risk: RiskPolicy<R>, before: R, trades: seq<Trade>, n: nat)
    requires 0 < n <= |trades|
    ensures Heard(risk, before, trades, n) ==
            Heard(risk, risk.onTrade(before, trades[0].price), trades[1..], n - 1)
  {
    if n > 1 { HeardLater(risk, before, trades, n - 1); }
  }

  lemma {:induction false} TradesHeard<R>(risk: RiskPolicy<R>, before: R, trades: seq<Trade>)
    ensures NoteTrades(risk, before, trades) == Heard(risk, before, trades, |trades|)
    decreases trades
  {
    if trades != [] {
      HeardLater(risk, before, trades, |trades|);
      TradesHeard(risk, risk.onTrade(before, trades[0].price), trades[1..]);
    }
  }

  /** One event per trade, in order: the maker's id, the taker's id, price and quantity. */
  ghost predicate Tape(events: seq<MDEvent>, ts: nat, side: Side, symbol: Bytes, trades: seq<Trade>) {
    && |events| == |trades|
    && forall k :: 0 <= k < |trades| ==>
         var t := trades[k];
         events[k] == MDEvent('T' as int, side, ts, t.makerId, t.takerId, SymbolPad(symbol), t.price, t.qty)
  }

  lemma {:induction false} TapeOf(ts: nat, side: Side, symbol: Bytes, trades: seq<Trade>)
    ensures Tape(TradeEvents(ts, side, symbol, trades), ts, side, symbol, trades)
  {
    hide SymbolPad;
    if trades != [] {
      TapeOf(ts, side, symbol, trades[1..]);
      var es := TradeEvents(ts, side, symbol, trades);
      assert forall k :: 0 < k < |trades| ==> es[k] == TradeEvents(ts, side, symbol, trades[1..])[k - 1];
    }
  }

  lemma RestingLeft(e: Engine, req: OrderRequest)
    requires Sound(e) && req.kind.Limit?
    ensures var t := AddBounded(e, req).trades;
            Filled(t) <= req.qty && RestingQty(req, t) == req.qty - Filled(t)
  {
    SoundIsWellFormed(e);
    BookAfter(e, req);
    SweepAccount(e.book, req, req.id);
    hide Sweep, AddBounded, WellFormed;
  }

  /** What entering a limit order does to its desk: the engine trades and rests it, or throws;
      only when it does not throw do the risk checks hear of the order and then its trades. */
  ghost predicate Entered<R>(setup: Setup<R>, d: Desk<R>, e: Desk<R>, req: OrderRequest, mpid: Bytes, o: Outcome) {
    && LimitOutcome(d.engine, req, o) && e.engine == o.engine
    && if o.fault.Some? then e.risk == d.risk
       else e.risk == Heard(setup.risk, setup.risk.noteResting(d.risk, mpid, req.side), o.trades, |o.trades|)
  }

  lemma EnterExactly<R>(setup: Setup<R>, d: Desk<R>, req: OrderRequest, mpid: Bytes)
    requires Sound(d.engine) && req.kind.Limit?
    ensures var x, o := Enter(setup, d, req, mpid), AddBounded(d.engine, req);
            if !Passes(setup, d, req, mpid) then x.verdict == Declined && x.desk == d
            else && Entered(setup, d, x.desk, req, mpid, o)
                 && x.verdict == (if o.fault.Some? then Faulted else Accepted)
                 && (o.fault.None? ==> x.trades == o.trades)
  {
    PassesByQuote(setup, d, req, mpid);
    LimitExactly(d.engine, req);
    TradesHeard(setup.risk, setup.risk.noteResting(d.risk, mpid, req.side), AddBounded(d.engine, req).trades);
    hide Sound, Passes, LimitOutcome, Heard, AddBounded, NoteTrades;
  }

  /** The tape of an accepted order, behind the event that announces the order, if any. */
  ghost predicate Announces(events: seq<MDEvent>, first: MDEvent, announced: bool, ts: nat, side: Side, symbol: Bytes,
                            trades: seq<Trade>) {
    if announced then events != [] && events[0] == first && Tape(events[1..], ts, side, symbol, trades)
    else Tape(events, ts, side, symbol, trades)
  }

  /** A message works on the desk of its target and on nothing else: what it does there, what
      it routes and unroutes, and what it counts, make up the whole step. */
  lemma StepsAt<R>(setup: Setup<R>, st: State<R>, m: Msg, info: OrderInfo)
    requires Target(st.routes, m) == Some(info)
    ensures var l := OnDesk(setup, DeskOf(setup, st.desks, info.symbol), info, m);
            var s := Step(setup, st, m);
            && s.state.desks == st.desks[info.symbol := l.desk] && s.events == l.events
            && s.state.stats == Plus(st.stats, l.stats)
            && s.state.routes == match l.route
                                 case None => st.routes - l.drop
                                 case Some(id) => (st.routes - l.drop)[id := info]
  {
    hide OnDesk;
  }

  /** Where a message that enters an order works: Add Order at the desk of its stock field, on
      the side of its indicator; Order Replace where its original is routed. */
  lemma EntryTargets(routes: map<nat, OrderInfo>, m: Msg)
    ensures m.AddOrder? ==>
              Target(routes, m) ==
              Some(OrderInfo(TrimSpaces(m.stock), if m.indicator == 'B' as int then Buy else Sell, m.mpid))
    ensures m.OrderReplace? ==>
              Target(routes, m) == if m.original in routes then Some(routes[m.original]) else None
  {
  }

  lemma CountsAdd(a: Stats, b: Stats)
    ensures var c := Plus(a, b);
            && c.addOrders == a.addOrders + b.addOrders && c.cancels == a.cancels + b.cancels
            && c.deletes == a.deletes + b.deletes && c.executes == a.executes + b.executes
            && c.nonPrintableSkipped == a.nonPrintableSkipped + b.nonPrintableSkipped
            && c.replacements == a.replacements + b.replacements && c.unrouted == a.unrouted + b.unrouted
            && c.otherMessageTypes == a.otherMessageTypes + b.otherMessageTypes
            && c.tradesProduced == a.tradesProduced + b.tradesProduced
            && c.addRejected == a.addRejected + b.addRejected && c.riskRejected == a.riskRejected + b.riskRejected
  {
  }

  /** One more of a single kind, and the trades made. */
  predicate Counts(c: Stats, adds: nat, replacements: nat, declined: nat, refused: nat, trades: nat) {
    && c.addOrders == adds && c.replacements == replacements && c.riskRejected == declined && c.addRejected == refused
    && c.tradesProduced == trades && c.cancels == c.deletes == c.executes == c.nonPrintableSkipped == 0
    && c.unrouted == c.otherMessageTypes == 0
  }

  /** Add Order enters a limit order for the message's shares at its price under its id. It is
      routed and published only if it was not turned down by risk or engine; what is published
      of it is what rests. */
  lemma AddEnters<R>(setup: Setup<R>, d: Desk<R>, info: OrderInfo, m: Msg) returns (o: Outcome)
    requires m.AddOrder? && Sound(d.engine)
    ensures var req := OrderRequest(m.id, info.side, Limit, m.price, m.shares);
            var l := OnDesk(setup, d, info, m);
            var first := MDEvent('A' as int, info.side, m.ts, m.id, 0, SymbolPad(info.symbol), m.price, Left(m, o));
            if !Passes(setup, d, req, info.mpid) then
              l.desk == d && l.drop == {} && l.route == None && l.events == [] && Counts(l.stats, 0, 0, 1, 0, 0)
            else
              && Entered(setup, d, l.desk, req, info.mpid, o)
              && if o.fault.Some? then
                   l.drop == {m.id} && l.route == None && l.events == [] && Counts(l.stats, 0, 0, 0, 1, 0)
                 else
                   && l.drop == {} && l.route == Some(m.id) && Counts(l.stats, 1, 0, 0, 0, |o.trades|)
                   && Announces(l.events, first, Left(m, o) > 0, m.ts, info.side, info.symbol, o.trades)
  {
    hide Sound, Passes, Entered, Enter, AddBounded, TradeEvents, Tape, RestingQty, SymbolPad, Filled, OnDesk, AddLocal,
         Counts, Announces;
    var req := OrderRequest(m.id, info.side, Limit, m.price, m.shares);
    o := AddBounded(d.engine, req);
    EnterExactly(setup, d, req, info.mpid);
    RestingLeft(d.engine, req);
    AddLocally(setup, d, info, m);
    var l := OnDesk(setup, d, info, m);
    var first := MDEvent('A' as int, info.side, m.ts, m.id, 0, SymbolPad(info.symbol), m.price, Left(m, o));
    Announced(l.events, first, Left(m, o) > 0, m.ts, info.side, info.symbol, o.trades);
  }

  lemma Announced(events: seq<MDEvent>, first: MDEvent, announced: bool, ts: nat, side: Side, symbol: Bytes,
                  trades: seq<Trade>)
    ensures var tape := TradeEvents(ts, side, symbol, trades);
            (if announced then events != [] && events[0] == first && events[1..] == tape else events == tape) ==>
              Announces(events, first, announced, ts, side, symbol, trades)
  {
    TapeOf(ts, side, symbol, trades);
    hide Tape, TradeEvents;
  }

  /** What is routed, counted and published of an added order, told from its verdict. */
  lemma AddLocally<R>(setup: Setup<R>, d: Desk<R>, info: OrderInfo, m: Msg)
    requires m.AddOrder?
    ensures var req := OrderRequest(m.id, info.side, Limit, m.price, m.shares);
            var x, l := Enter(setup, d, req, info.mpid), OnDesk(setup, d, info, m);
            var left, tape := RestingQty(req, x.trades), TradeEvents(m.ts, info.side, info.symbol, x.trades);
            && l.desk == x.desk
            && match x.verdict
               case Declined => l.drop == {} && l.route == None && l.events == [] && Counts(l.stats, 0, 0, 1, 0, 0)
               case Faulted => l.drop == {m.id} && l.route == None && l.events == [] && Counts(l.stats, 0, 0, 0, 1, 0)
               case Accepted =>
                 && l.drop == {} && l.route == Some(m.id) && Counts(l.stats, 1, 0, 0, 0, |x.trades|)
                 && (if left == 0 then l.events == tape
                     else l.events != [] && l.events[1..] == tape
                          && l.events[0] == MDEvent('A' as int, info.side, m.ts, m.id, 0, SymbolPad(info.symbol),
                                                    m.price, left))
  {
    hide Enter, TradeEvents, RestingQty, SymbolPad;
  }

  /** Shares of the message's order that did not trade. */
  function Left(m: Msg, o: Outcome): nat
    requires m.AddOrder? || m.OrderReplace?
  {
    if m.shares >= Filled(o.trades) then m.shares - Filled(o.trades) else 0
  }

  /** Order Replace takes the original off its book and its route, whatever comes of the rest,
      and tells the risk checks; then it enters a limit order for the message's shares at its
      price under the new id, on the original's side. It is published as a replacement by what
      rests, or as a deletion when nothing does. */
  lemma ReplaceEnters<R>(setup: Setup<R>, d: Desk<R>, info: OrderInfo, m: Msg) returns (c: Desk<R>, o: Outcome)
    requires m.OrderReplace? && Sound(d.engine) && Tidy(d.engine.book)
    ensures c == Desk(d.engine.(book := c.engine.book), setup.risk.noteRemoved(d.risk, info.mpid, info.side))
    ensures OnlyTakes(d.engine.book, c.engine.book, m.original, None) && Sound(c.engine)
    ensures var req := OrderRequest(m.id, info.side, Limit, m.price, m.shares);
            var l := OnDesk(setup, d, info, m);
            var pad := SymbolPad(info.symbol);
            var first := if Left(m, o) > 0
                         then MDEvent('R' as int, info.side, m.ts, m.original, m.id, pad, m.price, Left(m, o))
                         else MDEvent('D' as int, info.side, m.ts, m.original, 0, pad, 0, 0);
            && l.drop == {m.original}
            && if !Passes(setup, c, req, info.mpid) then
                 l.desk == c && l.route == None && l.events == [] && Counts(l.stats, 0, 0, 1, 0, 0)
               else
                 && Entered(setup, c, l.desk, req, info.mpid, o)
                 && if o.fault.Some? then l.route == None && l.events == [] && Counts(l.stats, 0, 0, 0, 1, 0)
                    else l.route == Some(m.id) && Counts(l.stats, 0, 1, 0, 0, |o.trades|)
                         && Announces(l.events, first, true, m.ts, info.side, info.symbol, o.trades)
  {
    hide Sound, Passes, Entered, Enter, AddBounded, TradeEvents, Tape, RestingQty, SymbolPad, Filled, OnlyTakes,
         TrimBook, Tidy, OnDesk, ReplaceLocal, Counts;
    var req := OrderRequest(m.id, info.side, Limit, m.price, m.shares);
    c := Withdrawn(setup, d, info, m.original);
    ReduceTakes(d.engine, m.original, None);
    TrimSound(d.engine, m.original, None);
    o := AddBounded(c.engine, req);
    EnterExactly(setup, c, req, info.mpid);
    RestingLeft(c.engine, req);
    TapeOf(m.ts, info.side, info.symbol, o.trades);
    ReplaceLocally(setup, d, info, m);
  }

  /** The same of a replacement, judged at the desk without the original. */
  lemma ReplaceLocally<R>(setup: Setup<R>, d: Desk<R>, info: OrderInfo, m: Msg)
    requires m.OrderReplace?
    ensures var req := OrderRequest(m.id, info.side, Limit, m.price, m.shares);
            var x, l := Enter(setup, Withdrawn(setup, d, info, m.original), req, info.mpid), OnDesk(setup, d, info, m);
            var left, tape := RestingQty(req, x.trades), TradeEvents(m.ts, info.side, info.symbol, x.trades);
            var pad := SymbolPad(info.symbol);
            && l.desk == x.desk && l.drop == {m.original}
            && match x.verdict
               case Declined => l.route == None && l.events == [] && Counts(l.stats, 0, 0, 1, 0, 0)
               case Faulted => l.route == None && l.events == [] && Counts(l.stats, 0, 0, 0, 1, 0)
               case Accepted =>
                 && l.route == Some(m.id) && Counts(l.stats, 0, 1, 0, 0, |x.trades|)
                 && l.events != [] && l.events[1..] == tape
                 && l.events[0] == if left == 0 then MDEvent('D' as int, info.side, m.ts, m.original, 0, pad, 0, 0)
                                   else MDEvent('R' as int, info.side, m.ts, m.original, m.id, pad, m.price, left)
  {
    hide Enter, TradeEvents, RestingQty, SymbolPad, Withdrawn;
  }

  /** The order of an accepted message stands with its side, its price and the shares that
      found nobody; with nobody at an acceptable price, with all of them. */
  ghost predicate Stands(b: Book, c: Book, id: nat, side: Side, price: nat, shares: nat) {
    var a := Available(Against(b, side), OrderRequest(id, side, Limit, price, shares));
    OrderOf(c, id) == if a < shares then Some(RestingOrder(side, price, shares - a)) else None
  }

  lemma AddRests<R>(setup: Setup<R>, d: Desk<R>, info: OrderInfo, m: Msg)
    requires m.AddOrder? && GoodDesk(d) && !Rests(d.engine.book, m.id) && OnDesk(setup, d, info, m).route.Some?
    ensures Stands(d.engine.book, OnDesk(setup, d, info, m).desk.engine.book, m.id, info.side, m.price, m.shares)
  {
    hide Sound, Tidy, Enter, OrderOf, Rests;
    var req := OrderRequest(m.id, info.side, Limit, m.price, m.shares);
    EnterShape(setup, d, req, info.mpid);
    AcceptedStands(d.engine, req);
  }

  lemma ReplaceRests<R>(setup: Setup<R>, d: Desk<R>, info: OrderInfo, m: Msg) returns (c: Book)
    requires m.OrderReplace? && GoodDesk(d) && FreshAt(d.engine.book, m) && OnDesk(setup, d, info, m).route.Some?
    ensures OnlyTakes(d.engine.book, c, m.original, None)
    ensures Stands(c, OnDesk(setup, d, info, m).desk.engine.book, m.id, info.side, m.price, m.shares)
    ensures m.original != m.id ==> OrderOf(OnDesk(setup, d, info, m).desk.engine.book, m.original) == None
  {
    hide Sound, Tidy, Enter, OrderOf, Rests, TrimBook, OnlyTakes, Stands, FreshAt;
    var req := OrderRequest(m.id, info.side, Limit, m.price, m.shares);
    var e := Withdrawn(setup, d, info, m.original);
    c := e.engine.book;
    ReduceTakes(d.engine, m.original, None);
    TrimSound(d.engine, m.original, None);
    TrimOrders(d.engine.book, m.original, None, m.original);
    ClearedFresh(d.engine.book, m);
    EnterShape(setup, e, req, info.mpid);
    AcceptedStands(e.engine, req);
    AcceptedOrders(e.engine, req, m.original);
    NoneStaysNone(AddBounded(e.engine, req).trades, m.original);
    hide AddBounded, RestingQty;
  }

  lemma AcceptedStands(e: Engine, req: OrderRequest)
    requires Sound(e) && Tidy(e.book) && req.kind.Limit? && req.price >= 0 && !Rests(e.book, req.id)
    requires AddBounded(e, req).fault.None?
    ensures Stands(e.book, AddBounded(e, req).engine.book, req.id, req.side, req.price, req.qty)
  {
    RestingLeft(e, req);
    LimitExactly(e, req);
    AcceptedOrders(e, req, req.id);
    OrderOfRests(e.book, req.id);
    NoneStaysNone(AddBounded(e, req).trades, req.id);
    hide Sound, Tidy, AddBounded, OrderOf, Rests, RestsOrThrows, Consumes, RestingQty, Available, Sweep;
  }
}

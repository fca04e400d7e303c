/** The sequencer object (cpp/feed/sequencer.cpp): one routing table, one counter record and,
    per symbol, a real matching engine with the symbol's risk state. Each message is proved
    to move the whole object exactly as the state transformer of module Sequencing says. */
module SequencerObject {
  import opened Orders
  import opened PriorityBook
  import opened PriorityLaws
  import opened Wire
  import opened MarketData
  import opened Sequencing
  import opened FeedLaws
  import opened MatchingEngine
  import LevelStore
  import opened Ledgers

  /** The objects one engine consists of. */
  function Parts(b: OrderBookV2): set<object> {
    {b, b.arena, b.index}
  }

  /** The engines lie inside the footprint and share no objects. */
  ghost predicate Apart(books: map<Bytes, OrderBookV2>, footprint: set<object>) {
    && (forall s :: s in books ==> Parts(books[s]) <= footprint)
    && (forall s, t :: s in books && t in books && s != t ==> Parts(books[s]) !! Parts(books[t]))
  }

  lemma Inside(books: map<Bytes, OrderBookV2>, footprint: set<object>, symbol: Bytes)
    requires Apart(books, footprint) && symbol in books
    ensures Parts(books[symbol]) <= footprint
  {
  }

  lemma Disjoint(books: map<Bytes, OrderBookV2>, footprint: set<object>, s: Bytes, t: Bytes)
    requires Apart(books, footprint) && s in books && t in books && s != t
    ensures Parts(books[s]) !! Parts(books[t])
  {
  }

  lemma ApartAdd(books: map<Bytes, OrderBookV2>, footprint: set<object>, symbol: Bytes, book: OrderBookV2)
    requires Apart(books, footprint) && Parts(book) !! footprint
    ensures Apart(books[symbol := book], footprint + Parts(book))
  {
    hide Parts;
    forall s, t | s in books && t in books && s != t && t == symbol
      ensures Parts(books[s]) !! Parts(book) {
      assert Parts(books[s]) <= footprint;
    }
  }

  lemma TradeNext<R>(risk: RiskPolicy<R>, r: R, ts: nat, side: Side, symbol: Bytes, trades: seq<Trade>, k: nat)
    requires k < |trades|
    ensures NoteTrades(risk, r, trades[k..]) == NoteTrades(risk, risk.onTrade(r, trades[k].price), trades[k + 1..])
    ensures var t := trades[k];
            TradeEvents(ts, side, symbol, trades[k..]) ==
            [MDEvent(TRADE, side, ts, t.makerId, t.takerId, SymbolPad(symbol), t.price, t.qty)]
            + TradeEvents(ts, side, symbol, trades[k + 1..])
  {
    assert trades[k..][1..] == trades[k + 1..];
  }

  lemma TradesEnd<R>(risk: RiskPolicy<R>, r: R, ts: nat, side: Side, symbol: Bytes)
    ensures NoteTrades(risk, r, []) == r && TradeEvents(ts, side, symbol, []) == []
  {
  }

  lemma PutThenDrop<K, V>(m: map<K, V>, k: K, v: V)
    ensures m[k := v] - {k} == m - {k}
  {
  }

  lemma Overwritten<K, V>(m: map<K, V>, k: K, v: V, w: V)
    ensures m[k := v][k := w] == m[k := w]
  {
  }

  /** The order, when risk and engine accept it, does not come to rest under a resting id. */
  predicate Enterable<R>(setup: Setup<R>, desk: Desk<R>, req: OrderRequest, mpid: Bytes) {
    Enter(setup, desk, req, mpid).verdict.Accepted? ==> !Clashes(desk.engine.book, req)
  }

  lemma EnterablePlaced<R>(setup: Setup<R>, desk: Desk<R>, req: OrderRequest, mpid: Bytes)
    requires setup.risk.check(desk.risk, req, mpid, QuoteOf(desk.engine.book))
    ensures Enterable(setup, desk, req, mpid) <==>
            !Clashes(desk.engine.book, req) || !Admit(setup, desk, req, mpid).verdict.Accepted?
  {
    hide Admit, Clashes;
  }

  lemma AdmitCases<R>(setup: Setup<R>, desk: Desk<R>, req: OrderRequest, mpid: Bytes)
    ensures var o, e := AddBounded(desk.engine, req), Admit(setup, desk, req, mpid);
            if o.fault.Some? then e.verdict == Faulted && e.desk == desk.(engine := o.engine)
            else && e.verdict == Accepted && e.trades == o.trades && e.desk.engine == o.engine
                 && e.desk.risk == NoteTrades(setup.risk, setup.risk.noteResting(desk.risk, mpid, req.side), o.trades)
  {
    hide AddBounded, NoteTrades;
  }

  lemma RestingIs(req: OrderRequest, trades: seq<Trade>)
    ensures RestingQty(req, trades) == Minus(req.qty, AsTaker(trades, req.id))
  {
  }

  predicate Admissible<R>(setup: Setup<R>, desk: Desk<R>, info: OrderInfo, m: Msg) {
    match m
    case AddOrder(_, _, _, _, _, _, _) => Enterable(setup, desk, AddRequest(m, info.side), info.mpid)
    case OrderReplace(_, _, _, _, _) =>
      Enterable(setup, Cleared(setup, desk, info, m), AddRequest(m, info.side), info.mpid)
    case _ => true
  }

  class Sequencer<R(!new)> {
    const setup: Setup<R>
    var routes: map<nat, OrderInfo>
    var stats: Stats
    var books: map<Bytes, OrderBookV2>
    var risks: map<Bytes, R>

    ghost var footprint: set<object>
    ghost var desks: map<Bytes, Desk<R>>

    /** The engines are kept apart, and every desk of the model has an engine and a risk state. */
    ghost predicate Shape()
      reads this`books, this`risks, this`desks, this`footprint
    {
      && Apart(books, footprint) && this !in footprint
      && (forall s :: s in books || s in desks || s in risks ==>
            s in books && s in desks && s in risks && desks[s].risk == risks[s])
    }

    /** Every desk of the model is a live engine together with its risk state. */
    ghost predicate Valid()
      reads this`books, this`risks, this`desks, this`footprint, footprint
    {
      Shape() && forall s :: s in books ==> books[s].Valid() && desks[s].engine == books[s].Abs()
    }

    ghost function Model(): State<R>
      reads this
    {
      State(routes, desks, stats)
    }

    constructor (setup: Setup<R>)
      requires setup.capacity <= LevelStore.NIL
      ensures Valid() && fresh(footprint) && this.setup == setup && Model() == Start()
    {
      this.setup := setup;
      routes, stats, books, risks := map[], ZERO, map[], map[];
      footprint, desks := {}, map[];
    }

    /** `book_for`: the symbol's engine, made on first use. */
    method OpenDesk(symbol: Bytes)
      requires Valid() && setup.capacity <= LevelStore.NIL
      modifies this`books, this`risks, this`desks, this`footprint
      ensures Valid() && fresh(footprint - old(footprint)) && this !in footprint
      ensures symbol in books && symbol in desks && Parts(books[symbol]) <= footprint
      ensures desks == old(desks)[symbol := DeskOf(setup, old(desks), symbol)]
    {
      hide Valid, OrderBookV2.Valid, OrderBookV2.Abs, Apart;
      if symbol in books {
        DeskAt(symbol);
        assert desks == desks[symbol := desks[symbol]];
      } else {
        FootprintApart();
        var book := new OrderBookV2(setup.capacity, setup.initialWindow);
        books := books[symbol := book];
        risks := risks[symbol := setup.risk.initial];
        desks := desks[symbol := NewDesk(setup)];
        footprint := footprint + Parts(book);
        Opened(symbol);
      }
    }

    /** One engine changed and the model with it: everything holds again exactly if the engine
        is consistent and what the model says. */
    twostate lemma Restored(symbol: Bytes)
      requires old(Valid()) && books == old(books) && footprint == old(footprint)
      requires symbol in books && symbol in desks && symbol in risks && desks[symbol].risk == risks[symbol]
      requires risks == old(risks)[symbol := risks[symbol]] && desks == old(desks)[symbol := desks[symbol]]
      requires forall o: object :: o in footprint && o !in Parts(books[symbol]) ==> unchanged(o)
      ensures Shape()
      ensures Valid() <==> books[symbol].Valid() && desks[symbol].engine == books[symbol].Abs()
    {
      hide OrderBookV2.Valid, OrderBookV2.Abs, Apart;
      forall s | s in books && s != symbol
        ensures books[s].Valid() && books[s].Abs() == old(books[s].Abs())
      {
        Inside(books, footprint, s);
        Disjoint(books, footprint, s, symbol);
      }
    }

    /** Only a risk state changed. */
    twostate lemma Noted(symbol: Bytes)
      requires old(Shape()) && books == old(books) && footprint == old(footprint)
      requires symbol in books && symbol in desks && symbol in risks && symbol in old(desks)
      requires desks[symbol] == old(desks)[symbol].(risk := risks[symbol])
      requires risks == old(risks)[symbol := risks[symbol]] && desks == old(desks)[symbol := desks[symbol]]
      requires forall o: object :: o in footprint ==> unchanged(o)
      ensures Shape() && (Valid() <==> old(Valid()))
    {
      hide OrderBookV2.Valid, OrderBookV2.Abs, Apart;
      forall s | s in books
        ensures books[s].Valid() == old(books[s].Valid()) && books[s].Abs() == old(books[s].Abs())
      {
        Inside(books, footprint, s);
      }
    }

    lemma ShapeAt(symbol: Bytes)
      requires Shape() && (symbol in books || symbol in desks)
      ensures symbol in books && symbol in desks && symbol in risks && desks[symbol].risk == risks[symbol]
      ensures Parts(books[symbol]) <= footprint && this !in footprint
    {
    }

    lemma ValidShape()
      requires Valid()
      ensures Shape()
    {
    }

    /** A fresh engine joined the others. */
    twostate lemma Opened(symbol: Bytes)
      requires old(Valid()) && symbol !in old(books) && symbol in books && fresh(Parts(books[symbol]))
      requires books == old(books)[symbol := books[symbol]] && books[symbol].Valid()
      requires risks == old(risks)[symbol := setup.risk.initial]
      requires desks == old(desks)[symbol := Desk(books[symbol].Abs(), setup.risk.initial)]
      requires footprint == old(footprint) + Parts(books[symbol])
      requires forall o: object :: o in old(footprint) ==> unchanged(o)
      ensures Valid() && symbol !in old(desks) && this !in footprint
    {
      hide OrderBookV2.Valid, OrderBookV2.Abs, Apart;
      ApartAdd(old(books), old(footprint), symbol, books[symbol]);
      forall s | s in books && s != symbol
        ensures books[s].Valid() && books[s].Abs() == old(books[s].Abs())
      {
        Inside(old(books), old(footprint), s);
      }
    }

    lemma FootprintApart()
      requires Valid()
      ensures this !in footprint
    {
    }

    lemma DeskAt(symbol: Bytes)
      requires Valid() && (symbol in books || symbol in desks)
      ensures symbol in books && symbol in desks && symbol in risks && books[symbol].Valid()
      ensures desks[symbol] == Desk(books[symbol].Abs(), risks[symbol]) && this !in footprint
      ensures desks[symbol].engine.book == books[symbol].Contents()
      ensures Parts(books[symbol]) <= footprint
    {
    }

    method Remove(symbol: Bytes, id: nat)
      requires Valid() && symbol in books
      modifies this`desks, books[symbol], books[symbol].arena, books[symbol].index
      ensures Valid() && desks == old(desks)[symbol := Reduced(old(desks)[symbol], id, None)]
    {
      hide Valid, OrderBookV2.Valid, OrderBookV2.Abs, ReduceBounded;
      DeskAt(symbol);
      var _ := books[symbol].Cancel(id);
      desks := desks[symbol := Reduced(desks[symbol], id, None)];
      Restored(symbol);
    }

    method Lessen(symbol: Bytes, id: nat, shares: nat)
      requires Valid() && symbol in books
      modifies this`desks, books[symbol], books[symbol].arena, books[symbol].index
      ensures Valid() && desks == old(desks)[symbol := Reduced(old(desks)[symbol], id, Some(shares))]
    {
      hide Valid, OrderBookV2.Valid, OrderBookV2.Abs, ReduceBounded;
      DeskAt(symbol);
      var _ := books[symbol].Reduce(id, shares);
      desks := desks[symbol := Reduced(desks[symbol], id, Some(shares))];
      Restored(symbol);
    }

    method Submit(symbol: Bytes, req: OrderRequest) returns (trades: seq<Trade>, fault: Option<Fault>)
      requires Valid() && symbol in books
      modifies this`desks, books[symbol], books[symbol].arena, books[symbol].index
      ensures Shape() && (Valid() <==> !Clashes(old(desks)[symbol].engine.book, req) || fault.Some?)
      ensures var o := AddBounded(old(desks)[symbol].engine, req);
              && trades == o.trades && fault == o.fault
              && desks == old(desks)[symbol := old(desks)[symbol].(engine := o.engine)]
    {
      hide Valid, OrderBookV2.Valid, OrderBookV2.Abs, AddBounded, Clashes;
      DeskAt(symbol);
      var book := books[symbol];
      trades, fault := book.Add(req);
      desks := desks[symbol := desks[symbol].(engine := AddBounded(desks[symbol].engine, req).engine)];
      Restored(symbol);
    }

    method Accepts(symbol: Bytes, req: OrderRequest, mpid: Bytes) returns (ok: bool)
      requires Valid() && symbol in books
      ensures ok == setup.risk.check(desks[symbol].risk, req, mpid, QuoteOf(desks[symbol].engine.book))
    {
      hide OrderBookV2.Valid, OrderBookV2.Contents, Apart;
      var book := books[symbol];
      var hasBid := book.HasBid();
      var hasAsk := book.HasAsk();
      var bid := book.BestBid();
      var ask := book.BestAsk();
      ok := setup.risk.check(risks[symbol], req, mpid,
                             Quote(if hasBid then Some(bid) else None, if hasAsk then Some(ask) else None));
    }

    method SetRisk(symbol: Bytes, risk: R)
      requires Shape() && symbol in books
      modifies this`desks, this`risks
      ensures Shape() && (Valid() <==> old(Valid()))
      ensures desks == old(desks)[symbol := old(desks)[symbol].(risk := risk)]
      ensures risks == old(risks)[symbol := risk]
    {
      hide Valid, Shape, OrderBookV2.Valid, OrderBookV2.Abs;
      ShapeAt(symbol);
      risks := risks[symbol := risk];
      desks := desks[symbol := desks[symbol].(risk := risk)];
      Noted(symbol);
    }

    // ---------- messages ----------

    /** Tell the risk checks about each trade and publish it. */
    method OnTrades(symbol: Bytes, ts: nat, side: Side, trades: seq<Trade>) returns (events: seq<MDEvent>)
      requires Shape() && symbol in books
      modifies this`desks, this`risks
      ensures Shape() && (Valid() <==> old(Valid())) && events == TradeEvents(ts, side, symbol, trades)
      ensures desks == old(desks)[symbol := old(desks)[symbol].(
                        risk := NoteTrades(setup.risk, old(desks)[symbol].risk, trades))]
    {
      hide Valid, Shape, SymbolPad, NoteTrades, TradeEvents;
      ShapeAt(symbol);
      events := [];
      assert trades[0..] == trades;
      assert desks == old(desks)[symbol := old(desks)[symbol].(risk := desks[symbol].risk)];
      var k := 0;
      while k < |trades|
        invariant 0 <= k <= |trades| && Shape() && (Valid() <==> old(Valid())) && symbol in desks
        invariant desks == old(desks)[symbol := old(desks)[symbol].(risk := desks[symbol].risk)]
        invariant NoteTrades(setup.risk, desks[symbol].risk, trades[k..])
                  == NoteTrades(setup.risk, old(desks)[symbol].risk, trades)
        invariant events + TradeEvents(ts, side, symbol, trades[k..]) == TradeEvents(ts, side, symbol, trades)
      {
        var t := trades[k];
        TradeNext(setup.risk, desks[symbol].risk, ts, side, symbol, trades, k);
        NotePrint(symbol, t.price);
        events := events + [MDEvent(TRADE, side, ts, t.makerId, t.takerId, SymbolPad(symbol), t.price, t.qty)];
        k := k + 1;
      }
      TradesEnd(setup.risk, desks[symbol].risk, ts, side, symbol);
      assert trades[k..] == [] && events + [] == events;
    }

    /** The risk checks hear of a resting order, then of each of its trades. */
    method NoteFilled(symbol: Bytes, side: Side, mpid: Bytes, ts: nat, trades: seq<Trade>) returns (tape: seq<MDEvent>)
      requires Shape() && symbol in books && symbol in desks
      modifies this`desks, this`risks
      ensures Shape() && (Valid() <==> old(Valid())) && tape == TradeEvents(ts, side, symbol, trades)
      ensures desks == old(desks)[symbol := old(desks)[symbol].(
                        risk := NoteTrades(setup.risk, setup.risk.noteResting(old(desks)[symbol].risk, mpid, side),
                                           trades))]
    {
      hide Valid, Shape, NoteTrades, TradeEvents;
      ShapeAt(symbol);
      SetRisk(symbol, setup.risk.noteResting(risks[symbol], mpid, side));
      tape := OnTrades(symbol, ts, side, trades);
    }

    /** An order that did not throw: risk hears of it and its trades; what rests of it. */
    method NotePlaced(symbol: Bytes, req: OrderRequest, mpid: Bytes, ts: nat, trades: seq<Trade>)
      returns (resting: nat, tape: seq<MDEvent>)
      requires Shape() && symbol in books && symbol in desks
      modifies this`desks, this`risks
      ensures Shape() && (Valid() <==> old(Valid()))
      ensures resting == RestingQty(req, trades) && tape == TradeEvents(ts, req.side, symbol, trades)
      ensures desks == old(desks)[symbol := old(desks)[symbol].(
                        risk := NoteTrades(setup.risk, setup.risk.noteResting(old(desks)[symbol].risk, mpid, req.side),
                                           trades))]
    {
      hide Valid, Shape, NoteTrades, TradeEvents, Minus, AsTaker, RestingQty;
      tape := NoteFilled(symbol, req.side, mpid, ts, trades);
      var filled := TakerFilled(trades, req.id);
      resting := Minus(req.qty, filled);
      RestingIs(req, trades);
    }

    /** The body of the try block: submit, note the order, tell risk about its trades. */
    method Place(symbol: Bytes, req: OrderRequest, mpid: Bytes, ts: nat)
      returns (fault: Option<Fault>, trades: seq<Trade>, resting: nat, tape: seq<MDEvent>)
      requires Valid() && symbol in books && symbol in desks
      modifies this`desks, this`risks, books[symbol], books[symbol].arena, books[symbol].index
      ensures Shape() && (Valid() <==> !Clashes(old(desks)[symbol].engine.book, req) || fault.Some?)
      ensures var e := Admit(setup, old(desks)[symbol], req, mpid);
              && desks == old(desks)[symbol := e.desk]
              && e.verdict == (if fault.None? then Accepted else Faulted) && (fault.None? ==> e.trades == trades)
      ensures fault.None? ==> resting == RestingQty(req, trades) && tape == TradeEvents(ts, req.side, symbol, trades)
    {
      hide Valid, Shape, AddBounded, NoteTrades, TradeEvents, Clashes, Parts, Admit, RestingQty, OrderBookV2.Valid,
           OrderBookV2.Abs, OrderBookV2.Contents;
      DeskAt(symbol);
      AdmitCases(setup, desks[symbol], req, mpid);
      resting, tape := 0, [];
      trades, fault := Submit(symbol, req);
      if fault.Some? { return; }
      ghost var d := desks[symbol];
      resting, tape := NotePlaced(symbol, req, mpid, ts, trades);
      Overwritten(old(desks), symbol, d, desks[symbol]);
    }

    /** What one message about `info` must have done. */
    twostate predicate Follows(info: OrderInfo, l: Local<R>)
      reads this
    {
      && routes == Reroute(old(routes), l.drop, l.route, info)
      && desks == old(desks)[info.symbol := l.desk]
      && stats == Plus(old(stats), l.stats)
    }

    /** The message makes no order rest under a resting id. */
    ghost predicate Admits(m: Msg)
      reads this
    {
      Target(routes, m).Some? ==>
        var info := Target(routes, m).value;
        Admissible(setup, DeskOf(setup, desks, info.symbol), info, m)
    }

    lemma OnlyEntriesClash(m: Msg)
      requires !m.AddOrder? && !(m.OrderReplace? && m.original in routes)
      ensures Admits(m)
    {
    }

    method OnAdd(m: Msg) returns (events: seq<MDEvent>)
      requires m.AddOrder? && Valid() && setup.capacity <= LevelStore.NIL
      modifies this, footprint
      ensures (Valid() <==> old(Admits(m))) && fresh(footprint - old(footprint))
      ensures var info := Target(old(routes), m).value;
              var l := AddLocal(setup, DeskOf(setup, old(desks), info.symbol), info, m);
              Follows(info, l) && events == l.events
    {
      hide Valid, Admit, TradeEvents, Clashes, TrimSpaces, SymbolPad, RestingQty, AddLocal, DeskOf;
      events := [];
      ghost var info := Target(routes, m).value;
      var symbol, side := TrimSpaces(m.stock), SideOf(m.indicator);
      OpenDesk(symbol);
      AddLocalDeclined(setup, desks[symbol], info, m);
      var ok := Accepts(symbol, OrderRequest(m.id, side, Limit, m.price, m.shares), m.mpid);
      if !ok {
        stats := stats.(riskRejected := stats.riskRejected + 1);
        return;
      }
      ghost var d := desks[symbol];
      events := TryAdd(symbol, side, m);
      Overwritten(old(desks), symbol, d, desks[symbol]);
    }

    /** The try and catch blocks of Add Order. */
    method TryAdd(symbol: Bytes, side: Side, m: Msg) returns (events: seq<MDEvent>)
      requires m.AddOrder? && Valid() && symbol in books && symbol in desks && this !in footprint
      requires setup.risk.check(desks[symbol].risk, AddRequest(m, side), m.mpid, QuoteOf(desks[symbol].engine.book))
      modifies this`routes, this`stats, this`desks, this`risks, books[symbol], books[symbol].arena, books[symbol].index
      ensures Valid() <==> Enterable(setup, old(desks)[symbol], AddRequest(m, side), m.mpid)
      ensures var info := OrderInfo(symbol, side, m.mpid);
              var l := AddLocal(setup, old(desks)[symbol], info, m);
              Follows(info, l) && events == l.events
    {
      hide Valid, Shape, Admit, Enterable, TradeEvents, Clashes, TrimSpaces, SymbolPad, RestingQty;
      EnterablePlaced(setup, desks[symbol], AddRequest(m, side), m.mpid);
      events := [];
      routes := routes[m.id := OrderInfo(symbol, side, m.mpid)];
      var req := OrderRequest(m.id, side, Limit, m.price, m.shares);
      var fault, trades, resting, tape := Place(symbol, req, m.mpid, m.ts);
      if fault.Some? {
        stats := stats.(addRejected := stats.addRejected + 1);
        PutThenDrop(old(routes), m.id, OrderInfo(symbol, side, m.mpid));
        routes := routes - {m.id};
        return;
      }
      stats := stats.(addOrders := stats.addOrders + 1, tradesProduced := stats.tradesProduced + |trades|);
      if resting > 0 {
        events := [MDEvent(ADD, side, m.ts, req.id, 0, SymbolPad(symbol), req.price, resting)];
      }
      events := events + tape;
    }

    /** Take an order off its book and tell risk; the caller drops its route. */
    method Withdraw(info: OrderInfo, id: nat)
      requires Valid() && setup.capacity <= LevelStore.NIL
      modifies this`books, this`risks, this`desks, this`footprint, footprint
      ensures Valid() && fresh(footprint - old(footprint)) && this !in footprint
      ensures routes == old(routes) && stats == old(stats)
      ensures info.symbol in books && info.symbol in desks && Parts(books[info.symbol]) <= footprint
      ensures desks == old(desks)[info.symbol := Withdrawn(setup, DeskOf(setup, old(desks), info.symbol), info, id)]
    {
      hide Valid, DeskOf, Reduced;
      OpenDesk(info.symbol);
      RemoveNoted(info, id);
    }

    method RemoveNoted(info: OrderInfo, id: nat)
      requires Valid() && info.symbol in books && info.symbol in desks
      modifies this`risks, this`desks
      modifies books[info.symbol], books[info.symbol].arena, books[info.symbol].index
      ensures Valid()
      ensures desks == old(desks)[info.symbol := Withdrawn(setup, old(desks)[info.symbol], info, id)]
    {
      hide Valid, Shape, ReduceBounded, OrderBookV2.Valid, OrderBookV2.Abs, OrderBookV2.Contents;
      Remove(info.symbol, id);
      DeskAt(info.symbol);
      ValidShape();
      SetRisk(info.symbol, setup.risk.noteRemoved(risks[info.symbol], info.mpid, info.side));
    }

    method OnReplace(m: Msg) returns (events: seq<MDEvent>)
      requires m.OrderReplace? && m.original in routes && Valid() && setup.capacity <= LevelStore.NIL
      modifies this, footprint
      ensures (Valid() <==> old(Admits(m))) && fresh(footprint - old(footprint))
      ensures var info := old(routes)[m.original];
              var l := ReplaceLocal(setup, DeskOf(setup, old(desks), info.symbol), info, m);
              Follows(info, l) && events == l.events
    {
      hide Valid, Admit, TradeEvents, Clashes, ReplaceOutcome, DeskOf, Withdrawn;
      events := [];
      var info := routes[m.original];
      Withdraw(info, m.original);
      routes := routes - {m.original};
      assert routes - {m.original} == routes;
      ghost var d := desks[info.symbol];
      ReplaceDeclined(info, m, d);
      var ok := Accepts(info.symbol, OrderRequest(m.id, info.side, Limit, m.price, m.shares), info.mpid);
      if !ok {
        stats := stats.(riskRejected := stats.riskRejected + 1);
        return;
      }
      events := TryReplace(info, m);
      Overwritten(old(desks), info.symbol, d, desks[info.symbol]);
    }

    /** The try and catch blocks of Order Replace; the original order and its route are gone. */
    method TryReplace(info: OrderInfo, m: Msg) returns (events: seq<MDEvent>)
      requires m.OrderReplace? && Valid() && info.symbol in books && info.symbol in desks && this !in footprint
      requires m.original !in routes
      requires setup.risk.check(desks[info.symbol].risk, AddRequest(m, info.side), info.mpid,
                                QuoteOf(desks[info.symbol].engine.book))
      modifies this`routes, this`stats, this`desks, this`risks
      modifies books[info.symbol], books[info.symbol].arena, books[info.symbol].index
      ensures Valid() <==> Enterable(setup, old(desks)[info.symbol], AddRequest(m, info.side), info.mpid)
      ensures var l := ReplaceOutcome(info, m, Admit(setup, old(desks)[info.symbol], AddRequest(m, info.side),
                                                     info.mpid));
              Follows(info, l) && events == l.events
    {
      hide Valid, Shape, Admit, Enterable, TradeEvents, Clashes, SymbolPad, RestingQty;
      EnterablePlaced(setup, desks[info.symbol], AddRequest(m, info.side), info.mpid);
      events := [];
      var req := OrderRequest(m.id, info.side, Limit, m.price, m.shares);
      var fault, trades, resting, tape := Place(info.symbol, req, info.mpid, m.ts);
      assert routes - {m.original} == routes;
      if fault.Some? {
        stats := stats.(addRejected := stats.addRejected + 1);
        return;
      }
      routes := routes[m.id := info];
      stats := stats.(replacements := stats.replacements + 1, tradesProduced := stats.tradesProduced + |trades|);
      if resting > 0 {
        events := [MDEvent(REPLACE, info.side, m.ts, m.original, m.id, SymbolPad(info.symbol), req.price, resting)];
      } else {
        events := [MDEvent(DELETE, info.side, m.ts, m.original, 0, SymbolPad(info.symbol), 0, 0)];
      }
      events := events + tape;
    }

    /** Order Cancel, and the executions the exchange reports: shares come off the order. */
    method TakeShares(info: OrderInfo, id: nat, shares: nat)
      requires Valid() && setup.capacity <= LevelStore.NIL
      modifies this`books, this`risks, this`desks, this`footprint, footprint
      ensures Valid() && fresh(footprint - old(footprint)) && this !in footprint
      ensures routes == old(routes) && stats == old(stats) && info.symbol in books && info.symbol in desks
      ensures desks == old(desks)[info.symbol := Reduced(DeskOf(setup, old(desks), info.symbol), id, Some(shares))]
    {
      hide Valid, DeskOf, Reduced;
      OpenDesk(info.symbol);
      Lessen(info.symbol, id, shares);
    }

    method OnCancel(m: Msg, info: OrderInfo) returns (events: seq<MDEvent>)
      requires m.OrderCancel? && Valid() && setup.capacity <= LevelStore.NIL
      modifies this, footprint
      ensures Valid() && fresh(footprint - old(footprint))
      ensures var l := OnDesk(setup, DeskOf(setup, old(desks), info.symbol), info, m);
              Follows(info, l) && events == l.events
    {
      hide Valid, DeskOf, Reduced, SymbolPad;
      TakeShares(info, m.id, m.shares);
      stats := stats.(cancels := stats.cancels + 1);
      events := [MDEvent(CANCEL, info.side, m.ts, m.id, 0, SymbolPad(info.symbol), 0, m.shares)];
    }

    method OnDelete(m: Msg, info: OrderInfo) returns (events: seq<MDEvent>)
      requires m.OrderDelete? && Valid() && setup.capacity <= LevelStore.NIL
      modifies this, footprint
      ensures Valid() && fresh(footprint - old(footprint))
      ensures var l := OnDesk(setup, DeskOf(setup, old(desks), info.symbol), info, m);
              Follows(info, l) && events == l.events
    {
      hide Valid, DeskOf, Withdrawn, SymbolPad;
      Withdraw(info, m.id);
      events := [MDEvent(DELETE, info.side, m.ts, m.id, 0, SymbolPad(info.symbol), 0, 0)];
      routes := routes - {m.id};
      stats := stats.(deletes := stats.deletes + 1);
    }

    method OnExecuted(m: Msg, info: OrderInfo) returns (events: seq<MDEvent>)
      requires m.OrderExecuted? && Valid() && setup.capacity <= LevelStore.NIL
      modifies this, footprint
      ensures Valid() && fresh(footprint - old(footprint))
      ensures var l := OnDesk(setup, DeskOf(setup, old(desks), info.symbol), info, m);
              Follows(info, l) && events == l.events
    {
      hide Valid, DeskOf, Reduced, SymbolPad;
      TakeShares(info, m.id, m.shares);
      stats := stats.(executes := stats.executes + 1);
      events := [MDEvent(TRADE, info.side, m.ts, m.id, 0, SymbolPad(info.symbol), 0, m.shares)];
    }

    method NotePrint(symbol: Bytes, price: int)
      requires Shape() && symbol in books && symbol in desks
      modifies this`desks, this`risks
      ensures Shape() && (Valid() <==> old(Valid()))
      ensures desks == old(desks)[symbol := old(desks)[symbol].(
                        risk := setup.risk.onTrade(old(desks)[symbol].risk, price))]
    {
      hide Valid, Shape;
      ShapeAt(symbol);
      SetRisk(symbol, setup.risk.onTrade(risks[symbol], price));
    }

    method OnExecutedWithPrice(m: Msg, info: OrderInfo) returns (events: seq<MDEvent>)
      requires m.OrderExecutedWithPrice? && Valid() && setup.capacity <= LevelStore.NIL
      modifies this, footprint
      ensures Valid() && fresh(footprint - old(footprint))
      ensures var l := OnDesk(setup, DeskOf(setup, old(desks), info.symbol), info, m);
              Follows(info, l) && events == l.events
    {
      hide Valid, Shape, DeskOf, Reduced, SymbolPad, OrderBookV2.Valid, OrderBookV2.Abs, OrderBookV2.Contents;
      TakeShares(info, m.id, m.shares);
      ValidShape();
      ghost var d := desks[info.symbol];
      NotePrint(info.symbol, m.price);
      Overwritten(old(desks), info.symbol, d, desks[info.symbol]);
      stats := stats.(executes := stats.executes + 1);
      events := [MDEvent(TRADE, info.side, m.ts, m.id, 0, SymbolPad(info.symbol), m.price, m.shares)];
    }

    method Unrouted()
      modifies this`stats
      ensures stats == Plus(old(stats), ZERO.(unrouted := 1))
    {
      stats := stats.(unrouted := stats.unrouted + 1);
    }

    /** `on_message`: engines, routes, counters, risk and published events all move as the
        state transformer says. */
    method OnMessage(m: Msg) returns (events: seq<MDEvent>)
      requires Valid() && setup.capacity <= LevelStore.NIL
      modifies this, footprint
      ensures (Valid() <==> old(Admits(m))) && fresh(footprint - old(footprint))
      ensures StepResult(Model(), events) == Step(setup, old(Model()), m)
    {
      hide Valid, Admits, DeskOf, OnDesk, AddLocal, ReplaceLocal;
      UnfoldDesk<R>();
      events := [];
      if !m.AddOrder? && !(m.OrderReplace? && m.original in routes) { OnlyEntriesClash(m); }
      if m.AddOrder? {
        events := OnAdd(m);
      } else if m.OtherMessage? {
        FootprintApart();
        stats := stats.(otherMessageTypes := stats.otherMessageTypes + 1);
      } else if m.OrderExecutedWithPrice? && m.printable == NOT_PRINTABLE {
        FootprintApart();
        stats := stats.(nonPrintableSkipped := stats.nonPrintableSkipped + 1);
      } else if Lookup(m).value !in routes {
        FootprintApart();
        Unrouted();
      } else {
        var info := routes[Lookup(m).value];
        match m {
          case OrderCancel(_, _, _) => events := OnCancel(m, info);
          case OrderDelete(_, _) => events := OnDelete(m, info);
          case OrderExecuted(_, _, _) => events := OnExecuted(m, info);
          case OrderExecutedWithPrice(_, _, _, _, _) => events := OnExecutedWithPrice(m, info);
          case OrderReplace(_, _, _, _, _) => events := OnReplace(m);
        }
      }
    }
  }

  lemma UnfoldDesk<R>()
    ensures forall setup: Setup<R>, desk: Desk<R>, info, m: Msg :: m.AddOrder? ==>
              OnDesk(setup, desk, info, m) == AddLocal(setup, desk, info, m)
    ensures forall setup: Setup<R>, desk: Desk<R>, info, m: Msg :: m.OrderReplace? ==>
              OnDesk(setup, desk, info, m) == ReplaceLocal(setup, desk, info, m)
  {
  }

  lemma ReplaceDeclined<R>(info: OrderInfo, m: Msg, desk: Desk<R>)
    requires m.OrderReplace?
    ensures forall e: Entered<R> :: ReplaceOutcome(info, m, e).drop == {m.original}
    ensures ReplaceOutcome(info, m, Entered(desk, Declined, [])) ==
        Local(desk, {m.original}, None, ZERO.(riskRejected := 1), [])
  {
  }

  /** A fresh id makes a message admissible. */
  lemma FreshIsAdmissible<R>(setup: Setup<R>, desk: Desk<R>, info: OrderInfo, m: Msg)
    requires FreshAt(desk.engine.book, m)
    ensures Admissible(setup, desk, info, m)
  {
    hide Clashes, Rests;
    match m {
      case AddOrder(_, _, _, _, _, _, _) => FreshNeverClashes(desk.engine.book, AddRequest(m, info.side));
      case OrderReplace(_, _, _, _, _) =>
        TrimIssues(desk.engine.book, m.original, None, m.id);
        TrimGone(desk.engine.book, m.original);
        FreshNeverClashes(Cleared(setup, desk, info, m).engine.book, AddRequest(m, info.side));
      case _ =>
    }
  }

  lemma TrimGone(b: Book, id: nat)
    ensures !Rests(TrimBook(b, id, None), id)
  {
    TrimRemoves(b.bids, id);
    TrimRemoves(b.asks, id);
  }

  lemma AddLocalDeclined<R>(setup: Setup<R>, desk: Desk<R>, info: OrderInfo, m: Msg)
    requires m.AddOrder?
    ensures !setup.risk.check(desk.risk, AddRequest(m, info.side), info.mpid, QuoteOf(desk.engine.book)) ==>
              AddLocal(setup, desk, info, m) == Local(desk, {}, None, ZERO.(riskRejected := 1), [])
  {
  }

  /** Shares the taker `id` got from its trades. */
  method TakerFilled(trades: seq<Trade>, id: nat) returns (filled: nat)
    ensures filled == AsTaker(trades, id)
  {
    filled := 0;
    var k := 0;
    while k < |trades|
      invariant 0 <= k <= |trades|
      invariant filled + AsTaker(trades[k..], id) == AsTaker(trades, id)
    {
      if trades[k].takerId == id { filled := filled + trades[k].qty; }
      k := k + 1;
    }
  }
}

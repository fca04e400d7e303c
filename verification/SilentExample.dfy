/** The two ways a message can change a book without publishing anything, on concrete runs:
    the public feed then no longer shows what rests in the engine. And an id that comes back
    too early, which loses the subscriber without silence. */
module SilentExample {
  import opened Orders
  import opened PriorityBook
  import opened MarketData
  import opened Snapshots
  import opened Sequencing
  import opened FeedLaws
  import opened FeedTheorems
  import opened FreshIds
  import opened Silence

  /** Orders above 40,000,000 ticks are declined. */
  function Banded(): Setup<bool> {
    Setup(128, 200, RiskPolicy(true, (r, req: OrderRequest, mpid, quote) => req.price <= 40_000_000,
                               (r, mpid, side) => r, (r, mpid, side) => r, (r, price) => r))
  }

  /** One buy order rests. */
  const BID := Entry(1, 33_554_432, 10)

  function WithBid(): Engine {
    Engine(Book([BID], []), Some(Window(33_554_332, 200)), 0, 128, 200)
  }

  lemma BidRests()
    ensures AddBounded(NewEngine(128, 200), OrderRequest(1, Buy, Limit, 33_554_432, 10)) == Outcome(WithBid(), [], None)
  {
    var e, req := NewEngine(128, 200), OrderRequest(1, Buy, Limit, 33_554_432, 10);
    assert Arrive(e.book, req) == Arrival(EMPTY_BOOK, [], 10);
    assert Reserve(e, 33_554_432) == Some(e.(window := Some(Window(33_554_332, 200))));
    assert Insert([], Buy, BID) == [BID];
  }

  /** A replacement beyond the price band is declined after the original is gone. */
  lemma DeclinedReplace(info: OrderInfo)
    requires info.side == Buy
    ensures var m := OrderReplace(0, 1, 2, 10, 50_000_000);
            var desk := Desk(WithBid(), true);
            var l := OnDesk(Banded(), desk, info, m);
            && Silent(Banded(), desk, info, m)
            && l.events == [] && l.desk.engine.book == EMPTY_BOOK
  {
    var m := OrderReplace(0, 1, 2, 10, 50_000_000);
    var desk := Desk(WithBid(), true);
    assert Trim([BID], 1, None) == [];
    assert Cleared(Banded(), desk, info, m).engine.book == EMPTY_BOOK;
    assert desk.engine.book.bids[0].id == 1;
    assert Holds(desk.engine.book.bids, 1);
    hide AddBounded;
  }

  /** A sell order far below the price axis fills the bid; its remainder is then refused. */
  lemma FillThenRefused(info: OrderInfo, stock: RawSymbol)
    requires info.side == Sell
    ensures var m := AddOrder(0, 2, 83, 20, stock, 100, []);
            var desk := Desk(WithBid(), true);
            var l := OnDesk(Banded(), desk, info, m);
            && Silent(Banded(), desk, info, m)
            && l.events == [] && l.desk.engine.book == EMPTY_BOOK
            && AddBounded(desk.engine, AddRequest(m, Sell)).trades == [Trade(1, 2, 33_554_432, 10)]
  {
    var req := OrderRequest(2, Sell, Limit, 100, 20);
    var e := WithBid();
    var w := Walk([BID], Buy, Some(100), 2, 20);
    assert Walk([], Buy, Some(100), 2, 10) == Fills([], [], 10);
    assert [BID][1..] == [];
    assert w == Fills([Trade(1, 2, 33_554_432, 10)], [], 10);
    assert Sweep(e.book, req) == Arrival(EMPTY_BOOK, w.trades, 10);
    assert Reserve(e.(book := EMPTY_BOOK), 100) == None;
    assert AddBounded(e, req) == Outcome(e.(book := EMPTY_BOOK), w.trades, Some(PriceOutOfRange));
    hide AddBounded, Sweep;
  }

  // ---------- as message streams ----------

  const STOCK: RawSymbol := [65, 32, 32, 32, 32, 32, 32, 32]

  function Opening(): Msg {
    AddOrder(0, 1, 66, 10, STOCK, 33_554_432, [])
  }

  lemma AfterOpening(st: State<bool>)
    requires st.routes == map[] && st.desks == map[]
    ensures var t := Step(Banded(), st, Opening()).state;
            && TrimSpaces(STOCK) == [65]
            && t.routes == map[1 := OrderInfo([65], Buy, [])]
            && DeskOf(Banded(), t.desks, [65]) == Desk(WithBid(), true)
  {
    TrimUnique(STOCK, [65]);
    BidRests();
    var setup, m, info := Banded(), Opening(), OrderInfo([65], Buy, []);
    var d := DeskOf(setup, st.desks, [65]);
    assert d == Desk(NewEngine(128, 200), true);
    hide TrimSpaces, AddBounded, NewEngine, WithBid, TradeEvents, SymbolPad, RestingQty, Plus;
    EnterShape(setup, d, AddRequest(m, Buy), []);
    assert Enter(setup, d, AddRequest(m, Buy), []).desk == Desk(WithBid(), true);
    assert OnDesk(setup, d, info, m).desk == Desk(WithBid(), true);
  }

  /** A stream that adds an order and then sends `last` to a silent fate loses the subscriber. */
  lemma SilentStream(last: Msg)
    requires SilentMsg(Banded(), Step(Banded(), Start(), Opening()).state, last)
    requires NeverReused([Opening(), last])
    ensures !NoSilence(Banded(), Start(), [Opening(), last])
    ensures !FollowedThroughout(Banded(), Start(), [Opening(), last], map[])
  {
    hide Step, SilentMsg, Kept, FreshMsgs, Followed, FollowedThroughout, NoSilence, NeverReused, Banded, Start, Opening;
    var ms := [Opening(), last];
    NeverReusedIsFresh(Banded(), ms);
    StartKept(Banded());
    StartFollowed(Banded());
    SecondSilent(Banded(), Start(), Opening(), last);
    FeedDeterminesBooks(Banded(), Start(), ms, map[]);
  }

  lemma SecondSilent(setup: Setup<bool>, st: State<bool>, a: Msg, b: Msg)
    requires SilentMsg(setup, Step(setup, st, a).state, b)
    ensures !NoSilence(setup, st, [a, b])
  {
    hide Step, SilentMsg;
    assert [a, b][1..] == [b];
    assert !NoSilence(setup, Step(setup, st, a).state, [b]);
  }

  lemma SilentAtDesk(st: State<bool>, info: OrderInfo, last: Msg)
    requires Target(st.routes, last) == Some(info) && DeskOf(Banded(), st.desks, info.symbol) == Desk(WithBid(), true)
    requires Silent(Banded(), Desk(WithBid(), true), info, last)
    ensures SilentMsg(Banded(), st, last)
  {
  }

  lemma DeclinedReplaceStream()
    ensures !FollowedThroughout(Banded(), Start(), [Opening(), OrderReplace(0, 1, 2, 10, 50_000_000)], map[])
  {
    hide Step, Silent, WithBid, Banded, DeskOf, SilentMsg, Start, FollowedThroughout, NoSilence;
    var st: State<bool> := Start();
    NothingYet(st);
    var last, info := OrderReplace(0, 1, 2, 10, 50_000_000), OrderInfo([65], Buy, []);
    AfterOpening(st);
    DeclinedReplace(info);
    SilentAtDesk(Step(Banded(), st, Opening()).state, info, last);
    SilentStream(last);
  }

  lemma FillThenRefusedStream()
    ensures !FollowedThroughout(Banded(), Start(), [Opening(), AddOrder(0, 2, 83, 20, STOCK, 100, [])], map[])
  {
    hide Step, Silent, WithBid, Banded, DeskOf, SilentMsg, Start, FollowedThroughout, NoSilence, TrimSpaces;
    var st: State<bool> := Start();
    NothingYet(st);
    var last, info := AddOrder(0, 2, 83, 20, STOCK, 100, []), OrderInfo([65], Sell, []);
    AfterOpening(st);
    FillThenRefused(info, STOCK);
    SilentAtDesk(Step(Banded(), st, Opening()).state, info, last);
    SilentStream(last);
  }

  lemma NothingYet(st: State<bool>)
    requires st == Start()
    ensures st.routes == map[] && st.desks == map[]
  {
  }

  // ---------- why the feed needs fresh ids ----------

  /** A sell order under the id of the resting bid fills that bid and rests its remainder. No
      two orders ever rest under one id, but the published trade names the new order. */
  function SelfMatch(): Msg {
    AddOrder(0, 1, 83, 20, STOCK, 33_554_432, [])
  }

  const ASK := Entry(1, 33_554_432, 10)

  lemma SelfMatchTrades()
    ensures var req := OrderRequest(1, Sell, Limit, 33_554_432, 20);
            && !Clashes(WithBid().book, req)
            && AddBounded(WithBid(), req) ==
               Outcome(WithBid().(book := Book([], [ASK])), [Trade(1, 1, 33_554_432, 10)], None)
  {
    var req, e := OrderRequest(1, Sell, Limit, 33_554_432, 20), WithBid();
    assert Walk([], Buy, Some(33_554_432), 1, 10) == Fills([], [], 10);
    assert [BID][1..] == [];
    assert Walk([BID], Buy, Some(33_554_432), 1, 20) == Fills([Trade(1, 1, 33_554_432, 10)], [], 10);
    assert Sweep(e.book, req) == Arrival(EMPTY_BOOK, [Trade(1, 1, 33_554_432, 10)], 10);
    assert Insert([], Sell, ASK) == [ASK];
  }

  lemma SelfMatchEvents(info: OrderInfo)
    requires info == OrderInfo([65], Sell, [])
    ensures var l := OnDesk(Banded(), Desk(WithBid(), true), info, SelfMatch());
            && l.desk.engine.book == Book([], [ASK])
            && l.events == [MDEvent(ADD, Sell, 0, 1, 0, SymbolPad([65]), 33_554_432, 10),
                            MDEvent(TRADE, Sell, 0, 1, 1, SymbolPad([65]), 33_554_432, 10)]
  {
    SelfMatchTrades();
    hide AddBounded, WithBid, SymbolPad;
    var trades := [Trade(1, 1, 33_554_432, 10)];
    assert trades[1..] == [];
    assert RestingQty(AddRequest(SelfMatch(), Sell), trades) == 10;
    assert TradeEvents(0, Sell, [65], trades) ==
           [MDEvent(TRADE, Sell, 0, 1, 1, SymbolPad([65]), 33_554_432, 10)];
  }

  /** The subscriber takes the trade off the order that has just been announced. */
  lemma SelfMatchLost(bs: Books, a: MDEvent, t: MDEvent)
    requires a == MDEvent(ADD, Sell, 0, 1, 0, SymbolPad([65]), 33_554_432, 10)
    requires t == MDEvent(TRADE, Sell, 0, 1, 1, SymbolPad([65]), 33_554_432, 10)
    ensures !Agrees(BookFor(ApplyAll(bs, [a, t]), [65]), Book([], [ASK]))
  {
    PadThenTrim([65]);
    hide SymbolPad, TrimSpaces;
    assert [a, t][1..] == [t] && [t][1..] == [];
    var cs := ApplyEvent(bs, a);
    assert BookFor(cs, [65])[1] == RestingOrder(Sell, 33_554_432, 10);
    assert 1 !in BookFor(ApplyEvent(cs, t), [65]);
    assert ApplyAll(cs, [t]) == ApplyEvent(cs, t);
    assert OrderOf(Book([], [ASK]), 1) == Some(RestingOrder(Sell, 33_554_432, 10));
  }

  lemma SelfMatchLoses(st: State<bool>, bs: Books)
    requires Target(st.routes, SelfMatch()) == Some(OrderInfo([65], Sell, []))
    requires DeskOf(Banded(), st.desks, [65]) == Desk(WithBid(), true)
    ensures var s := Step(Banded(), st, SelfMatch()); !Followed(Banded(), s.state, ApplyAll(bs, s.events))
    ensures !SilentMsg(Banded(), st, SelfMatch())
  {
    var info := OrderInfo([65], Sell, []);
    SelfMatchEvents(info);
    SelfMatchHeard(info);
    hide OnDesk, Target, Agrees, ApplyAll, SelfMatch, Banded, WithBid, Plus, Silent;
    var s := Step(Banded(), st, SelfMatch());
    assert BookAt(Banded(), s.state, [65]) == Book([], [ASK]);
    SelfMatchLost(bs, s.events[0], s.events[1]);
    assert s.events == [s.events[0], s.events[1]];
  }

  lemma SelfMatchHeard(info: OrderInfo)
    requires info == OrderInfo([65], Sell, [])
    ensures !Silent(Banded(), Desk(WithBid(), true), info, SelfMatch())
  {
    assert Reserve(WithBid(), 33_554_432).Some?;
  }

  lemma TwoFollowed(setup: Setup<bool>, st: State<bool>, a: Msg, b: Msg, bs: Books)
    requires FollowedThroughout(setup, st, [a, b], bs)
    ensures var s := Step(setup, st, a);
            var t := Step(setup, s.state, b);
            Followed(setup, t.state, ApplyAll(ApplyAll(bs, s.events), t.events))
  {
    hide Step, Followed;
    var s := Step(setup, st, a);
    assert [a, b][1..] == [b] && [b][1..] == [];
    assert FollowedThroughout(setup, s.state, [b], ApplyAll(bs, s.events));
  }

  /** Without fresh ids a subscriber can lose an engine although no message is silent and no
      two orders rest under one id. */
  lemma SelfMatchStream()
    ensures var after := Step(Banded(), Start(), Opening()).state; !SilentMsg(Banded(), after, SelfMatch())
    ensures !FollowedThroughout(Banded(), Start(), [Opening(), SelfMatch()], map[])
  {
    hide Step, WithBid, Banded, DeskOf, SilentMsg, Start, FollowedThroughout, TrimSpaces, Followed, ApplyAll, Opening;
    var st: State<bool> := Start();
    NothingYet(st);
    AfterOpening(st);
    var s := Step(Banded(), st, Opening());
    SelfMatchLoses(s.state, ApplyAll(map[], s.events));
    if FollowedThroughout(Banded(), st, [Opening(), SelfMatch()], map[]) {
      TwoFollowed(Banded(), st, Opening(), SelfMatch(), map[]);
    }
  }
}

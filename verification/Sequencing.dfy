/** The sequencer as a state transformer (cpp/feed/sequencer.cpp): ITCH messages become book
    operations, public events and counters. Each symbol has a desk: its engine and the
    state its risk checks keep. Risk decisions are a parameter, so every result holds for
    every risk policy that judges a symbol by that symbol's state. */
module Sequencing {
  import opened Orders
  import opened PriorityBook
  import opened Wire
  import opened MarketData
  import opened Ledgers

  datatype Msg =
    | AddOrder(ts: nat, id: nat, indicator: Byte, shares: nat, stock: RawSymbol, price: nat, mpid: Bytes)
    | OrderCancel(ts: nat, id: nat, shares: nat)
    | OrderDelete(ts: nat, id: nat)
    | OrderExecuted(ts: nat, id: nat, shares: nat)
    | OrderExecutedWithPrice(ts: nat, id: nat, shares: nat, printable: Byte, price: nat)
    | OrderReplace(ts: nat, original: nat, id: nat, shares: nat, price: nat)
    | OtherMessage

  const NOT_PRINTABLE: Byte := 78

  datatype OrderInfo = OrderInfo(symbol: Bytes, side: Side, mpid: Bytes)

  datatype Stats = Stats(
    addOrders: nat, cancels: nat, deletes: nat, executes: nat, nonPrintableSkipped: nat, replacements: nat,
    unrouted: nat, otherMessageTypes: nat, tradesProduced: nat, addRejected: nat, riskRejected: nat)

  const ZERO := Stats(0, 0, 0, 0, 0, 0, 0, 0, 0, 0, 0)

  function Plus(a: Stats, b: Stats): Stats {
    Stats(a.addOrders + b.addOrders, a.cancels + b.cancels, a.deletes + b.deletes, a.executes + b.executes,
          a.nonPrintableSkipped + b.nonPrintableSkipped, a.replacements + b.replacements, a.unrouted + b.unrouted,
          a.otherMessageTypes + b.otherMessageTypes, a.tradesProduced + b.tradesProduced,
          a.addRejected + b.addRejected, a.riskRejected + b.riskRejected)
  }

  /** The best prices of a book: all that a risk check reads from it. */
  datatype Quote = Quote(bid: Option<int>, ask: Option<int>)

  function QuoteOf(b: Book): Quote {
    Quote(if b.bids == [] then None else Some(b.bids[0].price), if b.asks == [] then None else Some(b.asks[0].price))
  }

  /** A risk policy over per-symbol state `R`. */
  datatype RiskPolicy<!R> = RiskPolicy(
    initial: R,
    check: (R, OrderRequest, Bytes, Quote) -> bool,
    noteResting: (R, Bytes, Side) -> R,
    noteRemoved: (R, Bytes, Side) -> R,
    onTrade: (R, int) -> R)

  /** Parameters of the books made on demand, and the policy. */
  datatype Setup<!R> = Setup(capacity: nat, initialWindow: nat, risk: RiskPolicy<R>)

  datatype Desk<R> = Desk(engine: Engine, risk: R)

  datatype State<R> = State(routes: map<nat, OrderInfo>, desks: map<Bytes, Desk<R>>, stats: Stats)

  datatype StepResult<R> = StepResult(state: State<R>, events: seq<MDEvent>)

  function Start<R>(): State<R> {
    State(map[], map[], ZERO)
  }

  function NewDesk<R>(setup: Setup<R>): Desk<R> {
    Desk(NewEngine(setup.capacity, setup.initialWindow), setup.risk.initial)
  }

  /** `book_for`: the symbol's desk, opened on first use. */
  function DeskOf<R>(setup: Setup<R>, desks: map<Bytes, Desk<R>>, symbol: Bytes): Desk<R> {
    if symbol in desks then desks[symbol] else NewDesk(setup)
  }

  function SideOf(indicator: Byte): Side {
    if indicator == 66 then Buy else Sell
  }

  // ---------- order entry at one desk ----------

  datatype Verdict = Declined | Faulted | Accepted

  datatype Entered<R> = Entered(desk: Desk<R>, verdict: Verdict, trades: seq<Trade>)

  function NoteTrades<R>(risk: RiskPolicy<R>, r: R, trades: seq<Trade>): R
    decreases trades
  {
    if trades == [] then r else NoteTrades(risk, risk.onTrade(r, trades[0].price), trades[1..])
  }

  /** The engine's answer to an order that passed its risk check. A fault leaves whatever
      matching already did. */
  function Admit<R>(setup: Setup<R>, desk: Desk<R>, req: OrderRequest, mpid: Bytes): Entered<R> {
    var o := AddBounded(desk.engine, req);
    if o.fault.Some? then Entered(desk.(engine := o.engine), Faulted, [])
    else Entered(Desk(o.engine, NoteTrades(setup.risk, setup.risk.noteResting(desk.risk, mpid, req.side), o.trades)),
                 Accepted, o.trades)
  }

  /** Risk check, then the engine. */
  function Enter<R>(setup: Setup<R>, desk: Desk<R>, req: OrderRequest, mpid: Bytes): Entered<R> {
    if !setup.risk.check(desk.risk, req, mpid, QuoteOf(desk.engine.book)) then Entered(desk, Declined, [])
    else Admit(setup, desk, req, mpid)
  }

  function TradeEvents(ts: nat, side: Side, symbol: Bytes, trades: seq<Trade>): seq<MDEvent> {
    if trades == [] then []
    else [MDEvent(TRADE, side, ts, trades[0].makerId, trades[0].takerId, SymbolPad(symbol), trades[0].price,
                  trades[0].qty)]
         + TradeEvents(ts, side, symbol, trades[1..])
  }

  /** Quantity of the order that is still there after its trades. */
  function RestingQty(req: OrderRequest, trades: seq<Trade>): nat {
    Minus(req.qty, AsTaker(trades, req.id))
  }

  // ---------- what a message does to its symbol ----------

  /** Effect on one desk, on the routing table, on the counters, and the published events. */
  datatype Local<R> = Local(desk: Desk<R>, drop: set<nat>, route: Option<nat>, stats: Stats, events: seq<MDEvent>)

  function AddRequest(m: Msg, side: Side): OrderRequest
    requires m.AddOrder? || m.OrderReplace?
  {
    OrderRequest(m.id, side, Limit, m.price, m.shares)
  }

  function AddLocal<R>(setup: Setup<R>, desk: Desk<R>, info: OrderInfo, m: Msg): Local<R>
    requires m.AddOrder?
  {
    var req := AddRequest(m, info.side);
    var e := Enter(setup, desk, req, info.mpid);
    match e.verdict
    case Declined => Local(e.desk, {}, None, ZERO.(riskRejected := 1), [])
    case Faulted => Local(e.desk, {m.id}, None, ZERO.(addRejected := 1), [])
    case Accepted =>
      var resting := RestingQty(req, e.trades);
      Local(e.desk, {}, Some(m.id), ZERO.(addOrders := 1, tradesProduced := |e.trades|),
            (if resting > 0
             then [MDEvent(ADD, info.side, m.ts, m.id, 0, SymbolPad(info.symbol), req.price, resting)]
             else [])
            + TradeEvents(m.ts, info.side, info.symbol, e.trades))
  }

  function Reduced<R>(desk: Desk<R>, id: nat, amount: Option<nat>): Desk<R> {
    desk.(engine := ReduceBounded(desk.engine, id, amount))
  }

  /** An order taken off its book, and the risk state told. */
  function Withdrawn<R>(setup: Setup<R>, desk: Desk<R>, info: OrderInfo, id: nat): Desk<R> {
    var d := Reduced(desk, id, None);
    d.(risk := setup.risk.noteRemoved(d.risk, info.mpid, info.side))
  }

  /** The desk a replacement order is entered at: the original is already gone. */
  function Cleared<R>(setup: Setup<R>, desk: Desk<R>, info: OrderInfo, m: Msg): Desk<R>
    requires m.OrderReplace?
  {
    Withdrawn(setup, desk, info, m.original)
  }

  function ReplaceLocal<R>(setup: Setup<R>, desk: Desk<R>, info: OrderInfo, m: Msg): Local<R>
    requires m.OrderReplace?
  {
    ReplaceOutcome(info, m, Enter(setup, Cleared(setup, desk, info, m), AddRequest(m, info.side), info.mpid))
  }

  function ReplaceOutcome<R>(info: OrderInfo, m: Msg, e: Entered<R>): Local<R>
    requires m.OrderReplace?
  {
    match e.verdict
    case Declined => Local(e.desk, {m.original}, None, ZERO.(riskRejected := 1), [])
    case Faulted => Local(e.desk, {m.original}, None, ZERO.(addRejected := 1), [])
    case Accepted =>
      var resting := RestingQty(AddRequest(m, info.side), e.trades);
      Local(e.desk, {m.original}, Some(m.id), ZERO.(replacements := 1, tradesProduced := |e.trades|),
            [if resting > 0
             then MDEvent(REPLACE, info.side, m.ts, m.original, m.id, SymbolPad(info.symbol), m.price, resting)
             else MDEvent(DELETE, info.side, m.ts, m.original, 0, SymbolPad(info.symbol), 0, 0)]
            + TradeEvents(m.ts, info.side, info.symbol, e.trades))
  }

  function OnDesk<R>(setup: Setup<R>, desk: Desk<R>, info: OrderInfo, m: Msg): Local<R> {
    match m
    case AddOrder(_, _, _, _, _, _, _) => AddLocal(setup, desk, info, m)
    case OrderCancel(ts, id, shares) =>
      Local(Reduced(desk, id, Some(shares)), {}, None, ZERO.(cancels := 1),
            [MDEvent(CANCEL, info.side, ts, id, 0, SymbolPad(info.symbol), 0, shares)])
    case OrderDelete(ts, id) =>
      Local(Withdrawn(setup, desk, info, id), {id}, None, ZERO.(deletes := 1),
            [MDEvent(DELETE, info.side, ts, id, 0, SymbolPad(info.symbol), 0, 0)])
    case OrderExecuted(ts, id, shares) =>
      Local(Reduced(desk, id, Some(shares)), {}, None, ZERO.(executes := 1),
            [MDEvent(TRADE, info.side, ts, id, 0, SymbolPad(info.symbol), 0, shares)])
    case OrderExecutedWithPrice(ts, id, shares, _, price) =>
      var d := Reduced(desk, id, Some(shares));
      Local(d.(risk := setup.risk.onTrade(d.risk, price)), {}, None, ZERO.(executes := 1),
            [MDEvent(TRADE, info.side, ts, id, 0, SymbolPad(info.symbol), price, shares)])
    case OrderReplace(_, _, _, _, _) => ReplaceLocal(setup, desk, info, m)
    case OtherMessage => Local(desk, {}, None, ZERO, [])
  }

  // ---------- routing ----------

  /** The id whose routing entry a later message needs. */
  function Lookup(m: Msg): Option<nat> {
    match m
    case OrderCancel(_, id, _) => Some(id)
    case OrderDelete(_, id) => Some(id)
    case OrderExecuted(_, id, _) => Some(id)
    case OrderExecutedWithPrice(_, id, _, printable, _) => if printable == NOT_PRINTABLE then None else Some(id)
    case OrderReplace(_, original, _, _, _) => Some(original)
    case _ => None
  }

  /** The symbol, side and participant a message concerns; None when it reaches no book. */
  function Target(routes: map<nat, OrderInfo>, m: Msg): Option<OrderInfo> {
    if m.AddOrder? then Some(OrderInfo(TrimSpaces(m.stock), SideOf(m.indicator), m.mpid))
    else match Lookup(m)
         case None => None
         case Some(id) => if id in routes then Some(routes[id]) else None
  }

  /** Counter of a message that reaches no book. */
  function Missed(m: Msg): Stats {
    match m
    case OtherMessage => ZERO.(otherMessageTypes := 1)
    case OrderExecutedWithPrice(_, _, _, printable, _) =>
      if printable == NOT_PRINTABLE then ZERO.(nonPrintableSkipped := 1) else ZERO.(unrouted := 1)
    case _ => ZERO.(unrouted := 1)
  }

  function Reroute(routes: map<nat, OrderInfo>, drop: set<nat>, route: Option<nat>, info: OrderInfo)
    : map<nat, OrderInfo>
  {
    var kept := routes - drop;
    match route
    case None => kept
    case Some(id) => kept[id := info]
  }

  /** The id a message brings in. */
  function Issued(m: Msg): Option<nat> {
    match m
    case AddOrder(_, id, _, _, _, _, _) => Some(id)
    case OrderReplace(_, _, id, _, _) => Some(id)
    case _ => None
  }

  /** Order reference numbers are used once. */
  predicate NeverReused(ms: seq<Msg>) {
    forall i, j :: 0 <= i < j < |ms| && Issued(ms[i]).Some? ==> Issued(ms[i]) != Issued(ms[j])
  }

  function Step<R>(setup: Setup<R>, st: State<R>, m: Msg): StepResult<R> {
    match Target(st.routes, m)
    case None => StepResult(st.(stats := Plus(st.stats, Missed(m))), [])
    case Some(info) =>
      var l := OnDesk(setup, DeskOf(setup, st.desks, info.symbol), info, m);
      StepResult(State(Reroute(st.routes, l.drop, l.route, info), st.desks[info.symbol := l.desk],
                       Plus(st.stats, l.stats)),
                 l.events)
  }

  function RunAll<R>(setup: Setup<R>, st: State<R>, ms: seq<Msg>): StepResult<R>
    decreases ms
  {
    if ms == [] then StepResult(st, [])
    else
      var s := Step(setup, st, ms[0]);
      var r := RunAll(setup, s.state, ms[1..]);
      StepResult(r.state, s.events + r.events)
  }

  /** The ids a message can route or unroute. */
  predicate Touches(m: Msg, id: nat) {
    match m
    case AddOrder(_, x, _, _, _, _, _) => id == x
    case OrderDelete(_, x) => id == x
    case OrderReplace(_, original, x, _, _) => id == original || id == x
    case _ => false
  }

  lemma NamedOnly<R>(setup: Setup<R>, desk: Desk<R>, info: OrderInfo, m: Msg)
    ensures var l := OnDesk(setup, desk, info, m);
            forall id :: id in l.drop || l.route == Some(id) ==> Touches(m, id)
  {
    hide Enter, TradeEvents, SymbolPad, RestingQty;
  }

  /** Only the id a message brings in can become routed. */
  lemma RouteIssued<R>(setup: Setup<R>, desk: Desk<R>, info: OrderInfo, m: Msg)
    ensures var l := OnDesk(setup, desk, info, m); l.route.Some? ==> l.route == Issued(m)
  {
    hide Enter, TradeEvents, SymbolPad, RestingQty;
  }

  lemma {:induction false} RunSnoc<R>(setup: Setup<R>, st: State<R>, ms: seq<Msg>, m: Msg)
    ensures var a := RunAll(setup, st, ms);
            var s := Step(setup, a.state, m);
            RunAll(setup, st, ms + [m]) == StepResult(s.state, a.events + s.events)
    decreases ms
  {
    hide Step;
    if ms == [] {
      assert [m][1..] == [];
    } else {
      assert (ms + [m])[1..] == ms[1..] + [m];
      RunSnoc(setup, Step(setup, st, ms[0]).state, ms[1..], m);
    }
  }
}

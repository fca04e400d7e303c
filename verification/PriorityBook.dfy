/** The specification of a price-time-priority book: each side is one list of resting
    orders, best price first and earliest arrival first within a price. Matching eats the
    front of the opposite list. Both engines are proved against this module. */
module PriorityBook {
  import opened Orders

  datatype Entry = Entry(id: nat, price: int, qty: nat)

  datatype Book = Book(bids: seq<Entry>, asks: seq<Entry>)

  const EMPTY_BOOK := Book([], [])

  function OnSide(b: Book, side: Side): seq<Entry> {
    if side.Buy? then b.bids else b.asks
  }

  function WithSide(b: Book, side: Side, f: seq<Entry>): Book {
    if side.Buy? then b.(bids := f) else b.(asks := f)
  }

  function Depth(b: Book): nat {
    |b.bids| + |b.asks|
  }

  /** `p` is a strictly better price than `q` for orders resting on `side`. */
  predicate Beats(side: Side, p: int, q: int) {
    if side.Buy? then p > q else p < q
  }

  /** Better prices first. */
  ghost predicate Sorted(f: seq<Entry>, side: Side) {
    forall i, j :: 0 <= i < j < |f| ==> !Beats(side, f[j].price, f[i].price)
  }

  /** A taker with this limit may trade at `price` with an order resting on `side`;
      no limit means Market. */
  predicate Crosses(side: Side, limit: Option<int>, price: int) {
    limit.None? || !Beats(side, limit.value, price)
  }

  function LimitOf(req: OrderRequest): Option<int> {
    if req.kind.Market? then None else Some(req.price)
  }

  // ---------- matching ----------

  datatype Fills = Fills(trades: seq<Trade>, rest: seq<Entry>, left: nat)

  /** Fill `qty` from the front of `f` while the limit allows. */
  function Walk(f: seq<Entry>, side: Side, limit: Option<int>, taker: nat, qty: nat): Fills {
    if qty == 0 || f == [] || !Crosses(side, limit, f[0].price) then
      Fills([], f, qty)
    else if f[0].qty <= qty then
      var r := Walk(f[1..], side, limit, taker, qty - f[0].qty);
      Fills([Trade(f[0].id, taker, f[0].price, f[0].qty)] + r.trades, r.rest, r.left)
    else
      Fills([Trade(f[0].id, taker, f[0].price, qty)], [f[0].(qty := f[0].qty - qty)] + f[1..], 0)
  }

  /** Total quantity a taker with this limit could reach. */
  function Crossable(f: seq<Entry>, side: Side, limit: Option<int>): nat {
    if f == [] || !Crosses(side, limit, f[0].price) then 0
    else f[0].qty + Crossable(f[1..], side, limit)
  }

  // ---------- resting, cancelling, reducing ----------

  /** Arrival of `e`: behind every order whose price is at least as good. */
  function Insert(f: seq<Entry>, side: Side, e: Entry): seq<Entry> {
    if f == [] then [e]
    else if Beats(side, e.price, f[0].price) then [e] + f
    else [f[0]] + Insert(f[1..], side, e)
  }

  /** Take `amount` (everything, for None) off the order `id`, dropping it at zero;
      every order keeps its place. */
  function Trim(f: seq<Entry>, id: nat, amount: Option<nat>): seq<Entry> {
    if f == [] then []
    else if f[0].id != id then [f[0]] + Trim(f[1..], id, amount)
    else if amount.None? || amount.value >= f[0].qty then Trim(f[1..], id, amount)
    else [f[0].(qty := f[0].qty - amount.value)] + Trim(f[1..], id, amount)
  }

  function TrimBook(b: Book, id: nat, amount: Option<nat>): Book {
    Book(Trim(b.bids, id, amount), Trim(b.asks, id, amount))
  }

  predicate Holds(f: seq<Entry>, id: nat) {
    exists k :: 0 <= k < |f| && f[k].id == id
  }

  predicate Rests(b: Book, id: nat) {
    Holds(b.bids, id) || Holds(b.asks, id)
  }

  // ---------- order entry ----------

  /** What an order does on arrival, before any remainder rests. */
  datatype Arrival = Arrival(book: Book, trades: seq<Trade>, rests: nat)

  function Arrive(b: Book, req: OrderRequest): Arrival {
    var opp := OnSide(b, Opposite(req.side));
    var limit := LimitOf(req);
    match req.kind
    case Cancel =>
      Arrival(TrimBook(b, req.id, None), [], 0)
    case FOK =>
      if Crossable(opp, Opposite(req.side), limit) < req.qty then Arrival(b, [], 0)
      else Sweep(b, req).(rests := 0)
    case Limit => Sweep(b, req)
    case _ => Sweep(b, req).(rests := 0)
  }

  function Sweep(b: Book, req: OrderRequest): Arrival {
    var opp := OnSide(b, Opposite(req.side));
    var w := Walk(opp, Opposite(req.side), LimitOf(req), req.id, req.qty);
    Arrival(WithSide(b, Opposite(req.side), w.rest), w.trades, w.left)
  }

  /** PostOnly is rejected when it would trade on arrival. */
  predicate WouldCross(b: Book, req: OrderRequest) {
    var opp := OnSide(b, Opposite(req.side));
    opp != [] && Crosses(Opposite(req.side), Some(req.price), opp[0].price)
  }

  function Rest(b: Book, req: OrderRequest, qty: nat): Book {
    WithSide(b, req.side, Insert(OnSide(b, req.side), req.side, Entry(req.id, req.price, qty)))
  }

  /** An unbounded engine: the reference semantics of `add`. */
  datatype Result = Result(book: Book, trades: seq<Trade>)

  function Add(b: Book, req: OrderRequest): Result {
    if req.kind.PostOnly? then
      Result(if WouldCross(b, req) then b else Rest(b, req, req.qty), [])
    else
      var a := Arrive(b, req);
      Result(if a.rests > 0 then Rest(a.book, req, a.rests) else a.book, a.trades)
  }

  /** The order would come to rest on a book that already holds its id. */
  predicate Clashes(b: Book, req: OrderRequest) {
    match req.kind
    case PostOnly => !WouldCross(b, req) && Rests(b, req.id)
    case Limit =>
      var a := Arrive(b, req);
      a.rests > 0 && Rests(a.book, req.id)
    case _ => false
  }

  // ---------- the bounded engine ----------

  const MAX_LEVELS := 0x100_0000

  /** The price axis: `size` levels starting at price `base`. */
  datatype Window = Window(base: int, size: nat)

  /** What the axis may grow to: a first window beyond the ceiling is kept. */
  function LevelBound(initialWindow: nat): nat {
    if initialWindow > MAX_LEVELS then initialWindow else MAX_LEVELS
  }

  datatype Fault = PriceOutOfRange | ArenaExhausted

  datatype Engine = Engine(book: Book, window: Option<Window>, growths: nat, capacity: nat, initialWindow: nat)

  datatype Outcome = Outcome(engine: Engine, trades: seq<Trade>, fault: Option<Fault>)

  function NewEngine(capacity: nat, initialWindow: nat): Engine {
    Engine(EMPTY_BOOK, None, 0, capacity, initialWindow)
  }

  /** The window after making room for `p`; None when the price is refused. */
  function Widen(w: Window, initialWindow: nat, p: int): Option<Window> {
    var idx := p - w.base;
    if idx < 0 then
      var shift := -idx + initialWindow / 4 + 1;
      if w.size + shift > MAX_LEVELS then None else Some(Window(w.base - shift, w.size + shift))
    else if idx >= w.size then
      var size := idx + initialWindow / 4 + 1;
      if size > MAX_LEVELS then None else Some(Window(w.base, size))
    else
      Some(w)
  }

  function WindowFor(e: Engine, p: int): Window {
    if e.window.Some? then e.window.value else Window(p - e.initialWindow / 2, e.initialWindow)
  }

  /** The engine once price `p` is on its axis; None when the price is refused. */
  function Reserve(e: Engine, p: int): Option<Engine> {
    var w := WindowFor(e, p);
    match Widen(w, e.initialWindow, p)
    case None => None
    case Some(w') => Some(e.(window := Some(w'), growths := e.growths + if w' == w then 0 else 1))
  }

  function RestBounded(e: Engine, req: OrderRequest, qty: nat, trades: seq<Trade>): Outcome {
    match Reserve(e, req.price)
    case None => Outcome(e, trades, Some(PriceOutOfRange))
    case Some(r) =>
      if Depth(e.book) >= e.capacity then Outcome(r, trades, Some(ArenaExhausted))
      else Outcome(r.(book := Rest(e.book, req, qty)), trades, None)
  }

  /** `OrderBookV2::add`: matching has already happened when resting faults. */
  function AddBounded(e: Engine, req: OrderRequest): Outcome {
    if req.kind.PostOnly? then
      if WouldCross(e.book, req) then Outcome(e, [], None) else RestBounded(e, req, req.qty, [])
    else
      var a := Arrive(e.book, req);
      var e' := e.(book := a.book);
      if a.rests > 0 then RestBounded(e', req, a.rests, a.trades) else Outcome(e', a.trades, None)
  }

  function ReduceBounded(e: Engine, id: nat, amount: Option<nat>): Engine {
    e.(book := TrimBook(e.book, id, amount))
  }
}

/** What each order type does to the book, told in quantities and prices alone: how much an
    order of a type can trade, what rests of it and where, and which calls throw. These laws
    hold the specification of `add`, `cancel` and `reduce` to the source's own words. */
module OrderTypes {
  import opened Orders
  import opened PriorityBook
  import opened PriorityLaws
  import opened EngineLaws
  import opened Ledgers

  // ---------- vocabulary ----------

  /** The other side of the book, best price first. */
  function Against(b: Book, side: Side): seq<Entry> {
    if side.Buy? then b.asks else b.bids
  }

  function Along(b: Book, side: Side): seq<Entry> {
    if side.Buy? then b.bids else b.asks
  }

  /** A taker of `side` may trade at `price`: no limit for Market, at the limit or better else. */
  predicate Acceptable(req: OrderRequest, price: int) {
    req.kind.Market? || if req.side.Buy? then price <= req.price else price >= req.price
  }

  /** Total quantity at acceptable prices, wherever it is in the list. */
  function Available(f: seq<Entry>, req: OrderRequest): nat {
    if f == [] then 0 else (if Acceptable(req, f[0].price) then f[0].qty else 0) + Available(f[1..], req)
  }

  /** The trades are with the first orders of `f`, in order and at their prices, all filled but
      perhaps the last; `g` is what is left of the list. */
  ghost predicate Consumes(f: seq<Entry>, g: seq<Entry>, req: OrderRequest, trades: seq<Trade>) {
    var n := |trades|;
    && n <= |f|
    && (forall k :: 0 <= k < n ==>
          && trades[k] == Trade(f[k].id, req.id, f[k].price, trades[k].qty)
          && Acceptable(req, f[k].price)
          && (trades[k].qty > 0 || f[k].qty == 0)
          && (if k < n - 1 then trades[k].qty == f[k].qty else trades[k].qty <= f[k].qty))
    && g == if n > 0 && trades[n - 1].qty < f[n - 1].qty
            then [f[n - 1].(qty := f[n - 1].qty - trades[n - 1].qty)] + f[n..] else f[n..]
  }

  /** `g` is `f` with the order resting behind all equal or better prices. */
  ghost predicate Joins(f: seq<Entry>, g: seq<Entry>, req: OrderRequest, qty: nat) {
    exists k :: 0 <= k <= |f| && g == f[..k] + [Entry(req.id, req.price, qty)] + f[k..]
                && forall j :: 0 <= j < |f| ==>
                     (j < k <==> if req.side.Buy? then f[j].price >= req.price else f[j].price <= req.price)
  }

  /** The price is on the axis, or the axis may grow to it within 2^24 levels. */
  predicate Fits(e: Engine, p: int) {
    match e.window
    case None => true
    case Some(w) =>
      if p < w.base then w.size + (w.base - p) + e.initialWindow / 4 + 1 <= 16_777_216
      else p < w.base + w.size || p - w.base + e.initialWindow / 4 + 1 <= 16_777_216
  }

  // ---------- sides and axis ----------

  /** Bids fall, asks rise, and the best bid is below the best ask. */
  lemma SidesInNumbers(e: Engine)
    requires Sound(e)
    ensures forall i, j :: 0 <= i < j < |e.book.bids| ==> e.book.bids[i].price >= e.book.bids[j].price
    ensures forall i, j :: 0 <= i < j < |e.book.asks| ==> e.book.asks[i].price <= e.book.asks[j].price
    ensures e.book.bids != [] && e.book.asks != [] ==> e.book.bids[0].price < e.book.asks[0].price
    ensures |e.book.bids| + |e.book.asks| <= e.capacity
  {
  }

  /** A price is refused exactly when the axis would have to grow past its ceiling; otherwise
      the axis grows just beyond the price, with a margin, on the price's side only. */
  lemma AxisExactly(e: Engine, p: int)
    ensures Reserve(e, p).Some? <==> Fits(e, p)
    ensures Fits(e, p) ==>
              var r, margin := Reserve(e, p).value, e.initialWindow / 4 + 1;
              && r == e.(window := r.window, growths := r.growths) && r.window.Some?
              && var v := r.window.value;
              && v.base <= p < v.base + v.size
              && match e.window
                 case None =>
                   v.base == p - e.initialWindow / 2 && v.size == (if e.initialWindow == 0 then 1 else e.initialWindow)
                 case Some(w) =>
                   if p < w.base then v.base == p - margin && v.base + v.size == w.base + w.size
                                      && r.growths == e.growths + 1
                   else if p >= w.base + w.size then v.base == w.base && v.base + v.size == p + margin
                                                     && r.growths == e.growths + 1
                   else v == w && r.growths == e.growths
  {
  }

  // ---------- matching ----------

  lemma SameCross(req: OrderRequest, price: int)
    ensures Crosses(Opposite(req.side), LimitOf(req), price) <==> Acceptable(req, price)
  {
  }

  lemma {:induction false} NoneAvailable(f: seq<Entry>, req: OrderRequest)
    requires forall k :: 0 <= k < |f| ==> !Acceptable(req, f[k].price)
    ensures Available(f, req) == 0
  {
    if f != [] { NoneAvailable(f[1..], req); }
  }

  /** On a sorted side the reachable quantity is everything at acceptable prices. */
  lemma {:induction false} ReachIsAvailable(f: seq<Entry>, req: OrderRequest)
    requires Sorted(f, Opposite(req.side))
    ensures Crossable(f, Opposite(req.side), LimitOf(req)) == Available(f, req)
  {
    if f != [] {
      SameCross(req, f[0].price);
      if Acceptable(req, f[0].price) {
        ReachIsAvailable(f[1..], req);
      } else {
        forall k | 0 <= k < |f| ensures !Acceptable(req, f[k].price) {
          if k > 0 { assert !Beats(Opposite(req.side), f[k].price, f[0].price); }
        }
        NoneAvailable(f, req);
      }
    }
  }

  /** A sweep trades all it can: the quantity of the order or all that is available. */
  lemma SweepExactly(b: Book, req: OrderRequest)
    requires WellFormed(b)
    ensures var s, a := Sweep(b, req), Available(Against(b, req.side), req);
            && Consumes(Against(b, req.side), Against(s.book, req.side), req, s.trades)
            && Along(s.book, req.side) == Along(b, req.side)
            && Filled(s.trades) == Min(req.qty, a) && s.rests == req.qty - Min(req.qty, a)
  {
    var opp, f := Opposite(req.side), Against(b, req.side);
    ReachIsAvailable(f, req);
    LeftOver(f, opp, LimitOf(req), req.id, req.qty);
    WalkIsPrefix(f, opp, LimitOf(req), req.id, req.qty);
    WalkFills(f, opp, LimitOf(req), req.id, req.qty);
    ConsumesInOrder(f, req, Sweep(b, req).trades);
    hide Walk, WellFormed, Crossable, Available, Consumes, InOrder, Remainder, Filled;
  }

  /** No trade is for nothing. */
  lemma {:induction false} WalkFills(f: seq<Entry>, side: Side, limit: Option<int>, taker: nat, qty: nat)
    ensures var t := Walk(f, side, limit, taker, qty).trades;
            |t| <= |f| && forall k :: 0 <= k < |t| ==> t[k].qty > 0 || f[k].qty == 0
  {
    if qty > 0 && f != [] && Crosses(side, limit, f[0].price) && f[0].qty <= qty {
      WalkFills(f[1..], side, limit, taker, qty - f[0].qty);
      var t, u := Walk(f, side, limit, taker, qty).trades, Walk(f[1..], side, limit, taker, qty - f[0].qty).trades;
      assert t[1..] == u;
      assert forall k :: 0 < k < |t| ==> t[k] == u[k - 1] && f[k] == f[1..][k - 1];
    }
  }

  lemma ConsumesInOrder(f: seq<Entry>, req: OrderRequest, trades: seq<Trade>)
    requires |trades| <= |f| && forall k :: 0 <= k < |trades| ==> trades[k].qty > 0 || f[k].qty == 0
    ensures InOrder(f, Opposite(req.side), LimitOf(req), req.id, trades) ==>
              Consumes(f, Remainder(f, trades), req, trades)
  {
    forall k | 0 <= k < |f|
      ensures Crosses(Opposite(req.side), LimitOf(req), f[k].price) <==> Acceptable(req, f[k].price)
    {
      SameCross(req, f[k].price);
    }
    hide Crosses, Acceptable;
  }

  lemma RestExactly(b: Book, req: OrderRequest, qty: nat)
    requires WellFormed(b)
    ensures var c := Rest(b, req, qty);
            Joins(Along(b, req.side), Along(c, req.side), req, qty) && Against(c, req.side) == Against(b, req.side)
  {
    var f := Along(b, req.side);
    var k := InsertPlace(f, req.side, Entry(req.id, req.price, qty));
    hide Insert, WellFormed;
  }

  /** What becomes of the part of an order that should rest, `f` being its own side: it stands
      there, or the call throws because the price does not fit or the arena is full. */
  ghost predicate RestsOrThrows(e: Engine, f: seq<Entry>, req: OrderRequest, qty: nat, o: Outcome) {
    var g := Along(o.engine.book, req.side);
    if !Fits(e, req.price) then
      o.fault == Some(PriceOutOfRange) && o.engine == e.(book := o.engine.book) && g == f
    else
      && o.engine == Reserve(e, req.price).value.(book := o.engine.book)
      && (if |f| + |Against(o.engine.book, req.side)| >= e.capacity then o.fault == Some(ArenaExhausted) && g == f
          else o.fault == None && Joins(f, g, req, qty))
  }

  lemma RestBoundedExactly(e: Engine, req: OrderRequest, qty: nat, trades: seq<Trade>)
    requires WellFormed(e.book)
    ensures var o := RestBounded(e, req, qty, trades);
            && RestsOrThrows(e, Along(e.book, req.side), req, qty, o) && o.trades == trades
            && Against(o.engine.book, req.side) == Against(e.book, req.side)
  {
    AxisExactly(e, req.price);
    RestExactly(e.book, req, qty);
    hide WellFormed, Joins, Rest, Fits;
    ReserveKeeps(e, req.price);
    hide Reserve;
  }

  lemma ReserveKeeps(e: Engine, p: int)
    ensures Reserve(e, p).Some? ==> Reserve(e, p).value.book == e.book
  {
  }

  /** The axis does not depend on the book. */
  lemma OtherBook(e: Engine, b: Book, f: seq<Entry>, req: OrderRequest, qty: nat, o: Outcome)
    requires RestsOrThrows(e.(book := b), f, req, qty, o)
    ensures RestsOrThrows(e, f, req, qty, o)
  {
    hide Joins, Widen;
    assert Fits(e.(book := b), req.price) == Fits(e, req.price);
    AxisExactly(e, req.price);
  }

  // ---------- the order types ----------

  /** PostOnly: nothing trades. It is turned down when some order is at an acceptable price;
      otherwise it stands with its whole quantity, or the call throws for exactly one reason. */
  lemma PostOnlyExactly(e: Engine, req: OrderRequest)
    requires Sound(e) && req.kind.PostOnly?
    ensures var o, f := AddBounded(e, req), Against(e.book, req.side);
            && o.trades == []
            && (if exists k :: 0 <= k < |f| && Acceptable(req, f[k].price) then o.engine == e && o.fault == None
                else RestsOrThrows(e, Along(e.book, req.side), req, req.qty, o)
                     && Against(o.engine.book, req.side) == f)
  {
    var f := Against(e.book, req.side);
    SoundIsWellFormed(e);
    CrossesAnywhere(e.book, req);
    RestBoundedExactly(e, req, req.qty, []);
    hide WellFormed, RestsOrThrows, Acceptable, RestBounded, WouldCross;
  }

  lemma CrossesAnywhere(b: Book, req: OrderRequest)
    requires WellFormed(b) && req.kind.PostOnly?
    ensures var f := Against(b, req.side);
            WouldCross(b, req) <==> exists k :: 0 <= k < |f| && Acceptable(req, f[k].price)
  {
    var f := Against(b, req.side);
    if f != [] && Acceptable(req, f[0].price) { SameCross(req, f[0].price); }
    if k :| 0 <= k < |f| && Acceptable(req, f[k].price) {
      assert k > 0 ==> !Beats(Opposite(req.side), f[k].price, f[0].price);
    }
  }

  /** Limit: trades all it can; the remainder stands, or the call throws for exactly one
      reason, the trades made. */
  ghost predicate LimitOutcome(e: Engine, req: OrderRequest, o: Outcome) {
    var f, own, a := Against(e.book, req.side), Along(e.book, req.side), Available(Against(e.book, req.side), req);
    && Filled(o.trades) == Min(req.qty, a)
    && Consumes(f, Against(o.engine.book, req.side), req, o.trades)
    && (if a < req.qty then RestsOrThrows(e, own, req, req.qty - a, o)
        else o.fault == None && o.engine == e.(book := o.engine.book) && Along(o.engine.book, req.side) == own)
  }

  lemma LimitExactly(e: Engine, req: OrderRequest)
    requires Sound(e) && req.kind.Limit?
    ensures LimitOutcome(e, req, AddBounded(e, req))
  {
    SoundIsWellFormed(e);
    SweepExactly(e.book, req);
    SweepWellFormed(e.book, req);
    hide Sound, WellFormed, Joins, Consumes, RestBounded, Sweep, Available, Filled, RestsOrThrows, Along, Against,
         AddBounded;
    var s := Sweep(e.book, req);
    LimitShape(e, req);
    if s.rests > 0 {
      RestBoundedExactly(e.(book := s.book), req, s.rests, s.trades);
      OtherBook(e, s.book, Along(s.book, req.side), req, s.rests, AddBounded(e, req));
    }
  }

  lemma LimitShape(e: Engine, req: OrderRequest)
    requires req.kind.Limit?
    ensures var s := Sweep(e.book, req);
            var d := e.(book := s.book);
            AddBounded(e, req) ==
            if s.rests > 0 then RestBounded(d, req, s.rests, s.trades) else Outcome(d, s.trades, None)
  {
    hide RestBounded, Sweep;
  }

  /** Market and IOC: trade all they can, at any price or within the limit; nothing rests and
      nothing throws. */
  lemma ImmediateExactly(e: Engine, req: OrderRequest)
    requires Sound(e) && (req.kind.Market? || req.kind.IOC?)
    ensures var o := AddBounded(e, req);
            && Filled(o.trades) == Min(req.qty, Available(Against(e.book, req.side), req))
            && Consumes(Against(e.book, req.side), Against(o.engine.book, req.side), req, o.trades)
            && o.fault == None && o.engine == e.(book := o.engine.book)
            && Along(o.engine.book, req.side) == Along(e.book, req.side)
  {
    SoundIsWellFormed(e);
    SweepExactly(e.book, req);
    hide WellFormed, Consumes, Sweep, Available;
  }

  /** FOK: trades its whole quantity when that much is available, and does nothing otherwise. */
  lemma FillOrKillExactly(e: Engine, req: OrderRequest)
    requires Sound(e) && req.kind.FOK?
    ensures var o := AddBounded(e, req);
            && o.fault == None
            && (if Available(Against(e.book, req.side), req) >= req.qty
                then && Filled(o.trades) == req.qty
                     && Consumes(Against(e.book, req.side), Against(o.engine.book, req.side), req, o.trades)
                     && o.engine == e.(book := o.engine.book)
                     && Along(o.engine.book, req.side) == Along(e.book, req.side)
                else o.trades == [] && o.engine == e)
  {
    SoundIsWellFormed(e);
    SweepExactly(e.book, req);
    ReachIsAvailable(Against(e.book, req.side), req);
    hide WellFormed, Consumes, Sweep, Available, Crossable;
  }

  // ---------- cancel and reduce ----------

  /** `g` is `f` with `n` shares (all, for None) off the order `id`, gone when nothing is left;
      every other order, and every place, is as before. */
  ghost predicate Lessened(f: seq<Entry>, g: seq<Entry>, id: nat, n: Option<nat>) {
    && ((forall k :: 0 <= k < |f| ==> f[k].id != id) ==> g == f)
    && (forall k :: 0 <= k < |f| && f[k].id == id ==>
          g == if n.None? || n.value >= f[k].qty then f[..k] + f[k + 1..]
               else f[k := Entry(id, f[k].price, f[k].qty - n.value)])
  }

  lemma {:induction false} TrimNothing(f: seq<Entry>, id: nat, n: Option<nat>)
    requires forall k :: 0 <= k < |f| ==> f[k].id != id
    ensures Trim(f, id, n) == f
  {
    if f != [] { TrimNothing(f[1..], id, n); }
  }

  lemma {:induction false} TrimExactly(f: seq<Entry>, id: nat, n: Option<nat>)
    requires Unique(f)
    ensures Lessened(f, Trim(f, id, n), id, n)
  {
    if forall k :: 0 <= k < |f| ==> f[k].id != id {
      TrimNothing(f, id, n);
    } else {
      var k :| 0 <= k < |f| && f[k].id == id;
      TrimAt(f, k, n);
      hide Trim;
      forall j | 0 <= j < |f| && f[j].id == id ensures j == k {
        assert f[j].id == f[k].id;
      }
    }
  }

  lemma {:induction false} TrimAt(f: seq<Entry>, k: nat, n: Option<nat>)
    requires Unique(f) && k < |f|
    ensures Trim(f, f[k].id, n) == if n.None? || n.value >= f[k].qty then f[..k] + f[k + 1..]
                                   else f[k := Entry(f[k].id, f[k].price, f[k].qty - n.value)]
  {
    var id, rest := f[k].id, f[1..];
    if k == 0 {
      assert forall j :: 0 <= j < |rest| ==> rest[j].id == f[j + 1].id != id;
      TrimNothing(rest, id, n);
    } else {
      assert Unique(rest) && f[0].id != id;
      TrimAt(rest, k - 1, n);
      assert f[..k] == [f[0]] + rest[..k - 1] && f[k + 1..] == rest[k..];
    }
  }

  /** Cancel and reduce touch one order, in place, and nothing else of the engine. */
  lemma ReduceExactly(e: Engine, id: nat, n: Option<nat>)
    requires Sound(e)
    ensures var r := ReduceBounded(e, id, n);
            && r == e.(book := r.book)
            && Lessened(e.book.bids, r.book.bids, id, n) && Lessened(e.book.asks, r.book.asks, id, n)
  {
    SoundIsWellFormed(e);
    UniqueSides(e.book, id);
    TrimExactly(e.book.bids, id, n);
    TrimExactly(e.book.asks, id, n);
    hide WellFormed, Lessened, Unique;
  }

  /** An order of type Cancel removes the order of its id. */
  lemma CancelOrderExactly(e: Engine, req: OrderRequest)
    requires Sound(e) && req.kind.Cancel?
    ensures var o := AddBounded(e, req);
            && o.trades == [] && o.fault == None && o.engine == e.(book := o.engine.book)
            && Lessened(e.book.bids, o.engine.book.bids, req.id, None)
            && Lessened(e.book.asks, o.engine.book.asks, req.id, None)
  {
    ReduceExactly(e, req.id, None);
    hide Lessened, Sound;
  }
}

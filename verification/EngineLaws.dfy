/** What every engine operation keeps, and what matching promises: price-time priority,
    all-or-nothing FOK, and conservation of quantity. */
module EngineLaws {
  import opened Orders
  import opened PriorityBook
  import opened PriorityLaws

  // ---------- price-time priority ----------

  function Filled(trades: seq<Trade>): nat {
    if trades == [] then 0 else trades[0].qty + Filled(trades[1..])
  }

  /** Trade `k` is with order `k` of the list; only the last order met may stay partly unfilled. */
  ghost predicate InOrder(f: seq<Entry>, side: Side, limit: Option<int>, taker: nat, t: seq<Trade>) {
    && |t| <= |f|
    && forall k :: 0 <= k < |t| ==>
                     && t[k] == Trade(f[k].id, taker, f[k].price, t[k].qty)
                     && Crosses(side, limit, f[k].price)
                     && (if k < |t| - 1 then t[k].qty == f[k].qty else t[k].qty <= f[k].qty)
  }

  /** What stays of a list after trades with its first orders. */
  ghost function Remainder(f: seq<Entry>, t: seq<Trade>): seq<Entry>
    requires |t| <= |f|
  {
    var n := |t|;
    if n > 0 && t[n - 1].qty < f[n - 1].qty then [f[n - 1].(qty := f[n - 1].qty - t[n - 1].qty)] + f[n..] else f[n..]
  }

  lemma SameRemainder(f: seq<Entry>, u: seq<Trade>)
    requires f != [] && 0 < |u| <= |f| && u[0].qty == f[0].qty
    ensures Remainder(f, u) == Remainder(f[1..], u[1..])
  {
    var n, g, v := |u|, f[1..], u[1..];
    assert g[n - 1..] == f[n..];
    assert n > 1 ==> v[n - 2] == u[n - 1] && g[n - 2] == f[n - 1];
  }

  lemma OneMore(f: seq<Entry>, side: Side, limit: Option<int>, taker: nat, t: seq<Trade>)
    requires f != [] && InOrder(f[1..], side, limit, taker, t) && Crosses(side, limit, f[0].price)
    ensures var u := [Trade(f[0].id, taker, f[0].price, f[0].qty)] + t;
            InOrder(f, side, limit, taker, u) && Remainder(f, u) == Remainder(f[1..], t)
  {
    var g, u := f[1..], [Trade(f[0].id, taker, f[0].price, f[0].qty)] + t;
    assert u[1..] == t;
    SameRemainder(f, u);
    hide Remainder, Crosses;
    forall k | 0 <= k < |u|
      ensures u[k] == Trade(f[k].id, taker, f[k].price, u[k].qty) && Crosses(side, limit, f[k].price)
      ensures if k < |u| - 1 then u[k].qty == f[k].qty else u[k].qty <= f[k].qty
    {
      if k > 0 { assert u[k] == t[k - 1] && f[k] == g[k - 1]; }
    }
  }

  /** A walk trades with a prefix of the list, in order, and conserves quantity. */
  lemma {:induction false} WalkIsPrefix(f: seq<Entry>, side: Side, limit: Option<int>, taker: nat, qty: nat)
    ensures var w := Walk(f, side, limit, taker, qty);
            && InOrder(f, side, limit, taker, w.trades)
            && w.rest == Remainder(f, w.trades)
            && Filled(w.trades) + w.left == qty
  {
    var w := Walk(f, side, limit, taker, qty);
    if qty == 0 || f == [] || !Crosses(side, limit, f[0].price) {
    } else if f[0].qty <= qty {
      var r := Walk(f[1..], side, limit, taker, qty - f[0].qty);
      WalkIsPrefix(f[1..], side, limit, taker, qty - f[0].qty);
      OneMore(f, side, limit, taker, r.trades);
      assert w.trades[1..] == r.trades;
      hide InOrder, Remainder;
    } else {
      assert w.trades[1..] == [];
    }
  }

  /** Whoever trades, everyone ahead in price-time order was completely filled before, at
      prices that never improve along the way and never break the limit. */
  lemma PriceTimePriority(f: seq<Entry>, side: Side, limit: Option<int>, taker: nat, qty: nat, k: nat, j: nat)
    requires Sorted(f, side)
    requires k < |Walk(f, side, limit, taker, qty).trades| && j < |f|
    ensures var t := Walk(f, side, limit, taker, qty).trades;
            && k < |f| && t[k].makerId == f[k].id && t[k].price == f[k].price
            && (Beats(side, f[j].price, f[k].price) || (f[j].price == f[k].price && j < k) ==>
                  j < k && t[j] == Trade(f[j].id, taker, f[j].price, f[j].qty))
            && (j < k ==> !Beats(side, t[k].price, t[j].price))
            && Crosses(side, limit, t[k].price)
  {
    WalkIsPrefix(f, side, limit, taker, qty);
  }

  /** A new order goes behind every order with an equal or better price and ahead of the rest. */
  lemma {:induction false} InsertPlace(f: seq<Entry>, side: Side, e: Entry) returns (k: nat)
    requires Sorted(f, side)
    ensures k <= |f| && Insert(f, side, e) == f[..k] + [e] + f[k..]
    ensures forall j :: 0 <= j < |f| ==> (Beats(side, e.price, f[j].price) <==> j >= k)
  {
    if f == [] {
      k := 0;
    } else if Beats(side, e.price, f[0].price) {
      k := 0;
    } else {
      var m := InsertPlace(f[1..], side, e);
      k := m + 1;
      assert f[..k] == [f[0]] + f[1..][..m];
      assert f[k..] == f[1..][m..];
    }
  }

  lemma InsertSorted(f: seq<Entry>, side: Side, e: Entry)
    requires Sorted(f, side)
    ensures Sorted(Insert(f, side, e), side)
  {
    var k := InsertPlace(f, side, e);
    var g := f[..k] + [e] + f[k..];
    assert forall i :: 0 <= i < |g| ==> g[i] == if i < k then f[i] else if i == k then e else f[i - 1];
  }

  /** Cancelling or reducing an order keeps every other order and their sequence. */
  lemma {:induction false} TrimKeepsOrder(f: seq<Entry>, id: nat, amount: Option<nat>, i: nat, j: nat)
    returns (i': nat, j': nat)
    requires i < j < |f| && f[i].id != id && f[j].id != id
    ensures i' < j' < |Trim(f, id, amount)|
    ensures Trim(f, id, amount)[i'] == f[i] && Trim(f, id, amount)[j'] == f[j]
  {
    var r := Trim(f[1..], id, amount);
    if i > 0 {
      i', j' := TrimKeepsOrder(f[1..], id, amount, i - 1, j - 1);
    } else {
      i' := 0;
      j' := TrimKeeps(f[1..], id, amount, j - 1);
    }
    if Trim(f, id, amount) != r {
      if i > 0 { i' := i' + 1; }
      j' := j' + 1;
    }
  }

  lemma {:induction false} TrimKeeps(f: seq<Entry>, id: nat, amount: Option<nat>, j: nat) returns (j': nat)
    requires j < |f| && f[j].id != id
    ensures j' < |Trim(f, id, amount)| && Trim(f, id, amount)[j'] == f[j]
  {
    if j == 0 {
      j' := 0;
    } else {
      j' := TrimKeeps(f[1..], id, amount, j - 1);
      if Trim(f, id, amount) != Trim(f[1..], id, amount) { j' := j' + 1; }
    }
  }

  // ---------- fill or kill ----------

  /** The aggregate test decides exactly: matching leaves what the reachable quantity lacks. */
  lemma {:induction false} LeftOver(f: seq<Entry>, side: Side, limit: Option<int>, taker: nat, qty: nat)
    ensures Walk(f, side, limit, taker, qty).left ==
            if Crossable(f, side, limit) >= qty then 0 else qty - Crossable(f, side, limit)
  {
    if !(qty == 0 || f == [] || !Crosses(side, limit, f[0].price)) && f[0].qty <= qty {
      LeftOver(f[1..], side, limit, taker, qty - f[0].qty);
    }
  }

  /** FOK is all-or-nothing: either the whole quantity trades or the book is untouched. */
  lemma FillOrKill(b: Book, req: OrderRequest)
    requires req.kind.FOK?
    ensures var opp := Opposite(req.side);
            var w := Walk(OnSide(b, opp), opp, Some(req.price), req.id, req.qty);
            var r := Add(b, req);
            && (w.left == 0 ==> r == Result(WithSide(b, opp, w.rest), w.trades) && Filled(r.trades) == req.qty)
            && (w.left > 0 ==> r == Result(b, []))
  {
    var opp := Opposite(req.side);
    LeftOver(OnSide(b, opp), opp, Some(req.price), req.id, req.qty);
    WalkIsPrefix(OnSide(b, opp), opp, Some(req.price), req.id, req.qty);
  }

  // ---------- the book invariant ----------

  ghost predicate Unique(f: seq<Entry>) {
    forall i, j :: 0 <= i < j < |f| ==> f[i].id != f[j].id
  }

  /** Sorted sides, a positive spread, and no id twice. */
  ghost predicate WellFormed(b: Book) {
    && Sorted(b.bids, Buy) && Sorted(b.asks, Sell)
    && (b.bids != [] && b.asks != [] ==> b.bids[0].price < b.asks[0].price)
    && Unique(b.bids + b.asks)
  }

  /** `g` keeps the ids and prices of an in-order part of `f`. */
  ghost predicate Part(g: seq<Entry>, f: seq<Entry>, at: seq<nat>) {
    && |at| == |g|
    && (forall k :: 0 <= k < |g| ==> at[k] < |f| && g[k].id == f[at[k]].id && g[k].price == f[at[k]].price)
    && (forall i, k :: 0 <= i < k < |g| ==> at[i] < at[k])
  }

  lemma {:induction false} TrimPart(f: seq<Entry>, id: nat, amount: Option<nat>) returns (at: seq<nat>)
    ensures Part(Trim(f, id, amount), f, at)
  {
    at := [];
    if f != [] {
      var r := TrimPart(f[1..], id, amount);
      var g, h := Trim(f[1..], id, amount), Trim(f, id, amount);
      assert h == g || (h == [h[0]] + g && h[0].id == f[0].id && h[0].price == f[0].price);
      hide Trim;
      at := if h == g then Up(r) else [0] + Up(r);
      PartUp(f, g, r);
      if h != g { PartCons(f, h[0], g, Up(r)); }
    }
  }

  function Up(at: seq<nat>): (r: seq<nat>)
    ensures |r| == |at| && forall k :: 0 <= k < |r| ==> r[k] == at[k] + 1
  {
    seq(|at|, k requires 0 <= k < |at| => at[k] + 1)
  }

  lemma PartUp(f: seq<Entry>, g: seq<Entry>, at: seq<nat>)
    requires f != [] && Part(g, f[1..], at)
    ensures Part(g, f, Up(at))
  {
    var t := f[1..];
    assert forall k :: 0 <= k < |t| ==> t[k] == f[k + 1];
  }

  lemma PartCons(f: seq<Entry>, e: Entry, g: seq<Entry>, at: seq<nat>)
    requires f != [] && Part(g, f, at) && (forall k :: 0 <= k < |at| ==> at[k] > 0)
    requires e.id == f[0].id && e.price == f[0].price
    ensures Part([e] + g, f, [0] + at)
  {
  }

  lemma WalkPart(f: seq<Entry>, side: Side, limit: Option<int>, taker: nat, qty: nat) returns (at: seq<nat>)
    ensures Part(Walk(f, side, limit, taker, qty).rest, f, at)
  {
    WalkIsPrefix(f, side, limit, taker, qty);
    var w := Walk(f, side, limit, taker, qty);
    hide Walk;
    assert |w.trades| <= |f|;
    at := RemainderPart(f, w.trades);
  }

  lemma RemainderPart(f: seq<Entry>, t: seq<Trade>) returns (at: seq<nat>)
    requires |t| <= |f|
    ensures Part(Remainder(f, t), f, at)
  {
    var r := Remainder(f, t);
    var skip := |f| - |r|;
    at := seq(|r|, k requires 0 <= k < |r| => k + skip);
    forall k | 0 <= k < |r| ensures r[k].id == f[k + skip].id && r[k].price == f[k + skip].price { }
  }

  lemma PartWellFormed(b: Book, b': Book, atBids: seq<nat>, atAsks: seq<nat>)
    requires WellFormed(b) && Part(b'.bids, b.bids, atBids) && Part(b'.asks, b.asks, atAsks)
    ensures WellFormed(b')
  {
    var f, g := b.bids + b.asks, b'.bids + b'.asks;
    forall i, j | 0 <= i < j < |g| ensures g[i].id != g[j].id {
      var x := if i < |b'.bids| then atBids[i] else |b.bids| + atAsks[i - |b'.bids|];
      var y := if j < |b'.bids| then atBids[j] else |b.bids| + atAsks[j - |b'.bids|];
      assert g[i].id == f[x].id && g[j].id == f[y].id && x < y;
    }
  }

  lemma Whole(f: seq<Entry>) returns (at: seq<nat>)
    ensures Part(f, f, at)
  {
    at := seq(|f|, k requires 0 <= k < |f| => k);
  }

  lemma TrimWellFormed(b: Book, id: nat, amount: Option<nat>)
    requires WellFormed(b)
    ensures WellFormed(TrimBook(b, id, amount))
    ensures Depth(TrimBook(b, id, amount)) <= Depth(b)
  {
    var x := TrimPart(b.bids, id, amount);
    var y := TrimPart(b.asks, id, amount);
    PartWellFormed(b, TrimBook(b, id, amount), x, y);
    TrimShorter(b.bids, id, amount);
    TrimShorter(b.asks, id, amount);
  }

  lemma {:induction false} TrimShorter(f: seq<Entry>, id: nat, amount: Option<nat>)
    ensures |Trim(f, id, amount)| <= |f|
  {
    if f != [] { TrimShorter(f[1..], id, amount); }
  }

  lemma SweepWellFormed(b: Book, req: OrderRequest)
    requires WellFormed(b)
    ensures WellFormed(Sweep(b, req).book) && Depth(Sweep(b, req).book) <= Depth(b)
  {
    var opp := Opposite(req.side);
    var at := WalkPart(OnSide(b, opp), opp, LimitOf(req), req.id, req.qty);
    var whole := Whole(OnSide(b, req.side));
    WalkIsPrefix(OnSide(b, opp), opp, LimitOf(req), req.id, req.qty);
    if opp.Buy? {
      PartWellFormed(b, Sweep(b, req).book, at, whole);
    } else {
      PartWellFormed(b, Sweep(b, req).book, whole, at);
    }
  }

  lemma ArriveCases(b: Book, req: OrderRequest)
    ensures var c := Arrive(b, req).book; c == b || c == Sweep(b, req).book || c == TrimBook(b, req.id, None)
  {
  }

  lemma RestWellFormed(b: Book, req: OrderRequest, qty: nat)
    requires WellFormed(b) && !Rests(b, req.id) && !WouldCross(b, req)
    ensures WellFormed(Rest(b, req, qty)) && Depth(Rest(b, req, qty)) == Depth(b) + 1
  {
    var f, e := OnSide(b, req.side), Entry(req.id, req.price, qty);
    InsertSorted(f, req.side, e);
    var k := InsertPlace(f, req.side, e);
    hide Insert, Rests, Sorted, Unique;
    RestSpread(b, req, qty, k);
    RestUnique(b, req, qty, k);
  }

  lemma RestSpread(b: Book, req: OrderRequest, qty: nat, k: nat)
    requires b.bids != [] && b.asks != [] ==> b.bids[0].price < b.asks[0].price
    requires !WouldCross(b, req) && k <= |OnSide(b, req.side)|
    requires var f, e := OnSide(b, req.side), Entry(req.id, req.price, qty);
             Insert(f, req.side, e) == f[..k] + [e] + f[k..]
    ensures var b' := Rest(b, req, qty); b'.bids != [] && b'.asks != [] ==> b'.bids[0].price < b'.asks[0].price
  {
    hide Insert;
  }

  lemma RestUnique(b: Book, req: OrderRequest, qty: nat, k: nat)
    requires Unique(b.bids + b.asks) && !Rests(b, req.id) && k <= |OnSide(b, req.side)|
    requires var f, e := OnSide(b, req.side), Entry(req.id, req.price, qty);
             Insert(f, req.side, e) == f[..k] + [e] + f[k..]
    ensures var b' := Rest(b, req, qty); Unique(b'.bids + b'.asks)
  {
    hide Insert, Rests, Rest;
    var e := Entry(req.id, req.price, qty);
    RestPlace(b, req, qty, k);
    RestsSomewhere(b, e.id);
    UniqueWith(b.bids + b.asks, PlaceOf(b, req, k), e);
  }

  /** Where place `k` of the order's own side is in the whole book. */
  function PlaceOf(b: Book, req: OrderRequest, k: nat): nat {
    if req.side.Buy? then k else |b.bids| + k
  }

  lemma RestPlace(b: Book, req: OrderRequest, qty: nat, k: nat)
    requires k <= |OnSide(b, req.side)|
    requires var f, e := OnSide(b, req.side), Entry(req.id, req.price, qty);
             Insert(f, req.side, e) == f[..k] + [e] + f[k..]
    ensures var b', g, m := Rest(b, req, qty), b.bids + b.asks, PlaceOf(b, req, k);
            m <= |g| && b'.bids + b'.asks == g[..m] + [Entry(req.id, req.price, qty)] + g[m..]
  {
    hide Insert;
  }

  lemma UniqueWith(g: seq<Entry>, m: nat, e: Entry)
    requires Unique(g) && m <= |g| && forall x :: 0 <= x < |g| ==> g[x].id != e.id
    ensures Unique(g[..m] + [e] + g[m..])
  {
    var h := g[..m] + [e] + g[m..];
    assert forall i :: 0 <= i < |h| ==> h[i] == if i < m then g[i] else if i == m then e else g[i - 1];
  }

  lemma RestsSomewhere(b: Book, id: nat)
    ensures Rests(b, id) <==> exists x :: 0 <= x < |b.bids + b.asks| && (b.bids + b.asks)[x].id == id
  {
    var g := b.bids + b.asks;
    if Holds(b.bids, id) {
      var k :| 0 <= k < |b.bids| && b.bids[k].id == id;
      assert g[k].id == id;
    } else if Holds(b.asks, id) {
      var k :| 0 <= k < |b.asks| && b.asks[k].id == id;
      assert g[|b.bids| + k].id == id;
    }
    if x :| 0 <= x < |g| && g[x].id == id {
      if x < |b.bids| { assert b.bids[x].id == id; } else { assert b.asks[x - |b.bids|].id == id; }
    }
  }

  // ---------- the engine invariant ----------

  /** Every price of a list lies on the axis. */
  ghost predicate OnAxis(f: seq<Entry>, w: Window) {
    forall k :: 0 <= k < |f| ==> w.base <= f[k].price < w.base + w.size
  }

  /** What holds of the engine in every reachable state, also after a fault. */
  ghost predicate Sound(e: Engine) {
    && WellFormed(e.book) && Depth(e.book) <= e.capacity
    && (match e.window
        case None => e.book == EMPTY_BOOK
        case Some(w) => w.size <= LevelBound(e.initialWindow)
                        && OnAxis(e.book.bids, w) && OnAxis(e.book.asks, w))
  }

  lemma NewIsSound(capacity: nat, initialWindow: nat)
    ensures Sound(NewEngine(capacity, initialWindow))
  {
  }

  /** Making room for a price: it ends up on the axis, no price falls off, and a refusal
      means the grown axis would pass the hard ceiling. */
  lemma ReserveCovers(e: Engine, p: int)
    requires Sound(e)
    ensures match Reserve(e, p)
            case None =>
              && e.window.Some?
              && (p < e.window.value.base || p >= e.window.value.base + e.window.value.size)
              && (if p < e.window.value.base
                  then e.window.value.size + (e.window.value.base - p) + e.initialWindow / 4 + 1 > MAX_LEVELS
                  else p - e.window.value.base + e.initialWindow / 4 + 1 > MAX_LEVELS)
            case Some(r) =>
              && r.window.Some? && r.window.value.base <= p < r.window.value.base + r.window.value.size
              && r.book == e.book && Sound(r)
              && (e.window.Some? ==>
                    && r.window.value.base <= e.window.value.base
                    && e.window.value.base + e.window.value.size <= r.window.value.base + r.window.value.size
                    && (r.growths == e.growths <==> r.window == e.window))
  {
    hide WellFormed;
  }

  lemma PartOnAxis(f: seq<Entry>, g: seq<Entry>, at: seq<nat>, w: Window)
    requires OnAxis(f, w) && Part(g, f, at)
    ensures OnAxis(g, w)
  {
  }

  lemma {:induction false} InsertOnAxis(f: seq<Entry>, side: Side, e: Entry, w: Window)
    requires OnAxis(f, w) && w.base <= e.price < w.base + w.size
    ensures OnAxis(Insert(f, side, e), w)
  {
    if f != [] && !Beats(side, e.price, f[0].price) {
      assert OnAxis(f[1..], w);
      InsertOnAxis(f[1..], side, e, w);
    }
  }

  lemma TrimSound(e: Engine, id: nat, amount: Option<nat>)
    requires Sound(e)
    ensures Sound(ReduceBounded(e, id, amount))
  {
    TrimWellFormed(e.book, id, amount);
    if e.window.Some? {
      var x := TrimPart(e.book.bids, id, amount);
      PartOnAxis(e.book.bids, Trim(e.book.bids, id, amount), x, e.window.value);
      var y := TrimPart(e.book.asks, id, amount);
      PartOnAxis(e.book.asks, Trim(e.book.asks, id, amount), y, e.window.value);
    }
    hide WellFormed, OnAxis;
  }

  lemma SweepSound(e: Engine, req: OrderRequest)
    requires Sound(e)
    ensures Sound(e.(book := Sweep(e.book, req).book))
  {
    hide WellFormed, Walk;
    var opp := Opposite(req.side);
    var f := OnSide(e.book, opp);
    SweepWellFormed(e.book, req);
    var at := WalkPart(f, opp, LimitOf(req), req.id, req.qty);
    if e.window.Some? {
      PartOnAxis(f, Walk(f, opp, LimitOf(req), req.id, req.qty).rest, at, e.window.value);
    } else {
      assert f == [];
      WalkIsPrefix(f, opp, LimitOf(req), req.id, req.qty);
    }
  }

  lemma ArriveSound(e: Engine, req: OrderRequest)
    requires Sound(e)
    ensures Sound(e.(book := Arrive(e.book, req).book))
  {
    hide Sound, Arrive, Sweep, TrimBook;
    ArriveCases(e.book, req);
    SweepSound(e, req);
    TrimSound(e, req.id, None);
    assert e.(book := e.book) == e;
  }

  lemma RestSound(e: Engine, req: OrderRequest, qty: nat, trades: seq<Trade>)
    requires Sound(e) && !Rests(e.book, req.id) && !WouldCross(e.book, req)
    ensures Sound(RestBounded(e, req, qty, trades).engine)
  {
    ReserveCovers(e, req.price);
    if Reserve(e, req.price).Some? && Depth(e.book) < e.capacity {
      var r := Reserve(e, req.price).value;
      RestWellFormed(e.book, req, qty);
      InsertOnAxis(OnSide(e.book, req.side), req.side, Entry(req.id, req.price, qty), r.window.value);
      hide WellFormed, OnAxis, Rests, WouldCross, Reserve;
    }
  }

  /** Every `add` keeps the engine sound, whatever the order type and also when it faults,
      unless the order comes to rest under a resting id. */
  lemma AddSound(e: Engine, req: OrderRequest)
    requires Sound(e)
    ensures Sound(AddBounded(e, req).engine) <==> !Clashes(e.book, req) || AddBounded(e, req).fault.Some?
  {
    hide WellFormed, OnAxis, Rests, WouldCross, Reserve, Arrive;
    if req.kind.PostOnly? {
      if !WouldCross(e.book, req) { RestSoundExactly(e, req, req.qty, []); }
    } else {
      var a := Arrive(e.book, req);
      ArriveSound(e, req);
      if a.rests > 0 {
        OnlyLimitRests(e.book, req);
        SweepThenRest(e.book, req);
        RestSoundExactly(e.(book := a.book), req, a.rests, a.trades);
      }
    }
  }

  lemma RestSoundExactly(e: Engine, req: OrderRequest, qty: nat, trades: seq<Trade>)
    requires Sound(e) && !WouldCross(e.book, req)
    ensures var o := RestBounded(e, req, qty, trades); Sound(o.engine) <==> !Rests(e.book, req.id) || o.fault.Some?
  {
    hide WellFormed, OnAxis, WouldCross, Reserve;
    ReserveCovers(e, req.price);
    if !Rests(e.book, req.id) {
      RestSound(e, req, qty, trades);
    } else {
      hide Sound;
      RestTwice(e.book, req, qty);
      if Sound(RestBounded(e, req, qty, trades).engine) { SoundIsWellFormed(RestBounded(e, req, qty, trades).engine); }
    }
  }

  lemma SoundIsWellFormed(e: Engine)
    requires Sound(e)
    ensures WellFormed(e.book)
  {
  }

  /** Resting a second order under a resting id leaves the id on the book twice. */
  lemma RestTwice(b: Book, req: OrderRequest, qty: nat)
    requires Rests(b, req.id) && WellFormed(b)
    ensures !WellFormed(Rest(b, req, qty))
  {
    var e := Entry(req.id, req.price, qty);
    var k := InsertPlace(OnSide(b, req.side), req.side, e);
    RestPlace(b, req, qty, k);
    RestsSomewhere(b, e.id);
    hide Insert, Rests, Sorted, Unique, Beats, Rest, OnSide;
    TwiceNotUnique(b.bids + b.asks, PlaceOf(b, req, k), e);
  }

  lemma TwiceNotUnique(g: seq<Entry>, m: nat, e: Entry)
    requires m <= |g| && exists x :: 0 <= x < |g| && g[x].id == e.id
    ensures !Unique(g[..m] + [e] + g[m..])
  {
    var x :| 0 <= x < |g| && g[x].id == e.id;
    var h := g[..m] + [e] + g[m..];
    assert h[m] == e && h[if x < m then x else x + 1] == g[x];
  }

  /** A full arena is reported exactly when capacity orders rest and one more should. */
  lemma ExhaustedExactly(e: Engine, req: OrderRequest)
    requires Sound(e)
    ensures var b := if req.kind.PostOnly? then e.book else Arrive(e.book, req).book;
            var more := if req.kind.PostOnly? then !WouldCross(e.book, req) else Arrive(e.book, req).rests > 0;
            AddBounded(e, req).fault == Some(ArenaExhausted) <==>
            more && Reserve(e, req.price).Some? && Depth(b) == e.capacity
  {
    ArriveSound(e, req);
    hide WellFormed, Arrive, OnAxis, WouldCross;
  }

  lemma {:induction false} WalkUsesUp(f: seq<Entry>, side: Side, limit: Option<int>, taker: nat, qty: nat)
    ensures var w := Walk(f, side, limit, taker, qty); w.left > 0 ==> |w.rest| + |w.trades| == |f|
  {
    if qty > 0 && f != [] && Crosses(side, limit, f[0].price) && f[0].qty <= qty {
      WalkUsesUp(f[1..], side, limit, taker, qty - f[0].qty);
    }
  }

  /** An order refused for want of arena space has not traded: had it traded and still wanted
      to rest, the makers it used up would have left their nodes free. */
  lemma ExhaustedTradesNothing(e: Engine, req: OrderRequest)
    requires Sound(e) && AddBounded(e, req).fault == Some(ArenaExhausted)
    ensures AddBounded(e, req).trades == []
  {
    hide WellFormed, OnAxis, WouldCross, Walk, Crossable;
    WalkUsesUp(OnSide(e.book, Opposite(req.side)), Opposite(req.side), LimitOf(req), req.id, req.qty);
  }

  /** The bounded engine and the unbounded reference make the same trades; their books agree
      exactly when the bounded one did not fault. */
  lemma AgreeUnlessFault(e: Engine, req: OrderRequest)
    ensures var o := AddBounded(e, req);
            && o.trades == Add(e.book, req).trades
            && (o.engine.book == Add(e.book, req).book <==> o.fault.None?)
  {
    if req.kind.PostOnly? {
      if !WouldCross(e.book, req) {
        InsertLonger(OnSide(e.book, req.side), req.side, Entry(req.id, req.price, req.qty));
      }
    } else {
      var a := Arrive(e.book, req);
      if a.rests > 0 { InsertLonger(OnSide(a.book, req.side), req.side, Entry(req.id, req.price, a.rests)); }
    }
    hide Insert, Arrive, WouldCross;
  }
}

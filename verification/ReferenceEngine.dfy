/** The reference engine (cpp/src/order_book.cpp): a sorted map of FIFO deques per side.
    A queued order keeps its id and quantity; its price and side are its place. */
module ReferenceEngine {
  import opened Orders
  import opened PriorityBook
  import opened PriorityLaws
  import opened PriceLevels
  import opened Shelves

  /** One fill at the head of the best level is one step of the walk. */
  lemma FillStep(w: Fills, done: seq<Trade>, l: Levels, side: Side, p: int, limit: Option<int>, taker: nat, left: nat)
    requires IsBest(side, l, p) && l[p] != []
    requires left > 0 && Crosses(side, limit, p)
    requires Continues(w, done, Priority(side, l), side, limit, taker, left)
    ensures var q := l[p];
            var fill := Min(left, q[0].qty);
            var l' := Put(l, p, if q[0].qty <= left then q[1..] else [Resting(q[0].id, q[0].qty - left)] + q[1..]);
            && Continues(w, done + [Trade(q[0].id, taker, p, fill)], Priority(side, l'), side, limit, taker,
                         left - fill)
            && |Priority(side, l')| + (left - fill) < |Priority(side, l)| + left
            && (p in l' ==> IsBest(side, l', p))
  {
    hide Priority, Walk;
    var q := l[p];
    FillHead(side, l, p, q[0].qty - Min(left, q[0].qty));
    ContinueStep(w, done, Priority(side, l), side, limit, taker, left);
  }

  class OrderBook {
    var bids: Levels
    var asks: Levels
    var index: map<nat, Location>

    ghost function View(): Shelf
      reads this
    {
      Shelf(bids, asks, index)
    }

    ghost predicate Valid()
      reads this
    {
      Shelved(View())
    }

    ghost function Contents(): Book
      reads this
    {
      BookOn(View())
    }

    constructor ()
      ensures Valid() && Contents() == EMPTY_BOOK
    {
      bids, asks, index := map[], map[], map[];
    }

    /** The first entry of a side's sorted map. */
    method Begin(side: Side) returns (p: int)
      requires LevelsOn(View(), side) != map[]
      ensures IsBest(side, LevelsOn(View(), side), p)
    {
      var l := if side.Buy? then bids else asks;
      BestExists(side, l);
      p :| p in l && forall q :: q in l && q != p ==> Beats(side, p, q);
    }

    method SetLevel(side: Side, p: int, q: Queue)
      modifies this`bids, this`asks
      ensures View() == WithLevels(old(View()), side, Put(old(LevelsOn(View(), side)), p, q))
    {
      if side.Buy? {
        bids := if q == [] then bids - {p} else bids[p := q];
      } else {
        asks := if q == [] then asks - {p} else asks[p := q];
      }
    }

    /** Fill from the front of the best opposite level. */
    method FillFront(side: Side, p: int, taker: nat, qty: nat) returns (t: Trade)
      requires Valid() && IsBest(side, LevelsOn(View(), side), p) && qty > 0
      modifies this
      ensures Valid()
      ensures var l := old(LevelsOn(View(), side));
              var q := l[p];
              && q != [] && t == Trade(q[0].id, taker, p, Min(qty, q[0].qty))
              && View().index == (if q[0].qty <= qty then old(index) - {q[0].id} else old(index))
              && View().(index := old(index)) ==
                 WithLevels(old(View()), side,
                            Put(l, p, if q[0].qty <= qty then q[1..] else [Resting(q[0].id, q[0].qty - qty)] + q[1..]))
    {
      hide Shelved;
      ghost var s := View();
      QueueThere(s, side, p);
      var q := (if side.Buy? then bids else asks)[p];
      var maker := q[0];
      var fill := Min(qty, maker.qty);
      t := Trade(maker.id, taker, p, fill);
      if maker.qty == fill {
        ShelfRemove(s, side, p, 0);
        assert q[..0] + q[1..] == q[1..];
        index := index - {maker.id};
      } else {
        ShelfShrink(s, side, p, maker.qty - fill);
      }
      SetLevel(side, p, if maker.qty == fill then q[1..] else [Resting(maker.id, maker.qty - fill)] + q[1..]);
    }

    /** Fill from the level `p` until the order is done or the level is erased. */
    method FillLevel(side: Side, p: int, taker: nat, qty: nat, ghost w: Fills, done: seq<Trade>,
                     ghost limit: Option<int>)
      returns (trades: seq<Trade>, left: nat)
      requires Valid() && IsBest(side, LevelsOn(View(), side), p) && qty > 0 && Crosses(side, limit, p)
      requires Continues(w, done, Priority(side, LevelsOn(View(), side)), side, limit, taker, qty)
      modifies this
      ensures Valid() && LevelsOn(View(), Opposite(side)) == old(LevelsOn(View(), Opposite(side)))
      ensures Continues(w, trades, Priority(side, LevelsOn(View(), side)), side, limit, taker, left)
      ensures |Priority(side, LevelsOn(View(), side))| + left < old(|Priority(side, LevelsOn(View(), side))|) + qty
    {
      hide Shelved, Continues, Priority, Crosses;
      trades, left := done, qty;
      while left > 0 && p in (if side.Buy? then bids else asks)
        invariant Valid() && LevelsOn(View(), Opposite(side)) == old(LevelsOn(View(), Opposite(side)))
        invariant p in LevelsOn(View(), side) ==> IsBest(side, LevelsOn(View(), side), p)
        invariant Continues(w, trades, Priority(side, LevelsOn(View(), side)), side, limit, taker, left)
        invariant |Priority(side, LevelsOn(View(), side))| + left <= old(|Priority(side, LevelsOn(View(), side))|) + qty
        invariant |Priority(side, LevelsOn(View(), side))| + left == old(|Priority(side, LevelsOn(View(), side))|) + qty
                  ==> left > 0 && p in LevelsOn(View(), side)
        decreases |Priority(side, LevelsOn(View(), side))| + left
      {
        ShelfNonEmpty(View(), side);
        FillStep(w, trades, LevelsOn(View(), side), side, p, limit, taker, left);
        var t := FillFront(side, p, taker, left);
        trades := trades + [t];
        left := left - t.qty;
      }
    }

    method Match(req: OrderRequest) returns (trades: seq<Trade>, left: nat)
      requires Valid()
      modifies this
      ensures Valid()
      ensures var opp := Opposite(req.side);
              var w := Walk(OnSide(old(Contents()), opp), opp, LimitOf(req), req.id, req.qty);
              && trades == w.trades && left == w.left
              && Contents() == WithSide(old(Contents()), opp, w.rest)
    {
      hide Walk, Shelved;
      var opp, limit := Opposite(req.side), LimitOf(req);
      ghost var w := Walk(OnSide(Contents(), opp), opp, limit, req.id, req.qty);
      trades, left := [], req.qty;
      assert Continues(w, trades, OnSide(Contents(), opp), opp, limit, req.id, left);
      hide Continues;
      while left > 0 && (if opp.Buy? then bids else asks) != map[]
        invariant Valid()
        invariant LevelsOn(View(), req.side) == old(LevelsOn(View(), req.side))
        invariant Continues(w, trades, Priority(opp, LevelsOn(View(), opp)), opp, limit, req.id, left)
        decreases |Priority(opp, LevelsOn(View(), opp))| + left
      {
        var p := Begin(opp);
        BestIsFirst(View(), opp, p);
        if req.kind != Market && (if req.side.Buy? then req.price < p else req.price > p) { break; }
        trades, left := FillLevel(opp, p, req.id, left, w, trades, limit);
      }
      WalkEnds(w, trades, View(), opp, limit, req.id, left);
    }

    /** Could the order be filled completely right now? Walks single orders. */
    method CanFullyFill(req: OrderRequest) returns (r: bool)
      requires Valid()
      ensures var opp := Opposite(req.side);
              var f := OnSide(Contents(), opp);
              r <==> if req.qty > 0 then Crossable(f, opp, Some(req.price)) >= req.qty
                     else f != [] && Crosses(opp, Some(req.price), f[0].price)
    {
      hide Shelved, Priority, Crosses;
      var opp, limit := Opposite(req.side), Some(req.price);
      var rest := if opp.Buy? then bids else asks;
      ghost var all := rest;
      ShelfNonEmpty(View(), opp);
      var available := 0;
      EmptyPriority(opp);
      while rest != map[]
        invariant NonEmpty(rest)
        invariant available == 0 || available < req.qty
        invariant req.qty == 0 ==> rest == all
        invariant Crossable(Priority(opp, all), opp, limit) == available + Crossable(Priority(opp, rest), opp, limit)
        decreases |rest|
      {
        BestExists(opp, rest);
        var p :| p in rest && forall q :: q in rest && q != p ==> Beats(opp, p, q);
        BestUnique(opp, rest, p);
        FillHead(opp, rest, p, 0);
        CrossableByLevel(opp, rest, limit);
        Shrinks(rest, p);
        assert Crosses(opp, limit, p) <==> (if req.side.Buy? then p <= req.price else p >= req.price) by {
          CrossesByPrice(opp, req.price, p);
        }
        if (if req.side.Buy? then p > req.price else p < req.price) { return false; }
        var sum := TotalOf(rest[p]);
        available := available + sum;
        if available >= req.qty { return true; }
        rest := rest - {p};
      }
      return false;
    }

    method TotalOf(q: Queue) returns (sum: nat)
      ensures sum == Total(q)
    {
      sum := 0;
      var i := 0;
      while i < |q|
        invariant 0 <= i <= |q|
        invariant Total(q) == sum + Total(q[i..])
      {
        assert q[i..][1..] == q[i + 1..];
        sum := sum + q[i].qty;
        i := i + 1;
      }
    }

    method Append(side: Side, price: int, id: nat, qty: nat)
      requires Valid()
      modifies this
      ensures Valid() <==> !old(Rests(Contents(), id))
      ensures var f := OnSide(old(Contents()), side);
              Contents() == WithSide(old(Contents()), side, Insert(f, side, Entry(id, price, qty)))
    {
      hide Shelved, Priority, Rests;
      ghost var s := View();
      IndexIsRests(s, id);
      ghost var l := LevelsOn(s, side);
      if id in index {
        ShelfClash(s, side, price, Resting(id, qty));
      } else {
        ShelfAppend(s, side, price, Resting(id, qty));
      }
      InsertAtLevel(side, l, price, Resting(id, qty));
      if side.Buy? {
        bids := bids[price := (if price in bids then bids[price] else []) + [Resting(id, qty)]];
      } else {
        asks := asks[price := (if price in asks then asks[price] else []) + [Resting(id, qty)]];
      }
      index := index[id := Location(side, price)];
    }

    /** Enter an order. The book is as specified for every order; the index still knows where
        each order rests unless the order came to rest under a resting id. */
    method Add(req: OrderRequest) returns (trades: seq<Trade>)
      requires Valid()
      modifies this
      ensures Valid() <==> !Clashes(old(Contents()), req)
      ensures Result(Contents(), trades) == PriorityBook.Add(old(Contents()), req)
    {
      hide Valid, BookOn, Walk, Crossable, Rests, TrimBook, Insert;
      trades := [];
      if req.kind.Cancel? {
        var _ := Cancel(req.id);
        return;
      }
      if req.kind.PostOnly? {
        var crosses := Crossing(req);
        if crosses { return; }
        Append(req.side, req.price, req.id, req.qty);
        return;
      }
      if req.kind.FOK? {
        var full := CanFullyFill(req);
        if !full {
          if req.qty == 0 { NothingToFill(Contents(), req); }
          return;
        }
        FillIsAllowed(Contents(), req);
      }
      var left;
      trades, left := Match(req);
      if req.kind.Limit? && left > 0 {
        SweepThenRest(old(Contents()), req);
        Append(req.side, req.price, req.id, left);
      }
    }

    method Crossing(req: OrderRequest) returns (r: bool)
      requires Valid()
      ensures r == WouldCross(Contents(), req)
    {
      var opp := Opposite(req.side);
      EmptyPriority(opp);
      if (if opp.Buy? then bids else asks) == map[] { return false; }
      var p := Begin(opp);
      BestIsFirst(View(), opp, p);
      r := if req.side.Buy? then req.price >= p else req.price <= p;
    }

    method Cancel(id: nat) returns (found: bool)
      requires Valid()
      modifies this
      ensures Valid()
      ensures Contents() == TrimBook(old(Contents()), id, None)
      ensures found == old(Rests(Contents(), id))
    {
      hide Priority, Trim, Rests;
      ghost var s := View();
      IndexIsRests(s, id);
      if id !in index {
        AbsentTrim(s, id);
        return false;
      }
      assert Found(s, id);
      var side, price := index[id].side, index[id].price;
      var q := (if side.Buy? then bids else asks)[price];
      ghost var k: nat :| k < |q| && q[k].id == id;
      SolePlace(s, side, price, k);
      TrimAtLevel(side, LevelsOn(s, side), price, k, None);
      TrimAbsent(Priority(Opposite(side), LevelsOn(s, Opposite(side))), id, None);
      ShelfRemove(s, side, price, k);
      var kept := RemoveId(q, id, k);
      SetLevel(side, price, kept);
      index := index - {id};
      found := true;
    }

    /** `std::remove_if` over one queue. */
    method RemoveId(q: Queue, id: nat, ghost k: nat) returns (kept: Queue)
      requires k < |q| && forall j :: 0 <= j < |q| ==> (q[j].id == id <==> j == k)
      ensures kept == q[..k] + q[k + 1..]
    {
      kept := [];
      var j := 0;
      while j < |q|
        invariant 0 <= j <= |q|
        invariant kept == if j <= k then q[..j] else q[..k] + q[k + 1..j]
      {
        if q[j].id != id { kept := kept + [q[j]]; }
        j := j + 1;
      }
    }

    // ---------- queries ----------

    method BestBid() returns (p: int)
      requires Valid()
      ensures p == if Contents().bids == [] then 0 else Contents().bids[0].price
    {
      EmptyPriority(Buy);
      if bids == map[] { return 0; }
      p := Begin(Buy);
      BestIsFirst(View(), Buy, p);
    }

    method BestAsk() returns (p: int)
      requires Valid()
      ensures p == if Contents().asks == [] then 0 else Contents().asks[0].price
    {
      EmptyPriority(Sell);
      if asks == map[] { return 0; }
      p := Begin(Sell);
      BestIsFirst(View(), Sell, p);
    }

    method DepthCount() returns (n: nat)
      requires Valid()
      ensures n == Depth(Contents())
    {
      var b := CountOrders(Buy, bids);
      var a := CountOrders(Sell, asks);
      n := b + a;
    }

    method CountOrders(ghost side: Side, l: Levels) returns (n: nat)
      ensures n == |Priority(side, l)|
    {
      hide Priority;
      EmptyPriority(side);
      n := 0;
      var rest := l;
      while rest != map[]
        invariant n + |Priority(side, rest)| == |Priority(side, l)|
        decreases |rest|
      {
        BestExists(Buy, rest);
        var p :| p in rest;
        Split(side, rest, p);
        SplitPut(side, rest, p, []);
        Shrinks(rest, p);
        n := n + |rest[p]|;
        rest := rest - {p};
      }
    }
  }

  lemma AbsentTrim(s: Shelf, id: nat)
    requires Shelved(s) && !Rests(BookOn(s), id)
    ensures TrimBook(BookOn(s), id, None) == BookOn(s)
  {
    TrimAbsent(BookOn(s).bids, id, None);
    TrimAbsent(BookOn(s).asks, id, None);
  }

  lemma BestIsFirst(s: Shelf, side: Side, p: int)
    requires Shelved(s) && IsBest(side, LevelsOn(s, side), p)
    ensures LevelsOn(s, side)[p] != []
    ensures Priority(side, LevelsOn(s, side)) != [] && Priority(side, LevelsOn(s, side))[0].price == p
  {
    assert Named(s, side, p);
    FillHead(side, LevelsOn(s, side), p, 0);
  }

  lemma WalkEnds(w: Fills, done: seq<Trade>, s: Shelf, side: Side, limit: Option<int>, taker: nat, left: nat)
    requires Continues(w, done, Priority(side, LevelsOn(s, side)), side, limit, taker, left)
    requires left == 0 || LevelsOn(s, side) == map[] || !Crosses(side, limit, Best(side, LevelsOn(s, side)))
    requires Shelved(s)
    ensures w == Fills(done, Priority(side, LevelsOn(s, side)), left)
  {
    if LevelsOn(s, side) != map[] { BestIsFirst(s, side, Best(side, LevelsOn(s, side))); }
  }
}

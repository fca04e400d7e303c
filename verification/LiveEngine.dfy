/** Every engine object is sound: its book is uncrossed, in priority order and free of
    duplicate ids, within the arena and on the price axis. So every law of EngineLaws holds
    of live engines, also after an operation that threw. */
module LiveEngine {
  import opened Orders
  import opened PriorityBook
  import opened PriceLevels
  import opened LevelStore
  import opened PriceAxis
  import opened EngineSteps
  import opened EngineLaws
  import opened Ledgers
  import opened MatchingEngine

  // ---------- unique ids by counting ----------

  function Ids(f: seq<Entry>): set<nat> {
    if f == [] then {} else {f[0].id} + Ids(f[1..])
  }

  lemma {:induction false} IdsHold(f: seq<Entry>, id: nat)
    ensures id in Ids(f) <==> Holds(f, id)
  {
    if f != [] {
      IdsHold(f[1..], id);
      assert forall k :: 0 <= k < |f[1..]| ==> f[1..][k] == f[k + 1];
      if f[0].id == id {
        assert Holds(f, id);
      } else if Holds(f, id) {
        var k :| 0 <= k < |f| && f[k].id == id;
        assert f[1..][k - 1].id == id;
      }
    }
  }

  /** A list with as many ids as orders has no id twice. */
  lemma {:induction false} CountedUnique(f: seq<Entry>)
    ensures |Ids(f)| <= |f|
    ensures |Ids(f)| == |f| ==> Unique(f)
  {
    if f != [] {
      CountedUnique(f[1..]);
      if |Ids(f)| == |f| {
        assert f[0].id !in Ids(f[1..]);
        IdsHold(f[1..], f[0].id);
        forall i, j | 0 <= i < j < |f| ensures f[i].id != f[j].id {
          assert f[1..][j - 1].id == f[j].id;
          if i > 0 { assert f[1..][i - 1].id == f[i].id; }
        }
      }
    }
  }

  lemma HoldsEither(f: seq<Entry>, g: seq<Entry>, id: nat)
    ensures Holds(f + g, id) <==> Holds(f, id) || Holds(g, id)
  {
    if Holds(f, id) {
      var k :| 0 <= k < |f| && f[k].id == id;
      assert (f + g)[k].id == id;
    }
    if Holds(g, id) {
      var k :| 0 <= k < |g| && g[k].id == id;
      assert (f + g)[|f| + k].id == id;
    }
  }

  /** The index has one entry per resting order, so ids are unique on the book. */
  lemma UniqueInStore(v: Store, base: int)
    requires Counted(v, base)
    ensures var b := BookIn(v, base); Unique(b.bids + b.asks) && Depth(b) <= |v.arena|
  {
    hide Holds, Core, BookIn;
    var b := BookIn(v, base);
    var f := b.bids + b.asks;
    forall id ensures id in Ids(f) <==> id in v.index.Keys {
      IdsHold(f, id);
      HoldsEither(b.bids, b.asks, id);
      RestsIsIndexed(v, base, id);
    }
    assert Ids(f) == v.index.Keys;
    CountedUnique(f);
    ArenaFull(v);
  }

  // ---------- order and axis ----------

  lemma SidesSorted(v: Store, base: int)
    requires Core(v)
    ensures Sorted(BookIn(v, base).bids, Buy) && Sorted(BookIn(v, base).asks, Sell)
  {
    Shape(v);
    PrioritySorted(Buy, SideLevels(Queues(v), base, v.bid, v.ask, Buy));
    PrioritySorted(Sell, SideLevels(Queues(v), base, v.bid, v.ask, Sell));
  }

  lemma Uncrossed(v: Store, base: int)
    requires Core(v) && TopExact(v, Buy) && TopExact(v, Sell)
    ensures var b := BookIn(v, base); b.bids != [] && b.asks != [] ==> b.bids[0].price < b.asks[0].price
  {
    BestPrice(v, base, Buy);
    BestPrice(v, base, Sell);
  }

  lemma SideOnAxis(v: Store, base: int, side: Side)
    requires Core(v)
    ensures OnAxis(OnSide(BookIn(v, base), side), Window(base, |v.levels|))
  {
    Shape(v);
    QueuesOnAxis(Queues(v), base, v.bid, v.ask, side);
    hide Core, Queues, SideLevels, Priority, OnAxis;
  }

  lemma QueuesOnAxis(qs: seq<Queue>, base: int, bid: int, ask: int, side: Side)
    requires InRange(|qs|, bid, ask)
    ensures OnAxis(Priority(side, SideLevels(qs, base, bid, ask, side)), Window(base, |qs|))
  {
    hide Priority;
    var l := SideLevels(qs, base, bid, ask, side);
    var f := Priority(side, l);
    Members(side, l);
    forall k | 0 <= k < |f| ensures base <= f[k].price < base + |qs| {
      assert f[k] in f;
      assert Resting(f[k].id, f[k].qty) in At(l, f[k].price);
    }
  }

  /** The representation invariant implies everything the specification calls sound. */
  lemma LiveIsSound(book: OrderBookV2)
    requires book.Valid()
    ensures Sound(book.Abs())
  {
    hide Core, BookIn, Unique, Sorted, OnAxis, TopExact;
    var v := book.View();
    UniqueInStore(v, book.base);
    SidesSorted(v, book.base);
    Uncrossed(v, book.base);
    if book.haveBase {
      SideOnAxis(v, book.base, Buy);
      SideOnAxis(v, book.base, Sell);
    } else {
      Shape(v);
      NoLevelsNoBook(v, book.base);
    }
  }

  /** Price-time priority of a live engine: whoever trades, every better-priced or earlier
      order was completely filled before, at prices that never improve and never break the
      limit. */
  lemma LivePriority(book: OrderBookV2, req: OrderRequest, k: nat, j: nat)
    requires book.Valid()
    requires k < |AddBounded(book.Abs(), req).trades| && j < |OnSide(book.Contents(), Opposite(req.side))|
    ensures var t := AddBounded(book.Abs(), req).trades;
            var side := Opposite(req.side);
            var f := OnSide(book.Contents(), side);
            && k < |f| && t[k].makerId == f[k].id && t[k].price == f[k].price
            && (Beats(side, f[j].price, f[k].price) || (f[j].price == f[k].price && j < k) ==>
                  j < k && t[j] == Trade(f[j].id, req.id, f[j].price, f[j].qty))
            && (j < k ==> !Beats(side, t[k].price, t[j].price))
            && Crosses(side, LimitOf(req), t[k].price)
  {
    LiveIsSound(book);
    SoundBook(book.Abs());
    BookAfter(book.Abs(), req);
    hide Sound, OrderBookV2.Valid, OrderBookV2.Contents, AddBounded, Walk, Beats;
    PriceTimePriority(OnSide(book.Contents(), Opposite(req.side)), Opposite(req.side), LimitOf(req), req.id, req.qty,
                      k, j);
  }
}

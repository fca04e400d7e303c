/** The fast engine (cpp/src/order_book_v2.cpp): an array of price levels shared by both
    sides, intrusive lists in an arena, a free list and the hash index. Every public method
    is proved equal to the priority-list specification, faults included. */
module MatchingEngine {
  import opened Orders
  import opened PriorityBook
  import opened PriorityLaws
  import opened PriceLevels
  import opened LevelStore
  import opened PriceAxis
  import opened EngineSteps
  import opened FlatHashMaps

  /** Pointer facts of one listed node. */
  lemma Pointers(v: Store, i: nat, k: nat)
    requires Core(v) && i < |v.queues| && k < |v.queues[i]|
    ensures var n := v.queues[i][k];
            && n < |v.arena| && n != NIL && v.levels[i].head == v.queues[i][0]
            && (v.arena[n].prev == NIL <==> k == 0)
            && (v.arena[n].prev != NIL ==> v.arena[n].prev < |v.arena| && v.arena[n].prev != n)
            && (v.arena[n].next != NIL ==> v.arena[n].next < |v.arena| && v.arena[n].next != n)
            && (v.arena[n].prev != NIL && v.arena[n].next != NIL ==> v.arena[n].prev != v.arena[n].next)
  {
    Owned(v, i, k);
    var q := v.queues[i];
    assert LinkAt(v.arena, q, k);
    assert k > 0 ==> q[k - 1] < |v.arena|;
    assert k + 1 < |q| ==> q[k + 1] < |v.arena|;
  }

  /** The aggregate of a level is the total of its queue. */
  lemma LevelTotal(v: Store, i: nat)
    requires Core(v) && i < |v.levels|
    ensures Lists(v) && |Queues(v)| == |v.levels| && v.levels[i].totalQty == Total(Queues(v)[i])
  {
    assert Linked(v.arena, v.levels[i], v.queues[i]);
  }

  lemma NoLevelsNoBook(v: Store, base: int)
    requires Core(v) && |v.queues| == 0
    ensures BookIn(v, base) == EMPTY_BOOK && |v.index| == 0
  {
    NoTop(Queues(v), base, v.bid, v.ask, Buy);
    NoTop(Queues(v), base, v.bid, v.ask, Sell);
    if id :| id in v.index { assert false; }
  }

  class OrderBookV2 {
    const arena: array<Node>
    const initialWindow: nat
    const index: FlatHashMap<IndexEntry>
    var arenaBump: nat
    var freeList: seq<nat>
    var levels: seq<PriceLevel>
    var base: int
    var haveBase: bool
    var levelArrayGrowths: nat
    var bestBidIdx: int
    var bestAskIdx: int

    ghost var queues: seq<seq<nat>>

    ghost function View(): Store
      reads this, arena, index
    {
      Store(arena[..], arenaBump, freeList, levels, queues, index.M, bestBidIdx, bestAskIdx)
    }

    /** Consistent storage; the best index of a side may still point at a level that the
        running operation has just emptied. */
    ghost predicate Ready()
      reads this, arena, index
    {
      Counted(View(), base) && index.Valid() && (!haveBase ==> levels == []) && |levels| <= LevelBound(initialWindow)
    }

    ghost function Contents(): Book
      reads this, arena, index
    {
      if Core(View()) then BookIn(View(), base) else EMPTY_BOOK
    }

    ghost predicate Valid()
      reads this, arena, index
    {
      Ready() && TopExact(View(), Buy) && TopExact(View(), Sell)
    }

    /** The engine as the specification sees it. */
    ghost function Abs(): Engine
      reads this, arena, index
    {
      Engine(Contents(), if haveBase then Some(Window(base, |levels|)) else None, levelArrayGrowths,
             arena.Length, initialWindow)
    }

    constructor (arenaCapacity: nat, initialWindow: nat)
      requires arenaCapacity <= NIL
      ensures Valid() && fresh(arena) && fresh(index)
      ensures Abs() == NewEngine(arenaCapacity, initialWindow)
    {
      arena := new Node[arenaCapacity](_ => Node(0, 0, NIL, NIL));
      this.initialWindow := initialWindow;
      index := new FlatHashMap<IndexEntry>(16);
      arenaBump, freeList, levels, queues := 0, [], [], [];
      base, haveBase, levelArrayGrowths := 0, false, 0;
      bestBidIdx, bestAskIdx := -1, -1;
      new;
      index.Reserve(arenaCapacity);
      NoLevelsNoBook(View(), base);
    }

    method AllocNode() returns (r: Option<nat>)
      modifies this`freeList, this`arenaBump
      ensures r.None? <==> old(freeList) == [] && old(arenaBump) >= arena.Length
      ensures r.None? ==> freeList == old(freeList) && arenaBump == old(arenaBump)
      ensures r.Some? && old(freeList) != [] ==>
                && r.value == old(freeList)[|old(freeList)| - 1] && freeList == old(freeList)[..|old(freeList)| - 1]
                && arenaBump == old(arenaBump)
      ensures r.Some? && old(freeList) == [] ==>
                r.value == old(arenaBump) && freeList == [] && arenaBump == old(arenaBump) + 1
    {
      if freeList != [] {
        r := Some(freeList[|freeList| - 1]);
        freeList := freeList[..|freeList| - 1];
      } else if arenaBump >= arena.Length {
        r := None;
      } else {
        r := Some(arenaBump);
        arenaBump := arenaBump + 1;
      }
    }

    method FreeNode(n: nat)
      modifies this`freeList
      ensures freeList == old(freeList) + [n]
    {
      freeList := freeList + [n];
    }

    // ---------- matching ----------

    /** One trade with the order at the head of the best level of `side`. */
    method FillHead(side: Side, taker: nat, qty: nat) returns (t: Trade)
      requires Ready() && qty > 0
      requires var i := Top(side, bestBidIdx, bestAskIdx); i >= 0 && queues[i] != []
      modifies this, arena, index
      ensures Ready()
      ensures base == old(base) && haveBase == old(haveBase) && levelArrayGrowths == old(levelArrayGrowths)
      ensures bestBidIdx == old(bestBidIdx) && bestAskIdx == old(bestAskIdx) && |levels| == old(|levels|)
      ensures forall j :: 0 <= j < |queues| && j != Top(side, bestBidIdx, bestAskIdx) ==> queues[j] == old(queues)[j]
      ensures var f := OnSide(old(Contents()), side);
              && f != [] && f[0].price == base + Top(side, bestBidIdx, bestAskIdx)
              && t == Trade(f[0].id, taker, f[0].price, Min(qty, f[0].qty))
              && Contents() == WithSide(old(Contents()), side,
                                        if f[0].qty <= qty then f[1..] else [f[0].(qty := f[0].qty - qty)] + f[1..])
    {
      hide Core, Queues, BookIn, Unlinked, FlatHashMap.Valid;
      ghost var v := View();
      Shape(v);
      var i := if side.Buy? then bestBidIdx else bestAskIdx;
      Pointers(v, i, 0);
      var head := levels[i].head;
      var maker := arena[head];
      var fill := Min(qty, maker.qty);
      FillPartial(v, base, side, maker.qty - fill);
      t := Trade(maker.id, taker, base + i, fill);
      arena[head] := maker.(qty := maker.qty - fill);
      levels := levels[i := levels[i].(totalQty := levels[i].totalQty - fill)];
      assert View() == Shrunk(v, i, head, maker.qty - fill);
      if maker.qty == fill {
        FillWhole(v, base, side);
        UnlinkShape(View(), i, 0);
        Unlink(i, 0, head);
      }
    }

    /** First non-empty level at or below `from`, or -1. */
    method ScanDown(from: int) returns (i: int)
      requires Core(View()) && -1 <= from < |levels|
      ensures -1 <= i <= from < |queues| && (i >= 0 ==> queues[i] != [])
      ensures forall j :: i < j <= from ==> queues[j] == []
    {
      hide Core, Queues;
      Shape(View());
      i := from;
      while i >= 0 && levels[i].head == NIL
        invariant -1 <= i <= from
        invariant forall j :: i < j <= from ==> queues[j] == []
      {
        TailInArena(View(), i);
        i := i - 1;
      }
      if i >= 0 { TailInArena(View(), i); }
    }

    /** First non-empty level at or above `from`, or -1. */
    method ScanUp(from: int) returns (i: int)
      requires Core(View()) && 0 <= from <= |levels|
      ensures -1 <= i < |queues| == |levels| && (i >= 0 ==> from <= i && queues[i] != [])
      ensures forall j :: from <= j < |queues| && (i < 0 || j < i) ==> queues[j] == []
    {
      hide Core, Queues;
      Shape(View());
      i := from;
      while i < |levels| && levels[i].head == NIL
        invariant from <= i <= |queues|
        invariant forall j :: from <= j < i ==> queues[j] == []
      {
        TailInArena(View(), i);
        i := i + 1;
      }
      if i < |levels| { TailInArena(View(), i); }
      i := if i < |levels| then i else -1;
    }

    /** The best level of `side` was just emptied: scan for the next one. */
    method NextTop(side: Side)
      requires Ready()
      requires var i := Top(side, bestBidIdx, bestAskIdx); i >= 0 && queues[i] == []
      modifies this`bestBidIdx, this`bestAskIdx
      ensures Ready() && TopExact(View(), side) && Contents() == old(Contents())
      ensures if side.Buy? then bestAskIdx == old(bestAskIdx) else bestBidIdx == old(bestBidIdx)
      ensures old(TopExact(View(), Opposite(side))) ==> TopExact(View(), Opposite(side))
    {
      hide Core, Queues, FlatHashMap.Valid, BookIn;
      Shape(View());
      if side.Buy? {
        var i := ScanDown(bestBidIdx - 1);
        Rescan(View(), base, side, i);
        bestBidIdx := i;
      } else {
        var i := ScanUp(bestAskIdx + 1);
        Rescan(View(), base, side, i);
        bestAskIdx := i;
      }
    }

    /** Trade with the orders of the best level of `side` until the order or the level is done. */
    method FillLevel(side: Side, taker: nat, qty: nat, ghost w: Fills, done: seq<Trade>, ghost limit: Option<int>)
      returns (trades: seq<Trade>, left: nat)
      requires Ready() && TopExact(View(), Opposite(side)) && qty > 0
      requires var i := Top(side, bestBidIdx, bestAskIdx); i >= 0 && queues[i] != [] && Crosses(side, limit, base + i)
      requires Continues(w, done, OnSide(Contents(), side), side, limit, taker, qty)
      modifies this, arena, index
      ensures Ready() && TopExact(View(), Opposite(side))
      ensures base == old(base) && haveBase == old(haveBase) && levelArrayGrowths == old(levelArrayGrowths)
      ensures bestBidIdx == old(bestBidIdx) && bestAskIdx == old(bestAskIdx) && |levels| == old(|levels|)
      ensures Contents() == WithSide(old(Contents()), side, OnSide(Contents(), side))
      ensures Continues(w, trades, OnSide(Contents(), side), side, limit, taker, left)
      ensures |OnSide(Contents(), side)| + left < old(|OnSide(Contents(), side)|) + qty
      ensures left > 0 ==> queues[Top(side, bestBidIdx, bestAskIdx)] == []
      ensures queues[Top(side, bestBidIdx, bestAskIdx)] != [] ==> TopExact(View(), side)
    {
      hide Core, Queues, FlatHashMap.Valid, BookIn, Continues, Crosses;
      var top := if side.Buy? then bestBidIdx else bestAskIdx;
      trades, left := done, qty;
      Shape(View());
      TailInArena(View(), top);
      while left > 0 && levels[top].head != NIL
        invariant Ready() && TopExact(View(), Opposite(side))
        invariant base == old(base) && haveBase == old(haveBase) && levelArrayGrowths == old(levelArrayGrowths)
        invariant bestBidIdx == old(bestBidIdx) && bestAskIdx == old(bestAskIdx)
        invariant 0 <= top < |levels| == old(|levels|) == |queues|
        invariant levels[top].head == NIL <==> queues[top] == []
        invariant Contents() == WithSide(old(Contents()), side, OnSide(Contents(), side))
        invariant Continues(w, trades, OnSide(Contents(), side), side, limit, taker, left)
        invariant |OnSide(Contents(), side)| + left <= old(|OnSide(Contents(), side)|) + qty
        invariant |OnSide(Contents(), side)| + left == old(|OnSide(Contents(), side)|) + qty ==>
                    left > 0 && levels[top].head != NIL
        decreases |OnSide(Contents(), side)| + left
      {
        ghost var f := OnSide(Contents(), side);
        var t := FillHead(side, taker, left);
        ContinueStep(w, trades, f, side, limit, taker, left);
        trades := trades + [t];
        left := left - t.qty;
        Shape(View());
        TailInArena(View(), top);
      }
    }

    /** Trade against the opposite side until the order is filled, the side is empty or the
        limit stops it. */
    method Match(req: OrderRequest) returns (trades: seq<Trade>, left: nat)
      requires Valid()
      modifies this, arena, index
      ensures Valid()
      ensures base == old(base) && haveBase == old(haveBase) && levelArrayGrowths == old(levelArrayGrowths)
      ensures |levels| == old(|levels|)
      ensures var opp := Opposite(req.side);
              var w := Walk(OnSide(old(Contents()), opp), opp, LimitOf(req), req.id, req.qty);
              && trades == w.trades && left == w.left
              && Contents() == WithSide(old(Contents()), opp, w.rest)
    {
      hide Core, Queues, FlatHashMap.Valid, BookIn, Walk;
      var opp := Opposite(req.side);
      assert TopExact(View(), opp) && TopExact(View(), Opposite(opp));
      ghost var limit := LimitOf(req);
      ghost var w := Walk(OnSide(Contents(), opp), opp, limit, req.id, req.qty);
      trades, left := [], req.qty;
      assert Continues(w, trades, OnSide(Contents(), opp), opp, limit, req.id, left);
      hide Continues;
      while left > 0
        invariant Ready() && TopExact(View(), opp) && TopExact(View(), Opposite(opp))
        invariant base == old(base) && haveBase == old(haveBase) && levelArrayGrowths == old(levelArrayGrowths)
        invariant |levels| == old(|levels|)
        invariant Contents() == WithSide(old(Contents()), opp, OnSide(Contents(), opp))
        invariant Continues(w, trades, OnSide(Contents(), opp), opp, limit, req.id, left)
        decreases |OnSide(Contents(), opp)| + left
      {
        var top := if opp.Buy? then bestBidIdx else bestAskIdx;
        BestPrice(View(), base, opp);
        if top < 0 {
          break;
        }
        var levelPrice := base + top;
        if req.kind != Market && (if req.side.Buy? then req.price < levelPrice else req.price > levelPrice) { break; }
        Shape(View());
        trades, left := FillLevel(opp, req.id, left, w, trades, limit);
        Shape(View());
        TailInArena(View(), top);
        if levels[top].head == NIL {
          NextTop(opp);
        }
      }
      ContinueEnd(w, trades, OnSide(Contents(), opp), opp, limit, req.id, left);
    }

    /** Make the neighbours of node `n` point past it. */
    method Bypass(i: nat, n: nat)
      requires i < |levels| && n < arena.Length
      requires arena[n].prev != NIL ==> arena[n].prev < arena.Length && arena[n].prev != n
      requires arena[n].next != NIL ==> arena[n].next < arena.Length && arena[n].next != n
      requires arena[n].prev != NIL && arena[n].next != NIL ==> arena[n].prev != arena[n].next
      modifies this`levels, arena
      ensures arena[..] == Bypassed(old(arena[..]), n)
      ensures levels == old(levels)[i := BypassedLevel(old(levels)[i], old(arena[n]))]
    {
      var node := arena[n];
      var lvl := levels[i];
      if node.prev != NIL {
        arena[node.prev] := arena[node.prev].(next := node.next);
      } else {
        lvl := lvl.(head := node.next);
      }
      if node.next != NIL {
        arena[node.next] := arena[node.next].(prev := node.prev);
      } else {
        lvl := lvl.(tail := node.prev);
      }
      lvl := lvl.(totalQty := lvl.totalQty - node.qty);
      levels := levels[i := lvl];
    }

    /** Take node `n` out of its list, its level, the index and the arena. */
    method Unlink(i: nat, ghost k: nat, n: nat)
      requires Core(View()) && index.Valid()
      requires i < |queues| && i < |levels| && k < |queues[i]| && queues[i][k] == n
      modifies this, arena, index
      ensures index.Valid() && View() == Unlinked(old(View()), i, k)
      ensures base == old(base) && haveBase == old(haveBase) && levelArrayGrowths == old(levelArrayGrowths)
    {
      hide Core, Queues, Bypassed, BypassedLevel, FlatHashMap.Valid;
      ghost var v := View();
      Pointers(v, i, k);
      var id := arena[n].id;
      Bypass(i, n);
      queues := queues[i := Without(queues[i], k)];
      FreeNode(n);
      var _ := index.Erase(id);
    }

    // ---------- order entry ----------

    /** Could the order be filled completely right now? Sums level aggregates only. */
    method CanFullyFill(req: OrderRequest) returns (r: bool)
      requires Valid()
      ensures var opp := Opposite(req.side);
              var f := OnSide(Contents(), opp);
              r <==> if req.qty > 0 then Crossable(f, opp, Some(req.price)) >= req.qty
                     else f == [] || Crosses(opp, Some(req.price), f[0].price)
    {
      hide Core, Queues, FlatHashMap.Valid, Priority, Remaining, Crosses;
      var opp := Opposite(req.side);
      ghost var limit := Some(req.price);
      var idx := if opp.Buy? then bestBidIdx else bestAskIdx;
      BestPrice(View(), base, opp);
      Shape(View());
      if idx < 0 { return req.qty == 0; }
      ghost var qs := Queues(View());
      FromTop(qs, base, bestBidIdx, bestAskIdx, opp);
      var available := 0;
      while 0 <= idx < |levels|
        invariant -1 <= idx <= |levels|
        invariant available == 0 || available < req.qty
        invariant req.qty == 0 ==> idx == Top(opp, bestBidIdx, bestAskIdx)
        invariant Crossable(OnSide(Contents(), opp), opp, limit) ==
                  available + Crossable(Priority(opp, Remaining(qs, base, opp, idx)), opp, limit)
        decreases if opp.Buy? then idx else |levels| - idx
      {
        SumStep(qs, base, opp, idx, limit);
        LevelTotal(View(), idx);
        var levelPrice := base + idx;
        assert Crosses(opp, limit, levelPrice) <==> (if req.side.Buy? then levelPrice <= req.price
                                                     else levelPrice >= req.price) by {
          CrossesByPrice(opp, req.price, levelPrice);
        }
        if (if req.side.Buy? then levelPrice > req.price else levelPrice < req.price) { break; }
        available := available + levels[idx].totalQty;
        if available >= req.qty { return true; }
        idx := if req.side.Buy? then idx + 1 else idx - 1;
      }
      if !(0 <= idx < |levels|) { PastEnd(qs, base, opp, idx, limit); }
      return false;
    }

    /** First use of the axis: centre the window on `p`. */
    method OpenWindow(p: int)
      requires Valid() && !haveBase
      modifies this
      ensures Valid() && Contents() == old(Contents())
      ensures haveBase && base == p - initialWindow / 2 && |levels| == initialWindow
      ensures levelArrayGrowths == old(levelArrayGrowths)
    {
      hide Core, Queues, BookIn, FlatHashMap.Valid;
      ghost var v := View();
      Shape(v);
      NoLevelsNoBook(v, base);
      NoLevelsNoBook(v, p - initialWindow / 2);
      ExtendBook(v, p - initialWindow / 2, initialWindow);
      base := p - initialWindow / 2;
      levels := seq(initialWindow, _ => NO_LEVEL);
      queues := seq(initialWindow, _ => []);
      haveBase := true;
      assert View() == Extended(v, initialWindow);
    }

    /** Rebase: `shift` new levels in front, every cached level index moved along. */
    method GrowFront(shift: nat)
      requires Valid() && haveBase && |levels| + shift <= MAX_LEVELS
      modifies this, index
      ensures Valid() && Contents() == old(Contents()) && index.M.Keys == old(index.M.Keys)
      ensures haveBase && base == old(base) - shift && |levels| == old(|levels|) + shift
      ensures levelArrayGrowths == old(levelArrayGrowths) + 1
    {
      hide Core, Queues, BookIn, FlatHashMap.Valid, TopExact, Counted, Rebased;
      ghost var v := View();
      MoveLevels(shift);
      Moved(v, View(), base + shift, shift);
    }

    method MoveFront(shift: nat)
      modifies this
      ensures levels == seq(shift, _ => NO_LEVEL) + old(levels) && queues == seq(shift, _ => []) + old(queues)
      ensures bestBidIdx == Shift(old(bestBidIdx), shift) && bestAskIdx == Shift(old(bestAskIdx), shift)
      ensures arenaBump == old(arenaBump) && freeList == old(freeList)
      ensures haveBase == old(haveBase) && base == old(base) - shift
      ensures levelArrayGrowths == old(levelArrayGrowths) + 1
    {
      levelArrayGrowths := levelArrayGrowths + 1;
      levels := seq(shift, _ => NO_LEVEL) + levels;
      queues := seq(shift, _ => []) + queues;
      base := base - shift;
      if bestBidIdx >= 0 { bestBidIdx := bestBidIdx + shift; }
      if bestAskIdx >= 0 { bestAskIdx := bestAskIdx + shift; }
    }

    method MoveLevels(shift: nat)
      requires index.Valid()
      modifies this, index
      ensures index.Valid() && Rebased(old(View()), View(), shift) && index.M.Keys == old(index.M.Keys)
      ensures haveBase == old(haveBase) && base == old(base) - shift && |levels| == old(|levels|) + shift
      ensures levelArrayGrowths == old(levelArrayGrowths) + 1
    {
      hide FlatHashMap.Valid;
      MoveFront(shift);
      index.ForEachMut((e: IndexEntry) => e.(levelIdx := e.levelIdx + shift));
    }

    method GrowBack(newSize: nat)
      requires Valid() && haveBase && |levels| <= newSize <= MAX_LEVELS
      modifies this
      ensures Valid() && Contents() == old(Contents())
      ensures haveBase && base == old(base) && |levels| == newSize
      ensures levelArrayGrowths == old(levelArrayGrowths) + 1
    {
      hide Core, Queues, BookIn, FlatHashMap.Valid;
      ghost var v := View();
      Shape(v);
      ExtendBook(v, base, newSize - |levels|);
      levelArrayGrowths := levelArrayGrowths + 1;
      queues := queues + seq(newSize - |levels|, _ => []);
      levels := levels + seq(newSize - |levels|, _ => NO_LEVEL);
      assert View() == Extended(v, newSize - |v.levels|);
    }

    /** Put price `p` on the axis, growing or rebasing it when needed. */
    method EnsureIndexForPrice(p: int) returns (idx: int, ok: bool)
      requires Valid()
      modifies this, index
      ensures Valid() && Contents() == old(Contents()) && index.M.Keys == old(index.M.Keys)
      ensures match Reserve(old(Abs()), p)
              case None => !ok && Abs() == old(Abs())
              case Some(e) => ok && Abs() == e && 0 <= idx < |levels| && base + idx == p
    {
      hide Core, Queues, BookIn, FlatHashMap.Valid, Counted, TopExact;
      if !haveBase { OpenWindow(p); }
      idx := p - base;
      if idx < 0 {
        var shift := -idx + initialWindow / 4 + 1;
        if |levels| + shift > MAX_LEVELS { return idx, false; }
        GrowFront(shift);
        idx := p - base;
      } else if idx >= |levels| {
        var newSize := idx + initialWindow / 4 + 1;
        if newSize > MAX_LEVELS { return idx, false; }
        GrowBack(newSize);
      }
      ok := true;
    }

    /** Append an order to the list of level `i`; the best index is the caller's business.
        Fails, changing nothing, when the arena is full. */
    method PushBackOrder(i: nat, side: Side, id: nat, qty: nat) returns (ok: bool)
      requires Valid() && i < |levels|
      modifies this, arena, index
      ensures ok <==> old(|index.M|) < arena.Length
      ensures !ok ==> View() == old(View()) && index.Valid()
      ensures ok ==> Space(old(View()), i) && index.Valid() && View() == Pushed(old(View()), i, side, id, qty)
      ensures base == old(base) && haveBase == old(haveBase) && levelArrayGrowths == old(levelArrayGrowths)
    {
      hide Core, Queues, BookIn, FlatHashMap.Valid, TopExact;
      ghost var v := View();
      Shape(v);
      TailInArena(v, i);
      ArenaFull(v);
      var r := AllocNode();
      if r.None? { return false; }
      FreshIsUnused(v);
      Link(i, r.value, id, qty);
      queues := queues[i := queues[i] + [r.value]];
      index.Put(id, IndexEntry(side, i, r.value));
      ok := true;
    }

    /** Make node `n` the tail of level `i`. */
    method Link(i: nat, n: nat, id: nat, qty: nat)
      requires i < |levels| && n < arena.Length
      requires levels[i].tail != NIL ==> levels[i].tail < arena.Length && levels[i].tail != n
      modifies this`levels, arena
      ensures arena[..] == Appended(old(arena[..]), old(levels)[i], n, id, qty)
      ensures levels == old(levels)[i := AppendedLevel(old(levels)[i], n, qty)]
    {
      var lvl := levels[i];
      arena[n] := Node(id, qty, NIL, NIL);
      if lvl.tail == NIL {
        lvl := lvl.(head := n, tail := n);
      } else {
        arena[lvl.tail] := arena[lvl.tail].(next := n);
        arena[n] := arena[n].(prev := lvl.tail);
        lvl := lvl.(tail := n);
      }
      levels := levels[i := lvl.(totalQty := lvl.totalQty + qty)];
    }

    /** Rest `qty` of an order that does not cross. Under an id that is already resting this
        breaks the storage; the fault, if any, is the specified one in every case. */
    method RestRemainder(req: OrderRequest, qty: nat) returns (fault: Option<Fault>)
      requires Valid() && !WouldCross(Contents(), req)
      modifies this, arena, index
      ensures Valid() <==> !old(Rests(Contents(), req.id)) || fault.Some?
      ensures var o := RestBounded(old(Abs()), req, qty, []);
              (Valid() ==> Abs() == o.engine) && fault == o.fault
    {
      hide Core, Queues, BookIn, FlatHashMap.Valid, Insert, TopExact, Pushed, Space, Rests;
      RestsIsIndexed(View(), base, req.id);
      var idx, fits := EnsureIndexForPrice(req.price);
      if !fits { return Some(PriceOutOfRange); }
      BestPrice(View(), base, Opposite(req.side));
      ghost var v := View();
      Shape(v);
      var ok := PushBackOrder(idx, req.side, req.id, qty);
      if !ok { return Some(ArenaExhausted); }
      if req.id in v.index {
        Stranded(v, idx, req.side, req.id, qty);
      } else {
        RestOrder(v, base, idx, req.side, req.id, qty);
      }
      RaisedShape(v, View(), idx, req.side, req.id, qty);
      RaiseBest(req.side, idx);
      fault := None;
    }

    /** An order now rests at level `i`: it may be the best of its side. */
    method RaiseBest(side: Side, i: int)
      requires i >= 0
      modifies this`bestBidIdx, this`bestAskIdx
      ensures View() == Raised(old(View()), side, i)
    {
      if side == Buy {
        if bestBidIdx < 0 || i > bestBidIdx { bestBidIdx := i; }
      } else {
        if bestAskIdx < 0 || i < bestAskIdx { bestAskIdx := i; }
      }
    }

    /** Enter an order. A fault means the remainder could not rest; trades already made stand.
        Trades and fault are as specified for every order; the engine is, exactly unless the
        order came to rest under a resting id. */
    method Add(req: OrderRequest) returns (trades: seq<Trade>, fault: Option<Fault>)
      requires Valid()
      modifies this, arena, index
      ensures Valid() <==> !Clashes(old(Contents()), req) || fault.Some?
      ensures var o := AddBounded(old(Abs()), req);
              (Valid() ==> Abs() == o.engine) && trades == o.trades && fault == o.fault
    {
      hide Valid, Core, BookIn, FlatHashMap.Valid, Walk, Crossable, Rests, TrimBook, Insert, RestBounded;
      trades, fault := [], None;
      if req.kind.Cancel? {
        var _ := Cancel(req.id);
        return;
      }
      if req.kind.PostOnly? {
        var crosses := Crossing(req);
        if crosses { return; }
        fault := RestRemainder(req, req.qty);
        RestFault(old(Abs()), req, req.qty, []);
        return;
      }
      if req.kind.FOK? {
        var full := CanFullyFill(req);
        if !full {
          KillIsNeutral(Contents(), req);
          return;
        }
        FillIsAllowed(Contents(), req);
      }
      var left;
      trades, left := Match(req);
      if req.kind.Limit? && left > 0 {
        SweepThenRest(old(Contents()), req);
        ghost var e := Abs();
        fault := RestRemainder(req, left);
        RestFault(e, req, left, trades);
      }
    }

    /** Would the order trade on arrival? (The PostOnly check.) */
    method Crossing(req: OrderRequest) returns (r: bool)
      requires Valid()
      ensures r == WouldCross(Contents(), req)
    {
      hide Core, BookIn, FlatHashMap.Valid;
      BestPrice(View(), base, Opposite(req.side));
      Shape(View());
      r := if req.side.Buy? then bestAskIdx >= 0 && req.price >= base + bestAskIdx
           else bestBidIdx >= 0 && req.price <= base + bestBidIdx;
    }

    /** Remove a resting order; false when the id is not resting. */
    method Cancel(id: nat) returns (found: bool)
      requires Valid()
      modifies this, arena, index
      ensures Valid()
      ensures Abs() == ReduceBounded(old(Abs()), id, None)
      ensures found == old(Rests(Contents(), id))
    {
      hide Core, Queues, BookIn, FlatHashMap.Valid, TrimBook, Unlinked, Rests, TopExact, OneHolder;
      ghost var v := View();
      RestsIsIndexed(v, base, id);
      Shape(v);
      var it := index.Find(id);
      if it.None? {
        NothingToTrim(v, base, id, None);
        return false;
      }
      var e := it.value;
      ghost var i, k := Locate(v, id);
      RemoveOrder(v, base, i, k, v.index[id].nodeIdx, None);
      UnlinkShape(v, i, k);
      Unlink(e.levelIdx, k, e.nodeIdx);
      TopsAfterUnlink(v, View(), i, k, e.side);
      Settle(e.side, e.levelIdx);
      found := true;
    }

    /** An order left level `i` of `side`: repair the best index if the level is now empty. */
    method Settle(side: Side, i: int)
      requires Ready() && 0 <= i < |levels| && TopExact(View(), Opposite(side))
      requires TopExact(View(), side) || i == Top(side, bestBidIdx, bestAskIdx)
      modifies this`bestBidIdx, this`bestAskIdx
      ensures Valid() && Contents() == old(Contents())
    {
      hide Core, Queues, BookIn, FlatHashMap.Valid;
      Shape(View());
      TailInArena(View(), i);
      if levels[i].head == NIL {
        if side == Buy && i == bestBidIdx {
          NextTop(Buy);
        } else if side == Sell && i == bestAskIdx {
          NextTop(Sell);
        }
      }
    }

    /** Take `delta` off a resting order, which keeps its place in its queue. */
    method Reduce(id: nat, delta: nat) returns (found: bool)
      requires Valid()
      modifies this, arena, index
      ensures Valid()
      ensures Abs() == ReduceBounded(old(Abs()), id, Some(delta))
      ensures found == old(Rests(Contents(), id))
    {
      hide Core, Queues, BookIn, FlatHashMap.Valid, TrimBook, Unlinked, Rests;
      ghost var v := View();
      RestsIsIndexed(v, base, id);
      Shape(v);
      var it := index.Find(id);
      if it.None? {
        NothingToTrim(v, base, id, Some(delta));
        return false;
      }
      var n := it.value.nodeIdx;
      ghost var i, k := Locate(v, id);
      if delta >= arena[n].qty {
        RemoveOrder(v, base, i, k, v.index[id].nodeIdx, None);
        RemoveOrder(v, base, i, k, n, Some(delta));
        found := Cancel(id);
        return;
      }
      var levelIdx := it.value.levelIdx;
      ReduceOrder(v, base, i, k, n, delta);
      LessOf(levelIdx, n, delta);
      assert View() == Shrunk(v, i, n, v.arena[n].qty - delta);
      found := true;
    }

    method LessOf(i: nat, n: nat, delta: nat)
      requires i < |levels| && n < arena.Length && delta <= arena[n].qty
      modifies this`levels, arena
      ensures levels == old(levels)[i := old(levels)[i].(totalQty := old(levels)[i].totalQty - delta)]
      ensures arena[..] == old(arena[..])[n := old(arena[n]).(qty := old(arena[n]).qty - delta)]
    {
      levels := levels[i := levels[i].(totalQty := levels[i].totalQty - delta)];
      arena[n] := arena[n].(qty := arena[n].qty - delta);
    }

    // ---------- queries ----------

    method BestBid() returns (p: int)
      requires Valid()
      ensures p == if Contents().bids == [] then 0 else Contents().bids[0].price
    {
      hide Core, BookIn, FlatHashMap.Valid;
      BestPrice(View(), base, Buy);
      p := if bestBidIdx >= 0 then base + bestBidIdx else 0;
    }

    method BestAsk() returns (p: int)
      requires Valid()
      ensures p == if Contents().asks == [] then 0 else Contents().asks[0].price
    {
      hide Core, BookIn, FlatHashMap.Valid;
      BestPrice(View(), base, Sell);
      p := if bestAskIdx >= 0 then base + bestAskIdx else 0;
    }

    method HasBid() returns (r: bool)
      requires Valid()
      ensures r <==> Contents().bids != []
    {
      hide Core, BookIn, FlatHashMap.Valid;
      BestPrice(View(), base, Buy);
      r := bestBidIdx >= 0;
    }

    method HasAsk() returns (r: bool)
      requires Valid()
      ensures r <==> Contents().asks != []
    {
      hide Core, BookIn, FlatHashMap.Valid;
      BestPrice(View(), base, Sell);
      r := bestAskIdx >= 0;
    }

    method DepthCount() returns (n: nat)
      requires Valid()
      ensures n == Depth(Contents())
    {
      n := index.Size();
    }
  }

  lemma TopsAfterUnlink(v: Store, t: Store, i: nat, k: nat, side: Side)
    requires Core(v) && i < |v.queues| && k < |v.queues[i]| && t == Unlinked(v, i, k)
    requires TopExact(v, Buy) && TopExact(v, Sell) && Within(side, v.bid, v.ask, i)
    ensures TopExact(t, Opposite(side)) && (TopExact(t, side) || i == Top(side, t.bid, t.ask))
  {
    UnlinkShape(v, i, k);
  }

  lemma Moved(v: Store, t: Store, base: int, d: nat)
    requires Counted(v, base) && Rebased(v, t, d) && TopExact(v, Buy) && TopExact(v, Sell)
    ensures Core(v) && Counted(t, base - d) && Core(t) && BookIn(t, base - d) == BookIn(v, base)
    ensures TopExact(t, Buy) && TopExact(t, Sell)
  {
    RebaseBook(v, t, base, d);
    RebasedTops(v, t, d);
  }

  lemma RebasedTops(v: Store, t: Store, d: nat)
    requires Core(v) && Rebased(v, t, d) && TopExact(v, Buy) && TopExact(v, Sell)
    ensures TopExact(t, Buy) && TopExact(t, Sell)
  {
    hide Linked, Partition, Indexed, Listed;
  }

  /** The arena refuses a node exactly when every node carries a resting order. */
  lemma ArenaFull(v: Store)
    requires Core(v)
    ensures v.free == [] && v.bump >= |v.arena| <==> |v.index| >= |v.arena|
    ensures |v.index| <= |v.arena|
  {
  }

  lemma RaisedShape(v: Store, p: Store, i: nat, side: Side, id: nat, qty: nat)
    requires Space(v, i) && p == Pushed(v, i, side, id, qty)
    requires TopExact(v, Buy) && TopExact(v, Sell) && i < |v.queues|
    requires -1 <= v.bid < |v.queues| && -1 <= v.ask < |v.queues|
    ensures var t := Raised(p, side, i); TopExact(t, Buy) && TopExact(t, Sell)
    ensures |p.levels| == |v.levels| && p.bid == v.bid && p.ask == v.ask
  {
    hide Core, Appended, AppendedLevel;
  }

  lemma UnlinkShape(v: Store, i: nat, k: nat)
    requires Core(v) && i < |v.queues| && k < |v.queues[i]|
    ensures var t := Unlinked(v, i, k);
            && |t.levels| == |v.levels| && t.bid == v.bid && t.ask == v.ask
            && t.queues == v.queues[i := Without(v.queues[i], k)]
  {
  }
}

/** What each storage mutation of the engine means for the priority lists. */
module EngineSteps {
  import opened Orders
  import opened PriorityBook
  import opened PriorityLaws
  import opened PriceLevels
  import opened LevelStore
  import opened PriceAxis

  ghost function BookIn(v: Store, base: int): Book
    requires Core(v)
  {
    BookOf(Queues(v), base, v.bid, v.ask)
  }

  /** Consistent storage whose index has one entry per resting order. */
  ghost predicate Counted(v: Store, base: int) {
    Core(v) && Depth(BookIn(v, base)) == |v.index|
  }

  /** The best index of `side` is -1 or points at a level with orders. */
  ghost predicate TopExact(v: Store, side: Side) {
    var i := Top(side, v.bid, v.ask);
    0 <= i < |v.queues| ==> v.queues[i] != []
  }

  /** The gap between the sides is empty because every listed order is indexed on its own side. */
  lemma GapFromIndex(v: Store)
    requires Core(v)
    ensures GapEmpty(Queues(v), v.bid, v.ask)
  {
    hide Linked, Partition;
    forall i | 0 <= i < |v.queues| && Queues(v)[i] != []
      ensures Within(Buy, v.bid, v.ask, i) || Within(Sell, v.bid, v.ask, i)
    {
      assert |Queues(v)[i]| == |v.queues[i]|;
      assert Owns(v, v.queues[i][0], i);
      assert OnOwnSide(v, v.index[v.arena[v.queues[i][0]].id]);
    }
  }

  lemma Shape(v: Store)
    requires Core(v)
    ensures Lists(v) && |Queues(v)| == |v.queues| == |v.levels| && InRange(|Queues(v)|, v.bid, v.ask)
    ensures -1 <= v.bid < |v.queues| && -1 <= v.ask < |v.queues|
  {
  }

  /** What the store says about the order at position `k` of level `i`. */
  lemma NodeAt(v: Store, i: nat, k: nat)
    requires Core(v) && i < |v.queues| && k < |v.queues[i]|
    ensures var n := v.queues[i][k];
            && n < |v.arena| && v.arena[n].id in v.index
            && |Queues(v)[i]| == |v.queues[i]| && Queues(v)[i][k] == Resting(v.arena[n].id, v.arena[n].qty)
            && v.levels[i].head == v.queues[i][0]
    ensures |Queues(v)| == |v.queues| == |v.levels| && InRange(|Queues(v)|, v.bid, v.ask)
  {
    Owned(v, i, k);
    TailInArena(v, i);
  }

  lemma FillPartial(v: Store, base: int, side: Side, left: nat)
    requires Counted(v, base)
    requires var i := Top(side, v.bid, v.ask); i >= 0 && v.queues[i] != []
    ensures var i := Top(side, v.bid, v.ask);
            var n := v.queues[i][0];
            var f := OnSide(BookIn(v, base), side);
            && n < |v.arena| && v.levels[i].head == n
            && f != [] && f[0] == Entry(v.arena[n].id, base + i, v.arena[n].qty)
            && Counted(Shrunk(v, i, n, left), base)
            && BookIn(Shrunk(v, i, n, left), base) ==
               WithSide(BookIn(v, base), side, [f[0].(qty := left)] + f[1..])
  {
    hide Core, Priority, SideLevels, Queues, Shrunk, InRange, QueueOf;
    Shape(v);
    var i := Top(side, v.bid, v.ask);
    NodeAt(v, i, 0);
    var n := v.queues[i][0];
    ShrinkEffect(v, i, 0, n, left);
    var qs: seq<Queue> := Queues(v);
    assert qs[i][0 := Resting(qs[i][0].id, left)] == [Resting(qs[i][0].id, left)] + qs[i][1..];
    TopIsHead(qs, base, v.bid, v.ask, side, left);
  }

  lemma FillWhole(v: Store, base: int, side: Side)
    requires Counted(v, base)
    requires var i := Top(side, v.bid, v.ask); i >= 0 && v.queues[i] != []
    ensures var i := Top(side, v.bid, v.ask);
            var n := v.queues[i][0];
            var f := OnSide(BookIn(v, base), side);
            && n < |v.arena| && Core(Shrunk(v, i, n, 0)) && v.arena[n].id in v.index
            && f != []
            && Counted(Unlinked(Shrunk(v, i, n, 0), i, 0), base)
            && BookIn(Unlinked(Shrunk(v, i, n, 0), i, 0), base) == WithSide(BookIn(v, base), side, f[1..])
  {
    hide Core, Priority, SideLevels, Queues, InRange, QueueOf, Unlinked, Shrunk;
    Shape(v);
    var i := Top(side, v.bid, v.ask);
    NodeAt(v, i, 0);
    HeadGone(v, i);
    TopIsHead(Queues(v), base, v.bid, v.ask, side, 0);
  }

  /** Emptying the head of level `i` and unlinking it drops the front of its queue. */
  lemma HeadGone(v: Store, i: nat)
    requires Core(v) && i < |v.queues| && i < |v.levels| && v.queues[i] != [] && v.queues[i][0] < |v.arena|
    ensures var w := Shrunk(v, i, v.queues[i][0], 0);
            && Core(w) && w.queues == v.queues
            && var t := Unlinked(w, i, 0);
            && Core(t) && t.bid == v.bid && t.ask == v.ask && |t.index| == |v.index| - 1
            && i < |Queues(v)| && Queues(v)[i] != [] && Queues(t) == Queues(v)[i := Queues(v)[i][1..]]
  {
    hide Core, Queues, QueueOf, Unlinked;
    Shape(v);
    NodeAt(v, i, 0);
    var n := v.queues[i][0];
    ShrinkEffect(v, i, 0, n, 0);
    var w := Shrunk(v, i, n, 0);
    UnlinkEffect(w, i, 0);
    Shape(w);
    assert Queues(w)[i][..0] + Queues(w)[i][1..] == Queues(v)[i][1..];
  }

  lemma ShrinkEffect(v: Store, i: nat, k: nat, n: nat, left: nat)
    requires Core(v) && i < |v.queues| && i < |v.levels| && k < |v.queues[i]| && n == v.queues[i][k] && n < |v.arena|
    ensures var t := Shrunk(v, i, n, left);
            && Core(t) && t.bid == v.bid && t.ask == v.ask && t.index == v.index
            && |Queues(v)[i]| == |v.queues[i]|
            && Queues(t) == Queues(v)[i := Queues(v)[i][k := Resting(v.arena[n].id, left)]]
  {
    ShrinkNode(v, i, k, left);
  }

  lemma UnlinkEffect(v: Store, i: nat, k: nat)
    requires Core(v) && i < |v.queues| && k < |v.queues[i]|
    ensures var t := Unlinked(v, i, k);
            && Core(t) && t.bid == v.bid && t.ask == v.ask && |t.index| == |v.index| - 1
            && |Queues(v)[i]| == |v.queues[i]|
            && Queues(t) == Queues(v)[i := Queues(v)[i][..k] + Queues(v)[i][k + 1..]]
  {
    NodeAt(v, i, k);
    UnlinkNode(v, i, k);
    SizeWithout(v.index, v.arena[v.queues[i][k]].id);
  }

  /** The order `id` sits at one position of one list. */
  lemma Locate(v: Store, id: nat) returns (i: nat, k: nat)
    requires Core(v) && id in v.index
    ensures var e := v.index[id];
            && e.levelIdx == i < |v.queues| && k < |v.queues[i]| && v.queues[i][k] == e.nodeIdx < |v.arena|
            && v.arena[e.nodeIdx].id == id && Within(e.side, v.bid, v.ask, i)
            && OneHolder(Queues(v), i, k)
  {
    hide Linked, Partition, Listed, OneHolder, Queues;
    var e := v.index[id];
    i := e.levelIdx;
    k :| 0 <= k < |v.queues[i]| && v.queues[i][k] == e.nodeIdx;
    SoleHolder(v, i, k);
  }

  lemma SoleHolder(v: Store, i: nat, k: nat)
    requires Core(v) && i < |v.queues| && k < |v.queues[i]|
    ensures Lists(v) && |Queues(v)| == |v.queues| && |Queues(v)[i]| == |v.queues[i]|
    ensures OneHolder(Queues(v), i, k)
  {
    assert Distinct(v.queues[i]) by { assert Linked(v.arena, v.levels[i], v.queues[i]); }
    hide Linked, Partition, Indexed;
    var qs: seq<Queue> := Queues(v);
    assert Owns(v, v.queues[i][k], i);
    forall j, m | 0 <= j < |qs| && 0 <= m < |qs[j]| && qs[j][m].id == qs[i][k].id ensures j == i && m == k {
      assert Owns(v, v.queues[j][m], j);
    }
  }

  lemma RemoveOrder(v: Store, base: int, i: nat, k: nat, n: nat, amount: Option<nat>)
    requires Counted(v, base) && i < |v.queues| && k < |v.queues[i]| && n == v.queues[i][k]
    requires n < |v.arena| && (amount.None? || amount.value >= v.arena[n].qty)
    requires v.arena[n].id in v.index && Within(v.index[v.arena[n].id].side, v.bid, v.ask, i)
    requires OneHolder(Queues(v), i, k)
    ensures Counted(Unlinked(v, i, k), base)
    ensures BookIn(Unlinked(v, i, k), base) == TrimBook(BookIn(v, base), v.arena[n].id, amount)
  {
    hide Core, Priority, SideLevels, Queues, InRange, QueueOf, OneHolder, Within, Trim, TrimBook, Unlinked;
    Shape(v);
    NodeAt(v, i, k);
    UnlinkEffect(v, i, k);
    var qs: seq<Queue> := Queues(v);
    assert qs[i := TrimAt(qs[i], k, amount)] == Queues(Unlinked(v, i, k));
    TrimAtAxis(qs, base, v.bid, v.ask, v.index[v.arena[n].id].side, i, k, amount);
  }

  lemma ReduceOrder(v: Store, base: int, i: nat, k: nat, n: nat, amount: nat)
    requires Counted(v, base) && i < |v.queues| && i < |v.levels| && k < |v.queues[i]| && n == v.queues[i][k]
    requires n < |v.arena| && amount < v.arena[n].qty
    requires v.arena[n].id in v.index && Within(v.index[v.arena[n].id].side, v.bid, v.ask, i)
    requires OneHolder(Queues(v), i, k)
    ensures var t := Shrunk(v, i, n, v.arena[n].qty - amount);
            Counted(t, base) && BookIn(t, base) == TrimBook(BookIn(v, base), v.arena[n].id, Some(amount))
  {
    hide Core, Priority, SideLevels, Queues, InRange, QueueOf, OneHolder, Within, Trim, TrimBook, Shrunk;
    Shape(v);
    NodeAt(v, i, k);
    ShrinkEffect(v, i, k, n, v.arena[n].qty - amount);
    var qs: seq<Queue> := Queues(v);
    TrimAtAxis(qs, base, v.bid, v.ask, v.index[v.arena[n].id].side, i, k, Some(amount));
  }

  lemma NotQueued(v: Store, id: nat)
    requires Core(v) && id !in v.index
    ensures Lists(v)
    ensures forall j, m :: 0 <= j < |Queues(v)| && 0 <= m < |Queues(v)[j]| ==> Queues(v)[j][m].id != id
  {
    Shape(v);
    forall j, m | 0 <= j < |Queues(v)| && 0 <= m < |Queues(v)[j]| ensures Queues(v)[j][m].id != id {
      assert |Queues(v)[j]| == |v.queues[j]|;
      NodeAt(v, j, m);
    }
  }

  /** An id outside the index is on neither side. */
  lemma NotIndexed(v: Store, base: int, id: nat, side: Side)
    requires Core(v) && id !in v.index
    ensures !Holds(OnSide(BookIn(v, base), side), id)
  {
    hide Core, Priority, Queues;
    Shape(v);
    NotQueued(v, id);
    var qs: seq<Queue> := Queues(v);
    var l: Levels := SideLevels(qs, base, v.bid, v.ask, side);
    forall x, j | x in l && 0 <= j < |l[x]| ensures l[x][j].id != id {
      assert l[x] == qs[x - base];
    }
    NotHeld(side, l, id);
  }

  /** The order `id` is not resting: trimming it does nothing. */
  lemma NothingToTrim(v: Store, base: int, id: nat, amount: Option<nat>)
    requires Core(v) && id !in v.index
    ensures TrimBook(BookIn(v, base), id, amount) == BookIn(v, base)
  {
    hide Core, BookIn;
    NotIndexed(v, base, id, Buy);
    NotIndexed(v, base, id, Sell);
    TrimAbsent(BookIn(v, base).bids, id, amount);
    TrimAbsent(BookIn(v, base).asks, id, amount);
  }

  /** A resting id is exactly an indexed id. */
  lemma RestsIsIndexed(v: Store, base: int, id: nat)
    requires Core(v)
    ensures Rests(BookIn(v, base), id) <==> id in v.index
  {
    if id in v.index {
      IndexedRests(v, base, id);
    } else {
      NotIndexed(v, base, id, Buy);
      NotIndexed(v, base, id, Sell);
    }
  }

  lemma IndexedRests(v: Store, base: int, id: nat)
    requires Core(v) && id in v.index
    ensures Rests(BookIn(v, base), id)
  {
    var i, k := Locate(v, id);
    NodeAt(v, i, k);
    OnAxisHeld(Queues(v), base, v.bid, v.ask, v.index[id].side, i, k);
  }

  lemma OnAxisHeld(qs: seq<Queue>, base: int, bid: int, ask: int, side: Side, i: nat, k: nat)
    requires InRange(|qs|, bid, ask) && i < |qs| && k < |qs[i]| && Within(side, bid, ask, i)
    ensures Holds(OnSide(BookOf(qs, base, bid, ask), side), qs[i][k].id)
  {
    hide Priority;
    var l := SideLevels(qs, base, bid, ask, side);
    SideAt(qs, base, bid, ask, side, i);
    Members(side, l);
    var e := Entry(qs[i][k].id, base + i, qs[i][k].qty);
    var f := OnSide(BookOf(qs, base, bid, ask), side);
    assert e in f;
    var x :| 0 <= x < |f| && f[x] == e;
  }

  lemma RestOrder(v: Store, base: int, i: nat, side: Side, id: nat, qty: nat)
    requires Counted(v, base) && Room(v, i, id)
    requires if side.Buy? then v.ask < 0 || i < v.ask else i > v.bid
    ensures var t := Raised(Pushed(v, i, side, id, qty), side, i);
            var b := BookIn(v, base);
            && Counted(t, base)
            && BookIn(t, base) == WithSide(b, side, Insert(OnSide(b, side), side, Entry(id, base + i, qty)))
  {
    hide Core, Priority, SideLevels, Queues, InRange, QueueOf, Insert, Pushed, Space, GapEmpty;
    Shape(v);
    PushEffect(v, i, side, id, qty);
    GapFromIndex(v);
    var t := Raised(Pushed(v, i, side, id, qty), side, i);
    Shape(t);
    var b := BookIn(v, base);
    InsertLonger(OnSide(b, side), side, Entry(id, base + i, qty));
    InsertAt(Queues(v), base, v.bid, v.ask, t.bid, t.ask, side, i, Resting(id, qty));
  }

  lemma PushEffect(v: Store, i: nat, side: Side, id: nat, qty: nat)
    requires Room(v, i, id)
    requires if side.Buy? then v.ask < 0 || i < v.ask else i > v.bid
    ensures Core(v) && i < |v.levels| == |v.queues| == |Queues(v)|
    ensures var t := Raised(Pushed(v, i, side, id, qty), side, i);
            && Core(t) && |t.index| == |v.index| + 1
            && Pushed(v, i, side, id, qty).bid == v.bid && Pushed(v, i, side, id, qty).ask == v.ask
            && Queues(t) == Queues(v)[i := Queues(v)[i] + [Resting(id, qty)]]
  {
    PushNode(v, i, side, id, qty);
    SizeWith(v.index, id, IndexEntry(side, i, FreshNode(v)));
  }

  /** Level `j` was passed when the scan from `top` stopped at `i` (-1: ran off the array). */
  ghost predicate Scanned(side: Side, top: int, i: int, j: int) {
    if side.Buy? then i < j <= top else top <= j && (i < 0 || j < i)
  }

  /** A new best index over empty levels leaves the book unchanged. */
  lemma Rescan(v: Store, base: int, side: Side, i: int)
    requires Counted(v, base) && -1 <= i < |v.queues|
    requires var top := Top(side, v.bid, v.ask);
             && top >= 0
             && (if side.Buy? then i <= top else i < 0 || top <= i)
             && (forall j :: 0 <= j < |v.queues| && Scanned(side, top, i, j) ==> v.queues[j] == [])
    ensures var t := if side.Buy? then v.(bid := i) else v.(ask := i);
            Counted(t, base) && BookIn(t, base) == BookIn(v, base)
  {
    hide Core, Priority, SideLevels, Queues;
    var t := if side.Buy? then v.(bid := i) else v.(ask := i);
    Shape(v);
    GapFromIndex(v);
    RescanCore(v, t, side, i);
    Shape(t);
    var qs: seq<Queue> := Queues(v);
    QueuesEmpty(v);
    Retop(qs, base, v.bid, v.ask, t.bid, t.ask);
  }

  lemma QueuesEmpty(v: Store)
    requires Lists(v)
    ensures forall j :: 0 <= j < |v.queues| ==> (v.queues[j] == [] <==> Queues(v)[j] == [])
  {
    hide Linked;
    forall j | 0 <= j < |v.queues| ensures |Queues(v)[j]| == |v.queues[j]| {
      assert Linked(v.arena, v.levels[j], v.queues[j]);
    }
  }

  lemma RescanCore(v: Store, t: Store, side: Side, i: int)
    requires Core(v) && -1 <= i < |v.queues|
    requires t == if side.Buy? then v.(bid := i) else v.(ask := i)
    requires var top := Top(side, v.bid, v.ask);
             && top >= 0
             && (if side.Buy? then i <= top else i < 0 || top <= i)
             && (forall j :: 0 <= j < |v.queues| && Scanned(side, top, i, j) ==> v.queues[j] == [])
    ensures Core(t) && Queues(t) == Queues(v)
  {
    hide Linked;
    forall id | id in t.index ensures OnOwnSide(t, t.index[id]) {
      var e := v.index[id];
      assert v.queues[e.levelIdx] != [];
      assert OnOwnSide(v, e);
    }
    forall j, m | 0 <= j < |t.queues| && 0 <= m < |t.queues[j]| ensures Owns(t, t.queues[j][m], j) {
      assert Owns(v, v.queues[j][m], j);
    }
    assert forall m :: 0 <= m < v.bump ==> Live(t, m) == Live(v, m);
  }

  lemma RebaseBook(v: Store, t: Store, base: int, d: nat)
    requires Counted(v, base) && Rebased(v, t, d)
    ensures Counted(t, base - d) && BookIn(t, base - d) == BookIn(v, base)
  {
    RebaseStore(v, t, d);
    assert |t.index.Keys| == |v.index.Keys|;
    hide Core, Priority, SideLevels, Lists, Listed, Indexed, Partition;
    RebaseAxis(Queues(v), base, v.bid, v.ask, d);
  }

  lemma ExtendBook(v: Store, base: int, d: nat)
    requires Counted(v, base)
    ensures Counted(Extended(v, d), base) && BookIn(Extended(v, d), base) == BookIn(v, base)
  {
    ExtendStore(v, d);
    hide Core, Priority, SideLevels, Lists, Listed, Indexed, Partition;
    ExtendAxis(Queues(v), base, v.bid, v.ask, d);
  }

  /** The best price of a side is the price of its first order. */
  lemma BestPrice(v: Store, base: int, side: Side)
    requires Core(v) && TopExact(v, side)
    ensures var i := Top(side, v.bid, v.ask);
            var f := OnSide(BookIn(v, base), side);
            && (f == [] <==> i < 0)
            && (i >= 0 ==> f[0].price == base + i)
  {
    var i := Top(side, v.bid, v.ask);
    if i < 0 {
      NoTop(Queues(v), base, v.bid, v.ask, side);
    } else {
      assert |Queues(v)[i]| == |v.queues[i]|;
      TopIsHead(Queues(v), base, v.bid, v.ask, side, 0);
    }
  }
}

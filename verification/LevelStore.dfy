/** The storage of the fast engine as a value (cpp/include/order_book_v2.h): an arena of
    nodes, one intrusive doubly linked list per price level, a free list and an id index.
    Each lemma takes one primitive mutation and shows that the storage stays consistent and
    what happened to the FIFO queues. */
module LevelStore {
  import opened Orders
  import opened PriceLevels

  const NIL: nat := 0xFFFF_FFFF

  datatype Node = Node(id: nat, qty: nat, prev: nat, next: nat)

  datatype PriceLevel = PriceLevel(head: nat, tail: nat, totalQty: int)

  const NO_LEVEL := PriceLevel(NIL, NIL, 0)

  datatype IndexEntry = IndexEntry(side: Side, levelIdx: int, nodeIdx: nat)

  /** `queues[i]` is the list of node positions hanging off level `i`; it exists only in
      the proof. */
  datatype Store = Store(
    arena: seq<Node>, bump: nat, free: seq<nat>,
    levels: seq<PriceLevel>, queues: seq<seq<nat>>,
    index: map<nat, IndexEntry>, bid: int, ask: int)

  // ---------- one linked list ----------

  ghost predicate InArena(arena: seq<Node>, q: seq<nat>) {
    forall k :: 0 <= k < |q| ==> q[k] < |arena|
  }

  ghost predicate Distinct(q: seq<nat>) {
    forall j, k :: 0 <= j < k < |q| ==> q[j] != q[k]
  }

  ghost function QueueOf(arena: seq<Node>, q: seq<nat>): (r: Queue)
    requires InArena(arena, q)
    ensures |r| == |q|
    ensures forall k :: 0 <= k < |q| ==> r[k] == Resting(arena[q[k]].id, arena[q[k]].qty)
  {
    seq(|q|, k requires 0 <= k < |q| => Resting(arena[q[k]].id, arena[q[k]].qty))
  }

  ghost predicate Ends(lvl: PriceLevel, q: seq<nat>) {
    if q == [] then lvl.head == NIL && lvl.tail == NIL
    else lvl.head == q[0] && lvl.tail == q[|q| - 1]
  }

  ghost predicate LinkAt(arena: seq<Node>, q: seq<nat>, k: nat)
    requires k < |q| && q[k] < |arena|
  {
    && arena[q[k]].prev == (if k == 0 then NIL else q[k - 1])
    && arena[q[k]].next == (if k + 1 == |q| then NIL else q[k + 1])
  }

  ghost predicate Chained(arena: seq<Node>, q: seq<nat>)
    requires InArena(arena, q)
  {
    forall k {:trigger LinkAt(arena, q, k)} :: 0 <= k < |q| ==> LinkAt(arena, q, k)
  }

  ghost predicate Linked(arena: seq<Node>, lvl: PriceLevel, q: seq<nat>) {
    && |arena| <= NIL && InArena(arena, q) && Distinct(q)
    && Ends(lvl, q) && Chained(arena, q)
    && lvl.totalQty == Total(QueueOf(arena, q))
  }

  lemma LinkedFrame(a: seq<Node>, b: seq<Node>, lvl: PriceLevel, q: seq<nat>)
    requires Linked(a, lvl, q) && |a| == |b|
    requires forall k :: 0 <= k < |q| ==> b[q[k]] == a[q[k]]
    ensures Linked(b, lvl, q) && QueueOf(b, q) == QueueOf(a, q)
  {
    assert QueueOf(b, q) == QueueOf(a, q);
    forall k | 0 <= k < |q| ensures LinkAt(b, q, k) { assert LinkAt(a, q, k); }
  }

  function Without(q: seq<nat>, k: nat): (r: seq<nat>)
    requires k < |q|
    ensures |r| == |q| - 1
    ensures forall j :: 0 <= j < |r| ==> r[j] == if j < k then q[j] else q[j + 1]
  {
    q[..k] + q[k + 1..]
  }

  /** The arena after node `n` is bypassed by its neighbours. */
  function Bypassed(arena: seq<Node>, n: nat): (r: seq<Node>)
    requires n < |arena|
    requires arena[n].prev != NIL ==> arena[n].prev < |arena|
    requires arena[n].next != NIL ==> arena[n].next < |arena|
    ensures |r| == |arena|
  {
    var node := arena[n];
    var a := if node.prev != NIL then arena[node.prev := arena[node.prev].(next := node.next)] else arena;
    if node.next != NIL then a[node.next := a[node.next].(prev := node.prev)] else a
  }

  function BypassedLevel(lvl: PriceLevel, node: Node): PriceLevel {
    PriceLevel(if node.prev != NIL then lvl.head else node.next,
               if node.next != NIL then lvl.tail else node.prev,
               lvl.totalQty - node.qty)
  }

  lemma NeighboursInArena(a: seq<Node>, lvl: PriceLevel, q: seq<nat>, k: nat)
    requires Linked(a, lvl, q) && k < |q|
    ensures a[q[k]].prev != NIL ==> a[q[k]].prev < |a|
    ensures a[q[k]].next != NIL ==> a[q[k]].next < |a|
  {
    assert LinkAt(a, q, k);
    assert k > 0 ==> q[k - 1] < |a|;
    assert k + 1 < |q| ==> q[k + 1] < |a|;
  }

  lemma UnlinkList(a: seq<Node>, lvl: PriceLevel, q: seq<nat>, k: nat)
    requires Linked(a, lvl, q) && k < |q|
    ensures a[q[k]].prev != NIL ==> a[q[k]].prev < |a|
    ensures a[q[k]].next != NIL ==> a[q[k]].next < |a|
    ensures Linked(Bypassed(a, q[k]), BypassedLevel(lvl, a[q[k]]), Without(q, k))
    ensures QueueOf(Bypassed(a, q[k]), Without(q, k)) == QueueOf(a, q)[..k] + QueueOf(a, q)[k + 1..]
    ensures forall n :: 0 <= n < |a| ==> Bypassed(a, q[k])[n].id == a[n].id
    ensures forall n :: 0 <= n < |a| && n !in q ==> Bypassed(a, q[k])[n] == a[n]
  {
    NeighboursInArena(a, lvl, q, k);
    BypassedNodes(a, q[k]);
    UnlinkedQueue(a, Bypassed(a, q[k]), q, k);
    UnlinkedChain(a, lvl, q, k);
    UnlinkedEnds(a, lvl, q, k);
    hide Total, QueueOf, Ends, Chained, Bypassed, BypassedLevel, Without, Distinct;
  }

  lemma BypassedNodes(a: seq<Node>, n: nat)
    requires n < |a|
    requires a[n].prev != NIL ==> a[n].prev < |a|
    requires a[n].next != NIL ==> a[n].next < |a|
    ensures var b := Bypassed(a, n);
            forall m :: 0 <= m < |a| ==>
                          && b[m].id == a[m].id && b[m].qty == a[m].qty
                          && (m != a[n].prev && m != a[n].next ==> b[m] == a[m])
  {
  }

  lemma BypassedLinks(a: seq<Node>, n: nat, m: nat)
    requires n < |a| <= NIL && m < |a|
    requires a[n].prev != NIL ==> a[n].prev < |a|
    requires a[n].next != NIL ==> a[n].next < |a|
    ensures Bypassed(a, n)[m].next == if m == a[n].prev then a[n].next else a[m].next
    ensures Bypassed(a, n)[m].prev == if m == a[n].next then a[n].prev else a[m].prev
  {
  }

  lemma UnlinkedEnds(a: seq<Node>, lvl: PriceLevel, q: seq<nat>, k: nat)
    requires Linked(a, lvl, q) && k < |q|
    ensures Ends(BypassedLevel(lvl, a[q[k]]), Without(q, k)) && Distinct(Without(q, k))
    ensures BypassedLevel(lvl, a[q[k]]).totalQty == lvl.totalQty - a[q[k]].qty
    ensures a[q[k]].prev != NIL ==> a[q[k]].prev in q
    ensures a[q[k]].next != NIL ==> a[q[k]].next in q
  {
    hide Total, QueueOf;
    assert LinkAt(a, q, k);
  }

  lemma UnlinkedChain(a: seq<Node>, lvl: PriceLevel, q: seq<nat>, k: nat)
    requires Linked(a, lvl, q) && k < |q|
    requires a[q[k]].prev != NIL ==> a[q[k]].prev < |a|
    requires a[q[k]].next != NIL ==> a[q[k]].next < |a|
    ensures InArena(Bypassed(a, q[k]), Without(q, k)) && Chained(Bypassed(a, q[k]), Without(q, k))
  {
    hide Total, QueueOf, Ends, Bypassed, LinkAt;
    var b, r := Bypassed(a, q[k]), Without(q, k);
    forall j | 0 <= j < |r| ensures LinkAt(b, r, j) {
      assert LinkAt(a, q, k) && LinkAt(a, q, if j < k then j else j + 1);
      UnlinkedLink(a, q, k, j);
    }
  }

  lemma UnlinkedLink(a: seq<Node>, q: seq<nat>, k: nat, j: nat)
    requires |a| <= NIL && InArena(a, q) && Distinct(q) && k < |q| && j + 1 < |q|
    requires LinkAt(a, q, k) && LinkAt(a, q, if j < k then j else j + 1)
    requires a[q[k]].prev != NIL ==> a[q[k]].prev < |a|
    requires a[q[k]].next != NIL ==> a[q[k]].next < |a|
    ensures Without(q, k)[j] < |a| && LinkAt(Bypassed(a, q[k]), Without(q, k), j)
  {
    BypassedLinks(a, q[k], Without(q, k)[j]);
    hide Bypassed;
  }

  lemma UnlinkedQueue(a: seq<Node>, b: seq<Node>, q: seq<nat>, k: nat)
    requires InArena(a, q) && k < |q| && |b| == |a|
    requires forall n :: 0 <= n < |a| ==> b[n].id == a[n].id && b[n].qty == a[n].qty
    ensures InArena(b, Without(q, k))
    ensures QueueOf(b, Without(q, k)) == QueueOf(a, q)[..k] + QueueOf(a, q)[k + 1..]
    ensures Total(QueueOf(b, Without(q, k))) == Total(QueueOf(a, q)) - a[q[k]].qty
  {
    var v, r := QueueOf(a, q), Without(q, k);
    assert QueueOf(b, r) == v[..k] + v[k + 1..];
    TotalSplit(v, k);
    TotalConcat(v[..k], v[k + 1..]);
  }

  function Appended(arena: seq<Node>, lvl: PriceLevel, n: nat, id: nat, qty: nat): (r: seq<Node>)
    requires n < |arena| && (lvl.tail != NIL ==> lvl.tail < |arena|)
    ensures |r| == |arena|
  {
    var a := arena[n := Node(id, qty, lvl.tail, NIL)];
    if lvl.tail == NIL then a else a[lvl.tail := a[lvl.tail].(next := n)]
  }

  function AppendedLevel(lvl: PriceLevel, n: nat, qty: nat): PriceLevel {
    PriceLevel(if lvl.tail == NIL then n else lvl.head, n, lvl.totalQty + qty)
  }

  lemma AppendedIds(a: seq<Node>, lvl: PriceLevel, n: nat, id: nat, qty: nat)
    requires n < |a| && (lvl.tail != NIL ==> lvl.tail < |a| && lvl.tail != n)
    ensures var b := Appended(a, lvl, n, id, qty);
            && b[n] == Node(id, qty, lvl.tail, NIL)
            && (forall m :: 0 <= m < |a| && m != n ==> b[m].id == a[m].id && b[m].qty == a[m].qty)
            && (forall m :: 0 <= m < |a| && m != n && m != lvl.tail ==> b[m] == a[m])
            && (lvl.tail != NIL ==> b[lvl.tail] == a[lvl.tail].(next := n))
  {
  }

  lemma AppendList(a: seq<Node>, lvl: PriceLevel, q: seq<nat>, n: nat, id: nat, qty: nat)
    requires Linked(a, lvl, q) && n < |a| && n !in q
    ensures lvl.tail != NIL ==> lvl.tail < |a| && lvl.tail in q
    ensures Linked(Appended(a, lvl, n, id, qty), AppendedLevel(lvl, n, qty), q + [n])
    ensures QueueOf(Appended(a, lvl, n, id, qty), q + [n]) == QueueOf(a, q) + [Resting(id, qty)]
    ensures forall m :: 0 <= m < |a| && m != n ==> Appended(a, lvl, n, id, qty)[m].id == a[m].id
    ensures forall m :: 0 <= m < |a| && m != n && m !in q ==> Appended(a, lvl, n, id, qty)[m] == a[m]
  {
    var b := Appended(a, lvl, n, id, qty);
    assert lvl.tail != NIL ==> q[|q| - 1] == lvl.tail;
    AppendedIds(a, lvl, n, id, qty);
    hide Appended;
    AppendedChain(a, b, lvl, q, n, id, qty);
    AppendedQueue(a, b, q, n, id, qty);
    hide QueueOf, Total, Chained;
  }

  lemma AppendedChain(a: seq<Node>, b: seq<Node>, lvl: PriceLevel, q: seq<nat>, n: nat, id: nat, qty: nat)
    requires Linked(a, lvl, q) && n < |a| && n !in q && |b| == |a|
    requires b[n] == Node(id, qty, lvl.tail, NIL)
    requires forall m :: 0 <= m < |a| && m != n && m != lvl.tail ==> b[m] == a[m]
    requires lvl.tail != NIL ==> lvl.tail < |a| && lvl.tail != n && b[lvl.tail] == a[lvl.tail].(next := n)
    ensures InArena(b, q + [n]) && Distinct(q + [n]) && Chained(b, q + [n])
  {
    hide Total, QueueOf;
    var r := q + [n];
    forall k | 0 <= k < |r| ensures LinkAt(b, r, k) {
      if k < |q| { assert LinkAt(a, q, k); }
    }
  }

  lemma AppendedQueue(a: seq<Node>, b: seq<Node>, q: seq<nat>, n: nat, id: nat, qty: nat)
    requires InArena(a, q) && InArena(b, q + [n]) && n < |a| && n !in q && |b| == |a|
    requires b[n].id == id && b[n].qty == qty
    requires forall m :: 0 <= m < |a| && m != n ==> b[m].id == a[m].id && b[m].qty == a[m].qty
    ensures QueueOf(b, q + [n]) == QueueOf(a, q) + [Resting(id, qty)]
    ensures Total(QueueOf(b, q + [n])) == Total(QueueOf(a, q)) + qty
  {
    assert QueueOf(b, q + [n]) == QueueOf(a, q) + [Resting(id, qty)];
    TotalConcat(QueueOf(a, q), [Resting(id, qty)]);
    assert Total([Resting(id, qty)]) == qty;
  }

  lemma ShrinkList(a: seq<Node>, lvl: PriceLevel, q: seq<nat>, k: nat, left: nat)
    requires Linked(a, lvl, q) && k < |q|
    ensures Linked(a[q[k] := a[q[k]].(qty := left)], lvl.(totalQty := lvl.totalQty - (a[q[k]].qty - left)), q)
    ensures QueueOf(a[q[k] := a[q[k]].(qty := left)], q) == QueueOf(a, q)[k := Resting(a[q[k]].id, left)]
  {
    var b := a[q[k] := a[q[k]].(qty := left)];
    var v, w := QueueOf(a, q), QueueOf(b, q);
    forall j | 0 <= j < |q| ensures LinkAt(b, q, j) { assert LinkAt(a, q, j); }
    assert w == v[k := Resting(a[q[k]].id, left)];
    TotalSplit(v, k);
    TotalSplit(w, k);
    assert w[..k] == v[..k] && w[k + 1..] == v[k + 1..];
  }

  // ---------- the whole store ----------

  ghost predicate Lists(s: Store) {
    && |s.queues| == |s.levels|
    && |s.arena| <= NIL
    && forall i :: 0 <= i < |s.queues| ==> Linked(s.arena, s.levels[i], s.queues[i])
  }

  /** Node `n` carries a live order that the index places at level `i`. */
  ghost predicate Owns(s: Store, n: nat, i: int) {
    && n < s.bump && n < |s.arena| && s.arena[n].id in s.index
    && s.index[s.arena[n].id].levelIdx == i && s.index[s.arena[n].id].nodeIdx == n
  }

  ghost predicate Listed(s: Store) {
    forall i, k :: 0 <= i < |s.queues| && 0 <= k < |s.queues[i]| ==> Owns(s, s.queues[i][k], i)
  }

  /** Bids live at or below the best bid, asks at or above the best ask. */
  ghost predicate OnOwnSide(s: Store, e: IndexEntry) {
    if e.side.Buy? then e.levelIdx <= s.bid else 0 <= s.ask <= e.levelIdx
  }

  ghost predicate Indexed(s: Store) {
    forall id :: id in s.index ==>
                   var e := s.index[id];
                   && 0 <= e.levelIdx < |s.queues| && e.nodeIdx in s.queues[e.levelIdx]
                   && e.nodeIdx < |s.arena| && s.arena[e.nodeIdx].id == id
                   && OnOwnSide(s, e)
  }

  ghost predicate TopsInRange(s: Store) {
    && -1 <= s.bid < |s.levels| && -1 <= s.ask < |s.levels|
    && (s.bid >= 0 && s.ask >= 0 ==> s.bid < s.ask)
  }

  ghost predicate Live(s: Store, n: nat)
    requires n < |s.arena|
  {
    s.arena[n].id in s.index && s.index[s.arena[n].id].nodeIdx == n
  }

  /** Live nodes and the free list partition the used prefix of the arena. */
  ghost predicate Partition(s: Store) {
    && s.bump <= |s.arena|
    && Distinct(s.free)
    && (forall k :: 0 <= k < |s.free| ==> s.free[k] < s.bump)
    && (forall n :: 0 <= n < s.bump ==> (n in s.free <==> !Live(s, n)))
    && |s.index| + |s.free| == s.bump
  }

  ghost predicate Core(s: Store) {
    Lists(s) && Listed(s) && Indexed(s) && TopsInRange(s) && Partition(s)
  }

  ghost function Queues(s: Store): (r: seq<Queue>)
    requires Lists(s)
    ensures |r| == |s.queues| && forall i :: 0 <= i < |r| ==> r[i] == QueueOf(s.arena, s.queues[i])
  {
    seq(|s.queues|, i requires 0 <= i < |s.queues| => QueueOf(s.arena, s.queues[i]))
  }

  // ---------- primitive mutations ----------

  /** Mutations touch one level; the lists of all other levels are framed. */
  lemma ChangeLevel(s: Store, t: Store, i: nat)
    requires Lists(s) && i < |s.queues| && |t.arena| == |s.arena|
    requires |t.levels| == |t.queues| == |s.queues|
    requires t.levels == s.levels[i := t.levels[i]] && t.queues == s.queues[i := t.queues[i]]
    requires Linked(t.arena, t.levels[i], t.queues[i])
    requires forall j, m :: 0 <= j < |s.queues| && j != i && 0 <= m < |s.queues[j]| && s.queues[j][m] < |s.arena|
                            ==> t.arena[s.queues[j][m]] == s.arena[s.queues[j][m]]
    ensures Lists(t) && Queues(t) == Queues(s)[i := QueueOf(t.arena, t.queues[i])]
  {
    hide Distinct, Ends, Chained;
    forall j | 0 <= j < |t.queues|
      ensures Linked(t.arena, t.levels[j], t.queues[j])
      ensures j != i ==> QueueOf(t.arena, t.queues[j]) == QueueOf(s.arena, s.queues[j])
    {
      if j != i {
        assert Linked(s.arena, s.levels[j], s.queues[j]);
        LinkedFrame(s.arena, t.arena, s.levels[j], s.queues[j]);
      }
    }
    assert Queues(t) == Queues(s)[i := QueueOf(t.arena, t.queues[i])];
  }

  /** Lists of different levels share no node. */
  lemma Elsewhere(s: Store, i: nat)
    requires Core(s) && i < |s.queues|
    ensures forall j, m :: 0 <= j < |s.queues| && j != i && 0 <= m < |s.queues[j]|
                           ==> s.queues[j][m] < |s.arena| && s.queues[j][m] !in s.queues[i]
  {
    hide Linked, Partition, Indexed;
    forall j, m | 0 <= j < |s.queues| && j != i && 0 <= m < |s.queues[j]|
      ensures s.queues[j][m] < |s.arena| && s.queues[j][m] !in s.queues[i]
    {
      assert Owns(s, s.queues[j][m], j);
      assert forall x :: 0 <= x < |s.queues[i]| ==> Owns(s, s.queues[i][x], i);
    }
  }

  /** The index entry of a listed node. */
  lemma Owned(s: Store, i: nat, k: nat)
    requires Core(s) && i < |s.queues| && k < |s.queues[i]|
    ensures Owns(s, s.queues[i][k], i) && Linked(s.arena, s.levels[i], s.queues[i])
  {
  }

  ghost function Shrunk(s: Store, i: nat, n: nat, left: nat): Store
    requires i < |s.levels| && n < |s.arena|
  {
    s.(arena := s.arena[n := s.arena[n].(qty := left)],
       levels := s.levels[i := s.levels[i].(totalQty := s.levels[i].totalQty - (s.arena[n].qty - left))])
  }

  lemma ShrinkNode(s: Store, i: nat, k: nat, left: nat)
    requires Core(s) && i < |s.queues| && k < |s.queues[i]|
    ensures s.queues[i][k] < |s.arena|
    ensures var n := s.queues[i][k];
            var t := Shrunk(s, i, n, left);
            Core(t) && Queues(t) == Queues(s)[i := Queues(s)[i][k := Resting(s.arena[n].id, left)]]
  {
    hide Linked, Listed, Indexed, Partition, QueueOf;
    var n := s.queues[i][k];
    Owned(s, i, k);
    NodeInArena(s.arena, s.levels[i], s.queues[i], k);
    Elsewhere(s, i);
    ShrinkList(s.arena, s.levels[i], s.queues[i], k, left);
    var t := Shrunk(s, i, n, left);
    SameIds(s, t);
    ChangeLevel(s, t, i);
  }

  lemma NodeInArena(arena: seq<Node>, lvl: PriceLevel, q: seq<nat>, k: nat)
    requires Linked(arena, lvl, q) && k < |q|
    ensures q[k] < |arena|
  {
  }

  /** The index-side invariants look at node ids only. */
  lemma SameIds(s: Store, t: Store)
    requires Core(s)
    requires t.queues == s.queues && t.index == s.index && t.bump == s.bump && t.free == s.free
    requires t.bid == s.bid && t.ask == s.ask && |t.levels| == |s.levels| && |t.arena| == |s.arena|
    requires forall n :: 0 <= n < |s.arena| ==> t.arena[n].id == s.arena[n].id
    ensures Listed(t) && Indexed(t) && TopsInRange(t) && Partition(t)
  {
    hide Linked, Distinct;
    forall j, m | 0 <= j < |t.queues| && 0 <= m < |t.queues[j]| ensures Owns(t, t.queues[j][m], j) {
      assert Owns(s, s.queues[j][m], j);
    }
    assert forall m :: 0 <= m < s.bump ==> Live(t, m) == Live(s, m);
  }

  ghost function Unlinked(s: Store, i: nat, k: nat): Store
    requires Core(s) && i < |s.queues| && k < |s.queues[i]|
  {
    var n := s.queues[i][k];
    Owned(s, i, k);
    UnlinkList(s.arena, s.levels[i], s.queues[i], k);
    s.(arena := Bypassed(s.arena, n),
       levels := s.levels[i := BypassedLevel(s.levels[i], s.arena[n])],
       queues := s.queues[i := Without(s.queues[i], k)],
       index := s.index - {s.arena[n].id},
       free := s.free + [n])
  }

  lemma UnlinkNode(s: Store, i: nat, k: nat)
    requires Core(s) && i < |s.queues| && k < |s.queues[i]|
    ensures var t := Unlinked(s, i, k);
            Core(t) && Queues(t) == Queues(s)[i := Queues(s)[i][..k] + Queues(s)[i][k + 1..]]
  {
    UnlinkLists(s, i, k);
    UnlinkIndex(s, i, k);
  }

  lemma UnlinkLists(s: Store, i: nat, k: nat)
    requires Core(s) && i < |s.queues| && k < |s.queues[i]|
    ensures var t := Unlinked(s, i, k);
            Lists(t) && Queues(t) == Queues(s)[i := Queues(s)[i][..k] + Queues(s)[i][k + 1..]]
  {
    hide Linked, Listed, Indexed, TopsInRange, Partition, Bypassed, BypassedLevel, Without;
    Owned(s, i, k);
    UnlinkList(s.arena, s.levels[i], s.queues[i], k);
    Elsewhere(s, i);
    ChangeLevel(s, Unlinked(s, i, k), i);
  }

  ghost predicate SameNodes(s: Store, t: Store) {
    |t.arena| == |s.arena| && forall n :: 0 <= n < |s.arena| ==> t.arena[n].id == s.arena[n].id
  }

  lemma UnlinkedNodes(s: Store, i: nat, k: nat)
    requires Core(s) && i < |s.queues| && k < |s.queues[i]|
    ensures SameNodes(s, Unlinked(s, i, k))
  {
    hide Linked, Listed, Indexed, Partition, Bypassed, BypassedLevel, Without, QueueOf, TopsInRange;
    Owned(s, i, k);
    UnlinkList(s.arena, s.levels[i], s.queues[i], k);
  }

  lemma DistinctQueue(arena: seq<Node>, lvl: PriceLevel, q: seq<nat>)
    requires Linked(arena, lvl, q)
    ensures Distinct(q)
  {
  }

  lemma UnlinkIndex(s: Store, i: nat, k: nat)
    requires Core(s) && i < |s.queues| && k < |s.queues[i]|
    ensures var t := Unlinked(s, i, k); Listed(t) && Indexed(t) && TopsInRange(t) && Partition(t)
  {
    hide Linked, Listed, Indexed, Partition, Bypassed, BypassedLevel, Without, QueueOf;
    var n := s.queues[i][k];
    Owned(s, i, k);
    UnlinkedNodes(s, i, k);
    DistinctQueue(s.arena, s.levels[i], s.queues[i]);
    var t := Unlinked(s, i, k);
    assert Live(s, n);
    hide Live;
    ListedWithout(s, t, i, k);
    IndexedWithout(s, t, i, k);
    PartitionWithout(s, t, n);
  }

  lemma ListedWithout(s: Store, t: Store, i: nat, k: nat)
    requires Listed(s) && i < |s.queues| && k < |s.queues[i]| && Distinct(s.queues[i])
    requires SameNodes(s, t) && t.bump == s.bump && t.queues == s.queues[i := Without(s.queues[i], k)]
    requires s.queues[i][k] < |s.arena| && t.index == s.index - {s.arena[s.queues[i][k]].id}
    ensures Listed(t)
  {
    assert Owns(s, s.queues[i][k], i);
    forall j, m | 0 <= j < |t.queues| && 0 <= m < |t.queues[j]| ensures Owns(t, t.queues[j][m], j) {
      var m' := if j == i && m >= k then m + 1 else m;
      assert t.queues[j][m] == s.queues[j][m'] && Owns(s, s.queues[j][m'], j);
    }
  }

  lemma IndexedWithout(s: Store, t: Store, i: nat, k: nat)
    requires Indexed(s) && i < |s.queues| && k < |s.queues[i]|
    requires SameNodes(s, t) && t.queues == s.queues[i := Without(s.queues[i], k)]
    requires s.queues[i][k] < |s.arena| && t.index == s.index - {s.arena[s.queues[i][k]].id}
    requires t.bid == s.bid && t.ask == s.ask
    ensures Indexed(t)
  {
    forall x | x in t.index
      ensures var e := t.index[x]; 0 <= e.levelIdx < |t.queues| && e.nodeIdx in t.queues[e.levelIdx]
    {
      var e := s.index[x];
      assert x in s.index;
      var m :| 0 <= m < |s.queues[e.levelIdx]| && s.queues[e.levelIdx][m] == e.nodeIdx;
      if e.levelIdx == i {
        assert t.queues[i][if m < k then m else m - 1] == e.nodeIdx;
      }
    }
  }

  lemma PartitionWithout(s: Store, t: Store, n: nat)
    requires Partition(s) && n < s.bump && n < |s.arena| && Live(s, n)
    requires SameNodes(s, t) && t.bump == s.bump && t.free == s.free + [n]
    requires t.index == s.index - {s.arena[n].id}
    ensures Partition(t)
  {
    SizeWithout(s.index, s.arena[n].id);
    assert n !in s.free;
    forall m | 0 <= m < t.bump ensures m in t.free <==> !Live(t, m) {
      assert Live(t, m) <==> Live(s, m) && m != n;
      assert m in t.free <==> m in s.free || m == n;
    }
  }

  lemma SizeWithout<V>(m: map<nat, V>, k: nat)
    requires k in m
    ensures |m - {k}| == |m| - 1
  {
    assert (m - {k}).Keys == m.Keys - {k};
    assert |(m - {k}).Keys| == |m.Keys - {k}|;
  }

  lemma SizeWith<V>(m: map<nat, V>, k: nat, v: V)
    requires k !in m
    ensures |m[k := v]| == |m| + 1
  {
    assert m[k := v].Keys == m.Keys + {k};
    assert |m[k := v].Keys| == |m.Keys + {k}|;
  }

  ghost function FreshNode(s: Store): nat {
    if s.free != [] then s.free[|s.free| - 1] else s.bump
  }

  /** The best index of `side` once an order rests at level `i`. */
  ghost function Raised(s: Store, side: Side, i: nat): Store {
    if side.Buy? then s.(bid := if s.bid < 0 || i > s.bid then i else s.bid)
    else s.(ask := if s.ask < 0 || i < s.ask then i else s.ask)
  }

  /** A node is free for level `i`. */
  ghost predicate Space(s: Store, i: nat) {
    Core(s) && i < |s.levels| && (s.free != [] || s.bump < |s.arena|)
  }

  ghost predicate Room(s: Store, i: nat, id: nat) {
    Space(s, i) && id !in s.index
  }

  ghost function Pushed(s: Store, i: nat, side: Side, id: nat, qty: nat): Store
    requires Space(s, i)
  {
    var n := FreshNode(s);
    FreshIsUnused(s);
    TailInArena(s, i);
    Store(Appended(s.arena, s.levels[i], n, id, qty),
          if s.free != [] then s.bump else s.bump + 1,
          if s.free != [] then s.free[..|s.free| - 1] else [],
          s.levels[i := AppendedLevel(s.levels[i], n, qty)],
          s.queues[i := s.queues[i] + [n]],
          s.index[id := IndexEntry(side, i, n)],
          s.bid, s.ask)
  }

  lemma FreshIsUnused(s: Store)
    requires Core(s) && (s.free != [] || s.bump < |s.arena|)
    ensures FreshNode(s) < |s.arena|
    ensures forall i, k :: 0 <= i < |s.queues| && 0 <= k < |s.queues[i]| ==> s.queues[i][k] != FreshNode(s)
    ensures forall id :: id in s.index ==> s.index[id].nodeIdx != FreshNode(s)
  {
    hide Linked;
    var n := FreshNode(s);
    if s.free != [] { assert n in s.free; }
    forall i, k | 0 <= i < |s.queues| && 0 <= k < |s.queues[i]| ensures s.queues[i][k] != n {
      assert Owns(s, s.queues[i][k], i);
    }
  }

  lemma TailInArena(s: Store, i: nat)
    requires Lists(s) && i < |s.levels|
    ensures Linked(s.arena, s.levels[i], s.queues[i])
    ensures s.levels[i].tail != NIL ==> s.levels[i].tail < |s.arena| && s.levels[i].tail in s.queues[i]
    ensures s.levels[i].tail == NIL <==> s.queues[i] == []
    ensures s.levels[i].head == NIL <==> s.queues[i] == []
    ensures s.queues[i] != [] ==> s.levels[i].head == s.queues[i][0] < |s.arena|
  {
    assert Linked(s.arena, s.levels[i], s.queues[i]);
    if s.queues[i] != [] { assert s.queues[i][|s.queues[i]| - 1] == s.levels[i].tail; }
  }

  lemma PushNode(s: Store, i: nat, side: Side, id: nat, qty: nat)
    requires Room(s, i, id)
    requires if side.Buy? then s.ask < 0 || i < s.ask else i > s.bid
    ensures var t := Raised(Pushed(s, i, side, id, qty), side, i);
            Core(t) && Queues(t) == Queues(s)[i := Queues(s)[i] + [Resting(id, qty)]]
  {
    hide Linked, Listed, Indexed, TopsInRange, Partition, Pushed, Space;
    PushLists(s, i, side, id, qty);
    PushIndex(s, i, side, id, qty);
    var p := Pushed(s, i, side, id, qty);
    assert Queues(Raised(p, side, i)) == Queues(p);
  }

  lemma PushLists(s: Store, i: nat, side: Side, id: nat, qty: nat)
    requires Room(s, i, id)
    ensures var t := Pushed(s, i, side, id, qty);
            Lists(t) && Queues(t) == Queues(s)[i := Queues(s)[i] + [Resting(id, qty)]]
  {
    FreshIsUnused(s);
    TailInArena(s, i);
    var t, n := Pushed(s, i, side, id, qty), FreshNode(s);
    AppendList(s.arena, s.levels[i], s.queues[i], n, id, qty);
    Elsewhere(s, i);
    hide Linked, Listed, Indexed, TopsInRange, Partition, FreshNode, Appended, AppendedLevel;
    ChangeLevel(s, t, i);
  }

  lemma PushIndex(s: Store, i: nat, side: Side, id: nat, qty: nat)
    requires Room(s, i, id)
    requires if side.Buy? then s.ask < 0 || i < s.ask else i > s.bid
    ensures var t := Raised(Pushed(s, i, side, id, qty), side, i);
            Listed(t) && Indexed(t) && TopsInRange(t) && Partition(t)
  {
    FreshIsUnused(s);
    hide Lists, Linked, Listed, Indexed, Partition, FreshNode, Appended, AppendedLevel;
    var n := FreshNode(s);
    var t := Raised(Pushed(s, i, side, id, qty), side, i);
    PushedNodes(s, i, side, id, qty);
    PartitionWith(s, t, i, side, id, n);
    ListedWith(s, t, i, side, id, n);
    IndexedWith(s, t, i, side, id, n);
  }

  /** A push writes the fresh node and relinks the old tail; no other id changes. */
  lemma PushedNodes(s: Store, i: nat, side: Side, id: nat, qty: nat)
    requires Space(s, i)
    ensures var t, n := Pushed(s, i, side, id, qty), FreshNode(s);
            n < |s.arena| && SameNodesBut(s, t, n) && t.arena[n].id == id
  {
    FreshIsUnused(s);
    TailInArena(s, i);
    hide Lists, Linked, Listed, Indexed, Partition, FreshNode, Appended, AppendedLevel, TopsInRange;
    AppendedIds(s.arena, s.levels[i], FreshNode(s), id, qty);
  }

  /** Pushing an id that is already indexed strands the node that carries it. */
  lemma Stranded(s: Store, i: nat, side: Side, id: nat, qty: nat)
    requires Space(s, i) && id in s.index
    ensures !Core(Raised(Pushed(s, i, side, id, qty), side, i))
  {
    hide Linked, Partition, FreshNode, Appended, AppendedLevel, Indexed, Listed;
    FreshIsUnused(s);
    var n := FreshNode(s);
    PushedNodes(s, i, side, id, qty);
    var t := Raised(Pushed(s, i, side, id, qty), side, i);
    StrandedNode(s, t, i, side, id, n);
  }

  lemma StrandedNode(s: Store, t: Store, i: nat, side: Side, id: nat, n: nat)
    requires Indexed(s) && i < |s.queues| && n < |s.arena| && id in s.index && s.index[id].nodeIdx != n
    requires SameNodesBut(s, t, n)
    requires t.queues == s.queues[i := s.queues[i] + [n]] && t.index == s.index[id := IndexEntry(side, i, n)]
    ensures !Listed(t)
  {
    var e := s.index[id];
    var m :| 0 <= m < |s.queues[e.levelIdx]| && s.queues[e.levelIdx][m] == e.nodeIdx;
    assert t.queues[e.levelIdx][m] == e.nodeIdx;
    assert !Owns(t, e.nodeIdx, e.levelIdx);
  }

  ghost predicate SameNodesBut(s: Store, t: Store, n: nat) {
    |t.arena| == |s.arena| && forall m :: 0 <= m < |s.arena| && m != n ==> t.arena[m].id == s.arena[m].id
  }

  lemma ListedWith(s: Store, t: Store, i: nat, side: Side, id: nat, n: nat)
    requires Listed(s) && i < |s.queues| && id !in s.index && n < |s.arena|
    requires forall j, m :: 0 <= j < |s.queues| && 0 <= m < |s.queues[j]| ==> s.queues[j][m] != n
    requires SameNodesBut(s, t, n) && t.arena[n].id == id && s.bump <= t.bump && n < t.bump
    requires t.queues == s.queues[i := s.queues[i] + [n]] && t.index == s.index[id := IndexEntry(side, i, n)]
    ensures Listed(t)
  {
    forall j, m | 0 <= j < |t.queues| && 0 <= m < |t.queues[j]| ensures Owns(t, t.queues[j][m], j) {
      if j != i || m != |s.queues[i]| {
        assert t.queues[j][m] == s.queues[j][m] && Owns(s, s.queues[j][m], j);
      }
    }
  }

  lemma IndexedWith(s: Store, t: Store, i: nat, side: Side, id: nat, n: nat)
    requires Indexed(s) && i < |s.queues| && n < |s.arena| && id !in s.index
    requires forall x :: x in s.index ==> s.index[x].nodeIdx != n
    requires SameNodesBut(s, t, n) && t.arena[n].id == id
    requires t.queues == s.queues[i := s.queues[i] + [n]] && t.index == s.index[id := IndexEntry(side, i, n)]
    requires t.bid >= s.bid && t.bid >= -1 && (s.ask >= 0 ==> 0 <= t.ask <= s.ask)
    requires if side.Buy? then i <= t.bid else 0 <= t.ask <= i
    ensures Indexed(t)
  {
    assert t.queues[i][|s.queues[i]|] == n;
    forall x | x in t.index
      ensures var e := t.index[x]; 0 <= e.levelIdx < |t.queues| && e.nodeIdx in t.queues[e.levelIdx]
    {
      if x != id {
        var e := s.index[x];
        var m :| 0 <= m < |s.queues[e.levelIdx]| && s.queues[e.levelIdx][m] == e.nodeIdx;
        assert t.queues[e.levelIdx][m] == e.nodeIdx;
      }
    }
  }

  lemma PartitionWith(s: Store, t: Store, i: nat, side: Side, id: nat, n: nat)
    requires Partition(s) && (s.free != [] || s.bump < |s.arena|) && n == FreshNode(s) && id !in s.index
    requires forall x :: x in s.index ==> s.index[x].nodeIdx != n
    requires SameNodesBut(s, t, n) && n < |s.arena| && t.arena[n].id == id
    requires if s.free != [] then t.free == s.free[..|s.free| - 1] && t.bump == s.bump
             else t.free == [] && t.bump == s.bump + 1
    requires t.index == s.index[id := IndexEntry(side, i, n)]
    ensures Partition(t) && n < t.bump
  {
    SizeWith(s.index, id, IndexEntry(side, i, n));
    if s.free != [] { assert s.free[|s.free| - 1] < s.bump; }
    forall m | 0 <= m < t.bump ensures m in t.free <==> !Live(t, m) {
      if m != n {
        assert Live(t, m) <==> Live(s, m);
        assert m in t.free <==> m in s.free;
      }
    }
  }

  // ---------- moving the price axis ----------

  ghost function Shift(x: int, d: nat): int {
    if x >= 0 then x + d else x
  }

  /** `t` is `s` after `d` empty levels were put in front. */
  ghost predicate Rebased(s: Store, t: Store, d: nat) {
    && t.arena == s.arena && t.bump == s.bump && t.free == s.free
    && t.levels == seq(d, _ => NO_LEVEL) + s.levels
    && t.queues == seq(d, _ => []) + s.queues
    && t.index.Keys == s.index.Keys
    && (forall id :: id in t.index ==> t.index[id] == s.index[id].(levelIdx := s.index[id].levelIdx + d))
    && t.bid == Shift(s.bid, d) && t.ask == Shift(s.ask, d)
  }

  ghost function NoQueues(n: nat): (r: seq<Queue>)
    ensures |r| == n && forall i :: 0 <= i < n ==> r[i] == []
  {
    seq(n, _ => [])
  }

  /** Growing at the front moves every order's level by the same amount. */
  lemma RebaseStore(s: Store, t: Store, d: nat)
    requires Core(s) && Rebased(s, t, d)
    ensures Core(t) && Queues(t) == NoQueues(d) + Queues(s)
  {
    hide Linked, Listed, Indexed, Partition, Queues;
    RebaseIndex(s, t, d);
    RebaseLists(s, t, d);
    RebasePartition(s, t, d);
  }

  lemma RebasePartition(s: Store, t: Store, d: nat)
    requires Partition(s) && Rebased(s, t, d)
    ensures Partition(t)
  {
    assert t.index.Keys == s.index.Keys;
    assert |t.index.Keys| == |s.index.Keys|;
    assert forall m :: 0 <= m < s.bump ==> Live(t, m) == Live(s, m);
  }

  lemma RebaseLists(s: Store, t: Store, d: nat)
    requires Lists(s) && t.arena == s.arena
    requires t.levels == seq(d, _ => NO_LEVEL) + s.levels && t.queues == seq(d, _ => []) + s.queues
    ensures Lists(t) && Queues(t) == NoQueues(d) + Queues(s)
  {
    forall j | 0 <= j < |t.queues| ensures Linked(t.arena, t.levels[j], t.queues[j]) {
      if j >= d {
        assert Linked(s.arena, s.levels[j - d], s.queues[j - d]);
      } else {
        NoList(t.arena);
      }
    }
  }

  lemma NoList(arena: seq<Node>)
    requires |arena| <= NIL
    ensures Linked(arena, NO_LEVEL, [])
  {
  }

  lemma RebaseIndex(s: Store, t: Store, d: nat)
    requires Core(s) && Rebased(s, t, d)
    ensures Listed(t) && Indexed(t)
  {
    hide Linked, Partition;
    forall j, m | 0 <= j < |t.queues| && 0 <= m < |t.queues[j]| ensures Owns(t, t.queues[j][m], j) {
      assert j >= d && t.queues[j] == s.queues[j - d];
      assert Owns(s, s.queues[j - d][m], j - d);
    }
    forall id | id in t.index
      ensures var e := t.index[id]; 0 <= e.levelIdx < |t.queues| && e.nodeIdx in t.queues[e.levelIdx]
    {
      assert t.queues[t.index[id].levelIdx] == s.queues[s.index[id].levelIdx];
    }
  }

  ghost function Extended(s: Store, d: nat): Store {
    s.(levels := s.levels + seq(d, _ => NO_LEVEL), queues := s.queues + seq(d, _ => []))
  }

  lemma ExtendStore(s: Store, d: nat)
    requires Core(s)
    ensures var t := Extended(s, d); Core(t) && Queues(t) == Queues(s) + NoQueues(d)
  {
    var t := Extended(s, d);
    ExtendLists(s, t, d);
    ExtendIndex(s, t, d);
  }

  lemma ExtendIndex(s: Store, t: Store, d: nat)
    requires Listed(s) && Indexed(s) && Partition(s) && t == Extended(s, d)
    ensures Listed(t) && Indexed(t) && Partition(t)
  {
    forall j, m | 0 <= j < |t.queues| && 0 <= m < |t.queues[j]| ensures Owns(t, t.queues[j][m], j) {
      assert t.queues[j] == s.queues[j];
      assert Owns(s, s.queues[j][m], j);
    }
    forall id | id in t.index
      ensures var e := t.index[id]; 0 <= e.levelIdx < |t.queues| && e.nodeIdx in t.queues[e.levelIdx]
    {
      assert t.queues[t.index[id].levelIdx] == s.queues[s.index[id].levelIdx];
    }
    assert forall m :: 0 <= m < s.bump ==> Live(t, m) == Live(s, m);
  }

  lemma ExtendLists(s: Store, t: Store, d: nat)
    requires Lists(s) && t.arena == s.arena
    requires t.levels == s.levels + seq(d, _ => NO_LEVEL) && t.queues == s.queues + seq(d, _ => [])
    ensures Lists(t) && Queues(t) == Queues(s) + NoQueues(d)
  {
    forall j | 0 <= j < |t.queues| ensures Linked(t.arena, t.levels[j], t.queues[j]) {
      if j < |s.queues| {
        assert Linked(s.arena, s.levels[j], s.queues[j]);
      } else {
        NoList(t.arena);
      }
    }
  }
}

/** The middle layer: one FIFO queue per price, as both engines store it. `Priority`
    flattens the queues of one side into the specification's priority list; the `Split`
    lemma locates one price's queue inside that list. */
module PriceLevels {
  import opened Orders
  import opened PriorityBook

  datatype Resting = Resting(id: nat, qty: nat)

  type Queue = seq<Resting>
  type Levels = map<int, Queue>

  ghost predicate IsBest(side: Side, l: Levels, p: int) {
    p in l && forall q :: q in l && q != p ==> Beats(side, p, q)
  }

  lemma {:induction false} BestExists(side: Side, l: Levels)
    requires l != map[]
    ensures exists p :: IsBest(side, l, p)
    decreases |l|
  {
    if forall p :: p !in l { assert false; }
    var p :| p in l;
    var m := l - {p};
    if m == map[] {
      assert forall q :: q in l ==> q == p || q in m;
      assert IsBest(side, l, p);
    } else {
      Shrinks(l, p);
      BestExists(side, m);
      var q :| IsBest(side, m, q);
      assert forall x :: x in l ==> x == p || x in m;
      assert IsBest(side, l, if Beats(side, q, p) then q else p);
    }
  }

  ghost function Best(side: Side, l: Levels): (p: int)
    requires l != map[]
    ensures IsBest(side, l, p)
  {
    BestExists(side, l);
    var p :| IsBest(side, l, p);
    p
  }

  lemma BestUnique(side: Side, l: Levels, p: int)
    requires IsBest(side, l, p)
    ensures p == Best(side, l)
  {
    var b := Best(side, l);
    assert b != p ==> Beats(side, p, b) && Beats(side, b, p);
  }

  ghost function Tag(q: Queue, p: int): (f: seq<Entry>)
    ensures |f| == |q| && forall k :: 0 <= k < |f| ==> f[k] == Entry(q[k].id, p, q[k].qty)
  {
    seq(|q|, k requires 0 <= k < |q| => Entry(q[k].id, p, q[k].qty))
  }

  ghost function Priority(side: Side, l: Levels): seq<Entry>
    decreases |l|
  {
    if l == map[] then []
    else
      var p := Best(side, l);
      Shrinks(l, p);
      Tag(l[p], p) + Priority(side, l - {p})
  }

  lemma Shrinks(l: Levels, p: int)
    requires p in l
    ensures |l - {p}| < |l|
  {
    assert (l - {p}).Keys == l.Keys - {p};
    assert |(l - {p}).Keys| < |l.Keys|;
  }

  ghost predicate NonEmpty(l: Levels) {
    forall p :: p in l ==> l[p] != []
  }

  ghost function At(l: Levels, p: int): Queue {
    if p in l then l[p] else []
  }

  /** Replace the queue at `p`; an empty queue is no level at all. */
  ghost function Put(l: Levels, p: int, q: Queue): (r: Levels)
    ensures At(r, p) == q
    ensures forall x :: x != p ==> At(r, x) == At(l, x)
    ensures NonEmpty(l) ==> NonEmpty(r)
  {
    if q == [] then l - {p} else l[p := q]
  }

  ghost function Above(side: Side, l: Levels, p: int): Levels {
    map x | x in l && Beats(side, x, p) :: if Beats(side, x, p) then l[x] else []
  }

  ghost function Below(side: Side, l: Levels, p: int): Levels {
    map x | x in l && Beats(side, p, x) :: if Beats(side, p, x) then l[x] else []
  }

  /** The best level comes first; `l - {b}` is what remains. */
  lemma Unfold(side: Side, l: Levels, b: int)
    requires IsBest(side, l, b)
    ensures |l - {b}| < |l|
    ensures Priority(side, l) == Tag(l[b], b) + Priority(side, l - {b})
  {
    Shrinks(l, b);
  }

  /** The queue at `p` is one contiguous run of the priority list, with the better
      prices before it and the worse prices after it. */
  lemma {:induction false} Split(side: Side, l: Levels, p: int)
    ensures Priority(side, l) ==
            Priority(side, Above(side, l, p)) + Tag(At(l, p), p) + Priority(side, Below(side, l, p))
    decreases |l|
  {
    hide Priority;
    if l == map[] {
      assert Above(side, l, p) == map[] && Below(side, l, p) == map[];
      EmptyPriority(side);
    } else {
      var b := Best(side, l);
      Unfold(side, l, b);
      if Beats(side, b, p) {
        Split(side, l - {b}, p);
        SplitAbove(side, l, b, p);
      } else {
        assert Above(side, l, p) == map[];
        assert Below(side, l, p) == if b == p then l - {p} else l;
        EmptyPriority(side);
      }
    }
  }

  lemma SplitAbove(side: Side, l: Levels, b: int, p: int)
    requires IsBest(side, l, b) && Beats(side, b, p)
    ensures At(l - {b}, p) == At(l, p) && Below(side, l, p) == Below(side, l - {b}, p)
    ensures Priority(side, Above(side, l, p)) == Tag(l[b], b) + Priority(side, Above(side, l - {b}, p))
  {
    hide Priority, Tag;
    var a := Above(side, l, p);
    assert a - {b} == Above(side, l - {b}, p);
    Unfold(side, a, b);
  }

  lemma EmptyPriority(side: Side)
    ensures Priority(side, map[]) == []
  {
  }

  lemma SplitPut(side: Side, l: Levels, p: int, q: Queue)
    ensures Priority(side, Put(l, p, q)) ==
            Priority(side, Above(side, l, p)) + Tag(q, p) + Priority(side, Below(side, l, p))
  {
    hide Priority, Tag;
    Split(side, Put(l, p, q), p);
    assert Above(side, Put(l, p, q), p) == Above(side, l, p);
    assert Below(side, Put(l, p, q), p) == Below(side, l, p);
  }

  /** Every entry of the priority list comes from the queue at its price, and conversely. */
  lemma {:induction false} Members(side: Side, l: Levels)
    ensures forall e :: e in Priority(side, l) <==> Resting(e.id, e.qty) in At(l, e.price)
    decreases |l|
  {
    if l != map[] {
      var p := Best(side, l);
      Shrinks(l, p);
      Members(side, l - {p});
      forall e ensures e in Priority(side, l) <==> Resting(e.id, e.qty) in At(l, e.price) {
        assert e in Priority(side, l) <==> e in Tag(l[p], p) || e in Priority(side, l - {p});
        if e.price == p {
          if Resting(e.id, e.qty) in l[p] {
            var k :| 0 <= k < |l[p]| && l[p][k] == Resting(e.id, e.qty);
            assert Tag(l[p], p)[k] == e;
          }
        }
      }
    }
  }

  lemma {:induction false} PrioritySorted(side: Side, l: Levels)
    ensures Sorted(Priority(side, l), side)
    decreases |l|
  {
    if l != map[] {
      var p := Best(side, l);
      Shrinks(l, p);
      PrioritySorted(side, l - {p});
      var f, g: seq<Entry> := Tag(l[p], p), Priority(side, l - {p});
      var h: seq<Entry> := f + g;
      forall i, j | 0 <= i < j < |h| ensures !Beats(side, h[j].price, h[i].price) {
        if j >= |f| {
          Members(side, l - {p});
          assert g[j - |f|] in g;
        }
      }
    }
  }

  // ---------- the three book operations, seen at one level ----------

  /** A fill at the best level touches exactly the head of the priority list. */
  lemma FillHead(side: Side, l: Levels, p: int, left: nat)
    requires IsBest(side, l, p) && l[p] != []
    ensures Priority(side, l) != []
    ensures Priority(side, l)[0] == Entry(l[p][0].id, p, l[p][0].qty)
    ensures Priority(side, Put(l, p, l[p][1..])) == Priority(side, l)[1..]
    ensures Priority(side, Put(l, p, [Resting(l[p][0].id, left)] + l[p][1..])) ==
            [Priority(side, l)[0].(qty := left)] + Priority(side, l)[1..]
  {
    hide Priority;
    Split(side, l, p);
    SplitPut(side, l, p, l[p][1..]);
    EmptyPriority(side);
    var q := [Resting(l[p][0].id, left)] + l[p][1..];
    SplitPut(side, l, p, q);
    assert Above(side, l, p) == map[];
    assert Tag(l[p], p)[1..] == Tag(l[p][1..], p);
    assert Tag(q, p) == [Entry(l[p][0].id, p, left)] + Tag(l[p][1..], p);
  }

  lemma {:induction false} InsertSplit(side: Side, a: seq<Entry>, b: seq<Entry>, e: Entry)
    requires forall x :: x in a ==> !Beats(side, e.price, x.price)
    requires forall x :: x in b ==> Beats(side, e.price, x.price)
    ensures Insert(a + b, side, e) == a + [e] + b
  {
    if a == [] {
      assert a + b == b;
      if b != [] { assert b[0] in b; }
    } else {
      assert a[0] in a;
      assert (a + b)[1..] == a[1..] + b;
      InsertSplit(side, a[1..], b, e);
    }
  }

  lemma InsertAtLevel(side: Side, l: Levels, p: int, r: Resting)
    ensures Priority(side, Put(l, p, At(l, p) + [r])) ==
            Insert(Priority(side, l), side, Entry(r.id, p, r.qty))
  {
    hide Priority, Put, At, Insert;
    var q, e := At(l, p), Entry(r.id, p, r.qty);
    var a, b := Priority(side, Above(side, l, p)), Priority(side, Below(side, l, p));
    Split(side, l, p);
    SplitPut(side, l, p, q + [r]);
    SidesOf(side, l, p);
    assert Tag(q + [r], p) == Tag(q, p) + [e];
    InsertSplit(side, a + Tag(q, p), b, e);
    assert a + (Tag(q, p) + [e]) + b == a + Tag(q, p) + [e] + b;
  }

  /** Orders before the run at `p` have better prices, orders after it worse ones. */
  lemma SidesOf(side: Side, l: Levels, p: int)
    ensures forall x :: x in Priority(side, Above(side, l, p)) ==> Beats(side, x.price, p)
    ensures forall x :: x in Priority(side, Below(side, l, p)) ==> Beats(side, p, x.price)
  {
    hide Priority;
    Members(side, Above(side, l, p));
    Members(side, Below(side, l, p));
  }

  lemma {:induction false} TrimConcat(a: seq<Entry>, b: seq<Entry>, id: nat, amount: Option<nat>)
    ensures Trim(a + b, id, amount) == Trim(a, id, amount) + Trim(b, id, amount)
  {
    if a == [] {
      assert a + b == b;
    } else {
      assert (a + b)[1..] == a[1..] + b;
      TrimConcat(a[1..], b, id, amount);
    }
  }

  lemma {:induction false} TrimAbsent(f: seq<Entry>, id: nat, amount: Option<nat>)
    requires !Holds(f, id)
    ensures Trim(f, id, amount) == f
  {
    if f != [] {
      assert f[0].id != id;
      forall k | 0 <= k < |f[1..]| ensures f[1..][k].id != id { assert f[1..][k] == f[k + 1]; }
      TrimAbsent(f[1..], id, amount);
    }
  }

  /** Trimming one order of one queue. */
  ghost function TrimAt(q: Queue, k: nat, amount: Option<nat>): Queue
    requires k < |q|
  {
    if amount.None? || amount.value >= q[k].qty then q[..k] + q[k + 1..]
    else q[k := Resting(q[k].id, q[k].qty - amount.value)]
  }

  ghost predicate OnlyAt(l: Levels, id: nat, p: int, k: nat) {
    && p in l && k < |l[p]| && l[p][k].id == id
    && forall x, j :: x in l && 0 <= j < |l[x]| && l[x][j].id == id ==> x == p && j == k
  }

  lemma TrimAtLevel(side: Side, l: Levels, p: int, k: nat, amount: Option<nat>)
    requires p in l && k < |l[p]| && OnlyAt(l, l[p][k].id, p, k)
    ensures Priority(side, Put(l, p, TrimAt(l[p], k, amount))) == Trim(Priority(side, l), l[p][k].id, amount)
    ensures |Priority(side, Put(l, p, TrimAt(l[p], k, amount)))| ==
            |Priority(side, l)| - (if amount.None? || amount.value >= l[p][k].qty then 1 else 0)
  {
    var q, id := l[p], l[p][k].id;
    var a, b := Priority(side, Above(side, l, p)), Priority(side, Below(side, l, p));
    Split(side, l, p);
    SplitPut(side, l, p, TrimAt(q, k, amount));
    NotHeld(side, Above(side, l, p), id);
    NotHeld(side, Below(side, l, p), id);
    TrimAbsent(a, id, amount);
    TrimAbsent(b, id, amount);
    TrimConcat(a + Tag(q, p), b, id, amount);
    TrimConcat(a, Tag(q, p), id, amount);
    TrimQueue(q, p, k, amount);
  }

  lemma NotHeld(side: Side, l: Levels, id: nat)
    requires forall x, j :: x in l && 0 <= j < |l[x]| ==> l[x][j].id != id
    ensures !Holds(Priority(side, l), id)
  {
    Members(side, l);
    forall k | 0 <= k < |Priority(side, l)| ensures Priority(side, l)[k].id != id {
      var e := Priority(side, l)[k];
      assert e in Priority(side, l);
    }
  }

  lemma TrimQueue(q: Queue, p: int, k: nat, amount: Option<nat>)
    requires k < |q| && forall j :: 0 <= j < |q| && j != k ==> q[j].id != q[k].id
    ensures Trim(Tag(q, p), q[k].id, amount) == Tag(TrimAt(q, k, amount), p)
  {
    hide Trim, TrimAt;
    var e := Entry(q[k].id, p, q[k].qty);
    var a, b := Tag(q[..k], p), Tag(q[k + 1..], p);
    assert Tag(q, p) == a + [e] + b;
    TrimMiddle(a, e, b, amount);
    TagTrimmed(q, p, k, amount);
  }

  lemma TrimMiddle(a: seq<Entry>, e: Entry, b: seq<Entry>, amount: Option<nat>)
    requires !Holds(a, e.id) && !Holds(b, e.id)
    ensures Trim(a + [e] + b, e.id, amount) ==
            if amount.None? || amount.value >= e.qty then a + b else a + [e.(qty := e.qty - amount.value)] + b
  {
    TrimOne(e, amount);
    hide Trim;
    TrimConcat(a + [e], b, e.id, amount);
    TrimConcat(a, [e], e.id, amount);
    TrimAbsent(a, e.id, amount);
    TrimAbsent(b, e.id, amount);
  }

  lemma TagTrimmed(q: Queue, p: int, k: nat, amount: Option<nat>)
    requires k < |q|
    ensures Tag(TrimAt(q, k, amount), p) ==
            if amount.None? || amount.value >= q[k].qty then Tag(q[..k], p) + Tag(q[k + 1..], p)
            else Tag(q[..k], p) + [Entry(q[k].id, p, q[k].qty - amount.value)] + Tag(q[k + 1..], p)
  {
  }

  lemma TrimOne(e: Entry, amount: Option<nat>)
    ensures Trim([e], e.id, amount) ==
            if amount.None? || amount.value >= e.qty then [] else [e.(qty := e.qty - amount.value)]
  {
    assert [e][1..] == [];
  }

  // ---------- level totals ----------

  ghost function Total(q: Queue): nat {
    if q == [] then 0 else q[0].qty + Total(q[1..])
  }

  lemma {:induction false} TotalConcat(a: Queue, b: Queue)
    ensures Total(a + b) == Total(a) + Total(b)
  {
    if a == [] {
      assert a + b == b;
    } else {
      assert (a + b)[1..] == a[1..] + b;
      TotalConcat(a[1..], b);
    }
  }

  lemma TotalSplit(q: Queue, k: nat)
    requires k < |q|
    ensures Total(q) == Total(q[..k]) + q[k].qty + Total(q[k + 1..])
  {
    assert q == q[..k] + q[k..] && q[k..][1..] == q[k + 1..];
    TotalConcat(q[..k], q[k..]);
  }

  /** A level aggregate stands for the whole queue in the all-or-nothing check. */
  lemma CrossableByLevel(side: Side, l: Levels, limit: Option<int>)
    requires l != map[] && NonEmpty(l)
    ensures var p := Best(side, l);
            Crossable(Priority(side, l), side, limit) ==
            if Crosses(side, limit, p) then Total(l[p]) + Crossable(Priority(side, l - {p}), side, limit) else 0
  {
    var p := Best(side, l);
    Shrinks(l, p);
    CrossableQueue(l[p], p, Priority(side, l - {p}), side, limit);
    assert Tag(l[p], p)[0] == Entry(l[p][0].id, p, l[p][0].qty);
  }

  lemma {:induction false} CrossableQueue(q: Queue, p: int, rest: seq<Entry>, side: Side, limit: Option<int>)
    ensures Crosses(side, limit, p) ==>
            Crossable(Tag(q, p) + rest, side, limit) == Total(q) + Crossable(rest, side, limit)
  {
    if q == [] {
      assert Tag(q, p) + rest == rest;
    } else {
      assert (Tag(q, p) + rest)[1..] == Tag(q[1..], p) + rest;
      CrossableQueue(q[1..], p, rest, side, limit);
    }
  }
}

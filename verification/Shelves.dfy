/** Storage of the reference engine as a value: one sorted map of FIFO queues per side and
    an id index. Lemmas say what each mutation keeps. */
module Shelves {
  import opened Orders
  import opened PriorityBook
  import opened PriceLevels

  datatype Location = Location(side: Side, price: int)

  datatype Shelf = Shelf(bids: Levels, asks: Levels, index: map<nat, Location>)

  function LevelsOn(s: Shelf, side: Side): Levels {
    if side.Buy? then s.bids else s.asks
  }

  function WithLevels(s: Shelf, side: Side, l: Levels): Shelf {
    if side.Buy? then s.(bids := l) else s.(asks := l)
  }

  ghost predicate Named(s: Shelf, side: Side, p: int) {
    p in LevelsOn(s, side) ==>
      var q := LevelsOn(s, side)[p];
      && q != []
      && (forall k :: 0 <= k < |q| ==> q[k].id in s.index && s.index[q[k].id] == Location(side, p))
      && (forall j, k :: 0 <= j < k < |q| ==> q[j].id != q[k].id)
  }

  ghost predicate Found(s: Shelf, id: nat)
    requires id in s.index
  {
    var l := LevelsOn(s, s.index[id].side);
    s.index[id].price in l && exists k :: 0 <= k < |l[s.index[id].price]| && l[s.index[id].price][k].id == id
  }

  /** Queues are non-empty, ids unique, and the index knows where each order rests. */
  ghost predicate Shelved(s: Shelf) {
    && (forall side, p :: Named(s, side, p))
    && (forall id :: id in s.index ==> Found(s, id))
  }

  ghost function BookOn(s: Shelf): Book {
    Book(Priority(Buy, s.bids), Priority(Sell, s.asks))
  }

  lemma ShelfNonEmpty(s: Shelf, side: Side)
    requires Shelved(s)
    ensures NonEmpty(LevelsOn(s, side))
  {
    forall p | p in LevelsOn(s, side) ensures LevelsOn(s, side)[p] != [] { assert Named(s, side, p); }
  }

  lemma QueueThere(s: Shelf, side: Side, p: int)
    requires Shelved(s) && p in LevelsOn(s, side)
    ensures LevelsOn(s, side)[p] != []
  {
    assert Named(s, side, p);
  }

  /** The index lists exactly the resting ids. */
  lemma IndexIsRests(s: Shelf, id: nat)
    requires Shelved(s)
    ensures id in s.index <==> Rests(BookOn(s), id)
  {
    if id in s.index {
      assert Found(s, id);
      var side, p := s.index[id].side, s.index[id].price;
      var l: Levels := LevelsOn(s, side);
      var k :| 0 <= k < |l[p]| && l[p][k].id == id;
      HeldAt(side, l, p, k);
    } else {
      forall side ensures !Holds(Priority(side, LevelsOn(s, side)), id) {
        var l: Levels := LevelsOn(s, side);
        forall x, j | x in l && 0 <= j < |l[x]| ensures l[x][j].id != id { assert Named(s, side, x); }
        NotHeld(side, l, id);
      }
      assert !Holds(Priority(Buy, LevelsOn(s, Buy)), id) && !Holds(Priority(Sell, LevelsOn(s, Sell)), id);
    }
  }

  lemma HeldAt(side: Side, l: Levels, p: int, k: nat)
    requires p in l && k < |l[p]|
    ensures Holds(Priority(side, l), l[p][k].id)
  {
    Members(side, l);
    var f, e := Priority(side, l), Entry(l[p][k].id, p, l[p][k].qty);
    assert Resting(e.id, e.qty) in At(l, p);
    assert e in f;
    var x :| 0 <= x < |f| && f[x] == e;
  }

  /** The front order of a level changes quantity. */
  lemma ShelfShrink(s: Shelf, side: Side, p: int, left: nat)
    requires Shelved(s) && p in LevelsOn(s, side)
    ensures LevelsOn(s, side)[p] != []
    ensures var q := LevelsOn(s, side)[p];
            Shelved(WithLevels(s, side, LevelsOn(s, side)[p := [Resting(q[0].id, left)] + q[1..]]))
  {
    assert Named(s, side, p);
    var q := LevelsOn(s, side)[p];
    var q' := [Resting(q[0].id, left)] + q[1..];
    var t := WithLevels(s, side, LevelsOn(s, side)[p := q']);
    assert forall k :: 0 <= k < |q| ==> q'[k].id == q[k].id;
    forall d, x ensures Named(t, d, x) { assert Named(s, d, x); }
    forall id | id in t.index ensures Found(t, id) {
      assert Found(s, id);
      var l: Levels := LevelsOn(s, s.index[id].side);
      var k :| 0 <= k < |l[s.index[id].price]| && l[s.index[id].price][k].id == id;
      assert LevelsOn(t, t.index[id].side)[t.index[id].price][k].id == id;
    }
  }

  /** One order leaves its level; an emptied level is erased. */
  lemma ShelfRemove(s: Shelf, side: Side, p: int, k: nat)
    requires Shelved(s) && p in LevelsOn(s, side) && k < |LevelsOn(s, side)[p]|
    ensures var q := LevelsOn(s, side)[p];
            Shelved(WithLevels(s, side, Put(LevelsOn(s, side), p, q[..k] + q[k + 1..])).(index := s.index - {q[k].id}))
  {
    hide Named, Found, LevelsOn, WithLevels, Put;
    var q := LevelsOn(s, side)[p];
    var t := WithLevels(s, side, Put(LevelsOn(s, side), p, q[..k] + q[k + 1..])).(index := s.index - {q[k].id});
    forall d, x ensures Named(t, d, x) { NamedAfter(s, t, side, p, k, d, x); }
    forall i | i in t.index ensures Found(t, i) { FoundAfter(s, t, side, p, k, i); }
  }

  lemma NamedAfter(s: Shelf, t: Shelf, side: Side, p: int, k: nat, d: Side, x: int)
    requires Shelved(s) && p in LevelsOn(s, side) && k < |LevelsOn(s, side)[p]|
    requires var q := LevelsOn(s, side)[p];
             t == WithLevels(s, side, Put(LevelsOn(s, side), p, q[..k] + q[k + 1..])).(index := s.index - {q[k].id})
    ensures Named(t, d, x)
  {
    assert Named(s, side, p) && Named(s, d, x);
    hide Shelved;
    if d == side && x == p { NamedThere(s, t, side, p, k); } else { NamedElsewhere(s, t, side, p, k, d, x); }
  }

  lemma NamedThere(s: Shelf, t: Shelf, side: Side, p: int, k: nat)
    requires Named(s, side, p) && p in LevelsOn(s, side) && k < |LevelsOn(s, side)[p]|
    requires var q := LevelsOn(s, side)[p];
             t == WithLevels(s, side, Put(LevelsOn(s, side), p, q[..k] + q[k + 1..])).(index := s.index - {q[k].id})
    ensures Named(t, side, p)
  {
    var q := LevelsOn(s, side)[p];
    var q' := q[..k] + q[k + 1..];
    assert forall j :: 0 <= j < |q'| ==> q'[j] == if j < k then q[j] else q[j + 1];
  }

  lemma NamedElsewhere(s: Shelf, t: Shelf, side: Side, p: int, k: nat, d: Side, x: int)
    requires Named(s, side, p) && Named(s, d, x) && p in LevelsOn(s, side) && k < |LevelsOn(s, side)[p]|
    requires var q := LevelsOn(s, side)[p];
             t == WithLevels(s, side, Put(LevelsOn(s, side), p, q[..k] + q[k + 1..])).(index := s.index - {q[k].id})
    requires d != side || x != p
    ensures Named(t, d, x)
  {
    var id := LevelsOn(s, side)[p][k].id;
    if x in LevelsOn(t, d) {
      var r := LevelsOn(t, d)[x];
      assert r == LevelsOn(s, d)[x];
      forall j | 0 <= j < |r| ensures r[j].id != id { assert s.index[r[j].id] == Location(d, x); }
    }
  }

  lemma FoundAfter(s: Shelf, t: Shelf, side: Side, p: int, k: nat, i: nat)
    requires Shelved(s) && p in LevelsOn(s, side) && k < |LevelsOn(s, side)[p]|
    requires var q := LevelsOn(s, side)[p];
             t == WithLevels(s, side, Put(LevelsOn(s, side), p, q[..k] + q[k + 1..])).(index := s.index - {q[k].id})
    requires i in t.index
    ensures Found(t, i)
  {
    assert Found(s, i);
    var d, x := s.index[i].side, s.index[i].price;
    var r := LevelsOn(s, d)[x];
    var j :| 0 <= j < |r| && r[j].id == i;
    if d == side && x == p {
      var q' := r[..k] + r[k + 1..];
      assert j != k;
      assert q'[if j < k then j else j - 1].id == i;
      assert q' != [];
      assert LevelsOn(t, d)[x] == q';
    } else {
      assert LevelsOn(t, d)[x][j].id == i;
    }
  }

  /** A new order joins the back of its level. */
  lemma ShelfAppend(s: Shelf, side: Side, p: int, r: Resting)
    requires Shelved(s) && r.id !in s.index
    ensures Shelved(WithLevels(s, side, LevelsOn(s, side)[p := At(LevelsOn(s, side), p) + [r]])
                    .(index := s.index[r.id := Location(side, p)]))
  {
    var l := LevelsOn(s, side);
    var q := At(l, p) + [r];
    var t := WithLevels(s, side, l[p := q]).(index := s.index[r.id := Location(side, p)]);
    assert q[|q| - 1] == r;
    forall d, x ensures Named(t, d, x) {
      assert Named(s, d, x);
      if d == side && x == p {
        forall j | 0 <= j < |q| - 1 ensures q[j].id in s.index && s.index[q[j].id] == Location(d, x) { }
      }
    }
    forall i | i in t.index ensures Found(t, i) {
      if i == r.id {
        assert LevelsOn(t, side)[p][|q| - 1].id == i;
      } else {
        assert Found(s, i);
        var d, x := s.index[i].side, s.index[i].price;
        var j :| 0 <= j < |LevelsOn(s, d)[x]| && LevelsOn(s, d)[x][j].id == i;
        assert LevelsOn(t, d)[x][j].id == i;
      }
    }
  }

  /** A second order under a resting id makes the index lie about one of the two. */
  lemma ShelfClash(s: Shelf, side: Side, p: int, r: Resting)
    requires Shelved(s) && r.id in s.index
    ensures !Shelved(WithLevels(s, side, LevelsOn(s, side)[p := At(LevelsOn(s, side), p) + [r]])
                     .(index := s.index[r.id := Location(side, p)]))
  {
    var l := LevelsOn(s, side);
    var q := At(l, p) + [r];
    var t := WithLevels(s, side, l[p := q]).(index := s.index[r.id := Location(side, p)]);
    assert Found(s, r.id);
    var d, x := s.index[r.id].side, s.index[r.id].price;
    var k :| 0 <= k < |LevelsOn(s, d)[x]| && LevelsOn(s, d)[x][k].id == r.id;
    assert LevelsOn(t, d)[x][k].id == r.id;
    if d == side && x == p {
      assert q[k].id == q[|q| - 1].id;
      assert !Named(t, side, p);
    } else {
      assert !Named(t, d, x);
    }
  }

  /** An id occurs at one place only. */
  lemma SolePlace(s: Shelf, side: Side, p: int, k: nat)
    requires Shelved(s) && p in LevelsOn(s, side) && k < |LevelsOn(s, side)[p]|
    ensures OnlyAt(LevelsOn(s, side), LevelsOn(s, side)[p][k].id, p, k)
    ensures !Holds(Priority(Opposite(side), LevelsOn(s, Opposite(side))), LevelsOn(s, side)[p][k].id)
  {
    var l: Levels, o: Levels := LevelsOn(s, side), LevelsOn(s, Opposite(side));
    var id := l[p][k].id;
    assert Named(s, side, p);
    forall x, j | x in l && 0 <= j < |l[x]| && l[x][j].id == id ensures x == p && j == k { assert Named(s, side, x); }
    forall x, j | x in o && 0 <= j < |o[x]| ensures o[x][j].id != id { assert Named(s, Opposite(side), x); }
    NotHeld(Opposite(side), o, id);
  }
}

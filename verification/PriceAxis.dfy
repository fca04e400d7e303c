/** The shared price axis: level `i` stands for price `base + i`, bids occupy the levels up
    to the best bid and asks the levels from the best ask on. This module shows what a
    change of one level means for the two priority lists. */
module PriceAxis {
  import opened Orders
  import opened PriorityBook
  import opened PriceLevels
  import opened LevelStore

  /** The levels `lo..hi` as a price map. */
  ghost function Band(qs: seq<Queue>, base: int, lo: int, hi: int): Levels {
    map p | base + lo <= p < base + hi && BandAt(qs, base, lo, hi, p) != [] :: BandAt(qs, base, lo, hi, p)
  }

  ghost function BandAt(qs: seq<Queue>, base: int, lo: int, hi: int, p: int): Queue {
    if lo <= p - base < hi && 0 <= p - base < |qs| then qs[p - base] else []
  }

  ghost predicate InRange(n: nat, bid: int, ask: int) {
    -1 <= bid < n && -1 <= ask < n && (bid >= 0 && ask >= 0 ==> bid < ask)
  }

  ghost function SideLevels(qs: seq<Queue>, base: int, bid: int, ask: int, side: Side): Levels
    requires InRange(|qs|, bid, ask)
  {
    if side.Buy? then Band(qs, base, 0, bid + 1)
    else Band(qs, base, if ask < 0 then |qs| else ask, |qs|)
  }

  ghost function BookOf(qs: seq<Queue>, base: int, bid: int, ask: int): Book
    requires InRange(|qs|, bid, ask)
  {
    Book(Priority(Buy, SideLevels(qs, base, bid, ask, Buy)), Priority(Sell, SideLevels(qs, base, bid, ask, Sell)))
  }

  /** Level `i` belongs to `side`. */
  ghost predicate Within(side: Side, bid: int, ask: int, i: int) {
    if side.Buy? then i <= bid else 0 <= ask <= i
  }

  /** Between the best bid and the best ask every level is empty: the reason why scanning
      one shared array for the next level of one side is correct. */
  ghost predicate GapEmpty(qs: seq<Queue>, bid: int, ask: int) {
    forall i :: 0 <= i < |qs| && qs[i] != [] ==> Within(Buy, bid, ask, i) || Within(Sell, bid, ask, i)
  }

  lemma SideAt(qs: seq<Queue>, base: int, bid: int, ask: int, side: Side, i: nat)
    requires InRange(|qs|, bid, ask) && i < |qs|
    ensures At(SideLevels(qs, base, bid, ask, side), base + i) ==
            if Within(side, bid, ask, i) then qs[i] else []
  {
  }

  lemma SidePut(qs: seq<Queue>, base: int, bid: int, ask: int, side: Side, i: nat, q: Queue)
    requires InRange(|qs|, bid, ask) && i < |qs| && Within(side, bid, ask, i)
    ensures SideLevels(qs[i := q], base, bid, ask, side) ==
            Put(SideLevels(qs, base, bid, ask, side), base + i, q)
    ensures SideLevels(qs[i := q], base, bid, ask, Opposite(side)) ==
            SideLevels(qs, base, bid, ask, Opposite(side))
  {
    hide Band;
    if side.Buy? {
      BandPut(qs, base, 0, bid + 1, i, q);
      BandSame(qs, base, if ask < 0 then |qs| else ask, |qs|, i, q);
    } else {
      BandPut(qs, base, ask, |qs|, i, q);
      BandSame(qs, base, 0, bid + 1, i, q);
    }
  }

  lemma BandIs(qs: seq<Queue>, base: int, lo: int, hi: int)
    ensures NonEmpty(Band(qs, base, lo, hi))
    ensures forall p :: At(Band(qs, base, lo, hi), p) == BandAt(qs, base, lo, hi, p)
  {
  }

  /** Maps of non-empty queues that give the same queue at every price are the same. */
  lemma SameLevels(a: Levels, b: Levels)
    requires NonEmpty(a) && NonEmpty(b) && forall p :: At(a, p) == At(b, p)
    ensures a == b
  {
    forall p ensures p in a <==> p in b { assert At(a, p) == At(b, p); }
    forall p | p in a ensures a[p] == b[p] { assert At(a, p) == At(b, p); }
  }

  lemma BandPut(qs: seq<Queue>, base: int, lo: int, hi: int, i: nat, q: Queue)
    requires i < |qs| && lo <= i < hi
    ensures Band(qs[i := q], base, lo, hi) == Put(Band(qs, base, lo, hi), base + i, q)
  {
    BandIs(qs, base, lo, hi);
    BandIs(qs[i := q], base, lo, hi);
    hide Band;
    SameLevels(Band(qs[i := q], base, lo, hi), Put(Band(qs, base, lo, hi), base + i, q));
  }

  lemma BandSame(qs: seq<Queue>, base: int, lo: int, hi: int, i: nat, q: Queue)
    requires i < |qs| && !(lo <= i < hi)
    ensures Band(qs[i := q], base, lo, hi) == Band(qs, base, lo, hi)
  {
    BandIs(qs, base, lo, hi);
    BandIs(qs[i := q], base, lo, hi);
    hide Band;
    SameLevels(Band(qs[i := q], base, lo, hi), Band(qs, base, lo, hi));
  }

  /** Two bands that agree at every price are the same. */
  lemma BandEqual(ps: seq<Queue>, base': int, lo': int, hi': int, qs: seq<Queue>, base: int, lo: int, hi: int)
    requires 0 <= lo' <= hi' <= |ps| && 0 <= lo <= hi <= |qs|
    requires forall p :: BandAt(ps, base', lo', hi', p) == BandAt(qs, base, lo, hi, p)
    ensures Band(ps, base', lo', hi') == Band(qs, base, lo, hi)
  {
    BandIs(ps, base', lo', hi');
    BandIs(qs, base, lo, hi);
    hide Band, BandAt;
    SameLevels(Band(ps, base', lo', hi'), Band(qs, base, lo, hi));
  }

  ghost function Top(side: Side, bid: int, ask: int): int {
    if side.Buy? then bid else ask
  }

  /** The head of the best level is the head of the priority list. */
  lemma TopIsHead(qs: seq<Queue>, base: int, bid: int, ask: int, side: Side, left: nat)
    requires InRange(|qs|, bid, ask)
    requires var i := Top(side, bid, ask); i >= 0 && qs[i] != []
    ensures var i := Top(side, bid, ask);
            var q := qs[i];
            var b := BookOf(qs, base, bid, ask);
            var f := OnSide(b, side);
            && f != [] && f[0] == Entry(q[0].id, base + i, q[0].qty)
            && BookOf(qs[i := q[1..]], base, bid, ask) == WithSide(b, side, f[1..])
            && BookOf(qs[i := [Resting(q[0].id, left)] + q[1..]], base, bid, ask) ==
               WithSide(b, side, [f[0].(qty := left)] + f[1..])
  {
    var i := Top(side, bid, ask);
    var q := qs[i];
    var l := SideLevels(qs, base, bid, ask, side);
    SideAt(qs, base, bid, ask, side, i);
    SidePut(qs, base, bid, ask, side, i, q[1..]);
    SidePut(qs, base, bid, ask, side, i, [Resting(q[0].id, left)] + q[1..]);
    assert l[base + i] == q && IsBest(side, l, base + i);
    FillHead(side, l, base + i, left);
  }

  lemma NoTop(qs: seq<Queue>, base: int, bid: int, ask: int, side: Side)
    requires InRange(|qs|, bid, ask) && Top(side, bid, ask) < 0
    ensures OnSide(BookOf(qs, base, bid, ask), side) == []
  {
    assert SideLevels(qs, base, bid, ask, side) == map[];
  }

  /** Moving a best index across empty levels changes nothing. */
  lemma Retop(qs: seq<Queue>, base: int, bid: int, ask: int, bid': int, ask': int)
    requires InRange(|qs|, bid, ask) && InRange(|qs|, bid', ask')
    requires forall i :: 0 <= i < |qs| && qs[i] != [] ==>
                           (Within(Buy, bid, ask, i) <==> Within(Buy, bid', ask', i)) &&
                           (Within(Sell, bid, ask, i) <==> Within(Sell, bid', ask', i))
    ensures BookOf(qs, base, bid, ask) == BookOf(qs, base, bid', ask')
  {
    assert SideLevels(qs, base, bid, ask, Buy) == SideLevels(qs, base, bid', ask', Buy);
    assert SideLevels(qs, base, bid, ask, Sell) == SideLevels(qs, base, bid', ask', Sell);
  }

  /** Arrival at level `i`, with the best index raised if needed. */
  lemma InsertAt(qs: seq<Queue>, base: int, bid: int, ask: int, bid': int, ask': int, side: Side, i: nat, r: Resting)
    requires InRange(|qs|, bid, ask) && InRange(|qs|, bid', ask') && i < |qs| && GapEmpty(qs, bid, ask)
    requires if side.Buy? then bid' == (if i > bid then i else bid) && ask' == ask
             else ask' == (if ask < 0 || i < ask then i else ask) && bid' == bid
    ensures var b := BookOf(qs, base, bid, ask);
            BookOf(qs[i := qs[i] + [r]], base, bid', ask') ==
            WithSide(b, side, Insert(OnSide(b, side), side, Entry(r.id, base + i, r.qty)))
  {
    var l := SideLevels(qs, base, bid, ask, side);
    assert SideLevels(qs, base, bid', ask', side) == l;
    assert SideLevels(qs, base, bid', ask', Opposite(side)) == SideLevels(qs, base, bid, ask, Opposite(side));
    SideAt(qs, base, bid', ask', side, i);
    SidePut(qs, base, bid', ask', side, i, qs[i] + [r]);
    InsertAtLevel(side, l, base + i, r);
  }

  /** No other order of the axis carries the id of order `k` at level `i`. */
  ghost predicate OneHolder(qs: seq<Queue>, i: nat, k: nat)
    requires i < |qs| && k < |qs[i]|
  {
    forall j, m :: 0 <= j < |qs| && 0 <= m < |qs[j]| && qs[j][m].id == qs[i][k].id ==> j == i && m == k
  }

  lemma TrimAtAxis(qs: seq<Queue>, base: int, bid: int, ask: int, side: Side, i: nat, k: nat, amount: Option<nat>)
    requires InRange(|qs|, bid, ask) && i < |qs| && k < |qs[i]| && Within(side, bid, ask, i)
    requires OneHolder(qs, i, k)
    ensures var b := BookOf(qs, base, bid, ask);
            var b' := BookOf(qs[i := TrimAt(qs[i], k, amount)], base, bid, ask);
            && b' == TrimBook(b, qs[i][k].id, amount)
            && Depth(b') == Depth(b) - (if amount.None? || amount.value >= qs[i][k].qty then 1 else 0)
  {
    var id := qs[i][k].id;
    var l: Levels, o: Levels := SideLevels(qs, base, bid, ask, side), SideLevels(qs, base, bid, ask, Opposite(side));
    SideAt(qs, base, bid, ask, side, i);
    SidePut(qs, base, bid, ask, side, i, TrimAt(qs[i], k, amount));
    assert l[base + i] == qs[i];
    TrimAtLevel(side, l, base + i, k, amount);
    forall x, j | x in o && 0 <= j < |o[x]| ensures o[x][j].id != id {
      assert o[x] == qs[x - base] && !Within(side, bid, ask, x - base);
    }
    NotHeld(Opposite(side), o, id);
    TrimAbsent(Priority(Opposite(side), o), id, amount);
  }

  /** Growing the axis at the front: every price keeps its queue. */
  lemma RebaseAxis(qs: seq<Queue>, base: int, bid: int, ask: int, d: nat)
    requires InRange(|qs|, bid, ask)
    ensures BookOf(NoQueues(d) + qs, base - d, Shift(bid, d), Shift(ask, d)) == BookOf(qs, base, bid, ask)
  {
    hide Band, Priority;
    var ps := NoQueues(d) + qs;
    BandEqual(ps, base - d, 0, Shift(bid, d) + 1, qs, base, 0, bid + 1);
    BandEqual(ps, base - d, if ask < 0 then |ps| else ask + d, |ps|, qs, base, if ask < 0 then |qs| else ask, |qs|);
  }

  lemma ExtendAxis(qs: seq<Queue>, base: int, bid: int, ask: int, d: nat)
    requires InRange(|qs|, bid, ask)
    ensures BookOf(qs + NoQueues(d), base, bid, ask) == BookOf(qs, base, bid, ask)
  {
    hide Band, Priority;
    var ps := qs + NoQueues(d);
    BandEqual(ps, base, 0, bid + 1, qs, base, 0, bid + 1);
    BandEqual(ps, base, if ask < 0 then |ps| else ask, |ps|, qs, base, if ask < 0 then |qs| else ask, |qs|);
  }

  // ---------- summing level aggregates outwards from the best level ----------

  /** Levels still to visit once the scan of `side` has reached level `i`. */
  ghost function Remaining(qs: seq<Queue>, base: int, side: Side, i: int): Levels
    requires -1 <= i <= |qs|
  {
    if side.Buy? then Band(qs, base, 0, if i == |qs| then i else i + 1)
    else Band(qs, base, if i < 0 then 0 else i, |qs|)
  }

  ghost function Onward(side: Side, i: int): int {
    if side.Buy? then i - 1 else i + 1
  }

  lemma SumStep(qs: seq<Queue>, base: int, side: Side, i: nat, limit: Option<int>)
    requires i < |qs|
    ensures Crossable(Priority(side, Remaining(qs, base, side, i)), side, limit) ==
            if Crosses(side, limit, base + i) then
              Total(qs[i]) + Crossable(Priority(side, Remaining(qs, base, side, Onward(side, i))), side, limit)
            else 0
  {
    hide Priority, Crossable, Remaining, Crosses;
    var l := Remaining(qs, base, side, i);
    if qs[i] == [] {
      SkipStep(qs, base, side, i);
      if !Crosses(side, limit, base + i) { NothingCrosses(side, l, base + i, limit); }
    } else {
      SideStep(qs, base, side, i);
      CrossableByLevel(side, l, limit);
    }
  }

  lemma SkipStep(qs: seq<Queue>, base: int, side: Side, i: nat)
    requires i < |qs| && qs[i] == []
    ensures Remaining(qs, base, side, i) == Remaining(qs, base, side, Onward(side, i))
    ensures forall x :: x in Remaining(qs, base, side, i) ==> x == base + i || Beats(side, base + i, x)
  {
    assert Remaining(qs, base, side, i) == Remaining(qs, base, side, Onward(side, i));
  }

  lemma SideStep(qs: seq<Queue>, base: int, side: Side, i: nat)
    requires i < |qs| && qs[i] != []
    ensures var l := Remaining(qs, base, side, i);
            && l != map[] && NonEmpty(l) && Best(side, l) == base + i && l[base + i] == qs[i]
            && l - {base + i} == Remaining(qs, base, side, Onward(side, i))
  {
    var l := Remaining(qs, base, side, i);
    assert l[base + i] == qs[i];
    assert IsBest(side, l, base + i);
  }

  lemma NothingCrosses(side: Side, l: Levels, p: int, limit: Option<int>)
    requires !Crosses(side, limit, p)
    requires forall x :: x in l ==> x == p || Beats(side, p, x)
    ensures Crossable(Priority(side, l), side, limit) == 0
  {
    Members(side, l);
    var f := Priority(side, l);
    if f != [] { assert f[0] in f; }
  }

  /** The scan of a side starts at its best level and covers the whole side. */
  lemma FromTop(qs: seq<Queue>, base: int, bid: int, ask: int, side: Side)
    requires InRange(|qs|, bid, ask) && Top(side, bid, ask) >= 0
    ensures OnSide(BookOf(qs, base, bid, ask), side) == Priority(side, Remaining(qs, base, side, Top(side, bid, ask)))
  {
    assert Remaining(qs, base, side, Top(side, bid, ask)) == SideLevels(qs, base, bid, ask, side);
  }

  /** Nothing remains once the scan has left the array. */
  lemma PastEnd(qs: seq<Queue>, base: int, side: Side, i: int, limit: Option<int>)
    requires i == if side.Buy? then -1 else |qs|
    ensures Crossable(Priority(side, Remaining(qs, base, side, i)), side, limit) == 0
  {
    assert Remaining(qs, base, side, i) == map[];
  }
}

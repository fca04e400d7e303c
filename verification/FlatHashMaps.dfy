/** Open addressing with linear probing and backward-shift deletion
    (cpp/include/flat_hash_map.h), proved to be a finite map.

    Slot positions form a cycle of `cap` positions. All reasoning about "the slots a
    probe passes" is phrased with `InArc`, which is linear arithmetic over positions,
    so wrap-around needs no modular identities. */
module FlatHashMaps {
  import opened Orders

  datatype Slot<+V> = Empty | Occupied(key: nat, value: V)

  ghost predicate PowerOfTwo(n: int)
    decreases n
  {
    n == 1 || (n > 1 && n % 2 == 0 && PowerOfTwo(n / 2))
  }

  /** Position after `i`: the source writes `(i + 1) & mask`, and the mask is `cap - 1`
      for a power of two `cap`. */
  function Next(i: nat, cap: nat): (r: nat)
    requires i < cap
    ensures r < cap
    ensures r == if i + 1 == cap then 0 else i + 1
  {
    (i + 1) % cap
  }

  /** Identity hash reduced to a position: `key & mask`. */
  function Home(key: nat, cap: nat): (r: nat)
    requires cap > 0
    ensures r < cap
  {
    key % cap
  }

  /** `x` lies in the half-open cyclic arc that starts at `a` and stops before `b`. */
  ghost predicate InArc(a: nat, x: nat, b: nat) {
    if a <= b then a <= x < b else x >= a || x < b
  }

  /** Steps from `a` forward to `b`. */
  ghost function Steps(a: nat, b: nat, cap: nat): int {
    if a <= b then b - a else b - a + cap
  }

  lemma {:induction false} NotByFive(n: int)
    requires PowerOfTwo(n)
    ensures n % 5 != 0
    decreases n
  {
    if n > 1 { NotByFive(n / 2); }
  }

  lemma FiveDivides(live: int, cap: int)
    requires 10 * live == 7 * cap
    ensures cap % 5 == 0
  {
    assert cap == 5 * (6 * live - 4 * cap);
  }

  /** The 0.70 load test never meets equality on a power of two, so it is exactly the integer
      test used below. */
  lemma LoadNeverExact(live: int, cap: int)
    requires PowerOfTwo(cap)
    ensures 10 * live != 7 * cap
  {
    if 10 * live == 7 * cap {
      FiveDivides(live, cap);
      NotByFive(cap);
    }
  }

  // ---------- counting ----------

  ghost function Count<V>(s: seq<Slot<V>>): (c: nat)
    ensures c <= |s|
  {
    if s == [] then 0 else (if s[0].Occupied? then 1 else 0) + Count(s[1..])
  }

  lemma {:induction false} CountUpdate<V>(s: seq<Slot<V>>, i: nat, v: Slot<V>)
    requires i < |s|
    ensures Count(s[i := v]) ==
            Count(s) - (if s[i].Occupied? then 1 else 0) + (if v.Occupied? then 1 else 0)
  {
    if i == 0 {
      assert s[i := v][1..] == s[1..];
    } else {
      assert s[i := v][1..] == s[1..][i - 1 := v];
      CountUpdate(s[1..], i - 1, v);
    }
  }

  /** A table that is not full has an empty slot: this is what makes probing terminate. */
  lemma {:induction false} HasEmpty<V>(s: seq<Slot<V>>) returns (e: nat)
    requires Count(s) < |s|
    ensures e < |s| && s[e].Empty?
  {
    if s[0].Empty? {
      e := 0;
    } else {
      var r := HasEmpty(s[1..]);
      e := r + 1;
    }
  }

  // ---------- reachability ----------

  /** Every position from `home` up to `j` is occupied, except possibly `gap`. */
  ghost predicate Path<V>(s: seq<Slot<V>>, home: nat, j: nat, gap: int) {
    forall x {:trigger s[x]} :: 0 <= x < |s| && InArc(home, x, j) ==> s[x].Occupied? || x == gap
  }

  ghost predicate Reaches<V>(s: seq<Slot<V>>, j: nat, gap: int)
    requires j < |s|
  {
    s[j].Occupied? ==> Path(s, Home(s[j].key, |s|), j, gap)
  }

  /** Every occupied slot can be reached from its home without crossing an empty slot
      other than `gap` (-1 for none). */
  ghost predicate Reachable<V>(s: seq<Slot<V>>, gap: int) {
    forall j {:trigger Reaches(s, j, gap)} :: 0 <= j < |s| ==> Reaches(s, j, gap)
  }

  /** `at` records the position of each key, so keys are unique by construction. */
  ghost predicate Located<V>(s: seq<Slot<V>>, at: map<nat, nat>, m: map<nat, V>) {
    && at.Keys == m.Keys
    && (forall k :: k in at ==> at[k] < |s| && s[at[k]] == Occupied(k, m[k]))
    && (forall j :: 0 <= j < |s| && s[j].Occupied? ==> s[j].key in at && at[s[j].key] == j)
  }

  lemma {:induction false} AllEmpty<V>(s: seq<Slot<V>>)
    requires forall i :: 0 <= i < |s| ==> s[i].Empty?
    ensures Count(s) == 0 && Located(s, map[], map[]) && Reachable(s, -1)
  {
    if s != [] { AllEmpty(s[1..]); }
  }

  lemma PutReachable<V>(s: seq<Slot<V>>, idx: nat, key: nat, v: V)
    requires idx < |s| && Reachable(s, -1)
    requires s[idx].Empty? || s[idx].key == key
    requires Path(s, Home(key, |s|), idx, -1)
    ensures Reachable(s[idx := Occupied(key, v)], -1)
  {
    var t := s[idx := Occupied(key, v)];
    forall j | 0 <= j < |t| ensures Reaches(t, j, -1) {
      assert Reaches(s, j, -1);
    }
  }

  lemma OccupiedHere<V>(s: seq<Slot<V>>, at: map<nat, nat>, m: map<nat, V>, i: nat)
    requires i < |s| && s[i].Occupied? && Reachable(s, -1) && Located(s, at, m)
    ensures Path(s, Home(s[i].key, |s|), i, -1)
    ensures s[i].key in at && at[s[i].key] == i && s[i].key in m && m[s[i].key] == s[i].value
  {
    assert Reaches(s, i, -1);
  }

  lemma KeysLocated<V>(s: seq<Slot<V>>, at: map<nat, nat>, m: map<nat, V>)
    requires Located(s, at, m)
    ensures at.Keys == m.Keys && forall k :: k in at ==> at[k] < |s| && s[at[k]] == Occupied(k, m[k])
  {
  }

  /** The part of `m` whose keys sit before position `n`. */
  ghost function KeysBelow<V>(m: map<nat, V>, at: map<nat, nat>, n: nat): map<nat, V> {
    m - (set k | k in m && !(k in at && at[k] < n))
  }

  lemma KeysBelowEnds<V>(s: seq<Slot<V>>, at: map<nat, nat>, m: map<nat, V>)
    requires Located(s, at, m)
    ensures KeysBelow(m, at, 0) == map[] && KeysBelow(m, at, |s|) == m
  {
  }

  lemma KeysBelowStep<V>(s: seq<Slot<V>>, at: map<nat, nat>, m: map<nat, V>, n: nat)
    requires n < |s| && Located(s, at, m)
    ensures KeysBelow(m, at, n + 1) ==
            if s[n].Occupied? then KeysBelow(m, at, n)[s[n].key := s[n].value] else KeysBelow(m, at, n)
    ensures s[n].Occupied? ==> s[n].key !in KeysBelow(m, at, n)
  {
  }

  /** `m` after `f` has been applied to the entries that sit before position `n`. */
  ghost function VisitedBelow<V>(m: map<nat, V>, at: map<nat, nat>, f: V -> V, n: nat): map<nat, V> {
    map k | k in m :: if k in m && k in at && at[k] < n then f(m[k]) else m[k]
  }

  /** Nothing is visited before position 0, everything before the end. */
  lemma VisitEnds<V>(at: map<nat, nat>, m: map<nat, V>, f: V -> V, n: nat)
    requires at.Keys == m.Keys && forall k :: k in at ==> at[k] < n
    ensures VisitedBelow(m, at, f, 0) == m
    ensures VisitedBelow(m, at, f, n).Keys == m.Keys
    ensures forall k :: k in m ==> VisitedBelow(m, at, f, n)[k] == f(m[k])
  {
  }

  lemma VisitStep<V>(s: seq<Slot<V>>, at: map<nat, nat>, m: map<nat, V>, f: V -> V, n: nat)
    requires n < |s| && Located(s, at, VisitedBelow(m, at, f, n)) && Reachable(s, -1)
    ensures s[n].Empty? ==> VisitedBelow(m, at, f, n + 1) == VisitedBelow(m, at, f, n)
    ensures s[n].Occupied? ==>
              var t := s[n := Occupied(s[n].key, f(s[n].value))];
              var m' := VisitedBelow(m, at, f, n + 1);
              && m' == VisitedBelow(m, at, f, n)[s[n].key := f(s[n].value)]
              && Located(t, at, m') && Reachable(t, -1) && Count(t) == Count(s)
              && |m'| == |VisitedBelow(m, at, f, n)|
  {
    VisitMap(s, at, m, f, n);
    if s[n].Occupied? {
      hide Located, Reachable, VisitedBelow, Home, Count;
      var key, v, now := s[n].key, f(s[n].value), VisitedBelow(m, at, f, n);
      OccupiedHere(s, at, now, n);
      PutLocated(s, at, now, n, key, v);
      PutReachable(s, n, key, v);
      assert at[key := n] == at;
    }
  }

  lemma VisitMap<V>(s: seq<Slot<V>>, at: map<nat, nat>, m: map<nat, V>, f: V -> V, n: nat)
    requires n < |s| && Located(s, at, VisitedBelow(m, at, f, n))
    ensures VisitedBelow(m, at, f, n + 1) ==
            if s[n].Occupied? then VisitedBelow(m, at, f, n)[s[n].key := f(s[n].value)] else VisitedBelow(m, at, f, n)
  {
  }

  lemma EmptyReachable<V>(s: seq<Slot<V>>, i: nat)
    requires i < |s| && |s| > 1 && Reachable(s, -1)
    ensures Reachable(s[i := Empty], i)
    ensures Hole(s[i := Empty], i, Next(i, |s|))
  {
    var t := s[i := Empty];
    forall j | 0 <= j < |t| ensures Reaches(t, j, i) {
      assert Reaches(s, j, -1);
    }
  }

  /** Backward-shift state: the hole is `i`, and `j` is the next slot to look at.
      Entries between them have been scanned and do not need the hole. */
  ghost predicate Hole<V>(s: seq<Slot<V>>, i: nat, j: nat) {
    && i < |s| && j < |s| && s[i].Empty? && Reachable(s, i)
    && forall x {:trigger s[x]} :: 0 <= x < |s| && x != i && InArc(i, x, j) && s[x].Occupied?
                ==> !InArc(Home(s[x].key, |s|), i, x)
  }

  lemma HoleMove<V>(s: seq<Slot<V>>, i: nat, j: nat)
    requires Hole(s, i, j) && i != j && s[j].Occupied?
    requires InArc(Home(s[j].key, |s|), i, j)
    ensures Hole(s[i := s[j]][j := Empty], j, Next(j, |s|))
  {
    var t := s[i := s[j]][j := Empty];
    forall x | 0 <= x < |t| ensures Reaches(t, x, j) {
      if x == i {
        assert Reaches(s, j, i);
      } else {
        assert Reaches(s, x, i);
      }
    }
  }

  lemma HoleSkip<V>(s: seq<Slot<V>>, i: nat, j: nat)
    requires Hole(s, i, j) && i != j && s[j].Occupied? && Next(j, |s|) != i
    requires !InArc(Home(s[j].key, |s|), i, j)
    ensures Hole(s, i, Next(j, |s|))
  {
  }

  /** When the scan meets an empty slot, no entry needs the hole any more. */
  lemma HoleClosed<V>(s: seq<Slot<V>>, i: nat, j: nat)
    requires Hole(s, i, j) && i != j && s[j].Empty?
    ensures Reachable(s, -1)
  {
    forall x | 0 <= x < |s| ensures Reaches(s, x, -1) {
      assert Reaches(s, x, i);
      assert s[x].Occupied? && x != i && InArc(i, x, j) ==> !InArc(Home(s[x].key, |s|), i, x);
      hide Home;
    }
  }

  lemma MoveLocated<V>(s: seq<Slot<V>>, at: map<nat, nat>, m: map<nat, V>, i: nat, j: nat)
    requires i < |s| && j < |s| && i != j && s[i].Empty? && s[j].Occupied?
    requires Located(s, at, m)
    ensures s[j].key in at && Located(s[i := s[j]][j := Empty], at[s[j].key := i], m)
    ensures Count(s[i := s[j]][j := Empty]) == Count(s)
  {
    CountUpdate(s, i, s[j]);
    CountUpdate(s[i := s[j]], j, Empty);
    assert at[s[j].key := i].Keys == at.Keys;
  }

  lemma PutLocated<V>(s: seq<Slot<V>>, at: map<nat, nat>, m: map<nat, V>, idx: nat, key: nat, v: V)
    requires idx < |s| && Located(s, at, m)
    requires if key in m then at[key] == idx else s[idx].Empty?
    ensures Located(s[idx := Occupied(key, v)], at[key := idx], m[key := v])
    ensures Count(s[idx := Occupied(key, v)]) - Count(s) == |m[key := v]| - |m| == if key in m then 0 else 1
  {
    hide Count;
    CountUpdate(s, idx, Occupied(key, v));
    SizeAfterPut(m, key, v);
  }

  lemma SizeAfterPut<V>(m: map<nat, V>, key: nat, v: V)
    ensures |m[key := v]| == |m| + if key in m then 0 else 1
  {
    assert m[key := v].Keys == m.Keys + {key};
    assert |m[key := v].Keys| == |m.Keys + {key}|;
    if key in m { assert m.Keys + {key} == m.Keys; }
  }

  lemma EraseLocated<V>(s: seq<Slot<V>>, at: map<nat, nat>, m: map<nat, V>, key: nat)
    requires Located(s, at, m) && key in m
    ensures Located(s[at[key] := Empty], at - {key}, m - {key})
    ensures Count(s[at[key] := Empty]) == Count(s) - 1
    ensures |m - {key}| == |m| - 1
  {
    CountUpdate(s, at[key], Empty);
    assert (m - {key}).Keys == m.Keys - {key};
    assert |(m - {key}).Keys| == |m.Keys - {key}|;
  }

  class FlatHashMap<V(!new)> {
    var slots: seq<Slot<V>>
    var mask: nat
    var live: nat

    ghost var M: map<nat, V>
    ghost var at: map<nat, nat>

    /** Consistent except for load: this is what `Rehash` works under. */
    ghost predicate Consistent()
      reads this
    {
      && |slots| >= 16 && PowerOfTwo(|slots|) && mask == |slots| - 1
      && live == Count(slots) == |M|
      && live < |slots|
      && Located(slots, at, M)
      && Reachable(slots, -1)
    }

    /** The representation invariant: the load never exceeds 0.70. */
    ghost predicate Valid()
      reads this
    {
      Consistent() && 10 * live <= 7 * |slots|
    }

    constructor (initialCapacity: nat)
      ensures Valid() && M == map[] && |slots| >= initialCapacity
    {
      var cap := 16;
      assert PowerOfTwo(8);
      while cap < initialCapacity
        invariant cap >= 16 && PowerOfTwo(cap)
        decreases initialCapacity - cap
      {
        assert (2 * cap) / 2 == cap && PowerOfTwo(2 * cap);
        cap := 2 * cap;
      }
      slots := seq(cap, _ => Empty);
      mask := cap - 1;
      live := 0;
      M, at := map[], map[];
      new;
      AllEmpty(slots);
    }

    method Reserve(n: nat)
      requires Valid()
      modifies this
      ensures Valid() && M == old(M)
      ensures 10 * n <= 7 * |slots| && |slots| >= old(|slots|)
    {
      var cap := |slots|;
      while 10 * n > 7 * cap
        invariant cap >= |slots| && PowerOfTwo(cap)
        decreases 10 * n - 7 * cap
      {
        assert (2 * cap) / 2 == cap && PowerOfTwo(2 * cap);
        cap := 2 * cap;
      }
      if cap > |slots| {
        Rehash(cap);
      }
    }

    /** `index[key] = value`: insert or overwrite. */
    method Put(key: nat, value: V)
      requires Valid()
      modifies this
      ensures Valid() && M == old(M)[key := value]
    {
      hide PowerOfTwo, Count, Located, Reachable, Home;
      MaybeGrow();
      var idx := ProbeForInsert(key);
      PutLocated(slots, at, M, idx, key, value);
      PutReachable(slots, idx, key, value);
      if slots[idx].Empty? {
        live := live + 1;
      }
      slots := slots[idx := Occupied(key, value)];
      M, at := M[key := value], at[key := idx];
    }

    method Find(key: nat) returns (r: Option<V>)
      requires Valid()
      ensures r == if key in M then Some(M[key]) else None
    {
      var idx := ProbeExisting(key);
      r := match idx
           case None => None
           case Some(i) => Some(slots[i].value);
    }

    method Erase(key: nat) returns (found: bool)
      requires Valid()
      modifies this
      ensures Valid() && M == old(M) - {key} && found == (key in old(M))
    {
      hide PowerOfTwo, Count, Located, Reachable, Hole, Home;
      var p := ProbeExisting(key);
      if p.None? {
        assert M - {key} == M;
        return false;
      }
      var i: nat := p.value;
      ghost var e := HasEmpty(slots);
      EraseLocated(slots, at, M, key);
      EmptyReachable(slots, i);
      slots := slots[i := Empty];
      live := live - 1;
      M, at := M - {key}, at - {key};
      var j: nat := Next(i, |slots|);
      while slots[j].Occupied?
        invariant |slots| == old(|slots|) && mask == old(mask) && live == old(live) - 1 && M == old(M) - {key}
        invariant i < |slots| && j < |slots| && i != j && slots[i].Empty? && Hole(slots, i, j)
        invariant e < |slots| && slots[e].Empty? && e != i && (e == j || !InArc(i, e, j))
        invariant live == Count(slots) && Located(slots, at, M)
        decreases Steps(j, e, |slots|)
      {
        var k := Home(slots[j].key, |slots|);
        var inRange := if i <= j then i < k <= j else i < k || k <= j;
        if !inRange {
          MoveLocated(slots, at, M, i, j);
          HoleMove(slots, i, j);
          at := at[slots[j].key := i];
          slots := slots[i := slots[j]][j := Empty];
          i := j;
        } else {
          HoleSkip(slots, i, j);
        }
        j := Next(j, |slots|);
      }
      HoleClosed(slots, i, j);
      return true;
    }

    method Size() returns (n: nat)
      requires Valid()
      ensures n == |M|
    {
      n := live;
    }

    /** Visits every live entry and replaces its value. */
    method ForEachMut(f: V -> V)
      requires Valid()
      modifies this
      ensures Valid() && M.Keys == old(M).Keys && forall k :: k in M ==> M[k] == f(old(M)[k])
    {
      hide PowerOfTwo, Count, Located, Reachable, Home, VisitedBelow;
      var i := 0;
      KeysLocated(slots, at, M);
      VisitEnds(at, M, f, |slots|);
      while i < |slots|
        invariant 0 <= i <= |slots| == old(|slots|)
        invariant mask == old(mask) && live == old(live) == Count(slots) == |M|
        invariant Located(slots, at, M) && Reachable(slots, -1)
        invariant at == old(at) && M == VisitedBelow(old(M), at, f, i)
      {
        VisitStep(slots, at, old(M), f, i);
        if slots[i].Occupied? {
          var key := slots[i].key;
          var v := f(slots[i].value);
          M := M[key := v];
          slots := slots[i := Occupied(key, v)];
        }
        i := i + 1;
      }
    }

    method ProbeForInsert(key: nat) returns (idx: nat)
      requires Consistent()
      ensures idx < |slots|
      ensures if key in M then at[key] == idx && slots[idx].Occupied? && slots[idx].key == key else slots[idx].Empty?
      ensures Path(slots, Home(key, |slots|), idx, -1)
    {
      ghost var e := HasEmpty(slots);
      idx := Home(key, |slots|);
      while true
        invariant 0 <= idx < |slots| && Path(slots, Home(key, |slots|), idx, -1)
        invariant key in M ==> at[key] == idx || !InArc(Home(key, |slots|), at[key], idx)
        decreases Steps(idx, e, |slots|)
      {
        assert key in M ==> Reaches(slots, at[key], -1);
        if slots[idx].Empty? || slots[idx].key == key { return; }
        assert !InArc(Home(key, |slots|), e, idx);
        idx := Next(idx, |slots|);
      }
    }

    method ProbeExisting(key: nat) returns (r: Option<nat>)
      requires Consistent()
      ensures r == if key in M then Some(at[key]) else None
      ensures r.Some? ==> r.value < |slots| && slots[r.value] == Occupied(key, M[key])
    {
      ghost var e := HasEmpty(slots);
      var idx := Home(key, |slots|);
      while true
        invariant 0 <= idx < |slots| && Path(slots, Home(key, |slots|), idx, -1)
        invariant key in M ==> at[key] == idx || !InArc(Home(key, |slots|), at[key], idx)
        decreases Steps(idx, e, |slots|)
      {
        assert key in M ==> Reaches(slots, at[key], -1);
        if slots[idx].Empty? { return None; }
        if slots[idx].key == key { return Some(idx); }
        assert !InArc(Home(key, |slots|), e, idx);
        idx := Next(idx, |slots|);
      }
    }

    method MaybeGrow()
      requires Valid()
      modifies this
      ensures Valid() && M == old(M) && 10 * (live + 1) <= 7 * |slots|
    {
      if 10 * (live + 1) > 7 * |slots| {
        assert (2 * |slots|) / 2 == |slots|;
        Rehash(2 * |slots|);
      }
    }

    method Rehash(newCap: nat)
      requires Valid() && newCap > |slots| && PowerOfTwo(newCap)
      modifies this
      ensures Valid() && M == old(M) && |slots| == newCap && live == old(live)
    {
      hide PowerOfTwo, Count, Located, Reachable, Home, KeysBelow;
      var was := slots;
      ghost var m, wasAt := M, at;
      KeysLocated(slots, at, M);
      slots := seq(newCap, _ => Empty);
      mask := newCap - 1;
      live := 0;
      M, at := map[], map[];
      AllEmpty(slots);
      KeysBelowEnds(was, wasAt, m);
      var n := 0;
      while n < |was|
        invariant 0 <= n <= |was| < newCap == |slots|
        invariant Consistent() && live <= n
        invariant M == KeysBelow(m, wasAt, n)
      {
        KeysBelowStep(was, wasAt, m, n);
        if was[n].Occupied? {
          Reinsert(was[n].key, was[n].value);
        }
        n := n + 1;
      }
    }

    /** One step of `Rehash`: the key is known to be new, so no key is compared. */
    method Reinsert(key: nat, value: V)
      requires Consistent() && key !in M && live + 1 < |slots|
      modifies this
      ensures Consistent() && M == old(M)[key := value]
      ensures |slots| == old(|slots|) && live == old(live) + 1
    {
      hide PowerOfTwo, Count;
      var idx := Home(key, |slots|);
      ghost var e := HasEmpty(slots);
      while slots[idx].Occupied?
        invariant 0 <= idx < |slots| && Path(slots, Home(key, |slots|), idx, -1)
        decreases Steps(idx, e, |slots|)
      {
        assert !InArc(Home(key, |slots|), e, idx);
        idx := Next(idx, |slots|);
      }
      PutLocated(slots, at, M, idx, key, value);
      PutReachable(slots, idx, key, value);
      live := live + 1;
      slots := slots[idx := Occupied(key, value)];
      M, at := M[key := value], at[key := idx];
    }
  }
}

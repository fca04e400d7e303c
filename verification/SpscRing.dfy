/** The single-producer single-consumer ring (cpp/include/spsc_ring.h). Here as an object
    used by one thread at a time; module RingThreads runs the same code as two threads. The
    capacity is a power of
    two in the source, where masking an index is taking it modulo the capacity. */
module SpscRing {
  import opened Orders

  // ---------- indices around the ring ----------

  lemma Multiples(k: int, c: int)
    requires c >= 0
    ensures (k >= 1 ==> k * c >= c) && (k <= -1 ==> k * c <= -c)
  {
    if k >= 1 { assert (k - 1) * c >= 0; }
    if k <= -1 { assert (-k - 1) * c >= 0; }
  }

  /** A multiple of `c` smaller than `c` is zero. */
  lemma SmallMultiple(k: int, c: int, d: int)
    requires k * c == d && -c < d < c
    ensures k == 0
  {
    Multiples(k, c);
  }

  lemma ModOf(q: nat, r: nat, c: nat)
    requires r < c
    ensures (q * c + r) % c == r
  {
    var x := q * c + r;
    var k := q - x / c;
    assert k * c == q * c - (x / c) * c;
    SmallMultiple(k, c, x % c - r);
  }

  lemma Successor(n: nat, q: nat, r: nat, c: nat)
    requires r < c && n == q * c + r
    ensures (n + 1) % c == if r + 1 < c then r + 1 else 0
  {
    if r + 1 < c { ModOf(q, r + 1, c); } else { ModOf(q + 1, 0, c); }
  }

  lemma ModNext(n: nat, c: nat)
    requires c > 0
    ensures (n % c + 1) % c == (n + 1) % c
  {
    Successor(n, n / c, n % c, c);
  }

  lemma ModApart(i: nat, j: nat, c: nat)
    requires c > 0 && i < j < i + c
    ensures i % c != j % c
  {
    if i % c == j % c {
      var k := j / c - i / c;
      assert k * c == (j / c) * c - (i / c) * c;
      SmallMultiple(k, c, j - i);
    }
  }

  // ---------- the buffer as an object ----------

  class SpscRingBuffer<T(0)> {
    const buf: array<T>
    var head: nat
    var tail: nat

    /** Elements pushed and popped so far. */
    ghost var pushed: seq<T>
    ghost var popped: nat

    ghost predicate Valid()
      reads this, buf
    {
      && popped <= |pushed| < popped + buf.Length
      && head == popped % buf.Length && tail == |pushed| % buf.Length
      && (forall j :: popped <= j < |pushed| ==> buf[j % buf.Length] == pushed[j])
    }

    /** What is in the queue, oldest first. */
    ghost function Contents(): seq<T>
      requires Valid()
      reads this, buf
    {
      pushed[popped..]
    }

    constructor (capacity: nat)
      requires capacity > 0
      ensures Valid() && fresh(buf) && buf.Length == capacity && Contents() == []
    {
      buf := new T[capacity];
      head, tail, pushed, popped := 0, 0, [], 0;
    }

    /** One slot always stays free, so the ring holds at most `capacity - 1` elements. */
    method Push(item: T) returns (ok: bool)
      requires Valid()
      modifies this, buf
      ensures Valid() && popped == old(popped)
      ensures ok <==> |old(Contents())| < buf.Length - 1
      ensures Contents() == old(Contents()) + if ok then [item] else []
    {
      var next := (tail + 1) % buf.Length;
      ModNext(|pushed|, buf.Length);
      NextMeets(popped, |pushed|, buf.Length);
      if next == head { return false; }
      forall j | popped <= j < |pushed| ensures j % buf.Length != tail { ModApart(j, |pushed|, buf.Length); }
      buf[tail] := item;
      tail := next;
      pushed := pushed + [item];
      ok := true;
    }

    method Pop() returns (out: Option<T>)
      requires Valid()
      modifies this`head, this`popped
      ensures Valid()
      ensures out.None? <==> old(Contents()) == []
      ensures old(Contents()) == (if out.Some? then [out.value] else []) + Contents()
    {
      IndexMeets(popped, |pushed|, buf.Length);
      if head == tail { return None; }
      out := Some(buf[head]);
      ModNext(popped, buf.Length);
      head := (head + 1) % buf.Length;
      popped := popped + 1;
    }

    method Empty() returns (r: bool)
      requires Valid()
      ensures r <==> Contents() == []
    {
      IndexMeets(popped, |pushed|, buf.Length);
      r := head == tail;
    }
  }

  /** Equal indices mean an empty ring. */
  lemma IndexMeets(n: nat, m: nat, c: nat)
    requires c > 0 && n <= m < n + c
    ensures n % c == m % c <==> n == m
  {
    if n < m { ModApart(n, m, c); }
  }

  /** The slot after the tail is the head exactly when one slot is free. */
  lemma NextMeets(n: nat, m: nat, c: nat)
    requires c > 0 && n <= m < n + c
    ensures (m + 1) % c == n % c <==> m + 1 == n + c
  {
    if m + 1 < n + c {
      ModApart(n, m + 1, c);
    } else {
      ModOf(n / c + 1, n % c, c);
      assert n + c == (n / c + 1) * c + n % c;
    }
  }
}

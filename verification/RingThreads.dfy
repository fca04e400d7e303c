/** The ring shared by two threads (cpp/include/spsc_ring.h): the producer pushes a list of
    items, spinning while the ring is full; the consumer drains it with one of the two loops
    the repository uses (cpp/tests/test_threaded.cpp,
    cpp/feed/tests/test_concurrent_sharded_pipeline.cpp). Every load and store of an index or
    of the done flag, and every slot access, is one step; steps interleave in any way. */
module RingThreads {
  import opened Orders
  import opened SpscRing

  /** Next action of the producer: load the tail; load the head and compare; write the slot;
      store the tail. After the last item it sets the done flag. */
  datatype ProducerPc = LoadTail | CheckFull | WriteSlot | StoreTail | Through

  /** Next action of the consumer. The first four are `pop`; after a failed pop it loads the
      done flag and then either asks `empty` or pops once more. */
  datatype ConsumerPc =
    | LoadHead | CheckEmpty | ReadSlot | StoreHead
    | LoadDone
    | EmptyHead | EmptyTail
    | AgainHead | AgainEmpty
    | Left

  datatype Drain = AskEmpty | PopAgain

  /** Registers of the threads; `sent` counts completed pushes. */
  datatype Producer = Producer(pc: ProducerPc, sent: nat, tail: nat, next: nat)

  datatype Consumer<T> = Consumer(pc: ConsumerPc, head: nat, item: Option<T>, got: seq<T>)

  /** Shared memory and both threads. */
  datatype State<T> = State(buf: seq<T>, head: nat, tail: nat, done: bool, p: Producer, c: Consumer<T>)

  ghost predicate Initial<T>(capacity: nat, s: State<T>) {
    && |s.buf| == capacity > 0 && s.head == s.tail == 0 && !s.done
    && s.p == Producer(LoadTail, 0, 0, 0) && s.c.pc == LoadHead && s.c.got == []
  }

  ghost predicate ProducerMoves<T>(input: seq<T>, s: State<T>, t: State<T>) {
    match s.p.pc
    case LoadTail =>
      t == if s.p.sent < |input| then s.(p := s.p.(pc := CheckFull, tail := s.tail, next := (s.tail + 1) % Cap(s)))
           else s.(done := true, p := s.p.(pc := Through))
    case CheckFull =>
      t == s.(p := s.p.(pc := if s.p.next == s.head then LoadTail else WriteSlot))
    case WriteSlot =>
      s.p.tail < |s.buf| && s.p.sent < |input| &&
      t == s.(buf := s.buf[s.p.tail := input[s.p.sent]], p := s.p.(pc := StoreTail))
    case StoreTail =>
      t == s.(tail := s.p.next, p := s.p.(pc := LoadTail, sent := s.p.sent + 1))
    case Through => false
  }

  function Cap<T>(s: State<T>): nat {
    if s.buf == [] then 1 else |s.buf|
  }

  function Goto<T>(s: State<T>, pc: ConsumerPc): State<T> {
    s.(c := s.c.(pc := pc))
  }

  ghost predicate ConsumerMoves<T>(drain: Drain, s: State<T>, t: State<T>) {
    match s.c.pc
    case LoadHead => t == s.(c := s.c.(pc := CheckEmpty, head := s.head))
    case CheckEmpty => t == Goto(s, if s.c.head == s.tail then LoadDone else ReadSlot)
    case ReadSlot => s.c.head < |s.buf| && t == s.(c := s.c.(pc := StoreHead, item := Some(s.buf[s.c.head])))
    case StoreHead =>
      s.c.item.Some? &&
      t == s.(head := (s.c.head + 1) % Cap(s),
              c := s.c.(pc := LoadHead, item := None, got := s.c.got + [s.c.item.value]))
    case LoadDone => t == Goto(s, if !s.done then LoadHead else if drain.AskEmpty? then EmptyHead else AgainHead)
    case EmptyHead => t == s.(c := s.c.(pc := EmptyTail, head := s.head))
    case EmptyTail => t == Goto(s, if s.c.head == s.tail then Left else LoadHead)
    case AgainHead => t == s.(c := s.c.(pc := AgainEmpty, head := s.head))
    case AgainEmpty => t == Goto(s, if s.c.head == s.tail then Left else ReadSlot)
    case Left => false
  }

  ghost predicate Moves<T>(input: seq<T>, drain: Drain, s: State<T>, t: State<T>) {
    ProducerMoves(input, s, t) || ConsumerMoves(drain, s, t)
  }

  ghost predicate Schedule<T>(input: seq<T>, drain: Drain, capacity: nat, run: seq<State<T>>) {
    && run != [] && Initial(capacity, run[0])
    && forall i :: 0 < i < |run| ==> Moves(input, drain, run[i - 1], run[i])
  }

  // ---------- the invariant ----------

  /** Slots between the indices hold the items pushed and not yet popped. */
  ghost predicate Slots<T>(input: seq<T>, s: State<T>) {
    var n, m, cap := |s.c.got|, s.p.sent, |s.buf|;
    && n <= m <= |input| && m < n + cap
    && s.head == n % cap && s.tail == m % cap
    && s.c.got == input[..n]
    && forall j :: n <= j < m ==> s.buf[j % cap] == input[j]
  }

  ghost predicate ProducerSound<T>(input: seq<T>, s: State<T>)
    requires s.buf != []
  {
    var n, m, cap := |s.c.got|, s.p.sent, |s.buf|;
    && (s.done <==> s.p.pc.Through?)
    && (s.done ==> m == |input|)
    && (s.p.pc.CheckFull? || s.p.pc.WriteSlot? || s.p.pc.StoreTail? ==>
          m < |input| && s.p.tail == s.tail && s.p.next == (m + 1) % cap)
    && (s.p.pc.WriteSlot? || s.p.pc.StoreTail? ==> m + 1 < n + cap)
    && (s.p.pc.StoreTail? ==> m < |input| && s.buf[m % cap] == input[m])
  }

  ghost predicate ConsumerSound<T>(input: seq<T>, s: State<T>) {
    var n, m := |s.c.got|, s.p.sent;
    && (s.c.pc.CheckEmpty? || s.c.pc.ReadSlot? || s.c.pc.StoreHead? || s.c.pc.EmptyTail? || s.c.pc.AgainEmpty? ==>
          s.c.head == s.head)
    && (s.c.pc.ReadSlot? || s.c.pc.StoreHead? ==> n < m)
    && (s.c.pc.StoreHead? ==> n < |input| && s.c.item == Some(input[n]))
    && (s.c.pc.EmptyHead? || s.c.pc.EmptyTail? || s.c.pc.AgainHead? || s.c.pc.AgainEmpty? ==> s.done)
    && (s.c.pc.Left? ==> s.done && n == m)
  }

  ghost predicate Sound<T>(input: seq<T>, capacity: nat, s: State<T>) {
    && |s.buf| == capacity > 0
    && Slots(input, s) && ProducerSound(input, s) && ConsumerSound(input, s)
  }

  lemma ProducerKeeps<T>(input: seq<T>, capacity: nat, s: State<T>, t: State<T>)
    requires Sound(input, capacity, s) && ProducerMoves(input, s, t)
    ensures Sound(input, capacity, t)
  {
    var n, m := |s.c.got|, s.p.sent;
    ModNext(m, capacity);
    NextMeets(n, m, capacity);
    if s.p.pc.WriteSlot? {
      forall j | n <= j < m ensures j % capacity != s.p.tail { ModApart(j, m, capacity); }
    }
  }

  lemma ConsumerKeeps<T>(input: seq<T>, capacity: nat, drain: Drain, s: State<T>, t: State<T>)
    requires Sound(input, capacity, s) && ConsumerMoves(drain, s, t)
    ensures Sound(input, capacity, t)
  {
    var n, m := |s.c.got|, s.p.sent;
    ModNext(n, capacity);
    IndexMeets(n, m, capacity);
    if s.c.pc.StoreHead? { assert input[..n + 1] == input[..n] + [input[n]]; }
  }

  lemma {:induction false} AlwaysSound<T>(input: seq<T>, drain: Drain, capacity: nat, run: seq<State<T>>, i: nat)
    requires Schedule(input, drain, capacity, run) && i < |run|
    ensures Sound(input, capacity, run[i])
  {
    if i > 0 {
      AlwaysSound(input, drain, capacity, run, i - 1);
      if ProducerMoves(input, run[i - 1], run[i]) {
        ProducerKeeps(input, capacity, run[i - 1], run[i]);
      } else {
        ConsumerKeeps(input, capacity, drain, run[i - 1], run[i]);
      }
    }
  }

  // ---------- what every schedule guarantees ----------

  /** What has been popped is a prefix of what has been pushed, and never more than
      `capacity - 1` items wait in between. */
  lemma PoppedIsPrefix<T>(input: seq<T>, drain: Drain, capacity: nat, run: seq<State<T>>, i: nat)
    requires Schedule(input, drain, capacity, run) && i < |run|
    ensures var s := run[i];
            && s.p.sent <= |input| && s.c.got <= input[..s.p.sent]
            && s.p.sent - |s.c.got| < capacity
  {
    AlwaysSound(input, drain, capacity, run, i);
  }

  lemma SlotsApart<T>(input: seq<T>, capacity: nat, s: State<T>)
    requires Sound(input, capacity, s) && s.p.pc.WriteSlot?
    ensures forall j {:trigger j % capacity} :: |s.c.got| <= j < s.p.sent ==> j % capacity != s.p.tail
    ensures s.c.pc.ReadSlot? ==> s.c.head != s.p.tail
  {
    forall j | |s.c.got| <= j < s.p.sent ensures j % capacity != s.p.tail { ModApart(j, s.p.sent, capacity); }
    if s.c.pc.ReadSlot? { ModApart(|s.c.got|, s.p.sent, capacity); }
  }

  /** The producer never writes a slot that holds an unread item or that the consumer is
      about to read: the two threads never touch the same slot at the same time. */
  lemma NoSlotConflict<T>(input: seq<T>, drain: Drain, capacity: nat, run: seq<State<T>>, i: nat)
    requires Schedule(input, drain, capacity, run) && i < |run| && run[i].p.pc.WriteSlot?
    ensures var s := run[i];
            && (forall j {:trigger j % capacity} :: |s.c.got| <= j < s.p.sent ==> j % capacity != s.p.tail)
            && (s.c.pc.ReadSlot? ==> s.c.head != s.p.tail)
  {
    AlwaysSound(input, drain, capacity, run, i);
    SlotsApart(input, capacity, run[i]);
  }

  /** A consumer that left its drain loop has popped everything. */
  lemma DrainedAll<T>(input: seq<T>, drain: Drain, capacity: nat, run: seq<State<T>>, i: nat)
    requires Schedule(input, drain, capacity, run) && i < |run| && run[i].c.pc.Left?
    ensures run[i].c.got == input
  {
    AlwaysSound(input, drain, capacity, run, i);
  }

  // ---------- the ring refines a bounded queue ----------

  /** The queue the two threads see. */
  ghost function Queue<T>(input: seq<T>, s: State<T>): seq<T> {
    if |s.c.got| <= s.p.sent <= |input| then input[|s.c.got|..s.p.sent] else []
  }

  /** Storing the tail enqueues the producer's item, storing the head dequeues the oldest
      one, and no other step changes the queue. A push gives up only on a full queue and a
      pop only on an empty one. */
  lemma RefinesQueue<T>(input: seq<T>, drain: Drain, capacity: nat, s: State<T>, t: State<T>)
    requires Sound(input, capacity, s) && Moves(input, drain, s, t)
    ensures var q, r := Queue(input, s), Queue(input, t);
            if t.p.sent != s.p.sent then
              s.p.pc.StoreTail? && s.p.sent < |input| && |q| < capacity - 1 && r == q + [input[s.p.sent]]
            else if t.c.got != s.c.got then
              q != [] && t.c.got == s.c.got + [q[0]] && r == q[1..]
            else r == q
    ensures ProducerMoves(input, s, t) && s.p.pc.CheckFull? && t.p.pc.LoadTail? ==> |Queue(input, s)| == capacity - 1
    ensures ConsumerMoves(drain, s, t) && (s.c.pc.CheckEmpty? || s.c.pc.AgainEmpty?) && !t.c.pc.ReadSlot? ==>
              Queue(input, s) == []
  {
    var n, m := |s.c.got|, s.p.sent;
    NextMeets(n, m, capacity);
    IndexMeets(n, m, capacity);
  }
}

/** The sharded pipeline with every atomic access as its own step: the router's pushes and the
    workers' pops and drain loops run over real ring memory, interleaved in any way. Each step
    is a step of the queue-level pipeline or invisible to it, so the sharded result holds at
    this granularity too. */
module StepwisePipeline {
  import opened Orders
  import opened Wire
  import opened Sequencing
  import opened Sharding
  import P = ShardedPipeline
  import T = RingThreads

  /** One ring and the worker that drains it. `again` marks the second pop after the done flag
      was seen; a popped message is `pending` until the sequencer has handled it; `c.got` logs
      what was popped. */
  datatype Cell<R> = Cell(buf: seq<Msg>, head: nat, tail: nat, c: T.Consumer<Msg>, again: bool,
                          pending: Option<Msg>, run: StepResult<R>)

  /** The router's registers and table, the done flag, and the cells. */
  datatype System<R> = System(next: nat, table: map<nat, Bytes>, done: bool,
                              pc: T.ProducerPc, tail: nat, slot: nat, cells: seq<Cell<R>>)

  ghost predicate Initial<R>(plan: Plan, capacity: nat, s: System<R>) {
    && s.next == 0 && s.table == map[] && !s.done && s.pc.LoadTail?
    && |s.cells| == plan.shards && capacity > 0
    && forall k :: 0 <= k < |s.cells| ==>
         && |s.cells[k].buf| == capacity && s.cells[k].head == s.cells[k].tail == 0
         && s.cells[k].c.pc.LoadHead? && s.cells[k].c.got == []
         && !s.cells[k].again && s.cells[k].pending.None? && s.cells[k].run == StepResult(Start<R>(), [])
  }

  // ---------- steps ----------

  function WithCell<R>(s: System<R>, k: nat, cell: Cell<R>): System<R>
    requires k < |s.cells|
  {
    s.(cells := s.cells[k := cell])
  }

  function Size<R>(cell: Cell<R>): nat {
    if cell.buf == [] then 1 else |cell.buf|
  }

  /** The router: route the next message, then push it, spinning while its ring is full. */
  ghost predicate RouterMoves<R>(plan: Plan, ms: seq<Msg>, s: System<R>, t: System<R>) {
    if s.next >= |ms| then
      s.pc.LoadTail? && t == s.(done := true, pc := T.Through)
    else
      var m := ms[s.next];
      var k := Dest(plan, s.table, m);
      k < |s.cells| &&
      var cell := s.cells[k];
      match s.pc
      case LoadTail => t == s.(pc := T.CheckFull, tail := cell.tail, slot := (cell.tail + 1) % Size(cell))
      case CheckFull => t == s.(pc := if s.slot == cell.head then T.LoadTail else T.WriteSlot)
      case WriteSlot =>
        s.tail < |cell.buf| &&
        t == WithCell(s, k, cell.(buf := cell.buf[s.tail := m])).(pc := T.StoreTail)
      case StoreTail =>
        t == WithCell(s, k, cell.(tail := s.slot)).(pc := T.LoadTail, next := s.next + 1, table := Retabled(s.table, m))
      case Through => false
  }

  /** A worker: handle what it popped, else go on with its drain loop. */
  ghost predicate CellMoves<R>(setup: Setup<R>, done: bool, cell: Cell<R>, cell': Cell<R>) {
    if cell.pending.Some? then
      cell' == cell.(pending := None, run := Advance(setup, cell.run, cell.pending.value))
    else
      var c := cell.c;
      match c.pc
      case LoadHead => cell' == cell.(c := c.(pc := T.CheckEmpty, head := cell.head))
      case CheckEmpty => cell' == cell.(c := c.(pc := if c.head == cell.tail then T.LoadDone else T.ReadSlot))
      case ReadSlot =>
        c.head < |cell.buf| && cell' == cell.(c := c.(pc := T.StoreHead, item := Some(cell.buf[c.head])))
      case StoreHead =>
        c.item.Some? &&
        cell' == cell.(head := (c.head + 1) % Size(cell), pending := c.item, again := false,
                       c := c.(pc := T.LoadHead, item := None, got := c.got + [c.item.value]))
      case LoadDone => cell' == cell.(c := c.(pc := if done then T.AgainHead else T.LoadHead))
      case AgainHead => cell' == cell.(c := c.(pc := T.AgainEmpty, head := cell.head))
      case AgainEmpty =>
        cell' == if c.head == cell.tail then cell.(c := c.(pc := T.Left))
                 else cell.(again := true, c := c.(pc := T.ReadSlot))
      case _ => false
  }

  ghost predicate WorkerMoves<R>(setup: Setup<R>, s: System<R>, t: System<R>, k: nat) {
    && k < |s.cells| == |t.cells|
    && CellMoves(setup, s.done, s.cells[k], t.cells[k])
    && t == WithCell(s, k, t.cells[k])
  }

  ghost predicate Moves<R>(plan: Plan, setup: Setup<R>, ms: seq<Msg>, s: System<R>, t: System<R>) {
    RouterMoves(plan, ms, s, t) || exists k: nat :: WorkerMoves(setup, s, t, k)
  }

  ghost predicate Schedule<R>(plan: Plan, setup: Setup<R>, ms: seq<Msg>, capacity: nat, run: seq<System<R>>) {
    && run != [] && Initial(plan, capacity, run[0])
    && forall i :: 0 < i < |run| ==> Moves(plan, setup, ms, run[i - 1], run[i])
  }

  ghost predicate Finished<R>(s: System<R>) {
    s.done && forall k :: 0 <= k < |s.cells| ==> s.cells[k].c.pc.Left? && s.cells[k].pending.None?
  }

  // ---------- one ring as its two threads see it ----------

  /** Everything the router will ever push into ring `k`. */
  ghost function Input(plan: Plan, ms: seq<Msg>, k: nat): seq<Msg> {
    P.RoutedTo(plan, ms, |ms|, k)
  }

  ghost function Pusher<R>(plan: Plan, ms: seq<Msg>, s: System<R>, k: nat): T.Producer
    requires s.next <= |ms|
  {
    var mine := s.next < |ms| && Dest(plan, s.table, ms[s.next]) == k;
    T.Producer(if s.done then T.Through else if mine then s.pc else T.LoadTail,
               |P.RoutedTo(plan, ms, s.next, k)|, s.tail, s.slot)
  }

  ghost function View<R>(plan: Plan, ms: seq<Msg>, s: System<R>, k: nat): T.State<Msg>
    requires s.next <= |ms| && k < |s.cells|
  {
    var cell := s.cells[k];
    T.State(cell.buf, cell.head, cell.tail, s.done, Pusher(plan, ms, s, k), cell.c)
  }

  /** The worker's sequencer has handled all it popped, but for a pending message. */
  ghost predicate Handled<R>(setup: Setup<R>, cell: Cell<R>) {
    var got := cell.c.got;
    && (if cell.pending.None? then cell.run == RunAll(setup, Start<R>(), got)
        else got != [] && cell.pending.value == got[|got| - 1] && cell.c.pc.LoadHead?
             && cell.run == RunAll(setup, Start<R>(), got[..|got| - 1]))
    && (cell.again ==> cell.c.pc.ReadSlot? || cell.c.pc.StoreHead?)
    && !cell.c.pc.EmptyHead? && !cell.c.pc.EmptyTail?
  }

  ghost predicate RouterSound<R>(plan: Plan, ms: seq<Msg>, s: System<R>) {
    && |s.cells| == plan.shards && s.next <= |ms| && s.table == P.TableAt(ms, s.next)
    && (s.done <==> s.pc.Through?)
    && (s.next == |ms| ==> s.pc.LoadTail? || s.pc.Through?) && (s.done ==> s.next == |ms|)
  }

  ghost predicate CellSound<R>(plan: Plan, setup: Setup<R>, ms: seq<Msg>, capacity: nat, s: System<R>, k: nat)
    requires s.next <= |ms| && k < |s.cells|
  {
    && T.Sound(Input(plan, ms, k), capacity, View(plan, ms, s, k))
    && Handled(setup, s.cells[k]) && (s.cells[k].again ==> s.done)
  }

  ghost predicate Sound<R>(plan: Plan, setup: Setup<R>, ms: seq<Msg>, capacity: nat, s: System<R>) {
    && Sensible(plan) && RouterSound(plan, ms, s)
    && forall k :: 0 <= k < |s.cells| ==> CellSound(plan, setup, ms, capacity, s, k)
  }

  // ---------- messages and their ring ----------

  lemma {:induction false} RoutedPrefix(plan: Plan, ms: seq<Msg>, n: nat, m: nat, k: nat)
    requires n <= m <= |ms|
    ensures P.RoutedTo(plan, ms, n, k) <= P.RoutedTo(plan, ms, m, k)
    decreases m
  {
    if n < m {
      RoutedPrefix(plan, ms, n, m - 1, k);
      P.RoutedNext(plan, ms, m - 1, k);
    }
  }

  /** The message the router is about to push is the next item of its ring. */
  lemma NextItem(plan: Plan, ms: seq<Msg>, n: nat)
    requires n < |ms|
    ensures var k := Dest(plan, P.TableAt(ms, n), ms[n]);
            var sent := P.RoutedTo(plan, ms, n, k);
            && |sent| < |Input(plan, ms, k)| && Input(plan, ms, k)[|sent|] == ms[n]
            && P.RoutedTo(plan, ms, n + 1, k) == sent + [ms[n]]
  {
    var k := Dest(plan, P.TableAt(ms, n), ms[n]);
    P.RoutedNext(plan, ms, n, k);
    RoutedPrefix(plan, ms, n + 1, |ms|, k);
  }

  /** The registers mean nothing between pushes. */
  lemma Registers<M>(input: seq<M>, capacity: nat, v: T.State<M>, tail: nat, slot: nat)
    requires T.Sound(input, capacity, v) && (v.p.pc.LoadTail? || v.p.pc.Through?)
    ensures T.Sound(input, capacity, v.(p := v.p.(tail := tail, next := slot)))
  {
  }

  lemma RouterShape<R>(plan: Plan, ms: seq<Msg>, s: System<R>, t: System<R>)
    requires RouterSound(plan, ms, s) && RouterMoves(plan, ms, s, t)
    ensures RouterSound(plan, ms, t)
  {
    hide Dest, Retabled;
  }

  /** A router step, seen from any ring: a producer step or a change of idle registers. */
  lemma RouterCell<R>(plan: Plan, setup: Setup<R>, ms: seq<Msg>, capacity: nat, s: System<R>, t: System<R>, k: nat)
    requires Sound(plan, setup, ms, capacity, s) && RouterMoves(plan, ms, s, t) && k < |s.cells|
    ensures t.next <= |ms| && |t.cells| == |s.cells| && CellSound(plan, setup, ms, capacity, t, k)
  {
    hide Dest, Retabled, T.Sound, P.RoutedTo, RunAll;
    var input, v, w := Input(plan, ms, k), View(plan, ms, s, k), View(plan, ms, t, k);
    assert CellSound(plan, setup, ms, capacity, s, k);
    if s.next < |ms| {
      NextItem(plan, ms, s.next);
      P.RoutedNext(plan, ms, s.next, k);
      if Dest(plan, s.table, ms[s.next]) == k {
        assert T.ProducerMoves(input, v, w);
        T.ProducerKeeps(input, capacity, v, w);
      } else {
        assert w == v.(p := v.p.(tail := t.tail, next := t.slot));
        Registers(input, capacity, v, t.tail, t.slot);
      }
    } else {
      assert T.ProducerMoves(input, v, w);
      T.ProducerKeeps(input, capacity, v, w);
    }
  }

  /** A worker step is a consumer step of its ring, or handles a message out of its sight. */
  lemma WorkerCell<R>(plan: Plan, setup: Setup<R>, ms: seq<Msg>, capacity: nat, s: System<R>, t: System<R>, k: nat)
    requires Sound(plan, setup, ms, capacity, s) && WorkerMoves(setup, s, t, k)
    ensures t.next <= |ms| && CellSound(plan, setup, ms, capacity, t, k)
  {
    hide Dest, T.Sound, P.RoutedTo, RunAll, Step;
    var input, v, w := Input(plan, ms, k), View(plan, ms, s, k), View(plan, ms, t, k);
    assert CellSound(plan, setup, ms, capacity, s, k);
    HandledKeeps(setup, s.done, s.cells[k], t.cells[k]);
    hide Handled;
    if s.cells[k].pending.Some? {
      assert w == v;
    } else {
      assert T.ConsumerMoves(T.PopAgain, v, w);
      T.ConsumerKeeps(input, capacity, T.PopAgain, v, w);
      DoneBeforeAgain(input, capacity, v);
    }
  }

  lemma DoneBeforeAgain<M>(input: seq<M>, capacity: nat, v: T.State<M>)
    requires T.Sound(input, capacity, v)
    ensures v.c.pc.AgainHead? || v.c.pc.AgainEmpty? || v.c.pc.Left? ==> v.done
  {
  }

  lemma HandledKeeps<R>(setup: Setup<R>, done: bool, cell: Cell<R>, cell': Cell<R>)
    requires Handled(setup, cell) && CellMoves(setup, done, cell, cell')
    ensures Handled(setup, cell')
  {
    hide Step;
    var got := cell.c.got;
    if cell.pending.Some? {
      var front := got[..|got| - 1];
      RunSnoc(setup, Start<R>(), front, cell.pending.value);
      assert got == front + [cell.pending.value];
    } else if cell.c.pc.StoreHead? && cell.c.item.Some? {
      assert (got + [cell.c.item.value])[..|got|] == got;
    }
    hide RunAll;
  }

  lemma MoveKeeps<R>(plan: Plan, setup: Setup<R>, ms: seq<Msg>, capacity: nat, s: System<R>, t: System<R>)
    requires Sound(plan, setup, ms, capacity, s) && Moves(plan, setup, ms, s, t)
    ensures Sound(plan, setup, ms, capacity, t)
  {
    hide CellSound, CellMoves;
    if RouterMoves(plan, ms, s, t) {
      RouterShape(plan, ms, s, t);
      forall k | 0 <= k < |t.cells| ensures CellSound(plan, setup, ms, capacity, t, k) {
        RouterCell(plan, setup, ms, capacity, s, t, k);
      }
    } else {
      var k: nat :| WorkerMoves(setup, s, t, k);
      forall j | 0 <= j < |t.cells| ensures CellSound(plan, setup, ms, capacity, t, j) {
        if j == k {
          WorkerCell(plan, setup, ms, capacity, s, t, k);
        } else {
          OtherCell(plan, setup, ms, capacity, s, t, j);
        }
      }
    }
  }

  lemma OtherCell<R>(plan: Plan, setup: Setup<R>, ms: seq<Msg>, capacity: nat, s: System<R>, t: System<R>, j: nat)
    requires s.next <= |ms| && j < |s.cells| == |t.cells| && CellSound(plan, setup, ms, capacity, s, j)
    requires t == s.(cells := t.cells) && t.cells[j] == s.cells[j]
    ensures CellSound(plan, setup, ms, capacity, t, j)
  {
    hide T.Sound, Handled, Dest, P.RoutedTo;
    assert View(plan, ms, t, j) == View(plan, ms, s, j);
  }

  lemma StartSound<R>(plan: Plan, setup: Setup<R>, ms: seq<Msg>, capacity: nat, s: System<R>)
    requires Sensible(plan) && Initial(plan, capacity, s)
    ensures Sound(plan, setup, ms, capacity, s)
  {
    hide Dest;
  }

  lemma {:induction false} AlwaysSound<R>(plan: Plan, setup: Setup<R>, ms: seq<Msg>, capacity: nat,
                                          run: seq<System<R>>, i: nat)
    requires Sensible(plan) && Schedule(plan, setup, ms, capacity, run) && i < |run|
    ensures Sound(plan, setup, ms, capacity, run[i])
  {
    hide Moves, Sound, Initial;
    if i == 0 {
      StartSound(plan, setup, ms, capacity, run[0]);
    } else {
      AlwaysSound(plan, setup, ms, capacity, run, i - 1);
      MoveKeeps(plan, setup, ms, capacity, run[i - 1], run[i]);
    }
  }

  /** In no schedule do the router and a worker touch the same slot at the same time. */
  lemma NoSharedSlot<R>(plan: Plan, setup: Setup<R>, ms: seq<Msg>, capacity: nat, run: seq<System<R>>, i: nat)
    requires Sensible(plan) && Schedule(plan, setup, ms, capacity, run) && i < |run|
    requires run[i].pc.WriteSlot? && run[i].next < |ms|
    ensures var s := run[i];
            var k := Dest(plan, s.table, ms[s.next]);
            k < |s.cells| && (s.cells[k].c.pc.ReadSlot? ==> s.cells[k].c.head != s.tail)
  {
    var s := run[i];
    hide T.Sound, Handled, P.RoutedTo, Moves, RouteOf;
    AlwaysSound(plan, setup, ms, capacity, run, i);
    var k := Dest(plan, s.table, ms[s.next]);
    assert CellSound(plan, setup, ms, capacity, s, k);
    T.SlotsApart(Input(plan, ms, k), capacity, View(plan, ms, s, k));
  }

  // ---------- the queue-level pipeline it implements ----------

  ghost function Waiting<R>(plan: Plan, ms: seq<Msg>, s: System<R>, k: nat): seq<Msg>
    requires s.next <= |ms| && k < |s.cells|
  {
    T.Queue(Input(plan, ms, k), View(plan, ms, s, k))
  }

  function PhaseOf<R>(cell: Cell<R>): P.Phase {
    match cell.c.pc
    case LoadDone => P.SawEmpty
    case AgainHead => P.SawDone
    case AgainEmpty => P.SawDone
    case Left => P.Exited
    case _ => if cell.again then P.SawDone else P.Polling
  }

  ghost function WorkerOf<R>(setup: Setup<R>, cell: Cell<R>): P.Worker<R> {
    P.Worker(RunAll(setup, Start<R>(), cell.c.got), PhaseOf(cell))
  }

  ghost function RingsOf<R>(plan: Plan, ms: seq<Msg>, s: System<R>): (r: seq<seq<Msg>>)
    requires s.next <= |ms|
    ensures |r| == |s.cells| && forall k :: 0 <= k < |r| ==> r[k] == Waiting(plan, ms, s, k)
  {
    seq(|s.cells|, k requires 0 <= k < |s.cells| => Waiting(plan, ms, s, k))
  }

  ghost function WorkersOf<R>(setup: Setup<R>, cells: seq<Cell<R>>): (r: seq<P.Worker<R>>)
    ensures |r| == |cells| && forall k :: 0 <= k < |r| ==> r[k] == WorkerOf(setup, cells[k])
  {
    seq(|cells|, k requires 0 <= k < |cells| => WorkerOf(setup, cells[k]))
  }

  /** The queue-level state that a stepwise state stands for. */
  ghost function Abstract<R>(plan: Plan, setup: Setup<R>, ms: seq<Msg>, s: System<R>): P.Pipeline<R>
    requires s.next <= |ms|
  {
    P.Pipeline(s.next, s.table, s.done, RingsOf(plan, ms, s), WorkersOf(setup, s.cells))
  }

  /** A router step pushes one message, declares the router done, or is invisible. */
  lemma RouterSimulates<R>(plan: Plan, setup: Setup<R>, ms: seq<Msg>, capacity: nat, s: System<R>, t: System<R>)
    requires Sound(plan, setup, ms, capacity, s) && RouterMoves(plan, ms, s, t) && capacity > 0
    ensures t.next <= |ms| && |t.cells| == |s.cells|
    ensures var p, q := Abstract(plan, setup, ms, s), Abstract(plan, setup, ms, t);
            q == p || P.RouterMoves(plan, ms, capacity - 1, p, q)
  {
    hide Dest, Retabled, T.Sound, P.RoutedTo, Handled, P.TableAt, WorkerOf, Waiting;
    var rings, rings' := RingsOf(plan, ms, s), RingsOf(plan, ms, t);
    assert WorkersOf(setup, t.cells) == WorkersOf(setup, s.cells) by {
      forall k | 0 <= k < |s.cells| ensures WorkerOf(setup, t.cells[k]) == WorkerOf(setup, s.cells[k]) {
        SameWorker(setup, s.cells[k], t.cells[k]);
      }
    }
    if s.next < |ms| && s.pc.StoreTail? {
      var d := Dest(plan, s.table, ms[s.next]);
      forall k | 0 <= k < |rings| ensures rings'[k] == if k == d then rings[k] + [ms[s.next]] else rings[k] {
        PushSeen(plan, setup, ms, capacity, s, t, k);
      }
      PushSeen(plan, setup, ms, capacity, s, t, d);
      assert rings' == rings[d := rings[d] + [ms[s.next]]];
    } else {
      forall k | 0 <= k < |rings| ensures rings'[k] == rings[k] { SameWaiting(plan, ms, s, t, k); }
      assert rings' == rings;
    }
  }

  lemma SameWorker<R>(setup: Setup<R>, cell: Cell<R>, cell': Cell<R>)
    requires cell'.c.got == cell.c.got && PhaseOf(cell') == PhaseOf(cell)
    ensures WorkerOf(setup, cell') == WorkerOf(setup, cell)
  {
  }

  lemma SameWaiting<R>(plan: Plan, ms: seq<Msg>, s: System<R>, t: System<R>, k: nat)
    requires s.next == t.next <= |ms| && k < |s.cells| && k < |t.cells| && t.cells[k].c.got == s.cells[k].c.got
    ensures Waiting(plan, ms, t, k) == Waiting(plan, ms, s, k)
  {
    hide P.RoutedTo, Dest;
  }

  /** Storing the tail puts the message into its own ring only, which had room. */
  lemma PushSeen<R>(plan: Plan, setup: Setup<R>, ms: seq<Msg>, capacity: nat, s: System<R>, t: System<R>, k: nat)
    requires Sound(plan, setup, ms, capacity, s) && RouterMoves(plan, ms, s, t) && k < |s.cells|
    requires s.next < |ms| && s.pc.StoreTail?
    ensures t.next <= |ms| && |t.cells| == |s.cells|
    ensures var m := ms[s.next];
            if Dest(plan, s.table, m) == k
            then Waiting(plan, ms, t, k) == Waiting(plan, ms, s, k) + [m] && |Waiting(plan, ms, s, k)| < capacity - 1
            else Waiting(plan, ms, t, k) == Waiting(plan, ms, s, k)
  {
    hide Dest, Retabled, T.Sound, P.RoutedTo, Handled, P.TableAt;
    var input, v, w := Input(plan, ms, k), View(plan, ms, s, k), View(plan, ms, t, k);
    assert CellSound(plan, setup, ms, capacity, s, k);
    NextItem(plan, ms, s.next);
    P.RoutedNext(plan, ms, s.next, k);
    if Dest(plan, s.table, ms[s.next]) == k {
      assert T.ProducerMoves(input, v, w);
      T.RefinesQueue(input, T.PopAgain, capacity, v, w);
    }
  }

  /** A worker step takes a message out and handles it, turns the drain loop, or is invisible. */
  lemma WorkerSimulates<R>(plan: Plan, setup: Setup<R>, ms: seq<Msg>, capacity: nat, s: System<R>, t: System<R>, k: nat)
    requires Sound(plan, setup, ms, capacity, s) && WorkerMoves(setup, s, t, k)
    ensures t.next <= |ms| && |t.cells| == |s.cells|
    ensures var p, q := Abstract(plan, setup, ms, s), Abstract(plan, setup, ms, t);
            q == p || P.WorkerMoves(setup, p, q, k)
  {
    hide Dest, T.Sound, P.RoutedTo, P.TableAt, WorkerOf, Waiting, CellMoves, CellSound, Advance;
    var p, q := Abstract(plan, setup, ms, s), Abstract(plan, setup, ms, t);
    PopSeen(plan, setup, ms, capacity, s, t, k);
    forall j | 0 <= j < |p.rings| && j != k ensures q.rings[j] == p.rings[j] && q.workers[j] == p.workers[j] {
      SameWaiting(plan, ms, s, t, j);
      SameWorker(setup, s.cells[j], t.cells[j]);
    }
    assert q.rings == p.rings[k := q.rings[k]];
    assert q.workers == p.workers[k := q.workers[k]];
  }

  /** What the other side of the abstraction sees of one cell's step. */
  ghost predicate Seen<R>(setup: Setup<R>, done: bool, ring: seq<Msg>, w: P.Worker<R>, ring': seq<Msg>,
                          w': P.Worker<R>) {
    || (ring' == ring && w' == w)
    || (match w.phase
        case Polling =>
          if ring != [] then ring' == ring[1..] && w' == P.Worker(Advance(setup, w.run, ring[0]), P.Polling)
          else ring' == ring && w' == w.(phase := P.SawEmpty)
        case SawEmpty => ring' == ring && w' == w.(phase := if done then P.SawDone else P.Polling)
        case SawDone =>
          if ring != [] then ring' == ring[1..] && w' == P.Worker(Advance(setup, w.run, ring[0]), P.Polling)
          else ring' == ring && w' == w.(phase := P.Exited)
        case Exited => false)
  }

  lemma PopSeen<R>(plan: Plan, setup: Setup<R>, ms: seq<Msg>, capacity: nat, s: System<R>, t: System<R>, k: nat)
    requires Sound(plan, setup, ms, capacity, s) && WorkerMoves(setup, s, t, k)
    ensures Seen(setup, s.done, Waiting(plan, ms, s, k), WorkerOf(setup, s.cells[k]),
                 Waiting(plan, ms, t, k), WorkerOf(setup, t.cells[k]))
  {
    hide Dest, T.Sound, P.RoutedTo, RunAll, Step;
    var input, v, w := Input(plan, ms, k), View(plan, ms, s, k), View(plan, ms, t, k);
    var cell := s.cells[k];
    assert CellSound(plan, setup, ms, capacity, s, k);
    if cell.pending.None? {
      assert T.ConsumerMoves(T.PopAgain, v, w);
      T.RefinesQueue(input, T.PopAgain, capacity, v, w);
      if cell.c.pc.StoreHead? {
        var got, item := cell.c.got, cell.c.item.value;
        RunSnoc(setup, Start<R>(), got, item);
        assert w.c.got == got + [item] && w.c.got[|got|] == item;
      }
    }
  }

  /** The stepwise pipeline refines the queue-level one. */
  lemma MoveSimulates<R>(plan: Plan, setup: Setup<R>, ms: seq<Msg>, capacity: nat, s: System<R>, t: System<R>)
    requires Sound(plan, setup, ms, capacity, s) && Moves(plan, setup, ms, s, t) && capacity > 0
    ensures t.next <= |ms|
    ensures var p, q := Abstract(plan, setup, ms, s), Abstract(plan, setup, ms, t);
            q == p || P.Moves(plan, setup, ms, capacity - 1, p, q)
  {
    hide Sound, RouterMoves, WorkerMoves, Abstract, P.RouterMoves, P.WorkerMoves;
    if RouterMoves(plan, ms, s, t) {
      RouterSimulates(plan, setup, ms, capacity, s, t);
    } else {
      var k: nat :| WorkerMoves(setup, s, t, k);
      WorkerSimulates(plan, setup, ms, capacity, s, t, k);
    }
  }

  lemma StartsAbstract<R>(plan: Plan, setup: Setup<R>, ms: seq<Msg>, capacity: nat, s: System<R>)
    requires Sensible(plan) && Initial(plan, capacity, s)
    ensures P.Initial(plan, Abstract(plan, setup, ms, s))
  {
    hide Dest;
  }

  /** In every schedule of atomic steps, what the threads have done is what the queue-level
      pipeline could have done. */
  lemma {:induction false} AbstractSound<R>(plan: Plan, setup: Setup<R>, ms: seq<Msg>, capacity: nat,
                                            run: seq<System<R>>, i: nat)
    requires Sensible(plan) && Schedule(plan, setup, ms, capacity, run) && i < |run| && capacity > 0
    ensures run[i].next <= |ms| && P.Sound(plan, setup, ms, capacity - 1, Abstract(plan, setup, ms, run[i]))
  {
    hide Moves, Sound, Initial, Abstract, P.Sound, P.Moves;
    AlwaysSound(plan, setup, ms, capacity, run, i);
    Within(plan, setup, ms, capacity, run[i]);
    if i == 0 {
      StartsAbstract(plan, setup, ms, capacity, run[0]);
      P.InitialSound(plan, setup, ms, capacity - 1, Abstract(plan, setup, ms, run[0]));
    } else {
      AbstractSound(plan, setup, ms, capacity, run, i - 1);
      AlwaysSound(plan, setup, ms, capacity, run, i - 1);
      MoveSimulates(plan, setup, ms, capacity, run[i - 1], run[i]);
      var p, q := Abstract(plan, setup, ms, run[i - 1]), Abstract(plan, setup, ms, run[i]);
      if q != p { P.MoveKeeps(plan, setup, ms, capacity - 1, p, q); }
    }
  }

  lemma Within<R>(plan: Plan, setup: Setup<R>, ms: seq<Msg>, capacity: nat, s: System<R>)
    requires Sound(plan, setup, ms, capacity, s)
    ensures s.next <= |ms|
  {
  }

  ghost function Results<R>(s: System<R>): seq<StepResult<R>> {
    seq(|s.cells|, k requires 0 <= k < |s.cells| => s.cells[k].run)
  }

  lemma FinishedAbstract<R>(plan: Plan, setup: Setup<R>, ms: seq<Msg>, capacity: nat, s: System<R>)
    requires Sound(plan, setup, ms, capacity, s) && Finished(s)
    ensures s.next <= |ms|
    ensures var p := Abstract(plan, setup, ms, s); P.Finished(p) && P.Results(p) == Results(s)
  {
    hide Dest, T.Sound, P.RoutedTo, RunAll, Waiting;
    var p := Abstract(plan, setup, ms, s);
    forall k | 0 <= k < |s.cells| ensures p.workers[k].run == s.cells[k].run && p.workers[k].phase.Exited? {
      assert CellSound(plan, setup, ms, capacity, s, k);
    }
    assert P.Results(p) == Results(s);
  }

  /** Sharded equals sequential at the granularity of single loads, stores and slot accesses:
      for every shard function, ring capacity and schedule, once all threads are through. */
  lemma StepwiseEqualsSequential<R>(plan: Plan, setup: Setup<R>, ms: seq<Msg>, capacity: nat, run: seq<System<R>>)
    requires Sensible(plan) && P.Settled(plan, setup, ms) && Schedule(plan, setup, ms, capacity, run)
    requires Finished(run[|run| - 1])
    ensures P.SameOutcome(plan, RunAll(setup, Start<R>(), ms), Results(run[|run| - 1]))
  {
    var last := |run| - 1;
    assert capacity > 0;
    hide Moves, Sound, Abstract, P.Sound, P.Settled, P.SameOutcome, RunAll, Finished, Initial, P.Finished;
    AlwaysSound(plan, setup, ms, capacity, run, last);
    AbstractSound(plan, setup, ms, capacity, run, last);
    FinishedAbstract(plan, setup, ms, capacity, run[last]);
    P.FinishedOutcome(plan, setup, ms, capacity - 1, Abstract(plan, setup, ms, run[last]));
  }
}

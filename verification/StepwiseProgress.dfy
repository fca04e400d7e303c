/** The stepwise pipeline can always finish: from every state its atomic steps can reach, some
    continuation brings all threads through, as long as a ring has two slots. */
module StepwiseProgress {
  import opened Orders
  import opened Sequencing
  import opened Sharding
  import opened SpscRing
  import opened StepwisePipeline
  import P = ShardedPipeline
  import Q = PipelineProgress
  import T = RingThreads

  // ---------- what is left to do ----------

  /** Steps to the next pop, or from an empty ring to idling or leaving. */
  function Rank(pc: T.ConsumerPc, empty: bool, done: bool): nat {
    match pc
    case LoadHead => if !empty then 3 else if done then 5 else 0
    case CheckEmpty => if empty && done then 4 else 2
    case LoadDone => if !empty then 4 else if done then 3 else 1
    case AgainHead => if empty then 2 else 3
    case AgainEmpty => if empty then 1 else 2
    case ReadSlot => 1
    case _ => 0
  }

  function CellWork<R>(cell: Cell<R>, total: nat, done: bool): nat {
    12 * (if |cell.c.got| < total then total - |cell.c.got| else 0)
    + (if cell.pending.Some? then 6 else 0)
    + Rank(cell.c.pc, cell.head == cell.tail, done)
  }

  function Work<R>(cells: seq<Cell<R>>, total: nat, done: bool): nat {
    if cells == [] then 0 else CellWork(cells[0], total, done) + Work(cells[1..], total, done)
  }

  lemma {:induction false} WorkUpdate<R>(cells: seq<Cell<R>>, total: nat, done: bool, k: nat, cell: Cell<R>)
    requires k < |cells|
    ensures Work(cells[k := cell], total, done) + CellWork(cells[k], total, done) ==
            Work(cells, total, done) + CellWork(cell, total, done)
  {
    hide CellWork;
    if k == 0 {
      assert cells[0 := cell][1..] == cells[1..];
    } else {
      assert cells[k := cell][1..] == cells[1..][k - 1 := cell];
      WorkUpdate(cells[1..], total, done, k - 1, cell);
    }
  }

  function PushRank(pc: T.ProducerPc): nat {
    match pc
    case LoadTail => 3
    case CheckFull => 2
    case WriteSlot => 1
    case _ => 0
  }

  ghost predicate Closer<R>(ms: seq<Msg>, s: System<R>, t: System<R>) {
    || t.next > s.next
    || (t.next == s.next &&
        (|| (t.done && !s.done)
         || (t.done == s.done && PushRank(t.pc) < PushRank(s.pc))
         || (t.done == s.done && t.pc == s.pc && Work(t.cells, |ms|, t.done) < Work(s.cells, |ms|, s.done))))
  }

  // ---------- workers ----------

  /** The worker has something to handle or to pop, or should notice that the router is done. */
  predicate Busy<R>(cell: Cell<R>, done: bool) {
    cell.pending.Some? || if done then !cell.c.pc.Left? else !(cell.c.pc.LoadHead? && cell.head == cell.tail)
  }

  lemma {:induction false} RoutedShort(plan: Plan, ms: seq<Msg>, n: nat, k: nat)
    requires n <= |ms|
    ensures |P.RoutedTo(plan, ms, n, k)| <= n
  {
    if n > 0 {
      P.RoutedNext(plan, ms, n - 1, k);
      RoutedShort(plan, ms, n - 1, k);
    }
  }

  /** What the ring invariant says about one cell. */
  ghost predicate Standing<R>(cell: Cell<R>, total: nat, done: bool) {
    var empty, c := cell.head == cell.tail, cell.c;
    && (cell.pending.Some? ==> c.pc.LoadHead?) && !c.pc.EmptyHead? && !c.pc.EmptyTail?
    && (c.pc.ReadSlot? || c.pc.StoreHead? ==> !empty && c.head < |cell.buf|)
    && (c.pc.StoreHead? ==> c.item.Some? && |c.got| < total)
    && (c.pc.CheckEmpty? || c.pc.AgainEmpty? ==> c.head == cell.head)
    && (c.pc.AgainHead? || c.pc.AgainEmpty? || c.pc.Left? ==> done)
    && (c.pc.Left? ==> empty)
  }

  lemma CellStands<R>(plan: Plan, setup: Setup<R>, ms: seq<Msg>, capacity: nat, s: System<R>, k: nat)
    requires s.next <= |ms| && k < |s.cells| && CellSound(plan, setup, ms, capacity, s, k)
    ensures Standing(s.cells[k], |ms|, s.done)
  {
    hide Dest, P.RoutedTo, RunAll;
    var v := View(plan, ms, s, k);
    RoutedShort(plan, ms, |ms|, k);
    IndexMeets(|v.c.got|, v.p.sent, capacity);
  }

  /** A busy worker can move, and every move of its brings it closer to the end. */
  lemma CellAdvances<R>(setup: Setup<R>, total: nat, done: bool, cell: Cell<R>) returns (cell': Cell<R>)
    requires Standing(cell, total, done) && Busy(cell, done)
    ensures CellMoves(setup, done, cell, cell') && CellWork(cell', total, done) < CellWork(cell, total, done)
  {
    hide Advance;
    var c := cell.c;
    if cell.pending.Some? {
      cell' := cell.(pending := None, run := Advance(setup, cell.run, cell.pending.value));
    } else {
      match c.pc {
        case LoadHead => cell' := cell.(c := c.(pc := T.CheckEmpty, head := cell.head));
        case CheckEmpty => cell' := cell.(c := c.(pc := if c.head == cell.tail then T.LoadDone else T.ReadSlot));
        case ReadSlot => cell' := cell.(c := c.(pc := T.StoreHead, item := Some(cell.buf[c.head])));
        case StoreHead =>
          cell' := cell.(head := (c.head + 1) % Size(cell), pending := c.item, again := false,
                         c := c.(pc := T.LoadHead, item := None, got := c.got + [c.item.value]));
        case LoadDone => cell' := cell.(c := c.(pc := if done then T.AgainHead else T.LoadHead));
        case AgainHead => cell' := cell.(c := c.(pc := T.AgainEmpty, head := cell.head));
        case AgainEmpty =>
          cell' := if c.head == cell.tail then cell.(c := c.(pc := T.Left))
                   else cell.(again := true, c := c.(pc := T.ReadSlot));
      }
    }
  }

  lemma WorkerAdvances<R>(plan: Plan, setup: Setup<R>, ms: seq<Msg>, capacity: nat, s: System<R>, k: nat)
    returns (t: System<R>)
    requires Sound(plan, setup, ms, capacity, s) && k < |s.cells| && Busy(s.cells[k], s.done)
    ensures Moves(plan, setup, ms, s, t) && Closer(ms, s, t)
  {
    hide CellSound, CellWork, CellMoves, Standing, Busy, RouterMoves;
    assert CellSound(plan, setup, ms, capacity, s, k);
    CellStands(plan, setup, ms, capacity, s, k);
    var cell' := CellAdvances(setup, |ms|, s.done, s.cells[k]);
    t := WithCell(s, k, cell');
    WorkUpdate(s.cells, |ms|, s.done, k, cell');
    assert WorkerMoves(setup, s, t, k);
  }

  // ---------- router ----------

  /** When all workers idle the router can move: an empty ring of two slots is not full. */
  lemma RouterAdvances<R>(plan: Plan, setup: Setup<R>, ms: seq<Msg>, capacity: nat, s: System<R>)
    returns (t: System<R>)
    requires Sound(plan, setup, ms, capacity, s) && !s.done && (capacity > 1 || s.next == |ms|)
    requires forall k :: 0 <= k < |s.cells| ==> !Busy(s.cells[k], s.done)
    ensures Moves(plan, setup, ms, s, t) && Closer(ms, s, t)
  {
    hide WorkerMoves, Work, Handled, P.RoutedTo, RouteOf;
    if s.next == |ms| {
      t := s.(done := true, pc := T.Through);
    } else {
      var m := ms[s.next];
      var k := Dest(plan, s.table, m);
      var cell := s.cells[k];
      assert CellSound(plan, setup, ms, capacity, s, k) && !Busy(cell, s.done);
      RoomFor(Input(plan, ms, k), capacity, View(plan, ms, s, k));
      hide T.Sound, CellSound;
      match s.pc {
        case LoadTail => t := s.(pc := T.CheckFull, tail := cell.tail, slot := (cell.tail + 1) % Size(cell));
        case CheckFull => t := s.(pc := if s.slot == cell.head then T.LoadTail else T.WriteSlot);
        case WriteSlot => t := WithCell(s, k, cell.(buf := cell.buf[s.tail := m])).(pc := T.StoreTail);
        case StoreTail =>
          t := WithCell(s, k, cell.(tail := s.slot)).(pc := T.LoadTail, next := s.next + 1,
                                                      table := Retabled(s.table, m));
      }
    }
    assert RouterMoves(plan, ms, s, t);
  }

  lemma RoomFor<M>(input: seq<M>, capacity: nat, v: T.State<M>)
    requires T.Sound(input, capacity, v) && v.head == v.tail && capacity > 1
    ensures v.p.pc.CheckFull? ==> v.p.next != v.head
    ensures v.p.pc.WriteSlot? ==> v.p.tail < |v.buf|
  {
    IndexMeets(|v.c.got|, v.p.sent, capacity);
    NextMeets(|v.c.got|, v.p.sent, capacity);
  }

  // ---------- finishing ----------

  lemma Advances<R>(plan: Plan, setup: Setup<R>, ms: seq<Msg>, capacity: nat, s: System<R>) returns (t: System<R>)
    requires Sound(plan, setup, ms, capacity, s) && !Finished(s) && (capacity > 1 || s.next == |ms|)
    ensures Moves(plan, setup, ms, s, t) && Closer(ms, s, t)
  {
    hide Sound, Moves, Closer;
    if k: nat :| k < |s.cells| && Busy(s.cells[k], s.done) {
      t := WorkerAdvances(plan, setup, ms, capacity, s, k);
    } else {
      t := RouterAdvances(plan, setup, ms, capacity, s);
    }
  }

  ghost predicate Continues<R>(plan: Plan, setup: Setup<R>, ms: seq<Msg>, s: System<R>, run: seq<System<R>>) {
    && run != [] && run[0] == s
    && forall i :: 0 < i < |run| ==> Moves(plan, setup, ms, run[i - 1], run[i])
  }

  lemma ContinuesFrom<R>(plan: Plan, setup: Setup<R>, ms: seq<Msg>, s: System<R>, t: System<R>, run: seq<System<R>>)
    requires Moves(plan, setup, ms, s, t) && Continues(plan, setup, ms, t, run)
    ensures Continues(plan, setup, ms, s, [s] + run)
  {
    hide Moves;
    var all := [s] + run;
    forall i | 0 < i < |all| ensures Moves(plan, setup, ms, all[i - 1], all[i]) {
      assert all[i] == run[i - 1] && all[i - 1] == if i == 1 then s else run[i - 2];
    }
  }

  /** From every reachable state the run can be brought to its end. */
  lemma {:induction false} CanFinish<R>(plan: Plan, setup: Setup<R>, ms: seq<Msg>, capacity: nat, s: System<R>)
    returns (run: seq<System<R>>)
    requires Sound(plan, setup, ms, capacity, s) && (capacity > 1 || s.next == |ms|)
    ensures Continues(plan, setup, ms, s, run) && Finished(run[|run| - 1])
    decreases |ms| - s.next, if s.done then 0 else 1, PushRank(s.pc), Work(s.cells, |ms|, s.done)
  {
    Within(plan, setup, ms, capacity, s);
    if Finished(s) {
      run := [s];
    } else {
      hide Sound, Finished, Moves, PushRank, Work;
      var t := Advances(plan, setup, ms, capacity, s);
      MoveKeeps(plan, setup, ms, capacity, s, t);
      Within(plan, setup, ms, capacity, t);
      var rest := CanFinish(plan, setup, ms, capacity, t);
      ContinuesFrom(plan, setup, ms, s, t, rest);
      run := [s] + rest;
    }
  }

  ghost function StartState<R>(plan: Plan, capacity: nat): (s: System<R>)
    requires capacity > 0
    ensures Initial(plan, capacity, s) && s.next == 0
  {
    var cell := Cell(seq(capacity, i => OtherMessage), 0, 0, T.Consumer(T.LoadHead, 0, None, []), false, None,
                     StepResult(Start<R>(), []));
    System(0, map[], false, T.LoadTail, 0, 0, seq(plan.shards, k => cell))
  }

  /** One slot never holds a message: the run stays before its first one. */
  lemma {:induction false} StuckAtStart<R>(plan: Plan, setup: Setup<R>, ms: seq<Msg>, run: seq<System<R>>, i: nat)
    requires Sensible(plan) && Schedule(plan, setup, ms, 1, run) && i < |run| && ms != []
    ensures run[i].next == 0 && !run[i].done
  {
    if i > 0 {
      hide Moves, Sound, P.Moves;
      StuckAtStart(plan, setup, ms, run, i - 1);
      AlwaysSound(plan, setup, ms, 1, run, i - 1);
      MoveSimulates(plan, setup, ms, 1, run[i - 1], run[i]);
      var p, q := Abstract(plan, setup, ms, run[i - 1]), Abstract(plan, setup, ms, run[i]);
      if q != p { Q.StuckStep(plan, setup, ms, p, q); }
    }
  }

  /** Some schedule finishes exactly when a ring has two slots, or one and nothing to send. */
  lemma FinishesExactly<R>(plan: Plan, setup: Setup<R>, ms: seq<Msg>, capacity: nat)
    requires Sensible(plan)
    ensures (exists run: seq<System<R>> :: Schedule(plan, setup, ms, capacity, run) && Finished(run[|run| - 1])) <==>
            capacity > 1 || (capacity == 1 && ms == [])
  {
    if capacity > 1 || (capacity == 1 && ms == []) {
      hide Sound, Moves, Initial;
      var s: System<R> := StartState(plan, capacity);
      StartSound(plan, setup, ms, capacity, s);
      var run := CanFinish(plan, setup, ms, capacity, s);
      assert Schedule(plan, setup, ms, capacity, run) && Finished(run[|run| - 1]);
    } else {
      hide Sound, Moves;
      forall run: seq<System<R>> | Schedule(plan, setup, ms, capacity, run) ensures !Finished(run[|run| - 1]) {
        if capacity == 1 { StuckAtStart(plan, setup, ms, run, |run| - 1); }
      }
    }
  }
}

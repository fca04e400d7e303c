/** The concurrent pipeline as a state machine over its threads' steps: the router and one
    worker per shard, interleaved in any way. Rings are bounded first-in first-out queues
    here; module RingThreads proves that the ring buffer behaves as one. */
module ShardedPipeline {
  import opened Orders
  import opened Wire
  import opened Sequencing
  import opened Sharding

  // ---------- what the router does with a message list ----------

  function TableAt(ms: seq<Msg>, n: nat): map<nat, Bytes>
    requires n <= |ms|
  {
    if n == 0 then map[] else Retabled(TableAt(ms, n - 1), ms[n - 1])
  }

  /** The first `n` messages as shard `k` gets them. */
  function RoutedTo(plan: Plan, ms: seq<Msg>, n: nat, k: nat): seq<Msg>
    requires n <= |ms|
  {
    if n == 0 then []
    else RoutedTo(plan, ms, n - 1, k) +
         (if Dest(plan, TableAt(ms, n - 1), ms[n - 1]) == k then [ms[n - 1]] else [])
  }

  ghost function ShardRun<R>(plan: Plan, setup: Setup<R>, ms: seq<Msg>, n: nat, k: nat): StepResult<R>
    requires n <= |ms|
  {
    RunAll(setup, Start<R>(), RoutedTo(plan, ms, n, k))
  }

  lemma ShardRunNext<R>(plan: Plan, setup: Setup<R>, ms: seq<Msg>, n: nat, k: nat)
    requires n < |ms|
    ensures ShardRun(plan, setup, ms, n + 1, k) ==
            if Dest(plan, TableAt(ms, n), ms[n]) == k then Advance(setup, ShardRun(plan, setup, ms, n, k), ms[n])
            else ShardRun(plan, setup, ms, n, k)
  {
    var front := RoutedTo(plan, ms, n, k);
    hide Step, Dest;
    RunSnoc(setup, Start<R>(), front, ms[n]);
    assert front + [] == front;
  }

  lemma {:induction false} NoSums<R>(shards: seq<StepResult<R>>)
    requires forall k :: 0 <= k < |shards| ==> shards[k].state.stats == ZERO && shards[k].events == []
    ensures SumStats(shards) == ZERO && SumEvents(shards) == 0
  {
    hide Plus;
    if shards != [] {
      NoSums(shards[1..]);
      PlusZero(shards[0].state.stats);
    }
  }

  lemma StartSplit<R>(plan: Plan, shards: seq<StepResult<R>>)
    requires |shards| == plan.shards
    requires forall k :: 0 <= k < |shards| ==> shards[k] == StepResult(Start<R>(), [])
    ensures Split(plan, StepResult(Start<R>(), []), map[], shards)
  {
    hide SumStats, SumEvents, Plus;
    NoSums(shards);
  }

  lemma ShardRunStart<R>(plan: Plan, setup: Setup<R>, ms: seq<Msg>, k: nat)
    ensures ShardRun(plan, setup, ms, 0, k) == RunAll(setup, Start<R>(), ms[..0]) == StepResult(Start<R>(), [])
    ensures TableAt(ms, 0) == map[]
  {
  }

  lemma RunsNext<R>(plan: Plan, setup: Setup<R>, ms: seq<Msg>, n: nat, before: seq<StepResult<R>>,
                    shards: seq<StepResult<R>>)
    requires n < |ms| && |before| == |shards| && Dest(plan, TableAt(ms, n), ms[n]) < |before|
    requires forall k :: 0 <= k < |before| ==> before[k] == ShardRun(plan, setup, ms, n, k)
    requires forall k :: 0 <= k < |shards| ==> shards[k] == ShardRun(plan, setup, ms, n + 1, k)
    ensures var d := Dest(plan, TableAt(ms, n), ms[n]); shards == before[d := Advance(setup, before[d], ms[n])]
  {
    hide ShardRun, Advance, Dest;
    var d := Dest(plan, TableAt(ms, n), ms[n]);
    forall k | 0 <= k < |shards| ensures shards[k] == before[d := Advance(setup, before[d], ms[n])][k] {
      ShardRunNext(plan, setup, ms, n, k);
    }
  }

  /** Message `n` brings in an id that the single sequencer, having handled all messages before
      it, still routes in another shard. */
  ghost predicate MigratesAt<R>(plan: Plan, setup: Setup<R>, ms: seq<Msg>, n: nat)
    requires n < |ms|
  {
    Migrates(plan, RunAll(setup, Start<R>(), ms[..n]), TableAt(ms, n), ms[n])
  }

  /** No message brings in an id that lives in another shard. */
  ghost predicate Settled<R>(plan: Plan, setup: Setup<R>, ms: seq<Msg>) {
    forall n :: 0 <= n < |ms| ==> !MigratesAt(plan, setup, ms, n)
  }

  /** After `n` messages the shards together are the single sequencer. */
  ghost predicate OneAt<R>(plan: Plan, setup: Setup<R>, ms: seq<Msg>, n: nat)
    requires n <= |ms|
  {
    Split(plan, RunAll(setup, Start<R>(), ms[..n]), TableAt(ms, n), ShardRuns(plan, setup, ms, n))
  }

  lemma StartsOne<R>(plan: Plan, setup: Setup<R>, ms: seq<Msg>)
    ensures OneAt(plan, setup, ms, 0)
  {
    hide Split, RunAll, ShardRun, Start;
    ShardRunStart(plan, setup, ms, 0);
    var shards := ShardRuns(plan, setup, ms, 0);
    forall k | 0 <= k < |shards| ensures shards[k] == StepResult(Start<R>(), []) {
      ShardRunStart(plan, setup, ms, k);
    }
    StartSplit(plan, shards);
  }

  /** The shards stay one sequencer over a message exactly unless it migrates. */
  lemma OneNext<R>(plan: Plan, setup: Setup<R>, ms: seq<Msg>, n: nat)
    requires Sensible(plan) && n < |ms| && OneAt(plan, setup, ms, n)
    ensures OneAt(plan, setup, ms, n + 1) <==> !MigratesAt(plan, setup, ms, n)
  {
    hide Split, Advance, RunAll, ShardRun, Dest, Migrates, Start, TableAt, Sensible, Retabled;
    var before, shards := ShardRuns(plan, setup, ms, n), ShardRuns(plan, setup, ms, n + 1);
    TableNext(ms, n);
    SplitStep(plan, setup, RunAll(setup, Start<R>(), ms[..n]), TableAt(ms, n), before, ms[n]);
    SoloNext(setup, ms, n);
    RunsNext(plan, setup, ms, n, before, shards);
  }

  lemma {:induction false} StaysOne<R>(plan: Plan, setup: Setup<R>, ms: seq<Msg>, n: nat)
    requires Sensible(plan) && Settled(plan, setup, ms) && n <= |ms|
    ensures OneAt(plan, setup, ms, n)
  {
    hide OneAt, MigratesAt, Sensible;
    if n == 0 {
      StartsOne(plan, setup, ms);
    } else {
      StaysOne(plan, setup, ms, n - 1);
      OneNext(plan, setup, ms, n - 1);
    }
  }

  /** The shards together are one sequencer after every number of messages exactly when no
      message brings in an id that lives in another shard. */
  lemma ShardsAreOne<R>(plan: Plan, setup: Setup<R>, ms: seq<Msg>)
    requires Sensible(plan)
    ensures (forall n :: 0 <= n <= |ms| ==> OneAt(plan, setup, ms, n)) <==> Settled(plan, setup, ms)
  {
    hide OneAt, MigratesAt, Sensible;
    if Settled(plan, setup, ms) {
      forall n | 0 <= n <= |ms| ensures OneAt(plan, setup, ms, n) { StaysOne(plan, setup, ms, n); }
    } else {
      var n :| 0 <= n < |ms| && MigratesAt(plan, setup, ms, n);
      if OneAt(plan, setup, ms, n) { OneNext(plan, setup, ms, n); }
    }
  }

  // ---------- ids used once ----------

  lemma {:induction false} RoutedWasIssued<R>(setup: Setup<R>, ms: seq<Msg>, n: nat, id: nat)
    requires n <= |ms| && id in RunAll(setup, Start<R>(), ms[..n]).state.routes
    ensures exists i :: 0 <= i < n && Issued(ms[i]) == Some(id)
  {
    if n > 0 {
      hide OnDesk, RunAll;
      var st := RunAll(setup, Start<R>(), ms[..n - 1]).state;
      SoloNext(setup, ms, n - 1);
      if Target(st.routes, ms[n - 1]).Some? {
        var info := Target(st.routes, ms[n - 1]).value;
        RouteIssued(setup, DeskOf(setup, st.desks, info.symbol), info, ms[n - 1]);
      }
      if Issued(ms[n - 1]) != Some(id) {
        RoutedWasIssued(setup, ms, n - 1, id);
      } else {
        assert 0 <= n - 1 < n && Issued(ms[n - 1]) == Some(id);
      }
    }
  }

  /** Order reference numbers used once settle every stream, whatever the shard function. */
  lemma NeverReusedSettles<R>(plan: Plan, setup: Setup<R>, ms: seq<Msg>)
    requires NeverReused(ms)
    ensures Settled(plan, setup, ms)
  {
    hide TableAt, RunAll, Start, Dest, RouteOf;
    forall n | 0 <= n < |ms| ensures !MigratesAt(plan, setup, ms, n) {
      if MigratesAt(plan, setup, ms, n) { RoutedWasIssued(setup, ms, n, Issued(ms[n]).value); }
    }
  }

  ghost function ShardRuns<R>(plan: Plan, setup: Setup<R>, ms: seq<Msg>, n: nat): (r: seq<StepResult<R>>)
    requires n <= |ms|
    ensures |r| == plan.shards && forall k :: 0 <= k < |r| ==> r[k] == ShardRun(plan, setup, ms, n, k)
  {
    seq(plan.shards, k requires 0 <= k < plan.shards => ShardRun(plan, setup, ms, n, k))
  }

  lemma TableNext(ms: seq<Msg>, n: nat)
    requires n < |ms|
    ensures TableAt(ms, n + 1) == Retabled(TableAt(ms, n), ms[n])
  {
    hide Retabled;
  }

  lemma SoloNext<R>(setup: Setup<R>, ms: seq<Msg>, n: nat)
    requires n < |ms|
    ensures RunAll(setup, Start<R>(), ms[..n + 1]) == Advance(setup, RunAll(setup, Start<R>(), ms[..n]), ms[n])
  {
    hide Step;
    assert ms[..n + 1] == ms[..n] + [ms[n]];
    RunSnoc(setup, Start<R>(), ms[..n], ms[n]);
  }

  // ---------- threads ----------

  /** Where a worker stands in its drain loop: about to pop; just found the ring empty; then
      saw the router done and is about to pop once more; or out of the loop. */
  datatype Phase = Polling | SawEmpty | SawDone | Exited

  datatype Worker<R> = Worker(run: StepResult<R>, phase: Phase)

  datatype Pipeline<R> = Pipeline(next: nat, table: map<nat, Bytes>, done: bool, rings: seq<seq<Msg>>,
                                  workers: seq<Worker<R>>)

  ghost predicate Initial<R>(plan: Plan, p: Pipeline<R>) {
    && p.next == 0 && p.table == map[] && !p.done
    && |p.rings| == |p.workers| == plan.shards
    && forall k :: 0 <= k < plan.shards ==>
         p.rings[k] == [] && p.workers[k] == Worker(StepResult(Start<R>(), []), Polling)
  }

  /** The router pushes the next message once its ring has room, or declares itself done. */
  ghost predicate RouterMoves<R>(plan: Plan, ms: seq<Msg>, room: nat, p: Pipeline<R>, q: Pipeline<R>) {
    if p.next < |ms| then
      var m := ms[p.next];
      var k := Dest(plan, p.table, m);
      && k < |p.rings| && |p.rings[k]| < room
      && q == p.(next := p.next + 1, table := Retabled(p.table, m), rings := p.rings[k := p.rings[k] + [m]])
    else
      !p.done && q == p.(done := true)
  }

  function Handle<R>(setup: Setup<R>, p: Pipeline<R>, k: nat): Pipeline<R>
    requires k < |p.workers| && k < |p.rings| && p.rings[k] != []
  {
    p.(rings := p.rings[k := p.rings[k][1..]],
       workers := p.workers[k := Worker(Advance(setup, p.workers[k].run, p.rings[k][0]), Polling)])
  }

  function Turn<R>(p: Pipeline<R>, k: nat, phase: Phase): Pipeline<R>
    requires k < |p.workers|
  {
    p.(workers := p.workers[k := p.workers[k].(phase := phase)])
  }

  ghost predicate WorkerMoves<R>(setup: Setup<R>, p: Pipeline<R>, q: Pipeline<R>, k: nat) {
    && k < |p.workers| && k < |p.rings|
    && match p.workers[k].phase
       case Polling => q == if p.rings[k] != [] then Handle(setup, p, k) else Turn(p, k, SawEmpty)
       case SawEmpty => q == Turn(p, k, if p.done then SawDone else Polling)
       case SawDone => q == if p.rings[k] != [] then Handle(setup, p, k) else Turn(p, k, Exited)
       case Exited => false
  }

  ghost predicate Moves<R>(plan: Plan, setup: Setup<R>, ms: seq<Msg>, room: nat, p: Pipeline<R>, q: Pipeline<R>) {
    RouterMoves(plan, ms, room, p, q) || exists k: nat :: WorkerMoves(setup, p, q, k)
  }

  /** A schedule: any interleaving of the threads' steps. */
  ghost predicate Schedule<R>(plan: Plan, setup: Setup<R>, ms: seq<Msg>, room: nat, run: seq<Pipeline<R>>) {
    && run != [] && Initial(plan, run[0])
    && forall i :: 0 < i < |run| ==> Moves(plan, setup, ms, room, run[i - 1], run[i])
  }

  ghost predicate Finished<R>(p: Pipeline<R>) {
    p.done && forall k :: 0 <= k < |p.workers| ==> p.workers[k].phase.Exited?
  }

  /** A worker has handled all it was sent except what waits in its ring. */
  ghost predicate WorkerSound<R>(plan: Plan, setup: Setup<R>, ms: seq<Msg>, p: Pipeline<R>, k: nat)
    requires p.next <= |ms| && k < |p.rings| && k < |p.workers|
  {
    var sent, w := RoutedTo(plan, ms, p.next, k), p.workers[k];
    && |p.rings[k]| <= |sent| && sent[|sent| - |p.rings[k]|..] == p.rings[k]
    && w.run == RunAll(setup, Start<R>(), sent[..|sent| - |p.rings[k]|])
    && (w.phase.SawDone? || w.phase.Exited? ==> p.done)
    && (w.phase.Exited? ==> p.rings[k] == [])
  }

  ghost predicate Sound<R>(plan: Plan, setup: Setup<R>, ms: seq<Msg>, room: nat, p: Pipeline<R>) {
    && |p.rings| == |p.workers| == plan.shards
    && p.next <= |ms| && p.table == TableAt(ms, p.next) && (p.done ==> p.next == |ms|)
    && (forall k :: 0 <= k < plan.shards ==> |p.rings[k]| <= room && WorkerSound(plan, setup, ms, p, k))
  }

  lemma RouterKeeps<R>(plan: Plan, setup: Setup<R>, ms: seq<Msg>, room: nat, p: Pipeline<R>, q: Pipeline<R>)
    requires Sound(plan, setup, ms, room, p) && RouterMoves(plan, ms, room, p, q)
    ensures Sound(plan, setup, ms, room, q)
  {
    hide RunAll, Dest, Retabled, RoutedTo, WorkerSound;
    forall k | 0 <= k < plan.shards ensures |q.rings[k]| <= room && WorkerSound(plan, setup, ms, q, k) {
      if p.next < |ms| {
        PushKeeps(plan, setup, ms, p, q, k);
      } else {
        DoneKeeps(plan, setup, ms, p, q, k);
      }
    }
  }

  lemma DoneKeeps<R>(plan: Plan, setup: Setup<R>, ms: seq<Msg>, p: Pipeline<R>, q: Pipeline<R>, k: nat)
    requires p.next <= |ms| && k < |p.rings| && k < |p.workers| && WorkerSound(plan, setup, ms, p, k)
    requires q == p.(done := true)
    ensures WorkerSound(plan, setup, ms, q, k)
  {
    hide RunAll, RoutedTo;
  }

  /** A push adds the message to what its shard was sent and to its ring, nowhere else. */
  lemma PushKeeps<R>(plan: Plan, setup: Setup<R>, ms: seq<Msg>, p: Pipeline<R>, q: Pipeline<R>, k: nat)
    requires p.next < |ms| && k < |p.rings| && k < |p.workers| && WorkerSound(plan, setup, ms, p, k) && !p.done
    requires var d := Dest(plan, TableAt(ms, p.next), ms[p.next]);
             && d < |p.rings| && q.next == p.next + 1 && q.workers == p.workers && q.done == p.done
             && q.rings == p.rings[d := p.rings[d] + [ms[p.next]]]
    ensures WorkerSound(plan, setup, ms, q, k)
  {
    hide RunAll, Dest, TableAt, RoutedTo;
    RoutedNext(plan, ms, p.next, k);
    Queued(RoutedTo(plan, ms, p.next, k), p.rings[k], ms[p.next]);
  }

  lemma RoutedNext(plan: Plan, ms: seq<Msg>, n: nat, k: nat)
    requires n < |ms|
    ensures var front := RoutedTo(plan, ms, n, k);
            RoutedTo(plan, ms, n + 1, k) == if Dest(plan, TableAt(ms, n), ms[n]) == k then front + [ms[n]] else front
  {
    hide Dest;
    var front := RoutedTo(plan, ms, n, k);
    assert front + [] == front;
  }

  lemma Queued(sent: seq<Msg>, ring: seq<Msg>, m: Msg)
    requires |ring| <= |sent| && sent[|sent| - |ring|..] == ring
    ensures (sent + [m])[|sent| - |ring|..] == ring + [m]
    ensures (sent + [m])[..|sent| - |ring|] == sent[..|sent| - |ring|]
  {
  }

  lemma HandleKeeps<R>(plan: Plan, setup: Setup<R>, ms: seq<Msg>, room: nat, p: Pipeline<R>, k: nat)
    requires Sound(plan, setup, ms, room, p) && k < plan.shards && p.rings[k] != []
    ensures Sound(plan, setup, ms, room, Handle(setup, p, k))
  {
    hide RunAll, Dest, Retabled, RoutedTo, Step;
    var q := Handle(setup, p, k);
    var sent := RoutedTo(plan, ms, p.next, k);
    var cut := |sent| - |p.rings[k]|;
    assert WorkerSound(plan, setup, ms, p, k);
    assert sent[..cut + 1] == sent[..cut] + [p.rings[k][0]];
    RunSnoc(setup, Start<R>(), sent[..cut], p.rings[k][0]);
    forall j | 0 <= j < plan.shards ensures |q.rings[j]| <= room && WorkerSound(plan, setup, ms, q, j) {
      assert WorkerSound(plan, setup, ms, p, j);
    }
  }

  lemma TurnKeeps<R>(plan: Plan, setup: Setup<R>, ms: seq<Msg>, room: nat, p: Pipeline<R>, k: nat, phase: Phase)
    requires Sound(plan, setup, ms, room, p) && k < plan.shards
    requires phase.SawDone? || phase.Exited? ==> p.done
    requires phase.Exited? ==> p.rings[k] == []
    ensures Sound(plan, setup, ms, room, Turn(p, k, phase))
  {
    hide RunAll, Dest, Retabled, RoutedTo;
    var q := Turn(p, k, phase);
    forall j | 0 <= j < plan.shards ensures |q.rings[j]| <= room && WorkerSound(plan, setup, ms, q, j) {
      assert WorkerSound(plan, setup, ms, p, j);
    }
  }

  lemma MoveKeeps<R>(plan: Plan, setup: Setup<R>, ms: seq<Msg>, room: nat, p: Pipeline<R>, q: Pipeline<R>)
    requires Sound(plan, setup, ms, room, p) && Moves(plan, setup, ms, room, p, q)
    ensures Sound(plan, setup, ms, room, q)
  {
    if RouterMoves(plan, ms, room, p, q) {
      RouterKeeps(plan, setup, ms, room, p, q);
    } else {
      hide Advance, RouterMoves;
      var k: nat :| WorkerMoves(setup, p, q, k);
      assert WorkerSound(plan, setup, ms, p, k);
      hide WorkerSound;
      if !p.workers[k].phase.SawEmpty? && p.rings[k] != [] {
        HandleKeeps(plan, setup, ms, room, p, k);
      } else {
        TurnKeeps(plan, setup, ms, room, p, k, q.workers[k].phase);
      }
    }
  }

  lemma {:induction false} AlwaysSound<R>(plan: Plan, setup: Setup<R>, ms: seq<Msg>, room: nat,
                                          run: seq<Pipeline<R>>, i: nat)
    requires Schedule(plan, setup, ms, room, run) && i < |run|
    ensures Sound(plan, setup, ms, room, run[i])
  {
    hide Sound, Moves, Initial;
    if i == 0 {
      InitialSound(plan, setup, ms, room, run[0]);
    } else {
      AlwaysSound(plan, setup, ms, room, run, i - 1);
      MoveKeeps(plan, setup, ms, room, run[i - 1], run[i]);
    }
  }

  lemma InitialSound<R>(plan: Plan, setup: Setup<R>, ms: seq<Msg>, room: nat, p: Pipeline<R>)
    requires Initial(plan, p)
    ensures Sound(plan, setup, ms, room, p)
  {
  }

  ghost function Results<R>(p: Pipeline<R>): seq<StepResult<R>> {
    seq(|p.workers|, k requires 0 <= k < |p.workers| => p.workers[k].run)
  }

  /** Each symbol's desk is the single sequencer's and lives in one shard only, the counters
      add up to the sequencer's, and each shard has published exactly the sequencer's events
      about its symbols, in the same order. */
  ghost predicate SameOutcome<R>(plan: Plan, all: StepResult<R>, shards: seq<StepResult<R>>) {
    && |shards| == plan.shards
    && (forall s, k :: 0 <= k < |shards| ==>
          (s in shards[k].state.desks <==> s in all.state.desks && plan.shardOf(s) == k))
    && (forall s, k :: 0 <= k < |shards| && s in shards[k].state.desks && s in all.state.desks ==>
          shards[k].state.desks[s] == all.state.desks[s])
    && SumStats(shards) == all.state.stats
    && SumEvents(shards) == |all.events|
    && (forall k :: 0 <= k < |shards| ==> shards[k].events == EventsOf(plan, all.events, k))
  }

  lemma SplitOutcome<R>(plan: Plan, all: StepResult<R>, table: map<nat, Bytes>, shards: seq<StepResult<R>>)
    requires Split(plan, all, table, shards)
    ensures SameOutcome(plan, all, shards)
  {
    hide SumStats, SumEvents, EventsOf, OwnRoutes, Covered;
    forall k | 0 <= k < |shards| ensures ShardOf(plan, all, shards[k], k) { }
  }

  /** Once all threads are through, each worker has run its own messages, all of them. */
  lemma FinishedRuns<R>(plan: Plan, setup: Setup<R>, ms: seq<Msg>, room: nat, p: Pipeline<R>)
    requires Sound(plan, setup, ms, room, p) && Finished(p)
    ensures Results(p) == ShardRuns(plan, setup, ms, |ms|)
  {
    hide RunAll, RoutedTo, TableAt;
    var shards := Results(p);
    forall k | 0 <= k < |shards| ensures shards[k] == ShardRun(plan, setup, ms, |ms|, k) {
      assert WorkerSound(plan, setup, ms, p, k);
      var sent := RoutedTo(plan, ms, |ms|, k);
      assert sent[..|sent|] == sent;
    }
  }

  lemma FinishedOutcome<R>(plan: Plan, setup: Setup<R>, ms: seq<Msg>, room: nat, p: Pipeline<R>)
    requires Sensible(plan) && Settled(plan, setup, ms) && Sound(plan, setup, ms, room, p) && Finished(p)
    ensures SameOutcome(plan, RunAll(setup, Start<R>(), ms), Results(p))
  {
    hide RunAll, Sound, Finished, Results, Split, Settled, SameOutcome;
    FinishedRuns(plan, setup, ms, room, p);
    StaysOne(plan, setup, ms, |ms|);
    assert ms[..|ms|] == ms;
    SplitOutcome(plan, RunAll(setup, Start<R>(), ms), TableAt(ms, |ms|), Results(p));
  }

  /** Sharded equals sequential, for every shard function and every schedule, once all
      threads are through. */
  lemma ShardedEqualsSequential<R>(plan: Plan, setup: Setup<R>, ms: seq<Msg>, room: nat, run: seq<Pipeline<R>>)
    requires Sensible(plan) && Settled(plan, setup, ms) && Schedule(plan, setup, ms, room, run)
    requires Finished(run[|run| - 1])
    ensures SameOutcome(plan, RunAll(setup, Start<R>(), ms), Results(run[|run| - 1]))
  {
    hide Sound, Finished, SameOutcome, Settled;
    AlwaysSound(plan, setup, ms, room, run, |run| - 1);
    FinishedOutcome(plan, setup, ms, room, run[|run| - 1]);
  }
}

/** The sharded pipeline can always finish: whatever its threads have done so far, some
    continuation empties the rings and lets every worker leave, unless a ring has no room for
    a single message. */
module PipelineProgress {
  import opened Sequencing
  import opened Sharding
  import opened ShardedPipeline

  /** Steps a worker is away from leaving or from going idle. */
  function Rank(phase: Phase, empty: bool): nat {
    match phase
    case Polling => if empty then 3 else 1
    case SawEmpty => 2
    case SawDone => 1
    case Exited => 0
  }

  function Work<R>(rings: seq<seq<Msg>>, workers: seq<Worker<R>>): nat
    requires |rings| == |workers|
  {
    if rings == [] then 0
    else 4 * |rings[0]| + Rank(workers[0].phase, rings[0] == []) + Work(rings[1..], workers[1..])
  }

  lemma {:induction false} WorkUpdate<R>(rings: seq<seq<Msg>>, workers: seq<Worker<R>>, k: nat, ring: seq<Msg>,
                                         w: Worker<R>)
    requires k < |rings| == |workers|
    ensures Work(rings[k := ring], workers[k := w]) + 4 * |rings[k]| + Rank(workers[k].phase, rings[k] == []) ==
            Work(rings, workers) + 4 * |ring| + Rank(w.phase, ring == [])
  {
    if k == 0 {
      assert rings[0 := ring][1..] == rings[1..] && workers[0 := w][1..] == workers[1..];
    } else {
      assert rings[k := ring][1..] == rings[1..][k - 1 := ring];
      assert workers[k := w][1..] == workers[1..][k - 1 := w];
      WorkUpdate(rings[1..], workers[1..], k - 1, ring, w);
    }
  }

  /** `q` is closer to the end than `p`: more messages pushed, or the router done, or less
      work left. */
  ghost predicate Closer<R>(p: Pipeline<R>, q: Pipeline<R>) {
    && |p.rings| == |p.workers| && |q.rings| == |q.workers|
    && (q.next > p.next ||
        (q.next == p.next && ((q.done && !p.done) || (q.done == p.done && Work(q.rings, q.workers) <
                                                      Work(p.rings, p.workers)))))
  }

  /** A worker with something in its ring, or, once the router is done, any worker that has
      not left. */
  lemma WorkerAdvances<R>(plan: Plan, setup: Setup<R>, ms: seq<Msg>, room: nat, p: Pipeline<R>, k: nat)
    returns (q: Pipeline<R>)
    requires Sound(plan, setup, ms, room, p) && k < plan.shards
    requires p.rings[k] != [] || (p.done && !p.workers[k].phase.Exited?)
    ensures Moves(plan, setup, ms, room, p, q) && Closer(p, q)
  {
    hide Advance, RunAll, RoutedTo, RouterMoves;
    assert WorkerSound(plan, setup, ms, p, k);
    var ring, w := p.rings[k], p.workers[k];
    if !w.phase.SawEmpty? && ring != [] {
      q := Handle(setup, p, k);
    } else {
      q := Turn(p, k, if w.phase.Polling? then SawEmpty else if w.phase.SawDone? then Exited
                      else if p.done then SawDone else Polling);
    }
    WorkUpdate(p.rings, p.workers, k, q.rings[k], q.workers[k]);
    assert p.rings[k := p.rings[k]] == p.rings;
    assert WorkerMoves(setup, p, q, k);
  }

  /** The pipeline is stuck in no state it can reach. */
  lemma Advances<R>(plan: Plan, setup: Setup<R>, ms: seq<Msg>, room: nat, p: Pipeline<R>) returns (q: Pipeline<R>)
    requires Sensible(plan) && Sound(plan, setup, ms, room, p) && !Finished(p) && (room > 0 || p.next == |ms|)
    ensures Moves(plan, setup, ms, room, p, q) && Closer(p, q)
  {
    hide WorkerSound, WorkerMoves;
    if k: nat :| k < plan.shards && (p.rings[k] != [] || (p.done && !p.workers[k].phase.Exited?)) {
      q := WorkerAdvances(plan, setup, ms, room, p, k);
    } else if p.next < |ms| {
      var m := ms[p.next];
      var k := Dest(plan, p.table, m);
      q := p.(next := p.next + 1, table := Retabled(p.table, m), rings := p.rings[k := p.rings[k] + [m]]);
      assert RouterMoves(plan, ms, room, p, q);
    } else {
      q := p.(done := true);
      assert RouterMoves(plan, ms, room, p, q);
    }
  }

  /** A continuation of the state `p`. */
  ghost predicate Continues<R>(plan: Plan, setup: Setup<R>, ms: seq<Msg>, room: nat, p: Pipeline<R>,
                               run: seq<Pipeline<R>>) {
    && run != [] && run[0] == p
    && forall i :: 0 < i < |run| ==> Moves(plan, setup, ms, room, run[i - 1], run[i])
  }

  lemma ContinuesFrom<R>(plan: Plan, setup: Setup<R>, ms: seq<Msg>, room: nat, p: Pipeline<R>, q: Pipeline<R>,
                         run: seq<Pipeline<R>>)
    requires Moves(plan, setup, ms, room, p, q) && Continues(plan, setup, ms, room, q, run)
    ensures Continues(plan, setup, ms, room, p, [p] + run)
  {
    hide Moves;
    var all := [p] + run;
    forall i | 0 < i < |all| ensures Moves(plan, setup, ms, room, all[i - 1], all[i]) {
      assert all[i] == run[i - 1] && all[i - 1] == if i == 1 then p else run[i - 2];
    }
  }

  lemma Within<R>(plan: Plan, setup: Setup<R>, ms: seq<Msg>, room: nat, p: Pipeline<R>)
    requires Sound(plan, setup, ms, room, p)
    ensures p.next <= |ms| && |p.rings| == |p.workers|
  {
  }

  /** From every reachable state the run can be brought to its end. */
  lemma {:induction false} CanFinish<R>(plan: Plan, setup: Setup<R>, ms: seq<Msg>, room: nat, p: Pipeline<R>)
    returns (run: seq<Pipeline<R>>)
    requires Sensible(plan) && Sound(plan, setup, ms, room, p) && (room > 0 || p.next == |ms|)
    ensures Continues(plan, setup, ms, room, p, run) && Finished(run[|run| - 1])
    decreases |ms| - p.next, if p.done then 0 else 1, Work(p.rings, p.workers)
  {
    Within(plan, setup, ms, room, p);
    if Finished(p) {
      run := [p];
    } else {
      hide Finished, Moves, Sound, Work;
      var q := Advances(plan, setup, ms, room, p);
      MoveKeeps(plan, setup, ms, room, p, q);
      Within(plan, setup, ms, room, q);
      var rest := CanFinish(plan, setup, ms, room, q);
      ContinuesFrom(plan, setup, ms, room, p, q, rest);
      run := [p] + rest;
    }
  }

  ghost function StartState<R>(plan: Plan): (p: Pipeline<R>)
    ensures Initial(plan, p)
  {
    Pipeline(0, map[], false, seq(plan.shards, k => []),
             seq(plan.shards, k => Worker(StepResult(Start<R>(), []), Polling)))
  }

  /** Without room the router is stuck before its first message. */
  lemma StuckStep<R>(plan: Plan, setup: Setup<R>, ms: seq<Msg>, p: Pipeline<R>, q: Pipeline<R>)
    requires Moves(plan, setup, ms, 0, p, q) && p.next == 0 && !p.done && ms != []
    ensures q.next == 0 && !q.done
  {
    hide Advance, Dest;
  }

  lemma {:induction false} StuckAtStart<R>(plan: Plan, setup: Setup<R>, ms: seq<Msg>, run: seq<Pipeline<R>>, i: nat)
    requires Schedule(plan, setup, ms, 0, run) && i < |run| && ms != []
    ensures run[i].next == 0 && !run[i].done
  {
    if i > 0 {
      hide Moves;
      StuckAtStart(plan, setup, ms, run, i - 1);
      StuckStep(plan, setup, ms, run[i - 1], run[i]);
    }
  }

  /** Some schedule finishes exactly when a ring holds a message or there is none to send. */
  lemma FinishesExactly<R>(plan: Plan, setup: Setup<R>, ms: seq<Msg>, room: nat)
    requires Sensible(plan)
    ensures (exists run: seq<Pipeline<R>> :: Schedule(plan, setup, ms, room, run) && Finished(run[|run| - 1])) <==>
            room > 0 || ms == []
  {
    hide Sound, Moves, Initial;
    if room > 0 || ms == [] {
      var p: Pipeline<R> := StartState(plan);
      InitialSound(plan, setup, ms, room, p);
      StartsAtZero(plan, p);
      var run := CanFinish(plan, setup, ms, room, p);
      assert Schedule(plan, setup, ms, room, run) && Finished(run[|run| - 1]);
    } else {
      forall run: seq<Pipeline<R>> | Schedule(plan, setup, ms, room, run) ensures !Finished(run[|run| - 1]) {
        StuckAtStart(plan, setup, ms, run, |run| - 1);
      }
    }
  }

  lemma StartsAtZero<R>(plan: Plan, p: Pipeline<R>)
    requires Initial(plan, p)
    ensures p.next == 0
  {
  }
}

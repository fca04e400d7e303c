/** Real engines behind the shards: if one sequencer would only meet fresh ids, so does every
    shard's own, and each worker can be a sequencer object over live engines. */
module ShardedEngines {
  import opened Wire
  import opened MarketData
  import opened Sequencing
  import opened FeedLaws
  import opened FeedTheorems
  import opened FreshIds
  import opened PublicFeed
  import opened Sharding
  import opened ShardedPipeline
  import opened SequencerObject
  import opened Snapshots
  import LevelStore

  /** A shard finds the desk of a message that is sent to it as the sequencer does. */
  lemma FreshInShard<R>(plan: Plan, setup: Setup<R>, all: StepResult<R>, table: map<nat, Bytes>,
                        shards: seq<StepResult<R>>, m: Msg)
    requires Sensible(plan) && Split(plan, all, table, shards) && FreshMsg(setup, all.state, m)
    ensures var k := Dest(plan, table, m); k < |shards| && FreshMsg(setup, shards[k].state, m)
  {
    hide FreshAt, Dest, SumStats, SumEvents, Covered;
    SameTarget(plan, all, table, shards, m);
    assert ShardOf(plan, all, shards[Dest(plan, table, m)], Dest(plan, table, m));
  }

  lemma {:induction false} ShardFresh<R>(plan: Plan, setup: Setup<R>, ms: seq<Msg>, n: nat, k: nat)
    requires Sensible(plan) && Settled(plan, setup, ms) && FreshMsgs(setup, Start<R>(), ms)
    requires n <= |ms| && k < plan.shards
    ensures FreshMsgs(setup, Start<R>(), RoutedTo(plan, ms, n, k))
    decreases n
  {
    hide FreshMsg, Dest, RunAll, Start, Settled, Split;
    if n == 0 {
      NothingFresh(setup, Start<R>());
    } else {
      hide FreshMsgs;
      var m, front := ms[n - 1], RoutedTo(plan, ms, n - 1, k);
      ShardFresh(plan, setup, ms, n - 1, k);
      FreshNext(setup, Start<R>(), ms, n - 1);
      var shards := ShardRuns(plan, setup, ms, n - 1);
      StaysOne(plan, setup, ms, n - 1);
      FreshInShard(plan, setup, RunAll(setup, Start<R>(), ms[..n - 1]), TableAt(ms, n - 1), shards, m);
      FreshSnoc(setup, Start<R>(), front, m);
      assert front + [] == front;
    }
  }

  lemma NothingFresh<R>(setup: Setup<R>, st: State<R>)
    ensures FreshMsgs(setup, st, [])
  {
  }

  lemma OneShard<R>(plan: Plan, setup: Setup<R>, ms: seq<Msg>, n: nat, k: nat)
    requires Sensible(plan) && Settled(plan, setup, ms) && n <= |ms| && k < plan.shards
    ensures ShardOf(plan, RunAll(setup, Start<R>(), ms[..n]), ShardRun(plan, setup, ms, n, k), k)
  {
    hide RunAll, ShardRun, Covered, ShardOf, SumStats, SumEvents;
    var shards := ShardRuns(plan, setup, ms, n);
    StaysOne(plan, setup, ms, n);
    assert ShardOf(plan, RunAll(setup, Start<R>(), ms[..n]), shards[k], k);
  }

  /** One worker with live engines: it ends with the desks, counters and events that the
      pipeline theorem speaks about. */
  method RunShard<R(!new)>(plan: Plan, setup: Setup<R>, ms: seq<Msg>, k: nat)
    returns (sequencer: Sequencer<R>, builder: Builder, events: seq<MDEvent>)
    requires Sensible(plan) && Settled(plan, setup, ms) && FreshMsgs(setup, Start<R>(), ms)
    requires k < plan.shards && setup.capacity <= LevelStore.NIL
    ensures sequencer.Valid()
    ensures StepResult(sequencer.Model(), events) == ShardRun(plan, setup, ms, |ms|, k)
    ensures ShardOf(plan, RunAll(setup, Start<R>(), ms), StepResult(sequencer.Model(), events), k)
  {
    hide FreshMsgs, Settled, Sequencer.Valid, Sequencer.Model, ShardOf, RunAll;
    ShardFresh(plan, setup, ms, |ms|, k);
    var sent := Routing(plan, ms, k);
    OneShard(plan, setup, ms, |ms|, k);
    assert ms[..|ms|] == ms;
    sequencer, builder, events := PublicFeed.Run(setup, sent);
  }

  /** The router's loop, as far as one shard sees it. */
  method Routing(plan: Plan, ms: seq<Msg>, k: nat) returns (sent: seq<Msg>)
    ensures sent == RoutedTo(plan, ms, |ms|, k)
  {
    hide RouteOf, Retabled;
    var router := new Router();
    sent := [];
    var n := 0;
    while n < |ms|
      invariant 0 <= n <= |ms| && fresh(router)
      invariant router.routes == TableAt(ms, n) && sent == RoutedTo(plan, ms, n, k)
    {
      var symbol := router.RouteSymbolFor(ms[n]);
      var shard := match symbol case None => 0 case Some(s) => plan.shardOf(s);
      if shard == k { sent := sent + [ms[n]]; }
      n := n + 1;
    }
  }
}

/** A stream that brings in an id which lives in another shard: no schedule ends as one sequencer. */
module ReuseExample {
  import opened Orders
  import opened PriorityBook
  import opened Wire
  import opened MarketData
  import opened Sequencing
  import opened Sharding
  import opened ShardedPipeline

  const FIRST: RawSymbol := [65, 32, 32, 32, 32, 32, 32, 32]
  const SECOND: RawSymbol := [66, 32, 32, 32, 32, 32, 32, 32]

  function ByLetter(s: Bytes): nat {
    if s == [66] then 1 else 0
  }

  const PLAN := Plan(2, ByLetter)

  function Lenient(): Setup<bool> {
    Setup(128, 200, RiskPolicy(true, (r, req, mpid, quote) => true, (r, mpid, side) => r, (r, mpid, side) => r,
                               (r, price) => r))
  }

  /** Order 5 is added for one symbol, added again for another, deleted, and cancelled. */
  function Stream(): seq<Msg> {
    [AddOrder(0, 5, 66, 10, FIRST, 100, []), AddOrder(0, 5, 66, 10, SECOND, 100, []), OrderDelete(0, 5),
     OrderCancel(0, 5, 1)]
  }

  lemma Symbols()
    ensures TrimSpaces(FIRST) == [65] && TrimSpaces(SECOND) == [66]
  {
    TrimUnique(FIRST, [65]);
    TrimUnique(SECOND, [66]);
  }

  /** The first order at a desk is accepted and routed. */
  lemma FirstAdd(st: State<bool>, m: Msg)
    requires m.AddOrder? && m.shares == 10 && TrimSpaces(m.stock) !in st.desks
    ensures var t := Step(Lenient(), st, m).state;
            && t.routes == st.routes[m.id := OrderInfo(TrimSpaces(m.stock), SideOf(m.indicator), m.mpid)]
            && t.stats.cancels == st.stats.cancels
            && (forall s :: s in t.desks <==> s in st.desks || s == TrimSpaces(m.stock))
  {
    hide TrimSpaces;
    var setup := Lenient();
    var side := SideOf(m.indicator);
    var e := NewEngine(128, 200);
    var req := OrderRequest(m.id, side, Limit, m.price, m.shares);
    assert Arrive(e.book, req) == Arrival(EMPTY_BOOK, [], 10);
    assert AddBounded(e, req).fault == None;
    var d := DeskOf(setup, st.desks, TrimSpaces(m.stock));
    assert d == Desk(e, true);
    assert OnDesk(setup, d, OrderInfo(TrimSpaces(m.stock), side, m.mpid), m).route == Some(m.id);
  }

  lemma DeleteStep(st: State<bool>, m: Msg)
    requires m.OrderDelete? && m.id in st.routes
    ensures var t := Step(Lenient(), st, m).state; t.routes == st.routes - {m.id} && t.stats.cancels == st.stats.cancels
  {
    hide ReduceBounded;
  }

  lemma CancelStep(st: State<bool>, m: Msg)
    requires m.OrderCancel?
    ensures Step(Lenient(), st, m).state.stats.cancels == st.stats.cancels + if m.id in st.routes then 1 else 0
  {
    hide ReduceBounded;
  }

  lemma RunFour(setup: Setup<bool>, st: State<bool>, a: Msg, b: Msg, c: Msg, d: Msg)
    ensures RunAll(setup, st, [a, b, c, d]).state ==
            Step(setup, Step(setup, Step(setup, Step(setup, st, a).state, b).state, c).state, d).state
    ensures RunAll(setup, st, [a, d]).state == Step(setup, Step(setup, st, a).state, d).state
  {
    hide Step;
    RunSnoc(setup, st, [], a);
    RunSnoc(setup, st, [a], b);
    RunSnoc(setup, st, [a, b], c);
    RunSnoc(setup, st, [a, b, c], d);
    RunSnoc(setup, st, [a], d);
    assert [] + [a] == [a] && [a] + [b] == [a, b] && [a, b] + [c] == [a, b, c] && [a, b, c] + [d] == [a, b, c, d];
    assert [a] + [d] == [a, d];
  }

  /** Where the router sends the four messages. */
  lemma Routing(a: Msg, b: Msg, c: Msg, d: Msg)
    requires a.AddOrder? && b.AddOrder? && c.OrderDelete? && d.OrderCancel? && a.id == b.id == c.id == d.id
    requires TrimSpaces(a.stock) == [65] && TrimSpaces(b.stock) == [66]
    ensures RoutedTo(PLAN, [a, b, c, d], 4, 0) == [a, d]
    ensures TableAt([a, b, c, d], 1) == map[a.id := [65]]
  {
    hide TrimSpaces;
    var ms := [a, b, c, d];
    assert TableAt(ms, 0) == map[];
    assert TableAt(ms, 1) == map[a.id := [65]];
    assert TableAt(ms, 2) == map[a.id := [66]];
    assert TableAt(ms, 3) == map[];
    assert RoutedTo(PLAN, ms, 1, 0) == [a];
    assert RoutedTo(PLAN, ms, 2, 0) == [a];
    assert RoutedTo(PLAN, ms, 3, 0) == [a];
  }

  /** The second Add brings in an id that the sequencer routes in the other shard. */
  lemma SecondMigrates(a: Msg, b: Msg, c: Msg, d: Msg)
    requires a.AddOrder? && b.AddOrder? && a.id == b.id && a.shares == 10
    requires TrimSpaces(a.stock) == [65] && TrimSpaces(b.stock) == [66]
    requires TableAt([a, b, c, d], 1) == map[a.id := [65]]
    ensures !Settled(PLAN, Lenient(), [a, b, c, d])
  {
    hide TrimSpaces, Step, RunAll, TableAt;
    var ms := [a, b, c, d];
    FirstAdd(Start(), a);
    ShardRunStart(PLAN, Lenient(), ms, 0);
    SoloNext(Lenient(), ms, 0);
    assert MigratesAt(PLAN, Lenient(), ms, 1);
  }

  /** One sequencer counts no cancel; shard 0 still routes the stale id and counts one. */
  lemma ReuseAcrossShardsDiffers()
    ensures !Settled(PLAN, Lenient(), Stream())
    ensures RunAll(Lenient(), Start(), Stream()).state.stats.cancels == 0
    ensures RunAll(Lenient(), Start(), RoutedTo(PLAN, Stream(), 4, 0)).state.stats.cancels == 1
  {
    hide TrimSpaces, Step, RunAll, RoutedTo, TableAt, Settled;
    Symbols();
    var a, b := AddOrder(0, 5, 66, 10, FIRST, 100, []), AddOrder(0, 5, 66, 10, SECOND, 100, []);
    var c, d := OrderDelete(0, 5), OrderCancel(0, 5, 1);
    Routing(a, b, c, d);
    SecondMigrates(a, b, c, d);
    RunFour(Lenient(), Start(), a, b, c, d);
    var s0: State<bool> := Start();
    FirstAdd(s0, a);
    var s1 := Step(Lenient(), s0, a).state;
    FirstAdd(s1, b);
    var s2 := Step(Lenient(), s1, b).state;
    DeleteStep(s2, c);
    CancelStep(Step(Lenient(), s2, c).state, d);
    CancelStep(s1, d);
  }

  lemma {:induction false} SumCancels(shards: seq<StepResult<bool>>, k: nat)
    requires k < |shards|
    ensures SumStats(shards).cancels >= shards[k].state.stats.cancels
  {
    if k > 0 { SumCancels(shards[1..], k - 1); }
  }

  /** However the threads are scheduled, the sharded run of this stream ends differently from
      the sequential one. */
  lemma ReuseBreaksPipeline(room: nat, run: seq<Pipeline<bool>>)
    requires Schedule(PLAN, Lenient(), Stream(), room, run) && Finished(run[|run| - 1])
    ensures !SameOutcome(PLAN, RunAll(Lenient(), Start(), Stream()), Results(run[|run| - 1]))
  {
    hide Moves, Initial;
    var p := run[|run| - 1];
    hide RunAll, RoutedTo, Schedule, Sound, Finished, SumStats;
    AlwaysSound(PLAN, Lenient(), Stream(), room, run, |run| - 1);
    FinishedRuns(PLAN, Lenient(), Stream(), room, p);
    ReuseAcrossShardsDiffers();
    SumCancels(Results(p), 0);
  }
}

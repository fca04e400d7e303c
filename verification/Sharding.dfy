/** The symbol-sharded pipeline (cpp/feed/tests/test_concurrent_sharded_pipeline.cpp): a router
    sends each message to the ring of its symbol's shard, and one worker per shard runs its
    own sequencer. Whatever the threads' schedule, the result is that of one sequencer. */
module Sharding {
  import opened Orders
  import opened Wire
  import opened MarketData
  import opened Sequencing

  /** Any shard function will do. */
  datatype Plan = Plan(shards: nat, shardOf: Bytes -> nat)

  ghost predicate Sensible(plan: Plan) {
    plan.shards > 0 && forall s :: plan.shardOf(s) < plan.shards
  }

  // ---------- the router ----------

  /** The symbol the router's own table gives a message. */
  function RouteOf(table: map<nat, Bytes>, m: Msg): Option<Bytes> {
    match m
    case AddOrder(_, _, _, _, stock, _, _) => Some(TrimSpaces(stock))
    case OrderCancel(_, id, _) => if id in table then Some(table[id]) else None
    case OrderDelete(_, id) => if id in table then Some(table[id]) else None
    case OrderExecuted(_, id, _) => if id in table then Some(table[id]) else None
    case OrderExecutedWithPrice(_, id, _, _, _) => if id in table then Some(table[id]) else None
    case OrderReplace(_, original, _, _, _) => if original in table then Some(table[original]) else None
    case OtherMessage => None
  }

  /** The table afterwards. */
  function Retabled(table: map<nat, Bytes>, m: Msg): map<nat, Bytes> {
    match m
    case AddOrder(_, id, _, _, stock, _, _) => table[id := TrimSpaces(stock)]
    case OrderDelete(_, id) => table - {id}
    case OrderReplace(_, original, id, _, _) =>
      if original in table then (table - {original})[id := table[original]] else table
    case _ => table
  }

  class Router {
    var routes: map<nat, Bytes>

    constructor ()
      ensures routes == map[]
    {
      routes := map[];
    }

    method RouteSymbolFor(m: Msg) returns (symbol: Option<Bytes>)
      modifies this
      ensures symbol == RouteOf(old(routes), m) && routes == Retabled(old(routes), m)
    {
      symbol := None;
      match m {
        case AddOrder(_, id, _, _, stock, _, _) =>
          symbol := Some(TrimSpaces(stock));
          routes := routes[id := symbol.value];
        case OrderDelete(_, id) =>
          if id !in routes {
            assert routes - {id} == routes;
            return;
          }
          symbol := Some(routes[id]);
          routes := routes - {id};
        case OrderReplace(_, original, id, _, _) =>
          if original !in routes { return; }
          symbol := Some(routes[original]);
          routes := routes - {original};
          routes := routes[id := symbol.value];
        case OtherMessage =>
        case _ =>
          if m.id in routes { symbol := Some(routes[m.id]); }
      }
    }
  }

  /** Messages without a symbol go to shard 0. */
  function Dest(plan: Plan, table: map<nat, Bytes>, m: Msg): nat {
    match RouteOf(table, m)
    case None => 0
    case Some(symbol) => plan.shardOf(symbol)
  }

  /** Two tables agree on every id but, perhaps, the given ones. */
  ghost predicate SameBut(table: map<nat, Bytes>, next: map<nat, Bytes>, ids: set<nat>) {
    forall x :: x !in ids ==> (x in next <==> x in table) && (x in table ==> next[x] == table[x])
  }

  /** The router learns an id from the order that brings it in, moves it to the replacement,
      forgets it with its deletion, and learns nothing else. */
  lemma RouterLearns(table: map<nat, Bytes>, m: Msg)
    ensures var next := Retabled(table, m);
            match m
            case AddOrder(_, id, _, _, stock, _, _) =>
              SameBut(table, next, {id}) && id in next && next[id] == TrimSpaces(stock)
            case OrderDelete(_, id) => SameBut(table, next, {id}) && id !in next
            case OrderReplace(_, original, id, _, _) =>
              if original !in table then SameBut(table, next, {})
              else && SameBut(table, next, {original, id}) && id in next && next[id] == table[original]
                   && (original != id ==> original !in next)
            case _ => SameBut(table, next, {})
  {
  }

  /** A message goes to the shard of the symbol it names, or of the symbol its id was learnt
      with; one that has neither goes to shard 0. */
  lemma RouterSends(plan: Plan, table: map<nat, Bytes>, m: Msg)
    ensures var k := Dest(plan, table, m);
            match m
            case AddOrder(_, _, _, _, stock, _, _) => k == plan.shardOf(TrimSpaces(stock))
            case OrderReplace(_, original, _, _, _) =>
              k == if original in table then plan.shardOf(table[original]) else 0
            case OtherMessage => k == 0
            case _ => k == if m.id in table then plan.shardOf(table[m.id]) else 0
  {
  }

  // ---------- one sequencer against many ----------

  function SumStats<R>(shards: seq<StepResult<R>>): Stats {
    if shards == [] then ZERO else Plus(shards[0].state.stats, SumStats(shards[1..]))
  }

  function SumEvents<R>(shards: seq<StepResult<R>>): nat {
    if shards == [] then 0 else |shards[0].events| + SumEvents(shards[1..])
  }

  lemma PlusZero(d: Stats)
    ensures Plus(d, ZERO) == d
  {
  }

  lemma {:induction false} SumsUpdate<R>(shards: seq<StepResult<R>>, k: nat, t: StepResult<R>, d: Stats,
                                         es: seq<MDEvent>)
    requires k < |shards| && t.state.stats == Plus(shards[k].state.stats, d) && t.events == shards[k].events + es
    ensures SumStats(shards[k := t]) == Plus(SumStats(shards), d)
    ensures SumEvents(shards[k := t]) == SumEvents(shards) + |es|
  {
    var u := shards[k := t];
    if k == 0 {
      assert u[1..] == shards[1..];
    } else {
      assert u[1..] == shards[1..][k - 1 := t];
      SumsUpdate(shards[1..], k - 1, t, d, es);
    }
  }

  /** Events about symbols of shard `k`, in order. */
  function EventsOf(plan: Plan, events: seq<MDEvent>, k: nat): seq<MDEvent> {
    if events == [] then []
    else (if plan.shardOf(TrimSpaces(events[0].symbol)) == k then [events[0]] else []) + EventsOf(plan, events[1..], k)
  }

  lemma {:induction false} EventsOfConcat(plan: Plan, a: seq<MDEvent>, b: seq<MDEvent>, k: nat)
    ensures EventsOf(plan, a + b, k) == EventsOf(plan, a, k) + EventsOf(plan, b, k)
  {
    if a == [] {
      assert a + b == b;
    } else {
      assert (a + b)[1..] == a[1..] + b;
      EventsOfConcat(plan, a[1..], b, k);
    }
  }

  lemma {:induction false} EventsOfOne(plan: Plan, symbol: Bytes, es: seq<MDEvent>, k: nat)
    requires forall i :: 0 <= i < |es| ==> TrimSpaces(es[i].symbol) == symbol
    ensures EventsOf(plan, es, k) == if plan.shardOf(symbol) == k then es else []
  {
    if es != [] { EventsOfOne(plan, symbol, es[1..], k); }
  }

  /** Shard `k` holds exactly the sequencer's routes and desks for its own symbols. */
  ghost predicate ShardOf<R>(plan: Plan, all: StepResult<R>, shard: StepResult<R>, k: nat) {
    && OwnRoutes(plan, all.state.routes, shard.state.routes, k)
    && OwnDesks(plan, all.state.desks, shard.state.desks, k)
    && shard.events == EventsOf(plan, all.events, k)
  }

  /** The router's table covers every route of the sequencer. */
  ghost predicate Covered<R>(plan: Plan, all: StepResult<R>, table: map<nat, Bytes>) {
    forall id :: id in all.state.routes ==>
      id in table && plan.shardOf(table[id]) == plan.shardOf(all.state.routes[id].symbol)
  }

  ghost predicate Split<R>(plan: Plan, all: StepResult<R>, table: map<nat, Bytes>, shards: seq<StepResult<R>>) {
    && |shards| == plan.shards
    && Covered(plan, all, table)
    && (forall id :: id in all.state.routes ==> IsSymbol(all.state.routes[id].symbol))
    && (forall k :: 0 <= k < |shards| ==> ShardOf(plan, all, shards[k], k))
    && all.state.stats == SumStats(shards) && |all.events| == SumEvents(shards)
  }

  /** One more message on a sequencer that has published. */
  function Advance<R>(setup: Setup<R>, r: StepResult<R>, m: Msg): StepResult<R> {
    var s := Step(setup, r.state, m);
    StepResult(s.state, r.events + s.events)
  }

  /** The message brings in an id that the sequencer still routes in another shard. */
  predicate Migrates<R>(plan: Plan, all: StepResult<R>, table: map<nat, Bytes>, m: Msg) {
    RouteOf(table, m).Some? &&
    match Issued(m)
    case None => false
    case Some(id) =>
      id in all.state.routes && plan.shardOf(all.state.routes[id].symbol) != Dest(plan, table, m)
  }

  /** The shard's sequencer and the single one find the same order information. */
  lemma SameTarget<R>(plan: Plan, all: StepResult<R>, table: map<nat, Bytes>, shards: seq<StepResult<R>>, m: Msg)
    requires Sensible(plan) && Split(plan, all, table, shards)
    ensures var k := Dest(plan, table, m);
            var target := Target(all.state.routes, m);
            && k < |shards| && Target(shards[k].state.routes, m) == target
            && (target.Some? ==> plan.shardOf(target.value.symbol) == k && IsSymbol(target.value.symbol))
  {
    if m.AddOrder? {
      TrimThenPad(m.stock);
    } else {
      var k := Dest(plan, table, m);
      assert ShardOf(plan, all, shards[k], k);
    }
  }

  ghost predicate About(events: seq<MDEvent>, symbol: Bytes) {
    forall i :: 0 <= i < |events| ==> events[i].symbol == SymbolPad(symbol)
  }

  lemma AboutBoth(a: seq<MDEvent>, b: seq<MDEvent>, symbol: Bytes)
    requires About(a, symbol) && About(b, symbol)
    ensures About(a + b, symbol)
  {
  }

  lemma {:induction false} TapeAbout(ts: nat, side: Side, symbol: Bytes, trades: seq<Trade>)
    ensures About(TradeEvents(ts, side, symbol, trades), symbol)
  {
    if trades != [] {
      var t := trades[0];
      TapeAbout(ts, side, symbol, trades[1..]);
      AboutBoth([MDEvent(TRADE, side, ts, t.makerId, t.takerId, SymbolPad(symbol), t.price, t.qty)],
                TradeEvents(ts, side, symbol, trades[1..]), symbol);
    }
  }

  /** A message routes or unroutes only the ids it names and publishes only about its symbol. */
  lemma TouchesOnly<R>(setup: Setup<R>, desk: Desk<R>, info: OrderInfo, m: Msg)
    ensures var l := OnDesk(setup, desk, info, m);
            (forall id :: id in l.drop || l.route == Some(id) ==> Touches(m, id)) && About(l.events, info.symbol)
  {
    hide Enter, SymbolPad, RestingQty;
    NamedOnly(setup, desk, info, m);
    hide Touches;
    match m {
      case AddOrder(ts, _, _, _, _, _, _) =>
        var tape := TradeEvents(ts, info.side, info.symbol,
                                Enter(setup, desk, AddRequest(m, info.side), info.mpid).trades);
        TapeAbout(ts, info.side, info.symbol, Enter(setup, desk, AddRequest(m, info.side), info.mpid).trades);
        var es := AddLocal(setup, desk, info, m).events;
        if es != [] { AboutBoth(es[..|es| - |tape|], tape, info.symbol); }
      case OrderReplace(ts, _, _, _, _) =>
        var e := Enter(setup, Cleared(setup, desk, info, m), AddRequest(m, info.side), info.mpid);
        TapeAbout(ts, info.side, info.symbol, e.trades);
        var es := ReplaceOutcome(info, m, e).events;
        if es != [] { AboutBoth(es[..1], es[1..], info.symbol); }
      case _ =>
    }
  }

  /** A touched id is routed in the message's own shard, if at all. */
  lemma TouchedHere<R>(plan: Plan, all: StepResult<R>, table: map<nat, Bytes>, m: Msg, id: nat)
    requires Covered(plan, all, table) && !Migrates(plan, all, table, m) && Target(all.state.routes, m).Some?
    requires Touches(m, id) && id in all.state.routes
    ensures plan.shardOf(all.state.routes[id].symbol) == Dest(plan, table, m)
  {
  }

  lemma CoveredStep<R>(plan: Plan, setup: Setup<R>, all: StepResult<R>, table: map<nat, Bytes>, m: Msg)
    requires Covered(plan, all, table) && !Migrates(plan, all, table, m)
    ensures Covered(plan, Advance(setup, all, m), Retabled(table, m))
  {
    hide Enter, TrimSpaces;
    match Target(all.state.routes, m) {
      case None =>
      case Some(info) =>
        TouchesOnly(setup, DeskOf(setup, all.state.desks, info.symbol), info, m);
    }
  }

  /** What a message publishes is about symbols of its own shard. */
  lemma EventsStep<R>(plan: Plan, setup: Setup<R>, all: StepResult<R>, table: map<nat, Bytes>,
                      shards: seq<StepResult<R>>, m: Msg, j: nat)
    requires Sensible(plan) && Split(plan, all, table, shards)
    ensures EventsOf(plan, Advance(setup, all, m).events, j) ==
            EventsOf(plan, all.events, j) +
            (if j == Dest(plan, table, m) then Step(setup, all.state, m).events else [])
  {
    hide OnDesk, EventsOf, TrimSpaces, SymbolPad, Touches, ShardOf;
    SameTarget(plan, all, table, shards, m);
    match Target(all.state.routes, m) {
      case None =>
        EventsOfConcat(plan, all.events, [], j);
        EventsOfOne(plan, [], [], j);
      case Some(info) =>
        var l := OnDesk(setup, DeskOf(setup, all.state.desks, info.symbol), info, m);
        TouchesOnly(setup, DeskOf(setup, all.state.desks, info.symbol), info, m);
        PadThenTrim(info.symbol);
        EventsOfOne(plan, info.symbol, l.events, j);
        EventsOfConcat(plan, all.events, l.events, j);
    }
  }

  /** What one message does to routes and desks, as far as the other shards are concerned:
      only ids and symbols of its own shard change. */
  ghost predicate Contained<R>(plan: Plan, st: State<R>, t: State<R>, k: nat) {
    && (forall id :: id in st.routes && plan.shardOf(st.routes[id].symbol) != k ==>
          id in t.routes && t.routes[id] == st.routes[id])
    && (forall id :: id in t.routes && plan.shardOf(t.routes[id].symbol) != k ==>
          id in st.routes && t.routes[id] == st.routes[id])
    && (forall s :: plan.shardOf(s) != k ==> (s in st.desks <==> s in t.desks))
    && (forall s :: plan.shardOf(s) != k && s in st.desks ==> t.desks[s] == st.desks[s])
  }

  lemma StepContained<R>(plan: Plan, setup: Setup<R>, all: StepResult<R>, table: map<nat, Bytes>,
                         shards: seq<StepResult<R>>, m: Msg)
    requires Sensible(plan) && Split(plan, all, table, shards) && !Migrates(plan, all, table, m)
    ensures Contained(plan, all.state, Step(setup, all.state, m).state, Dest(plan, table, m))
  {
    hide OnDesk, TrimSpaces, SymbolPad, Touches, ShardOf, Dest, Target;
    SameTarget(plan, all, table, shards, m);
    match Target(all.state.routes, m) {
      case None =>
      case Some(info) =>
        TouchesOnly(setup, DeskOf(setup, all.state.desks, info.symbol), info, m);
        forall id | Touches(m, id) && id in all.state.routes
          ensures plan.shardOf(all.state.routes[id].symbol) == Dest(plan, table, m) {
          TouchedHere(plan, all, table, m, id);
        }
    }
  }

  lemma OthersRoutes<R>(plan: Plan, st: State<R>, t: State<R>, mine: map<nat, OrderInfo>, k: nat, j: nat)
    requires Contained(plan, st, t, k) && j != k && OwnRoutes(plan, st.routes, mine, j)
    ensures OwnRoutes(plan, t.routes, mine, j)
  {
  }

  lemma OthersDesks<R>(plan: Plan, st: State<R>, t: State<R>, mine: map<Bytes, Desk<R>>, k: nat, j: nat)
    requires Contained(plan, st, t, k) && j != k && OwnDesks(plan, st.desks, mine, j)
    ensures OwnDesks(plan, t.desks, mine, j)
  {
  }

  /** Every other shard is as before, and still holds what is its own. */
  lemma OtherShardStep<R>(plan: Plan, setup: Setup<R>, all: StepResult<R>, table: map<nat, Bytes>,
                          shards: seq<StepResult<R>>, m: Msg, j: nat)
    requires Sensible(plan) && Split(plan, all, table, shards) && !Migrates(plan, all, table, m)
    requires j < |shards| && j != Dest(plan, table, m)
    ensures ShardOf(plan, Advance(setup, all, m), shards[j], j)
  {
    EventsStep(plan, setup, all, table, shards, m, j);
    StepContained(plan, setup, all, table, shards, m);
    assert ShardOf(plan, all, shards[j], j);
    hide Step, EventsOf, Dest, Split, Migrates, OwnRoutes, OwnDesks, Contained;
    var t := Step(setup, all.state, m).state;
    OthersRoutes(plan, all.state, t, shards[j].state.routes, Dest(plan, table, m), j);
    OthersDesks(plan, all.state, t, shards[j].state.desks, Dest(plan, table, m), j);
  }

  ghost predicate OwnRoutes(plan: Plan, all: map<nat, OrderInfo>, mine: map<nat, OrderInfo>, k: nat) {
    && (forall id :: id in mine <==> id in all && plan.shardOf(all[id].symbol) == k)
    && (forall id :: id in mine ==> mine[id] == all[id])
  }

  lemma OwnReroute(plan: Plan, all: map<nat, OrderInfo>, mine: map<nat, OrderInfo>, k: nat,
                   drop: set<nat>, route: Option<nat>, info: OrderInfo)
    requires OwnRoutes(plan, all, mine, k) && plan.shardOf(info.symbol) == k
    requires forall id :: id in all && id in drop ==> plan.shardOf(all[id].symbol) == k
    ensures OwnRoutes(plan, Reroute(all, drop, route, info), Reroute(mine, drop, route, info), k)
  {
  }

  ghost predicate OwnDesks<R>(plan: Plan, all: map<Bytes, Desk<R>>, mine: map<Bytes, Desk<R>>, k: nat) {
    && (forall s :: s in mine <==> s in all && plan.shardOf(s) == k)
    && (forall s :: s in mine ==> mine[s] == all[s])
  }

  lemma OwnDeskPut<R>(plan: Plan, all: map<Bytes, Desk<R>>, mine: map<Bytes, Desk<R>>, k: nat, symbol: Bytes,
                      desk: Desk<R>)
    requires OwnDesks(plan, all, mine, k) && plan.shardOf(symbol) == k
    ensures OwnDesks(plan, all[symbol := desk], mine[symbol := desk], k)
    ensures symbol in all <==> symbol in mine
    ensures symbol in all ==> all[symbol] == mine[symbol]
  {
  }

  /** The shard that takes the message keeps holding what is its own. */
  lemma OwnShardStep<R>(plan: Plan, setup: Setup<R>, all: StepResult<R>, table: map<nat, Bytes>,
                        shards: seq<StepResult<R>>, m: Msg)
    requires Sensible(plan) && Split(plan, all, table, shards) && !Migrates(plan, all, table, m)
    ensures var k := Dest(plan, table, m);
            k < |shards| && ShardOf(plan, Advance(setup, all, m), Advance(setup, shards[k], m), k)
  {
    hide OnDesk, EventsOf, TrimSpaces, SymbolPad, Touches, Dest, Target, Missed, Plus;
    var k := Dest(plan, table, m);
    SameTarget(plan, all, table, shards, m);
    EventsStep(plan, setup, all, table, shards, m, k);
    assert ShardOf(plan, all, shards[k], k);
    match Target(all.state.routes, m) {
      case None =>
      case Some(info) =>
        TouchesOnly(setup, DeskOf(setup, all.state.desks, info.symbol), info, m);
        forall id | Touches(m, id) && id in all.state.routes
          ensures plan.shardOf(all.state.routes[id].symbol) == k {
          TouchedHere(plan, all, table, m, id);
        }
        var l := OnDesk(setup, DeskOf(setup, all.state.desks, info.symbol), info, m);
        OwnReroute(plan, all.state.routes, shards[k].state.routes, k, l.drop, l.route, info);
        OwnDeskPut(plan, all.state.desks, shards[k].state.desks, k, info.symbol, l.desk);
        hide OwnRoutes, OwnDesks, Reroute;
    }
  }

  lemma SumsStep<R>(plan: Plan, setup: Setup<R>, all: StepResult<R>, table: map<nat, Bytes>,
                    shards: seq<StepResult<R>>, m: Msg)
    requires Sensible(plan) && Split(plan, all, table, shards)
    ensures var k := Dest(plan, table, m);
            var after := Advance(setup, all, m);
            && k < |shards|
            && after.state.stats == SumStats(shards[k := Advance(setup, shards[k], m)])
            && |after.events| == SumEvents(shards[k := Advance(setup, shards[k], m)])
  {
    hide OnDesk, EventsOf, TrimSpaces, Plus, Missed;
    var k := Dest(plan, table, m);
    SameTarget(plan, all, table, shards, m);
    assert ShardOf(plan, all, shards[k], k);
    var t := Advance(setup, shards[k], m);
    match Target(all.state.routes, m) {
      case None =>
        SumsUpdate(shards, k, t, Missed(m), []);
      case Some(info) =>
        var l := OnDesk(setup, DeskOf(setup, all.state.desks, info.symbol), info, m);
        SumsUpdate(shards, k, t, l.stats, l.events);
    }
  }

  /** One message, once at the sequencer and once at its shard: together the shards stay the
      sequencer exactly unless the message brings in an id that lives in another shard. */
  lemma SplitStep<R>(plan: Plan, setup: Setup<R>, all: StepResult<R>, table: map<nat, Bytes>,
                     shards: seq<StepResult<R>>, m: Msg)
    requires Sensible(plan) && Split(plan, all, table, shards)
    ensures var k := Dest(plan, table, m);
            && k < |shards|
            && (Split(plan, Advance(setup, all, m), Retabled(table, m), shards[k := Advance(setup, shards[k], m)])
                <==> !Migrates(plan, all, table, m))
  {
    hide Advance, Dest, Split, Migrates, Retabled;
    SameTarget(plan, all, table, shards, m);
    if Migrates(plan, all, table, m) {
      MigrantSplits(plan, setup, all, table, shards, m);
    } else {
      StaysSplit(plan, setup, all, table, shards, m);
    }
  }

  lemma StaysSplit<R>(plan: Plan, setup: Setup<R>, all: StepResult<R>, table: map<nat, Bytes>,
                      shards: seq<StepResult<R>>, m: Msg)
    requires Sensible(plan) && Split(plan, all, table, shards) && !Migrates(plan, all, table, m)
    ensures var k := Dest(plan, table, m);
            && k < |shards|
            && Split(plan, Advance(setup, all, m), Retabled(table, m), shards[k := Advance(setup, shards[k], m)])
  {
    hide Advance, Dest, ShardOf, Covered, Migrates, Retabled;
    SumsStep(plan, setup, all, table, shards, m);
    CoveredStep(plan, setup, all, table, m);
    OwnShardStep(plan, setup, all, table, shards, m);
    SymbolsStep(setup, all, m);
    forall j | 0 <= j < |shards| && j != Dest(plan, table, m)
      ensures ShardOf(plan, Advance(setup, all, m), shards[j], j) {
      OtherShardStep(plan, setup, all, table, shards, m, j);
    }
  }

  /** The old shard still routes a migrant, but the router now sends it elsewhere. */
  lemma MigrantSplits<R>(plan: Plan, setup: Setup<R>, all: StepResult<R>, table: map<nat, Bytes>,
                         shards: seq<StepResult<R>>, m: Msg)
    requires Sensible(plan) && Split(plan, all, table, shards) && Migrates(plan, all, table, m)
    requires Dest(plan, table, m) < |shards|
    ensures var k := Dest(plan, table, m);
            !Split(plan, Advance(setup, all, m), Retabled(table, m), shards[k := Advance(setup, shards[k], m)])
  {
    hide Advance, SumStats, SumEvents, EventsOf, OwnDesks, TrimSpaces, IsSymbol;
    var id, k := Issued(m).value, Dest(plan, table, m);
    var home := plan.shardOf(all.state.routes[id].symbol);
    assert ShardOf(plan, all, shards[home], home);
    assert plan.shardOf(Retabled(table, m)[id]) == k;
    assert shards[k := Advance(setup, shards[k], m)][home] == shards[home];
  }

  lemma SymbolsStep<R>(setup: Setup<R>, all: StepResult<R>, m: Msg)
    requires forall id :: id in all.state.routes ==> IsSymbol(all.state.routes[id].symbol)
    ensures var after := Advance(setup, all, m);
            forall id :: id in after.state.routes ==> IsSymbol(after.state.routes[id].symbol)
  {
    hide OnDesk, IsSymbol;
    if m.AddOrder? { TrimThenPad(m.stock); }
  }
}

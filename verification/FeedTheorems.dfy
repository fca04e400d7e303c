/** Whole-run results about the sequencer: routability of every resting order, and the
    public feed determining the books. */
module FeedTheorems {
  import opened Orders
  import opened PriorityBook
  import opened PriorityLaws
  import opened EngineLaws
  import opened MarketData
  import opened Wire
  import opened Snapshots
  import opened Sequencing
  import opened FeedLaws
  import opened Silence

  function BookAt<R>(setup: Setup<R>, st: State<R>, symbol: Bytes): Book {
    DeskOf(setup, st.desks, symbol).engine.book
  }

  /** The id a message brings in does not rest at the desk the message goes to. */
  predicate FreshMsg<R>(setup: Setup<R>, st: State<R>, m: Msg) {
    match Target(st.routes, m)
    case None => true
    case Some(info) => FreshAt(BookAt(setup, st, info.symbol), m)
  }

  predicate FreshMsgs<R>(setup: Setup<R>, st: State<R>, ms: seq<Msg>)
    decreases ms
  {
    ms == [] || (FreshMsg(setup, st, ms[0]) && FreshMsgs(setup, Step(setup, st, ms[0]).state, ms[1..]))
  }

  /** What every desk keeps: a sound engine whose orders all have positive quantity. */
  ghost predicate Orderly<R>(desk: Desk<R>) {
    Sound(desk.engine) && Tidy(desk.engine.book)
  }

  ghost predicate Kept<R>(setup: Setup<R>, st: State<R>) {
    && (forall symbol :: Orderly(DeskOf(setup, st.desks, symbol)))
    && (forall id :: id in st.routes ==> IsSymbol(st.routes[id].symbol))
  }

  lemma StartKept<R>(setup: Setup<R>)
    ensures Kept(setup, Start<R>()) && Routable(setup, Start<R>())
  {
    NewIsSound(setup.capacity, setup.initialWindow);
    forall symbol ensures Orderly(DeskOf(setup, Start<R>().desks, symbol)) { }
  }

  lemma TargetSymbol(routes: map<nat, OrderInfo>, m: Msg)
    requires forall id :: id in routes ==> IsSymbol(routes[id].symbol)
    ensures Target(routes, m).Some? ==> IsSymbol(Target(routes, m).value.symbol)
  {
    if m.AddOrder? { TrimThenPad(m.stock); }
  }

  lemma {:induction false} LessTradesSide(o: Option<RestingOrder>, trades: seq<Trade>, id: nat)
    ensures LessTrades(o, trades, id).Some? ==> o.Some? && LessTrades(o, trades, id).value.side == o.value.side
    decreases trades
  {
    if trades != [] { LessTradesSide(if trades[0].makerId == id then Less(o, trades[0].qty) else o, trades[1..], id); }
  }

  /** Where an order resting after the message comes from. */
  lemma LocalOrigin<R>(setup: Setup<R>, desk: Desk<R>, info: OrderInfo, m: Msg, id: nat)
    requires Tidy(desk.engine.book) && FreshAt(desk.engine.book, m)
    ensures var l := OnDesk(setup, desk, info, m);
            var o, o' := OrderOf(desk.engine.book, id), OrderOf(l.desk.engine.book, id);
            && Tidy(l.desk.engine.book)
            && (o'.Some? ==>
                  || (l.route == Some(id) && o'.value.side == info.side)
                  || (id !in l.drop && l.route != Some(id) && o.Some? && o.value.side == o'.value.side))
  {
    hide Tidy, AddBounded, Sweep, OrderOf, TrimBook, RestingQty, Rests;
    match m {
      case AddOrder(_, _, _, _, _, _, _) =>
        EnterOrigin(setup, desk, AddRequest(m, info.side), info.mpid, id);
      case OrderReplace(_, _, _, _, _) =>
        var d := Cleared(setup, desk, info, m);
        TrimOrders(desk.engine.book, m.original, None, id);
        ClearedFresh(desk.engine.book, m);
        EnterOrigin(setup, d, AddRequest(m, info.side), info.mpid, id);
      case OtherMessage =>
      case OrderDelete(_, x) => TrimOrders(desk.engine.book, x, None, id);
      case OrderCancel(_, x, shares) => TrimOrders(desk.engine.book, x, Some(shares), id);
      case OrderExecuted(_, x, shares) => TrimOrders(desk.engine.book, x, Some(shares), id);
      case OrderExecutedWithPrice(_, x, shares, _, _) => TrimOrders(desk.engine.book, x, Some(shares), id);
    }
  }

  lemma EnterOrigin<R>(setup: Setup<R>, desk: Desk<R>, req: OrderRequest, mpid: Bytes, id: nat)
    requires Tidy(desk.engine.book) && req.kind.Limit? && !Rests(desk.engine.book, req.id)
    ensures var e := Enter(setup, desk, req, mpid);
            var o, o' := OrderOf(desk.engine.book, id), OrderOf(e.desk.engine.book, id);
            && Tidy(e.desk.engine.book) && OrderOf(desk.engine.book, req.id) == None
            && (o'.Some? ==>
                  || (e.verdict.Accepted? && id == req.id && o'.value.side == req.side)
                  || (id != req.id && o.Some? && o.value.side == o'.value.side))
  {
    hide Tidy, AddBounded, Sweep, OrderOf;
    EnterShape(setup, desk, req, mpid);
    OrderOfRests(desk.engine.book, req.id);
    var e := Enter(setup, desk, req, mpid);
    match e.verdict {
      case Declined =>
      case Faulted =>
        FaultedOrders(desk.engine, req, id);
        LessTradesSide(OrderOf(desk.engine.book, id), AddBounded(desk.engine, req).trades, id);
      case Accepted =>
        AcceptedOrders(desk.engine, req, id);
        LessTradesSide(OrderOf(desk.engine.book, id), e.trades, id);
    }
  }

  /** A message keeps its desk sound, whatever comes of it. */
  lemma DeskSound<R>(setup: Setup<R>, desk: Desk<R>, info: OrderInfo, m: Msg)
    requires Orderly(desk) && FreshAt(desk.engine.book, m)
    ensures Orderly(OnDesk(setup, desk, info, m).desk)
  {
    hide Sound, Tidy, OnDesk, FreshAt;
    LocalOrigin(setup, desk, info, m, 0);
    LocalSound(setup, desk, info, m);
  }

  lemma LocalSound<R>(setup: Setup<R>, desk: Desk<R>, info: OrderInfo, m: Msg)
    requires Sound(desk.engine) && Tidy(desk.engine.book) && FreshAt(desk.engine.book, m)
    ensures Sound(OnDesk(setup, desk, info, m).desk.engine)
  {
    hide Sound, Tidy, AddBounded, Rests, TrimBook, Enter, RestingQty, TradeEvents, SymbolPad;
    match m {
      case AddOrder(_, _, _, _, _, _, _) => EnterSound(setup, desk, AddRequest(m, info.side), info.mpid);
      case OrderReplace(_, _, _, _, _) =>
        TrimSound(desk.engine, m.original, None);
        ClearedFresh(desk.engine.book, m);
        EnterSound(setup, Cleared(setup, desk, info, m), AddRequest(m, info.side), info.mpid);
      case OtherMessage =>
      case OrderDelete(_, x) => TrimSound(desk.engine, x, None);
      case OrderCancel(_, x, shares) => TrimSound(desk.engine, x, Some(shares));
      case OrderExecuted(_, x, shares) => TrimSound(desk.engine, x, Some(shares));
      case OrderExecutedWithPrice(_, x, shares, _, _) => TrimSound(desk.engine, x, Some(shares));
    }
  }

  lemma EnterSound<R>(setup: Setup<R>, desk: Desk<R>, req: OrderRequest, mpid: Bytes)
    requires Sound(desk.engine) && !Rests(desk.engine.book, req.id)
    ensures Sound(Enter(setup, desk, req, mpid).desk.engine)
  {
    hide Sound, AddBounded, Clashes, Rests;
    EnterShape(setup, desk, req, mpid);
    FreshNeverClashes(desk.engine.book, req);
    AddSound(desk.engine, req);
  }

  /** Every message keeps the invariant, rejections and faults included. */
  lemma StepKept<R>(setup: Setup<R>, st: State<R>, m: Msg)
    requires Kept(setup, st) && FreshMsg(setup, st, m)
    ensures Kept(setup, Step(setup, st, m).state)
  {
    hide Orderly, OnDesk, FreshAt, Missed, Plus, IsSymbol;
    var t := Step(setup, st, m).state;
    TargetSymbol(st.routes, m);
    forall symbol ensures Orderly(DeskOf(setup, t.desks, symbol)) {
      assert Orderly(DeskOf(setup, st.desks, symbol));
      if Target(st.routes, m).Some? {
        var info := Target(st.routes, m).value;
        assert Orderly(DeskOf(setup, st.desks, info.symbol));
        DeskSound(setup, DeskOf(setup, st.desks, info.symbol), info, m);
      }
    }
  }

  // ---------- every resting order is routable ----------

  /** The id a message brings in rests on no book at all. */
  ghost predicate FreshEverywhere<R>(setup: Setup<R>, st: State<R>, m: Msg) {
    forall symbol :: FreshAt(BookAt(setup, st, symbol), m)
  }

  ghost predicate AllFreshEverywhere<R>(setup: Setup<R>, st: State<R>, ms: seq<Msg>)
    decreases ms
  {
    ms == [] ||
    (FreshEverywhere(setup, st, ms[0]) && AllFreshEverywhere(setup, Step(setup, st, ms[0]).state, ms[1..]))
  }

  lemma {:induction false} EverywhereIsHere<R>(setup: Setup<R>, st: State<R>, ms: seq<Msg>)
    requires AllFreshEverywhere(setup, st, ms)
    ensures FreshMsgs(setup, st, ms)
    decreases ms
  {
    hide Step, FreshAt;
    if ms != [] { EverywhereIsHere(setup, Step(setup, st, ms[0]).state, ms[1..]); }
  }

  /** Later messages about a resting order find its symbol and side. */
  ghost predicate RoutableAt<R>(setup: Setup<R>, st: State<R>, symbol: Bytes, id: nat) {
    var o := OrderOf(BookAt(setup, st, symbol), id);
    o.Some? ==> id in st.routes && st.routes[id].symbol == symbol && st.routes[id].side == o.value.side
  }

  ghost predicate Routable<R>(setup: Setup<R>, st: State<R>) {
    forall symbol, id :: RoutableAt(setup, st, symbol, id)
  }

  lemma RoutableStep<R>(setup: Setup<R>, st: State<R>, m: Msg)
    requires Kept(setup, st) && Routable(setup, st) && FreshEverywhere(setup, st, m)
    ensures Routable(setup, Step(setup, st, m).state)
  {
    hide Kept, OrderOf, OnDesk, FreshEverywhere, Missed, Plus;
    var t := Step(setup, st, m).state;
    forall symbol, id ensures RoutableAt(setup, t, symbol, id) {
      match Target(st.routes, m) {
        case None =>
          assert t.routes == st.routes && t.desks == st.desks;
          assert RoutableAt(setup, st, symbol, id);
        case Some(info) => StepRoutable(setup, st, m, info, symbol, id);
      }
    }
  }

  lemma StepRoutable<R>(setup: Setup<R>, st: State<R>, m: Msg, info: OrderInfo, symbol: Bytes, id: nat)
    requires Kept(setup, st) && Routable(setup, st) && FreshEverywhere(setup, st, m)
    requires Target(st.routes, m) == Some(info)
    ensures var t := Step(setup, st, m).state; RoutableAt(setup, t, symbol, id)
  {
    hide Tidy, OrderOf, OnDesk, FreshAt;
    var t := Step(setup, st, m).state;
    var desk := DeskOf(setup, st.desks, info.symbol);
    assert desk.engine.book == BookAt(setup, st, info.symbol);
    assert Orderly(DeskOf(setup, st.desks, symbol)) && Orderly(desk);
    LocalOrigin(setup, desk, info, m, id);
    assert RoutableAt(setup, st, symbol, id) && RoutableAt(setup, st, info.symbol, id);
    if symbol != info.symbol && OrderOf(BookAt(setup, st, symbol), id).Some? {
      ElsewhereKept(setup, st, m, info, symbol, id);
    }
  }

  /** Routing entries of orders resting at other symbols survive. */
  lemma ElsewhereKept<R>(setup: Setup<R>, st: State<R>, m: Msg, info: OrderInfo, symbol: Bytes, id: nat)
    requires Routable(setup, st) && FreshEverywhere(setup, st, m) && Target(st.routes, m) == Some(info)
    requires symbol != info.symbol && OrderOf(BookAt(setup, st, symbol), id).Some?
    ensures var l := OnDesk(setup, DeskOf(setup, st.desks, info.symbol), info, m);
            id !in l.drop && l.route != Some(id)
  {
    hide OrderOf, Rests, OnDesk, DeskOf;
    assert RoutableAt(setup, st, symbol, id);
    assert FreshAt(BookAt(setup, st, symbol), m);
    OrderOfRests(BookAt(setup, st, symbol), id);
    NamedOnly(setup, DeskOf(setup, st.desks, info.symbol), info, m);
    assert !Touches(m, id);
  }

  lemma EverywhereStep<R>(setup: Setup<R>, st: State<R>, m: Msg)
    requires FreshEverywhere(setup, st, m)
    ensures FreshMsg(setup, st, m)
  {
  }

  /** Over any run, every resting order can be reached by later messages: its id is routed to
      its symbol and side. */
  lemma {:induction false} AlwaysRoutable<R>(setup: Setup<R>, st: State<R>, ms: seq<Msg>)
    requires Kept(setup, st) && Routable(setup, st) && AllFreshEverywhere(setup, st, ms)
    ensures var t := RunAll(setup, st, ms).state; Kept(setup, t) && Routable(setup, t)
    decreases ms
  {
    if ms != [] {
      hide Kept, Routable, FreshMsg, FreshEverywhere, Step;
      EverywhereStep(setup, st, ms[0]);
      StepKept(setup, st, ms[0]);
      RoutableStep(setup, st, ms[0]);
      AlwaysRoutable(setup, Step(setup, st, ms[0]).state, ms[1..]);
    }
  }

  // ---------- the public feed determines the books ----------

  /** For every symbol the subscriber shows exactly what rests in the engine. */
  ghost predicate Followed<R>(setup: Setup<R>, st: State<R>, bs: Books) {
    forall symbol :: Agrees(BookFor(bs, symbol), BookAt(setup, st, symbol))
  }

  predicate SilentMsg<R>(setup: Setup<R>, st: State<R>, m: Msg) {
    match Target(st.routes, m)
    case None => false
    case Some(info) => Silent(setup, DeskOf(setup, st.desks, info.symbol), info, m)
  }

  /** One message: agreement survives exactly when the message is not silent. */
  lemma FeedStep<R>(setup: Setup<R>, st: State<R>, m: Msg, bs: Books)
    requires Kept(setup, st) && FreshMsg(setup, st, m) && Followed(setup, st, bs)
    ensures var s := Step(setup, st, m);
            Followed(setup, s.state, ApplyAll(bs, s.events)) <==> !SilentMsg(setup, st, m)
  {
    hide Tidy, Sound, OnDesk, Agrees, Silent, Unannounced, FreshAt;
    var s := Step(setup, st, m);
    TargetSymbol(st.routes, m);
    match Target(st.routes, m) {
      case None =>
        forall symbol ensures Agrees(BookFor(bs, symbol), BookAt(setup, s.state, symbol)) {
          assert Agrees(BookFor(bs, symbol), BookAt(setup, st, symbol));
        }
      case Some(info) =>
        var desk := DeskOf(setup, st.desks, info.symbol);
        assert Orderly(desk) && Agrees(BookFor(bs, info.symbol), BookAt(setup, st, info.symbol));
        assert BookAt(setup, s.state, info.symbol) == OnDesk(setup, desk, info, m).desk.engine.book;
        SilentExactly(setup, desk, info, m);
        if Silent(setup, desk, info, m) {
          UnannouncedDisagrees(setup, desk, info, m, bs);
          assert !Agrees(BookFor(ApplyAll(bs, s.events), info.symbol), BookAt(setup, s.state, info.symbol));
        } else {
          forall symbol ensures Agrees(BookFor(ApplyAll(bs, s.events), symbol), BookAt(setup, s.state, symbol)) {
            assert Agrees(BookFor(bs, symbol), BookAt(setup, st, symbol));
            FollowAt(setup, desk, info, m, bs, symbol, BookAt(setup, s.state, symbol));
          }
        }
    }
  }

  lemma FollowAt<R>(setup: Setup<R>, desk: Desk<R>, info: OrderInfo, m: Msg, bs: Books, symbol: Bytes, after: Book)
    requires Tidy(desk.engine.book) && IsSymbol(info.symbol) && FreshAt(desk.engine.book, m)
    requires Agrees(BookFor(bs, info.symbol), desk.engine.book) && !Unannounced(setup, desk, info, m)
    requires if symbol == info.symbol then after == OnDesk(setup, desk, info, m).desk.engine.book
             else Agrees(BookFor(bs, symbol), after)
    ensures Agrees(BookFor(ApplyAll(bs, OnDesk(setup, desk, info, m).events), symbol), after)
  {
    hide Tidy, OnDesk, Unannounced, FreshAt, IsSymbol;
    var bs' := ApplyAll(bs, OnDesk(setup, desk, info, m).events);
    forall id ensures Shown(BookFor(bs', symbol), id) == OrderOf(after, id) {
      DeskFollows(setup, desk, info, m, bs, symbol, id);
      assert symbol != info.symbol ==> Shown(BookFor(bs, symbol), id) == OrderOf(after, id);
    }
  }

  /** The subscriber agrees with the engines before and after every message of the run. */
  ghost predicate FollowedThroughout<R>(setup: Setup<R>, st: State<R>, ms: seq<Msg>, bs: Books)
    decreases ms
  {
    && Followed(setup, st, bs)
    && (ms == [] ||
        var s := Step(setup, st, ms[0]); FollowedThroughout(setup, s.state, ms[1..], ApplyAll(bs, s.events)))
  }

  predicate NoSilence<R>(setup: Setup<R>, st: State<R>, ms: seq<Msg>)
    decreases ms
  {
    ms == [] || (!SilentMsg(setup, st, ms[0]) && NoSilence(setup, Step(setup, st, ms[0]).state, ms[1..]))
  }

  /** Feed determines book: on a run with fresh ids the subscriber holds exactly the resting
      orders after every message if and only if no message is silent. */
  lemma {:induction false} FeedDeterminesBooks<R>(setup: Setup<R>, st: State<R>, ms: seq<Msg>, bs: Books)
    requires Kept(setup, st) && FreshMsgs(setup, st, ms) && Followed(setup, st, bs)
    ensures FollowedThroughout(setup, st, ms, bs) <==> NoSilence(setup, st, ms)
    decreases ms
  {
    if ms != [] {
      hide Kept, FreshMsg, Step, Followed, SilentMsg;
      var s := Step(setup, st, ms[0]);
      StepKept(setup, st, ms[0]);
      FeedStep(setup, st, ms[0], bs);
      if !SilentMsg(setup, st, ms[0]) {
        FeedDeterminesBooks(setup, s.state, ms[1..], ApplyAll(bs, s.events));
      } else {
        NotFollowed(setup, s.state, ms[1..], ApplyAll(bs, s.events));
      }
    }
  }

  lemma NotFollowed<R>(setup: Setup<R>, st: State<R>, ms: seq<Msg>, bs: Books)
    requires !Followed(setup, st, bs)
    ensures !FollowedThroughout(setup, st, ms, bs)
  {
  }

  /** From the start, with the whole published feed at once. */
  lemma FeedFromStart<R>(setup: Setup<R>, ms: seq<Msg>)
    requires FreshMsgs(setup, Start<R>(), ms) && NoSilence(setup, Start<R>(), ms)
    ensures var r := RunAll(setup, Start<R>(), ms); Followed(setup, r.state, ApplyAll(map[], r.events))
  {
    StartKept(setup);
    StartFollowed(setup);
    FeedToEnd(setup, Start<R>(), ms, map[]);
  }

  lemma StartFollowed<R>(setup: Setup<R>)
    ensures Followed(setup, Start<R>(), map[])
  {
  }

  lemma {:induction false} FeedToEnd<R>(setup: Setup<R>, st: State<R>, ms: seq<Msg>, bs: Books)
    requires Kept(setup, st) && FreshMsgs(setup, st, ms) && Followed(setup, st, bs) && NoSilence(setup, st, ms)
    ensures var r := RunAll(setup, st, ms); Followed(setup, r.state, ApplyAll(bs, r.events))
    decreases ms
  {
    if ms != [] {
      hide Kept, FreshMsg, Step, Followed, SilentMsg;
      var s := Step(setup, st, ms[0]);
      StepKept(setup, st, ms[0]);
      FeedStep(setup, st, ms[0], bs);
      var r := RunAll(setup, s.state, ms[1..]);
      ApplyAllConcat(bs, s.events, r.events);
      FeedToEnd(setup, s.state, ms[1..], ApplyAll(bs, s.events));
    }
  }
}

/** The whole publishing side at work: real engines behind a sequencer, and a subscriber that
    sees only the published events. */
module PublicFeed {
  import opened MarketData
  import opened Snapshots
  import opened Sequencing
  import opened FeedLaws
  import opened FeedTheorems
  import opened MatchingEngine
  import opened SequencerObject
  import LevelStore

  /** The subscriber shows exactly the orders resting in every live engine. */
  ghost predicate Mirrors<R(!new)>(sequencer: Sequencer<R>, builder: Builder)
    requires sequencer.Valid()
    reads sequencer, sequencer.footprint, builder
  {
    forall symbol, id :: symbol in sequencer.books ==>
      Shown(BookFor(builder.books, symbol), id) == OrderOf(sequencer.books[symbol].Contents(), id)
  }

  lemma {:induction false} FreshNext<R>(setup: Setup<R>, st: State<R>, ms: seq<Msg>, n: nat)
    requires n < |ms| && FreshMsgs(setup, st, ms)
    ensures FreshMsg(setup, RunAll(setup, st, ms[..n]).state, ms[n]) && FreshMsgs(setup, st, ms[..n])
    decreases n
  {
    hide Step, FreshMsg;
    if n > 0 {
      assert ms[..n][1..] == ms[1..][..n - 1];
      FreshNext(setup, Step(setup, st, ms[0]).state, ms[1..], n - 1);
    }
  }

  lemma ReadyNext<R(!new)>(s: Sequencer<R>, ms: seq<Msg>, n: nat)
    requires n < |ms| && FreshMsgs(s.setup, Start<R>(), ms) && s.Valid() && s.setup.capacity <= LevelStore.NIL
    requires s.Model() == RunAll(s.setup, Start<R>(), ms[..n]).state
    ensures s.Admits(ms[n])
  {
    hide Sequencer.Valid, Step;
    FreshNext(s.setup, Start<R>(), ms, n);
    match Target(s.routes, ms[n]) {
      case None =>
      case Some(info) =>
        FreshIsAdmissible(s.setup, DeskOf(s.setup, s.desks, info.symbol), info, ms[n]);
    }
  }

  lemma Mirrored<R(!new)>(s: Sequencer<R>, builder: Builder)
    requires s.Valid() && Followed(s.setup, s.Model(), builder.books)
    ensures Mirrors(s, builder)
  {
    hide OrderOf, Shown, OrderBookV2.Valid;
    forall symbol, id | symbol in s.books
      ensures Shown(BookFor(builder.books, symbol), id) == OrderOf(s.books[symbol].Contents(), id)
    {
      s.DeskAt(symbol);
      assert Agrees(BookFor(builder.books, symbol), BookAt(s.setup, s.Model(), symbol));
    }
  }

  /** Run a message stream through a sequencer and feed a subscriber its events. If no message
      was silent the subscriber mirrors the engines, and if every id was free at all desks
      every order resting at the end is routable. */
  method Run<R(!new)>(setup: Setup<R>, ms: seq<Msg>)
    returns (sequencer: Sequencer<R>, builder: Builder, events: seq<MDEvent>)
    requires setup.capacity <= LevelStore.NIL && FreshMsgs(setup, Start<R>(), ms)
    ensures sequencer.Valid() && fresh(sequencer) && fresh(builder)
    ensures StepResult(sequencer.Model(), events) == RunAll(setup, Start<R>(), ms)
    ensures AllFreshEverywhere(setup, Start<R>(), ms) ==> Routable(setup, sequencer.Model())
    ensures NoSilence(setup, Start<R>(), ms) ==> Mirrors(sequencer, builder)
  {
    hide Sequencer.Valid, Sequencer.Admits, Step, Sequencer.Model, Keyed, FreshMsgs, AllFreshEverywhere, NoSilence;
    sequencer := new Sequencer(setup);
    builder := new Builder();
    events := [];
    var n := 0;
    while n < |ms|
      invariant 0 <= n <= |ms|
      invariant fresh(sequencer) && fresh(sequencer.footprint) && fresh(builder) && builder !in sequencer.footprint
      invariant sequencer.Valid() && sequencer.setup == setup && Keyed(builder.books)
      invariant StepResult(sequencer.Model(), events) == RunAll(setup, Start<R>(), ms[..n])
      invariant builder.books == ApplyAll(map[], events)
    {
      ReadyNext(sequencer, ms, n);
      RunSnoc(setup, Start<R>(), ms[..n], ms[n]);
      assert ms[..n + 1] == ms[..n] + [ms[n]];
      var es := sequencer.OnMessage(ms[n]);
      ApplyAllConcat(map[], events, es);
      Deliver(builder, es, |events|);
      events := events + es;
      n := n + 1;
    }
    assert ms[..n] == ms;
    StartKept(setup);
    if AllFreshEverywhere(setup, Start<R>(), ms) { AlwaysRoutable(setup, Start<R>(), ms); }
    if NoSilence(setup, Start<R>(), ms) {
      FeedFromStart(setup, ms);
      Mirrored(sequencer, builder);
    }
  }

  /** Apply a batch of events, numbered from `after` + 1. */
  method Deliver(builder: Builder, events: seq<MDEvent>, after: nat)
    requires Keyed(builder.books)
    modifies builder
    ensures Keyed(builder.books) && builder.books == ApplyAll(old(builder.books), events)
  {
    hide Keyed, ApplyEvent;
    var k := 0;
    while k < |events|
      invariant 0 <= k <= |events| && Keyed(builder.books)
      invariant ApplyAll(builder.books, events[k..]) == ApplyAll(old(builder.books), events)
    {
      assert events[k..][0] == events[k] && events[k..][1..] == events[k + 1..];
      builder.Apply(after + k + 1, events[k]);
      k := k + 1;
    }
  }
}

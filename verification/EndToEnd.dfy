/** From the exchange's message stream to a late subscriber's books: sequencer, public feed,
    snapshot, packet session and builder in one statement. */
module EndToEnd {
  import opened Orders
  import opened MarketData
  import opened Wire
  import opened Snapshots
  import opened Sessions
  import opened LateJoiners
  import opened Sequencing
  import opened FeedLaws
  import opened FeedTheorems
  import opened FieldBounds
  import opened PublicFeed
  import opened SequencerObject
  import opened MatchingEngine
  import LevelStore

  const PADDING := MDEvent(ADD, Buy, 0, 0, 0, [32, 32, 32, 32, 32, 32, 32, 32], 0, 0)

  /** The published events by sequence number, the first one being number 1. */
  function Numbered(events: seq<MDEvent>): nat -> MDEvent {
    (s: nat) => if 1 <= s <= |events| then events[s - 1] else PADDING
  }

  lemma NumberedRepresentable(events: seq<MDEvent>)
    requires Encodable(events)
    ensures AllRepresentable(Numbered(events))
  {
  }

  lemma {:induction false} ReplayIsFold(events: seq<MDEvent>, n: nat)
    requires n <= |events|
    ensures Replay(Numbered(events), n) == ApplyAll(map[], events[..n])
  {
    if n > 0 {
      hide ApplyEvent;
      ReplayIsFold(events, n - 1);
      FoldLast(map[], events[..n - 1], events[n - 1]);
      assert events[..n] == events[..n - 1] + [events[n - 1]];
      assert Numbered(events)(n) == events[n - 1];
      hide ApplyAll;
    }
  }

  lemma FoldLast(bs: Books, events: seq<MDEvent>, e: MDEvent)
    ensures ApplyAll(bs, events + [e]) == ApplyEvent(ApplyAll(bs, events), e)
  {
    hide ApplyEvent;
    ApplyAllConcat(bs, events, [e]);
    assert [e][1..] == [];
  }

  /** What the subscriber shows once its books agree with the whole published feed. */
  lemma ShowsEngines<R(!new)>(s: Sequencer<R>, events: seq<MDEvent>, books: Books)
    requires s.Valid() && Followed(s.setup, s.Model(), ApplyAll(map[], events))
    requires SameOrders(books, Replay(Numbered(events), |events|))
    ensures forall symbol, id :: symbol in s.books ==>
              Shown(BookFor(books, symbol), id) == OrderOf(s.books[symbol].Contents(), id)
  {
    hide OrderOf, Shown, OrderBookV2.Valid, Replay, ApplyAll;
    ReplayIsFold(events, |events|);
    assert events[..|events|] == events;
    forall symbol, id | symbol in s.books
      ensures Shown(BookFor(books, symbol), id) == OrderOf(s.books[symbol].Contents(), id)
    {
      s.DeskAt(symbol);
      assert Agrees(BookFor(ApplyAll(map[], events), symbol), BookAt(s.setup, s.Model(), symbol));
    }
  }

  /** The datagrams come from the feed of these events, and together carry every event after
      the first `n`. */
  ghost predicate HeardSince(events: seq<MDEvent>, n: nat, session: SessionId, datagrams: seq<Bytes>) {
    var stream := Published(Numbered(events));
    && n <= |events|
    && (forall d :: d in datagrams ==> OnFeed(d, session, stream, |events|))
    && (forall s :: n < s <= |events| ==> Heard(datagrams, session, stream, |events|, s))
  }

  lemma HeardInOrder(events: seq<MDEvent>, n: nat, session: SessionId, datagrams: seq<Bytes>)
    requires HeardSince(events, n, session, datagrams)
    ensures n <= |events| && FirstMissing(Packets(datagrams), n + 1, |events| + 1)
    ensures forall d :: d in datagrams && PacketOf(d).Some? ==>
              Consistent(PacketOf(d).value, Published(Numbered(events)))
  {
    hide OnFeed, Heard, Packets, PacketOf, FirstMissing, Consistent, Published, Numbered;
    var stream := Published(Numbered(events));
    AllHeard(datagrams, session, stream, n + 1, |events|);
    forall d | d in datagrams && PacketOf(d).Some? ensures Consistent(PacketOf(d).value, stream) {
      FeedIsConsistent(d, session, stream, |events|);
    }
  }

  /** The subscriber's side: it ends with the replay of all events. */
  method CatchUpWith(events: seq<MDEvent>, n: nat, session: SessionId, datagrams: seq<Bytes>)
    returns (books: Option<Books>)
    requires Encodable(events) && n < U64 && HeardSince(events, n, session, datagrams)
    ensures books.Some? ==> SameOrders(books.value, Replay(Numbered(events), |events|))
    ensures books.None? ==> exists rows :: RowsOf(rows, Replay(Numbered(events), n)) && |rows| >= U32
  {
    hide FirstMissing, Consistent, Encodable, Replay, SameOrders, RowsOf, HeardSince, Packets, PacketOf,
         AllRepresentable, Numbered;
    NumberedRepresentable(events);
    HeardInOrder(events, n, session, datagrams);
    var r := Join(Numbered(events), n, datagrams);
    if r.None? { return None; }
    FirstMissingUnique(Packets(datagrams), n + 1, |events| + 1, r.value.1);
    books := Some(r.value.0);
  }

  /** A subscriber that joins after `n` published events, loads a snapshot and has heard every
      event since, in whatever datagrams, shows for every live engine exactly its resting
      orders. It fails only when the snapshot has more rows than its count field can say. */
  method JoinLate<R(!new)>(setup: Setup<R>, ms: seq<Msg>, n: nat, session: SessionId, datagrams: seq<Bytes>)
    returns (sequencer: Sequencer<R>, books: Option<Books>)
    requires setup.capacity <= LevelStore.NIL && AllFielded(ms)
    requires FreshMsgs(setup, Start<R>(), ms) && NoSilence(setup, Start<R>(), ms)
    requires n < U64 && HeardSince(RunAll(setup, Start<R>(), ms).events, n, session, datagrams)
    ensures sequencer.Valid() && StepResult(sequencer.Model(), RunAll(setup, Start<R>(), ms).events) ==
        RunAll(setup, Start<R>(), ms)
    ensures books.Some? ==> forall symbol, id :: symbol in sequencer.books ==>
              Shown(BookFor(books.value, symbol), id) == OrderOf(sequencer.books[symbol].Contents(), id)
    ensures books.None? ==> exists rows ::
              RowsOf(rows, Replay(Numbered(RunAll(setup, Start<R>(), ms).events), n)) && |rows| >= U32
  {
    hide RunAll, FreshMsgs, NoSilence, AllFielded, Encodable, Sequencer.Valid, Sequencer.Model, Replay, SameOrders,
         Shown, OrderOf, RowsOf, HeardSince, Numbered;
    var builder, events;
    sequencer, builder, events := PublicFeed.Run(setup, ms);
    PublishedFits(setup, ms);
    books := CatchUpWith(events, n, session, datagrams);
    if books.Some? {
      FeedFromStart(setup, ms);
      ShowsEngines(sequencer, events, books.value);
    }
  }
}

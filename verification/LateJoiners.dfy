/** The recovery path end to end (cpp/feed/snapshot.h with cpp/feed/moldudp64_session.h): a
    subscriber that loads an encoded snapshot of the first `n` events and then listens from
    `n + 1` on shows the same orders as one that applied every event itself, whatever is
    lost, reordered or repeated on the way. */
module LateJoiners {
  import opened Orders
  import opened Wire
  import opened MarketData
  import opened Snapshots
  import opened Sessions

  /** Events 1..n applied in order to an empty builder. */
  function Replay(events: nat -> MDEvent, n: nat): Books {
    if n == 0 then map[] else ApplyEvent(Replay(events, n - 1), events(n))
  }

  ghost predicate AllRepresentable(events: nat -> MDEvent) {
    forall s: nat :: Representable(events(s))
  }

  /** The published messages. */
  ghost function Published(events: nat -> MDEvent): nat -> Message {
    (s: nat) => Encode(events(s))
  }

  /** Order quantities and prices stay within what a row can carry. */
  ghost predicate BooksFit(bs: Books) {
    forall symbol, id :: symbol in bs && id in bs[symbol] ==>
      id < U64 && bs[symbol][id].qty < U64 && FitsI64(bs[symbol][id].price)
  }

  lemma {:induction false} ReplayFits(events: nat -> MDEvent, n: nat)
    requires AllRepresentable(events)
    ensures BooksFit(Replay(events, n)) && Keyed(Replay(events, n))
  {
    if n > 0 {
      ReplayFits(events, n - 1);
      ApplyFits(Replay(events, n - 1), events(n));
    }
  }

  lemma ApplyFits(bs: Books, e: MDEvent)
    requires BooksFit(bs) && Keyed(bs) && Representable(e)
    ensures BooksFit(ApplyEvent(bs, e)) && Keyed(ApplyEvent(bs, e))
  {
    TrimThenPad(e.symbol);
  }

  lemma RowsFit(rows: seq<Row>, bs: Books)
    requires RowsOf(rows, bs) && BooksFit(bs)
    ensures forall i :: 0 <= i < |rows| ==> RowFits(rows[i])
  {
    forall i | 0 <= i < |rows| ensures RowFits(rows[i]) { assert RowIn(rows[i], bs); }
  }

  /** A publisher that keeps its own builder and answers a snapshot request after `n` events. */
  method Publish(events: nat -> MDEvent, n: nat) returns (snapshot: Bytes)
    requires AllRepresentable(events)
    ensures exists rows :: RowsOf(rows, Replay(events, n)) && snapshot == EncodeSnapshot(n, rows)
  {
    hide ApplyEvent, RowsOf, EncodeSnapshot, Representable, Keyed;
    var builder := new Builder();
    var s := 0;
    while s < n
      invariant 0 <= s <= n
      invariant fresh(builder) && builder.books == Replay(events, s) && Keyed(builder.books)
    {
      s := s + 1;
      builder.Apply(s, events(s));
    }
    var rows := builder.Rows();
    snapshot := WriteSnapshot(n, rows);
  }

  lemma DeliveredEvent(events: nat -> MDEvent, n: nat, delivered: seq<Delivery>, k: nat)
    requires AllRepresentable(events) && k < |delivered|
    requires delivered == Deliveries(Published(events), n + 1, n + 1 + |delivered|)
    ensures Decode(delivered[k].message) == Some(events(n + k + 1))
  {
    EventRoundTrip(events(n + 1 + k));
  }

  /** The message callback: decode and apply what the session has delivered since. */
  method CatchUp(events: nat -> MDEvent, n: nat, joiner: Builder, delivered: seq<Delivery>, applied: nat)
    requires AllRepresentable(events) && Keyed(joiner.books) && applied <= |delivered|
    requires delivered == Deliveries(Published(events), n + 1, n + 1 + |delivered|)
    requires SameOrders(joiner.books, Replay(events, n + applied))
    modifies joiner
    ensures Keyed(joiner.books) && SameOrders(joiner.books, Replay(events, n + |delivered|))
  {
    hide SameOrders, Decode, Encode, Keyed, Representable, Deliveries, ApplyEvent;
    var k := applied;
    while k < |delivered|
      invariant applied <= k <= |delivered| && Keyed(joiner.books)
      invariant SameOrders(joiner.books, Replay(events, n + k))
    {
      DeliveredEvent(events, n, delivered, k);
      var e := Decode(delivered[k].message);
      ApplyRespects(joiner.books, Replay(events, n + k), events(n + k + 1));
      joiner.Apply(delivered[k].sequence, e.value);
      k := k + 1;
    }
  }

  /** The late joiner, at the moment it has received `datagrams`; those it cannot decode are
      dropped. It fails only when the
      snapshot has more rows than its count field can say. */
  method Join(events: nat -> MDEvent, n: nat, datagrams: seq<Bytes>) returns (r: Option<(Books, nat)>)
    requires AllRepresentable(events) && n < U64
    requires forall d :: d in datagrams && PacketOf(d).Some? ==> Consistent(PacketOf(d).value, Published(events))
    ensures r.None? ==> exists rows :: RowsOf(rows, Replay(events, n)) && |rows| >= U32
    ensures r.Some? ==>
              var (books, next) := r.value;
              FirstMissing(Packets(datagrams), n + 1, next) && SameOrders(books, Replay(events, next - 1))
  {
    hide SameOrders, Keyed, Representable, RowsOf, Replay, Consistent, FirstMissing, DecodeSnapshot, EncodeSnapshot,
         Session.Valid, Deliveries, LoadRows, RowFits, DecodeDownstream, Packets, PacketOf;
    ghost var stream := Published(events);
    var snapshot := Publish(events, n);
    ghost var rows :| RowsOf(rows, Replay(events, n)) && snapshot == EncodeSnapshot(n, rows);
    ReplayFits(events, n);
    RowsFit(rows, Replay(events, n));
    SnapshotRoundTrip(n, rows);
    var decoded := ReadSnapshot(snapshot);
    if decoded.None? { return None; }
    var joiner := new Builder();
    joiner.Load(decoded.value.0, decoded.value.1);
    LoadRestores(rows, Replay(events, n));
    var session := new Session(n + 1, stream);
    var applied, i := 0, 0;
    SessionLog(session, stream);
    assert datagrams[..0] == [];
    NoPackets();
    while i < |datagrams|
      invariant 0 <= i <= |datagrams|
      invariant fresh(joiner) && fresh(session) && session.Valid(stream)
      invariant session.heard == Packets(datagrams[..i]) && session.start == n + 1
      invariant applied == |session.delivered| && session.nextExpected == n + 1 + applied
      invariant session.delivered == Deliveries(stream, n + 1, n + 1 + applied)
      invariant Keyed(joiner.books) && SameOrders(joiner.books, Replay(events, n + applied))
    {
      PacketsNext(datagrams, i);
      var packet := DecodePacket(datagrams[i]);
      if packet.Some? {
        session.OnPacket(Packet(packet.value.header.sequence, packet.value.header.count, packet.value.blocks), stream);
        SessionLog(session, stream);
        CatchUp(events, n, joiner, session.delivered, applied);
        applied := |session.delivered|;
      }
      i := i + 1;
    }
    assert datagrams[..i] == datagrams;
    SessionLog(session, stream);
    r := Some((joiner.books, session.nextExpected));
  }

  lemma PacketsNext(datagrams: seq<Bytes>, i: nat)
    requires i < |datagrams|
    ensures Packets(datagrams[..i + 1]) ==
            Packets(datagrams[..i]) + match DecodeDownstream(datagrams[i])
                                      case None => []
                                      case Some(d) => [Packet(d.header.sequence, d.header.count, d.blocks)]
    ensures PacketOf(datagrams[i]).Some? <==> DecodeDownstream(datagrams[i]).Some?
    ensures datagrams[i] in datagrams
    ensures DecodeDownstream(datagrams[i]).Some? ==>
              var d := DecodeDownstream(datagrams[i]).value;
              PacketOf(datagrams[i]) == Some(Packet(d.header.sequence, d.header.count, d.blocks))
  {
    hide DecodeDownstream;
    assert datagrams[..i + 1][..i] == datagrams[..i];
  }

  lemma SessionLog(session: Session, stream: nat -> Message)
    requires session.Valid(stream)
    ensures session.start <= session.nextExpected
    ensures session.delivered == Deliveries(stream, session.start, session.nextExpected)
    ensures |session.delivered| == session.nextExpected - session.start
    ensures FirstMissing(session.heard, session.start, session.nextExpected)
  {
  }
}

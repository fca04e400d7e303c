/** MoldUDP64 receive session (cpp/feed/moldudp64_session.h): any arrival order of packets
    becomes exactly-once, in-order delivery. Sequence numbers are unbounded here. */
module Sessions {
  import opened Orders
  import opened Wire

  type Message = Bytes

  const HEARTBEAT := 0
  const END_OF_SESSION := 0xFFFF

  /** A decoded downstream packet. */
  datatype Packet = Packet(sequence: nat, count: nat, blocks: seq<Message>)

  /** Control packets carry the next sequence number and no message. */
  predicate IsControl(p: Packet) {
    p.count == HEARTBEAT || p.count == END_OF_SESSION
  }

  datatype Delivery = Delivery(sequence: nat, message: Message)

  datatype Request = Request(sequence: nat, count: nat)

  /** Every block of the packet is the message of that sequence number. */
  ghost predicate Consistent(p: Packet, stream: nat -> Message) {
    !IsControl(p) ==> forall i :: 0 <= i < |p.blocks| ==> p.blocks[i] == stream(p.sequence + i)
  }

  /** Sequence numbers a packet carries. */
  ghost predicate Carries(p: Packet, s: nat) {
    !IsControl(p) && p.sequence <= s < p.sequence + |p.blocks|
  }

  ghost predicate Received(ps: seq<Packet>, s: nat) {
    exists i :: 0 <= i < |ps| && Carries(ps[i], s)
  }

  /** `n` is the first sequence number from `start` on that no packet carried. */
  ghost predicate FirstMissing(ps: seq<Packet>, start: nat, n: nat) {
    && start <= n && !Received(ps, n)
    && forall s :: start <= s < n ==> Received(ps, s)
  }

  lemma FirstMissingUnique(ps: seq<Packet>, start: nat, m: nat, n: nat)
    requires FirstMissing(ps, start, m) && FirstMissing(ps, start, n)
    ensures m == n
  {
  }

  function Deliveries(stream: nat -> Message, start: nat, n: nat): (d: seq<Delivery>)
    requires start <= n
    ensures |d| == n - start
    ensures forall k :: 0 <= k < |d| ==> d[k] == Delivery(start + k, stream(start + k))
  {
    seq(n - start, k requires 0 <= k < n - start => Delivery(start + k, stream(start + k)))
  }

  lemma DeliverOne(stream: nat -> Message, start: nat, n: nat)
    requires start <= n
    ensures Deliveries(stream, start, n + 1) == Deliveries(stream, start, n) + [Delivery(n, stream(n))]
  {
  }

  /** A gap below `observed` is asked for with one request: from the next expected number on,
      up to the observed one, but never for more than 65535 messages. */
  ghost predicate Asks(before: seq<Request>, after: seq<Request>, expected: nat, observed: nat) {
    if observed <= expected then after == before
    else
      && |after| == |before| + 1 && before == after[..|before|]
      && var r := after[|before|];
      && r.sequence == expected && 0 < r.count <= 65535
      && (if observed - expected <= 65535 then r.sequence + r.count == observed else r.count == 65535)
  }

  /** A request that the session has made: from a number it has come to, for a few messages. */
  predicate WellAsked(r: Request, start: nat, expected: nat) {
    start <= r.sequence <= expected && 0 < r.count <= 65535
  }

  lemma AskedWell(before: seq<Request>, after: seq<Request>, expected: nat, observed: nat, start: nat)
    requires Asks(before, after, expected, observed) && start <= expected
    requires forall i :: 0 <= i < |before| ==> WellAsked(before[i], start, expected)
    ensures forall i :: 0 <= i < |after| ==> WellAsked(after[i], start, expected)
    ensures after != before ==> observed > expected
  {
    forall i | 0 <= i < |after| ensures WellAsked(after[i], start, expected) {
      if i < |before| { assert after[i] == before[i]; }
    }
  }

  class Session {
    const start: nat
    var nextExpected: nat
    var ended: bool
    var gapsDetected: nat
    var pending: map<nat, Message>
    /** The callbacks, as logs. */
    var delivered: seq<Delivery>
    var requests: seq<Request>

    ghost var heard: seq<Packet>

    /** The state is a function of what was heard: everything before `nextExpected` has been
        delivered once and in order, and everything received beyond it is pending. */
    ghost predicate Valid(stream: nat -> Message)
      reads this
    {
      && FirstMissing(heard, start, nextExpected)
      && delivered == Deliveries(stream, start, nextExpected)
      && (forall s :: s in pending <==> s >= nextExpected && Received(heard, s))
      && (forall s :: s in pending ==> pending[s] == stream(s))
      && gapsDetected == |requests|
      && (forall i :: 0 <= i < |requests| ==> WellAsked(requests[i], start, nextExpected))
    }

    constructor (startSeq: nat, ghost stream: nat -> Message)
      ensures Valid(stream) && start == startSeq && nextExpected == startSeq
      ensures heard == [] && delivered == [] && requests == [] && !ended
    {
      start := startSeq;
      nextExpected := startSeq;
      ended, gapsDetected, pending := false, 0, map[];
      delivered, requests, heard := [], [], [];
    }

    /** One received packet. */
    method OnPacket(p: Packet, ghost stream: nat -> Message)
      requires Valid(stream) && Consistent(p, stream)
      modifies this
      ensures Valid(stream) && heard == old(heard) + [p]
      ensures ended == (old(ended) || p.count == 65535)
      ensures old(delivered) <= delivered && nextExpected >= old(nextExpected)
      ensures if p.count == 0 || p.count == 65535 || p.blocks != []
              then Asks(old(requests), requests, old(nextExpected), p.sequence)
              else requests == old(requests)
      ensures requests != old(requests) ==> p.sequence > old(nextExpected) && !Received(heard, old(nextExpected))
    {
      hide Received, Deliveries, Asks, WellAsked;
      HeardOne(heard, p);
      if p.count == HEARTBEAT || p.count == END_OF_SESSION {
        MaybeRequestGap(p.sequence);
        AskedWell(old(requests), requests, nextExpected, p.sequence, start);
        heard := heard + [p];
        if p.count == END_OF_SESSION { ended := true; }
        return;
      }
      var i := 0;
      while i < |p.blocks|
        invariant 0 <= i <= |p.blocks|
        invariant nextExpected == old(nextExpected) && requests == old(requests) && gapsDetected == old(gapsDetected)
        invariant ended == old(ended) && delivered == old(delivered) && heard == old(heard)
        invariant forall s :: s in pending <==>
                    s >= nextExpected && (Received(heard, s) || p.sequence <= s < p.sequence + i)
        invariant forall s :: s in pending ==> pending[s] == stream(s)
      {
        var s := p.sequence + i;
        if s >= nextExpected && s !in pending {
          pending := pending[s := p.blocks[i]];
        }
        i := i + 1;
      }
      if p.blocks != [] {
        MaybeRequestGap(p.sequence);
        AskedWell(old(requests), requests, nextExpected, p.sequence, start);
      }
      heard := heard + [p];
      DeliverReady(stream);
    }

    method MaybeRequestGap(observed: nat)
      modifies this`gapsDetected, this`requests
      ensures gapsDetected - old(gapsDetected) == |requests| - |old(requests)|
      ensures Asks(old(requests), requests, nextExpected, observed)
    {
      if observed > nextExpected {
        gapsDetected := gapsDetected + 1;
        requests := requests + [Request(nextExpected, Min(observed - nextExpected, 0xFFFF))];
      }
    }

    /** Hand over pending messages while the next expected one is there. */
    method DeliverReady(ghost stream: nat -> Message)
      requires start <= nextExpected && (forall s :: start <= s < nextExpected ==> Received(heard, s))
      requires delivered == Deliveries(stream, start, nextExpected)
      requires forall s :: s in pending <==> s >= nextExpected && Received(heard, s)
      requires forall s :: s in pending ==> pending[s] == stream(s)
      requires gapsDetected == |requests|
      requires forall i :: 0 <= i < |requests| ==> WellAsked(requests[i], start, nextExpected)
      modifies this`pending, this`delivered, this`nextExpected
      ensures Valid(stream) && old(delivered) <= delivered && nextExpected >= old(nextExpected)
    {
      hide Received, Deliveries;
      while nextExpected in pending
        invariant old(nextExpected) <= nextExpected && start <= nextExpected
        invariant forall s :: start <= s < nextExpected ==> Received(heard, s)
        invariant delivered == Deliveries(stream, start, nextExpected)
        invariant |delivered| == |old(delivered)| + nextExpected - old(nextExpected) && old(delivered) <= delivered
        invariant forall s :: s in pending <==> s >= nextExpected && Received(heard, s)
        invariant forall s :: s in pending ==> pending[s] == stream(s)
        decreases |pending|
      {
        var m := pending[nextExpected];
        delivered := delivered + [Delivery(nextExpected, m)];
        DropPending(pending, nextExpected, heard);
        DeliverOne(stream, start, nextExpected);
        pending := pending - {nextExpected};
        nextExpected := nextExpected + 1;
      }
    }
  }

  lemma DropPending(m: map<nat, Message>, k: nat, heard: seq<Packet>)
    requires k in m && forall s :: s in m <==> s >= k && Received(heard, s)
    ensures |m - {k}| < |m| && Received(heard, k)
    ensures forall s :: s in m - {k} <==> s >= k + 1 && Received(heard, s)
  {
    hide Received;
    assert (m - {k}).Keys == m.Keys - {k};
    assert |(m - {k}).Keys| < |m.Keys|;
  }

  lemma HeardOne(ps: seq<Packet>, p: Packet)
    ensures forall s :: Received(ps + [p], s) <==> Received(ps, s) || Carries(p, s)
  {
    forall s ensures Received(ps + [p], s) <==> Received(ps, s) || Carries(p, s) {
      if Received(ps, s) {
        var i :| 0 <= i < |ps| && Carries(ps[i], s);
        assert (ps + [p])[i] == ps[i];
      }
      if Carries(p, s) { assert (ps + [p])[|ps|] == p; }
    }
  }

  // ---------- what the delivered stream depends on ----------

  /** A whole session: the output is exactly the run of messages up to the first one that
      no packet carried. */
  method RunSession(start: nat, packets: seq<Packet>, ghost stream: nat -> Message)
    returns (delivered: seq<Delivery>, next: nat)
    requires forall i :: 0 <= i < |packets| ==> Consistent(packets[i], stream)
    ensures FirstMissing(packets, start, next)
    ensures delivered == Deliveries(stream, start, next)
  {
    var session := new Session(start, stream);
    var i := 0;
    while i < |packets|
      invariant 0 <= i <= |packets|
      invariant fresh(session) && session.Valid(stream) && session.heard == packets[..i] && session.start == start
    {
      session.OnPacket(packets[i], stream);
      i := i + 1;
    }
    assert packets[..i] == packets;
    delivered, next := session.delivered, session.nextExpected;
  }

  /** Loss aside, order and repetition of packets do not matter. */
  lemma OrderIrrelevant(ps: seq<Packet>, qs: seq<Packet>, start: nat, m: nat, n: nat)
    requires forall p :: p in ps <==> p in qs
    requires FirstMissing(ps, start, m) && FirstMissing(qs, start, n)
    ensures m == n
  {
    SameReceived(ps, qs);
    SameReceived(qs, ps);
    FirstMissingUnique(ps, start, m, n);
  }

  lemma SameReceived(ps: seq<Packet>, qs: seq<Packet>)
    requires forall p :: p in ps ==> p in qs
    ensures forall s :: Received(ps, s) ==> Received(qs, s)
  {
    forall s | Received(ps, s) ensures Received(qs, s) {
      var i :| 0 <= i < |ps| && Carries(ps[i], s);
      assert ps[i] in qs;
      var j :| 0 <= j < |qs| && qs[j] == ps[i];
    }
  }

  /** More packets can only move the session forward. */
  lemma MoreIsFurther(ps: seq<Packet>, qs: seq<Packet>, start: nat, m: nat, n: nat)
    requires forall p :: p in ps ==> p in qs
    requires FirstMissing(ps, start, m) && FirstMissing(qs, start, n)
    ensures m <= n
  {
    SameReceived(ps, qs);
  }

  /** A datagram that carries a stretch of the stream, encoded and decoded, is a packet the
      session may be given; it carries that stretch unless the count field cannot say so. */
  lemma DatagramIsConsistent(session: SessionId, n: nat, messages: seq<Message>, stream: nat -> Message)
    requires n < U64 && Fit(messages)
    requires forall i :: 0 <= i < |messages| ==> messages[i] == stream(n + i)
    ensures var d := DecodeDownstream(EncodeDownstream(session, n, messages));
            d.Some? &&
            var p := Packet(d.value.header.sequence, d.value.header.count, d.value.blocks);
            && Consistent(p, stream)
            && (forall s: nat :: Carries(p, s) ==> n <= s < n + |messages|)
            && (|messages| < 0xFFFF ==> forall s: nat :: Carries(p, s) <==> n <= s < n + |messages|)
            && (|messages| == 0xFFFF ==> forall s: nat :: !Carries(p, s))
  {
    DownstreamRoundTrip(session, n, messages);
    hide EncodeDownstream, DecodeDownstream;
  }

  // ---------- datagrams ----------

  /** What the receive loop makes of a datagram; a damaged one is dropped. */
  function PacketOf(datagram: Bytes): Option<Packet> {
    match DecodeDownstream(datagram)
    case None => None
    case Some(d) => Some(Packet(d.header.sequence, d.header.count, d.blocks))
  }

  /** The packets among the datagrams. */
  function Packets(datagrams: seq<Bytes>): seq<Packet> {
    if datagrams == [] then []
    else
      var n := |datagrams| - 1;
      Packets(datagrams[..n]) + match PacketOf(datagrams[n]) case None => [] case Some(p) => [p]
  }

  /** Some messages of the stream up to number `last`, from number `first` on. */
  ghost predicate Batch(batch: seq<Message>, first: nat, stream: nat -> Message, last: nat) {
    && 0 < first < U64 && first + |batch| <= last + 1 && Fit(batch)
    && forall i :: 0 <= i < |batch| ==> batch[i] == stream(first + i)
  }

  /** The datagram carries a batch of the stream, controls the session, or arrives damaged. */
  ghost predicate OnFeed(datagram: Bytes, session: SessionId, stream: nat -> Message, last: nat) {
    || DecodeDownstream(datagram).None?
    || (exists next: nat, mark: nat ::
          next < U64 && (mark == HEARTBEAT || mark == END_OF_SESSION) && datagram == EncodeControl(session, next, mark))
    || (exists batch, first: nat ::
          Batch(batch, first, stream, last) && datagram == EncodeDownstream(session, first, batch))
  }

  /** Message `s` is in one of the datagrams, and the datagram's count is not a reserved mark. */
  ghost predicate Heard(datagrams: seq<Bytes>, session: SessionId, stream: nat -> Message, last: nat, s: nat) {
    exists batch, first: nat ::
      Batch(batch, first, stream, last) && |batch| < 0xFFFF && first <= s < first + |batch|
      && EncodeDownstream(session, first, batch) in datagrams
  }

  lemma ControlIsPacket(session: SessionId, next: nat, mark: nat)
    requires next < U64 && (mark == HEARTBEAT || mark == END_OF_SESSION)
    ensures PacketOf(EncodeControl(session, next, mark)) == Some(Packet(next, mark, []))
    ensures var b := EncodeControl(session, next, mark); |b| == 20 && Headed(b, session, next, mark)
  {
    HeaderRoundTrip(Header(session, next, mark), []);
    HeaderFields(Header(session, next, mark), []);
    assert EncodeControl(session, next, mark) + [] == EncodeControl(session, next, mark);
  }

  /** What comes off the feed is consistent and names no message beyond the last one. */
  lemma FeedIsConsistent(datagram: Bytes, session: SessionId, stream: nat -> Message, last: nat)
    requires OnFeed(datagram, session, stream, last) && PacketOf(datagram).Some?
    ensures var p := PacketOf(datagram).value; Consistent(p, stream) && forall s :: s > last ==> !Carries(p, s)
  {
    hide DecodeDownstream, EncodeDownstream, EncodeControl;
    if next: nat, mark: nat :| next < U64 && (mark == HEARTBEAT || mark == END_OF_SESSION) &&
                               datagram == EncodeControl(session, next, mark) {
      ControlIsPacket(session, next, mark);
    } else {
      var batch, first: nat :| Batch(batch, first, stream, last) &&
                               datagram == EncodeDownstream(session, first, batch);
      DatagramIsConsistent(session, first, batch, stream);
    }
  }

  lemma NoPackets()
    ensures Packets([]) == []
  {
  }

  lemma {:induction false} PacketsAre(datagrams: seq<Bytes>, p: Packet)
    ensures p in Packets(datagrams) <==> exists d :: d in datagrams && PacketOf(d) == Some(p)
  {
    if datagrams != [] {
      hide PacketOf;
      var n := |datagrams| - 1;
      PacketsAre(datagrams[..n], p);
      assert datagrams == datagrams[..n] + [datagrams[n]];
    }
  }

  /** What was heard was received. */
  lemma HeardIsReceived(datagrams: seq<Bytes>, session: SessionId, stream: nat -> Message, last: nat, s: nat)
    requires Heard(datagrams, session, stream, last, s)
    ensures Received(Packets(datagrams), s)
  {
    hide DecodeDownstream, EncodeDownstream, Packets;
    var batch, first: nat :| Batch(batch, first, stream, last) && |batch| < 0xFFFF && first <= s < first + |batch| &&
                             EncodeDownstream(session, first, batch) in datagrams;
    DatagramIsConsistent(session, first, batch, stream);
    var d := EncodeDownstream(session, first, batch);
    PacketsAre(datagrams, PacketOf(d).value);
    var i :| 0 <= i < |Packets(datagrams)| && Packets(datagrams)[i] == PacketOf(d).value;
  }

  /** A subscriber that listens from `start` and heard everything up to `last` has received
      exactly that. */
  lemma AllHeard(datagrams: seq<Bytes>, session: SessionId, stream: nat -> Message, start: nat, last: nat)
    requires forall d :: d in datagrams ==> OnFeed(d, session, stream, last)
    requires start <= last + 1 && forall s :: start <= s <= last ==> Heard(datagrams, session, stream, last, s)
    ensures FirstMissing(Packets(datagrams), start, last + 1)
  {
    hide PacketOf, Packets, OnFeed, Heard;
    forall s | start <= s <= last ensures Received(Packets(datagrams), s) {
      HeardIsReceived(datagrams, session, stream, last, s);
    }
    var ps := Packets(datagrams);
    forall i | 0 <= i < |ps| ensures !Carries(ps[i], last + 1) {
      PacketsAre(datagrams, ps[i]);
      var d :| d in datagrams && PacketOf(d) == Some(ps[i]);
      FeedIsConsistent(d, session, stream, last);
    }
  }

  // ---------- gap requests ----------

  /** A request starts at a message that is neither delivered nor pending, not even thanks to
      the packet that triggered it, and asks for nothing from the observed number on. */
  lemma RequestIsSound(ps: seq<Packet>, p: Packet, start: nat, n: nat, before: seq<Request>, after: seq<Request>)
    requires FirstMissing(ps, start, n) && p.sequence > n && Asks(before, after, n, p.sequence)
    ensures var r := after[|after| - 1];
            && FirstMissing(ps + [p], start, r.sequence) && after == before + [r]
            && r.sequence + r.count <= p.sequence
  {
    HeardOne(ps, p);
  }

  /** Any reply that carries the range of a request moves the session past it. */
  lemma ReplyAdvances(session: Session, stream: nat -> Message, r: Request, reply: seq<Packet>, m: nat)
    requires session.Valid(stream) && r in session.requests
    requires forall s :: r.sequence <= s < r.sequence + r.count ==> Received(reply, s)
    requires FirstMissing(session.heard + reply, session.start, m)
    ensures m >= r.sequence + r.count
  {
    hide Received;
    SameReceived(session.heard, session.heard + reply);
    SameReceived(reply, session.heard + reply);
  }

  /** A gap of at most 65535 messages is closed by the reply to its one request. */
  lemma ReplyCloses(ps: seq<Packet>, p: Packet, start: nat, n: nat, before: seq<Request>, after: seq<Request>,
                    reply: seq<Packet>, m: nat)
    requires FirstMissing(ps, start, n) && n < p.sequence <= n + 65535 && Asks(before, after, n, p.sequence)
    requires var r := after[|after| - 1]; forall s :: r.sequence <= s < r.sequence + r.count ==> Received(reply, s)
    requires FirstMissing(ps + [p] + reply, start, m)
    ensures m >= p.sequence
  {
    hide Received;
    SameReceived(ps, ps + [p] + reply);
    SameReceived(reply, ps + [p] + reply);
  }

  /** One packet answers a request exactly when its count is not the end-of-session mark:
      a full request of 0xFFFF messages needs at least two packets. */
  lemma SinglePacketReply(n: nat, count: nat, blocks: seq<Message>)
    requires 0 < count <= 0xFFFF && |blocks| == count
    ensures (forall s :: n <= s < n + count ==> Received([Packet(n, count, blocks)], s)) <==> count < 0xFFFF
  {
    var p := Packet(n, count, blocks);
    assert [p][0] == p;
    if count < 0xFFFF {
      forall s | n <= s < n + count ensures Received([p], s) { assert Carries([p][0], s); }
    } else {
      assert !Received([p], n);
    }
  }
}

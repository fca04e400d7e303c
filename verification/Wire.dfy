/** Big-endian fields and the MoldUDP64 packet codec (cpp/feed/moldudp64.h). */
module Wire {
  import opened Orders

  type Byte = x: int | 0 <= x < 256
  type Bytes = seq<Byte>

  // ---------- big-endian integers ----------

  function Power256(n: nat): (p: nat)
    ensures p > 0
  {
    if n == 0 then 1 else 256 * Power256(n - 1)
  }

  const U16 := 0x1_0000
  const U32 := 0x1_0000_0000
  const U64 := 0x1_0000_0000_0000_0000

  lemma Powers()
    ensures Power256(2) == U16 && Power256(4) == U32 && Power256(8) == U64
  {
    assert Power256(1) == 256;
    assert Power256(2) == U16;
    assert Power256(3) == 0x100_0000;
    assert Power256(4) == U32;
    assert Power256(5) == 0x100_0000_0000;
    assert Power256(6) == 0x1_0000_0000_0000;
    assert Power256(7) == 0x100_0000_0000_0000;
  }

  /** The low `n` bytes of `v`, most significant first. */
  function BigEndian(v: nat, n: nat): (s: Bytes)
    ensures |s| == n
  {
    if n == 0 then [] else BigEndian(v / 256, n - 1) + [v % 256]
  }

  function Value(s: Bytes): nat {
    if s == [] then 0 else Value(s[..|s| - 1]) * 256 + s[|s| - 1]
  }

  /** The positional value, most significant byte first. */
  function Positional(s: Bytes): nat {
    if s == [] then 0 else s[0] * Power256(|s| - 1) + Positional(s[1..])
  }

  lemma {:induction false} PositionalSnoc(s: Bytes, b: Byte)
    ensures Positional(s + [b]) == Positional(s) * 256 + b
  {
    if s != [] {
      assert (s + [b])[1..] == s[1..] + [b];
      PositionalSnoc(s[1..], b);
      Shifted(s[0], Power256(|s| - 1), Positional(s[1..]));
    } else {
      assert (s + [b])[1..] == [];
    }
  }

  lemma Shifted(x: nat, p: nat, rest: nat)
    ensures (x * p + rest) * 256 == x * (256 * p) + rest * 256
  {
  }

  lemma {:induction false} ValueIsPositional(s: Bytes)
    ensures Value(s) == Positional(s)
  {
    if s != [] {
      var front := s[..|s| - 1];
      ValueIsPositional(front);
      PositionalSnoc(front, s[|s| - 1]);
      assert front + [s[|s| - 1]] == s;
    }
  }

  lemma {:induction false} ValueOfBigEndian(v: nat, n: nat)
    requires v < Power256(n)
    ensures Value(BigEndian(v, n)) == v
  {
    if n > 0 {
      var s := BigEndian(v, n);
      assert s[..|s| - 1] == BigEndian(v / 256, n - 1);
      ValueOfBigEndian(v / 256, n - 1);
    }
  }

  lemma {:induction false} BigEndianOfValue(s: Bytes)
    ensures BigEndian(Value(s), |s|) == s && Value(s) < Power256(|s|)
  {
    if s != [] {
      BigEndianOfValue(s[..|s| - 1]);
      assert s == s[..|s| - 1] + [s[|s| - 1]];
    }
  }

  /** `put_be64` and `put_be16`: fills the field from its last byte backwards. */
  method PutBigEndian(buf: array<Byte>, off: nat, n: nat, v: nat)
    requires off + n <= buf.Length
    modifies buf
    ensures buf[..] == old(buf[..off]) + BigEndian(v, n) + old(buf[off + n..])
  {
    var rest := v;
    var i := n;
    assert buf[off + n..off + n] == [];
    while i > 0
      invariant 0 <= i <= n
      invariant buf[..off] == old(buf[..off]) && buf[off + n..] == old(buf[off + n..])
      invariant BigEndian(v, n) == BigEndian(rest, i) + buf[off + i..off + n]
    {
      i := i - 1;
      ghost var tail := buf[off + i + 1..off + n];
      buf[off + i] := rest % 256;
      assert buf[off + i..off + n] == [rest % 256] + tail;
      assert BigEndian(rest, i + 1) + tail == BigEndian(rest / 256, i) + ([rest % 256] + tail);
      rest := rest / 256;
    }
    assert buf[..] == buf[..off] + buf[off..off + n] + buf[off + n..];
  }

  /** `get_be64` and `get_be16`: folds the field from its first byte on. */
  method GetBigEndian(buf: Bytes, off: nat, n: nat) returns (v: nat)
    requires off + n <= |buf|
    ensures v == Value(buf[off..off + n])
  {
    v := 0;
    var i := 0;
    while i < n
      invariant 0 <= i <= n
      invariant v == Value(buf[off..off + i])
    {
      assert buf[off..off + i + 1][..i] == buf[off..off + i];
      v := v * 256 + buf[off + i];
      i := i + 1;
    }
  }

  // ---------- downstream packets ----------

  const SESSION_LEN := 10
  const HEADER_LEN := 20

  type SessionId = s: Bytes | |s| == SESSION_LEN witness [0, 0, 0, 0, 0, 0, 0, 0, 0, 0]

  datatype Header = Header(session: SessionId, sequence: nat, count: nat)

  datatype Decoded = Decoded(header: Header, blocks: seq<Bytes>)

  function EncodeHeader(h: Header): (b: Bytes)
    ensures |b| == HEADER_LEN
  {
    h.session + BigEndian(h.sequence, 8) + BigEndian(h.count, 2)
  }

  function EncodeBlocks(messages: seq<Bytes>): Bytes {
    if messages == [] then []
    else BigEndian(|messages[0]|, 2) + messages[0] + EncodeBlocks(messages[1..])
  }

  /** The message count is stored in two bytes, so it wraps at 65536. */
  function EncodeDownstream(session: SessionId, sequence: nat, messages: seq<Bytes>): Bytes {
    EncodeHeader(Header(session, sequence, |messages| % U16)) + EncodeBlocks(messages)
  }

  /** Heartbeats and the end-of-session mark carry the next sequence number and no message. */
  function EncodeControl(session: SessionId, next: nat, mark: nat): Bytes {
    EncodeHeader(Header(session, next, mark))
  }

  function DecodeHeader(buf: Bytes): Header
    requires |buf| >= HEADER_LEN
  {
    Header(buf[..10], Value(buf[10..18]), Value(buf[18..20]))
  }

  /** Read `count` length-prefixed blocks; None when a block runs past the end. */
  function ParseBlocks(buf: Bytes, count: nat): Option<seq<Bytes>> {
    if count == 0 then Some([])
    else if |buf| < 2 then None
    else
      var len := Value(buf[..2]);
      if |buf| < 2 + len then None
      else match ParseBlocks(buf[2 + len..], count - 1)
           case None => None
           case Some(r) => Some([buf[2..2 + len]] + r)
  }

  function DecodeDownstream(buf: Bytes): Option<Decoded> {
    if |buf| < HEADER_LEN then None
    else
      var h := DecodeHeader(buf);
      if h.count == 0 || h.count == 0xFFFF then Some(Decoded(h, []))
      else match ParseBlocks(buf[HEADER_LEN..], h.count)
           case None => None
           case Some(blocks) => Some(Decoded(h, blocks))
  }

  // ---------- the layout of a packet ----------

  lemma Slice(buf: Bytes, at: nat, n: nat, i: nat, j: nat)
    requires at + n <= |buf| && i <= j <= n
    ensures buf[at..at + n][i..j] == buf[at + i..at + j]
  {
    var part := buf[at..at + n];
    assert forall k :: i <= k < j ==> part[k] == buf[at + k];
    assert forall k :: 0 <= k < j - i ==> part[i..j][k] == buf[at + i..at + j][k];
  }

  /** Where block `k` starts: each one takes its length field and its bytes. */
  function BlockAt(blocks: seq<Bytes>, start: nat, k: nat): nat
    requires k <= |blocks|
  {
    if k == 0 then start else BlockAt(blocks, start, k - 1) + 2 + |blocks[k - 1]|
  }

  /** Every block is in its place: two bytes that say its length, then its bytes. */
  ghost predicate LaidOut(buf: Bytes, start: nat, blocks: seq<Bytes>) {
    forall k :: 0 <= k < |blocks| ==> BlockIn(buf, BlockAt(blocks, start, k), blocks[k])
  }

  predicate BlockIn(buf: Bytes, at: nat, block: Bytes) {
    at + 2 + |block| <= |buf| && Value(buf[at..at + 2]) == |block| && buf[at + 2..at + 2 + |block|] == block
  }

  /** The header's three fields. */
  predicate Headed(buf: Bytes, session: Bytes, sequence: nat, count: nat) {
    |buf| >= 20 && buf[..10] == session && Value(buf[10..18]) == sequence && Value(buf[18..20]) == count
  }

  lemma {:induction false} BlockAtTail(blocks: seq<Bytes>, start: nat, k: nat)
    requires 0 < k <= |blocks|
    ensures BlockAt(blocks, start, k) == BlockAt(blocks[1..], start + 2 + |blocks[0]|, k - 1)
  {
    if k > 1 { BlockAtTail(blocks, start, k - 1); }
  }

  lemma LaidCons(buf: Bytes, start: nat, blocks: seq<Bytes>)
    requires blocks != []
    ensures LaidOut(buf, start, blocks) <==>
            BlockIn(buf, start, blocks[0]) && LaidOut(buf, start + 2 + |blocks[0]|, blocks[1..])
  {
    hide BlockIn;
    var next, rest := start + 2 + |blocks[0]|, blocks[1..];
    forall k | 0 < k < |blocks| ensures BlockAt(blocks, start, k) == BlockAt(rest, next, k - 1) {
      BlockAtTail(blocks, start, k);
    }
    if LaidOut(buf, start, blocks) {
      assert BlockIn(buf, BlockAt(blocks, start, 0), blocks[0]);
      forall k | 0 <= k < |rest| ensures BlockIn(buf, BlockAt(rest, next, k), rest[k]) {
        assert BlockIn(buf, BlockAt(blocks, start, k + 1), blocks[k + 1]);
      }
    }
    if BlockIn(buf, start, blocks[0]) && LaidOut(buf, next, rest) {
      forall k | 0 <= k < |blocks| ensures BlockIn(buf, BlockAt(blocks, start, k), blocks[k]) {
        if k > 0 { assert BlockIn(buf, BlockAt(rest, next, k - 1), rest[k - 1]); }
      }
    }
  }

  /** Parsing finds exactly the blocks that are laid out. */
  lemma {:induction false} ParsesLaid(buf: Bytes, start: nat, blocks: seq<Bytes>)
    requires start <= |buf| && LaidOut(buf, start, blocks)
    ensures ParseBlocks(buf[start..], |blocks|) == Some(blocks)
    decreases |blocks|
  {
    hide LaidOut, ParseBlocks;
    if blocks == [] {
      ParseNothing(buf[start..]);
    } else {
      LaidCons(buf, start, blocks);
      ParsesLaid(buf, start + 2 + |blocks[0]|, blocks[1..]);
      ParseAt(buf, start, |blocks|);
      assert blocks == [blocks[0]] + blocks[1..];
    }
  }

  lemma {:induction false} LaidParsed(buf: Bytes, start: nat, count: nat)
    requires start <= |buf| && ParseBlocks(buf[start..], count).Some?
    ensures var blocks := ParseBlocks(buf[start..], count).value; |blocks| == count && LaidOut(buf, start, blocks)
    decreases count
  {
    hide ParseBlocks, Value;
    if count == 0 {
      ParseNothing(buf[start..]);
    } else {
      hide LaidOut, BlockIn;
      ParseAt(buf, start, count);
      var next := start + 2 + Value(buf[start..start + 2]);
      LaidParsed(buf, next, count - 1);
      var block, rest := buf[start + 2..next], ParseBlocks(buf[next..], count - 1).value;
      assert ParseBlocks(buf[start..], count) == Some([block] + rest);
      BlockStands(buf, start);
      LaidJoin(buf, start, block, rest);
    }
  }

  lemma BlockStands(buf: Bytes, at: nat)
    requires at + 2 <= |buf| && at + 2 + Value(buf[at..at + 2]) <= |buf|
    ensures BlockIn(buf, at, buf[at + 2..at + 2 + Value(buf[at..at + 2])])
  {
  }

  lemma LaidJoin(buf: Bytes, start: nat, block: Bytes, rest: seq<Bytes>)
    requires BlockIn(buf, start, block) && LaidOut(buf, start + 2 + |block|, rest)
    ensures LaidOut(buf, start, [block] + rest)
  {
    hide BlockIn, LaidOut;
    assert ([block] + rest)[1..] == rest;
    LaidCons(buf, start, [block] + rest);
  }

  /** A packet on the wire: session, sequence number and count, then the blocks. */
  lemma PacketLayout(session: SessionId, sequence: nat, messages: seq<Bytes>)
    requires sequence < U64 && Fit(messages)
    ensures var out := EncodeDownstream(session, sequence, messages);
            Headed(out, session, sequence, |messages| % 65536) && LaidOut(out, 20, messages)
  {
    var h := Header(session, sequence, |messages| % U16);
    var out := EncodeDownstream(session, sequence, messages);
    HeaderFields(h, EncodeBlocks(messages));
    BlocksRoundTrip(messages, |messages|, []);
    hide BigEndian, Value, EncodeBlocks, ParseBlocks, LaidOut;
    assert out[20..] == EncodeBlocks(messages) + [];
    assert messages[..|messages|] == messages;
    LaidParsed(out, 20, |messages|);
  }

  lemma HeaderFields(h: Header, rest: Bytes)
    requires h.sequence < U64 && h.count < U16
    ensures Headed(EncodeHeader(h) + rest, h.session, h.sequence, h.count)
  {
    var b := EncodeHeader(h) + rest;
    Powers();
    ValueOfBigEndian(h.sequence, 8);
    ValueOfBigEndian(h.count, 2);
    hide BigEndian, Value;
    assert b[..10] == h.session;
    assert b[10..18] == BigEndian(h.sequence, 8);
    assert b[18..20] == BigEndian(h.count, 2);
  }

  /** What may be read off a buffer: nothing but the header of a control packet, or as many
      blocks as the header says. */
  ghost predicate Reads(buf: Bytes, d: Decoded) {
    && Headed(buf, d.header.session, d.header.sequence, d.header.count)
    && (if d.header.count == 0 || d.header.count == 65535 then d.blocks == []
        else |d.blocks| == d.header.count && LaidOut(buf, 20, d.blocks))
  }

  /** A buffer is accepted exactly when something may be read off it, and that is decoded. */
  lemma DecodesExactly(buf: Bytes)
    ensures match DecodeDownstream(buf) case None => !exists d :: Reads(buf, d) case Some(d) => Reads(buf, d)
  {
    hide Value, ParseBlocks, LaidOut;
    if DecodeDownstream(buf).Some? {
      var d := DecodeDownstream(buf).value;
      if d.header.count != 0 && d.header.count != 65535 { LaidParsed(buf, 20, d.header.count); }
    }
    if d :| Reads(buf, d) { ReadIsDecoded(buf, d); }
  }

  lemma ReadIsDecoded(buf: Bytes, d: Decoded)
    requires Reads(buf, d)
    ensures DecodeDownstream(buf) == Some(d)
  {
    hide Value, ParseBlocks, LaidOut;
    if d.header.count != 0 && d.header.count != 65535 { ParsesLaid(buf, 20, d.blocks); }
  }

  method EncodePacket(session: SessionId, sequence: nat, messages: seq<Bytes>) returns (out: Bytes)
    ensures out == EncodeDownstream(session, sequence, messages)
    ensures sequence < U64 && Fit(messages) ==>
              Headed(out, session, sequence, |messages| % 65536) && LaidOut(out, 20, messages)
  {
    hide LaidOut, Fit, BigEndian, EncodeHeader, Headed;
    out := EncodeHeader(Header(session, sequence, |messages| % U16));
    var i := 0;
    while i < |messages|
      invariant 0 <= i <= |messages|
      invariant EncodeDownstream(session, sequence, messages) == out + EncodeBlocks(messages[i..])
    {
      assert messages[i..][1..] == messages[i + 1..];
      out := out + (BigEndian(|messages[i]|, 2) + messages[i]);
      i := i + 1;
    }
    if sequence < U64 && Fit(messages) { PacketLayout(session, sequence, messages); }
  }

  method DecodePacket(buf: Bytes) returns (r: Option<Decoded>)
    ensures r == DecodeDownstream(buf)
    ensures match r case None => !exists d :: Reads(buf, d) case Some(d) => Reads(buf, d)
  {
    hide Reads, ParseBlocks;
    DecodesExactly(buf);
    if |buf| < HEADER_LEN { return None; }
    var sequence := GetBigEndian(buf, 10, 8);
    var count := GetBigEndian(buf, 18, 2);
    var h := Header(buf[..10], sequence, count);
    if count == 0 || count == 0xFFFF { return Some(Decoded(h, [])); }
    var blocks := ReadBlocks(buf, HEADER_LEN, count);
    if blocks.None? { return None; }
    r := Some(Decoded(h, blocks.value));
  }

  method ReadBlocks(buf: Bytes, start: nat, count: nat) returns (r: Option<seq<Bytes>>)
    requires start <= |buf|
    ensures r == ParseBlocks(buf[start..], count)
  {
    hide Value, ParseBlocks;
    var offset, blocks, i := start, [], 0;
    AfterNothing(ParseBlocks(buf[start..], count));
    while i < count
      invariant 0 <= i <= count && start <= offset <= |buf|
      invariant ParseBlocks(buf[start..], count) == After(blocks, ParseBlocks(buf[offset..], count - i))
    {
      ParseAt(buf, offset, count - i);
      if offset + 2 > |buf| { return None; }
      var len := GetBigEndian(buf, offset, 2);
      if offset + 2 + len > |buf| { return None; }
      var block := buf[offset + 2..offset + 2 + len];
      AfterOne(blocks, block, ParseBlocks(buf[offset + 2 + len..], count - i - 1));
      blocks := blocks + [block];
      offset := offset + 2 + len;
      i := i + 1;
    }
    ParseNothing(buf[offset..]);
    assert blocks + [] == blocks;
    r := Some(blocks);
  }

  /** Blocks already read in front of the ones still to come. */
  ghost function After(done: seq<Bytes>, rest: Option<seq<Bytes>>): Option<seq<Bytes>> {
    if rest.None? then None else Some(done + rest.value)
  }

  lemma ParseNothing(buf: Bytes)
    ensures ParseBlocks(buf, 0) == Some([])
  {
  }

  /** One block read from `offset` on. */
  lemma ParseAt(buf: Bytes, offset: nat, count: nat)
    requires offset <= |buf| && count > 0
    ensures ParseBlocks(buf[offset..], count) ==
            if offset + 2 > |buf| then None
            else
              var len := Value(buf[offset..offset + 2]);
              if offset + 2 + len > |buf| then None
              else After([buf[offset + 2..offset + 2 + len]], ParseBlocks(buf[offset + 2 + len..], count - 1))
  {
    var tail := buf[offset..];
    if offset + 2 <= |buf| {
      assert tail[..2] == buf[offset..offset + 2];
      var len := Value(tail[..2]);
      if offset + 2 + len <= |buf| {
        assert tail[2..2 + len] == buf[offset + 2..offset + 2 + len];
        assert tail[2 + len..] == buf[offset + 2 + len..];
      }
    }
  }

  lemma AfterOne(done: seq<Bytes>, block: Bytes, rest: Option<seq<Bytes>>)
    ensures After(done, After([block], rest)) == After(done + [block], rest)
  {
    if rest.Some? { assert done + ([block] + rest.value) == done + [block] + rest.value; }
  }

  lemma AfterNothing(rest: Option<seq<Bytes>>)
    ensures After([], rest) == rest
  {
    if rest.Some? { assert [] + rest.value == rest.value; }
  }

  // ---------- what the codec promises ----------

  lemma HeaderRoundTrip(h: Header, rest: Bytes)
    requires h.sequence < U64 && h.count < U16
    ensures DecodeHeader(EncodeHeader(h) + rest) == h
  {
    HeaderFields(h, rest);
  }

  predicate Fit(messages: seq<Bytes>) {
    forall i :: 0 <= i < |messages| ==> |messages[i]| < U16
  }

  lemma Cut(len: Bytes, m: Bytes, rest: Bytes, extra: Bytes)
    requires |len| == 2
    ensures var buf := len + m + rest + extra;
            buf[..2] == len && buf[2..2 + |m|] == m && buf[2 + |m|..] == rest + extra
  {
    assert len + m + rest + extra == (len + m) + (rest + extra);
  }

  /** Parsing the blocks of a message list back, with anything behind them; asking for fewer
      gives the first ones. */
  lemma {:induction false} BlocksRoundTrip(messages: seq<Bytes>, count: nat, extra: Bytes)
    requires Fit(messages) && count <= |messages|
    ensures ParseBlocks(EncodeBlocks(messages) + extra, count) == Some(messages[..count])
  {
    if count > 0 {
      var m, rest := messages[0], EncodeBlocks(messages[1..]);
      var buf := EncodeBlocks(messages) + extra;
      Powers();
      ValueOfBigEndian(|m|, 2);
      Cut(BigEndian(|m|, 2), m, rest, extra);
      hide BigEndian, Value;
      BlocksRoundTrip(messages[1..], count - 1, extra);
      assert messages[..count] == [m] + messages[1..][..count - 1];
    }
  }

  /** Decoding an encoded packet gives its messages back exactly when their number is not
      the end-of-session mark and does not wrap. */
  lemma DownstreamRoundTrip(session: SessionId, sequence: nat, messages: seq<Bytes>)
    requires sequence < U64 && Fit(messages)
    ensures var d := DecodeDownstream(EncodeDownstream(session, sequence, messages));
            && d.Some? && d.value.header == Header(session, sequence, |messages| % U16)
            && d.value.blocks == (if |messages| % U16 == 0xFFFF then [] else messages[..|messages| % U16])
            && (d.value.blocks == messages <==> |messages| < 0xFFFF)
  {
    hide EncodeBlocks, ParseBlocks, EncodeHeader, DecodeHeader;
    var h := Header(session, sequence, |messages| % U16);
    var buf := EncodeDownstream(session, sequence, messages);
    HeaderRoundTrip(h, EncodeBlocks(messages));
    Behind(EncodeHeader(h), EncodeBlocks(messages));
    BlocksRoundTrip(messages, h.count, []);
    assert |messages| < U16 ==> messages[..|messages|] == messages;
  }

  /** What was parsed is what the buffer starts with. */
  lemma {:induction false} BlocksExact(buf: Bytes, count: nat)
    requires ParseBlocks(buf, count).Some?
    ensures var r := ParseBlocks(buf, count).value; |r| == count && Fit(r) && EncodeBlocks(r) <= buf
  {
    if count > 0 {
      var len := Value(buf[..2]);
      var m, back := buf[2..2 + len], buf[2 + len..];
      Powers();
      BigEndianOfValue(buf[..2]);
      BlocksExact(back, count - 1);
      var rest := ParseBlocks(back, count - 1).value;
      hide BigEndian, Value, ParseBlocks;
      assert ([m] + rest)[1..] == rest;
      InFront(buf, len, EncodeBlocks(rest));
    }
  }

  lemma InFront(buf: Bytes, len: nat, back: Bytes)
    requires 2 + len <= |buf| && back <= buf[2 + len..]
    ensures buf[..2] + buf[2..2 + len] + back <= buf
  {
    assert buf == buf[..2] + buf[2..2 + len] + buf[2 + len..];
  }

  /** A data packet is accepted only if it starts with the encoding of exactly what was
      decoded from it: nothing is made up, skipped or reordered. */
  lemma AcceptedExactly(buf: Bytes)
    requires DecodeDownstream(buf).Some?
    requires var h := DecodeDownstream(buf).value.header; h.count != 0 && h.count != 0xFFFF
    ensures var d := DecodeDownstream(buf).value;
            && |d.blocks| == d.header.count && Fit(d.blocks)
            && EncodeDownstream(d.header.session, d.header.sequence, d.blocks) <= buf
  {
    var h, back := DecodeHeader(buf), buf[HEADER_LEN..];
    BlocksExact(back, h.count);
    Powers();
    BigEndianOfValue(buf[10..18]);
    BigEndianOfValue(buf[18..20]);
    var blocks := ParseBlocks(back, h.count).value;
    hide ParseBlocks, EncodeBlocks, BigEndian, Value;
    HeaderPrefix(buf);
    assert EncodeHeader(h) == buf[..HEADER_LEN];
    assert |blocks| % U16 == h.count;
    assert buf == buf[..HEADER_LEN] + back;
  }

  lemma HeaderPrefix(buf: Bytes)
    requires |buf| >= HEADER_LEN
    ensures buf[..10] + buf[10..18] + buf[18..20] == buf[..HEADER_LEN]
  {
  }

  /** A buffer cut short inside the blocks is rejected. */
  lemma {:induction false} CutBlocks(messages: seq<Bytes>, k: nat)
    requires Fit(messages) && k < |EncodeBlocks(messages)|
    ensures ParseBlocks(EncodeBlocks(messages)[..k], |messages|) == None
  {
    var m, rest := messages[0], EncodeBlocks(messages[1..]);
    var buf := EncodeBlocks(messages)[..k];
    Powers();
    ValueOfBigEndian(|m|, 2);
    if k >= 2 {
      assert buf[..2] == BigEndian(|m|, 2);
      if k >= 2 + |m| {
        assert buf[2 + |m|..] == rest[..k - 2 - |m|];
        CutBlocks(messages[1..], k - 2 - |m|);
      }
    }
  }

  /** Every proper prefix of a data packet is rejected, so a truncated datagram is dropped
      as a whole. */
  lemma TruncationRejected(session: SessionId, sequence: nat, messages: seq<Bytes>, k: nat)
    requires sequence < U64 && Fit(messages) && 0 < |messages| < 0xFFFF
    requires k < |EncodeDownstream(session, sequence, messages)|
    ensures DecodeDownstream(EncodeDownstream(session, sequence, messages)[..k]) == None
  {
    var h := Header(session, sequence, |messages| % U16);
    hide EncodeBlocks, ParseBlocks, EncodeHeader, DecodeHeader;
    if k >= HEADER_LEN {
      var front := EncodeBlocks(messages)[..k - HEADER_LEN];
      CutBehind(EncodeHeader(h), EncodeBlocks(messages), k);
      HeaderRoundTrip(h, front);
      Behind(EncodeHeader(h), front);
      CutBlocks(messages, k - HEADER_LEN);
    }
  }

  lemma Behind(header: Bytes, blocks: Bytes)
    requires |header| == HEADER_LEN
    ensures (header + blocks)[HEADER_LEN..] == blocks == blocks + []
  {
  }

  lemma CutBehind(header: Bytes, blocks: Bytes, k: nat)
    requires |header| == HEADER_LEN <= k <= HEADER_LEN + |blocks|
    ensures (header + blocks)[..k] == header + blocks[..k - HEADER_LEN]
  {
  }
}

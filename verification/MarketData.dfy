/** The public market data record and its symbol field (cpp/feed/market_data.h). */
module MarketData {
  import opened Orders
  import opened Wire

  const SPACE: Byte := 32

  /** Symbols on the wire are eight bytes, padded with spaces. */
  type RawSymbol = s: Bytes | |s| == 8 witness [32, 32, 32, 32, 32, 32, 32, 32]

  const ADD: Byte := 65
  const CANCEL: Byte := 88
  const DELETE: Byte := 68
  const TRADE: Byte := 84
  const REPLACE: Byte := 82

  /** `code` is kept as the raw byte: decoding does not check it. */
  datatype MDEvent = MDEvent(code: Byte, side: Side, timestamp: nat, orderId: nat, newOrderId: nat,
                             symbol: RawSymbol, price: int, qty: nat)

  predicate Representable(e: MDEvent) {
    && e.timestamp < U64 && e.orderId < U64 && e.newOrderId < U64 && e.qty < U64
    && FitsI64(e.price)
  }

  predicate FitsI64(p: int) {
    -(U64 / 2) <= p < U64 / 2
  }

  /** Two's complement, both ways. */
  function ToU64(p: int): (v: nat)
    ensures v < U64
  {
    p % U64
  }

  function FromU64(v: nat): int {
    if v >= U64 / 2 then v - U64 else v
  }

  lemma SignedRoundTrip(p: int)
    requires FitsI64(p)
    ensures FromU64(ToU64(p)) == p
  {
  }

  function SideByte(s: Side): Byte {
    if s.Buy? then 66 else 83
  }

  function ByteSide(b: Byte): Side {
    if b == 66 then Buy else Sell
  }

  const RECORD_LEN := 50

  function Encode(e: MDEvent): (b: Bytes)
    ensures |b| == RECORD_LEN
  {
    [e.code, SideByte(e.side)] + BigEndian(e.timestamp, 8) + BigEndian(e.orderId, 8) + BigEndian(e.newOrderId, 8)
    + e.symbol + BigEndian(ToU64(e.price), 8) + BigEndian(e.qty, 8)
  }

  function Decode(b: Bytes): Option<MDEvent> {
    if |b| != RECORD_LEN then None
    else Some(MDEvent(b[0], ByteSide(b[1]), Value(b[2..10]), Value(b[10..18]), Value(b[18..26]),
                      b[26..34], FromU64(Value(b[34..42])), Value(b[42..50])))
  }

  lemma FieldRoundTrip(v: nat)
    requires v < U64
    ensures Value(BigEndian(v, 8)) == v
  {
    Powers();
    ValueOfBigEndian(v, 8);
  }

  lemma EventRoundTrip(e: MDEvent)
    requires Representable(e)
    ensures Decode(Encode(e)) == Some(e)
  {
    var b := Encode(e);
    FieldRoundTrip(e.timestamp);
    FieldRoundTrip(e.orderId);
    FieldRoundTrip(e.newOrderId);
    FieldRoundTrip(ToU64(e.price));
    FieldRoundTrip(e.qty);
    SignedRoundTrip(e.price);
    hide BigEndian, Value, ToU64, FromU64;
    RecordFields([e.code, SideByte(e.side)], BigEndian(e.timestamp, 8), BigEndian(e.orderId, 8),
                 BigEndian(e.newOrderId, 8), e.symbol, BigEndian(ToU64(e.price), 8), BigEndian(e.qty, 8));
  }

  /** The seven fields of a record at their offsets. */
  lemma RecordFields(head: Bytes, time: Bytes, id: Bytes, newId: Bytes, symbol: Bytes, price: Bytes, qty: Bytes)
    requires |head| == 2 && |time| == |id| == |newId| == |symbol| == |price| == |qty| == 8
    ensures var b := head + time + id + newId + symbol + price + qty;
            && |b| == RECORD_LEN && b[0] == head[0] && b[1] == head[1]
            && b[2..10] == time && b[10..18] == id && b[18..26] == newId
            && b[26..34] == symbol && b[34..42] == price && b[42..50] == qty
  {
    var front, back := head + time + id, newId + symbol + price + qty;
    var b := head + time + id + newId + symbol + price + qty;
    assert b == front + back;
    assert front[2..10] == time && front[10..18] == id;
    assert back[0..8] == newId && back[8..16] == symbol && back[16..24] == price && back[24..32] == qty;
    assert forall i, j :: 0 <= i <= j <= 18 ==> b[i..j] == front[i..j];
    assert forall i, j :: 18 <= i <= j <= 50 ==> b[i..j] == back[i - 18..j - 18];
  }

  /** A price as an unsigned field: two's complement in 64 bits. */
  predicate PriceField(v: nat, price: int) {
    v < 0x1_0000_0000_0000_0000 && (v == price || v == price + 0x1_0000_0000_0000_0000)
    && -0x8000_0000_0000_0000 <= price < 0x8000_0000_0000_0000
  }

  /** The record byte by byte: code, side letter, then time, ids, symbol, price and quantity. */
  predicate RecordOf(b: Bytes, e: MDEvent) {
    && |b| == 50 && b[0] == e.code
    && Value(b[2..10]) == e.timestamp && Value(b[10..18]) == e.orderId && Value(b[18..26]) == e.newOrderId
    && b[26..34] == e.symbol && PriceField(Value(b[34..42]), e.price) && Value(b[42..50]) == e.qty
  }

  lemma RecordLayout(e: MDEvent)
    requires Representable(e)
    ensures RecordOf(Encode(e), e) && Encode(e)[1] == if e.side.Buy? then 'B' as int else 'S' as int
  {
    FieldRoundTrip(e.timestamp);
    FieldRoundTrip(e.orderId);
    FieldRoundTrip(e.newOrderId);
    FieldRoundTrip(ToU64(e.price));
    FieldRoundTrip(e.qty);
    SignedField(e.price);
    hide BigEndian, Value, ToU64;
    RecordFields([e.code, SideByte(e.side)], BigEndian(e.timestamp, 8), BigEndian(e.orderId, 8),
                 BigEndian(e.newOrderId, 8), e.symbol, BigEndian(ToU64(e.price), 8), BigEndian(e.qty, 8));
  }

  lemma SignedField(p: int)
    requires FitsI64(p)
    ensures PriceField(ToU64(p), p)
  {
  }

  /** Exactly the buffers of fifty bytes are records, of what their bytes say; any side letter
      but 'B' is a sell. */
  lemma DecodesRecord(b: Bytes)
    ensures match Decode(b)
            case None => |b| != 50
            case Some(e) => RecordOf(b, e) && e.side == if b[1] == 'B' as int then Buy else Sell
  {
    if |b| == 50 {
      Powers();
      BigEndianOfValue(b[34..42]);
      hide Value, BigEndian, Power256;
    }
  }

  // ---------- symbols ----------

  /** The symbol without its trailing spaces. */
  function TrimSpaces(s: Bytes): (r: Bytes)
    ensures r <= s && (r == [] || r[|r| - 1] != SPACE)
    ensures forall k :: |r| <= k < |s| ==> s[k] == SPACE
  {
    if s != [] && s[|s| - 1] == SPACE then TrimSpaces(s[..|s| - 1]) else s
  }

  method SymbolStr(raw: RawSymbol) returns (s: Bytes)
    ensures s == TrimSpaces(raw)
  {
    var end := 8;
    while end > 0 && raw[end - 1] == SPACE
      invariant 0 <= end <= 8
      invariant TrimSpaces(raw[..end]) == TrimSpaces(raw)
    {
      assert raw[..end][..end - 1] == raw[..end - 1];
      end := end - 1;
    }
    s := raw[..end];
  }

  function SymbolPad(s: Bytes): RawSymbol {
    if |s| >= 8 then s[..8] else s + seq(8 - |s|, _ => SPACE)
  }

  /** A symbol that the eight-byte field can carry. */
  predicate IsSymbol(s: Bytes) {
    |s| <= 8 && (s == [] || s[|s| - 1] != SPACE)
  }

  lemma TrimUnique(s: Bytes, r: Bytes)
    requires r <= s && (r == [] || r[|r| - 1] != SPACE)
    requires forall k :: |r| <= k < |s| ==> s[k] == SPACE
    ensures TrimSpaces(s) == r
  {
    var t := TrimSpaces(s);
    assert r != [] ==> r[|r| - 1] == s[|r| - 1];
    assert t != [] ==> t[|t| - 1] == s[|t| - 1];
  }

  /** The symbol field: the symbol's first eight bytes, then blanks. */
  lemma PadLayout(s: Bytes, k: nat)
    requires k < 8
    ensures SymbolPad(s)[k] == if k < |s| then s[k] else ' ' as int
  {
  }

  /** Trimming undoes padding exactly for symbols the field can carry. */
  lemma PadThenTrim(s: Bytes)
    ensures TrimSpaces(SymbolPad(s)) == s <==> IsSymbol(s)
  {
    if IsSymbol(s) { TrimUnique(SymbolPad(s), s); }
  }

  /** Padding undoes trimming for every field. */
  lemma TrimThenPad(raw: RawSymbol)
    ensures SymbolPad(TrimSpaces(raw)) == raw && IsSymbol(TrimSpaces(raw))
  {
    var t := TrimSpaces(raw);
    assert SymbolPad(t) == raw;
  }
}

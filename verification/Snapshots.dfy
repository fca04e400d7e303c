/** The book a subscriber rebuilds from the public feed, and the snapshot that lets a late
    joiner skip the past (cpp/feed/snapshot.h). */
module Snapshots {
  import opened Orders
  import opened Wire
  import opened MarketData

  datatype RestingOrder = RestingOrder(side: Side, price: int, qty: nat)

  type SymbolBook = map<nat, RestingOrder>
  type Books = map<Bytes, SymbolBook>

  function BookFor(bs: Books, symbol: Bytes): SymbolBook {
    if symbol in bs then bs[symbol] else map[]
  }

  /** Effect of one event on its symbol's orders. */
  function ApplyTo(book: SymbolBook, e: MDEvent): SymbolBook {
    if e.code == ADD then
      book[e.orderId := RestingOrder(e.side, e.price, e.qty)]
    else if e.code == CANCEL || e.code == TRADE then
      if e.orderId !in book then book
      else if e.qty >= book[e.orderId].qty then book - {e.orderId}
      else book[e.orderId := book[e.orderId].(qty := book[e.orderId].qty - e.qty)]
    else if e.code == DELETE then
      book - {e.orderId}
    else if e.code == REPLACE then
      (book - {e.orderId})[e.newOrderId := RestingOrder(e.side, e.price, e.qty)]
    else book
  }

  function ApplyEvent(bs: Books, e: MDEvent): Books {
    var symbol := TrimSpaces(e.symbol);
    bs[symbol := ApplyTo(BookFor(bs, symbol), e)]
  }

  /** The order `id` of a symbol as a subscriber counts it: zero quantity is no order. */
  function Shown(book: SymbolBook, id: nat): Option<RestingOrder> {
    if id in book && book[id].qty > 0 then Some(book[id]) else None
  }

  ghost predicate SameOrders(bs: Books, cs: Books) {
    forall symbol, id :: Shown(BookFor(bs, symbol), id) == Shown(BookFor(cs, symbol), id)
  }

  /** Applying an event respects agreement on the orders shown. */
  lemma ApplyRespects(bs: Books, cs: Books, e: MDEvent)
    requires SameOrders(bs, cs)
    ensures SameOrders(ApplyEvent(bs, e), ApplyEvent(cs, e))
  {
    var symbol := TrimSpaces(e.symbol);
    var b, c := BookFor(bs, symbol), BookFor(cs, symbol);
    assert Shown(b, e.orderId) == Shown(c, e.orderId);
    forall s, id ensures Shown(BookFor(ApplyEvent(bs, e), s), id) == Shown(BookFor(ApplyEvent(cs, e), s), id) {
      assert Shown(BookFor(bs, s), id) == Shown(BookFor(cs, s), id);
      if s == symbol { assert Shown(b, id) == Shown(c, id); }
    }
  }

  // ---------- snapshot rows ----------

  datatype Row = Row(symbol: RawSymbol, orderId: nat, side: Side, price: int, qty: nat)

  predicate RowFits(r: Row) {
    r.orderId < U64 && r.qty < U64 && FitsI64(r.price)
  }

  const ROW_LEN := 33

  function EncodeRow(r: Row): (b: Bytes)
    ensures |b| == ROW_LEN
  {
    r.symbol + BigEndian(r.orderId, 8) + [SideByte(r.side)] + BigEndian(ToU64(r.price), 8) + BigEndian(r.qty, 8)
  }

  function DecodeRow(b: Bytes): Row
    requires |b| >= ROW_LEN
  {
    Row(b[..8], Value(b[8..16]), ByteSide(b[16]), FromU64(Value(b[17..25])), Value(b[25..33]))
  }

  lemma RowRoundTrip(r: Row, rest: Bytes)
    requires RowFits(r)
    ensures DecodeRow(EncodeRow(r) + rest) == r
  {
    var b := EncodeRow(r) + rest;
    FieldRoundTrip(r.orderId);
    FieldRoundTrip(ToU64(r.price));
    FieldRoundTrip(r.qty);
    SignedRoundTrip(r.price);
    hide BigEndian, Value, ToU64, FromU64;
    RowFields(r.symbol, BigEndian(r.orderId, 8), SideByte(r.side), BigEndian(ToU64(r.price), 8), BigEndian(r.qty, 8));
    assert b[..33] == EncodeRow(r);
    Slice(b, 0, 33, 0, 8);
    Slice(b, 0, 33, 8, 16);
    Slice(b, 0, 33, 17, 25);
    Slice(b, 0, 33, 25, 33);
    assert b[16] == EncodeRow(r)[16];
  }

  /** A row byte by byte: symbol, order id, side letter, price, quantity. */
  predicate RowAt(b: Bytes, at: nat, r: Row) {
    && at + 33 <= |b| && b[at..at + 8] == r.symbol && Value(b[at + 8..at + 16]) == r.orderId
    && PriceField(Value(b[at + 17..at + 25]), r.price) && Value(b[at + 25..at + 33]) == r.qty
    && (b[at + 16] == 'B' as int <==> r.side.Buy?)
  }

  lemma RowLayout(b: Bytes, at: nat, r: Row)
    requires at + 33 <= |b| && RowFits(r) && b[at..at + 33] == EncodeRow(r)
    ensures RowAt(b, at, r) && (r.side.Sell? ==> b[at + 16] == 'S' as int)
  {
    FieldRoundTrip(r.orderId);
    FieldRoundTrip(ToU64(r.price));
    FieldRoundTrip(r.qty);
    SignedField(r.price);
    hide BigEndian, Value, ToU64, PriceField;
    RowFields(r.symbol, BigEndian(r.orderId, 8), SideByte(r.side), BigEndian(ToU64(r.price), 8), BigEndian(r.qty, 8));
    Slice(b, at, 33, 0, 8);
    Slice(b, at, 33, 8, 16);
    Slice(b, at, 33, 17, 25);
    Slice(b, at, 33, 25, 33);
    assert b[at..at + 33][16] == b[at + 16];
  }

  /** The five fields of a row at their offsets. */
  lemma RowFields(symbol: Bytes, id: Bytes, side: Byte, price: Bytes, qty: Bytes)
    requires |symbol| == |id| == |price| == |qty| == 8
    ensures var b := symbol + id + [side] + price + qty;
            && |b| == 33 && b[0..8] == symbol && b[8..16] == id && b[16] == side && b[17..25] == price
            && b[25..33] == qty
  {
    var front, back := symbol + id + [side], price + qty;
    var b := symbol + id + [side] + price + qty;
    assert b == front + back;
    assert front[0..8] == symbol && front[8..16] == id;
    assert back[0..8] == price && back[8..16] == qty;
    assert b[0..8] == front[0..8] && b[8..16] == front[8..16];
    assert b[17..25] == back[0..8] && b[25..33] == back[8..16];
  }

  function EncodeRows(rows: seq<Row>): (b: Bytes)
    ensures |b| == |rows| * ROW_LEN
  {
    if rows == [] then [] else EncodeRow(rows[0]) + EncodeRows(rows[1..])
  }

  function DecodeRows(b: Bytes, count: nat): seq<Row>
    requires |b| == count * ROW_LEN
  {
    if count == 0 then [] else [DecodeRow(b)] + DecodeRows(b[ROW_LEN..], count - 1)
  }

  lemma {:induction false} RowsRoundTrip(rows: seq<Row>)
    requires forall i :: 0 <= i < |rows| ==> RowFits(rows[i])
    ensures DecodeRows(EncodeRows(rows), |rows|) == rows
  {
    hide EncodeRow, DecodeRow, RowFits;
    if rows != [] {
      RowRoundTrip(rows[0], EncodeRows(rows[1..]));
      assert EncodeRows(rows)[ROW_LEN..] == EncodeRows(rows[1..]);
      RowsRoundTrip(rows[1..]);
    }
  }

  /** The row count is stored in four bytes. */
  function EncodeSnapshot(asOf: nat, rows: seq<Row>): Bytes {
    BigEndian(asOf, 8) + BigEndian(|rows| % U32, 4) + EncodeRows(rows)
  }

  function DecodeSnapshot(b: Bytes): Option<(nat, seq<Row>)> {
    if |b| < 12 then None
    else
      var count := Value(b[8..12]);
      if |b| != 12 + count * ROW_LEN then None
      else Some((Value(b[..8]), DecodeRows(b[12..], count)))
  }

  lemma CountWraps(n: nat)
    ensures 0 <= n % U32 <= n && (n % U32 == n <==> n < U32)
  {
  }

  lemma Sections(asOf: Bytes, count: Bytes, rows: Bytes)
    requires |asOf| == 8 && |count| == 4
    ensures var b := asOf + count + rows; b[..8] == asOf && b[8..12] == count && b[12..] == rows
  {
  }

  /** A snapshot decodes to itself exactly when its row count fits; otherwise it is rejected. */
  lemma SnapshotRoundTrip(asOf: nat, rows: seq<Row>)
    requires asOf < U64 && forall i :: 0 <= i < |rows| ==> RowFits(rows[i])
    ensures DecodeSnapshot(EncodeSnapshot(asOf, rows)) == if |rows| < U32 then Some((asOf, rows)) else None
  {
    var b := EncodeSnapshot(asOf, rows);
    var count := |rows| % U32;
    FieldRoundTrip(asOf);
    Powers();
    ValueOfBigEndian(count, 4);
    RowsRoundTrip(rows);
    Sections(BigEndian(asOf, 8), BigEndian(count, 4), EncodeRows(rows));
    hide BigEndian, Value, DecodeRows, EncodeRows;
    CountWraps(|rows|);
    assert |b| == 12 + |rows| * ROW_LEN && Value(b[8..12]) == count && Value(b[..8]) == asOf;
  }

  // ---------- the layout of a snapshot ----------

  /** Sequence number, row count, and one row after the other. */
  ghost predicate SnapshotOf(b: Bytes, asOf: nat, rows: seq<Row>) {
    && |b| == 12 + 33 * |rows| && Value(b[..8]) == asOf && Value(b[8..12]) == |rows| % 0x1_0000_0000
    && forall k :: 0 <= k < |rows| ==> RowAt(b, 12 + 33 * k, rows[k])
  }

  lemma {:induction false} RowsLaid(rows: seq<Row>, k: nat)
    requires k < |rows|
    ensures 33 * k + 33 <= |EncodeRows(rows)| && EncodeRows(rows)[33 * k..33 * k + 33] == EncodeRow(rows[k])
  {
    hide EncodeRow;
    var tail := EncodeRows(rows[1..]);
    if k > 0 {
      RowsLaid(rows[1..], k - 1);
      assert EncodeRows(rows)[33 * k..33 * k + 33] == tail[33 * (k - 1)..33 * (k - 1) + 33];
    }
  }

  lemma SnapshotLayout(asOf: nat, rows: seq<Row>)
    requires asOf < U64 && forall i :: 0 <= i < |rows| ==> RowFits(rows[i])
    ensures SnapshotOf(EncodeSnapshot(asOf, rows), asOf, rows)
  {
    var b, body := EncodeSnapshot(asOf, rows), EncodeRows(rows);
    FieldRoundTrip(asOf);
    Powers();
    ValueOfBigEndian(|rows| % U32, 4);
    Sections(BigEndian(asOf, 8), BigEndian(|rows| % U32, 4), body);
    hide BigEndian, Value, EncodeRows, RowAt, RowFits;
    forall k | 0 <= k < |rows| ensures RowAt(b, 12 + 33 * k, rows[k]) {
      RowsLaid(rows, k);
      Slice(b, 12, |body|, 33 * k, 33 * k + 33);
      RowLayout(b, 12 + 33 * k, rows[k]);
    }
  }

  lemma {:induction false} DecodedRows(b: Bytes, at: nat, count: nat)
    requires at + 33 * count == |b|
    ensures var rows := DecodeRows(b[at..], count);
            |rows| == count && forall k :: 0 <= k < count ==> RowAt(b, at + 33 * k, rows[k])
    decreases count
  {
    if count > 0 {
      DecodedRow(b, at);
      DecodedRows(b, at + 33, count - 1);
      hide RowAt, DecodeRow;
      assert b[at..][33..] == b[at + 33..];
      var rows, rest := DecodeRows(b[at..], count), DecodeRows(b[at + 33..], count - 1);
      forall k | 0 <= k < count ensures RowAt(b, at + 33 * k, rows[k]) {
        if k > 0 { assert rows[k] == rest[k - 1] && at + 33 * k == at + 33 + 33 * (k - 1); }
      }
    }
  }

  lemma DecodedRow(b: Bytes, at: nat)
    requires at + 33 <= |b|
    ensures RowAt(b, at, DecodeRow(b[at..]))
  {
    var c := b[at..];
    Powers();
    BigEndianOfValue(c[17..25]);
    hide BigEndian, Value, Power256;
    assert c == b[at..at + |c|];
    Slice(b, at, |c|, 0, 8);
    Slice(b, at, |c|, 8, 16);
    Slice(b, at, |c|, 17, 25);
    Slice(b, at, |c|, 25, 33);
    assert c[16] == b[at + 16];
  }

  /** A snapshot is rejected exactly when its length does not match its row count; otherwise it
      is decoded into what its bytes say. */
  lemma DecodesSnapshot(b: Bytes)
    ensures match DecodeSnapshot(b)
            case None => |b| < 12 || |b| != 12 + 33 * Value(b[8..12])
            case Some((asOf, rows)) =>
              |rows| < 0x1_0000_0000 && SnapshotOf(b, asOf, rows)
  {
    if |b| >= 12 && |b| == 12 + 33 * Value(b[8..12]) {
      Powers();
      BigEndianOfValue(b[8..12]);
      DecodedRows(b, 12, Value(b[8..12]));
      hide BigEndian, Value, Power256, DecodeRows, RowAt;
    }
  }

  method WriteSnapshot(asOf: nat, rows: seq<Row>) returns (out: Bytes)
    ensures out == EncodeSnapshot(asOf, rows)
  {
    out := BigEndian(asOf, 8) + BigEndian(|rows| % U32, 4);
    ghost var header := out;
    var i := 0;
    while i < |rows|
      invariant 0 <= i <= |rows|
      invariant header + EncodeRows(rows) == out + EncodeRows(rows[i..])
    {
      assert rows[i..][1..] == rows[i + 1..];
      var row := EncodeRow(rows[i]);
      assert out + (row + EncodeRows(rows[i + 1..])) == (out + row) + EncodeRows(rows[i + 1..]);
      out := out + row;
      i := i + 1;
    }
    assert rows[i..] == [] && out + [] == out;
  }

  method ReadSnapshot(b: Bytes) returns (r: Option<(nat, seq<Row>)>)
    ensures r == DecodeSnapshot(b)
  {
    if |b| < 12 { return None; }
    var asOf := GetBigEndian(b, 0, 8);
    var count := GetBigEndian(b, 8, 4);
    if |b| != 12 + count * ROW_LEN { return None; }
    var rows := ReadRows(b[12..], count);
    r := Some((asOf, rows));
  }

  method ReadRows(b: Bytes, count: nat) returns (rows: seq<Row>)
    requires |b| == count * ROW_LEN
    ensures rows == DecodeRows(b, count)
  {
    hide DecodeRow;
    rows := [];
    var i := 0;
    while i < count
      invariant 0 <= i <= count
      invariant DecodeRows(b, count) == rows + DecodeRows(b[i * ROW_LEN..], count - i)
    {
      ghost var rest := DecodeRows(b[(i + 1) * ROW_LEN..], count - i - 1);
      assert b[i * ROW_LEN..][ROW_LEN..] == b[(i + 1) * ROW_LEN..];
      var row := DecodeRow(b[i * ROW_LEN..]);
      assert rows + ([row] + rest) == rows + [row] + rest;
      rows := rows + [row];
      i := i + 1;
    }
    assert rows + [] == rows;
  }

  // ---------- rows and books ----------

  /** Every key of the books is a symbol that an event can carry. */
  ghost predicate Keyed(bs: Books) {
    forall s :: s in bs ==> IsSymbol(s)
  }

  /** The rows list the shown orders of the books, each once. */
  ghost predicate RowsOf(rows: seq<Row>, bs: Books) {
    && (forall i :: 0 <= i < |rows| ==> RowIn(rows[i], bs))
    && (forall i, j :: 0 <= i < j < |rows| ==> rows[i].symbol != rows[j].symbol || rows[i].orderId != rows[j].orderId)
    && (forall symbol, id :: Shown(BookFor(bs, symbol), id).Some? ==> Listed(rows, symbol, id))
  }

  ghost predicate RowIn(r: Row, bs: Books) {
    Shown(BookFor(bs, TrimSpaces(r.symbol)), r.orderId) == Some(RestingOrder(r.side, r.price, r.qty))
  }

  ghost predicate Listed(rows: seq<Row>, symbol: Bytes, id: nat) {
    exists i :: 0 <= i < |rows| && TrimSpaces(rows[i].symbol) == symbol && rows[i].orderId == id
  }

  function LoadRow(bs: Books, r: Row): Books {
    var symbol := TrimSpaces(r.symbol);
    bs[symbol := BookFor(bs, symbol)[r.orderId := RestingOrder(r.side, r.price, r.qty)]]
  }

  function LoadRows(rows: seq<Row>): Books {
    if rows == [] then map[] else LoadRow(LoadRows(rows[..|rows| - 1]), rows[|rows| - 1])
  }

  /** Loading gives each row's order and nothing else. */
  lemma {:induction false} LoadedOrders(rows: seq<Row>, symbol: Bytes, id: nat)
    requires forall i, j :: 0 <= i < j < |rows| ==>
        rows[i].symbol != rows[j].symbol || rows[i].orderId != rows[j].orderId
    ensures id in BookFor(LoadRows(rows), symbol) <==> Listed(rows, symbol, id)
    ensures forall i :: 0 <= i < |rows| && TrimSpaces(rows[i].symbol) == symbol && rows[i].orderId == id ==>
                          id in BookFor(LoadRows(rows), symbol) &&
                          BookFor(LoadRows(rows), symbol)[id] == RestingOrder(rows[i].side, rows[i].price, rows[i].qty)
  {
    hide TrimSpaces, SymbolPad;
    if rows != [] {
      var n := |rows| - 1;
      var front := rows[..n];
      LoadedOrders(front, symbol, id);
      assert forall i :: 0 <= i < n ==> front[i] == rows[i];
      assert Listed(rows, symbol, id) <==>
             Listed(front, symbol, id) || (TrimSpaces(rows[n].symbol) == symbol && rows[n].orderId == id) by {
        if Listed(front, symbol, id) {
          var i :| 0 <= i < |front| && TrimSpaces(front[i].symbol) == symbol && front[i].orderId == id;
          assert TrimSpaces(rows[i].symbol) == symbol && rows[i].orderId == id;
        }
      }
      forall i | 0 <= i < n && TrimSpaces(rows[i].symbol) == symbol && rows[i].orderId == id
        ensures !(TrimSpaces(rows[n].symbol) == symbol && rows[n].orderId == id)
      {
        TrimThenPad(rows[i].symbol);
        TrimThenPad(rows[n].symbol);
      }
    }
  }

  /** Loading a snapshot of some books shows the same orders as those books. */
  lemma LoadRestores(rows: seq<Row>, bs: Books)
    requires RowsOf(rows, bs)
    ensures SameOrders(LoadRows(rows), bs)
  {
    forall symbol, id ensures Shown(BookFor(LoadRows(rows), symbol), id) == Shown(BookFor(bs, symbol), id) {
      LoadedOrders(rows, symbol, id);
      if Listed(rows, symbol, id) {
        var i :| 0 <= i < |rows| && TrimSpaces(rows[i].symbol) == symbol && rows[i].orderId == id;
        assert RowIn(rows[i], bs);
      }
    }
  }

  // ---------- the builder ----------

  class Builder {
    var books: Books
    var lastSeq: nat

    constructor ()
      ensures books == map[] && lastSeq == 0 && Keyed(books)
    {
      books, lastSeq := map[], 0;
    }

    method Apply(seqNo: nat, e: MDEvent)
      requires Keyed(books)
      modifies this
      ensures books == ApplyEvent(old(books), e) && lastSeq == seqNo && Keyed(books)
    {
      var symbol := SymbolStr(e.symbol);
      TrimThenPad(e.symbol);
      var book := if symbol in books then books[symbol] else map[];
      if e.code == ADD {
        book := book[e.orderId := RestingOrder(e.side, e.price, e.qty)];
      } else if e.code == CANCEL || e.code == TRADE {
        if e.orderId in book {
          if e.qty >= book[e.orderId].qty {
            book := book - {e.orderId};
          } else {
            book := book[e.orderId := book[e.orderId].(qty := book[e.orderId].qty - e.qty)];
          }
        }
      } else if e.code == DELETE {
        book := book - {e.orderId};
      } else if e.code == REPLACE {
        book := book - {e.orderId};
        book := book[e.newOrderId := RestingOrder(e.side, e.price, e.qty)];
      }
      books := books[symbol := book];
      lastSeq := seqNo;
    }

    /** Seed the state from a snapshot. */
    method Load(asOf: nat, rows: seq<Row>)
      modifies this
      ensures books == LoadRows(rows) && lastSeq == asOf && Keyed(books)
    {
      hide TrimSpaces, SymbolPad;
      books := map[];
      var i := 0;
      while i < |rows|
        invariant 0 <= i <= |rows|
        invariant books == LoadRows(rows[..i]) && Keyed(books)
      {
        assert rows[..i + 1][..i] == rows[..i];
        var symbol := SymbolStr(rows[i].symbol);
        TrimThenPad(rows[i].symbol);
        var book := if symbol in books then books[symbol] else map[];
        books := books[symbol := book[rows[i].orderId := RestingOrder(rows[i].side, rows[i].price, rows[i].qty)]];
        i := i + 1;
      }
      assert rows[..i] == rows;
      lastSeq := asOf;
    }

    /** All shown orders, in any order the hash maps yield them. */
    method Rows() returns (rows: seq<Row>)
      requires Keyed(books)
      ensures RowsOf(rows, books)
    {
      rows := [];
      var symbols := books.Keys;
      while symbols != {}
        invariant symbols <= books.Keys
        invariant RowsUpTo(rows, books, symbols)
        decreases |symbols|
      {
        var symbol :| symbol in symbols;
        rows := SymbolRows(symbol, rows, symbols);
        symbols := symbols - {symbol};
      }
    }

    method SymbolRows(symbol: Bytes, done: seq<Row>, ghost symbols: set<Bytes>) returns (rows: seq<Row>)
      requires Keyed(books) && symbol in symbols && symbols <= books.Keys
      requires RowsUpTo(done, books, symbols)
      ensures RowsUpTo(rows, books, symbols - {symbol})
    {
      hide TrimSpaces, SymbolPad;
      rows := done;
      var padded := SymbolPad(symbol);
      PadThenTrim(symbol);
      var book := books[symbol];
      var ids := book.Keys;
      while ids != {}
        invariant ids <= book.Keys
        invariant Partial(rows, books, symbols, symbol, ids)
        decreases |ids|
      {
        var id :| id in ids;
        var o := book[id];
        if o.qty != 0 {
          RowAdded(rows, Row(padded, id, o.side, o.price, o.qty), books, symbols, symbol, ids);
          rows := rows + [Row(padded, id, o.side, o.price, o.qty)];
        }
        ids := ids - {id};
      }
    }
  }

  /** Rows for every symbol outside `todo`. */
  ghost predicate RowsUpTo(rows: seq<Row>, bs: Books, todo: set<Bytes>) {
    && (forall i :: 0 <= i < |rows| ==> RowIn(rows[i], bs) && TrimSpaces(rows[i].symbol) !in todo)
    && (forall i, j :: 0 <= i < j < |rows| ==> rows[i].symbol != rows[j].symbol || rows[i].orderId != rows[j].orderId)
    && (forall s, id :: s !in todo && Shown(BookFor(bs, s), id).Some? ==> Listed(rows, s, id))
  }

  /** Rows for every symbol outside `todo`, and for `symbol` all ids outside `ids`. */
  ghost predicate Partial(rows: seq<Row>, bs: Books, todo: set<Bytes>, symbol: Bytes, ids: set<nat>) {
    && (forall i :: 0 <= i < |rows| ==> RowIn(rows[i], bs))
    && (forall i :: 0 <= i < |rows| ==> TrimSpaces(rows[i].symbol) !in todo ||
                                        (TrimSpaces(rows[i].symbol) == symbol && rows[i].orderId !in ids))
    && (forall i, j :: 0 <= i < j < |rows| ==> rows[i].symbol != rows[j].symbol || rows[i].orderId != rows[j].orderId)
    && (forall s, id :: (s !in todo || (s == symbol && id !in ids)) && Shown(BookFor(bs, s), id).Some? ==>
        Listed(rows, s, id))
  }

  lemma RowAdded(rows: seq<Row>, r: Row, bs: Books, todo: set<Bytes>, symbol: Bytes, ids: set<nat>)
    requires Partial(rows, bs, todo, symbol, ids) && symbol in todo && r.orderId in ids
    requires TrimSpaces(r.symbol) == symbol && RowIn(r, bs)
    ensures Partial(rows + [r], bs, todo, symbol, ids - {r.orderId})
  {
    var rs := rows + [r];
    assert rs[|rows|] == r;
    forall s, id | (s !in todo || (s == symbol && id !in ids - {r.orderId})) && Shown(BookFor(bs, s), id).Some?
      ensures Listed(rs, s, id)
    {
      if s == symbol && id == r.orderId {
        assert TrimSpaces(rs[|rows|].symbol) == s && rs[|rows|].orderId == id;
      } else {
        assert Listed(rows, s, id);
        var i :| 0 <= i < |rows| && TrimSpaces(rows[i].symbol) == s && rows[i].orderId == id;
        assert TrimSpaces(rs[i].symbol) == s && rs[i].orderId == id;
      }
    }
  }
}

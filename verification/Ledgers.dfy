/** Conservation of quantity per order, over any run of the bounded engine. */
module Ledgers {
  import opened Orders
  import opened PriorityBook
  import opened EngineLaws

  /** A call on the engine. */
  datatype Op = Submit(req: OrderRequest) | Withdraw(id: nat) | Shrink(id: nat, delta: nat)

  function Apply(e: Engine, op: Op): Outcome {
    match op
    case Submit(req) => AddBounded(e, req)
    case Withdraw(id) => Outcome(ReduceBounded(e, id, None), [], None)
    case Shrink(id, delta) => Outcome(ReduceBounded(e, id, Some(delta)), [], None)
  }

  /** The call rests an order under an id that is resting already. */
  predicate Collides(e: Engine, op: Op) {
    op.Submit? && Clashes(e.book, op.req) && AddBounded(e, op.req).fault.None?
  }

  predicate CollisionFree(e: Engine, ops: seq<Op>)
    decreases ops
  {
    ops == [] || (!Collides(e, ops[0]) && CollisionFree(Apply(e, ops[0]).engine, ops[1..]))
  }

  function Run(e: Engine, ops: seq<Op>): Engine
    decreases ops
  {
    if ops == [] then e else Run(Apply(e, ops[0]).engine, ops[1..])
  }

  // ---------- quantities of one order ----------

  function QtyIn(f: seq<Entry>, id: nat): nat {
    if f == [] then 0 else (if f[0].id == id then f[0].qty else 0) + QtyIn(f[1..], id)
  }

  function QtyOn(b: Book, id: nat): nat {
    QtyIn(b.bids, id) + QtyIn(b.asks, id)
  }

  function AsMaker(t: seq<Trade>, id: nat): nat {
    if t == [] then 0 else (if t[0].makerId == id then t[0].qty else 0) + AsMaker(t[1..], id)
  }

  function AsTaker(t: seq<Trade>, id: nat): nat {
    if t == [] then 0 else (if t[0].takerId == id then t[0].qty else 0) + AsTaker(t[1..], id)
  }

  /** Where the quantity of one order went. */
  datatype Account = Account(submitted: nat, taken: nat, made: nat, withdrawn: nat, discarded: nat)

  const OPEN := Account(0, 0, 0, 0, 0)

  function Sum(a: Account, b: Account): Account {
    Account(a.submitted + b.submitted, a.taken + b.taken, a.made + b.made,
            a.withdrawn + b.withdrawn, a.discarded + b.discarded)
  }

  /** Quantity an order loses without trading or resting: the unfilled part of Market and
      IOC, a killed FOK, a crossing PostOnly, or a remainder refused by a fault. */
  function Discarded(e: Engine, req: OrderRequest): nat {
    var o := AddBounded(e, req);
    match req.kind
    case Cancel => 0
    case Limit => if o.fault.Some? then Minus(req.qty, Filled(o.trades)) else 0
    case PostOnly => if WouldCross(e.book, req) || o.fault.Some? then req.qty else 0
    case _ => Minus(req.qty, Filled(o.trades))
  }

  function Minus(a: nat, b: nat): nat {
    if a >= b then a - b else 0
  }

  /** What one call books on the account of `id`; observed from the call and its result. */
  function Entry1(e: Engine, op: Op, id: nat): Account {
    match op
    case Submit(req) =>
      var t := AddBounded(e, req).trades;
      var mine := req.id == id;
      Account(if mine && !req.kind.Cancel? then req.qty else 0, AsTaker(t, id), AsMaker(t, id),
              if mine && req.kind.Cancel? then QtyOn(e.book, id) else 0,
              if mine then Discarded(e, req) else 0)
    case Withdraw(x) => Account(0, 0, 0, if x == id then QtyOn(e.book, id) else 0, 0)
    case Shrink(x, delta) => Account(0, 0, 0, if x == id then Min(delta, QtyOn(e.book, id)) else 0, 0)
  }

  function AccountOf(e: Engine, ops: seq<Op>, id: nat): Account
    decreases ops
  {
    if ops == [] then OPEN
    else Sum(Entry1(e, ops[0], id), AccountOf(Apply(e, ops[0]).engine, ops[1..], id))
  }

  // ---------- laws of single operations ----------

  lemma {:induction false} WalkMakes(f: seq<Entry>, side: Side, limit: Option<int>, taker: nat, qty: nat, id: nat)
    ensures var w := Walk(f, side, limit, taker, qty); QtyIn(w.rest, id) + AsMaker(w.trades, id) == QtyIn(f, id)
  {
    var w := Walk(f, side, limit, taker, qty);
    if qty == 0 || f == [] || !Crosses(side, limit, f[0].price) {
    } else if f[0].qty <= qty {
      WalkMakes(f[1..], side, limit, taker, qty - f[0].qty, id);
      assert w.trades[1..] == Walk(f[1..], side, limit, taker, qty - f[0].qty).trades;
    } else {
      assert w.trades[1..] == [] && w.rest[1..] == f[1..];
    }
  }

  lemma {:induction false} WalkTakes(f: seq<Entry>, side: Side, limit: Option<int>, taker: nat, qty: nat, id: nat)
    ensures var w := Walk(f, side, limit, taker, qty);
            AsTaker(w.trades, id) == if id == taker then Filled(w.trades) else 0
  {
    var w := Walk(f, side, limit, taker, qty);
    if qty == 0 || f == [] || !Crosses(side, limit, f[0].price) {
    } else if f[0].qty <= qty {
      WalkTakes(f[1..], side, limit, taker, qty - f[0].qty, id);
      assert w.trades[1..] == Walk(f[1..], side, limit, taker, qty - f[0].qty).trades;
    } else {
      assert w.trades[1..] == [];
    }
  }

  lemma {:induction false} InsertAdds(f: seq<Entry>, side: Side, e: Entry, id: nat)
    ensures QtyIn(Insert(f, side, e), id) == QtyIn(f, id) + if e.id == id then e.qty else 0
  {
    if f == [] {
    } else if Beats(side, e.price, f[0].price) {
      assert ([e] + f)[1..] == f;
    } else {
      InsertAdds(f[1..], side, e, id);
      assert Insert(f, side, e)[1..] == Insert(f[1..], side, e);
    }
  }

  lemma {:induction false} AbsentHasNone(f: seq<Entry>, id: nat)
    requires forall k :: 0 <= k < |f| ==> f[k].id != id
    ensures QtyIn(f, id) == 0
  {
    if f != [] { AbsentHasNone(f[1..], id); }
  }

  lemma {:induction false} TrimTakes(f: seq<Entry>, x: nat, amount: Option<nat>, id: nat)
    requires Unique(f)
    ensures QtyIn(Trim(f, x, amount), id) ==
            if x != id then QtyIn(f, id)
            else if amount.None? then 0 else QtyIn(f, id) - Min(amount.value, QtyIn(f, id))
  {
    if f != [] {
      assert Unique(f[1..]);
      TrimTakes(f[1..], x, amount, id);
      var g, h := Trim(f[1..], x, amount), Trim(f, x, amount);
      if f[0].id == x {
        assert forall k :: 0 <= k < |f[1..]| ==> f[1..][k].id == f[k + 1].id != x;
        AbsentHasNone(f[1..], x);
      }
      assert h != g ==> h[1..] == g;
    }
  }

  lemma UniqueSides(b: Book, id: nat)
    requires WellFormed(b)
    ensures Unique(b.bids) && Unique(b.asks)
    ensures QtyIn(b.bids, id) == 0 || QtyIn(b.asks, id) == 0
  {
    var g := b.bids + b.asks;
    assert forall i :: 0 <= i < |b.bids| ==> g[i] == b.bids[i];
    assert forall i :: 0 <= i < |b.asks| ==> g[|b.bids| + i] == b.asks[i];
    if Holds(b.bids, id) {
      var k :| 0 <= k < |b.bids| && b.bids[k].id == id;
      AbsentHasNone(b.asks, id);
    } else {
      AbsentHasNone(b.bids, id);
    }
  }

  lemma TrimAccount(b: Book, x: nat, amount: Option<nat>, id: nat)
    requires WellFormed(b)
    ensures QtyOn(TrimBook(b, x, amount), id) ==
            if x != id then QtyOn(b, id)
            else if amount.None? then 0 else QtyOn(b, id) - Min(amount.value, QtyOn(b, id))
  {
    UniqueSides(b, id);
    TrimTakes(b.bids, x, amount, id);
    TrimTakes(b.asks, x, amount, id);
  }

  lemma SweepAccount(b: Book, req: OrderRequest, id: nat)
    ensures var s := Sweep(b, req);
            && QtyOn(s.book, id) + AsMaker(s.trades, id) == QtyOn(b, id)
            && AsTaker(s.trades, id) == (if id == req.id then Filled(s.trades) else 0)
            && Filled(s.trades) + s.rests == req.qty
  {
    var opp := Opposite(req.side);
    var f := OnSide(b, opp);
    WalkMakes(f, opp, LimitOf(req), req.id, req.qty, id);
    WalkTakes(f, opp, LimitOf(req), req.id, req.qty, id);
    WalkIsPrefix(f, opp, LimitOf(req), req.id, req.qty);
  }

  lemma RestAccount(b: Book, req: OrderRequest, qty: nat, id: nat)
    ensures QtyOn(Rest(b, req, qty), id) == QtyOn(b, id) + if req.id == id then qty else 0
  {
    InsertAdds(OnSide(b, req.side), req.side, Entry(req.id, req.price, qty), id);
  }

  /** One call balances every account. */
  lemma CallBalances(e: Engine, op: Op, id: nat)
    requires Sound(e)
    ensures var a := Entry1(e, op, id);
            QtyOn(e.book, id) + a.submitted ==
            QtyOn(Apply(e, op).engine.book, id) + a.taken + a.made + a.withdrawn + a.discarded
  {
    match op {
      case Withdraw(x) => TrimAccount(e.book, x, None, id);
      case Shrink(x, delta) => TrimAccount(e.book, x, Some(delta), id);
      case Submit(req) => SubmitBalances(e, req, id);
    }
  }

  lemma SubmitBalances(e: Engine, req: OrderRequest, id: nat)
    requires Sound(e)
    ensures var a := Entry1(e, Submit(req), id);
            QtyOn(e.book, id) + a.submitted ==
            QtyOn(AddBounded(e, req).engine.book, id) + a.taken + a.made + a.withdrawn + a.discarded
  {
    SoundBook(e);
    hide Sound, QtyOn, Rests, WellFormed, AddBounded, Sweep, Rest, TrimBook, WouldCross;
    BookAfter(e, req);
    SweepAccount(e.book, req, id);
    RestAccount(e.book, req, req.qty, id);
    RestAccount(Sweep(e.book, req).book, req, Sweep(e.book, req).rests, id);
    TrimAccount(e.book, req.id, None, id);
    NoTrades(id);
  }

  lemma NoTrades(id: nat)
    ensures Filled([]) == 0 && AsMaker([], id) == 0 && AsTaker([], id) == 0
  {
  }

  /** The possible effects of one order, by type. */
  lemma BookAfter(e: Engine, req: OrderRequest)
    ensures var o, s := AddBounded(e, req), Sweep(e.book, req);
            match req.kind
            case Cancel => o.trades == [] && o.engine.book == TrimBook(e.book, req.id, None)
            case PostOnly =>
              o.trades == [] && o.engine.book == if WouldCross(e.book, req) || o.fault.Some? then e.book
                                                 else Rest(e.book, req, req.qty)
            case Limit =>
              o.trades == s.trades && o.engine.book == (if s.rests == 0 || o.fault.Some? then s.book
                                                        else Rest(s.book, req, s.rests))
              && (s.rests == 0 ==> o.fault.None?)
            case FOK => (o.trades == [] && o.engine.book == e.book) || (o.trades == s.trades && o.engine.book == s.book)
            case _ => o.trades == s.trades && o.engine.book == s.book
  {
    hide Rest, WouldCross, Widen, WindowFor, Walk, Crossable, TrimBook;
  }

  lemma SoundBook(e: Engine)
    requires Sound(e)
    ensures WellFormed(e.book)
  {
  }

  /** A call keeps the engine sound exactly unless it collides. */
  lemma ApplySound(e: Engine, op: Op)
    requires Sound(e)
    ensures Sound(Apply(e, op).engine) <==> !Collides(e, op)
  {
    hide Sound, AddBounded, ReduceBounded, Clashes;
    match op {
      case Submit(req) => AddSound(e, req);
      case Withdraw(id) => TrimSound(e, id, None);
      case Shrink(id, delta) => TrimSound(e, id, Some(delta));
    }
  }

  /** Over any run, faults included, an order's quantity is fully accounted for and the
      engine stays sound. */
  lemma {:induction false} LedgerBalances(e: Engine, ops: seq<Op>, id: nat)
    requires Sound(e) && CollisionFree(e, ops)
    ensures Sound(Run(e, ops))
    ensures var a := AccountOf(e, ops, id);
            QtyOn(e.book, id) + a.submitted ==
            QtyOn(Run(e, ops).book, id) + a.taken + a.made + a.withdrawn + a.discarded
    decreases ops
  {
    if ops != [] {
      hide Sound, QtyOn, Entry1, Apply, Collides;
      ApplySound(e, ops[0]);
      CallBalances(e, ops[0], id);
      LedgerBalances(Apply(e, ops[0]).engine, ops[1..], id);
    }
  }

  ghost predicate SoundThroughout(e: Engine, ops: seq<Op>)
    decreases ops
  {
    Sound(e) && (ops == [] || SoundThroughout(Apply(e, ops[0]).engine, ops[1..]))
  }

  /** A run stays sound exactly as long as no call rests an order under a resting id. */
  lemma {:induction false} SoundUntilCollision(e: Engine, ops: seq<Op>)
    requires Sound(e)
    ensures SoundThroughout(e, ops) <==> CollisionFree(e, ops)
    decreases ops
  {
    if ops != [] {
      hide Sound, Apply, Collides;
      ApplySound(e, ops[0]);
      if !Collides(e, ops[0]) { SoundUntilCollision(Apply(e, ops[0]).engine, ops[1..]); }
    }
  }
}

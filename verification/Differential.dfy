/** The differential fuzz harness (cpp/fuzz/fuzz_v1.cpp, cpp/fuzz/fuzz_v2.cpp) as one
    method: both engines run the same operations and their outputs are compared. The
    repository runs it on random inputs; here it is proved for every input. */
module Differential {
  import opened Orders
  import opened PriorityBook
  import opened PriorityLaws
  import opened EngineLaws
  import opened OrderTypes
  import opened LevelStore
  import opened MatchingEngine
  import opened ReferenceEngine

  datatype Op = AddOp(req: OrderRequest) | CancelOp(id: nat)

  /** What the harness can see after one operation. */
  datatype Observation = Observation(trades: seq<Trade>, found: bool, bestBid: int, bestAsk: int, depth: nat)

  function Observe(b: Book, trades: seq<Trade>, found: bool): Observation {
    Observation(trades, found,
                if b.bids == [] then 0 else b.bids[0].price,
                if b.asks == [] then 0 else b.asks[0].price,
                Depth(b))
  }

  /** The best prices observed are the highest bid and the lowest ask. */
  lemma ObservesBest(e: Engine, trades: seq<Trade>, found: bool)
    requires Sound(e)
    ensures var o, b := Observe(e.book, trades, found), e.book;
            && o.trades == trades && o.found == found && o.depth == |b.bids| + |b.asks|
            && (if b.bids == [] then o.bestBid == 0
                else (exists k :: 0 <= k < |b.bids| && b.bids[k].price == o.bestBid)
                     && forall k :: 0 <= k < |b.bids| ==> b.bids[k].price <= o.bestBid)
            && (if b.asks == [] then o.bestAsk == 0
                else (exists k :: 0 <= k < |b.asks| && b.asks[k].price == o.bestAsk)
                     && forall k :: 0 <= k < |b.asks| ==> b.asks[k].price >= o.bestAsk)
  {
    SidesInNumbers(e);
    hide Sound;
    var o, b := Observe(e.book, trades, found), e.book;
    if b.bids != [] { assert b.bids[0].price == o.bestBid; }
    if b.asks != [] { assert b.asks[0].price == o.bestAsk; }
  }

  ghost function Step(b: Book, op: Op): (Book, Observation) {
    match op
    case AddOp(req) =>
      var r := Add(b, req);
      (r.book, Observe(r.book, r.trades, false))
    case CancelOp(id) =>
      var c := TrimBook(b, id, None);
      (c, Observe(c, [], Rests(b, id)))
  }

  /** The log of a run under the priority-list specification. */
  ghost function SpecLog(b: Book, ops: seq<Op>): seq<Observation>
    decreases ops
  {
    if ops == [] then []
    else [Step(b, ops[0]).1] + SpecLog(Step(b, ops[0]).0, ops[1..])
  }

  /** What the bounded engine makes of one operation. */
  function Bounded(e: Engine, op: Op): Outcome {
    match op
    case AddOp(req) => AddBounded(e, req)
    case CancelOp(id) => Outcome(ReduceBounded(e, id, None), [], None)
  }

  /** How many operations the bounded engine takes before the first it refuses, and why. */
  function SpecStop(e: Engine, ops: seq<Op>): (nat, Option<Fault>)
    decreases ops
  {
    if ops == [] then (0, None)
    else
      var o := Bounded(e, ops[0]);
      if o.fault.Some? then (0, o.fault)
      else
        var (n, fault) := SpecStop(o.engine, ops[1..]);
        (n + 1, fault)
  }

  /** The operation rests an order under an id that is resting already. */
  predicate Collides(e: Engine, op: Op) {
    op.AddOp? && Clashes(e.book, op.req) && Bounded(e, op).fault.None?
  }

  /** No operation collides, up to the first one the bounded engine refuses. Ids may come
      back once their order has left the book. */
  predicate CollisionFree(e: Engine, ops: seq<Op>)
    decreases ops
  {
    ops == [] ||
    (!Collides(e, ops[0]) &&
     var o := Bounded(e, ops[0]); o.fault.None? ==> CollisionFree(o.engine, ops[1..]))
  }

  method StepReference(book: OrderBook, op: Op) returns (o: Observation)
    requires book.Valid() && (op.AddOp? ==> !Clashes(book.Contents(), op.req))
    modifies book
    ensures book.Valid() && (book.Contents(), o) == Step(old(book.Contents()), op)
  {
    hide OrderBook.Valid, OrderBook.Contents, Rests, Add, TrimBook, Clashes;
    var found, trades := false, [];
    match op {
      case AddOp(req) => trades := book.Add(req);
      case CancelOp(id) => found := book.Cancel(id);
    }
    var bid := book.BestBid();
    var ask := book.BestAsk();
    var depth := book.DepthCount();
    o := Observation(trades, found, bid, ask, depth);
  }

  method StepFast(book: OrderBookV2, op: Op) returns (o: Observation, fault: Option<Fault>)
    requires book.Valid() && !Collides(book.Abs(), op)
    modifies book, book.arena, book.index
    ensures book.Valid()
    ensures book.Abs() == Bounded(old(book.Abs()), op).engine && fault == Bounded(old(book.Abs()), op).fault
    ensures fault.None? ==> (book.Contents(), o) == Step(old(book.Contents()), op)
  {
    hide OrderBookV2.Valid, OrderBookV2.Contents, Rests, Add, TrimBook, AddBounded, Clashes;
    var found, trades := false, [];
    fault := None;
    match op {
      case AddOp(req) =>
        AgreeUnlessFault(book.Abs(), req);
        trades, fault := book.Add(req);
      case CancelOp(id) =>
        found := book.Cancel(id);
    }
    var bid := book.BestBid();
    var ask := book.BestAsk();
    var depth := book.DepthCount();
    o := Observation(trades, found, bid, ask, depth);
  }

  /** Both engines see the same trades, cancel results, best prices and depth after every
      operation, up to the first operation that the bounded specification refuses, and they
      stop there and nowhere else. */
  method RunBoth(ops: seq<Op>, arenaCapacity: nat, initialWindow: nat)
    returns (log1: seq<Observation>, log2: seq<Observation>, fault: Option<Fault>)
    requires CollisionFree(NewEngine(arenaCapacity, initialWindow), ops) && arenaCapacity <= NIL
    ensures log1 == log2
    ensures log1 <= SpecLog(EMPTY_BOOK, ops)
    ensures (|log1|, fault) == SpecStop(NewEngine(arenaCapacity, initialWindow), ops)
    ensures fault.None? ==> log1 == SpecLog(EMPTY_BOOK, ops)
  {
    hide OrderBook.Valid, OrderBook.Contents, OrderBookV2.Valid, OrderBookV2.Contents, OrderBookV2.Abs,
         Step, Bounded, Clashes, SpecLog, SpecStop, CollisionFree;
    var v1 := new OrderBook();
    var v2 := new OrderBookV2(arenaCapacity, initialWindow);
    log1, log2, fault := [], [], None;
    assert ops[0..] == ops;
    BookOfAbs(v2);
    var n := 0;
    while n < |ops|
      invariant 0 <= n <= |ops|
      invariant fresh(v1) && fresh(v2) && fresh(v2.arena) && fresh(v2.index)
      invariant v1.Valid() && v2.Valid() && v1.Contents() == v2.Contents()
      invariant CollisionFree(v2.Abs(), ops[n..])
      invariant log1 == log2 && |log1| == n && fault.None?
      invariant SpecStop(NewEngine(arenaCapacity, initialWindow), ops) ==
                (n + SpecStop(v2.Abs(), ops[n..]).0, SpecStop(v2.Abs(), ops[n..]).1)
      invariant SpecLog(EMPTY_BOOK, ops) == log1 + SpecLog(v1.Contents(), ops[n..])
    {
      NextOp(v1.Contents(), v2.Abs(), ops, n);
      NextFree(v2.Abs(), ops, n);
      BookOfAbs(v2);
      var o2;
      o2, fault := StepFast(v2, ops[n]);
      if fault.Some? { return; }
      var o1 := StepReference(v1, ops[n]);
      log1 := log1 + [o1];
      log2 := log2 + [o2];
      n := n + 1;
    }
    assert ops[n..] == [];
    NothingLeft(v1.Contents(), v2.Abs());
  }

  lemma NothingLeft(b: Book, e: Engine)
    ensures SpecLog(b, []) == [] && SpecStop(e, []) == (0, None)
  {
  }

  lemma NextOp(b: Book, e: Engine, ops: seq<Op>, n: nat)
    requires n < |ops|
    ensures SpecLog(b, ops[n..]) == [Step(b, ops[n]).1] + SpecLog(Step(b, ops[n]).0, ops[n + 1..])
    ensures var o := Bounded(e, ops[n]);
            SpecStop(e, ops[n..]) ==
            if o.fault.Some? then (0, o.fault)
            else (SpecStop(o.engine, ops[n + 1..]).0 + 1, SpecStop(o.engine, ops[n + 1..]).1)
  {
    hide Step, Bounded;
    assert ops[n..][1..] == ops[n + 1..];
  }

  lemma NextFree(e: Engine, ops: seq<Op>, n: nat)
    requires n < |ops| && CollisionFree(e, ops[n..])
    ensures !Collides(e, ops[n])
    ensures var o := Bounded(e, ops[n]); o.fault.None? ==> CollisionFree(o.engine, ops[n + 1..])
  {
    hide Bounded, Collides;
    assert ops[n..][1..] == ops[n + 1..];
  }

  lemma BookOfAbs(book: OrderBookV2)
    ensures book.Abs().book == book.Contents()
  {
  }

  // ---------- ids used once ----------

  /** The operation brings in an order that may come to rest. */
  predicate Brings(op: Op) {
    op.AddOp? && (op.req.kind.Limit? || op.req.kind.PostOnly?)
  }

  /** Ids of orders that may rest are handed out once; any other operation may name any id. */
  predicate DistinctIds(ops: seq<Op>) {
    forall i, j :: 0 <= i < j < |ops| && Brings(ops[i]) && Brings(ops[j]) ==> ops[i].req.id != ops[j].req.id
  }

  ghost predicate IssuedBefore(b: Book, ops: seq<Op>, n: nat)
    requires n <= |ops|
  {
    forall id :: Rests(b, id) ==> exists i :: 0 <= i < n && Brings(ops[i]) && ops[i].req.id == id
  }

  lemma IssuedStep(b: Book, ops: seq<Op>, n: nat)
    requires n < |ops| && IssuedBefore(b, ops, n)
    ensures IssuedBefore(Step(b, ops[n]).0, ops, n + 1)
  {
    var c := Step(b, ops[n]).0;
    forall id | Rests(c, id) ensures exists i :: 0 <= i < n + 1 && Brings(ops[i]) && ops[i].req.id == id {
      if ops[n].AddOp? {
        AddIssues(b, ops[n].req, id);
        if Brings(ops[n]) && ops[n].req.id == id { assert Brings(ops[n]) && ops[n].req.id == id; }
      } else {
        TrimIssues(b, ops[n].id, None, id);
      }
    }
  }

  lemma Unissued(e: Engine, ops: seq<Op>, n: nat)
    requires n < |ops| && IssuedBefore(e.book, ops, n) && DistinctIds(ops)
    ensures !Collides(e, ops[n])
  {
    hide Clashes, Bounded, Rests;
    if ops[n].AddOp? { FreshNeverClashes(e.book, ops[n].req); }
  }

  lemma BoundedBook(e: Engine, op: Op)
    ensures Bounded(e, op).fault.None? ==> Bounded(e, op).engine.book == Step(e.book, op).0
  {
    hide AddBounded, Add, Observe;
    if op.AddOp? { AgreeUnlessFault(e, op.req); }
  }

  lemma {:induction false} NoneCollides(e: Engine, ops: seq<Op>, n: nat)
    requires n <= |ops| && IssuedBefore(e.book, ops, n) && DistinctIds(ops)
    ensures CollisionFree(e, ops[n..])
    decreases |ops| - n
  {
    hide Bounded, Step, Collides, IssuedBefore, DistinctIds;
    if n < |ops| {
      assert ops[n..][1..] == ops[n + 1..];
      Unissued(e, ops, n);
      BoundedBook(e, ops[n]);
      IssuedStep(e.book, ops, n);
      if Bounded(e, ops[n]).fault.None? { NoneCollides(Bounded(e, ops[n]).engine, ops, n + 1); }
    }
  }

  /** Ids used once never collide, whatever the capacity and the window. */
  lemma DistinctIdsNeverCollide(ops: seq<Op>, arenaCapacity: nat, initialWindow: nat)
    requires DistinctIds(ops)
    ensures CollisionFree(NewEngine(arenaCapacity, initialWindow), ops)
  {
    hide CollisionFree, DistinctIds;
    assert ops[0..] == ops;
    forall id ensures !Rests(EMPTY_BOOK, id) { }
    NoneCollides(NewEngine(arenaCapacity, initialWindow), ops, 0);
  }
}

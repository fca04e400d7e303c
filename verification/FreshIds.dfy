/** Streams whose order reference numbers are used once meet every freshness hypothesis of the
    sequencer results, whatever the risk policy does. */
module FreshIds {
  import opened Orders
  import opened PriorityBook
  import opened EngineLaws
  import opened Wire
  import opened MarketData
  import opened Sequencing
  import opened FeedLaws
  import opened FeedTheorems

  lemma {:induction false} FreshSnoc<R>(setup: Setup<R>, st: State<R>, ms: seq<Msg>, m: Msg)
    ensures FreshMsgs(setup, st, ms + [m]) <==>
            FreshMsgs(setup, st, ms) && FreshMsg(setup, RunAll(setup, st, ms).state, m)
    decreases ms
  {
    hide Step, FreshMsg;
    if ms == [] {
      assert [m][1..] == [] && [] + [m] == [m];
    } else {
      assert (ms + [m])[1..] == ms[1..] + [m];
      FreshSnoc(setup, Step(setup, st, ms[0]).state, ms[1..], m);
    }
  }

  lemma {:induction false} EverywhereSnoc<R>(setup: Setup<R>, st: State<R>, ms: seq<Msg>, m: Msg)
    ensures AllFreshEverywhere(setup, st, ms + [m]) <==>
            AllFreshEverywhere(setup, st, ms) && FreshEverywhere(setup, RunAll(setup, st, ms).state, m)
    decreases ms
  {
    hide Step, FreshEverywhere;
    if ms == [] {
      assert [m][1..] == [] && [] + [m] == [m];
    } else {
      assert (ms + [m])[1..] == ms[1..] + [m];
      EverywhereSnoc(setup, Step(setup, st, ms[0]).state, ms[1..], m);
    }
  }

  /** What rests after a message rested before it or was brought in by it. */
  lemma RestingOrigin<R>(setup: Setup<R>, st: State<R>, m: Msg, symbol: Bytes, id: nat)
    requires Kept(setup, st) && FreshMsg(setup, st, m)
    requires Rests(BookAt(setup, Step(setup, st, m).state, symbol), id)
    ensures Rests(BookAt(setup, st, symbol), id) || Issued(m) == Some(id)
  {
    hide Sound, Tidy, OrderOf, OnDesk, Rests, FreshAt, IsSymbol, Missed, Plus;
    match Target(st.routes, m) {
      case None =>
      case Some(info) =>
        if symbol == info.symbol {
          var desk := DeskOf(setup, st.desks, symbol);
          assert Orderly(desk);
          LocalOrigin(setup, desk, info, m, id);
          RouteIssued(setup, desk, info, m);
          OrderOfRests(desk.engine.book, id);
          OrderOfRests(OnDesk(setup, desk, info, m).desk.engine.book, id);
        }
    }
  }

  /** Every id resting after the first `n` messages was brought in by one of them. */
  ghost predicate AllIssued<R>(setup: Setup<R>, st: State<R>, ms: seq<Msg>, n: nat)
    requires n <= |ms|
  {
    forall symbol, id: nat :: Rests(BookAt(setup, st, symbol), id) ==>
      exists i :: 0 <= i < n && Issued(ms[i]) == Some(id)
  }

  lemma NewIsFresh<R>(setup: Setup<R>, st: State<R>, ms: seq<Msg>, n: nat)
    requires n < |ms| && AllIssued(setup, st, ms, n) && NeverReused(ms)
    ensures FreshEverywhere(setup, st, ms[n])
  {
    hide Rests;
    assert forall i :: 0 <= i < n && Issued(ms[i]).Some? ==> Issued(ms[i]) != Issued(ms[n]);
    forall symbol ensures FreshAt(BookAt(setup, st, symbol), ms[n]) {
      if Issued(ms[n]).Some? { assert !Rests(BookAt(setup, st, symbol), Issued(ms[n]).value); }
    }
  }

  lemma IssuedNext<R>(setup: Setup<R>, st: State<R>, ms: seq<Msg>, n: nat)
    requires n < |ms| && AllIssued(setup, st, ms, n) && Kept(setup, st) && FreshMsg(setup, st, ms[n])
    ensures AllIssued(setup, Step(setup, st, ms[n]).state, ms, n + 1)
  {
    hide Rests, Step, FreshMsg, Kept;
    var t := Step(setup, st, ms[n]).state;
    forall symbol, id: nat | Rests(BookAt(setup, t, symbol), id)
      ensures exists i :: 0 <= i < n + 1 && Issued(ms[i]) == Some(id)
    {
      RestingOrigin(setup, st, ms[n], symbol, id);
      if Issued(ms[n]) == Some(id) {
        assert 0 <= n < n + 1 && Issued(ms[n]) == Some(id);
      } else {
        var i :| 0 <= i < n && Issued(ms[i]) == Some(id);
        assert 0 <= i < n + 1;
      }
    }
  }

  lemma NothingRestsAtStart<R>(setup: Setup<R>, ms: seq<Msg>)
    ensures AllIssued(setup, Start<R>(), ms, 0) && AllFreshEverywhere(setup, Start<R>(), [])
  {
    forall symbol, id: nat ensures !Rests(BookAt(setup, Start<R>(), symbol), id) { }
  }

  lemma {:induction false} FreshSoFar<R>(setup: Setup<R>, ms: seq<Msg>, n: nat)
    requires n <= |ms| && NeverReused(ms)
    ensures var st := RunAll(setup, Start<R>(), ms[..n]).state;
            AllFreshEverywhere(setup, Start<R>(), ms[..n]) && Kept(setup, st) && AllIssued(setup, st, ms, n)
    decreases n
  {
    hide Kept, AllIssued, FreshMsg, FreshEverywhere, Step, NeverReused;
    if n == 0 {
      StartKept(setup);
      NothingRestsAtStart(setup, ms);
    } else {
      hide AllFreshEverywhere;
      var front, m := ms[..n - 1], ms[n - 1];
      FreshSoFar(setup, ms, n - 1);
      var st := RunAll(setup, Start<R>(), front).state;
      NewIsFresh(setup, st, ms, n - 1);
      EverywhereStep(setup, st, m);
      StepKept(setup, st, m);
      IssuedNext(setup, st, ms, n - 1);
      EverywhereSnoc(setup, Start<R>(), front, m);
      RunSnoc(setup, Start<R>(), front, m);
      assert ms[..n] == front + [m];
    }
  }

  /** Ids used once are fresh when they arrive. */
  lemma NeverReusedIsFresh<R>(setup: Setup<R>, ms: seq<Msg>)
    requires NeverReused(ms)
    ensures AllFreshEverywhere(setup, Start<R>(), ms) && FreshMsgs(setup, Start<R>(), ms)
  {
    hide NeverReused, FreshMsgs, AllFreshEverywhere, RunAll, Kept, AllIssued;
    FreshSoFar(setup, ms, |ms|);
    assert ms[..|ms|] == ms;
    EverywhereIsHere(setup, Start<R>(), ms);
  }
}

/** Orders that go through the book again after an invalidation: they may already be partly
    filled, and they carry the snapshot they were published with (engine/orderbook.go:98-221,
    345-350, 399-404). */
module Resubmission {
  import opened Orders
  import opened OrderStore
  import opened Matching
  import FreshRuns
  import BookRuns

  /** Whatever is already filled, the total traded is the smaller of what the taker and what the
      crossing orders have left. */
  lemma {:induction false} WalkTotal(o: Order, counter: int, makers: seq<Order>)
    requires o.InRange() && counter >= o.Remaining()
    requires forall i :: 0 <= i < |makers| ==> makers[i].InRange()
    ensures TradeSum(Walk(o, counter, makers).trades) ==
              if RemainingSum(makers) < o.Remaining() then RemainingSum(makers) else o.Remaining()
    decreases |makers|
  {
    if makers != [] {
      var x := Execute(o, makers[0]);
      var c := counter - x.trade.amount;
      RemainingSumNatural(makers[1..]);
      if c != 0 {
        var r := Walk(x.taker, c, makers[1..]);
        WalkTotal(x.taker, c, makers[1..]);
        assert ([x.trade] + r.trades)[1..] == r.trades;
      }
    }
  }

  lemma {:induction false} RemainingSumNatural(os: seq<Order>)
    requires forall i :: 0 <= i < |os| ==> os[i].InRange()
    ensures RemainingSum(os) >= 0
  {
    if os != [] {
      RemainingSumNatural(os[1..]);
    }
  }

  /** The loop counts down from the whole amount, so a taker with something filled never makes it
      stop: all crossing orders are visited, and the order is never marked filled. */
  lemma NeverMarkedFilled(o: Order, makers: seq<Order>)
    requires o.InRange() && o.filled > 0 && makers != []
    requires forall i :: 0 <= i < |makers| ==> makers[i].InRange()
    ensures var w := Walk(o, o.hash.amount, makers);
            !w.exhausted && |w.matched| == |makers| && Taken(o, makers).status == PartialFilled
  {
    WalkCounter(o, o.hash.amount, makers);
    WalkEnd(o, o.hash.amount, makers);
  }

  lemma {:induction false} WalkCounter(o: Order, counter: int, makers: seq<Order>)
    requires o.InRange() && counter > o.Remaining()
    requires forall i :: 0 <= i < |makers| ==> makers[i].InRange()
    ensures !Walk(o, counter, makers).exhausted
    decreases |makers|
  {
    if makers != [] {
      var x := Execute(o, makers[0]);
      WalkCounter(x.taker, counter - x.trade.amount, makers[1..]);
    }
  }

  lemma {:induction false} RemainingSumPrefix(os: seq<Order>, k: nat)
    requires k <= |os| && forall i :: 0 <= i < |os| ==> os[i].InRange()
    ensures RemainingSum(os[..k]) <= RemainingSum(os)
    decreases |os|
  {
    if k == 0 {
      RemainingSumNatural(os);
    } else {
      assert os[..k][1..] == os[1..][..k - 1];
      RemainingSumPrefix(os[1..], k - 1);
    }
  }

  // ---- zero-amount trades ----

  /** A taker with something filled trades nothing with a maker exactly when the makers before it
      could use up what it had left. */
  lemma {:induction false} WalkZero(o: Order, counter: int, makers: seq<Order>, k: nat)
    requires o.InRange() && counter > o.Remaining() && k < |makers|
    requires forall i :: 0 <= i < |makers| ==> makers[i].InRange() && makers[i].Remaining() > 0
    ensures var w := Walk(o, counter, makers);
            |w.trades| == |makers| && (w.trades[k].amount == 0 <==> RemainingSum(makers[..k]) >= o.Remaining())
    decreases |makers|
  {
    var x := Execute(o, makers[0]);
    var rest := makers[1..];
    WalkLength(x.taker, counter - x.trade.amount, rest);
    if k > 0 {
      WalkZero(x.taker, counter - x.trade.amount, rest, k - 1);
      assert makers[..k][1..] == rest[..k - 1];
      RemainingSumNatural(rest[..k - 1]);
    }
  }

  lemma WalkLength(o: Order, counter: int, makers: seq<Order>)
    requires o.InRange() && counter > o.Remaining()
    requires forall i :: 0 <= i < |makers| ==> makers[i].InRange()
    ensures |Walk(o, counter, makers).trades| == |makers|
  {
    WalkCounter(o, counter, makers);
    WalkEnd(o, counter, makers);
    WalkMakers(o, counter, makers);
  }

  lemma {:induction false} WalkHasZero(o: Order, makers: seq<Order>)
    requires o.InRange() && o.filled > 0 && makers != []
    requires forall i :: 0 <= i < |makers| ==> makers[i].InRange() && makers[i].Remaining() > 0
    ensures (exists t :: t in Walk(o, o.hash.amount, makers).trades && t.amount == 0) <==>
            RemainingSum(makers[..|makers| - 1]) >= o.Remaining()
  {
    var ts := Walk(o, o.hash.amount, makers).trades;
    var last := |makers| - 1;
    WalkZero(o, o.hash.amount, makers, last);
    assert ts[last] in ts;
    forall k | 0 <= k < |ts| && ts[k].amount == 0 ensures RemainingSum(makers[..last]) >= o.Remaining() {
      WalkZero(o, o.hash.amount, makers, k);
      assert makers[..last][..k] == makers[..k];
      RemainingSumPrefix(makers[..last], k);
    }
  }

  /** When a match contains a trade of nothing: the taker came with something filled and was used
      up before the last crossing order. */
  lemma ZeroTradeIff(s: Store, o: Order, makers: seq<Order>, now: int)
    requires FreshRuns.Consistent(s) && o.InRange() && o.hash.amount > 0 && IsMatching(s, o, makers)
    ensures (exists t :: t in Trades(Match(s, o, makers, now).response) && t.amount == 0) <==>
            (makers != [] && o.filled > 0 && RemainingSum(makers[..|makers| - 1]) >= o.Remaining())
  {
    FreshRuns.MakersRest(s, o, makers);
    FreshRuns.MatchTrades(s, o, makers, now);
    if o.filled == 0 {
      FreshRuns.WalkFresh(o, makers);
    } else if makers != [] {
      WalkHasZero(o, makers);
    }
  }

  lemma PositiveTrades(o: Order, makers: seq<Order>)
    requires o.InRange() && o.filled > 0 && RemainingSum(makers) < o.Remaining()
    requires forall i :: 0 <= i < |makers| ==> makers[i].InRange() && makers[i].Remaining() > 0
    ensures forall t :: t in Walk(o, o.hash.amount, makers).trades ==> t.amount > 0
  {
    WalkLength(o, o.hash.amount, makers);
    WalkMakers(o, o.hash.amount, makers);
    var w := Walk(o, o.hash.amount, makers);
    forall k | 0 <= k < |w.trades| ensures w.trades[k].amount > 0 {
      assert Executed(o.hash, makers[k], w.matched[k], w.trades[k]);
      WalkZero(o, o.hash.amount, makers, k);
      RemainingSumPrefix(makers, k);
    }
  }

  // ---- statuses ----

  /** The status the taker ends with agrees with its amounts exactly when nothing was filled
      before, or it meets nothing and keeps a status that was right, or the crossing orders
      cannot use it up. */
  predicate Agreeable(o: Order, makers: seq<Order>) {
    || o.filled == 0
    || (if makers == [] then o.hash.side == Buy && o.StatusAgrees() else RemainingSum(makers) < o.Remaining())
  }

  lemma TakenAgreesIff(o: Order, makers: seq<Order>)
    requires o.InRange() && o.hash.amount > 0
    requires forall i :: 0 <= i < |makers| ==> makers[i].InRange() && makers[i].Remaining() > 0
    ensures Taken(o, makers).StatusAgrees() <==> Agreeable(o, makers)
  {
    if o.filled == 0 {
      FreshRuns.FreshTaken(o, makers);
    } else if makers != [] {
      NeverMarkedFilled(o, makers);
      TakenEffect(o, makers);
      WalkTotal(o, o.hash.amount, makers);
      RemainingSumNatural(makers);
      PartialAgrees(Taken(o, makers), o, TradeSum(Walk(o, o.hash.amount, makers).trades), RemainingSum(makers));
    }
  }

  lemma PartialAgrees(t: Order, o: Order, traded: int, available: int)
    requires o.InRange() && o.filled > 0 && available >= 0
    requires traded == if available < o.Remaining() then available else o.Remaining()
    requires t == o.(filled := o.filled + traded, status := PartialFilled)
    ensures t.StatusAgrees() <==> available < o.Remaining()
  {
  }

  lemma PartialConsistent(s: Store, o: Order, makers: seq<Order>, now: int)
    requires FreshRuns.Consistent(s) && o.InRange() && o.filled > 0 && IsMatching(s, o, makers)
    requires RemainingSum(makers) < o.Remaining() && Taken(o, makers).StatusAgrees()
    ensures FreshRuns.Consistent(Match(s, o, makers, now).store)
  {
    FreshRuns.MakersRest(s, o, makers);
    PositiveTrades(o, makers);
    TakenEffect(o, makers);
    MatchEffect(s, o, makers, now);
    FreshRuns.PositiveMakers(s, o, makers, now);
    FreshRuns.ConsistentAdvance(s, o.hash, Taken(o, makers), Match(s, o, makers, now).store);
  }

  lemma TakenStored(s: Store, o: Order, makers: seq<Order>, now: int)
    requires FreshRuns.Consistent(s) && o.InRange() && IsMatching(s, o, makers)
    ensures FreshRuns.Consistent(Match(s, o, makers, now).store) ==> Taken(o, makers).StatusAgrees()
  {
    MatchEffect(s, o, makers, now);
    assert o.hash in Match(s, o, makers, now).store;
  }

  /** Any submission or resubmission leaves every stored status in agreement with its amounts
      exactly when it is agreeable. The failing ones are an unmatched sell with something filled,
      stored as open, and a partly filled taker that the crossing orders use up, stored as
      partially filled. */
  lemma ConsistentIff(s: Store, o: Order, makers: seq<Order>, now: int)
    requires FreshRuns.Consistent(s) && o.InRange() && o.hash.amount > 0 && IsMatching(s, o, makers)
    ensures FreshRuns.Consistent(Match(s, o, makers, now).store) <==> Agreeable(o, makers)
  {
    FreshRuns.MakersRest(s, o, makers);
    TakenAgreesIff(o, makers);
    TakenStored(s, o, makers, now);
    if o.filled == 0 {
      FreshRuns.ConsistentMatch(s, o, makers, now);
    } else if makers != [] && Agreeable(o, makers) {
      PartialConsistent(s, o, makers, now);
    }
  }

  // ---- statuses over runs ----

  /** Clients order a positive amount, as order validation demands. */
  predicate Positive(e: BookRuns.Event) {
    e.NewOrder? ==> e.o.hash.amount > 0
  }

  ghost predicate AllPositive(events: seq<BookRuns.Event>) {
    forall i :: 0 <= i < |events| ==> Positive(events[i])
  }

  ghost predicate PositiveBook(b: BookRuns.Book) {
    (forall h :: h in b.orders ==> h.amount > 0) && (forall p :: p in b.pending ==> p.hash.amount > 0)
  }

  predicate AgreeableMessage(e: BookRuns.Event) {
    e.NewOrder? || e.Resubmitted? ==> Agreeable(e.o, e.makers)
  }

  lemma RollbackAgrees(o: Order, amount: int)
    requires o.hash.amount > 0
    ensures var o' := Rollback(o, amount); o'.InRange() && o'.StatusAgrees()
  {
  }

  lemma RollbackConsistent(s: Store, hs: seq<Hash>, found: seq<Order>, amounts: seq<int>, dead: seq<Hash>)
    requires FreshRuns.Consistent(s) && IsFound(s, hs, found) && |found| <= |amounts|
    requires forall h :: h in s ==> h.amount > 0
    ensures FreshRuns.Consistent(BookRuns.Invalidated(s, Rollbacks(found, amounts), dead))
  {
    var updated := Rollbacks(found, amounts);
    BookRuns.RollbacksFit(s, hs, found, amounts);
    forall i | 0 <= i < |updated| ensures updated[i].InRange() && updated[i].StatusAgrees() {
      RollbackAgrees(found[i], amounts[i]);
    }
    WrittenConsistent(s, updated, dead);
  }

  /** Writing back orders whose statuses agree, and invalidating others. */
  lemma WrittenConsistent(s: Store, updated: seq<Order>, dead: seq<Hash>)
    requires FreshRuns.Consistent(s) && Distinct(updated) && HashSet(updated) <= s.Keys
    requires forall i :: 0 <= i < |updated| ==> updated[i].InRange() && updated[i].StatusAgrees()
    ensures FreshRuns.Consistent(BookRuns.Invalidated(s, updated, dead))
  {
    BookRuns.InvalidatedAt(s, updated, dead);
    var s' := BookRuns.Invalidated(s, updated, dead);
    forall h | h in s' ensures s'[h].hash == h && s'[h].InRange() && s'[h].StatusAgrees() {
      if h in HashSet(updated) {
        var i :| 0 <= i < |updated| && updated[i].hash == h;
        assert s'[h] == BookRuns.Marked(updated[i], dead, h);
      } else {
        assert s'[h] == BookRuns.Marked(s[h], dead, h);
      }
    }
  }

  lemma RollbackPositive(b: BookRuns.Book, hs: seq<Hash>, found: seq<Order>, amounts: seq<int>, dead: seq<Hash>, b': BookRuns.Book)
    requires PositiveBook(b) && IsFound(b.orders, hs, found) && |found| <= |amounts|
    requires b' == BookRuns.Book(BookRuns.Invalidated(b.orders, Rollbacks(found, amounts), dead), b.pending + multiset(Rollbacks(found, amounts)))
    ensures PositiveBook(b')
  {
    var updated := Rollbacks(found, amounts);
    BookRuns.RollbacksFit(b.orders, hs, found, amounts);
    BookRuns.InvalidatedAt(b.orders, updated, dead);
    forall p | p in b'.pending ensures p.hash.amount > 0 {
      if p !in b.pending {
        assert p in updated;
      }
    }
  }

  lemma PositiveStep(b: BookRuns.Book, e: BookRuns.Event, b': BookRuns.Book)
    requires BookRuns.NoOverfill(b) && PositiveBook(b) && BookRuns.Step(b, e, b') && BookRuns.Admissible(e) && Positive(e)
    ensures PositiveBook(b')
  {
    match e
    case NewOrder(o, makers, now) =>
      MatchEffect(b.orders, o, makers, now);
    case Resubmitted(o, makers, now) =>
      MatchEffect(b.orders, o, makers, now);
    case CancelOrder(h) =>
    case InvalidateMakers(ms, found) =>
      RollbackPositive(b, BookRuns.TakerHashes(ms), found, TradeAmounts(ms.trades), BookRuns.MakerHashes(ms), b');
    case InvalidateTaker(ms, found) =>
      RollbackPositive(b, BookRuns.MakerHashes(ms), found, TradeAmounts(ms.trades), [ms.taker.hash], b');
  }

  /** One message keeps every status in agreement exactly when the order it carries is agreeable;
      cancellations and both kinds of invalidation always do. */
  lemma StepConsistentIff(b: BookRuns.Book, e: BookRuns.Event, b': BookRuns.Book)
    requires BookRuns.NoOverfill(b) && PositiveBook(b) && FreshRuns.Consistent(b.orders)
    requires BookRuns.Step(b, e, b') && BookRuns.Admissible(e) && Positive(e)
    ensures FreshRuns.Consistent(b'.orders) <==> AgreeableMessage(e)
  {
    match e
    case NewOrder(o, makers, now) =>
      ConsistentIff(b.orders, o, makers, now);
    case Resubmitted(o, makers, now) =>
      ConsistentIff(b.orders, o, makers, now);
    case CancelOrder(h) =>
    case InvalidateMakers(ms, found) =>
      RollbackConsistent(b.orders, BookRuns.TakerHashes(ms), found, TradeAmounts(ms.trades), BookRuns.MakerHashes(ms));
    case InvalidateTaker(ms, found) =>
      RollbackConsistent(b.orders, BookRuns.MakerHashes(ms), found, TradeAmounts(ms.trades), [ms.taker.hash]);
  }

  lemma PositiveNext(states: seq<BookRuns.Book>, events: seq<BookRuns.Event>, i: nat)
    requires BookRuns.IsRun(states, events) && BookRuns.AllAdmissible(events) && AllPositive(events) && i < |events|
    requires PositiveBook(states[i])
    ensures PositiveBook(states[i + 1])
  {
    BookRuns.RunNoOverfill(states, events, i);
    assert BookRuns.StepAt(states, events, i);
    PositiveStep(states[i], events[i], states[i + 1]);
  }

  lemma {:induction false} RunPositive(states: seq<BookRuns.Book>, events: seq<BookRuns.Event>, n: nat)
    requires BookRuns.IsRun(states, events) && BookRuns.AllAdmissible(events) && AllPositive(events) && n < |states|
    ensures PositiveBook(states[n])
  {
    if n > 0 {
      RunPositive(states, events, n - 1);
      PositiveNext(states, events, n - 1);
    }
  }

  ghost predicate ConsistentAt(states: seq<BookRuns.Book>, n: nat)
    requires n < |states|
  {
    FreshRuns.Consistent(states[n].orders)
  }

  ghost predicate AllAgreeable(events: seq<BookRuns.Event>) {
    forall i :: 0 <= i < |events| ==> AgreeableMessage(events[i])
  }

  lemma NextConsistentIff(states: seq<BookRuns.Book>, events: seq<BookRuns.Event>, i: nat)
    requires BookRuns.IsRun(states, events) && BookRuns.AllAdmissible(events) && AllPositive(events) && i < |events|
    requires ConsistentAt(states, i)
    ensures ConsistentAt(states, i + 1) <==> AgreeableMessage(events[i])
  {
    BookRuns.RunNoOverfill(states, events, i);
    RunPositive(states, events, i);
    assert BookRuns.StepAt(states, events, i);
    StepConsistentIff(states[i], events[i], states[i + 1]);
  }

  lemma {:induction false} AgreeableConsistent(states: seq<BookRuns.Book>, events: seq<BookRuns.Event>, n: nat)
    requires BookRuns.IsRun(states, events) && BookRuns.AllAdmissible(events) && AllPositive(events) && n < |states|
    requires AllAgreeable(events)
    ensures ConsistentAt(states, n)
  {
    if n > 0 {
      AgreeableConsistent(states, events, n - 1);
      NextConsistentIff(states, events, n - 1);
    }
  }

  /** Over every run, with invalidations and resubmissions: all statuses always agree with their
      amounts exactly when every order the engine consumed was agreeable at that moment. */
  lemma RunConsistentIff(states: seq<BookRuns.Book>, events: seq<BookRuns.Event>)
    requires BookRuns.IsRun(states, events) && BookRuns.AllAdmissible(events) && AllPositive(events)
    ensures (forall n :: 0 <= n < |states| ==> ConsistentAt(states, n)) <==> AllAgreeable(events)
  {
    if forall n :: 0 <= n < |states| ==> ConsistentAt(states, n) {
      forall i | 0 <= i < |events| ensures AgreeableMessage(events[i]) {
        assert ConsistentAt(states, i) && ConsistentAt(states, i + 1);
        NextConsistentIff(states, events, i);
      }
    }
    if AllAgreeable(events) {
      forall n | 0 <= n < |states| ensures ConsistentAt(states, n) {
        AgreeableConsistent(states, events, n);
      }
    }
  }
}

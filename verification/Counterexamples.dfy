/** Reachable inputs on which promises fail; the exact conditions are Journals.RunConservedIff,
    Resubmission.RunConsistentIff, Mirror.MatchFlips, Batches.EstimateAndSend,
    Invalidation.InvalidateTakerRestores, Invalidation.InvalidateMakersTakesBackOne and
    FeedGaps.SkippedBroadcast (engine/orderbook.go, services/order.go, contracts/exchange.go). */
module Counterexamples {
  import opened Orders
  import opened OrderStore
  import opened Matching
  import opened Feed
  import opened FeedGaps
  import opened Batches
  import opened Options
  import opened Mirror
  import opened Journals
  import opened Reachability
  import FreshRuns
  import BookRuns

  // ---- a stale snapshot ----

  /** What honest clients submit: a positive amount with nothing filled. */
  ghost const HONEST: iset<(int, int)> := iset a | a > 0 :: (a, 0)

  const ASK4 := Terms(1, 10, 20, Sell, 100, 4, 0)
  const BID10 := Terms(2, 10, 20, Buy, 100, 10, 0)
  const ASK3 := Terms(3, 10, 20, Sell, 100, 3, 0)

  const UNDONE: Store := map[ASK4 := Order(ASK4, 4, Invalidated, 1), BID10 := Order(BID10, 0, Open, 2)]
  const RESOLD: Store := map[ASK4 := Order(ASK4, 4, Invalidated, 1), BID10 := Order(BID10, 3, PartialFilled, 2), ASK3 := Order(ASK3, 3, Filled, 3)]

  /** Sell 4, buy 10, invalidate the ask. */
  lemma AskUndone()
    ensures Reaches(HONEST, BookRuns.Book(UNDONE, multiset{Order(BID10, 0, Open, 2)}))
  {
    var none: Store := map[];
    var ask, bid := Order(ASK4, 0, Open, 1), Order(BID10, 4, PartialFilled, 2);
    ReachesStart(HONEST);
    ListStep(HONEST, none, multiset{}, Incoming(ASK4), 1);
    TakeOne(HONEST, none[ASK4 := ask], multiset{}, ask, BID10, 2);
    var s := none[ASK4 := ask][ASK4 := UsedUp(ask)][BID10 := bid];
    InvalidateStep(HONEST, s, multiset{}, UsedUp(ask), bid, 4);
    assert s[BID10 := Order(BID10, 0, Open, 2)][ASK4 := Order(ASK4, 4, Invalidated, 1)] == UNDONE;
    assert multiset{} + multiset{Order(BID10, 0, Open, 2)} == multiset{Order(BID10, 0, Open, 2)};
  }

  /** Then sell 3, which the bid takes while it waits. */
  lemma AskResold()
    ensures Reaches(HONEST, BookRuns.Book(RESOLD, multiset{Order(BID10, 0, Open, 2)}))
  {
    AskUndone();
    var bid := Order(BID10, 0, Open, 2);
    FillByOne(HONEST, UNDONE, multiset{bid}, bid, ASK3, 3);
    assert UNDONE[BID10 := Order(BID10, 3, PartialFilled, 2)][ASK3 := Order(ASK3, 3, Filled, 3)] == RESOLD;
  }

  /** Sell 4, buy 10, invalidate the ask, sell 3, and only then the bid put back by the
      invalidation is run again: its stored fill falls from 3 to 0 although its trades of 7 less
      the 4 taken back are 3. */
  lemma StaleSnapshot() returns (states: seq<BookRuns.Book>, events: seq<BookRuns.Event>)
    ensures BookRuns.IsRun(states, events) && BookRuns.AllAdmissible(events) && AllClaimed(events, HONEST) && events != []
    ensures var n := |events|;
            && BID10 in states[n - 1].orders && states[n - 1].orders[BID10].filled == 3
            && BID10 in states[n].orders && states[n].orders[BID10].filled == 0
    ensures !forall n :: 0 <= n < |states| ==> ConservedAt(states, events, n)
  {
    AskResold();
    var o := Order(BID10, 0, Open, 2);
    RerunsAlone(RESOLD, o, 4);
    states, events := RunInto(BookRuns.Book(RESOLD, multiset{o}), BookRuns.Resubmitted(o, [], 4),
                              BookRuns.Book(RESOLD[BID10 := o], multiset{}));
    NotCurrent(states, events, |events| - 1);
  }

  /** A run of honest clients whose last message is e. */
  lemma RunInto(b: BookRuns.Book, e: BookRuns.Event, b': BookRuns.Book) returns (states: seq<BookRuns.Book>, events: seq<BookRuns.Event>)
    requires Reaches(HONEST, b) && BookRuns.Step(b, e, b') && Claimed(e, HONEST)
    ensures BookRuns.IsRun(states, events) && BookRuns.AllAdmissible(events) && AllClaimed(events, HONEST)
    ensures events != [] && events[|events| - 1] == e && states[|events| - 1] == b && states[|events|] == b'
  {
    var states0, events0 :| BookRuns.IsRun(states0, events0) && AllClaimed(events0, HONEST) && states0[|events0|] == b;
    BookRuns.Extend(states0, events0, e, b');
    states, events := states0 + [b'], events0 + [e];
    forall i | 0 <= i < |events| ensures BookRuns.Admissible(events[i]) {
      assert Claimed(events[i], HONEST);
    }
  }

  lemma NotCurrent(states: seq<BookRuns.Book>, events: seq<BookRuns.Event>, i: nat)
    requires BookRuns.IsRun(states, events) && BookRuns.AllAdmissible(events) && i < |events|
    requires !CurrentAt(states, events, i)
    ensures !forall n :: 0 <= n < |states| ==> ConservedAt(states, events, n)
  {
    RunConservedIff(states, events);
  }

  // ---- a wrong status ----

  const BID4 := Terms(1, 10, 20, Buy, 100, 4, 0)
  const BID3 := Terms(2, 10, 20, Buy, 100, 3, 0)
  const ASK10 := Terms(3, 10, 20, Sell, 100, 10, 0)

  const BIDS: Store := map[BID4 := Order(BID4, 0, Open, 1), BID3 := Order(BID3, 0, Open, 2)]
  const SOLD7: Store := map[BID4 := Order(BID4, 4, Filled, 1), BID3 := Order(BID3, 3, Filled, 2), ASK10 := Order(ASK10, 7, PartialFilled, 3)]
  const BACK3: Store := map[BID4 := Order(BID4, 4, Invalidated, 1), BID3 := Order(BID3, 3, Filled, 2), ASK10 := Order(ASK10, 3, PartialFilled, 3)]

  /** Buy 4, buy 3. */
  lemma BidsListed()
    ensures Reaches(HONEST, BookRuns.Book(BIDS, multiset{}))
    ensures IsMatching(BIDS, Incoming(ASK10), [Order(BID4, 0, Open, 1), Order(BID3, 0, Open, 2)])
  {
    var none: Store := map[];
    ReachesStart(HONEST);
    ListStep(HONEST, none, multiset{}, Incoming(BID4), 1);
    ListStep(HONEST, none[BID4 := Order(BID4, 0, Open, 1)], multiset{}, Incoming(BID3), 2);
    assert BIDS == none[BID4 := Order(BID4, 0, Open, 1)][BID3 := Order(BID3, 0, Open, 2)];
  }

  /** Then sell 10. */
  lemma BidsSold()
    ensures Reaches(HONEST, BookRuns.Book(SOLD7, multiset{}))
  {
    BidsListed();
    var m1, m2 := Order(BID4, 0, Open, 1), Order(BID3, 0, Open, 2);
    assert SOLD7 == BIDS[BID4 := UsedUp(m1)][BID3 := UsedUp(m2)][ASK10 := Order(ASK10, 7, PartialFilled, 3)];
    TakeBoth(HONEST, BIDS, multiset{}, Incoming(ASK10), m1, m2, 3, SOLD7);
  }

  /** Then invalidate the first bid. */
  lemma BidTakenBack()
    ensures Reaches(HONEST, BookRuns.Book(BACK3, multiset{Order(ASK10, 3, PartialFilled, 3)}))
  {
    BidsSold();
    var ask := Order(ASK10, 3, PartialFilled, 3);
    InvalidateStep(HONEST, SOLD7, multiset{}, Order(BID4, 4, Filled, 1), Order(ASK10, 7, PartialFilled, 3), 4);
    assert SOLD7[ASK10 := ask][BID4 := Order(BID4, 4, Invalidated, 1)] == BACK3;
    assert multiset{} + multiset{ask} == multiset{ask};
  }

  /** Buy 4, buy 3, sell 10, invalidate the first bid, and the seller is run again: it meets
      nothing and is stored as open with 3 filled. */
  lemma OpenButFilled() returns (states: seq<BookRuns.Book>, events: seq<BookRuns.Event>)
    ensures BookRuns.IsRun(states, events) && BookRuns.AllAdmissible(events) && AllClaimed(events, HONEST) && events != []
    ensures FreshRuns.Consistent(states[|events| - 1].orders) && !FreshRuns.Consistent(states[|events|].orders)
    ensures var s := states[|events|].orders; ASK10 in s && s[ASK10].status == Open && s[ASK10].filled == 3
  {
    BidTakenBack();
    var o := Order(ASK10, 3, PartialFilled, 3);
    RerunsAlone(BACK3, o, 4);
    states, events := RunInto(BookRuns.Book(BACK3, multiset{o}), BookRuns.Resubmitted(o, [], 4),
                              BookRuns.Book(BACK3[ASK10 := o.(status := Open)], multiset{}));
    assert !states[|events|].orders[ASK10].StatusAgrees();
  }

  /** The same seller: in the mirrored book the buyer that meets nothing keeps its status, while
      the seller is opened. */
  lemma OnlySellerOpened(pivot: int)
    ensures var o := Order(ASK10, 3, PartialFilled, 3);
            && Reaches(HONEST, BookRuns.Book(BACK3, multiset{o})) && IsMatching(BACK3, o, [])
            && Match(BACK3, o, [], 4).response == OrderAdded(o.(status := Open))
            && Match(FlipStore(BACK3, pivot), FlipOrder(o, pivot), [], 4).response == OrderAdded(FlipOrder(o, pivot))
            && Match(FlipStore(BACK3, pivot), FlipOrder(o, pivot), FlipOrders([], pivot), 4) != FlipOutcome(Match(BACK3, o, [], 4), pivot)
  {
    BidTakenBack();
    var o := Order(ASK10, 3, PartialFilled, 3);
    MatchFlips(BACK3, o, [], 4, pivot);
  }

  // ---- a batch across pairs ----

  /** A maker that quotes in another token than the taker, which no match of the engine contains:
      the transaction that is sent is not the call that was estimated. */
  method AcrossPairs() returns (called: Option<Batch>, sent: Option<Batch>)
    ensures called.Some? && sent.Some? && called != sent
  {
    var maker := Signed(Order(ASK4, 4, Filled, 1), 0, 0, Some(Signature(0, 0, 0)));
    var taker := Signed(Order(BID10.(quote := 21), 4, PartialFilled, 2), 0, 0, Some(Signature(0, 0, 0)));
    called, sent := EstimateAndSend([maker], taker, [Trade(maker.order.hash, taker.order.hash, 4, 100)]);
    assert [maker][0].order.hash.quote != taker.order.hash.quote;
  }

  // ---- one bid that takes two asks of different size at different prices ----

  const ASK1 := Terms(1, 10, 20, Sell, 100, 1, 0)
  const ASK2 := Terms(2, 10, 20, Sell, 101, 2, 0)
  const BID := Terms(3, 10, 20, Buy, 101, 3, 0)

  function Asked(h: Hash, now: int): Order {
    Order(h, 0, Open, now)
  }

  function Sold(h: Hash, now: int): Order {
    Order(h, h.amount, Filled, now)
  }

  const ASKS: Store := map[ASK1 := Asked(ASK1, 1), ASK2 := Asked(ASK2, 2)]
  const MAKERS := [Asked(ASK1, 1), Asked(ASK2, 2)]
  const MATCH := Matches([Sold(ASK1, 1), Sold(ASK2, 2)], Sold(BID, 0), [Trade(ASK1, BID, 1, 101), Trade(ASK2, BID, 2, 101)])
  const SOLD: Store := map[ASK1 := Sold(ASK1, 1), ASK2 := Sold(ASK2, 2), BID := Sold(BID, 3)]

  /** Sell 1, sell 2. */
  lemma AsksListed()
    ensures Reaches(HONEST, BookRuns.Book(ASKS, multiset{}))
  {
    var none: Store := map[];
    ReachesStart(HONEST);
    ListStep(HONEST, none, multiset{}, Incoming(ASK1), 1);
    ListStep(HONEST, none[ASK1 := Asked(ASK1, 1)], multiset{}, Incoming(ASK2), 2);
    assert ASKS == none[ASK1 := Asked(ASK1, 1)][ASK2 := Asked(ASK2, 2)];
  }

  /** The bid takes the two asks, 1 and 2, and is filled. */
  lemma BidFilled()
    ensures FreshRuns.Consistent(ASKS) && FreshRuns.Fresh(ASKS, Incoming(BID)) && IsMatching(ASKS, Incoming(BID), MAKERS)
    ensures Match(ASKS, Incoming(BID), MAKERS, 3) == Outcome(SOLD, OrderFilled(Sold(BID, 0), MATCH))
  {
    var half := Incoming(BID).(filled := 1);
    assert MAKERS[1..] == [Asked(ASK2, 2)];
    assert Walk(half, 2, [Asked(ASK2, 2)]) == Walked(half.(filled := 3), [Sold(ASK2, 2)], [Trade(ASK2, BID, 2, 101)], true);
    assert Walk(Incoming(BID), 3, MAKERS) == Walked(half.(filled := 3), MATCH.makers, MATCH.trades, true);
    assert MATCH.makers[1..] == [Sold(ASK2, 2)] && [Sold(ASK2, 2)][1..] == [];
    var s1 := ASKS[ASK1 := Sold(ASK1, 1)];
    assert PutAll(s1, [Sold(ASK2, 2)]) == s1[ASK2 := Sold(ASK2, 2)];
  }

  lemma SwappedFound()
    ensures BookRuns.MakerHashes(MATCH) == [ASK1, ASK2]
    ensures IsFound(SOLD, [ASK1, ASK2], [Sold(ASK2, 2), Sold(ASK1, 1)])
    ensures Rollbacks([Sold(ASK2, 2), Sold(ASK1, 1)], TradeAmounts(MATCH.trades)) == [Order(ASK2, 1, PartialFilled, 2), Asked(ASK1, 1)]
  {
  }

  lemma SwappedLeft()
    ensures var s' := BookRuns.Invalidated(SOLD, [Order(ASK2, 1, PartialFilled, 2), Asked(ASK1, 1)], [BID]);
            ASK2 in s' && s'[ASK2] == Order(ASK2, 1, PartialFilled, 2)
  {
    var updated := [Order(ASK2, 1, PartialFilled, 2), Asked(ASK1, 1)];
    assert HashSet(updated) == {ASK1, ASK2} by {
      assert updated[0].hash == ASK2 && updated[1].hash == ASK1;
    }
    BookRuns.InvalidatedAt(SOLD, updated, [BID]);
    assert BookRuns.Invalidated(SOLD, updated, [BID])[updated[0].hash] == updated[0];
  }

  /** The bidder is invalidated and the query returns the two asks the other way round: 1 is taken
      back from the ask that sold 2, so that one stays partly filled. */
  lemma SwappedAnswer()
    ensures Match(ASKS, Incoming(BID), MAKERS, 3) == Outcome(SOLD, OrderFilled(Sold(BID, 0), MATCH))
    ensures var found := [Sold(ASK2, 2), Sold(ASK1, 1)];
            && IsFound(SOLD, BookRuns.MakerHashes(MATCH), found)
            && var s' := BookRuns.Invalidated(SOLD, Rollbacks(found, TradeAmounts(MATCH.trades)), [BID]);
               ASK2 in s' && s'[ASK2] == Order(ASK2, 1, PartialFilled, 2) != ASKS[ASK2]
  {
    BidFilled();
    SwappedFound();
    SwappedLeft();
  }

  /** Both asks turn out invalid: the bidder's fill should go back to 0 but only the first trade
      is taken back. */
  lemma BothInvalid()
    ensures Match(ASKS, Incoming(BID), MAKERS, 3) == Outcome(SOLD, OrderFilled(Sold(BID, 0), MATCH))
    ensures IsFound(SOLD, BookRuns.TakerHashes(MATCH), [SOLD[BID]])
    ensures SOLD[BID].filled == TradeSum(MATCH.trades) == 3
    ensures Rollbacks([SOLD[BID]], TradeAmounts(MATCH.trades))[0].filled == 2
  {
    BidFilled();
    assert BookRuns.TakerHashes(MATCH) == [BID, BID];
    assert MATCH.trades[1..] == [Trade(ASK2, BID, 2, 101)] && MATCH.trades[1..][1..] == [];
    assert TradeSum([Trade(ASK2, BID, 2, 101)]) == 2;
  }

  const BAD := Matches([Sold(ASK2, 2)], Sold(BID, 0), [Trade(ASK2, BID, 2, 101)])
  const LEFT: Store := map[ASK1 := Sold(ASK1, 1), ASK2 := Order(ASK2, 2, Invalidated, 2), BID := Order(BID, 1, PartialFilled, 3)]

  lemma OnlySecondPicked()
    ensures PickMatches(MATCH, [true, false], false) == BAD
  {
    assert MATCH.makers[..1] == [Sold(ASK1, 1)] && MATCH.trades[..1] == [Trade(ASK1, BID, 1, 101)] && [true, false][..1] == [true];
    assert Pick([Sold(ASK1, 1)], [true], false) == [];
    assert Pick([Trade(ASK1, BID, 1, 101)], [true], false) == [];
  }

  lemma OnlySecondLeft()
    ensures BookRuns.MakerHashes(BAD) == [ASK2] && BookRuns.TakerHashes(BAD) == [BID]
    ensures Rollbacks([SOLD[BID]], TradeAmounts(BAD.trades)) == [Order(BID, 1, PartialFilled, 3)]
    ensures BookRuns.Invalidated(SOLD, [Order(BID, 1, PartialFilled, 3)], [ASK2]) == LEFT
  {
    var updated := [Order(BID, 1, PartialFilled, 3)];
    assert HashSet(updated) == {BID} by {
      assert updated[0].hash == BID;
    }
    BookRuns.InvalidatedAt(SOLD, updated, [ASK2]);
    assert BookRuns.Invalidated(SOLD, updated, [ASK2])[updated[0].hash] == updated[0];
  }

  lemma OnlySecondFound()
    ensures IsFound(SOLD, BookRuns.TakerHashes(BAD), [SOLD[BID]]) && IsFound(LEFT, BookRuns.MakerHashes(BAD), [LEFT[ASK2]])
    ensures BookRuns.Invalidated(SOLD, Rollbacks([SOLD[BID]], TradeAmounts(BAD.trades)), BookRuns.MakerHashes(BAD)) == LEFT
    ensures Hit(MATCH.trades, LevelOf(ASK1)) && forall h :: h in BookRuns.MakerHashes(BAD) ==> LevelOf(h) != LevelOf(ASK1)
  {
    OnlySecondLeft();
    assert MATCH.trades[0].amount > 0 && LevelOf(MATCH.trades[0].maker) == LevelOf(ASK1);
  }

  /** A level where only valid makers were hit stays wrong. */
  lemma StaleLevel(s: Store, o: Order, makers: seq<Order>, now: int, s1: Store, ms: Matches, valid: seq<bool>, bad: Matches,
                   found: seq<Order>, s2: Store, invalidated: seq<Order>, shown: map<Level, int>, l: Level)
    requires WellKeyed(s) && AllCapped(s) && o.Capped() && IsMatching(s, o, makers) && makers != []
    requires Match(s, o, makers, now) == Outcome(s1, OrderFilled(ms.taker, ms))
    requires |valid| == |ms.makers| == |ms.trades| && bad == PickMatches(ms, valid, false) && 0 < |bad.makers| == |bad.trades|
    requires IsFound(s1, BookRuns.TakerHashes(bad), found) && |found| <= |bad.trades|
    requires s2 == BookRuns.Invalidated(s1, Rollbacks(found, TradeAmounts(bad.trades)), BookRuns.MakerHashes(bad))
    requires IsFound(s2, BookRuns.MakerHashes(bad), invalidated)
    requires l.side == o.hash.side.Opposite() && Amount(shown, l) == Depth(s, l)
    requires Hit(ms.trades, l) && forall h :: h in BookRuns.MakerHashes(bad) ==> LevelOf(h) != l
    ensures Amount(Refresh(shown, s2, Levels(TradesCancelled(invalidated))), l) != Depth(s2, l)
  {
    SkippedBroadcast(s, o, makers, now, valid, bad, found, invalidated, shown, l);
  }

  /** Only the second ask is invalid: its level is broadcast, the level of the first is not, and
      a client that was right goes on showing 1 where nothing is left. */
  lemma OnlySecondInvalid(shown: map<Level, int>)
    requires Amount(shown, LevelOf(ASK1)) == Depth(ASKS, LevelOf(ASK1))
    ensures Match(ASKS, Incoming(BID), MAKERS, 3) == Outcome(SOLD, OrderFilled(Sold(BID, 0), MATCH))
    ensures PickMatches(MATCH, [true, false], false) == BAD
    ensures BookRuns.Invalidated(SOLD, Rollbacks([SOLD[BID]], TradeAmounts(BAD.trades)), BookRuns.MakerHashes(BAD)) == LEFT
    ensures IsFound(LEFT, BookRuns.MakerHashes(BAD), [LEFT[ASK2]])
    ensures Amount(Refresh(shown, LEFT, Levels(TradesCancelled([LEFT[ASK2]]))), LevelOf(ASK1)) != Depth(LEFT, LevelOf(ASK1))
  {
    BidFilled();
    OnlySecondPicked();
    OnlySecondFound();
    StaleLevel(ASKS, Incoming(BID), MAKERS, 3, SOLD, MATCH, [true, false], BAD, [SOLD[BID]], LEFT, [LEFT[ASK2]], shown, LevelOf(ASK1));
  }
}

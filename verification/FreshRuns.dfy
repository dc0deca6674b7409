/** Runs in which every submitted order is fresh - not stored, nothing filled - and orders may
    be cancelled: what the ledger of trades, the fills and the statuses have to do with each
    other (engine/orderbook.go). */
module FreshRuns {
  import opened Orders
  import opened OrderStore
  import opened Matching
  import opened Sums

  /** The stored orders and every trade made so far, oldest first. */
  datatype Exchange = Exchange(orders: Store, ledger: seq<Trade>)

  datatype Event =
    | Submit(o: Order, makers: seq<Order>, now: int)
    | Cancel(h: Hash)

  predicate Fresh(s: Store, o: Order) {
    o.hash !in s && o.filled == 0 < o.hash.amount
  }

  ghost predicate Step(x: Exchange, e: Event, x': Exchange) {
    match e
    case Submit(o, makers, now) =>
      && Fresh(x.orders, o)
      && IsMatching(x.orders, o, makers)
      && var r := Match(x.orders, o, makers, now);
         x' == Exchange(r.store, x.ledger + Trades(r.response))
    case Cancel(h) =>
      x' == Exchange(SetStatus(x.orders, h, Cancelled), x.ledger)
  }

  const EmptyExchange := Exchange(map[], [])

  ghost predicate StepAt(states: seq<Exchange>, events: seq<Event>, i: nat)
    requires i < |events| && |states| == |events| + 1
  {
    Step(states[i], events[i], states[i + 1])
  }

  ghost predicate IsRun(states: seq<Exchange>, events: seq<Event>) {
    && |states| == |events| + 1
    && states[0] == EmptyExchange
    && forall i :: 0 <= i < |events| ==> StepAt(states, events, i)
  }

  // ---- status agrees with amounts ----

  ghost predicate Consistent(s: Store) {
    && WellKeyed(s)
    && forall h :: h in s ==> s[h].InRange() && s[h].StatusAgrees()
  }

  /** A fresh taker against resting makers: every trade is positive, the loop stops early
      exactly when the taker is used up, and only the last visited maker can have anything left. */
  lemma {:induction false} WalkFresh(o: Order, makers: seq<Order>)
    requires o.InRange() && o.Remaining() > 0
    requires forall i :: 0 <= i < |makers| ==> makers[i].InRange() && makers[i].Remaining() > 0
    ensures var w := Walk(o, o.Remaining(), makers);
            && |w.matched| == |w.trades| <= |makers|
            && (forall i :: 0 <= i < |w.trades| ==> w.trades[i].amount > 0)
            && (w.exhausted <==> w.taker.Remaining() == 0)
            && (forall i :: 0 <= i < |w.matched| - 1 ==> w.matched[i].status == Filled)
    ensures var w := Walk(o, o.Remaining(), makers);
            TradeSum(w.trades) == if RemainingSum(makers) < o.Remaining() then RemainingSum(makers) else o.Remaining()
    decreases |makers|
  {
    if makers != [] {
      var x := Execute(o, makers[0]);
      RemainingSumPositive(makers[1..]);
      if x.taker.Remaining() != 0 {
        WalkFresh(x.taker, makers[1..]);
        var r := Walk(x.taker, x.taker.Remaining(), makers[1..]);
        assert ([x.trade] + r.trades)[1..] == r.trades;
      }
    }
  }

  lemma {:induction false} RemainingSumPositive(os: seq<Order>)
    requires forall i :: 0 <= i < |os| ==> os[i].Remaining() > 0
    ensures RemainingSum(os) >= |os|
  {
    if os != [] {
      RemainingSumPositive(os[1..]);
    }
  }

  lemma FreshTaken(o: Order, makers: seq<Order>)
    requires o.filled == 0 < o.hash.amount
    requires forall i :: 0 <= i < |makers| ==> makers[i].InRange() && makers[i].Remaining() > 0
    ensures Taken(o, makers).InRange() && Taken(o, makers).StatusAgrees()
  {
    TakenEffect(o, makers);
    WalkFresh(o, makers);
    RemainingSumPositive(makers);
  }

  lemma MakersRest(s: Store, o: Order, makers: seq<Order>)
    requires Consistent(s) && IsMatching(s, o, makers)
    ensures AllInRange(s)
    ensures forall i :: 0 <= i < |makers| ==> makers[i].InRange() && makers[i].Remaining() > 0
  {
    forall i | 0 <= i < |makers| ensures makers[i].InRange() && makers[i].Remaining() > 0 {
      assert s[makers[i].hash] == makers[i];
    }
  }

  lemma ConsistentAdvance(s: Store, h: Hash, taker: Order, s': Store)
    requires Consistent(s) && WellKeyed(s') && s'.Keys == s.Keys + {h}
    requires taker.InRange() && taker.StatusAgrees()
    requires s'[h] == taker.(createdAt := s'[h].createdAt)
    requires forall k :: k in s && k != h ==> Advanced(s[k], s'[k]) && (s[k] == s'[k] || s[k].filled < s'[k].filled)
    ensures Consistent(s')
  {
    forall k | k in s' ensures s'[k].InRange() && s'[k].StatusAgrees() {
      if k != h {
        assert Advanced(s[k], s'[k]);
      }
    }
  }

  /** A match in which every trade is positive leaves an order as it was or fills it further. */
  lemma PositiveMakers(s: Store, o: Order, makers: seq<Order>, now: int)
    requires Consistent(s) && o.InRange() && IsMatching(s, o, makers)
    requires forall t :: t in Walk(o, o.hash.amount, makers).trades ==> t.amount > 0
    ensures var s' := Match(s, o, makers, now).store;
            && s.Keys <= s'.Keys
            && (forall k :: k in s && k != o.hash ==> s[k] == s'[k] || s[k].filled < s'[k].filled)
            && (forall k :: k in HashSet(Walk(o, o.hash.amount, makers).matched) ==> k in s && s[k].Live() && s[k].filled < s'[k].filled)
  {
    MakersRest(s, o, makers);
    MatchEffect(s, o, makers, now);
    WalkMakers(o, o.hash.amount, makers);
    var w := Walk(o, o.hash.amount, makers);
    forall k | k in HashSet(w.matched)
      ensures k in s && s[k].Live() && s[k].filled < Match(s, o, makers, now).store[k].filled
    {
      var i :| 0 <= i < |w.matched| && w.matched[i].hash == k;
      assert Executed(o.hash, makers[i], w.matched[i], w.trades[i]);
    }
  }

  lemma FreshMakers(s: Store, o: Order, makers: seq<Order>, now: int)
    requires Consistent(s) && o.filled == 0 < o.hash.amount && IsMatching(s, o, makers)
    ensures var s' := Match(s, o, makers, now).store;
            && s.Keys <= s'.Keys
            && (forall k :: k in s && k != o.hash ==> s[k] == s'[k] || s[k].filled < s'[k].filled)
            && (forall k :: k in HashSet(Walk(o, o.hash.amount, makers).matched) ==> k in s && s[k].Live() && s[k].filled < s'[k].filled)
  {
    MakersRest(s, o, makers);
    WalkFresh(o, makers);
    PositiveMakers(s, o, makers, now);
  }

  /** An order with nothing filled, stored before or not, leaves every status right. */
  lemma ConsistentMatch(s: Store, o: Order, makers: seq<Order>, now: int)
    requires Consistent(s) && o.filled == 0 < o.hash.amount && IsMatching(s, o, makers)
    ensures Consistent(Match(s, o, makers, now).store)
  {
    MakersRest(s, o, makers);
    MatchEffect(s, o, makers, now);
    FreshTaken(o, makers);
    FreshMakers(s, o, makers, now);
    ConsistentAdvance(s, o.hash, Taken(o, makers), Match(s, o, makers, now).store);
  }

  lemma ConsistentStep(x: Exchange, e: Event, x': Exchange)
    requires Consistent(x.orders) && Step(x, e, x')
    ensures Consistent(x'.orders)
  {
    if e.Submit? {
      ConsistentMatch(x.orders, e.o, e.makers, e.now);
    }
  }

  // ---- every fill is accounted for in the ledger ----

  /** What the ledger says was traded on the order with hash h, as maker or as taker. */
  function Traded(ts: seq<Trade>, h: Hash): int {
    if ts == [] then 0
    else (if ts[0].maker == h || ts[0].taker == h then ts[0].amount else 0) + Traded(ts[1..], h)
  }

  lemma {:induction false} TradedConcat(a: seq<Trade>, b: seq<Trade>, h: Hash)
    ensures Traded(a + b, h) == Traded(a, h) + Traded(b, h)
  {
    if a == [] {
      assert a + b == b;
    } else {
      assert (a + b)[1..] == a[1..] + b;
      TradedConcat(a[1..], b, h);
    }
  }

  lemma {:induction false} TradedTaker(ts: seq<Trade>, h: Hash)
    requires forall i :: 0 <= i < |ts| ==> ts[i].taker == h
    ensures Traded(ts, h) == TradeSum(ts)
  {
    if ts != [] {
      TradedTaker(ts[1..], h);
    }
  }

  /** A hash is named by at most the one trade in which it is the maker. */
  lemma {:induction false} TradedMaker(ts: seq<Trade>, h: Hash, k: nat)
    requires forall i :: 0 <= i < |ts| ==> ts[i].taker != h && (ts[i].maker == h <==> i == k)
    ensures Traded(ts, h) == if k < |ts| then ts[k].amount else 0
    decreases |ts|
  {
    if ts != [] {
      var rest := ts[1..];
      if k == 0 {
        TradedMaker(rest, h, |rest|);
      } else {
        assert forall i :: 0 <= i < |rest| ==> rest[i] == ts[i + 1];
        TradedMaker(rest, h, k - 1);
      }
    }
  }

  /** The stored fill; an order that is not stored has none. */
  function FillOf(s: Store, h: Hash): int {
    if h in s then s[h].filled else 0
  }

  ghost predicate Accounted(x: Exchange) {
    forall h :: FillOf(x.orders, h) == Traded(x.ledger, h)
  }

  /** What a walk trades on a maker is what it adds to its fill. */
  lemma WalkTraded(o: Order, makers: seq<Order>, h: Hash)
    requires o.InRange() && Distinct(makers) && h != o.hash
    requires forall i :: 0 <= i < |makers| ==> makers[i].InRange()
    ensures var w := Walk(o, o.hash.amount, makers);
            && |w.trades| == |w.matched| <= |makers|
            && (h !in HashSet(w.matched) ==> Traded(w.trades, h) == 0)
            && (forall k :: 0 <= k < |w.trades| && makers[k].hash == h ==> Traded(w.trades, h) == w.matched[k].filled - makers[k].filled)
            && (h in HashSet(w.matched) ==> exists k :: 0 <= k < |w.trades| && makers[k].hash == h)
  {
    var w := Walk(o, o.hash.amount, makers);
    WalkMakers(o, o.hash.amount, makers);
    forall i | 0 <= i < |w.trades|
      ensures w.trades[i].taker == o.hash && w.trades[i].maker == makers[i].hash == w.matched[i].hash
      ensures w.trades[i].amount == w.matched[i].filled - makers[i].filled
    {
      assert Executed(o.hash, makers[i], w.matched[i], w.trades[i]);
    }
    if k :| 0 <= k < |w.trades| && makers[k].hash == h {
      TradedMaker(w.trades, h, k);
    } else {
      TradedMaker(w.trades, h, |w.trades|);
    }
  }

  /** What one match adds to the ledger under a hash is what it adds to that order's fill: the
      stored fill for a maker, the fill it came with for the taker. */
  lemma MatchTraded(s: Store, o: Order, makers: seq<Order>, now: int, h: Hash)
    requires WellKeyed(s) && AllInRange(s) && o.InRange() && IsMatching(s, o, makers)
    ensures var r := Match(s, o, makers, now);
            FillOf(r.store, h) == (if h == o.hash then o.filled else FillOf(s, h)) + Traded(Trades(r.response), h)
  {
    var w := Walk(o, o.hash.amount, makers);
    MatchEffect(s, o, makers, now);
    MatchTrades(s, o, makers, now);
    if h == o.hash {
      TakenEffect(o, makers);
      TradedTaker(w.trades, h);
    } else {
      WalkTraded(o, makers, h);
    }
  }

  lemma AccountedStep(x: Exchange, e: Event, x': Exchange)
    requires Consistent(x.orders) && Accounted(x) && Step(x, e, x')
    ensures Accounted(x')
  {
    match e
    case Cancel(h) =>
      assert forall k :: FillOf(x'.orders, k) == FillOf(x.orders, k);
    case Submit(o, makers, now) =>
      forall h ensures FillOf(x'.orders, h) == Traded(x'.ledger, h) {
        MatchTraded(x.orders, o, makers, now, h);
        TradedConcat(x.ledger, Trades(Match(x.orders, o, makers, now).response), h);
      }
  }

  // ---- bids and asks fill by the same total ----

  ghost function SideWeight(s: Store, side: Side, base: Token, quote: Token): Hash -> int {
    h => if h in s && h.side == side && h.base == base && h.quote == quote then s[h].filled else 0
  }

  ghost function SideFilled(s: Store, side: Side, base: Token, quote: Token): int {
    Sum(s.Keys, SideWeight(s, side, base, quote))
  }

  predicate OfPair(h: Hash, base: Token, quote: Token) {
    h.base == base && h.quote == quote
  }

  /** The amount traded on a pair. */
  function Volume(ts: seq<Trade>, base: Token, quote: Token): int {
    if ts == [] then 0
    else (if OfPair(ts[0].taker, base, quote) then ts[0].amount else 0) + Volume(ts[1..], base, quote)
  }

  lemma {:induction false} VolumeConcat(a: seq<Trade>, b: seq<Trade>, base: Token, quote: Token)
    ensures Volume(a + b, base, quote) == Volume(a, base, quote) + Volume(b, base, quote)
  {
    if a == [] {
      assert a + b == b;
    } else {
      assert (a + b)[1..] == a[1..] + b;
      VolumeConcat(a[1..], b, base, quote);
    }
  }

  lemma {:induction false} VolumeOfMatch(ts: seq<Trade>, h: Hash, base: Token, quote: Token)
    requires forall i :: 0 <= i < |ts| ==> ts[i].taker == h
    ensures Volume(ts, base, quote) == if OfPair(h, base, quote) then TradeSum(ts) else 0
  {
    if ts != [] {
      VolumeOfMatch(ts[1..], h, base, quote);
    }
  }

  /** Writing back executed makers adds their trades to their side of their pair, and to nothing else. */
  lemma {:induction false} MakersFilled(s: Store, o: Order, makers: seq<Order>, matched: seq<Order>, trades: seq<Trade>,
                                        side: Side, base: Token, quote: Token)
    requires WellKeyed(s) && Distinct(makers) && |matched| == |trades| <= |makers|
    requires forall i :: 0 <= i < |makers| ==> makers[i].hash in s && s[makers[i].hash] == makers[i]
    requires forall i :: 0 <= i < |makers| ==> OfPair(makers[i].hash, o.hash.base, o.hash.quote) && makers[i].hash.side == o.hash.side.Opposite()
    requires forall i :: 0 <= i < |trades| ==> Executed(o.hash, makers[i], matched[i], trades[i])
    ensures SideFilled(PutAll(s, matched), side, base, quote) ==
              SideFilled(s, side, base, quote) +
              if side == o.hash.side.Opposite() && OfPair(o.hash, base, quote) then TradeSum(trades) else 0
    decreases |matched|
  {
    if matched != [] {
      assert Executed(o.hash, makers[0], matched[0], trades[0]);
      var h := makers[0].hash;
      var s1 := s[h := matched[0]];
      SumShift(s.Keys, SideWeight(s, side, base, quote), SideWeight(s1, side, base, quote), h);
      assert s1.Keys == s.Keys;
      MakersFilled(s1, o, makers[1..], matched[1..], trades[1..], side, base, quote);
    }
  }

  ghost predicate Balanced(x: Exchange) {
    forall side, base, quote :: SideFilled(x.orders, side, base, quote) == Volume(x.ledger, base, quote)
  }

  /** Inserting one order adds its fill to its own side and pair. */
  lemma InsertFilled(s: Store, o: Order, now: int, side: Side, base: Token, quote: Token)
    requires o.hash !in s
    ensures SideFilled(Put(s, o, now), side, base, quote) ==
              SideFilled(s, side, base, quote) + if side == o.hash.side && OfPair(o.hash, base, quote) then o.filled else 0
  {
    var s' := Put(s, o, now);
    assert s'.Keys == s.Keys + {o.hash};
    SumAdd(s.Keys, SideWeight(s', side, base, quote), o.hash);
    SumSame(s.Keys, SideWeight(s', side, base, quote), SideWeight(s, side, base, quote));
  }

  /** The trades of a match, whichever way it ended. */
  lemma MatchTrades(s: Store, o: Order, makers: seq<Order>, now: int)
    requires AllCapped(s) && o.Capped() && IsMatching(s, o, makers)
    ensures var ts := Trades(Match(s, o, makers, now).response);
            && ts == Walk(o, o.hash.amount, makers).trades
            && |ts| <= |makers|
            && forall i :: 0 <= i < |ts| ==> ts[i].taker == o.hash && ts[i].maker == makers[i].hash
  {
    WalkMakers(o, o.hash.amount, makers);
    var w := Walk(o, o.hash.amount, makers);
    forall i | 0 <= i < |w.trades| ensures w.trades[i].taker == o.hash && w.trades[i].maker == makers[i].hash {
      assert Executed(o.hash, makers[i], w.matched[i], w.trades[i]);
    }
  }

  lemma MatchFilled(s: Store, o: Order, makers: seq<Order>, now: int, side: Side, base: Token, quote: Token)
    requires Consistent(s) && Fresh(s, o) && IsMatching(s, o, makers)
    ensures var r := Match(s, o, makers, now);
            SideFilled(r.store, side, base, quote) == SideFilled(s, side, base, quote) + Volume(Trades(r.response), base, quote)
  {
    var w := Walk(o, o.hash.amount, makers);
    var s1 := PutAll(s, w.matched);
    WalkMakers(o, o.hash.amount, makers);
    MakersFilled(s, o, makers, w.matched, w.trades, side, base, quote);
    assert o.hash !in s1 by {
      forall i | 0 <= i < |w.matched| ensures w.matched[i].hash == makers[i].hash {
        assert Executed(o.hash, makers[i], w.matched[i], w.trades[i]);
      }
      PutAllAt(s, w.matched);
    }
    TakenEffect(o, makers);
    InsertFilled(s1, Taken(o, makers), now, side, base, quote);
    MatchTrades(s, o, makers, now);
    VolumeOfMatch(w.trades, o.hash, base, quote);
  }

  lemma CancelFilled(s: Store, h: Hash, side: Side, base: Token, quote: Token)
    ensures SideFilled(SetStatus(s, h, Cancelled), side, base, quote) == SideFilled(s, side, base, quote)
  {
    var s' := SetStatus(s, h, Cancelled);
    assert s'.Keys == s.Keys;
    SumSame(s.Keys, SideWeight(s, side, base, quote), SideWeight(s', side, base, quote));
  }

  lemma BalancedStep(x: Exchange, e: Event, x': Exchange)
    requires Consistent(x.orders) && Balanced(x) && Step(x, e, x')
    ensures Balanced(x')
  {
    forall side, base, quote ensures SideFilled(x'.orders, side, base, quote) == Volume(x'.ledger, base, quote) {
      match e
      case Cancel(h) =>
        CancelFilled(x.orders, h, side, base, quote);
      case Submit(o, makers, now) =>
        MatchFilled(x.orders, o, makers, now, side, base, quote);
        VolumeConcat(x.ledger, Trades(Match(x.orders, o, makers, now).response), base, quote);
    }
  }

  // ---- trade hashes are keys ----

  /** Trades are between stored orders of opposite sides of one pair, for a positive amount,
      and no two trades join the same maker and taker. */
  ghost predicate Identified(x: Exchange) {
    && (forall i :: 0 <= i < |x.ledger| ==>
          && x.ledger[i].maker in x.orders && x.ledger[i].taker in x.orders
          && x.ledger[i].maker.side == x.ledger[i].taker.side.Opposite()
          && OfPair(x.ledger[i].maker, x.ledger[i].taker.base, x.ledger[i].taker.quote)
          && x.ledger[i].amount > 0)
    && (forall i, j :: 0 <= i < j < |x.ledger| ==>
          x.ledger[i].maker != x.ledger[j].maker || x.ledger[i].taker != x.ledger[j].taker)
  }

  lemma FreshTrades(s: Store, o: Order, makers: seq<Order>, now: int)
    requires Consistent(s) && Fresh(s, o) && IsMatching(s, o, makers)
    ensures var ts := Trades(Match(s, o, makers, now).response);
            forall i :: 0 <= i < |ts| ==> ts[i].amount > 0
  {
    WalkFresh(o, makers);
    MatchTrades(s, o, makers, now);
  }

  /** New trades of one new taker with distinct makers keep trade hashes unique. */
  lemma IdentifiedAppend(x: Exchange, ts: seq<Trade>, taker: Hash, makers: seq<Order>, x': Exchange)
    requires Identified(x) && taker !in x.orders && Distinct(makers) && |ts| <= |makers|
    requires x'.ledger == x.ledger + ts && x'.orders.Keys == x.orders.Keys + {taker}
    requires forall i :: 0 <= i < |ts| ==>
               && ts[i].taker == taker && ts[i].maker == makers[i].hash && ts[i].amount > 0
               && makers[i].hash in x.orders && makers[i].hash.side == taker.side.Opposite() && OfPair(makers[i].hash, taker.base, taker.quote)
    ensures Identified(x')
  {
  }

  lemma IdentifiedStep(x: Exchange, e: Event, x': Exchange)
    requires Consistent(x.orders) && Identified(x) && Step(x, e, x')
    ensures Identified(x')
  {
    if e.Submit? {
      var o, makers := e.o, e.makers;
      MakersRest(x.orders, o, makers);
      MatchEffect(x.orders, o, makers, e.now);
      MatchTrades(x.orders, o, makers, e.now);
      FreshTrades(x.orders, o, makers, e.now);
      IdentifiedAppend(x, Trades(Match(x.orders, o, makers, e.now).response), o.hash, makers, x');
    }
  }

  /** Over every run of fresh orders and cancellations: statuses agree with amounts, every fill
      equals the trades that name the order, bids and asks of a pair have filled by the same
      total, and trade hashes are unique. */
  lemma {:induction false} RunConserves(states: seq<Exchange>, events: seq<Event>, n: nat)
    requires IsRun(states, events) && n < |states|
    ensures Consistent(states[n].orders)
    ensures Accounted(states[n])
    ensures Balanced(states[n])
    ensures Identified(states[n])
  {
    if n > 0 {
      RunConserves(states, events, n - 1);
      assert StepAt(states, events, n - 1);
      ConsistentStep(states[n - 1], events[n - 1], states[n]);
      AccountedStep(states[n - 1], events[n - 1], states[n]);
      BalancedStep(states[n - 1], events[n - 1], states[n]);
      IdentifiedStep(states[n - 1], events[n - 1], states[n]);
    }
  }

  /** The fill of one order is what the ledger says was traded on it. */
  lemma RunFilled(states: seq<Exchange>, events: seq<Event>, n: nat, h: Hash)
    requires IsRun(states, events) && n < |states| && h in states[n].orders
    ensures states[n].orders[h].hash == h && states[n].orders[h].filled == Traded(states[n].ledger, h)
  {
    RunConserves(states, events, n);
    assert Accounted(states[n]);
  }

  /** The same, read off for a caller: live orders always have something left. */
  lemma RunLiveRests(states: seq<Exchange>, events: seq<Event>, n: nat, h: Hash)
    requires IsRun(states, events) && n < |states| && h in states[n].orders
    ensures states[n].orders[h].Live() ==> states[n].orders[h].Resting()
  {
    RunConserves(states, events, n);
  }

  // ---- greedy matching ----

  /** A fresh order trades as much as it and the crossing orders allow. */
  lemma MatchGreedyTotal(s: Store, o: Order, makers: seq<Order>, now: int)
    requires Consistent(s) && Fresh(s, o) && IsMatching(s, o, makers)
    ensures var r := Match(s, o, makers, now);
            TradeSum(Trades(r.response)) == if RemainingSum(makers) < o.hash.amount then RemainingSum(makers) else o.hash.amount
  {
    WalkFresh(o, makers);
    MatchTrades(s, o, makers, now);
  }

  /** The orders a fresh order trades with are the first n of the price-time order, all but
      the last of them are used up, the others are untouched, and stopping before the end of
      the list means that the taker is filled. */
  lemma MatchGreedyPrefix(s: Store, o: Order, makers: seq<Order>, now: int)
    requires Consistent(s) && Fresh(s, o) && IsMatching(s, o, makers)
    ensures var r := Match(s, o, makers, now);
            var ts := Trades(r.response);
            && |ts| <= |makers|
            && r.store.Keys == s.Keys + {o.hash}
            && (forall i :: 0 <= i < |ts| ==> ts[i].maker == makers[i].hash && ts[i].amount > 0)
            && (forall i :: 0 <= i < |ts| - 1 ==> r.store[makers[i].hash].status == Filled)
            && (forall i :: |ts| <= i < |makers| ==> r.store[makers[i].hash] == makers[i])
            && (|ts| < |makers| ==> r.store[o.hash].status == Filled)
  {
    MakersRest(s, o, makers);
    MatchEffect(s, o, makers, now);
    MatchTrades(s, o, makers, now);
    FreshTrades(s, o, makers, now);
    GreedyWalk(o, makers);
    var r := Match(s, o, makers, now);
    var w := Walk(o, o.hash.amount, makers);
    forall i | |w.trades| <= i < |makers| ensures r.store[makers[i].hash] == makers[i] {
      assert makers[i].hash !in HashSet(w.matched);
    }
  }

  lemma GreedyWalk(o: Order, makers: seq<Order>)
    requires Distinct(makers) && o.filled == 0 < o.hash.amount
    requires forall i :: 0 <= i < |makers| ==> makers[i].InRange() && makers[i].Remaining() > 0
    ensures var w := Walk(o, o.hash.amount, makers);
            && |w.matched| == |w.trades| <= |makers|
            && (forall i :: 0 <= i < |w.matched| - 1 ==> w.matched[i].status == Filled)
            && (forall i :: |w.matched| <= i < |makers| ==> makers[i].hash !in HashSet(w.matched))
            && (|w.matched| < |makers| ==> Taken(o, makers).status == Filled)
  {
    var w := Walk(o, o.hash.amount, makers);
    WalkFresh(o, makers);
    WalkEnd(o, o.hash.amount, makers);
    WalkMakers(o, o.hash.amount, makers);
    forall i | 0 <= i < |w.matched| ensures w.matched[i].hash == makers[i].hash {
      assert Executed(o.hash, makers[i], w.matched[i], w.trades[i]);
    }
  }

  /** The response to a fresh order tells what happened: "added" exactly when nothing crosses,
      "filled" exactly when the stored order is filled. */
  lemma ResponseTellsOutcome(s: Store, o: Order, makers: seq<Order>, now: int)
    requires Consistent(s) && Fresh(s, o) && IsMatching(s, o, makers)
    ensures var r := Match(s, o, makers, now);
            && (r.response.OrderAdded? || r.response.OrderFilled? || r.response.OrderPartiallyFilled?)
            && o.hash in r.store
            && (r.response.OrderAdded? <==> forall h :: h in s ==> !Crosses(s[h], o))
            && (r.response.OrderFilled? <==> r.store[o.hash].status == Filled)
  {
    MakersRest(s, o, makers);
    MatchEffect(s, o, makers, now);
    if makers != [] {
      assert Crosses(s[makers[0].hash], o);
    }
  }

  /** The orders a response carries are the stored ones, except that the taker's creation time
      is set by the database. */
  lemma ResponseCarriesStored(s: Store, o: Order, makers: seq<Order>, now: int)
    requires Consistent(s) && Fresh(s, o) && IsMatching(s, o, makers)
    ensures var r := Match(s, o, makers, now);
            && o.hash in r.store
            && (r.response.OrderAdded? || r.response.OrderFilled? || r.response.OrderPartiallyFilled?)
            && r.response.order == r.store[o.hash].(createdAt := o.createdAt)
    ensures var r := Match(s, o, makers, now);
            r.response.OrderAdded? ==> r.response.order == o.(status := Open) && r.store == s[o.hash := o.(status := Open, createdAt := now)]
    ensures var r := Match(s, o, makers, now);
            makers != [] ==>
              && !r.response.OrderAdded?
              && r.response.order == r.response.matches.taker
              && forall i :: 0 <= i < |r.response.matches.makers| ==>
                   var m := r.response.matches.makers[i]; m.hash in r.store && r.store[m.hash] == m
  {
    MakersRest(s, o, makers);
    MatchEffect(s, o, makers, now);
    TakenEffect(o, makers);
    MatchedHashes(o, makers);
  }

  lemma MatchedHashes(o: Order, makers: seq<Order>)
    requires o.Capped() && forall i :: 0 <= i < |makers| ==> makers[i].Capped()
    ensures var w := Walk(o, o.hash.amount, makers);
            |w.matched| <= |makers| && forall i :: 0 <= i < |w.matched| ==> w.matched[i].hash == makers[i].hash
  {
    WalkMakers(o, o.hash.amount, makers);
    var w := Walk(o, o.hash.amount, makers);
    forall i | 0 <= i < |w.matched| ensures w.matched[i].hash == makers[i].hash {
      assert Executed(o.hash, makers[i], w.matched[i], w.trades[i]);
    }
  }
}

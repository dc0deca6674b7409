/** Who trades with whom, in prices and creation times: limits are respected and price-time
    priority is kept in every run (engine/orderbook.go:98-221, daos/order.go:659-731). */
module Priority {
  import opened Orders
  import opened OrderStore
  import opened Matching
  import opened BookRuns

  /** The order stored under h is live, on the other side of o's pair, and neither price limit
      keeps the two apart. */
  predicate Tradable(s: Store, o: Order, h: Hash) {
    && h in s && (s[h].status == Open || s[h].status == PartialFilled)
    && h.base == o.hash.base && h.quote == o.hash.quote
    && ((o.hash.side == Buy && h.side == Sell && h.price <= o.hash.price) || (o.hash.side == Sell && h.side == Buy && o.hash.price <= h.price))
  }

  /** The order under a has the better price of its side, or the same price and came earlier. */
  predicate Ahead(s: Store, a: Hash, b: Hash)
    requires a in s && b in s
  {
    || (a.price == b.price && s[a].createdAt < s[b].createdAt)
    || (a.side == Sell && a.price < b.price)
    || (a.side == Buy && a.price > b.price)
  }

  /** A taker with nothing left trades nothing. */
  lemma {:induction false} WalkUsedUp(o: Order, counter: int, makers: seq<Order>)
    requires o.Remaining() == 0 && forall k :: 0 <= k < |makers| ==> makers[k].Capped()
    ensures forall j :: 0 <= j < |Walk(o, counter, makers).trades| ==> Walk(o, counter, makers).trades[j].amount == 0
    decreases |makers|
  {
    if makers != [] {
      var x := Execute(o, makers[0]);
      WalkUsedUp(x.taker, counter - x.trade.amount, makers[1..]);
    }
  }

  ghost predicate FilledBefore(w: Walked) {
    && |w.matched| == |w.trades|
    && forall i, j :: 0 <= i < j < |w.trades| && w.trades[j].amount > 0 ==> w.matched[i].status == Filled
  }

  lemma FilledBeforeCons(m: Order, t: Trade, r: Walked, w: Walked)
    requires FilledBefore(r) && w.matched == [m] + r.matched && w.trades == [t] + r.trades
    requires m.status == Filled || forall j :: 0 <= j < |r.trades| ==> r.trades[j].amount == 0
    ensures FilledBefore(w)
  {
  }

  /** A trade with a later maker means that every earlier one is used up. */
  lemma {:induction false} WalkPriority(o: Order, counter: int, makers: seq<Order>)
    requires o.Capped() && forall k :: 0 <= k < |makers| ==> makers[k].Capped()
    ensures FilledBefore(Walk(o, counter, makers))
    decreases |makers|
  {
    if makers != [] {
      var x := Execute(o, makers[0]);
      var c := counter - x.trade.amount;
      if c != 0 {
        WalkPriority(x.taker, c, makers[1..]);
        if x.maker.status != Filled {
          WalkUsedUp(x.taker, c, makers[1..]);
        }
        FilledBeforeCons(x.maker, x.trade, Walk(x.taker, c, makers[1..]), Walk(o, counter, makers));
      }
    }
  }

  lemma TradableIsFound(s: Store, o: Order, makers: seq<Order>, h: Hash) returns (i: nat)
    requires WellKeyed(s) && IsMatching(s, o, makers) && Tradable(s, o, h)
    ensures i < |makers| && makers[i] == s[h]
  {
    assert s[h] in makers;
    i :| 0 <= i < |makers| && makers[i] == s[h];
  }

  lemma AheadIsFirst(s: Store, o: Order, makers: seq<Order>, i: nat, j: nat)
    requires WellKeyed(s) && IsMatching(s, o, makers) && i < |makers| && j < |makers|
    requires makers[i].hash in s && makers[j].hash in s && Ahead(s, makers[i].hash, makers[j].hash)
    requires makers[i].hash.side == makers[j].hash.side
    ensures i < j
  {
    assert s[makers[i].hash] == makers[i] && s[makers[j].hash] == makers[j];
    assert !NoLater(makers[j], makers[i]);
  }

  lemma Unvisited(s: Store, o: Order, makers: seq<Order>, j: nat)
    requires IsMatching(s, o, makers) && |Walk(o, o.hash.amount, makers).trades| <= j < |makers|
    ensures makers[j].hash !in HashSet(Walk(o, o.hash.amount, makers).matched)
  {
    WalkShape(o, o.hash.amount, makers);
  }

  /** The query answers with exactly the orders the taker could trade with, none before one that
      stands ahead of it. */
  lemma AnswerOrdered(s: Store, o: Order, makers: seq<Order>)
    requires WellKeyed(s) && IsMatching(s, o, makers)
    ensures forall h :: h in s ==> (s[h] in makers <==> Tradable(s, o, h))
    ensures forall i, j :: 0 <= i < j < |makers| ==> makers[i].hash in s && makers[j].hash in s && !Ahead(s, makers[j].hash, makers[i].hash)
  {
    forall h | h in s ensures s[h] in makers <==> Tradable(s, o, h) {
      CrossesTradable(s, o, s[h]);
    }
    forall i, j | 0 <= i < j < |makers|
      ensures makers[i].hash in s && makers[j].hash in s && !Ahead(s, makers[j].hash, makers[i].hash)
    {
      assert NoLater(makers[i], makers[j]) && Crosses(makers[i], o) && Crosses(makers[j], o);
    }
  }

  /** Only a trade that moves something changes a fill. */
  lemma GainedTrade(s: Store, o: Order, makers: seq<Order>, now: int, j: nat)
    requires WellKeyed(s) && AllCapped(s) && o.Capped() && IsMatching(s, o, makers) && j < |makers|
    ensures var w, s' := Walk(o, o.hash.amount, makers), Match(s, o, makers, now).store;
            makers[j].hash in s' && (s'[makers[j].hash].filled != makers[j].filled ==> j < |w.trades| && w.trades[j].amount > 0)
  {
    MatchEffect(s, o, makers, now);
    WalkMakers(o, o.hash.amount, makers);
    var w := Walk(o, o.hash.amount, makers);
    if j < |w.trades| {
      assert Executed(o.hash, makers[j], w.matched[j], w.trades[j]);
    } else {
      Unvisited(s, o, makers, j);
    }
  }

  /** Price-time priority: if b gained anything in a match, every order the taker could trade with
      that stands ahead of b is filled. The taker may be new or run again. */
  lemma MatchPriority(s: Store, o: Order, makers: seq<Order>, now: int, a: Hash, b: Hash)
    requires WellKeyed(s) && AllCapped(s) && o.Capped() && IsMatching(s, o, makers)
    requires Tradable(s, o, a) && Tradable(s, o, b) && Ahead(s, a, b)
    ensures var s' := Match(s, o, makers, now).store;
            a in s' && b in s' && (s'[b].filled != s[b].filled ==> s'[a].status == Filled)
  {
    var i := TradableIsFound(s, o, makers, a);
    var j := TradableIsFound(s, o, makers, b);
    AheadIsFirst(s, o, makers, i, j);
    GainedTrade(s, o, makers, now, j);
    MatchEffect(s, o, makers, now);
    WalkPriority(o, o.hash.amount, makers);
  }

  lemma CrossesTradable(s: Store, o: Order, m: Order)
    requires m.hash in s && s[m.hash] == m
    ensures Crosses(m, o) <==> Tradable(s, o, m.hash)
  {
  }

  /** Every trade of a match is made at the taker's price with a stored order it could trade with:
      both price limits are respected. */
  lemma MatchLimits(s: Store, o: Order, makers: seq<Order>, now: int, t: Trade)
    requires IsMatching(s, o, makers) && t in Trades(Match(s, o, makers, now).response)
    ensures t.taker == o.hash && t.price == o.hash.price && Tradable(s, o, t.maker)
  {
    WalkShape(o, o.hash.amount, makers);
    var w := Walk(o, o.hash.amount, makers);
    var i :| 0 <= i < |w.trades| && w.trades[i] == t;
    CrossesTradable(s, o, makers[i]);
  }

  /** A message that runs an order through the book. */
  predicate Consumes(e: Event) {
    e.NewOrder? || e.Resubmitted?
  }

  /** In every run in which no client claims more than the whole amount, every order that runs
      through the book keeps priority. */
  lemma RunPriority(states: seq<Book>, events: seq<Event>, n: nat, a: Hash, b: Hash)
    requires IsRun(states, events) && AllBounded(events) && n < |events| && Consumes(events[n])
    requires var s := states[n].orders; Tradable(s, events[n].o, a) && Tradable(s, events[n].o, b) && Ahead(s, a, b)
    ensures var s, s' := states[n].orders, states[n + 1].orders;
            a in s' && b in s' && (s'[b].filled != s[b].filled ==> s'[a].status == Filled)
  {
    RunUncrossed(states, events, n);
    assert StepAt(states, events, n) && Bounded(events[n]);
    var e := events[n];
    MatchPriority(states[n].orders, e.o, e.makers, e.now, a, b);
  }

  // ---- cancelled orders ----

  /** Cancelling a stored order, whatever its status, takes it out of the book and changes nothing
      else. */
  lemma CancelEffect(b: Book, h: Hash, b': Book)
    requires Step(b, CancelOrder(h), b')
    ensures b'.pending == b.pending && b'.orders.Keys == b.orders.Keys
    ensures h in b.orders ==> b'.orders[h] == b.orders[h].(status := Cancelled) && !b'.orders[h].Live()
    ensures forall k :: k in b.orders && k != h ==> b'.orders[k] == b.orders[k]
  {
  }

  /** The message carries the order, or takes back a trade from it. */
  predicate Touches(e: Event, h: Hash) {
    match e
    case NewOrder(o, makers, now) => o.hash == h
    case Resubmitted(o, makers, now) => o.hash == h
    case CancelOrder(k) => false
    case InvalidateMakers(ms, found) => exists i :: 0 <= i < |ms.trades| && ms.trades[i].taker == h
    case InvalidateTaker(ms, found) => exists i :: 0 <= i < |ms.trades| && ms.trades[i].maker == h
  }

  ghost predicate Dead(s: Store, h: Hash) {
    h in s && !s[h].Live()
  }

  /** No match changes an order that is not live, unless it is its own. */
  lemma DeadMatch(s: Store, o: Order, makers: seq<Order>, now: int, h: Hash)
    requires WellKeyed(s) && IsMatching(s, o, makers) && Dead(s, h) && o.hash != h
    ensures var s' := Match(s, o, makers, now).store; h in s' && s'[h] == s[h]
  {
    var w := Walk(o, o.hash.amount, makers);
    WalkShape(o, o.hash.amount, makers);
    DeadMakers(s, o, makers, h);
    WriteBack(s, makers, w.matched, Taken(o, makers), now);
    assert h !in HashSet(w.matched);
    assert Put(PutAll(s, w.matched), Taken(o, makers), now) == Match(s, o, makers, now).store;
  }

  lemma DeadMakers(s: Store, o: Order, makers: seq<Order>, h: Hash)
    requires IsMatching(s, o, makers) && Dead(s, h)
    ensures forall i :: 0 <= i < |makers| ==> makers[i].hash != h
  {
    forall i | 0 <= i < |makers| ensures makers[i].hash != h {
      assert s[makers[i].hash] == makers[i];
    }
  }

  lemma DeadRollback(s: Store, hs: seq<Hash>, found: seq<Order>, amounts: seq<int>, dead: seq<Hash>, h: Hash)
    requires IsFound(s, hs, found) && |found| <= |amounts| && Dead(s, h) && h !in hs
    ensures var s' := BookRuns.Invalidated(s, Rollbacks(found, amounts), dead);
            Dead(s', h) && s'[h] == s[h].(status := s'[h].status)
  {
    var updated := Rollbacks(found, amounts);
    RollbacksFit(s, hs, found, amounts);
    InvalidatedAt(s, updated, dead);
    assert h !in HashSet(found);
    assert BookRuns.Invalidated(s, updated, dead)[h] == Marked(s[h], dead, h);
  }

  lemma UntouchedTaker(ms: Matches, found: seq<Order>, h: Hash)
    requires |ms.makers| == |ms.trades| && !Touches(InvalidateMakers(ms, found), h)
    ensures h !in TakerHashes(ms)
  {
    var hs := TakerHashes(ms);
    assert forall i :: 0 <= i < |hs| ==> hs[i] != h;
  }

  lemma UntouchedMaker(ms: Matches, found: seq<Order>, h: Hash)
    requires !Touches(InvalidateTaker(ms, found), h)
    ensures h !in MakerHashes(ms)
  {
    var hs := MakerHashes(ms);
    assert forall i :: 0 <= i < |hs| ==> hs[i] != h;
  }

  lemma DeadStep(b: Book, e: Event, b': Book, h: Hash)
    requires WellKeyed(b.orders) && Step(b, e, b') && Dead(b.orders, h) && !Touches(e, h)
    ensures Dead(b'.orders, h) && b'.orders[h].filled == b.orders[h].filled
  {
    match e
    case NewOrder(o, makers, now) =>
      DeadMatch(b.orders, o, makers, now, h);
    case Resubmitted(o, makers, now) =>
      DeadMatch(b.orders, o, makers, now, h);
    case CancelOrder(k) =>
    case InvalidateMakers(ms, found) =>
      UntouchedTaker(ms, found, h);
      DeadRollback(b.orders, TakerHashes(ms), found, TradeAmounts(ms.trades), MakerHashes(ms), h);
    case InvalidateTaker(ms, found) =>
      UntouchedMaker(ms, found, h);
      DeadRollback(b.orders, MakerHashes(ms), found, TradeAmounts(ms.trades), [ms.taker.hash], h);
  }

  lemma DeadNext(states: seq<Book>, events: seq<Event>, i: nat, h: Hash)
    requires IsRun(states, events) && i < |events| && Dead(states[i].orders, h) && !Touches(events[i], h)
    ensures Dead(states[i + 1].orders, h) && states[i + 1].orders[h].filled == states[i].orders[h].filled
  {
    RunWellKeyed(states, events, i);
    assert StepAt(states, events, i);
    DeadStep(states[i], events[i], states[i + 1], h);
  }

  ghost predicate Untouched(events: seq<Event>, i: nat, j: nat, h: Hash)
    requires j <= |events|
  {
    forall k :: i < k < j ==> !Touches(events[k], h)
  }

  /** From its cancellation on, until a message carries it or takes back a trade from it, an order
      is not live and keeps its fill. */
  lemma {:induction false} RunCancelled(states: seq<Book>, events: seq<Event>, i: nat, j: nat, h: Hash)
    requires IsRun(states, events) && i < j < |states| && events[i] == CancelOrder(h) && h in states[i].orders
    requires Untouched(events, i, j, h)
    ensures Dead(states[j].orders, h) && states[j].orders[h].filled == states[i].orders[h].filled
    decreases j
  {
    if j == i + 1 {
      assert StepAt(states, events, i);
      CancelEffect(states[i], h, states[j]);
    } else {
      RunCancelled(states, events, i, j - 1, h);
      DeadNext(states, events, j - 1, h);
    }
  }

  /** In between, no trade names it, as maker or as taker. */
  lemma RunCancelledTrades(states: seq<Book>, events: seq<Event>, i: nat, j: nat, h: Hash, t: Trade)
    requires IsRun(states, events) && i < j < |events| && events[i] == CancelOrder(h) && h in states[i].orders
    requires Untouched(events, i, j + 1, h)
    requires Consumes(events[j]) && t in Trades(Match(states[j].orders, events[j].o, events[j].makers, events[j].now).response)
    ensures t.maker != h && t.taker != h
  {
    RunCancelled(states, events, i, j, h);
    assert StepAt(states, events, j);
    var e := events[j];
    MatchLimits(states[j].orders, e.o, e.makers, e.now, t);
  }

  // ---- invalidated orders ----

  /** The makers of an invalidated batch are invalidated, and whoever it does not name is left as
      it was. */
  lemma InvalidatedMakers(b: Book, ms: Matches, found: seq<Order>, b': Book, h: Hash)
    requires WellKeyed(b.orders) && Step(b, InvalidateMakers(ms, found), b') && h in b.orders
    ensures h in b'.orders
    ensures (exists i :: 0 <= i < |ms.trades| && ms.trades[i].maker == h) ==> b'.orders[h].status == Status.Invalidated
    ensures (forall i :: 0 <= i < |ms.trades| ==> ms.trades[i].maker != h && ms.trades[i].taker != h) ==> b'.orders[h] == b.orders[h]
  {
    var updated := Rollbacks(found, TradeAmounts(ms.trades));
    var hs := MakerHashes(ms);
    RollbacksFit(b.orders, TakerHashes(ms), found, TradeAmounts(ms.trades));
    InvalidatedAt(b.orders, updated, hs);
    if i :| 0 <= i < |ms.trades| && ms.trades[i].maker == h {
      assert hs[i] == h;
      MarkedDead(b.orders, updated, hs, h);
    } else if forall i :: 0 <= i < |ms.trades| ==> ms.trades[i].taker != h {
      UntouchedTaker(ms, found, h);
      assert h !in HashSet(found);
      assert forall i :: 0 <= i < |hs| ==> hs[i] != h;
    }
  }

  lemma MarkedDead(s: Store, updated: seq<Order>, dead: seq<Hash>, h: Hash)
    requires Distinct(updated) && HashSet(updated) <= s.Keys && h in s && h in dead
    ensures BookRuns.Invalidated(s, updated, dead).Keys == s.Keys && BookRuns.Invalidated(s, updated, dead)[h].status == Status.Invalidated
  {
    InvalidatedAt(s, updated, dead);
    if h in HashSet(updated) {
      var i :| 0 <= i < |updated| && updated[i].hash == h;
      assert BookRuns.Invalidated(s, updated, dead)[h] == Marked(updated[i], dead, h);
    }
  }

  function TakenBack(o: Order, amount: int): int {
    var filled := o.filled - amount;
    if filled <= 0 then 0 else if filled >= o.hash.amount then o.hash.amount else filled
  }

  lemma TakesBack(o: Order, amount: int)
    ensures Rollback(o, amount).hash == o.hash && Rollback(o, amount).filled == TakenBack(o, amount)
  {
  }

  /** The k-th order found has the k-th amount taken back, within 0 and its amount, and is
      published again. */
  lemma InvalidatedTakers(b: Book, ms: Matches, found: seq<Order>, b': Book, k: nat)
    requires WellKeyed(b.orders) && Step(b, InvalidateMakers(ms, found), b') && k < |found|
    ensures found[k].hash in b'.orders
    ensures b'.orders[found[k].hash].filled == TakenBack(found[k], ms.trades[k].amount)
    ensures exists p :: p in b'.pending && p.hash == found[k].hash && p.filled == b'.orders[found[k].hash].filled
  {
    var updated := Rollbacks(found, TradeAmounts(ms.trades));
    RollbacksFit(b.orders, TakerHashes(ms), found, TradeAmounts(ms.trades));
    InvalidatedAt(b.orders, updated, MakerHashes(ms));
    TakesBack(found[k], ms.trades[k].amount);
    assert updated[k] in b'.pending;
    assert b'.orders[updated[k].hash] == Marked(updated[k], MakerHashes(ms), updated[k].hash);
  }
}

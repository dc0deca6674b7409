/** The matching engine's order book as the code runs it: messages are handled under the
    pair's lock, and every step writes the collection in place (engine/orderbook.go). */
module OrderBooks {
  import opened Orders
  import opened OrderStore
  import opened Matching
  import BookRuns
  import Priority

  /** Insertion by price, then time. */
  function Insert(m: Order, ms: seq<Order>): seq<Order> {
    if ms == [] || NoLater(m, ms[0]) then [m] + ms else [ms[0]] + Insert(m, ms[1..])
  }

  lemma {:induction false} InsertKeeps(m: Order, ms: seq<Order>)
    requires Sorted(ms) && Distinct(ms)
    requires forall i :: 0 <= i < |ms| ==> ms[i].hash.side == m.hash.side && ms[i].hash != m.hash
    ensures Sorted(Insert(m, ms)) && Distinct(Insert(m, ms))
    ensures forall x :: x in Insert(m, ms) <==> x == m || x in ms
  {
    if ms != [] && !NoLater(m, ms[0]) {
      InsertKeeps(m, ms[1..]);
      var r := Insert(m, ms[1..]);
      forall x | x in r ensures NoLater(ms[0], x) && x.hash != ms[0].hash {
        if x != m {
          assert x in ms[1..];
        }
      }
      assert Insert(m, ms) == [ms[0]] + r;
      assert forall x :: x in ms <==> x == ms[0] || x in ms[1..];
    } else {
      assert forall x :: x in ms ==> exists i :: 0 <= i < |ms| && x == ms[i];
      assert ms != [] ==> forall i :: 0 < i < |ms| ==> NoLater(ms[0], ms[i]);
    }
  }

  /** What is left of a walk after a prefix of it has been done. */
  ghost function Continued(matched: seq<Order>, trades: seq<Trade>, w: Walked): Walked {
    Walked(w.taker, matched + w.matched, trades + w.trades, w.exhausted)
  }

  /** One more turn of the loop: the rest of the walk after maker i. */
  lemma ContinuedStep(matched: seq<Order>, trades: seq<Trade>, taker: Order, remaining: int, makers: seq<Order>, i: nat)
    requires i < |makers|
    ensures var x := Matching.Execute(taker, makers[i]);
            var c := remaining - x.trade.amount;
            Continued(matched, trades, Walk(taker, remaining, makers[i..])) ==
              if c == 0 then Walked(x.taker, matched + [x.maker], trades + [x.trade], true)
              else Continued(matched + [x.maker], trades + [x.trade], Walk(x.taker, c, makers[i + 1..]))
  {
    var x := Matching.Execute(taker, makers[i]);
    var c := remaining - x.trade.amount;
    assert makers[i..][0] == makers[i] && makers[i..][1..] == makers[i + 1..];
    if c != 0 {
      var r := Walk(x.taker, c, makers[i + 1..]);
      assert matched + ([x.maker] + r.matched) == matched + [x.maker] + r.matched;
      assert trades + ([x.trade] + r.trades) == trades + [x.trade] + r.trades;
    }
  }

  class OrderBook {
    var orders: Store
    var responses: seq<Response>
    var resubmitted: seq<Order>

    constructor ()
      ensures orders == map[] && responses == [] && resubmitted == []
    {
      orders, responses, resubmitted := map[], [], [];
    }

    method FindAndModify(o: Order, now: int)
      modifies `orders
      ensures orders == Put(old(orders), o, now)
    {
      orders := Put(orders, o, now);
    }

    /** The crossing side of the book in price-time order. */
    method GetMatchingOrders(o: Order) returns (ms: seq<Order>)
      requires WellKeyed(orders)
      ensures IsMatching(orders, o, ms)
      ensures forall h :: h in orders ==> (orders[h] in ms <==> Priority.Tradable(orders, o, h))
      ensures forall i, j :: 0 <= i < j < |ms| ==> ms[i].hash in orders && ms[j].hash in orders && !Priority.Ahead(orders, ms[j].hash, ms[i].hash)
    {
      ms := [];
      var rest := orders.Keys;
      while rest != {}
        invariant rest <= orders.Keys
        invariant Distinct(ms) && Sorted(ms)
        invariant forall m :: m in ms ==> m.hash in orders && orders[m.hash] == m && Crosses(m, o) && m.hash !in rest
        invariant forall h :: h in orders && h !in rest && Crosses(orders[h], o) ==> orders[h] in ms
        decreases |rest|
      {
        var h :| h in rest;
        rest := rest - {h};
        if Crosses(orders[h], o) {
          InsertKeeps(orders[h], ms);
          ms := Insert(orders[h], ms);
        }
      }
      Priority.AnswerOrdered(orders, o, ms);
    }

    method Execute(taker: Order, maker: Order, now: int) returns (taker': Order, maker': Order, trade: Trade)
      modifies `orders
      ensures Execution(taker', maker', trade) == Matching.Execute(taker, maker)
      ensures orders == Put(old(orders), maker', now)
    {
      var amount := 0;
      if maker.Remaining() > taker.Remaining() {
        amount := taker.Remaining();
        maker' := maker.(filled := maker.filled + amount, status := PartialFilled);
        FindAndModify(maker', now);
      } else {
        amount := maker.Remaining();
        maker' := maker.(filled := maker.hash.amount, status := Filled);
        FindAndModify(maker', now);
      }
      taker' := taker.(filled := taker.filled + amount);
      trade := Trade(maker.hash, taker.hash, amount, taker.hash.price);
    }

    method AddOrder(o: Order, now: int) returns (o': Order)
      modifies `orders
      ensures o' == if o.filled == 0 then o.(status := Open) else o
      ensures orders == Put(old(orders), o', now)
    {
      o' := o;
      if o.filled == 0 {
        o' := o.(status := Open);
      }
      FindAndModify(o', now);
    }

    /** The loop shared by buyOrder and sellOrder once there is something to match. */
    method MatchAll(o: Order, makers: seq<Order>, now: int) returns (res: Response)
      requires makers != [] && IsMatching(orders, o, makers)
      modifies `orders
      ensures Outcome(orders, res) == Match(old(orders), o, makers, now)
    {
      var taker, remaining := o, o.hash.amount;
      var matched: seq<Order>, trades: seq<Trade> := [], [];
      ghost var whole := Walk(o, o.hash.amount, makers);
      var i := 0;
      assert makers[i..] == makers && whole == Continued(matched, trades, whole);
      while i < |makers|
        invariant 0 <= i <= |makers|
        invariant taker.hash == o.hash
        invariant orders == PutAll(old(orders), matched)
        invariant forall j :: i <= j < |makers| ==> makers[j].hash in orders && orders[makers[j].hash] == makers[j]
        invariant whole == Continued(matched, trades, Walk(taker, remaining, makers[i..]))
      {
        ContinuedStep(matched, trades, taker, remaining, makers, i);
        var maker, trade;
        taker, maker, trade := Execute(taker, makers[i], now);
        PutAllSnoc(old(orders), matched, maker);
        matched, trades := matched + [maker], trades + [trade];
        remaining := remaining - trade.amount;
        if remaining == 0 {
          taker := taker.(filled := o.hash.amount, status := Filled);
          FindAndModify(taker, now);
          res := OrderFilled(taker, Matches(matched, taker, trades));
          return;
        }
        i := i + 1;
      }
      assert whole == Walked(taker, matched, trades, false) by {
        assert makers[i..] == [] && matched + [] == matched && trades + [] == trades;
      }
      taker := taker.(status := PartialFilled);
      FindAndModify(taker, now);
      res := OrderPartiallyFilled(taker, Matches(matched, taker, trades));
    }

    method BuyOrder(o: Order, now: int) returns (res: Response, ghost makers: seq<Order>)
      requires WellKeyed(orders) && o.hash.side == Buy
      modifies `orders
      ensures IsMatching(old(orders), o, makers)
      ensures Outcome(orders, res) == Match(old(orders), o, makers, now)
    {
      var found := GetMatchingOrders(o);
      makers := found;
      if |found| == 0 {
        var o' := AddOrder(o, now);
        return OrderAdded(o'), makers;
      }
      res := MatchAll(o, found, now);
    }

    method SellOrder(o: Order, now: int) returns (res: Response, ghost makers: seq<Order>)
      requires WellKeyed(orders) && o.hash.side == Sell
      modifies `orders
      ensures IsMatching(old(orders), o, makers)
      ensures Outcome(orders, res) == Match(old(orders), o, makers, now)
    {
      var found := GetMatchingOrders(o);
      makers := found;
      if |found| == 0 {
        var o' := AddOrder(o.(status := Open), now);
        return OrderAdded(o'), makers;
      }
      res := MatchAll(o, found, now);
    }

    /** A NEW_ORDER message is one step of the book, and its response is published. */
    method NewOrder(o: Order, now: int) returns (ghost makers: seq<Order>)
      requires WellKeyed(orders)
      modifies this
      ensures IsMatching(old(orders), o, makers)
      ensures var r := Match(old(orders), o, makers, now);
              orders == r.store && responses == old(responses) + [r.response]
      ensures resubmitted == old(resubmitted)
    {
      var res;
      if o.hash.side == Sell {
        res, makers := SellOrder(o, now);
      } else {
        res, makers := BuyOrder(o, now);
      }
      responses := responses + [res];
    }

    /** Publishes nothing when the order is unknown. */
    method CancelOrder(o: Order) returns (ok: bool)
      modifies this
      ensures ok == (o.hash in old(orders))
      ensures orders == SetStatus(old(orders), o.hash, Cancelled)
      ensures orders == if ok then old(orders)[o.hash := old(orders)[o.hash].(status := Cancelled)] else old(orders)
      ensures responses == old(responses) + if ok then [OrderCancelled(o.(status := Cancelled))] else []
      ensures resubmitted == old(resubmitted)
    {
      ok := o.hash in orders;
      if !ok {
        return;
      }
      orders := orders[o.hash := orders[o.hash].(status := Cancelled)];
      responses := responses + [OrderCancelled(o.(status := Cancelled))];
    }

    /** A `$in` query over the collection. */
    method Find(hs: seq<Hash>) returns (found: seq<Order>)
      requires WellKeyed(orders)
      ensures IsFound(orders, hs, found)
    {
      found := [];
      var i := 0;
      while i < |hs|
        invariant 0 <= i <= |hs|
        invariant Distinct(found)
        invariant forall o :: o in found ==> o.hash in hs[..i] && o.hash in orders && orders[o.hash] == o
        invariant forall h :: h in hs[..i] && h in orders ==> orders[h] in found
      {
        if hs[i] in orders && orders[hs[i]] !in found {
          found := found + [orders[hs[i]]];
        }
        i := i + 1;
      }
      assert hs[..i] == hs;
    }

    /** Subtracts amount i from the i-th order the query returned. */
    method UpdateOrderFilledAmounts(hs: seq<Hash>, amounts: seq<int>) returns (updated: seq<Order>, ghost found: seq<Order>)
      requires WellKeyed(orders) && |hs| <= |amounts|
      modifies `orders
      ensures IsFound(old(orders), hs, found) && |found| <= |amounts|
      ensures updated == Rollbacks(found, amounts)
      ensures orders == PutAll(old(orders), updated)
    {
      var answer := Find(hs);
      found := answer;
      BookRuns.FoundFits(orders, hs, answer);
      updated := [];
      var i := 0;
      while i < |answer|
        invariant 0 <= i <= |answer|
        invariant updated == Rollbacks(answer, amounts)[..i]
        invariant orders == PutAll(old(orders), updated)
      {
        var o := answer[i];
        var filled, status := o.filled - amounts[i], PartialFilled;
        if filled <= 0 {
          filled, status := 0, Open;
        } else if filled >= o.hash.amount {
          filled, status := o.hash.amount, Filled;
        }
        var o' := o.(filled := filled, status := status);
        orders := orders[o.hash := o'];
        PutAllSnoc(old(orders), updated, o');
        updated := updated + [o'];
        i := i + 1;
      }
    }

    method UpdateOrderStatuses(status: Status, hs: seq<Hash>) returns (updated: seq<Order>)
      requires WellKeyed(orders)
      modifies `orders
      ensures orders == SetStatuses(old(orders), (set h | h in hs), status)
      ensures IsFound(orders, hs, updated)
    {
      orders := SetStatuses(orders, (set h | h in hs), status);
      updated := Find(hs);
    }

    lemma PutAllKeyed(s: Store, os: seq<Order>)
      requires WellKeyed(s)
      ensures WellKeyed(PutAll(s, os))
      decreases |os|
    {
      if os != [] {
        PutAllKeyed(s[os[0].hash := os[0]], os[1..]);
      }
    }

    /** One more response was published: the stored orders with the given hashes are invalidated. */
    ghost predicate Announced(before: seq<Response>, hs: seq<Hash>)
      reads this
    {
      && |responses| == |before| + 1
      && responses[..|before|] == before
      && responses[|before|].TradesCancelled?
      && IsFound(orders, hs, responses[|before|].invalidated)
    }

    /** INVALIDATE_MAKER_ORDERS: one step of the book; the reopened takers are published again. */
    method InvalidateMakerOrders(ms: Matches) returns (ghost found: seq<Order>)
      requires WellKeyed(orders) && |ms.makers| == |ms.trades|
      modifies this
      ensures IsFound(old(orders), BookRuns.TakerHashes(ms), found) && |found| <= |ms.trades|
      ensures var updated := Rollbacks(found, TradeAmounts(ms.trades));
              && orders == BookRuns.Invalidated(old(orders), updated, BookRuns.MakerHashes(ms))
              && resubmitted == old(resubmitted) + updated
      ensures Announced(old(responses), BookRuns.MakerHashes(ms))
    {
      var takers;
      takers, found := UpdateOrderFilledAmounts(BookRuns.TakerHashes(ms), TradeAmounts(ms.trades));
      PutAllKeyed(old(orders), takers);
      var invalidated := UpdateOrderStatuses(Status.Invalidated, BookRuns.MakerHashes(ms));
      responses := responses + [TradesCancelled(invalidated)];
      resubmitted := resubmitted + takers;
    }

    /** INVALIDATE_TAKER_ORDERS: one step of the book; the reopened makers are published again. */
    method InvalidateTakerOrders(ms: Matches) returns (ghost found: seq<Order>)
      requires WellKeyed(orders)
      modifies this
      ensures IsFound(old(orders), BookRuns.MakerHashes(ms), found) && |found| <= |ms.trades|
      ensures var updated := Rollbacks(found, TradeAmounts(ms.trades));
              && orders == BookRuns.Invalidated(old(orders), updated, [ms.taker.hash])
              && resubmitted == old(resubmitted) + updated
      ensures Announced(old(responses), [ms.taker.hash])
    {
      var makers;
      makers, found := UpdateOrderFilledAmounts(BookRuns.MakerHashes(ms), TradeAmounts(ms.trades));
      PutAllKeyed(old(orders), makers);
      var invalidated := UpdateOrderStatuses(Status.Invalidated, [ms.taker.hash]);
      responses := responses + [TradesCancelled(invalidated)];
      resubmitted := resubmitted + makers;
    }
  }
}

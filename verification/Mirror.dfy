/** buyOrder and sellOrder are the same algorithm seen in a mirror that swaps the sides and
    reverses the price axis (engine/orderbook.go:98-221). */
module Mirror {
  import opened Orders
  import opened OrderStore
  import opened Matching

  /** Reflection of the price axis about pivot / 2, with the sides exchanged. */
  function Flip(h: Hash, pivot: int): (h': Hash)
    ensures Reflects(h, h', pivot)
  {
    h.(side := h.side.Opposite(), price := pivot - h.price)
  }

  predicate Reflects(h: Hash, h': Hash, pivot: int) {
    && h.side != h'.side
    && h.price + h'.price == pivot
    && h' == h.(side := h'.side, price := h'.price)
  }

  function FlipOrder(o: Order, pivot: int): Order {
    o.(hash := Flip(o.hash, pivot))
  }

  function FlipOrders(os: seq<Order>, pivot: int): (r: seq<Order>)
    ensures |r| == |os|
    ensures forall i :: 0 <= i < |os| ==> r[i] == FlipOrder(os[i], pivot)
  {
    seq(|os|, i requires 0 <= i < |os| => FlipOrder(os[i], pivot))
  }

  function FlipTrade(t: Trade, pivot: int): Trade {
    Trade(Flip(t.maker, pivot), Flip(t.taker, pivot), t.amount, pivot - t.price)
  }

  function FlipTrades(ts: seq<Trade>, pivot: int): (r: seq<Trade>)
    ensures |r| == |ts|
    ensures forall i :: 0 <= i < |ts| ==> r[i] == FlipTrade(ts[i], pivot)
  {
    seq(|ts|, i requires 0 <= i < |ts| => FlipTrade(ts[i], pivot))
  }

  function FlipStore(s: Store, pivot: int): Store {
    map h | h in s :: Flip(h, pivot) := FlipOrder(s[h], pivot)
  }

  function FlipMatches(ms: Matches, pivot: int): Matches {
    Matches(FlipOrders(ms.makers, pivot), FlipOrder(ms.taker, pivot), FlipTrades(ms.trades, pivot))
  }

  function FlipResponse(r: Response, pivot: int): Response {
    match r
    case OrderAdded(o) => OrderAdded(FlipOrder(o, pivot))
    case OrderFilled(o, ms) => OrderFilled(FlipOrder(o, pivot), FlipMatches(ms, pivot))
    case OrderPartiallyFilled(o, ms) => OrderPartiallyFilled(FlipOrder(o, pivot), FlipMatches(ms, pivot))
    case OrderCancelled(o) => OrderCancelled(FlipOrder(o, pivot))
    case TradesCancelled(os) => TradesCancelled(FlipOrders(os, pivot))
  }

  function FlipOutcome(x: Outcome, pivot: int): Outcome {
    Outcome(FlipStore(x.store, pivot), FlipResponse(x.response, pivot))
  }

  lemma FlipStoreAt(s: Store, pivot: int, h: Hash)
    ensures h in s <==> Flip(h, pivot) in FlipStore(s, pivot)
    ensures h in s ==> FlipStore(s, pivot)[Flip(h, pivot)] == FlipOrder(s[h], pivot)
  {
    assert forall k :: Flip(k, pivot) == Flip(h, pivot) ==> k == h;
  }

  /** The mirrored store read at any hash. */
  lemma FlippedAt(s: Store, pivot: int, k: Hash)
    ensures k in FlipStore(s, pivot) <==> Flip(k, pivot) in s
    ensures k in FlipStore(s, pivot) ==> FlipStore(s, pivot)[k] == FlipOrder(s[Flip(k, pivot)], pivot)
  {
    FlipStoreAt(s, pivot, Flip(k, pivot));
    assert Flip(Flip(k, pivot), pivot) == k;
  }

  /** The mirrored query has the mirrored answer: same orders, same priority. */
  lemma MatchingFlips(s: Store, o: Order, ms: seq<Order>, pivot: int)
    requires IsMatching(s, o, ms)
    ensures IsMatching(FlipStore(s, pivot), FlipOrder(o, pivot), FlipOrders(ms, pivot))
  {
    var s', o', ms' := FlipStore(s, pivot), FlipOrder(o, pivot), FlipOrders(ms, pivot);
    forall i | 0 <= i < |ms'| ensures ms'[i].hash in s' && s'[ms'[i].hash] == ms'[i] && Crosses(ms'[i], o') {
      FlipStoreAt(s, pivot, ms[i].hash);
    }
    forall i, j | 0 <= i < j < |ms'| ensures NoLater(ms'[i], ms'[j]) && ms'[i].hash != ms'[j].hash {
      assert NoLater(ms[i], ms[j]);
      assert Reflects(ms[i].hash, ms'[i].hash, pivot) && Reflects(ms[j].hash, ms'[j].hash, pivot);
    }
    forall h' | h' in s' && Crosses(s'[h'], o') ensures s'[h'] in ms' {
      var h := Flip(h', pivot);
      FlippedAt(s, pivot, h');
      assert Crosses(s[h], o);
      var i :| 0 <= i < |ms| && ms[i] == s[h];
      assert ms'[i] == s'[h'];
    }
  }

  lemma ExecuteFlips(o: Order, m: Order, pivot: int)
    ensures var x := Execute(o, m);
            Execute(FlipOrder(o, pivot), FlipOrder(m, pivot)) ==
              Execution(FlipOrder(x.taker, pivot), FlipOrder(x.maker, pivot), FlipTrade(x.trade, pivot))
  {
  }

  lemma FlipCons(o: Order, os: seq<Order>, t: Trade, ts: seq<Trade>, pivot: int)
    ensures FlipOrders([o] + os, pivot) == [FlipOrder(o, pivot)] + FlipOrders(os, pivot)
    ensures FlipTrades([t] + ts, pivot) == [FlipTrade(t, pivot)] + FlipTrades(ts, pivot)
    ensures FlipOrders([o], pivot) == [FlipOrder(o, pivot)] && FlipTrades([t], pivot) == [FlipTrade(t, pivot)]
  {
  }

  lemma {:induction false} WalkFlips(o: Order, counter: int, makers: seq<Order>, pivot: int)
    ensures var w := Walk(o, counter, makers);
            Walk(FlipOrder(o, pivot), counter, FlipOrders(makers, pivot)) ==
              Walked(FlipOrder(w.taker, pivot), FlipOrders(w.matched, pivot), FlipTrades(w.trades, pivot), w.exhausted)
    decreases |makers|
  {
    if makers != [] {
      var x := Execute(o, makers[0]);
      ExecuteFlips(o, makers[0], pivot);
      var c := counter - x.trade.amount;
      assert FlipOrders(makers, pivot)[0] == FlipOrder(makers[0], pivot);
      assert FlipOrders(makers, pivot)[1..] == FlipOrders(makers[1..], pivot);
      if c == 0 {
        FlipCons(x.maker, [], x.trade, [], pivot);
      } else {
        WalkFlips(x.taker, c, makers[1..], pivot);
        var r := Walk(x.taker, c, makers[1..]);
        FlipCons(x.maker, r.matched, x.trade, r.trades, pivot);
      }
    }
  }

  lemma UpdateFlips(s: Store, o: Order, pivot: int)
    ensures FlipStore(s[o.hash := o], pivot) == FlipStore(s, pivot)[Flip(o.hash, pivot) := FlipOrder(o, pivot)]
  {
    var a, b := FlipStore(s[o.hash := o], pivot), FlipStore(s, pivot)[Flip(o.hash, pivot) := FlipOrder(o, pivot)];
    forall k ensures (k in a <==> k in b) && (k in a ==> a[k] == b[k]) {
      FlippedAt(s[o.hash := o], pivot, k);
      FlippedAt(s, pivot, k);
      assert k == Flip(o.hash, pivot) <==> Flip(k, pivot) == o.hash;
    }
    assert a.Keys == b.Keys;
  }

  lemma PutFlips(s: Store, o: Order, now: int, pivot: int)
    ensures FlipStore(Put(s, o, now), pivot) == Put(FlipStore(s, pivot), FlipOrder(o, pivot), now)
  {
    FlipStoreAt(s, pivot, o.hash);
    UpdateFlips(s, o.(createdAt := if o.hash in s then s[o.hash].createdAt else now), pivot);
  }

  lemma {:induction false} PutAllFlips(s: Store, os: seq<Order>, pivot: int)
    ensures FlipStore(PutAll(s, os), pivot) == PutAll(FlipStore(s, pivot), FlipOrders(os, pivot))
    decreases |os|
  {
    if os != [] {
      UpdateFlips(s, os[0], pivot);
      PutAllFlips(s[os[0].hash := os[0]], os[1..], pivot);
      assert FlipOrders(os, pivot)[1..] == FlipOrders(os[1..], pivot);
    }
  }

  /** Matching the mirrored order in the mirrored book gives the mirrored store, trades and
      response - except that an unmatched, partly filled resubmission is reopened on the sell
      side only. */
  lemma MatchFlips(s: Store, o: Order, makers: seq<Order>, now: int, pivot: int)
    ensures Match(FlipStore(s, pivot), FlipOrder(o, pivot), FlipOrders(makers, pivot), now) ==
              FlipOutcome(Match(s, o, makers, now), pivot)
            <==> makers != [] || o.filled == 0 || o.status == Open
  {
    if makers == [] {
      AddFlips(s, o, now, pivot);
    } else {
      SettleFlips(s, o, makers, now, pivot);
    }
  }

  lemma AddFlips(s: Store, o: Order, now: int, pivot: int)
    ensures FlipStore(Put(s, Added(o), now), pivot) == Put(FlipStore(s, pivot), FlipOrder(Added(o), pivot), now)
    ensures Added(FlipOrder(o, pivot)) == FlipOrder(Added(o), pivot) <==> o.filled == 0 || o.status == Open
  {
    PutFlips(s, Added(o), now, pivot);
  }

  lemma SettleFlips(s: Store, o: Order, makers: seq<Order>, now: int, pivot: int)
    requires makers != []
    ensures Match(FlipStore(s, pivot), FlipOrder(o, pivot), FlipOrders(makers, pivot), now) == FlipOutcome(Match(s, o, makers, now), pivot)
  {
    var w := Walk(o, o.hash.amount, makers);
    WalkFlips(o, o.hash.amount, makers, pivot);
    SettledFlips(o, makers, pivot);
    PutAllFlips(s, w.matched, pivot);
    PutFlips(PutAll(s, w.matched), Settled(o, makers), now, pivot);
  }

  lemma SettledFlips(o: Order, makers: seq<Order>, pivot: int)
    requires makers != []
    ensures Settled(FlipOrder(o, pivot), FlipOrders(makers, pivot)) == FlipOrder(Settled(o, makers), pivot)
  {
    WalkFlips(o, o.hash.amount, makers, pivot);
  }
}

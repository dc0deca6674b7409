/** What one run of buyOrder / sellOrder computes (engine/orderbook.go), as functions,
    with the facts that every later proof uses. */
module Matching {
  import opened Orders
  import opened OrderStore

  datatype Execution = Execution(taker: Order, maker: Order, trade: Trade)

  function Execute(taker: Order, maker: Order): Execution {
    if maker.Remaining() > taker.Remaining() then
      var amount := taker.Remaining();
      Execution(taker.(filled := taker.filled + amount),
                maker.(filled := maker.filled + amount, status := PartialFilled),
                Trade(maker.hash, taker.hash, amount, taker.hash.price))
    else
      var amount := maker.Remaining();
      Execution(taker.(filled := taker.filled + amount),
                maker.(filled := maker.hash.amount, status := Filled),
                Trade(maker.hash, taker.hash, amount, taker.hash.price))
  }

  datatype Walked = Walked(taker: Order, matched: seq<Order>, trades: seq<Trade>, exhausted: bool)

  /** The matching loop. The counter starts at the taker's whole amount, whatever is already
      filled, and the loop stops early only when it reaches zero. */
  function Walk(o: Order, counter: int, makers: seq<Order>): Walked
    decreases |makers|
  {
    if makers == [] then Walked(o, [], [], false)
    else
      var x := Execute(o, makers[0]);
      if counter - x.trade.amount == 0 then
        Walked(x.taker, [x.maker], [x.trade], true)
      else
        var r := Walk(x.taker, counter - x.trade.amount, makers[1..]);
        Walked(r.taker, [x.maker] + r.matched, [x.trade] + r.trades, r.exhausted)
  }

  datatype Outcome = Outcome(store: Store, response: Response)

  /** addOrder, with the extra assignment sellOrder makes before it. */
  function Added(o: Order): Order {
    if o.hash.side.Sell? || o.filled == 0 then o.(status := Open) else o
  }

  function Settled(o: Order, makers: seq<Order>): Order
    requires makers != []
  {
    var w := Walk(o, o.hash.amount, makers);
    if w.exhausted then w.taker.(filled := o.hash.amount, status := Filled)
    else w.taker.(status := PartialFilled)
  }

  function Match(s: Store, o: Order, makers: seq<Order>, now: int): Outcome {
    if makers == [] then
      Outcome(Put(s, Added(o), now), OrderAdded(Added(o)))
    else
      var w := Walk(o, o.hash.amount, makers);
      var taker := Settled(o, makers);
      var matches := Matches(w.matched, taker, w.trades);
      Outcome(Put(PutAll(s, w.matched), taker, now),
              if w.exhausted then OrderFilled(taker, matches) else OrderPartiallyFilled(taker, matches))
  }

  function Trades(r: Response): seq<Trade> {
    if r.OrderFilled? || r.OrderPartiallyFilled? then r.matches.trades else []
  }

  /** m became m' in trade t with a taker of the given hash: m' gained exactly the traded
      amount, is not overfilled, and has the status its amounts call for. */
  ghost predicate Executed(taker: Hash, m: Order, m': Order, t: Trade) {
    && 0 <= t.amount <= m.Remaining()
    && t == Trade(m.hash, taker, t.amount, taker.price)
    && m' == m.(filled := m.filled + t.amount, status := if m.Remaining() == t.amount then Filled else PartialFilled)
  }

  /** The matching loop never invents or loses an amount: maker i gains exactly what trade i
      moves, and nobody is overfilled. */
  lemma {:induction false} WalkMakers(o: Order, counter: int, makers: seq<Order>)
    requires o.Capped()
    requires forall i :: 0 <= i < |makers| ==> makers[i].Capped()
    ensures var w := Walk(o, counter, makers);
            && |w.matched| == |w.trades| <= |makers|
            && (makers != [] ==> w.matched != [])
            && (forall i :: 0 <= i < |w.trades| ==> Executed(o.hash, makers[i], w.matched[i], w.trades[i]))
    decreases |makers|
  {
    if makers != [] {
      var x := Execute(o, makers[0]);
      assert Executed(o.hash, makers[0], x.maker, x.trade);
      if counter - x.trade.amount != 0 {
        WalkMakers(x.taker, counter - x.trade.amount, makers[1..]);
      }
    }
  }

  /** The taker gains the total of the trades and is not overfilled. */
  lemma {:induction false} WalkTaker(o: Order, counter: int, makers: seq<Order>)
    requires o.Capped()
    requires forall i :: 0 <= i < |makers| ==> makers[i].Capped()
    ensures var w := Walk(o, counter, makers);
            && w.taker == o.(filled := o.filled + TradeSum(w.trades))
            && w.taker.Capped()
            && TradeSum(w.trades) >= 0
    decreases |makers|
  {
    if makers != [] {
      var x := Execute(o, makers[0]);
      if counter - x.trade.amount != 0 {
        var r := Walk(x.taker, counter - x.trade.amount, makers[1..]);
        WalkTaker(x.taker, counter - x.trade.amount, makers[1..]);
        assert ([x.trade] + r.trades)[1..] == r.trades;
      }
    }
  }

  /** When the loop runs to its end every maker was visited, and either the taker is used up
      or every maker is; when it stops early, with a counter that was no smaller than what the
      taker had left, the taker is used up. */
  lemma {:induction false} WalkEnd(o: Order, counter: int, makers: seq<Order>)
    requires o.Capped()
    requires forall i :: 0 <= i < |makers| ==> makers[i].Capped()
    ensures var w := Walk(o, counter, makers);
            && (w.exhausted && counter >= o.Remaining() ==> w.taker.Remaining() == 0)
            && (!w.exhausted ==> |w.matched| == |makers|)
            && (!w.exhausted && w.taker.Remaining() > 0 ==>
                  forall i :: 0 <= i < |w.matched| ==> w.matched[i].status == Filled)
    decreases |makers|
  {
    if makers != [] {
      var x := Execute(o, makers[0]);
      if counter - x.trade.amount != 0 {
        WalkEnd(x.taker, counter - x.trade.amount, makers[1..]);
        WalkMakers(x.taker, counter - x.trade.amount, makers[1..]);
        WalkTaker(x.taker, counter - x.trade.amount, makers[1..]);
      }
    }
  }

  /** b is a, or a live order a after trades on it. */
  ghost predicate Advanced(a: Order, b: Order) {
    || a == b
    || (&& a.Live()
        && b == a.(filled := b.filled, status := if b.Remaining() == 0 then Filled else PartialFilled)
        && a.filled <= b.filled <= b.hash.amount)
  }

  ghost predicate AllInRange(s: Store) {
    forall h :: h in s ==> s[h].InRange()
  }

  ghost predicate AllCapped(s: Store) {
    forall h :: h in s ==> s[h].Capped()
  }

  /** Writing back the visited makers and the taker. */
  lemma WriteBack(s: Store, makers: seq<Order>, matched: seq<Order>, taker: Order, now: int)
    requires WellKeyed(s) && Distinct(makers) && |matched| <= |makers|
    requires forall i :: 0 <= i < |makers| ==> makers[i].hash in s && makers[i].hash != taker.hash
    requires forall i :: 0 <= i < |matched| ==> matched[i].hash == makers[i].hash
    ensures var s' := Put(PutAll(s, matched), taker, now);
            && WellKeyed(s')
            && s'.Keys == s.Keys + {taker.hash}
            && s'[taker.hash] == taker.(createdAt := s'[taker.hash].createdAt)
            && (forall i :: 0 <= i < |matched| ==> s'[makers[i].hash] == matched[i])
            && (forall h :: h in s && h != taker.hash && h !in HashSet(matched) ==> s'[h] == s[h])
  {
    PutAllAt(s, matched);
    assert HashSet(matched) <= s.Keys;
  }

  /** How a match changes the collection: the taker is written under its own hash, every
      visited maker under its hash, and nothing else moves. */
  lemma MatchEffect(s: Store, o: Order, makers: seq<Order>, now: int)
    requires WellKeyed(s) && AllCapped(s) && o.Capped() && IsMatching(s, o, makers)
    ensures var s' := Match(s, o, makers, now).store;
            && WellKeyed(s')
            && s'.Keys == s.Keys + {o.hash}
            && s'[o.hash] == Taken(o, makers).(createdAt := s'[o.hash].createdAt)
            && (forall h :: h in s && h != o.hash ==> Advanced(s[h], s'[h]))
    ensures var s' := Match(s, o, makers, now).store;
            var w := Walk(o, o.hash.amount, makers);
            && |w.matched| <= |makers|
            && (forall i :: 0 <= i < |w.matched| ==> makers[i].hash != o.hash && s'[makers[i].hash] == w.matched[i])
            && (forall h :: h in s && h != o.hash && h !in HashSet(w.matched) ==> s'[h] == s[h])
  {
    var w := Walk(o, o.hash.amount, makers);
    var taker := Taken(o, makers);
    var s' := Put(PutAll(s, w.matched), taker, now);
    WalkMakers(o, o.hash.amount, makers);
    TakenEffect(o, makers);
    forall i | 0 <= i < |w.matched| ensures w.matched[i].hash == makers[i].hash && Advanced(makers[i], w.matched[i]) {
      assert Executed(o.hash, makers[i], w.matched[i], w.trades[i]);
    }
    WriteBack(s, makers, w.matched, taker, now);
    assert s' == Match(s, o, makers, now).store;
    forall h | h in s && h != o.hash ensures Advanced(s[h], s'[h]) {
      if h in HashSet(w.matched) {
        var i :| 0 <= i < |w.matched| && w.matched[i].hash == h;
        assert s[h] == makers[i] && s'[h] == w.matched[i];
      }
    }
  }

  /** The taker as it is written at the end of a match. */
  function Taken(o: Order, makers: seq<Order>): Order {
    if makers == [] then Added(o) else Settled(o, makers)
  }

  /** The taker keeps its terms, is not overfilled, and ends with nothing left unless the book ran
      dry. If it came with no less than nothing filled it gains exactly the traded total. */
  lemma TakenEffect(o: Order, makers: seq<Order>)
    requires o.Capped()
    requires forall i :: 0 <= i < |makers| ==> makers[i].Capped()
    ensures var t := Taken(o, makers);
            && t == o.(filled := t.filled, status := t.status)
            && t.Capped()
            && (o.filled >= 0 ==> t.InRange() && t.filled == o.filled + TradeSum(Walk(o, o.hash.amount, makers).trades))
    ensures Taken(o, makers).Remaining() > 0 ==>
              var w := Walk(o, o.hash.amount, makers);
              |w.matched| == |makers| && forall i :: 0 <= i < |w.matched| ==> w.matched[i].status == Filled
  {
    WalkTaker(o, o.hash.amount, makers);
    WalkEnd(o, o.hash.amount, makers);
  }
}

/** Books reached by runs, built one message at a time; the clients may only submit given amounts
    with given claims of what is filled (engine/orderbook.go:47-353). */
module Reachability {
  import opened Orders
  import opened OrderStore
  import opened Matching
  import opened BookRuns

  /** A client's order has a permitted amount and claim. */
  predicate Claimed(e: Event, claims: iset<(int, int)>) {
    e.NewOrder? ==> (e.o.hash.amount, e.o.filled) in claims
  }

  ghost predicate AllClaimed(events: seq<Event>, claims: iset<(int, int)>) {
    forall i :: 0 <= i < |events| ==> Claimed(events[i], claims)
  }

  /** A run in which clients submit permitted amounts and claims ends in this book. */
  ghost predicate Reaches(claims: iset<(int, int)>, b: Book) {
    exists states, events :: IsRun(states, events) && AllClaimed(events, claims) && states[|events|] == b
  }

  lemma ReachesStart(claims: iset<(int, int)>)
    ensures Reaches(claims, EmptyBook)
  {
    var states, events := [EmptyBook], [];
    assert IsRun(states, events) && AllClaimed(events, claims) && states[|events|] == EmptyBook;
  }

  lemma ReachesStep(claims: iset<(int, int)>, b: Book, e: Event, b': Book)
    requires Reaches(claims, b) && Step(b, e, b') && Claimed(e, claims)
    ensures Reaches(claims, b')
  {
    var states, events :| IsRun(states, events) && AllClaimed(events, claims) && states[|events|] == b;
    Extend(states, events, e, b');
    var states', events' := states + [b'], events + [e];
    assert IsRun(states', events') && AllClaimed(events', claims) && states'[|events'|] == b';
  }

  /** Clients may always submit an order with nothing filled. */
  ghost predicate Honest(claims: iset<(int, int)>) {
    forall a :: a > 0 ==> (a, 0) in claims
  }

  /** An order that meets nothing is listed. */
  lemma ListStep(claims: iset<(int, int)>, s: Store, pending: multiset<Order>, o: Order, now: int)
    requires Reaches(claims, Book(s, pending)) && (o.hash.amount, o.filled) in claims
    requires o.hash !in s && forall h :: h in s ==> !Crosses(s[h], o)
    requires o.hash.side == Sell || o.filled == 0
    ensures Reaches(claims, Book(s[o.hash := Order(o.hash, o.filled, Open, now)], pending))
  {
    ReachesStep(claims, Book(s, pending), NewOrder(o, [], now), Book(s[o.hash := Order(o.hash, o.filled, Open, now)], pending));
  }

  /** The only invalid maker of a batch: its trade is taken back from the taker, which is
      published again. */
  lemma InvalidateStep(claims: iset<(int, int)>, s: Store, pending: multiset<Order>, maker: Order, taker: Order, amount: int)
    requires Reaches(claims, Book(s, pending)) && WellKeyed(s)
    requires maker.hash in s && taker.hash in s && s[maker.hash] == maker && s[taker.hash] == taker && maker.hash != taker.hash
    ensures var back := Rollback(taker, amount);
            Reaches(claims, Book(s[taker.hash := back][maker.hash := maker.(status := Status.Invalidated)], pending + multiset{back}))
  {
    var ms := Matches([maker], taker, [Trade(maker.hash, taker.hash, amount, taker.hash.price)]);
    var back := Rollback(taker, amount);
    var updated := Rollbacks([taker], TradeAmounts(ms.trades));
    assert updated == [back] && TakerHashes(ms) == [taker.hash] && MakerHashes(ms) == [maker.hash];
    assert HashSet(updated) == {taker.hash} by {
      assert updated[0].hash == taker.hash;
    }
    InvalidatedAt(s, updated, [maker.hash]);
    var s' := BookRuns.Invalidated(s, updated, [maker.hash]);
    assert s'[updated[0].hash] == Marked(updated[0], [maker.hash], updated[0].hash);
    assert s' == s[taker.hash := back][maker.hash := maker.(status := Status.Invalidated)];
    ReachesStep(claims, Book(s, pending), InvalidateMakers(ms, [taker]), Book(s', pending + multiset{back}));
  }

  function UsedUp(m: Order): Order {
    m.(filled := m.hash.amount, status := Filled)
  }

  /** A walk over two makers that does not stop early. */
  lemma WalkTwo(o: Order, counter: int, m1: Order, m2: Order)
    requires var x := Execute(o, m1); var y := Execute(x.taker, m2);
             counter != x.trade.amount && counter - x.trade.amount != y.trade.amount
    ensures var x := Execute(o, m1); var y := Execute(x.taker, m2);
            Walk(o, counter, [m1, m2]) == Walked(y.taker, [x.maker, y.maker], [x.trade, y.trade], false)
  {
    var x := Execute(o, m1);
    var y := Execute(x.taker, m2);
    var c := counter - x.trade.amount;
    assert [m1, m2][1..] == [m2] && [m2][1..] == [];
    assert Walk(y.taker, c - y.trade.amount, []) == Walked(y.taker, [], [], false);
    assert Walk(x.taker, c, [m2]) == Walked(y.taker, [y.maker] + [], [y.trade] + [], false);
    assert [x.maker] + ([y.maker] + []) == [x.maker, y.maker] && [x.trade] + ([y.trade] + []) == [x.trade, y.trade];
  }

  /** A new order that is large enough for two makers and has something left. */
  lemma TakesBoth(s: Store, o: Order, m1: Order, m2: Order, now: int)
    requires o.hash !in s && m1.hash in s && m2.hash in s && m1.hash != m2.hash && o.filled == 0
    requires 0 < m1.Remaining() && 0 < m2.Remaining() && m1.Remaining() + m2.Remaining() < o.hash.amount
    ensures var taker := o.(filled := m1.Remaining() + m2.Remaining(), status := PartialFilled);
            var ts := [Trade(m1.hash, o.hash, m1.Remaining(), o.hash.price), Trade(m2.hash, o.hash, m2.Remaining(), o.hash.price)];
            Match(s, o, [m1, m2], now) ==
              Outcome(s[m1.hash := UsedUp(m1)][m2.hash := UsedUp(m2)][o.hash := taker.(createdAt := now)],
                      OrderPartiallyFilled(taker, Matches([UsedUp(m1), UsedUp(m2)], taker, ts)))
  {
    WalkTwo(o, o.hash.amount, m1, m2);
    var w := Walk(o, o.hash.amount, [m1, m2]);
    assert w.matched == [UsedUp(m1), UsedUp(m2)];
    assert w.trades == [Trade(m1.hash, o.hash, m1.Remaining(), o.hash.price), Trade(m2.hash, o.hash, m2.Remaining(), o.hash.price)];
    assert w.taker == o.(filled := m1.Remaining() + m2.Remaining());
    PutBoth(s, UsedUp(m1), UsedUp(m2));
  }

  lemma PutBoth(s: Store, m1: Order, m2: Order)
    ensures PutAll(s, [m1, m2]) == s[m1.hash := m1][m2.hash := m2]
  {
    assert [m1, m2][1..] == [m2] && [m2][1..] == [];
    assert PutAll(s[m1.hash := m1], [m2]) == s[m1.hash := m1][m2.hash := m2];
  }

  /** o is such an order, and s' is the store it leaves. */
  ghost predicate LeavesBoth(s: Store, o: Order, m1: Order, m2: Order, now: int, s': Store) {
    && o.hash !in s && o.filled == 0 && IsMatching(s, o, [m1, m2]) && m1.hash in s && m2.hash in s && m1.hash != m2.hash
    && 0 < m1.Remaining() && 0 < m2.Remaining() && m1.Remaining() + m2.Remaining() < o.hash.amount
    && s' == s[m1.hash := UsedUp(m1)][m2.hash := UsedUp(m2)][o.hash := Order(o.hash, m1.Remaining() + m2.Remaining(), PartialFilled, now)]
  }

  lemma TakeBoth(claims: iset<(int, int)>, s: Store, pending: multiset<Order>, o: Order, m1: Order, m2: Order, now: int, s': Store)
    requires Reaches(claims, Book(s, pending)) && (o.hash.amount, o.filled) in claims && LeavesBoth(s, o, m1, m2, now, s')
    ensures Reaches(claims, Book(s', pending))
  {
    TakesBoth(s, o, m1, m2, now);
    ReachesStep(claims, Book(s, pending), NewOrder(o, [m1, m2], now), Book(s', pending));
  }

  /** A new order that one larger maker fills, when nothing else crosses it. */
  lemma FilledByOne(s: Store, m: Order, taker: Hash, now: int)
    requires WellKeyed(s) && m.hash in s && s[m.hash] == m && taker !in s
    requires Crosses(m, Incoming(taker)) && 0 < taker.amount < m.Remaining()
    requires forall h :: h in s && Crosses(s[h], Incoming(taker)) ==> h == m.hash
    ensures IsMatching(s, Incoming(taker), [m])
    ensures var m' := m.(filled := m.filled + taker.amount, status := PartialFilled);
            Match(s, Incoming(taker), [m], now).store == s[m.hash := m'][taker := Order(taker, taker.amount, Filled, now)]
  {
    var m' := m.(filled := m.filled + taker.amount, status := PartialFilled);
    assert PutAll(s[m.hash := m'], []) == s[m.hash := m'];
    assert [m'][1..] == [];
    assert PutAll(s, [m']) == s[m.hash := m'];
  }

  lemma FillByOne(claims: iset<(int, int)>, s: Store, pending: multiset<Order>, m: Order, taker: Hash, now: int)
    requires Reaches(claims, Book(s, pending)) && Honest(claims)
    requires WellKeyed(s) && m.hash in s && s[m.hash] == m && taker !in s
    requires Crosses(m, Incoming(taker)) && 0 < taker.amount < m.Remaining()
    requires forall h :: h in s && Crosses(s[h], Incoming(taker)) ==> h == m.hash
    ensures var m' := m.(filled := m.filled + taker.amount, status := PartialFilled);
            Reaches(claims, Book(s[m.hash := m'][taker := Order(taker, taker.amount, Filled, now)], pending))
  {
    FilledByOne(s, m, taker, now);
    var m' := m.(filled := m.filled + taker.amount, status := PartialFilled);
    ReachesStep(claims, Book(s, pending), NewOrder(Incoming(taker), [m], now),
                Book(s[m.hash := m'][taker := Order(taker, taker.amount, Filled, now)], pending));
  }

  /** A new order that uses up one maker and has something left. */
  lemma TakesOne(s: Store, m: Order, taker: Hash, now: int)
    requires WellKeyed(s) && m.hash in s && s[m.hash] == m && taker !in s
    requires Crosses(m, Incoming(taker)) && 0 < m.Remaining() < taker.amount
    requires forall h :: h in s && Crosses(s[h], Incoming(taker)) ==> h == m.hash
    ensures IsMatching(s, Incoming(taker), [m])
    ensures Match(s, Incoming(taker), [m], now).store == s[m.hash := UsedUp(m)][taker := Order(taker, m.Remaining(), PartialFilled, now)]
  {
    var x := Execute(Incoming(taker), m);
    assert [m][1..] == [] && [UsedUp(m)][1..] == [];
    assert Walk(x.taker, taker.amount - m.Remaining(), []) == Walked(x.taker, [], [], false);
    assert Walk(Incoming(taker), taker.amount, [m]) == Walked(x.taker, [x.maker] + [], [x.trade] + [], false);
    assert PutAll(s[m.hash := UsedUp(m)], []) == s[m.hash := UsedUp(m)];
    assert PutAll(s, [UsedUp(m)]) == s[m.hash := UsedUp(m)];
  }

  lemma TakeOne(claims: iset<(int, int)>, s: Store, pending: multiset<Order>, m: Order, taker: Hash, now: int)
    requires Reaches(claims, Book(s, pending)) && Honest(claims)
    requires WellKeyed(s) && m.hash in s && s[m.hash] == m && taker !in s
    requires Crosses(m, Incoming(taker)) && 0 < m.Remaining() < taker.amount
    requires forall h :: h in s && Crosses(s[h], Incoming(taker)) ==> h == m.hash
    ensures Reaches(claims, Book(s[m.hash := UsedUp(m)][taker := Order(taker, m.Remaining(), PartialFilled, now)], pending))
  {
    TakesOne(s, m, taker, now);
    ReachesStep(claims, Book(s, pending), NewOrder(Incoming(taker), [m], now),
                Book(s[m.hash := UsedUp(m)][taker := Order(taker, m.Remaining(), PartialFilled, now)], pending));
  }

  /** A waiting order that meets nothing is opened, with the fill it was published with, if it
      sells or has nothing filled. */
  lemma RerunsAlone(s: Store, o: Order, now: int)
    requires WellKeyed(s) && o.hash in s && forall h :: h in s ==> !Crosses(s[h], o)
    requires o.hash.side == Sell || o.filled == 0
    requires o.createdAt == s[o.hash].createdAt
    ensures Step(Book(s, multiset{o}), Resubmitted(o, [], now), Book(s[o.hash := o.(status := Open)], multiset{}))
  {
    assert multiset{o} - multiset{o} == multiset{};
  }
}

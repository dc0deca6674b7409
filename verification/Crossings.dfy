/** What clients may claim to have filled if the book is to stay uncrossed: exactly no more than
    the amount, which must not be negative (engine/orderbook.go:98-270, endpoints/order.go:231,
    types/order.go:436). */
module Crossings {
  import opened Orders
  import opened OrderStore
  import opened Matching
  import opened BookRuns
  import opened Reachability

  // ---- a cancelled bid that waits to be run again with something filled ----

  const ASK1 := Terms(1, 10, 20, Sell, 100, 1, 0)
  const ASK2 := Terms(2, 10, 20, Sell, 100, 1, 0)
  const BID := Terms(3, 10, 20, Buy, 101, 3, 0)
  const ASK := Terms(4, 10, 20, Sell, 100, 3, 0)

  /** The bid as it was published again, with 1 of 3 filled. */
  const AGAIN := Order(BID, 1, PartialFilled, 3)

  const TWO: Store := map[ASK1 := Order(ASK1, 0, Open, 1), ASK2 := Order(ASK2, 0, Open, 2)]
  const BOUGHT: Store := map[ASK1 := Order(ASK1, 1, Filled, 1), ASK2 := Order(ASK2, 1, Filled, 2), BID := Order(BID, 2, PartialFilled, 3)]
  const WAITING: Store := map[ASK1 := Order(ASK1, 1, Filled, 1), ASK2 := Order(ASK2, 1, Invalidated, 2), BID := Order(BID, 1, Cancelled, 3)]

  lemma BuyTwo()
    ensures LeavesBoth(TWO, Incoming(BID), Order(ASK1, 0, Open, 1), Order(ASK2, 0, Open, 2), 3, BOUGHT)
  {
  }

  /** Sell 1, sell 1. */
  lemma TwoListed(claims: iset<(int, int)>)
    requires Honest(claims)
    ensures Reaches(claims, Book(TWO, multiset{}))
  {
    var none: Store := map[];
    ReachesStart(claims);
    ListStep(claims, none, multiset{}, Incoming(ASK1), 1);
    ListStep(claims, none[ASK1 := Order(ASK1, 0, Open, 1)], multiset{}, Incoming(ASK2), 2);
    assert TWO == none[ASK1 := Order(ASK1, 0, Open, 1)][ASK2 := Order(ASK2, 0, Open, 2)];
  }

  /** Sell 1, sell 1, buy 3. */
  lemma BidBought(claims: iset<(int, int)>)
    requires Honest(claims)
    ensures Reaches(claims, Book(BOUGHT, multiset{}))
  {
    TwoListed(claims);
    BuyTwo();
    TakeBoth(claims, TWO, multiset{}, Incoming(BID), Order(ASK1, 0, Open, 1), Order(ASK2, 0, Open, 2), 3, BOUGHT);
  }

  /** Then invalidate the second ask and cancel the bid. */
  lemma BidWaits(claims: iset<(int, int)>)
    requires Honest(claims)
    ensures Reaches(claims, Book(WAITING, multiset{AGAIN}))
  {
    BidBought(claims);
    InvalidateStep(claims, BOUGHT, multiset{}, BOUGHT[ASK2], BOUGHT[BID], 1);
    var s := BOUGHT[BID := AGAIN][ASK2 := Order(ASK2, 1, Invalidated, 2)];
    assert multiset{} + multiset{AGAIN} == multiset{AGAIN};
    assert WAITING == SetStatus(s, BID, Cancelled);
    ReachesStep(claims, Book(s, multiset{AGAIN}), CancelOrder(BID), Book(WAITING, multiset{AGAIN}));
  }

  // ---- an overfilled ask ----

  /** The ask through which a bad claim enters the book. */
  function Bad(amount: int): Hash {
    Terms(5, 10, 20, Sell, 101, amount, 0)
  }

  /** A bid larger than the ask can take. */
  function Counter(amount: int): Hash {
    Terms(6, 10, 20, Buy, 101, amount, 0)
  }

  /** The state before the last two messages: a live overfilled ask, the bid waiting to be run
      again, and nothing else live. */
  ghost predicate Primed(s: Store, pending: multiset<Order>, bad: Order) {
    && WellKeyed(s) && ASK !in s && BID in s && s[BID] == WAITING[BID]
    && bad.hash == Bad(bad.hash.amount) && bad.hash in s && s[bad.hash] == bad && bad.Live() && bad.Remaining() < 0
    && (forall h :: h in s && h != bad.hash ==> !s[h].Live())
    && pending[AGAIN] == 1 && (forall p :: p in pending && p != AGAIN ==> p.hash == bad.hash)
  }

  /** A taker with something filled is used up by a larger maker, but the loop goes on, and an
      overfilled maker hands back what it has too much. */
  lemma HandsBack(o: Order, ask: Order, bad: Order)
    requires 0 < o.filled && o.Capped() && ask.Remaining() > o.Remaining() && bad.Remaining() < 0
    ensures var w := Walk(o, o.hash.amount, [ask, bad]);
            && w.taker == o.(filled := o.hash.amount + bad.Remaining()) && !w.exhausted
            && w.matched == [ask.(filled := ask.filled + o.Remaining(), status := PartialFilled), UsedUp(bad)]
  {
    WalkTwo(o, o.hash.amount, ask, bad);
  }

  lemma HandedBack(s: Store, o: Order, ask: Order, bad: Order, now: int)
    requires WellKeyed(s) && ask.hash in s && bad.hash in s && ask.hash != bad.hash && o.hash != ask.hash && o.hash != bad.hash
    requires 0 < o.filled && o.Capped() && ask.Remaining() > o.Remaining() && bad.Remaining() < 0
    ensures var s' := Match(s, o, [ask, bad], now).store;
            && ask.hash in s' && s'[ask.hash] == ask.(filled := ask.filled + o.Remaining(), status := PartialFilled)
            && o.hash in s' && s'[o.hash] == o.(filled := o.hash.amount + bad.Remaining(), status := PartialFilled, createdAt := s'[o.hash].createdAt)
  {
    HandsBack(o, ask, bad);
    var w := Walk(o, o.hash.amount, [ask, bad]);
    var taker := o.(filled := o.hash.amount + bad.Remaining(), status := PartialFilled);
    assert w.matched[0].hash == ask.hash && w.matched[1].hash == bad.hash;
    WriteBack(s, [ask, bad], w.matched, taker, now);
    assert Put(PutAll(s, w.matched), taker, now) == Match(s, o, [ask, bad], now).store;
  }

  /** The good ask is listed as well. */
  ghost predicate Set(s: Store, ask: Order, bad: Order) {
    && WellKeyed(s) && ask == Order(ASK, 0, Open, ask.createdAt) && ASK in s && s[ASK] == ask
    && bad.hash == Bad(bad.hash.amount) && bad.hash in s && s[bad.hash] == bad && bad.Live() && bad.Remaining() < 0
    && BID in s && s[BID] == WAITING[BID]
    && forall h :: h in s && h != bad.hash && h != ASK ==> !s[h].Live()
  }

  lemma AgainFinds(s: Store, ask: Order, bad: Order)
    requires Set(s, ask, bad)
    ensures IsMatching(s, AGAIN, [ask, bad])
  {
  }

  lemma CrossedBook(b: Book, bid: Hash, ask: Hash)
    requires ask in b.orders && b.orders[ask].Resting() && bid in b.orders && b.orders[bid].Resting()
    requires forall p :: p in b.pending ==> p.hash != ask && p.hash != bid
    requires Opposed(bid, ask) && bid.price >= ask.price
    ensures !Uncrossed(b)
  {
    assert Rests(b, bid) && Rests(b, ask);
  }

  /** A good ask is listed and the bid is run again: both rest, and they cross. */
  lemma PrimedCrosses(claims: iset<(int, int)>, s: Store, pending: multiset<Order>, bad: Order) returns (b: Book)
    requires Honest(claims) && Reaches(claims, Book(s, pending)) && Primed(s, pending, bad)
    ensures Reaches(claims, b) && !Uncrossed(b)
  {
    var ask := Order(ASK, 0, Open, 6);
    var s1 := s[ASK := ask];
    ListStep(claims, s, pending, Incoming(ASK), 6);
    assert Set(s1, ask, bad);
    b := AgainCrosses(claims, s1, pending, ask, bad);
  }

  lemma AgainCrosses(claims: iset<(int, int)>, s: Store, pending: multiset<Order>, ask: Order, bad: Order) returns (b: Book)
    requires Reaches(claims, Book(s, pending)) && Set(s, ask, bad)
    requires pending[AGAIN] == 1 && forall p :: p in pending && p != AGAIN ==> p.hash == bad.hash
    ensures Reaches(claims, b) && !Uncrossed(b)
  {
    AgainFinds(s, ask, bad);
    HandedBack(s, AGAIN, ask, bad, 7);
    b := Book(Match(s, AGAIN, [ask, bad], 7).store, pending - multiset{AGAIN});
    ReachesStep(claims, Book(s, pending), Resubmitted(AGAIN, [ask, bad], 7), b);
    CrossedBook(b, BID, ASK);
  }

  /** A sell order that claims more than its amount. */
  lemma OverclaimPrimes(claims: iset<(int, int)>, amount: int, filled: int) returns (s: Store, pending: multiset<Order>, bad: Order)
    requires Honest(claims) && (amount, filled) in claims && filled > amount
    ensures Reaches(claims, Book(s, pending)) && Primed(s, pending, bad)
  {
    BidWaits(claims);
    bad := Order(Bad(amount), filled, Open, 4);
    s, pending := WAITING[Bad(amount) := bad], multiset{AGAIN};
    ListStep(claims, WAITING, pending, Order(Bad(amount), filled, New, 0), 4);
  }

  /** What a larger bid gives to an ask of a negative amount that claims no more than that. */
  lemma BadSold(s: Store, bid: Order, o: Order)
    requires WellKeyed(s) && bid.hash in s && s[bid.hash] == bid && bid == Order(Counter(o.Remaining() + 1), 0, Open, 4)
    requires o == Order(Bad(o.hash.amount), o.filled, New, 0) && o.hash !in s && o.filled <= o.hash.amount < 0
    requires forall h :: h in s && h != bid.hash ==> !s[h].Live()
    ensures IsMatching(s, o, [bid])
    ensures Match(s, o, [bid], 5).store == s[bid.hash := Given(bid, o)][o.hash := Order(o.hash, o.hash.amount, PartialFilled, 5)]
  {
    var x := Execute(o, bid);
    assert x.maker == Given(bid, o) && x.taker == o.(filled := o.hash.amount) && x.trade.amount == o.Remaining();
    assert [bid][1..] == [] && [x.maker][1..] == [];
    assert Walk(x.taker, o.hash.amount - o.Remaining(), []) == Walked(x.taker, [], [], false);
    assert Walk(o, o.hash.amount, [bid]) == Walked(x.taker, [x.maker] + [], [x.trade] + [], false);
    assert PutAll(s[bid.hash := x.maker], []) == s[bid.hash := x.maker];
    assert PutAll(s, [x.maker]) == s[bid.hash := x.maker];
  }

  function Given(bid: Order, o: Order): Order {
    bid.(filled := o.Remaining(), status := PartialFilled)
  }

  /** Buy, sell a negative amount against it. */
  lemma NegativeSold(claims: iset<(int, int)>, o: Order, bid: Order)
    requires Honest(claims) && (o.hash.amount, o.filled) in claims && o == Order(Bad(o.hash.amount), o.filled, New, 0)
    requires o.filled <= o.hash.amount < 0 && bid == Order(Counter(o.Remaining() + 1), 0, Open, 4)
    ensures Reaches(claims, Book(WAITING[bid.hash := Given(bid, o)][o.hash := Order(o.hash, o.hash.amount, PartialFilled, 5)], multiset{AGAIN}))
  {
    BidWaits(claims);
    var s1 := WAITING[bid.hash := bid];
    ListStep(claims, WAITING, multiset{AGAIN}, Incoming(bid.hash), 4);
    BadSold(s1, bid, o);
    var s2 := WAITING[bid.hash := Given(bid, o)][o.hash := Order(o.hash, o.hash.amount, PartialFilled, 5)];
    assert s1[bid.hash := Given(bid, o)] == WAITING[bid.hash := Given(bid, o)];
    ReachesStep(claims, Book(s1, multiset{AGAIN}), NewOrder(o, [bid], 5), Book(s2, multiset{AGAIN}));
  }

  /** A sell order of a negative amount: after its trade is taken back, nothing is filled, which
      is more than its amount. */
  lemma NegativePrimes(claims: iset<(int, int)>, amount: int, filled: int) returns (s: Store, pending: multiset<Order>, bad: Order)
    requires Honest(claims) && (amount, filled) in claims && filled <= amount < 0
    ensures Reaches(claims, Book(s, pending)) && Primed(s, pending, bad)
  {
    var o := Order(Bad(amount), filled, New, 0);
    var bid := Order(Counter(o.Remaining() + 1), 0, Open, 4);
    NegativeSold(claims, o, bid);
    var maker, taker := Given(bid, o), Order(o.hash, amount, PartialFilled, 5);
    var s2 := WAITING[bid.hash := maker][o.hash := taker];
    InvalidateStep(claims, s2, multiset{AGAIN}, maker, taker, o.Remaining());
    bad := Order(o.hash, 0, Open, 5);
    assert Rollback(taker, o.Remaining()) == bad;
    s, pending := s2[o.hash := bad][bid.hash := maker.(status := Status.Invalidated)], multiset{AGAIN} + multiset{bad};
  }

  /** Any other claim leads to a crossed book. */
  lemma BadClaimCrosses(claims: iset<(int, int)>, amount: int, filled: int) returns (b: Book)
    requires Honest(claims) && (amount, filled) in claims && !(0 <= amount && filled <= amount)
    ensures Reaches(claims, b) && !Uncrossed(b)
  {
    var s, pending, bad;
    if filled > amount {
      s, pending, bad := OverclaimPrimes(claims, amount, filled);
    } else {
      s, pending, bad := NegativePrimes(claims, amount, filled);
    }
    b := PrimedCrosses(claims, s, pending, bad);
  }

  /** Whatever amounts and claims are permitted besides the honest ones: no run crosses the book
      exactly when no permitted claim exceeds its amount and no amount is negative. */
  lemma UncrossedIff(claims: iset<(int, int)>)
    requires Honest(claims)
    ensures (forall a, f :: (a, f) in claims ==> 0 <= a && f <= a) <==> (forall b :: Reaches(claims, b) ==> Uncrossed(b))
  {
    if forall a, f :: (a, f) in claims ==> 0 <= a && f <= a {
      forall b | Reaches(claims, b) ensures Uncrossed(b) {
        var states, events :| IsRun(states, events) && AllClaimed(events, claims) && states[|events|] == b;
        forall i | 0 <= i < |events| ensures Bounded(events[i]) {
          assert Claimed(events[i], claims);
        }
        RunUncrossed(states, events, |events|);
      }
    } else {
      var a, f :| (a, f) in claims && !(0 <= a && f <= a);
      var b := BadClaimCrosses(claims, a, f);
    }
  }

  // ---- three messages ----

  const ASK10 := Terms(1, 10, 20, Sell, 100, 10, 0)
  const BID6 := Terms(3, 10, 20, Buy, 101, 6, 0)

  lemma ThreeFinds(s: Store, ask: Order, bad: Order)
    requires ask == Order(ASK10, 0, Open, 1) && bad == Order(Bad(5), 8, Open, 2)
    requires s == map[ASK10 := ask][Bad(5) := bad]
    ensures IsMatching(s, Order(BID6, 1, New, 0), [ask, bad])
  {
  }

  /** Sell 10 at 100, sell 5 at 101 with 8 claimed as filled, buy 6 at 101 with 1 claimed: the bid
      keeps 3 at 101 against an ask with 5 left at 100, and nothing is pending. */
  lemma ThreeMessagesCross() returns (b: Book)
    ensures Reaches(iset{(10, 0), (5, 8), (6, 1)}, b) && !Uncrossed(b) && b.pending == multiset{}
    ensures ASK10 in b.orders && b.orders[ASK10].Remaining() == 5 && BID6 in b.orders && b.orders[BID6].Remaining() == 3
  {
    var claims := iset{(10, 0), (5, 8), (6, 1)};
    var none: Store := map[];
    var ask, bad := Order(ASK10, 0, Open, 1), Order(Bad(5), 8, Open, 2);
    ReachesStart(claims);
    ListStep(claims, none, multiset{}, Incoming(ASK10), 1);
    var s1 := none[ASK10 := ask];
    ListStep(claims, s1, multiset{}, Order(Bad(5), 8, New, 0), 2);
    var s2 := s1[Bad(5) := bad];
    assert s1 == map[ASK10 := ask];
    b := BuySix(claims, s2, ask, bad);
  }

  lemma BuySix(claims: iset<(int, int)>, s: Store, ask: Order, bad: Order) returns (b: Book)
    requires Reaches(claims, Book(s, multiset{})) && (6, 1) in claims
    requires ask == Order(ASK10, 0, Open, 1) && bad == Order(Bad(5), 8, Open, 2)
    requires s == map[ASK10 := ask][Bad(5) := bad]
    ensures Reaches(claims, b) && !Uncrossed(b) && b.pending == multiset{}
    ensures ASK10 in b.orders && b.orders[ASK10].Remaining() == 5 && BID6 in b.orders && b.orders[BID6].Remaining() == 3
  {
    var o := Order(BID6, 1, New, 0);
    ThreeFinds(s, ask, bad);
    HandedBack(s, o, ask, bad, 3);
    b := Book(Match(s, o, [ask, bad], 3).store, multiset{});
    ReachesStep(claims, Book(s, multiset{}), NewOrder(o, [ask, bad], 3), b);
    CrossedBook(b, BID6, ASK10);
  }
}

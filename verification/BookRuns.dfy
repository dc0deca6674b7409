/** Runs of the engine over all its messages: new orders, resubmissions, cancellations and
    both kinds of invalidation, consumed in any order (engine/orderbook.go, rabbitmq/orders.go). */
module BookRuns {
  import opened Orders
  import opened OrderStore
  import opened Matching
  import FreshRuns

  /** The stored orders and the NEW_ORDER messages the engine itself has published. */
  datatype Book = Book(orders: Store, pending: multiset<Order>)

  /** The fields beside the message resolve what the code leaves open: the order in which a
      query returns ties, and the clock. */
  datatype Event =
    | NewOrder(o: Order, makers: seq<Order>, now: int)
    | Resubmitted(o: Order, makers: seq<Order>, now: int)
    | CancelOrder(h: Hash)
    | InvalidateMakers(matches: Matches, found: seq<Order>)
    | InvalidateTaker(matches: Matches, found: seq<Order>)

  function TakerHashes(ms: Matches): (hs: seq<Hash>)
    requires |ms.makers| == |ms.trades|
    ensures |hs| == |ms.trades|
    ensures forall i :: 0 <= i < |hs| ==> hs[i] == ms.trades[i].taker
  {
    seq(|ms.makers|, i requires 0 <= i < |ms.makers| => ms.trades[i].taker)
  }

  function MakerHashes(ms: Matches): (hs: seq<Hash>)
    ensures |hs| == |ms.trades|
    ensures forall i :: 0 <= i < |hs| ==> hs[i] == ms.trades[i].maker
  {
    seq(|ms.trades|, i requires 0 <= i < |ms.trades| => ms.trades[i].maker)
  }

  /** The orders of a `$in` answer are no more than the hashes asked for. */
  lemma FoundFits(s: Store, hs: seq<Hash>, found: seq<Order>)
    requires IsFound(s, hs, found)
    ensures |found| <= |hs|
  {
    var fs := seq(|found|, i requires 0 <= i < |found| => found[i].hash);
    DistinctSize(fs);
    SeqSize(hs);
    assert (set h | h in fs) <= (set h | h in hs);
    SubsetSize((set h | h in fs), (set h | h in hs));
  }

  lemma {:induction false} DistinctSize(hs: seq<Hash>)
    requires forall i, j :: 0 <= i < j < |hs| ==> hs[i] != hs[j]
    ensures |set h | h in hs| == |hs|
  {
    if hs != [] {
      var last := |hs| - 1;
      DistinctSize(hs[..last]);
      assert (set h | h in hs) == (set h | h in hs[..last]) + {hs[last]};
    }
  }

  lemma {:induction false} SeqSize(hs: seq<Hash>)
    ensures |set h | h in hs| <= |hs|
  {
    if hs != [] {
      var last := |hs| - 1;
      SeqSize(hs[..last]);
      assert (set h | h in hs) == (set h | h in hs[..last]) + {hs[last]};
    }
  }

  lemma {:induction false} SubsetSize(a: set<Hash>, b: set<Hash>)
    requires a <= b
    ensures |a| <= |b|
  {
    if a != {} {
      var x :| x in a;
      SubsetSize(a - {x}, b - {x});
    }
  }

  /** Roll back one batch of fills, then mark another set of orders invalidated. */
  function Invalidated(s: Store, updated: seq<Order>, hs: seq<Hash>): Store {
    SetStatuses(PutAll(s, updated), (set h | h in hs), Status.Invalidated)
  }

  ghost predicate Step(b: Book, e: Event, b': Book) {
    match e
    case NewOrder(o, makers, now) =>
      && IsMatching(b.orders, o, makers)
      && b' == Book(Match(b.orders, o, makers, now).store, b.pending)
    case Resubmitted(o, makers, now) =>
      && o in b.pending
      && IsMatching(b.orders, o, makers)
      && b' == Book(Match(b.orders, o, makers, now).store, b.pending - multiset{o})
    case CancelOrder(h) =>
      b' == Book(SetStatus(b.orders, h, Cancelled), b.pending)
    case InvalidateMakers(ms, found) =>
      && |ms.makers| == |ms.trades|
      && IsFound(b.orders, TakerHashes(ms), found)
      && |found| <= |ms.trades|
      && var updated := Rollbacks(found, TradeAmounts(ms.trades));
         b' == Book(Invalidated(b.orders, updated, MakerHashes(ms)), b.pending + multiset(updated))
    case InvalidateTaker(ms, found) =>
      && IsFound(b.orders, MakerHashes(ms), found)
      && |found| <= |ms.trades|
      && var updated := Rollbacks(found, TradeAmounts(ms.trades));
         b' == Book(Invalidated(b.orders, updated, [ms.taker.hash]), b.pending + multiset(updated))
  }

  const EmptyBook := Book(map[], multiset{})

  ghost predicate StepAt(states: seq<Book>, events: seq<Event>, i: nat)
    requires i < |events| && |states| == |events| + 1
  {
    Step(states[i], events[i], states[i + 1])
  }

  ghost predicate IsRun(states: seq<Book>, events: seq<Event>) {
    && |states| == |events| + 1
    && states[0] == EmptyBook
    && forall i :: 0 <= i < |events| ==> StepAt(states, events, i)
  }

  lemma Extend(states: seq<Book>, events: seq<Event>, e: Event, b: Book)
    requires IsRun(states, events) && Step(states[|events|], e, b)
    ensures IsRun(states + [b], events + [e])
  {
    forall i | 0 <= i < |events + [e]| ensures StepAt(states + [b], events + [e], i) {
      if i < |events| {
        assert StepAt(states, events, i);
      }
    }
  }

  /** A client's message claims a fill between nothing and the whole amount. The service decodes
      the claim and passes it on unchecked. */
  predicate Admissible(e: Event) {
    e.NewOrder? ==> e.o.InRange()
  }

  ghost predicate AllAdmissible(events: seq<Event>) {
    forall i :: 0 <= i < |events| ==> Admissible(events[i])
  }

  /** A client's message claims no more than the whole amount, which is not negative. */
  predicate Bounded(e: Event) {
    e.NewOrder? ==> e.o.Capped()
  }

  ghost predicate AllBounded(events: seq<Event>) {
    forall i :: 0 <= i < |events| ==> Bounded(events[i])
  }

  ghost predicate Awaits(b: Book, h: Hash) {
    exists p :: p in b.pending && p.hash == h
  }

  /** The order rests in the book and is not waiting to be run again. */
  ghost predicate Rests(b: Book, h: Hash) {
    h in b.orders && b.orders[h].Resting() && !Awaits(b, h)
  }

  predicate Opposed(bid: Hash, ask: Hash) {
    bid.side == Buy && ask.side == Sell && bid.base == ask.base && bid.quote == ask.quote
  }

  /** No resting bid meets a resting ask, unless one of them is waiting to be run again. */
  ghost predicate Uncrossed(b: Book) {
    forall x, y :: Rests(b, x) && Rests(b, y) && Opposed(x, y) ==> x.price < y.price
  }

  ghost predicate NoOverfill(b: Book) {
    && WellKeyed(b.orders)
    && AllInRange(b.orders)
    && (forall p :: p in b.pending ==> p.InRange())
  }

  ghost predicate NoExcess(b: Book) {
    && WellKeyed(b.orders)
    && AllCapped(b.orders)
    && (forall p :: p in b.pending ==> p.Capped())
  }

  function Marked(o: Order, dead: seq<Hash>, h: Hash): Order {
    if h in dead then o.(status := Status.Invalidated) else o
  }

  /** The store after a roll-back and an invalidation, read pointwise. */
  lemma InvalidatedAt(s: Store, updated: seq<Order>, dead: seq<Hash>)
    requires Distinct(updated) && HashSet(updated) <= s.Keys
    ensures var s' := Invalidated(s, updated, dead);
            && s'.Keys == s.Keys
            && (forall i :: 0 <= i < |updated| ==> s'[updated[i].hash] == Marked(updated[i], dead, updated[i].hash))
            && (forall h :: h in s && h !in HashSet(updated) ==> s'[h] == Marked(s[h], dead, h))
  {
    PutAllAt(s, updated);
    forall i | 0 <= i < |updated| ensures updated[i].hash in HashSet(updated) {
    }
  }

  lemma RollbacksFit(s: Store, hs: seq<Hash>, found: seq<Order>, amounts: seq<int>)
    requires IsFound(s, hs, found) && |found| <= |amounts|
    ensures var updated := Rollbacks(found, amounts);
            && Distinct(updated) && HashSet(updated) == HashSet(found) <= s.Keys
            && (forall i :: 0 <= i < |updated| ==>
                  && updated[i].hash == found[i].hash && s[found[i].hash] == found[i]
                  && updated[i].createdAt == found[i].createdAt
                  && (0 <= found[i].hash.amount ==> updated[i].InRange()))
  {
    var updated := Rollbacks(found, amounts);
    assert forall i :: 0 <= i < |updated| ==> updated[i].hash == found[i].hash;
  }

  lemma RollbackEffect(s: Store, hs: seq<Hash>, found: seq<Order>, amounts: seq<int>, dead: seq<Hash>)
    requires WellKeyed(s) && AllCapped(s)
    requires IsFound(s, hs, found) && |found| <= |amounts|
    ensures var updated := Rollbacks(found, amounts);
            var s' := Invalidated(s, updated, dead);
            && WellKeyed(s') && AllCapped(s') && s'.Keys == s.Keys
            && (AllInRange(s) ==> AllInRange(s'))
            && (forall i :: 0 <= i < |updated| ==> updated[i].InRange())
            && (forall h :: h in s && s'[h].Live() && h !in HashSet(updated) ==> s'[h] == s[h])
  {
    var updated := Rollbacks(found, amounts);
    RollbacksFit(s, hs, found, amounts);
    InvalidatedAt(s, updated, dead);
    var s' := Invalidated(s, updated, dead);
    forall h | h in s ensures s'[h].hash == h && s'[h].Capped() && (s[h].InRange() ==> s'[h].InRange()) {
      if h in HashSet(updated) {
        var i :| 0 <= i < |updated| && updated[i].hash == h;
        assert s'[h] == Marked(updated[i], dead, h);
      }
    }
  }

  lemma MatchInRange(s: Store, o: Order, makers: seq<Order>, now: int)
    requires WellKeyed(s) && AllInRange(s) && o.InRange() && IsMatching(s, o, makers)
    ensures var s' := Match(s, o, makers, now).store; WellKeyed(s') && AllInRange(s')
  {
    MatchEffect(s, o, makers, now);
    TakenEffect(o, makers);
    InRangeAfter(s, Match(s, o, makers, now).store, o.hash);
  }

  lemma InRangeAfter(s: Store, s': Store, taker: Hash)
    requires AllInRange(s) && s'.Keys == s.Keys + {taker} && s'[taker].InRange()
    requires forall h :: h in s && h != taker ==> Advanced(s[h], s'[h])
    ensures AllInRange(s')
  {
    forall h | h in s' ensures s'[h].InRange() {
      if h != taker {
        assert Advanced(s[h], s'[h]);
      }
    }
  }

  lemma NoOverfillStep(b: Book, e: Event, b': Book)
    requires NoOverfill(b) && Step(b, e, b') && Admissible(e)
    ensures NoOverfill(b')
  {
    match e
    case NewOrder(o, makers, now) =>
      MatchInRange(b.orders, o, makers, now);
    case Resubmitted(o, makers, now) =>
      MatchInRange(b.orders, o, makers, now);
    case CancelOrder(h) =>
    case InvalidateMakers(ms, found) =>
      RollbackNoOverfill(b, TakerHashes(ms), found, TradeAmounts(ms.trades), MakerHashes(ms), b');
    case InvalidateTaker(ms, found) =>
      RollbackNoOverfill(b, MakerHashes(ms), found, TradeAmounts(ms.trades), [ms.taker.hash], b');
  }

  lemma RollbackNoOverfill(b: Book, hs: seq<Hash>, found: seq<Order>, amounts: seq<int>, dead: seq<Hash>, b': Book)
    requires NoOverfill(b)
    requires IsFound(b.orders, hs, found) && |found| <= |amounts|
    requires b' == Book(Invalidated(b.orders, Rollbacks(found, amounts), dead), b.pending + multiset(Rollbacks(found, amounts)))
    ensures NoOverfill(b')
  {
    RollbackEffect(b.orders, hs, found, amounts, dead);
    var updated := Rollbacks(found, amounts);
    forall p | p in b'.pending ensures p.InRange() {
      if p !in b.pending {
        assert p in updated;
      }
    }
  }

  lemma MatchCapped(s: Store, o: Order, makers: seq<Order>, now: int)
    requires WellKeyed(s) && AllCapped(s) && o.Capped() && IsMatching(s, o, makers)
    ensures var s' := Match(s, o, makers, now).store; WellKeyed(s') && AllCapped(s')
  {
    MatchEffect(s, o, makers, now);
    TakenEffect(o, makers);
    CappedAfter(s, Match(s, o, makers, now).store, o.hash);
  }

  lemma CappedAfter(s: Store, s': Store, taker: Hash)
    requires AllCapped(s) && s'.Keys == s.Keys + {taker} && s'[taker].Capped()
    requires forall h :: h in s && h != taker ==> Advanced(s[h], s'[h])
    ensures AllCapped(s')
  {
    forall h | h in s' ensures s'[h].Capped() {
      if h != taker {
        assert Advanced(s[h], s'[h]);
      }
    }
  }

  lemma NoExcessStep(b: Book, e: Event, b': Book)
    requires NoExcess(b) && Step(b, e, b') && Bounded(e)
    ensures NoExcess(b')
  {
    match e
    case NewOrder(o, makers, now) =>
      MatchCapped(b.orders, o, makers, now);
    case Resubmitted(o, makers, now) =>
      MatchCapped(b.orders, o, makers, now);
    case CancelOrder(h) =>
    case InvalidateMakers(ms, found) =>
      RollbackNoExcess(b, TakerHashes(ms), found, TradeAmounts(ms.trades), MakerHashes(ms), b');
    case InvalidateTaker(ms, found) =>
      RollbackNoExcess(b, MakerHashes(ms), found, TradeAmounts(ms.trades), [ms.taker.hash], b');
  }

  lemma RollbackNoExcess(b: Book, hs: seq<Hash>, found: seq<Order>, amounts: seq<int>, dead: seq<Hash>, b': Book)
    requires NoExcess(b)
    requires IsFound(b.orders, hs, found) && |found| <= |amounts|
    requires b' == Book(Invalidated(b.orders, Rollbacks(found, amounts), dead), b.pending + multiset(Rollbacks(found, amounts)))
    ensures NoExcess(b')
  {
    RollbackEffect(b.orders, hs, found, amounts, dead);
    var updated := Rollbacks(found, amounts);
    forall p | p in b'.pending ensures p.Capped() {
      if p !in b.pending {
        assert p in updated;
      }
    }
  }

  /** After a match the taker, if it still rests, meets no resting counterpart, as long as nobody
      came overfilled. */
  lemma TakerUncrossed(s: Store, o: Order, makers: seq<Order>, now: int, h: Hash)
    requires WellKeyed(s) && AllCapped(s) && o.Capped() && IsMatching(s, o, makers)
    requires h in s && h != o.hash
    ensures var s' := Match(s, o, makers, now).store;
            o.hash in s' && h in s' && s'[o.hash].Resting() && s'[h].Resting() ==> !Crosses(s'[h], o)
  {
    MatchEffect(s, o, makers, now);
    TakenEffect(o, makers);
    var s' := Match(s, o, makers, now).store;
    assert Advanced(s[h], s'[h]);
    if s'[o.hash].Resting() && Crosses(s[h], o) {
      assert s[h] in makers;
      var i :| 0 <= i < |makers| && makers[i] == s[h];
      assert s'[h].status == Filled;
    }
  }

  lemma MatchUncrossed(b: Book, o: Order, makers: seq<Order>, now: int, b': Book)
    requires NoExcess(b) && Uncrossed(b) && o.Capped() && IsMatching(b.orders, o, makers)
    requires b'.orders == Match(b.orders, o, makers, now).store
    requires forall p :: p in b.pending && p.hash != o.hash ==> p in b'.pending
    ensures Uncrossed(b')
  {
    MatchEffect(b.orders, o, makers, now);
    forall h | Rests(b', h) && h != o.hash ensures Rests(b, h) {
      assert Advanced(b.orders[h], b'.orders[h]);
      AwaitsStill(b, b', h);
    }
    forall x, y | Rests(b', x) && Rests(b', y) && Opposed(x, y) ensures x.price < y.price {
      if x == o.hash {
        TakerUncrossed(b.orders, o, makers, now, y);
      } else if y == o.hash {
        TakerUncrossed(b.orders, o, makers, now, x);
      }
    }
  }

  lemma AwaitsStill(b: Book, b': Book, h: Hash)
    requires forall p :: p in b.pending && p.hash == h ==> p in b'.pending
    ensures Awaits(b, h) ==> Awaits(b', h)
  {
    if p :| p in b.pending && p.hash == h {
      assert p in b'.pending;
    }
  }

  lemma UncrossedShrinks(b: Book, b': Book)
    requires Uncrossed(b) && forall h :: Rests(b', h) ==> Rests(b, h)
    ensures Uncrossed(b')
  {
  }

  lemma CancelUncrossed(b: Book, h: Hash, b': Book)
    requires Uncrossed(b) && b' == Book(SetStatus(b.orders, h, Cancelled), b.pending)
    ensures Uncrossed(b')
  {
    UncrossedShrinks(b, b');
  }

  /** Every order an invalidation reopens is resubmitted, so none of them counts. */
  lemma RollbackUncrossed(b: Book, hs: seq<Hash>, found: seq<Order>, amounts: seq<int>, dead: seq<Hash>, b': Book)
    requires NoExcess(b) && Uncrossed(b)
    requires IsFound(b.orders, hs, found) && |found| <= |amounts|
    requires b' == Book(Invalidated(b.orders, Rollbacks(found, amounts), dead), b.pending + multiset(Rollbacks(found, amounts)))
    ensures Uncrossed(b')
  {
    RollbackEffect(b.orders, hs, found, amounts, dead);
    var updated := Rollbacks(found, amounts);
    forall h | h in HashSet(updated) ensures Awaits(b', h) {
      var i :| 0 <= i < |updated| && updated[i].hash == h;
      assert updated[i] in b'.pending;
    }
    forall h | Rests(b', h) ensures Rests(b, h) {
      assert h !in HashSet(updated);
      AwaitsStill(b, b', h);
    }
    UncrossedShrinks(b, b');
  }

  lemma UncrossedStep(b: Book, e: Event, b': Book)
    requires NoExcess(b) && Uncrossed(b) && Step(b, e, b') && Bounded(e)
    ensures Uncrossed(b')
  {
    match e
    case NewOrder(o, makers, now) =>
      MatchUncrossed(b, o, makers, now, b');
    case Resubmitted(o, makers, now) =>
      MatchUncrossed(b, o, makers, now, b');
    case CancelOrder(h) =>
      CancelUncrossed(b, h, b');
    case InvalidateMakers(ms, found) =>
      RollbackUncrossed(b, TakerHashes(ms), found, TradeAmounts(ms.trades), MakerHashes(ms), b');
    case InvalidateTaker(ms, found) =>
      RollbackUncrossed(b, MakerHashes(ms), found, TradeAmounts(ms.trades), [ms.taker.hash], b');
  }

  lemma UncrossedNext(states: seq<Book>, events: seq<Event>, i: nat)
    requires i < |events| && |states| == |events| + 1 && StepAt(states, events, i) && Bounded(events[i])
    requires NoExcess(states[i]) && Uncrossed(states[i])
    ensures NoExcess(states[i + 1]) && Uncrossed(states[i + 1])
  {
    NoExcessStep(states[i], events[i], states[i + 1]);
    UncrossedStep(states[i], events[i], states[i + 1]);
  }

  /** In every run, whatever the order of the messages, in which no client claims more than the
      whole amount: no bid rests against an ask it could trade with. */
  lemma {:induction false} RunUncrossed(states: seq<Book>, events: seq<Event>, n: nat)
    requires IsRun(states, events) && AllBounded(events) && n < |states|
    ensures NoExcess(states[n]) && Uncrossed(states[n])
  {
    if n > 0 {
      RunUncrossed(states, events, n - 1);
      UncrossedNext(states, events, n - 1);
    }
  }

  /** In every run of admissible messages, whatever their order, no stored order leaves [0, amount]. */
  lemma {:induction false} RunNoOverfill(states: seq<Book>, events: seq<Event>, n: nat)
    requires IsRun(states, events) && AllAdmissible(events) && n < |states|
    ensures NoOverfill(states[n])
  {
    if n > 0 {
      RunNoOverfill(states, events, n - 1);
      assert StepAt(states, events, n - 1);
      NoOverfillStep(states[n - 1], events[n - 1], states[n]);
    }
  }

  /** Only these orders come from clients. */
  ghost predicate Submits(events: seq<Event>, allowed: iset<Order>) {
    forall i :: 0 <= i < |events| && events[i].NewOrder? ==> events[i].o in allowed
  }

  /** An unmatched order is stored with whatever fill it claims. */
  lemma StoredAsClaimed(o: Order, now: int) returns (states: seq<Book>, events: seq<Event>)
    ensures IsRun(states, events) && |states| == 2
    ensures forall allowed :: o in allowed ==> Submits(events, allowed)
    ensures o.hash in states[1].orders && states[1].orders[o.hash].filled == o.filled
  {
    var b := Book(Match(map[], o, [], now).store, multiset{});
    states, events := [EmptyBook, b], [NewOrder(o, [], now)];
    assert StepAt(states, events, 0);
  }

  /** Whatever the clients may submit: no run overfills an order exactly when no submitted order
      claims a fill outside [0, amount]. */
  lemma NoOverfillIff(allowed: iset<Order>)
    ensures (forall o :: o in allowed ==> o.InRange()) <==>
            (forall states, events, n: nat ::
              IsRun(states, events) && Submits(events, allowed) && n < |states| ==> NoOverfill(states[n]))
  {
    if forall o :: o in allowed ==> o.InRange() {
      forall states, events, n: nat | IsRun(states, events) && Submits(events, allowed) && n < |states|
        ensures NoOverfill(states[n])
      {
        RunNoOverfill(states, events, n);
      }
    } else {
      var o :| o in allowed && !o.InRange();
      var states, events := StoredAsClaimed(o, 0);
      assert !NoOverfill(states[1]);
    }
  }

  // ---- places in the queue ----

  /** Nothing is deleted and no order's creation time ever changes. */
  ghost predicate KeepsPlaces(s: Store, s': Store) {
    forall h :: h in s ==> h in s' && s'[h].createdAt == s[h].createdAt
  }

  /** A walk changes fills and statuses only, and trade i is made with maker i. */
  lemma {:induction false} WalkShape(o: Order, counter: int, makers: seq<Order>)
    ensures var w := Walk(o, counter, makers);
            && w.taker.hash == o.hash && |w.matched| == |w.trades| <= |makers|
            && (forall i :: 0 <= i < |w.trades| ==> w.trades[i].maker == makers[i].hash && w.trades[i].taker == o.hash && w.trades[i].price == o.hash.price)
            && forall i :: 0 <= i < |w.matched| ==> w.matched[i].hash == makers[i].hash && w.matched[i].createdAt == makers[i].createdAt
    decreases |makers|
  {
    if makers != [] {
      var x := Execute(o, makers[0]);
      WalkShape(x.taker, counter - x.trade.amount, makers[1..]);
    }
  }

  /** Whatever the fills: the taker keeps the creation time it is stored with, or gets the
      current time, and everybody else keeps theirs. */
  lemma MatchKeepsPlaces(s: Store, o: Order, makers: seq<Order>, now: int)
    requires WellKeyed(s) && IsMatching(s, o, makers)
    ensures var s' := Match(s, o, makers, now).store;
            && WellKeyed(s') && KeepsPlaces(s, s')
            && o.hash in s' && s'[o.hash].createdAt == if o.hash in s then s[o.hash].createdAt else now
  {
    var w := Walk(o, o.hash.amount, makers);
    var taker := Taken(o, makers);
    WalkShape(o, o.hash.amount, makers);
    assert taker.hash == o.hash;
    PutAllAt(s, w.matched);
    assert o.hash !in HashSet(w.matched);
    WriteBack(s, makers, w.matched, taker, now);
    var s' := Put(PutAll(s, w.matched), taker, now);
    assert s' == Match(s, o, makers, now).store;
    forall h | h in s && h != o.hash ensures s'[h].createdAt == s[h].createdAt {
      if h in HashSet(w.matched) {
        var i :| 0 <= i < |w.matched| && w.matched[i].hash == h;
        assert s[h] == makers[i];
      }
    }
  }

  lemma RollbackKeepsPlaces(s: Store, hs: seq<Hash>, found: seq<Order>, amounts: seq<int>, dead: seq<Hash>)
    requires WellKeyed(s) && IsFound(s, hs, found) && |found| <= |amounts|
    ensures var s' := Invalidated(s, Rollbacks(found, amounts), dead);
            WellKeyed(s') && KeepsPlaces(s, s')
  {
    var updated := Rollbacks(found, amounts);
    RollbacksFit(s, hs, found, amounts);
    InvalidatedAt(s, updated, dead);
    var s' := Invalidated(s, updated, dead);
    forall h | h in s ensures s'[h].createdAt == s[h].createdAt && s'[h].hash == h {
      if h in HashSet(updated) {
        var i :| 0 <= i < |updated| && updated[i].hash == h;
        assert s'[h] == Marked(updated[i], dead, h);
      }
    }
  }

  lemma StepKeepsPlaces(b: Book, e: Event, b': Book)
    requires WellKeyed(b.orders) && Step(b, e, b')
    ensures WellKeyed(b'.orders) && KeepsPlaces(b.orders, b'.orders)
  {
    match e
    case NewOrder(o, makers, now) =>
      MatchKeepsPlaces(b.orders, o, makers, now);
    case Resubmitted(o, makers, now) =>
      MatchKeepsPlaces(b.orders, o, makers, now);
    case CancelOrder(h) =>
    case InvalidateMakers(ms, found) =>
      RollbackKeepsPlaces(b.orders, TakerHashes(ms), found, TradeAmounts(ms.trades), MakerHashes(ms));
    case InvalidateTaker(ms, found) =>
      RollbackKeepsPlaces(b.orders, MakerHashes(ms), found, TradeAmounts(ms.trades), [ms.taker.hash]);
  }

  lemma KeepsPlacesTransitive(a: Store, b: Store, c: Store)
    requires KeepsPlaces(a, b) && KeepsPlaces(b, c)
    ensures KeepsPlaces(a, c)
  {
  }

  lemma {:induction false} RunWellKeyed(states: seq<Book>, events: seq<Event>, n: nat)
    requires IsRun(states, events) && n < |states|
    ensures WellKeyed(states[n].orders)
  {
    if n > 0 {
      RunWellKeyed(states, events, n - 1);
      assert StepAt(states, events, n - 1);
      StepKeepsPlaces(states[n - 1], events[n - 1], states[n]);
    }
  }

  /** Fills, cancellations, roll-backs and resubmissions leave an order's place among equal
      prices where it was: time priority is decided once, at insertion. */
  lemma {:induction false} RunKeepsPlaces(states: seq<Book>, events: seq<Event>, i: nat, j: nat)
    requires IsRun(states, events) && i <= j < |states|
    ensures KeepsPlaces(states[i].orders, states[j].orders)
    decreases j
  {
    if i < j {
      RunKeepsPlaces(states, events, i, j - 1);
      RunWellKeyed(states, events, j - 1);
      assert StepAt(states, events, j - 1);
      StepKeepsPlaces(states[j - 1], events[j - 1], states[j]);
      KeepsPlacesTransitive(states[i].orders, states[j - 1].orders, states[j].orders);
    }
  }

  // ---- runs of fresh orders ----

  function AsBook(x: FreshRuns.Exchange): Book {
    Book(x.orders, multiset{})
  }

  function AsEvent(e: FreshRuns.Event): Event {
    match e
    case Submit(o, makers, now) => NewOrder(o, makers, now)
    case Cancel(h) => CancelOrder(h)
  }

  /** A run of fresh orders and cancellations is a run of the book in which nothing is pending,
      so there no bid ever rests against an ask, without exception. */
  lemma FreshRunUncrossed(states: seq<FreshRuns.Exchange>, events: seq<FreshRuns.Event>, n: nat, bid: Hash, ask: Hash)
    requires FreshRuns.IsRun(states, events) && n < |states|
    requires bid in states[n].orders && ask in states[n].orders && Opposed(bid, ask)
    requires states[n].orders[bid].Live() && states[n].orders[ask].Live()
    ensures bid.price < ask.price
  {
    var bs := seq(|states|, i requires 0 <= i < |states| => AsBook(states[i]));
    var es := seq(|events|, i requires 0 <= i < |events| => AsEvent(events[i]));
    forall i | 0 <= i < |es| ensures StepAt(bs, es, i) {
      assert FreshRuns.StepAt(states, events, i);
    }
    assert IsRun(bs, es);
    forall i | 0 <= i < |es| ensures Bounded(es[i]) {
      assert FreshRuns.StepAt(states, events, i);
    }
    RunUncrossed(bs, es, n);
    FreshRuns.RunLiveRests(states, events, n, bid);
    FreshRuns.RunLiveRests(states, events, n, ask);
    assert Rests(bs[n], bid) && Rests(bs[n], ask);
  }
}

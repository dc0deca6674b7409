/** What conservation of fills becomes when matches are taken back and orders run again: every
    trade and every amount a roll-back really subtracts, written down along any run of the book
    (engine/orderbook.go:98-221, 300-407, daos/order.go:302-354). */
module Journals {
  import opened Orders
  import opened OrderStore
  import opened Matching
  import opened BookRuns
  import FreshRuns

  /** What an order's fill lost in a roll-back, after clamping. */
  datatype Refund = Refund(hash: Hash, amount: int)

  datatype Journal = Journal(trades: seq<Trade>, refunds: seq<Refund>)

  function Refunds(found: seq<Order>, updated: seq<Order>): (rs: seq<Refund>)
    requires |found| == |updated|
    ensures |rs| == |found|
    ensures forall i :: 0 <= i < |rs| ==> rs[i] == Refund(found[i].hash, found[i].filled - updated[i].filled)
  {
    seq(|found|, i requires 0 <= i < |found| => Refund(found[i].hash, found[i].filled - updated[i].filled))
  }

  /** What the roll-back of a batch takes from the orders it finds. */
  function RolledBack(ms: Matches, found: seq<Order>): seq<Refund> {
    if |found| <= |ms.trades| then Refunds(found, Rollbacks(found, TradeAmounts(ms.trades))) else []
  }

  function Noted(j: Journal, b: Book, e: Event): Journal {
    match e
    case NewOrder(o, makers, now) => j.(trades := j.trades + Trades(Match(b.orders, o, makers, now).response))
    case Resubmitted(o, makers, now) => j.(trades := j.trades + Trades(Match(b.orders, o, makers, now).response))
    case CancelOrder(h) => j
    case InvalidateMakers(ms, found) => j.(refunds := j.refunds + RolledBack(ms, found))
    case InvalidateTaker(ms, found) => j.(refunds := j.refunds + RolledBack(ms, found))
  }

  /** The journal of the first n steps of a run. */
  function JournalOf(states: seq<Book>, events: seq<Event>, n: nat): Journal
    requires n <= |events| < |states|
  {
    if n == 0 then Journal([], []) else Noted(JournalOf(states, events, n - 1), states[n - 1], events[n - 1])
  }

  function Refunded(rs: seq<Refund>, h: Hash): int {
    if rs == [] then 0 else (if rs[0].hash == h then rs[0].amount else 0) + Refunded(rs[1..], h)
  }

  /** Every order's fill is what was traded on it less what was taken back. */
  ghost predicate Conserved(s: Store, j: Journal) {
    forall h :: FreshRuns.FillOf(s, h) == FreshRuns.Traded(j.trades, h) - Refunded(j.refunds, h)
  }

  /** A consumed order carries the fill the store has for it now, or none if it is not stored. */
  predicate Current(s: Store, e: Event) {
    e.NewOrder? || e.Resubmitted? ==> e.o.filled == FreshRuns.FillOf(s, e.o.hash)
  }

  lemma {:induction false} RefundedConcat(a: seq<Refund>, b: seq<Refund>, h: Hash)
    ensures Refunded(a + b, h) == Refunded(a, h) + Refunded(b, h)
  {
    if a == [] {
      assert a + b == b;
    } else {
      assert (a + b)[1..] == a[1..] + b;
      RefundedConcat(a[1..], b, h);
    }
  }

  /** A hash that occurs at most at position k. */
  lemma {:induction false} RefundedAt(rs: seq<Refund>, h: Hash, k: nat)
    requires forall i :: 0 <= i < |rs| ==> (rs[i].hash == h <==> i == k)
    ensures Refunded(rs, h) == if k < |rs| then rs[k].amount else 0
    decreases |rs|
  {
    if rs != [] {
      var rest := rs[1..];
      if k == 0 {
        RefundedAt(rest, h, |rest|);
      } else {
        assert forall i :: 0 <= i < |rest| ==> rest[i] == rs[i + 1];
        RefundedAt(rest, h, k - 1);
      }
    }
  }

  /** A roll-back lowers every fill by what the journal notes for it. */
  lemma RollbackRefunded(s: Store, hs: seq<Hash>, ms: Matches, found: seq<Order>, dead: seq<Hash>, h: Hash)
    requires IsFound(s, hs, found) && |found| <= |ms.trades|
    ensures var s' := BookRuns.Invalidated(s, Rollbacks(found, TradeAmounts(ms.trades)), dead);
            FreshRuns.FillOf(s', h) == FreshRuns.FillOf(s, h) - Refunded(RolledBack(ms, found), h)
  {
    var updated := Rollbacks(found, TradeAmounts(ms.trades));
    var rs := RolledBack(ms, found);
    RollbacksFit(s, hs, found, TradeAmounts(ms.trades));
    InvalidatedAt(s, updated, dead);
    if k :| 0 <= k < |found| && found[k].hash == h {
      RefundedAt(rs, h, k);
      assert BookRuns.Invalidated(s, updated, dead)[updated[k].hash] == Marked(updated[k], dead, h);
    } else {
      RefundedAt(rs, h, |rs|);
      assert h !in HashSet(found);
    }
  }

  lemma MatchConservedIff(s: Store, j: Journal, o: Order, makers: seq<Order>, now: int)
    requires WellKeyed(s) && AllInRange(s) && o.InRange() && IsMatching(s, o, makers) && Conserved(s, j)
    ensures var r := Match(s, o, makers, now);
            Conserved(r.store, j.(trades := j.trades + Trades(r.response))) <==> o.filled == FreshRuns.FillOf(s, o.hash)
  {
    var r := Match(s, o, makers, now);
    var j' := j.(trades := j.trades + Trades(r.response));
    forall h
      ensures FreshRuns.FillOf(r.store, h) - (FreshRuns.Traded(j'.trades, h) - Refunded(j'.refunds, h)) ==
              if h == o.hash then o.filled - FreshRuns.FillOf(s, h) else 0
    {
      FreshRuns.MatchTraded(s, o, makers, now, h);
      FreshRuns.TradedConcat(j.trades, Trades(r.response), h);
    }
    ConservedExcept(r.store, j', o.hash, o.filled - FreshRuns.FillOf(s, o.hash));
  }

  lemma ConservedExcept(s: Store, j: Journal, h: Hash, gap: int)
    requires forall k :: FreshRuns.FillOf(s, k) - (FreshRuns.Traded(j.trades, k) - Refunded(j.refunds, k)) == if k == h then gap else 0
    ensures Conserved(s, j) <==> gap == 0
  {
    assert FreshRuns.FillOf(s, h) == FreshRuns.Traded(j.trades, h) - Refunded(j.refunds, h) + gap;
  }

  lemma RollbackConserved(s: Store, j: Journal, hs: seq<Hash>, ms: Matches, found: seq<Order>, dead: seq<Hash>)
    requires IsFound(s, hs, found) && |found| <= |ms.trades| && Conserved(s, j)
    ensures Conserved(BookRuns.Invalidated(s, Rollbacks(found, TradeAmounts(ms.trades)), dead), j.(refunds := j.refunds + RolledBack(ms, found)))
  {
    var s' := BookRuns.Invalidated(s, Rollbacks(found, TradeAmounts(ms.trades)), dead);
    var j' := j.(refunds := j.refunds + RolledBack(ms, found));
    forall h ensures FreshRuns.FillOf(s', h) == FreshRuns.Traded(j'.trades, h) - Refunded(j'.refunds, h) {
      RollbackRefunded(s, hs, ms, found, dead, h);
      RefundedConcat(j.refunds, RolledBack(ms, found), h);
    }
  }

  /** One message keeps the books exactly when the order it carries is current; cancellations and
      both kinds of invalidation always do. */
  lemma StepConservedIff(b: Book, j: Journal, e: Event, b': Book)
    requires NoOverfill(b) && Step(b, e, b') && Admissible(e) && Conserved(b.orders, j)
    ensures Conserved(b'.orders, Noted(j, b, e)) <==> Current(b.orders, e)
  {
    match e
    case NewOrder(o, makers, now) =>
      MatchConservedIff(b.orders, j, o, makers, now);
    case Resubmitted(o, makers, now) =>
      MatchConservedIff(b.orders, j, o, makers, now);
    case CancelOrder(h) =>
      assert forall k :: FreshRuns.FillOf(b'.orders, k) == FreshRuns.FillOf(b.orders, k);
    case InvalidateMakers(ms, found) =>
      RollbackConserved(b.orders, j, TakerHashes(ms), ms, found, MakerHashes(ms));
    case InvalidateTaker(ms, found) =>
      RollbackConserved(b.orders, j, MakerHashes(ms), ms, found, [ms.taker.hash]);
  }

  ghost predicate ConservedAt(states: seq<Book>, events: seq<Event>, n: nat)
    requires n <= |events| < |states|
  {
    Conserved(states[n].orders, JournalOf(states, events, n))
  }

  predicate CurrentAt(states: seq<Book>, events: seq<Event>, i: nat)
    requires i < |events| < |states|
  {
    Current(states[i].orders, events[i])
  }

  lemma NextConservedIff(states: seq<Book>, events: seq<Event>, i: nat)
    requires IsRun(states, events) && AllAdmissible(events) && i < |events|
    requires ConservedAt(states, events, i)
    ensures ConservedAt(states, events, i + 1) <==> CurrentAt(states, events, i)
  {
    RunNoOverfill(states, events, i);
    assert StepAt(states, events, i);
    StepConservedIff(states[i], JournalOf(states, events, i), events[i], states[i + 1]);
  }

  ghost predicate AllCurrent(states: seq<Book>, events: seq<Event>)
    requires |events| < |states|
  {
    forall i :: 0 <= i < |events| ==> CurrentAt(states, events, i)
  }

  lemma CurrentConserves(states: seq<Book>, events: seq<Event>, i: nat)
    requires IsRun(states, events) && AllAdmissible(events) && i < |events|
    requires ConservedAt(states, events, i) && AllCurrent(states, events)
    ensures ConservedAt(states, events, i + 1)
  {
    NextConservedIff(states, events, i);
  }

  lemma StartConserved(states: seq<Book>, events: seq<Event>)
    requires IsRun(states, events)
    ensures ConservedAt(states, events, 0)
  {
    assert JournalOf(states, events, 0) == Journal([], []);
    assert Conserved(map[], Journal([], []));
  }

  lemma {:induction false} PrefixConserved(states: seq<Book>, events: seq<Event>, n: nat)
    requires IsRun(states, events) && AllAdmissible(events) && n < |states|
    requires AllCurrent(states, events)
    ensures ConservedAt(states, events, n)
  {
    if n == 0 {
      StartConserved(states, events);
    } else {
      var i := n - 1;
      PrefixConserved(states, events, i);
      CurrentConserves(states, events, i);
    }
  }

  /** Over every run, with invalidations and resubmissions: each order's fill is always what was
      traded on it less what was taken back, exactly when every order the engine consumed was
      current at that moment. */
  lemma RunConservedIff(states: seq<Book>, events: seq<Event>)
    requires IsRun(states, events) && AllAdmissible(events)
    ensures (forall n :: 0 <= n < |states| ==> ConservedAt(states, events, n)) <==>
            AllCurrent(states, events)
  {
    if forall n :: 0 <= n < |states| ==> ConservedAt(states, events, n) {
      forall i | 0 <= i < |events| ensures CurrentAt(states, events, i) {
        assert ConservedAt(states, events, i) && ConservedAt(states, events, i + 1);
        NextConservedIff(states, events, i);
      }
    }
    if AllCurrent(states, events) {
      forall n | 0 <= n < |states| ensures ConservedAt(states, events, n) {
        PrefixConserved(states, events, n);
      }
    }
  }
}

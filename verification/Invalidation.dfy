/** Undoing matches: when subtracting trade amounts brings orders back to what they were
    (engine/orderbook.go:300-407, daos/order.go:302-354). */
module Invalidation {
  import opened Orders
  import opened OrderStore
  import opened Matching
  import FreshRuns
  import BookRuns

  /** Subtracting `amount` undoes a trade of `traded` on an order that had `filled` before: the
      amounts are equal, or nothing was filled before and the clamp at zero hides the excess. */
  predicate Undoes(filled: int, traded: int, amount: int) {
    amount == traded || (filled == 0 && amount >= traded)
  }

  /** Exactly when the roll-back of one executed maker restores its fill and its status; a trade
      of nothing counts. */
  lemma RollbackUndoes(taker: Hash, m: Order, m': Order, t: Trade, amount: int)
    requires m.Live() && m.InRange() && m.StatusAgrees() && Executed(taker, m, m', t)
    ensures Rollback(m', amount) == m <==> Undoes(m.filled, t.amount, amount)
  {
  }

  /** ms is a batch of executed makers: before it the book was s, after it s1. The taker may have
      been stored before. */
  ghost predicate IsBatch(s: Store, s1: Store, ms: Matches) {
    && |ms.makers| == |ms.trades|
    && Distinct(ms.makers)
    && s1.Keys == s.Keys + {ms.taker.hash}
    && (forall h :: h in s && h != ms.taker.hash && h !in HashSet(ms.makers) ==> s1[h] == s[h])
    && (forall i :: 0 <= i < |ms.makers| ==> IsExecuted(s, s1, ms.taker.hash, ms.makers[i], ms.trades[i]))
  }

  ghost predicate IsExecuted(s: Store, s1: Store, taker: Hash, m: Order, t: Trade) {
    && m.hash in s && m.hash != taker
    && m.hash in s1 && s1[m.hash] == m
    && var before := s[m.hash];
       before.Live() && before.InRange() && before.StatusAgrees() && Executed(taker, before, m, t)
  }

  /** The makers and amounts of a match, with a new taker or with one that runs again. */
  lemma MatchIsBatch(s: Store, o: Order, makers: seq<Order>, now: int)
    requires FreshRuns.Consistent(s) && o.Capped() && IsMatching(s, o, makers) && makers != []
    ensures var r := Match(s, o, makers, now);
            r.response.matches.taker.hash == o.hash && IsBatch(s, r.store, r.response.matches)
  {
    FreshRuns.MakersRest(s, o, makers);
    MatchEffect(s, o, makers, now);
    TakenEffect(o, makers);
    WalkMakers(o, o.hash.amount, makers);
    var w := Walk(o, o.hash.amount, makers);
    var s1 := Match(s, o, makers, now).store;
    forall i | 0 <= i < |w.matched|
      ensures w.matched[i].hash == makers[i].hash && IsExecuted(s, s1, o.hash, w.matched[i], w.trades[i])
    {
      assert Executed(o.hash, makers[i], w.matched[i], w.trades[i]);
      assert s[makers[i].hash] == makers[i];
    }
  }

  /** The answer at position k, with the amount that happens to stand at that position. */
  ghost predicate UndoneAt(s: Store, found: seq<Order>, ts: seq<Trade>, k: nat)
    requires k < |found| <= |ts| && found[k].hash in s
  {
    Undoes(s[found[k].hash].filled, found[k].filled - s[found[k].hash].filled, ts[k].amount)
  }

  lemma FoundInBatch(s: Store, s1: Store, ms: Matches, found: seq<Order>, k: nat)
    requires IsBatch(s, s1, ms) && IsFound(s1, BookRuns.MakerHashes(ms), found)
    requires k < |found| <= |ms.trades|
    ensures found[k].hash in s && found[k].hash in HashSet(ms.makers) && found[k].hash != ms.taker.hash
    ensures s[found[k].hash].hash == found[k].hash
    ensures Rollback(found[k], ms.trades[k].amount) == s[found[k].hash] <==> UndoneAt(s, found, ms.trades, k)
  {
    var hs := BookRuns.MakerHashes(ms);
    assert found[k].hash in hs;
    var i :| 0 <= i < |hs| && hs[i] == found[k].hash;
    assert IsExecuted(s, s1, ms.taker.hash, ms.makers[i], ms.trades[i]);
    RollbackUndoes(ms.taker.hash, s[found[k].hash], found[k], ms.trades[i], ms.trades[k].amount);
  }

  /** The answer covers the batch. */
  lemma BatchInFound(s: Store, s1: Store, ms: Matches, found: seq<Order>)
    requires IsBatch(s, s1, ms) && IsFound(s1, BookRuns.MakerHashes(ms), found) && |found| <= |ms.trades|
    ensures HashSet(found) == HashSet(ms.makers)
  {
    var hs := BookRuns.MakerHashes(ms);
    forall i | 0 <= i < |ms.makers| ensures ms.makers[i].hash in HashSet(found) {
      assert IsExecuted(s, s1, ms.taker.hash, ms.makers[i], ms.trades[i]);
      assert hs[i] == ms.makers[i].hash;
      assert s1[hs[i]] in found;
      var k :| 0 <= k < |found| && found[k] == s1[hs[i]];
      assert found[k].hash == hs[i];
    }
    forall k | 0 <= k < |found| ensures found[k].hash in HashSet(ms.makers) {
      FoundInBatch(s, s1, ms, found, k);
    }
  }

  lemma RestoredIff(s: Store, s': Store, taker: Hash, found: seq<Order>, ts: seq<Trade>)
    requires |found| <= |ts| && s.Keys <= s'.Keys
    requires forall k :: 0 <= k < |found| ==> found[k].hash in s && found[k].hash != taker
    requires forall k :: 0 <= k < |found| ==> (s'[found[k].hash] == s[found[k].hash] <==> UndoneAt(s, found, ts, k))
    requires forall h :: h in s && h != taker && h !in HashSet(found) ==> s'[h] == s[h]
    ensures (forall h :: h in s && h != taker ==> s'[h] == s[h]) <==> (forall k :: 0 <= k < |found| ==> UndoneAt(s, found, ts, k))
  {
    if forall k :: 0 <= k < |found| ==> UndoneAt(s, found, ts, k) {
      forall h | h in s && h != taker ensures s'[h] == s[h] {
        if h in HashSet(found) {
          var k :| 0 <= k < |found| && found[k].hash == h;
          assert UndoneAt(s, found, ts, k);
        }
      }
    }
  }

  /** The store after the roll-back, at the orders of the answer and away from them. */
  lemma RolledBack(s: Store, found: seq<Order>, amounts: seq<int>, dead: Hash)
    requires Distinct(found) && |found| <= |amounts| && HashSet(found) <= s.Keys && dead in s && dead !in HashSet(found)
    ensures var s' := BookRuns.Invalidated(s, Rollbacks(found, amounts), [dead]);
            && s'.Keys == s.Keys
            && s'[dead].status == Status.Invalidated
            && (forall k :: 0 <= k < |found| ==> s'[found[k].hash] == Rollback(found[k], amounts[k]))
            && (forall h :: h in s && h != dead && h !in HashSet(found) ==> s'[h] == s[h])
  {
    var updated := Rollbacks(found, amounts);
    assert forall k :: 0 <= k < |found| ==> updated[k].hash == found[k].hash && found[k].hash in HashSet(found);
    assert HashSet(updated) == HashSet(found);
    BookRuns.InvalidatedAt(s, updated, [dead]);
  }

  lemma RestoresIff(s: Store, s1: Store, ms: Matches, found: seq<Order>)
    requires IsBatch(s, s1, ms) && IsFound(s1, BookRuns.MakerHashes(ms), found) && |found| <= |ms.trades|
    ensures forall k :: 0 <= k < |found| ==> found[k].hash in s
    ensures var s' := BookRuns.Invalidated(s1, Rollbacks(found, TradeAmounts(ms.trades)), [ms.taker.hash]);
            && s'.Keys == s1.Keys
            && s'[ms.taker.hash].status == Status.Invalidated
            && ((forall h :: h in s && h != ms.taker.hash ==> s'[h] == s[h]) <==> (forall k :: 0 <= k < |found| ==> UndoneAt(s, found, ms.trades, k)))
  {
    BatchInFound(s, s1, ms, found);
    assert HashSet(found) <= s.Keys;
    RolledBack(s1, found, TradeAmounts(ms.trades), ms.taker.hash);
    var s' := BookRuns.Invalidated(s1, Rollbacks(found, TradeAmounts(ms.trades)), [ms.taker.hash]);
    forall k | 0 <= k < |found|
      ensures found[k].hash in s && found[k].hash != ms.taker.hash
      ensures s'[found[k].hash] == s[found[k].hash] <==> UndoneAt(s, found, ms.trades, k)
    {
      FoundInBatch(s, s1, ms, found, k);
    }
    RestoredIff(s, s', ms.taker.hash, found, ms.trades);
  }

  /** Invalidating the taker right after its match, whether the taker was new or ran again. The
      book gets all its other orders back exactly when every amount undoes the trade of the order the query returned at its position. */
  lemma InvalidateTakerRestores(s: Store, o: Order, makers: seq<Order>, now: int, found: seq<Order>)
    requires FreshRuns.Consistent(s) && o.Capped() && IsMatching(s, o, makers) && makers != []
    requires var r := Match(s, o, makers, now);
             IsFound(r.store, BookRuns.MakerHashes(r.response.matches), found)
    ensures var r := Match(s, o, makers, now);
            var ms := r.response.matches;
            && |found| <= |ms.trades|
            && (forall k :: 0 <= k < |found| ==> found[k].hash in s)
            && var s' := BookRuns.Invalidated(r.store, Rollbacks(found, TradeAmounts(ms.trades)), [o.hash]);
               && s'.Keys == s.Keys + {o.hash}
               && s'[o.hash].status == Status.Invalidated
               && ((forall h :: h in s && h != o.hash ==> s'[h] == s[h]) <==> (forall k :: 0 <= k < |found| ==> UndoneAt(s, found, ms.trades, k)))
  {
    var r := Match(s, o, makers, now);
    BookRuns.FoundFits(r.store, BookRuns.MakerHashes(r.response.matches), found);
    MatchIsBatch(s, o, makers, now);
    RestoresIff(s, r.store, r.response.matches, found);
  }

  /** The makers themselves, in request order, are an answer, and with them nothing is lost. */
  lemma InOrderAnswer(s: Store, s1: Store, ms: Matches)
    requires IsBatch(s, s1, ms)
    ensures IsFound(s1, BookRuns.MakerHashes(ms), ms.makers)
    ensures forall k :: 0 <= k < |ms.makers| ==> UndoneAt(s, ms.makers, ms.trades, k)
  {
    var hs := BookRuns.MakerHashes(ms);
    forall i | 0 <= i < |ms.makers|
      ensures hs[i] == ms.makers[i].hash && hs[i] in s1 && s1[hs[i]] == ms.makers[i] && UndoneAt(s, ms.makers, ms.trades, i)
    {
      assert IsExecuted(s, s1, ms.taker.hash, ms.makers[i], ms.trades[i]);
    }
    assert forall h :: h in hs ==> exists i :: 0 <= i < |hs| && hs[i] == h;
  }

  lemma BatchInverts(s: Store, s1: Store, ms: Matches)
    requires IsBatch(s, s1, ms)
    ensures var s' := BookRuns.Invalidated(s1, Rollbacks(ms.makers, TradeAmounts(ms.trades)), [ms.taker.hash]);
            ms.taker.hash in s' && s' == s[ms.taker.hash := s'[ms.taker.hash]] && s'[ms.taker.hash].status == Status.Invalidated
  {
    InOrderAnswer(s, s1, ms);
    RestoresIff(s, s1, ms, ms.makers);
    OneMore(s, BookRuns.Invalidated(s1, Rollbacks(ms.makers, TradeAmounts(ms.trades)), [ms.taker.hash]), ms.taker.hash);
  }

  lemma OneMore(s: Store, s': Store, h: Hash)
    requires s'.Keys == s.Keys + {h} && forall k :: k in s && k != h ==> s'[k] == s[k]
    ensures s' == s[h := s'[h]]
  {
  }

  /** With the makers returned in request order, invalidating the taker is the inverse of the
      match on every order of the book but the taker itself. */
  lemma RollbackInverts(s: Store, o: Order, makers: seq<Order>, now: int)
    requires FreshRuns.Consistent(s) && o.Capped() && IsMatching(s, o, makers) && makers != []
    ensures var r := Match(s, o, makers, now);
            var ms := r.response.matches;
            && |ms.makers| == |ms.trades|
            && IsFound(r.store, BookRuns.MakerHashes(ms), ms.makers)
            && var s' := BookRuns.Invalidated(r.store, Rollbacks(ms.makers, TradeAmounts(ms.trades)), [o.hash]);
               o.hash in s' && s' == s[o.hash := s'[o.hash]] && s'[o.hash].status == Status.Invalidated
  {
    var r := Match(s, o, makers, now);
    MatchIsBatch(s, o, makers, now);
    InOrderAnswer(s, r.store, r.response.matches);
    BatchInverts(s, r.store, r.response.matches);
  }

  /** Invalidating makers takes back only the first trade from the taker, whose hash occurs once
      in the answer however often it is asked for: the taker's fill comes out right exactly when
      the other invalidated trades moved nothing. */
  lemma InvalidateMakersTakesBackOne(s: Store, ms: Matches, h: Hash, found: seq<Order>)
    requires WellKeyed(s) && h in s && s[h].InRange()
    requires |ms.makers| == |ms.trades| > 0
    requires forall i :: 0 <= i < |ms.trades| ==> ms.trades[i].taker == h && ms.trades[i].amount >= 0
    requires TradeSum(ms.trades) <= s[h].filled
    requires IsFound(s, BookRuns.TakerHashes(ms), found)
    ensures found == [s[h]]
    ensures Rollbacks(found, TradeAmounts(ms.trades))[0].filled == s[h].filled - TradeSum(ms.trades) <==> TradeSum(ms.trades[1..]) == 0
  {
    var hs := BookRuns.TakerHashes(ms);
    assert hs[0] == h;
    assert s[h] in found;
    forall i | 0 <= i < |found| ensures found[i] == s[h] {
      assert found[i].hash in hs;
    }
    assert |found| >= 2 ==> found[0].hash == found[1].hash;
    assert found == [s[h]];
    TradeSumNatural(ms.trades[1..]);
  }

  lemma {:induction false} TradeSumNatural(ts: seq<Trade>)
    requires forall i :: 0 <= i < |ts| ==> ts[i].amount >= 0
    ensures TradeSum(ts) >= 0
  {
    if ts != [] {
      TradeSumNatural(ts[1..]);
    }
  }
}

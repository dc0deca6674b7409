/** What the feed misses when some matched makers turn out invalid: the update for the whole
    match is skipped, and only the invalidated makers are broadcast later
    (services/order.go:285-291, 301-311). */
module FeedGaps {
  import opened Orders
  import opened OrderStore
  import opened Matching
  import opened Sums
  import opened Feed
  import opened Batches
  import FreshRuns
  import BookRuns

  ghost function LevelsOf(hs: set<Hash>): set<Level> {
    set h | h in hs :: LevelOf(h)
  }

  /** A trade that moves something was made with a maker at the level. */
  ghost predicate Hit(ts: seq<Trade>, l: Level) {
    exists i :: 0 <= i < |ts| && ts[i].amount > 0 && LevelOf(ts[i].maker) == l
  }

  /** A match lowers exactly the levels on the makers' side that it really trades with, whether
      the taker is new or runs again. */
  lemma MatchDrops(s: Store, o: Order, makers: seq<Order>, now: int, l: Level)
    requires WellKeyed(s) && AllCapped(s) && o.Capped() && IsMatching(s, o, makers)
    requires l.side == o.hash.side.Opposite()
    ensures var r := Match(s, o, makers, now);
            if Hit(Trades(r.response), l) then Depth(r.store, l) < Depth(s, l) else Depth(r.store, l) == Depth(s, l)
  {
    FreshRuns.MatchTrades(s, o, makers, now);
    if Hit(Walk(o, o.hash.amount, makers).trades, l) {
      HitDrops(s, o, makers, now, l);
    } else {
      UnhitKeeps(s, o, makers, now, l);
    }
  }

  lemma HitDrops(s: Store, o: Order, makers: seq<Order>, now: int, l: Level)
    requires WellKeyed(s) && AllCapped(s) && o.Capped() && IsMatching(s, o, makers)
    requires l.side == o.hash.side.Opposite() && Hit(Walk(o, o.hash.amount, makers).trades, l)
    ensures Depth(Match(s, o, makers, now).store, l) < Depth(s, l)
  {
    var w := Walk(o, o.hash.amount, makers);
    MatchEffect(s, o, makers, now);
    WalkMakers(o, o.hash.amount, makers);
    var i :| 0 <= i < |w.trades| && w.trades[i].amount > 0 && LevelOf(w.trades[i].maker) == l;
    assert Executed(o.hash, makers[i], w.matched[i], w.trades[i]);
    DepthDrops(s, Match(s, o, makers, now).store, o.hash, makers[i].hash);
  }

  /** A trade of nothing changes a status, but not what the order has to trade. */
  lemma ExecutedWeight(s: Store, s': Store, taker: Hash, m: Order, m': Order, t: Trade, l: Level)
    requires m.hash in s && s[m.hash] == m && m.Live() && m.hash in s' && s'[m.hash] == m'
    requires Executed(taker, m, m', t) && t.amount == 0
    ensures LevelWeight(s', l)(m.hash) == LevelWeight(s, l)(m.hash)
  {
  }

  lemma UnhitKeeps(s: Store, o: Order, makers: seq<Order>, now: int, l: Level)
    requires WellKeyed(s) && AllCapped(s) && o.Capped() && IsMatching(s, o, makers)
    requires l.side == o.hash.side.Opposite() && !Hit(Walk(o, o.hash.amount, makers).trades, l)
    ensures Depth(Match(s, o, makers, now).store, l) == Depth(s, l)
  {
    var w := Walk(o, o.hash.amount, makers);
    var s' := Match(s, o, makers, now).store;
    MatchEffect(s, o, makers, now);
    WalkMakers(o, o.hash.amount, makers);
    forall k | k in s && k != o.hash && LevelOf(k) == l ensures LevelWeight(s', l)(k) == LevelWeight(s, l)(k) {
      if k in HashSet(w.matched) {
        var i :| 0 <= i < |w.matched| && w.matched[i].hash == k;
        assert Executed(o.hash, makers[i], w.matched[i], w.trades[i]);
        assert w.trades[i].maker == k;
        ExecutedWeight(s, s', o.hash, makers[i], w.matched[i], w.trades[i], l);
      }
    }
    DepthKept(s, s', o.hash, l);
  }

  /** An order on the other side does not count, whether it is there or not. */
  lemma DepthBut(s: Store, s': Store, taker: Hash, l: Level)
    requires s'.Keys == s.Keys + {taker} && LevelOf(taker) != l
    ensures Depth(s', l) == Sum(s.Keys, LevelWeight(s', l))
  {
    if taker in s {
      assert s'.Keys == s.Keys;
    } else {
      SumAdd(s.Keys, LevelWeight(s', l), taker);
    }
  }

  lemma DepthDrops(s: Store, s': Store, taker: Hash, h: Hash)
    requires AllCapped(s) && s'.Keys == s.Keys + {taker} && taker.side == h.side.Opposite()
    requires forall k :: k in s && k != taker ==> Advanced(s[k], s'[k])
    requires h in s && s[h].Live() && s[h].filled < s'[h].filled
    ensures Depth(s', LevelOf(h)) < Depth(s, LevelOf(h))
  {
    var l := LevelOf(h);
    DepthBut(s, s', taker, l);
    forall k | k in s ensures LevelWeight(s', l)(k) <= LevelWeight(s, l)(k) {
      if k != taker {
        assert Advanced(s[k], s'[k]);
      }
    }
    assert Advanced(s[h], s'[h]);
    SumLt(s.Keys, LevelWeight(s', l), LevelWeight(s, l), h);
  }

  lemma DepthKept(s: Store, s': Store, taker: Hash, l: Level)
    requires s'.Keys == s.Keys + {taker} && LevelOf(taker) != l
    requires forall k :: k in s && k != taker && LevelOf(k) == l ==> LevelWeight(s', l)(k) == LevelWeight(s, l)(k)
    ensures Depth(s', l) == Depth(s, l)
  {
    DepthBut(s, s', taker, l);
    SumSame(s.Keys, LevelWeight(s', l), LevelWeight(s, l));
  }

  /** A batch of trades of one taker with makers of one pair on the other side. */
  ghost predicate OneSided(bad: Matches, taker: Hash) {
    && |bad.makers| == |bad.trades|
    && forall i :: 0 <= i < |bad.trades| ==>
         && bad.trades[i].taker == taker
         && bad.trades[i].maker.side == taker.side.Opposite()
         && bad.trades[i].maker.base == taker.base && bad.trades[i].maker.quote == taker.quote
  }

  /** Invalidating makers changes, on their side, only the levels they stand at. */
  lemma InvalidateDepth(s: Store, taker: Hash, bad: Matches, found: seq<Order>, l: Level)
    requires WellKeyed(s) && OneSided(bad, taker)
    requires IsFound(s, BookRuns.TakerHashes(bad), found) && |found| <= |bad.trades|
    requires l.side == taker.side.Opposite() && l !in LevelsOf(set h | h in BookRuns.MakerHashes(bad))
    ensures Depth(BookRuns.Invalidated(s, Rollbacks(found, TradeAmounts(bad.trades)), BookRuns.MakerHashes(bad)), l) == Depth(s, l)
  {
    var hs := set h | h in BookRuns.MakerHashes(bad);
    InvalidatedElsewhere(s, taker, bad, found);
    forall h | h in hs ensures LevelOf(h) != l {
      assert LevelOf(h) in LevelsOf(hs);
    }
    DepthElsewhere(s, BookRuns.Invalidated(s, Rollbacks(found, TradeAmounts(bad.trades)), BookRuns.MakerHashes(bad)), taker, hs, l);
  }

  lemma InvalidatedElsewhere(s: Store, taker: Hash, bad: Matches, found: seq<Order>)
    requires WellKeyed(s) && OneSided(bad, taker)
    requires IsFound(s, BookRuns.TakerHashes(bad), found) && |found| <= |bad.trades|
    ensures var s' := BookRuns.Invalidated(s, Rollbacks(found, TradeAmounts(bad.trades)), BookRuns.MakerHashes(bad));
            && s'.Keys == s.Keys
            && forall h :: h in s && h != taker && h !in BookRuns.MakerHashes(bad) ==> s'[h] == s[h]
  {
    var updated := Rollbacks(found, TradeAmounts(bad.trades));
    BookRuns.RollbacksFit(s, BookRuns.TakerHashes(bad), found, TradeAmounts(bad.trades));
    BookRuns.InvalidatedAt(s, updated, BookRuns.MakerHashes(bad));
    forall h | h in HashSet(found) ensures h == taker {
      assert h in BookRuns.TakerHashes(bad);
    }
  }

  lemma DepthElsewhere(s: Store, s': Store, taker: Hash, changed: set<Hash>, l: Level)
    requires s'.Keys == s.Keys && LevelOf(taker) != l && forall h :: h in changed ==> LevelOf(h) != l
    requires forall h :: h in s && h != taker && h !in changed ==> s'[h] == s[h]
    ensures Depth(s', l) == Depth(s, l)
  {
    SumSame(s.Keys, LevelWeight(s', l), LevelWeight(s, l));
  }

  /** The levels broadcast for the invalidated makers are the levels they stand at. */
  lemma InvalidatedLevels(s: Store, taker: Hash, bad: Matches, invalidated: seq<Order>)
    requires WellKeyed(s) && OneSided(bad, taker)
    requires forall h :: h in BookRuns.MakerHashes(bad) ==> h in s
    requires IsFound(s, BookRuns.MakerHashes(bad), invalidated)
    ensures Levels(TradesCancelled(invalidated)) == LevelsOf(set h | h in BookRuns.MakerHashes(bad))
  {
    var hs := BookRuns.MakerHashes(bad);
    forall i | 0 <= i < |invalidated| ensures invalidated[i].hash.base == taker.base && invalidated[i].hash.quote == taker.quote {
      assert invalidated[i].hash in hs;
    }
    forall i | 0 <= i < |invalidated|
      ensures LevelOf(invalidated[i].hash) in LevelsOf(set h | h in hs)
      ensures LevelOf(invalidated[i].hash) == Level(invalidated[0].hash.base, invalidated[0].hash.quote, invalidated[i].hash.side, invalidated[i].hash.price)
    {
      assert invalidated[i].hash in hs;
    }
    forall h | h in hs ensures LevelOf(h) in Levels(TradesCancelled(invalidated)) {
      assert s[h] in invalidated;
      var i :| 0 <= i < |invalidated| && invalidated[i] == s[h];
      assert LevelOf(invalidated[i].hash) == LevelOf(h);
    }
  }

  /** The same from the state after the match, with the depth before it as a number. */
  lemma SkippedAfter(s1: Store, taker: Hash, bad: Matches, found: seq<Order>, invalidated: seq<Order>,
                     shown: map<Level, int>, l: Level, touched: bool)
    requires WellKeyed(s1) && AllCapped(s1) && OneSided(bad, taker)
    requires forall h :: h in BookRuns.MakerHashes(bad) ==> h in s1
    requires IsFound(s1, BookRuns.TakerHashes(bad), found) && |found| <= |bad.trades|
    requires var s2 := BookRuns.Invalidated(s1, Rollbacks(found, TradeAmounts(bad.trades)), BookRuns.MakerHashes(bad));
             IsFound(s2, BookRuns.MakerHashes(bad), invalidated)
    requires l.side == taker.side.Opposite()
    requires if touched then Depth(s1, l) < Amount(shown, l) else Depth(s1, l) == Amount(shown, l)
    ensures var s2 := BookRuns.Invalidated(s1, Rollbacks(found, TradeAmounts(bad.trades)), BookRuns.MakerHashes(bad));
            var shown' := Refresh(shown, s2, Levels(TradesCancelled(invalidated)));
            Amount(shown', l) == Depth(s2, l) <==> l in LevelsOf(set h | h in BookRuns.MakerHashes(bad)) || !touched
  {
    var hs := BookRuns.MakerHashes(bad);
    var s2 := BookRuns.Invalidated(s1, Rollbacks(found, TradeAmounts(bad.trades)), hs);
    BookRuns.RollbackEffect(s1, BookRuns.TakerHashes(bad), found, TradeAmounts(bad.trades), hs);
    InvalidatedLevels(s2, taker, bad, invalidated);
    if l !in LevelsOf(set h | h in hs) {
      InvalidateDepth(s1, taker, bad, found, l);
    }
  }

  /** The invalid half of a match is one-sided, and its makers are stored orders. */
  lemma InvalidHalf(s: Store, o: Order, makers: seq<Order>, now: int, valid: seq<bool>)
    requires AllCapped(s) && o.Capped() && IsMatching(s, o, makers) && makers != []
    requires var ms := Match(s, o, makers, now).response.matches; |valid| == |ms.makers| == |ms.trades|
    ensures var bad := PickMatches(Match(s, o, makers, now).response.matches, valid, false);
            OneSided(bad, o.hash) && forall h :: h in BookRuns.MakerHashes(bad) ==> h in s
  {
    var ms := Match(s, o, makers, now).response.matches;
    var bad := PickMatches(ms, valid, false);
    MatchAligned(s, o, makers, now);
    PickAligned(ms, valid, false);
    TakenEffect(o, makers);
    FreshRuns.MatchedHashes(o, makers);
    forall i | 0 <= i < |bad.trades|
      ensures var h := bad.trades[i].maker;
              h in s && h.side == o.hash.side.Opposite() && h.base == o.hash.base && h.quote == o.hash.quote
    {
      assert bad.makers[i] in ms.makers;
      var k :| 0 <= k < |ms.makers| && ms.makers[k] == bad.makers[i];
      assert ms.makers[k].hash == makers[k].hash && Crosses(makers[k], o);
    }
  }

  /** The service has checked the makers of a match one by one, and some are invalid: so the match
      is not broadcast, the invalid makers are invalidated, and their levels are broadcast. A
      client that was right about a level on the makers' side before the match is right about it
      afterwards exactly when an invalid maker stands there or nothing was really traded there:
      the levels where only valid makers were hit stay wrong. The taker may be new or run again. */
  lemma SkippedBroadcast(s: Store, o: Order, makers: seq<Order>, now: int, valid: seq<bool>, bad: Matches, found: seq<Order>,
                         invalidated: seq<Order>, shown: map<Level, int>, l: Level)
    requires WellKeyed(s) && AllCapped(s) && o.Capped() && IsMatching(s, o, makers) && makers != []
    requires var ms := Match(s, o, makers, now).response.matches;
             && |valid| == |ms.makers| == |ms.trades|
             && bad == PickMatches(ms, valid, false) && bad.trades != []
    requires |bad.makers| == |bad.trades| && IsFound(Match(s, o, makers, now).store, BookRuns.TakerHashes(bad), found) && |found| <= |bad.trades|
    requires var s2 := BookRuns.Invalidated(Match(s, o, makers, now).store, Rollbacks(found, TradeAmounts(bad.trades)), BookRuns.MakerHashes(bad));
             IsFound(s2, BookRuns.MakerHashes(bad), invalidated)
    requires l.side == o.hash.side.Opposite() && Amount(shown, l) == Depth(s, l)
    ensures var s2 := BookRuns.Invalidated(Match(s, o, makers, now).store, Rollbacks(found, TradeAmounts(bad.trades)), BookRuns.MakerHashes(bad));
            var shown' := Refresh(shown, s2, Levels(TradesCancelled(invalidated)));
            Amount(shown', l) == Depth(s2, l) <==>
              || l in LevelsOf(set h | h in BookRuns.MakerHashes(bad))
              || !Hit(Match(s, o, makers, now).response.matches.trades, l)
  {
    MatchEffect(s, o, makers, now);
    BookRuns.MatchCapped(s, o, makers, now);
    MatchDrops(s, o, makers, now, l);
    InvalidHalf(s, o, makers, now, valid);
    SkippedAfter(Match(s, o, makers, now).store, o.hash, bad, found, invalidated, shown, l,
                 Hit(Match(s, o, makers, now).response.matches.trades, l));
  }
}

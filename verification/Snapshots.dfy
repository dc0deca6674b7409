/** The aggregated book a subscriber is sent: one list of price levels a side, best price first
    (daos/order.go:544-612, services/orderbook.go:34-93). */
module Snapshots {
  import opened Options
  import opened Orders
  import opened OrderStore
  import opened Feed

  /** a comes before b in the list of its side: bids descending, asks ascending. */
  predicate Better(a: Level, b: Level) {
    if a.side.Buy? then a.price > b.price else a.price < b.price
  }

  /** The levels of one side of one pair at which live orders stand. */
  function SideLevels(s: Store, base: Token, quote: Token, side: Side): set<Level> {
    set h | h in s && s[h].Live() && h.base == base && h.quote == quote && h.side == side :: LevelOf(h)
  }

  predicate OneSide(ls: set<Level>) {
    forall a, b :: a in ls && b in ls ==> a == b.(price := a.price)
  }

  predicate BestFirst(ls: seq<Level>) {
    forall i, j :: 0 <= i < j < |ls| ==> Better(ls[i], ls[j])
  }

  method BestLevel(ls: set<Level>) returns (best: Level)
    requires ls != {} && OneSide(ls)
    ensures best in ls && forall l :: l in ls && l != best ==> Better(best, l)
  {
    best :| best in ls;
    var rest := ls - {best};
    while rest != {}
      invariant rest <= ls && best in ls && best !in rest
      invariant forall l :: l in ls && l !in rest && l != best ==> Better(best, l)
      decreases |rest|
    {
      var l :| l in rest;
      rest := rest - {l};
      if Better(l, best) {
        best := l;
      }
    }
  }

  ghost predicate AllBetter(ls: seq<Level>, rest: set<Level>) {
    forall i, l :: 0 <= i < |ls| && l in rest ==> Better(ls[i], l)
  }

  lemma AppendBest(sorted: seq<Level>, best: Level, rest: set<Level>)
    requires BestFirst(sorted) && AllBetter(sorted, rest) && best in rest
    requires forall l :: l in rest && l != best ==> Better(best, l)
    ensures BestFirst(sorted + [best]) && AllBetter(sorted + [best], rest - {best})
    ensures (set l | l in sorted + [best]) == (set l | l in sorted) + {best}
  {
  }

  method SortedLevels(ls: set<Level>) returns (sorted: seq<Level>)
    requires OneSide(ls)
    ensures BestFirst(sorted) && (set l | l in sorted) == ls
  {
    sorted := [];
    var rest := ls;
    while rest != {}
      invariant rest <= ls && BestFirst(sorted)
      invariant (set l | l in sorted) == ls - rest
      invariant AllBetter(sorted, rest)
      decreases |rest|
    {
      var best := BestLevel(rest);
      AppendBest(sorted, best, rest);
      sorted := sorted + [best];
      rest := rest - {best};
    }
  }

  function LevelList(us: seq<Update>): (ls: seq<Level>)
    ensures |ls| == |us| && forall i :: 0 <= i < |ls| ==> ls[i] == us[i].level
  {
    seq(|us|, i requires 0 <= i < |us| => us[i].level)
  }

  /** The list of one side: the levels at which live orders stand, each with the total they have
      left, best price first; with a limit, the best of them only. */
  method GetSideOrderBook(s: Store, base: Token, quote: Token, side: Side, limit: Option<nat>) returns (us: seq<Update>)
    ensures BestFirst(LevelList(us))
    ensures forall i, j :: 0 <= i < j < |us| ==>
              if side == Buy then us[i].level.price > us[j].level.price else us[i].level.price < us[j].level.price
    ensures forall i :: 0 <= i < |us| ==> us[i].amount == Depth(s, us[i].level)
    ensures (set l | l in LevelList(us)) <= SideLevels(s, base, quote, side)
    ensures limit == None ==> (set l | l in LevelList(us)) == SideLevels(s, base, quote, side)
    ensures limit.Some? ==> |us| <= limit.value
    ensures forall l :: l in SideLevels(s, base, quote, side) && l !in LevelList(us) ==>
              limit.Some? && |us| == limit.value && forall i :: 0 <= i < |us| ==> Better(us[i].level, l)
  {
    var all := SideLevels(s, base, quote, side);
    var sorted := SortedLevels(all);
    var n := if limit.Some? && limit.value < |sorted| then limit.value else |sorted|;
    us := [];
    while |us| < n
      invariant |us| <= n
      invariant LevelList(us) == sorted[..|us|]
      invariant forall i :: 0 <= i < |us| ==> us[i].amount == Depth(s, us[i].level)
    {
      var l := sorted[|us|];
      var found := GetOrderBookPricePoint(s, l);
      us := us + [Update(l, if found == None then 0 else found.value)];
    }
    Cut(sorted, n, all);
    assert LevelList(us) == sorted[..n];
    InPriceOrder(us, all, side);
  }

  lemma InPriceOrder(us: seq<Update>, all: set<Level>, side: Side)
    requires BestFirst(LevelList(us)) && (set l | l in LevelList(us)) <= all && forall l :: l in all ==> l.side == side
    ensures forall i, j :: 0 <= i < j < |us| ==>
              if side == Buy then us[i].level.price > us[j].level.price else us[i].level.price < us[j].level.price
  {
    forall i, j | 0 <= i < j < |us|
      ensures if side == Buy then us[i].level.price > us[j].level.price else us[i].level.price < us[j].level.price
    {
      assert Better(LevelList(us)[i], LevelList(us)[j]) && LevelList(us)[i] in all;
    }
  }

  /** What a prefix of a sorted list leaves out is worse than what it keeps. */
  lemma Cut(sorted: seq<Level>, n: nat, all: set<Level>)
    requires n <= |sorted| && BestFirst(sorted) && (set l | l in sorted) == all
    ensures BestFirst(sorted[..n]) && (set l | l in sorted[..n]) <= all
    ensures n == |sorted| ==> sorted[..n] == sorted
    ensures forall l :: l in all && l !in sorted[..n] ==> n < |sorted| && forall i :: 0 <= i < n ==> Better(sorted[i], l)
  {
    assert forall k :: 0 <= k < n ==> sorted[..n][k] == sorted[k];
    forall l | l in all && l !in sorted[..n] ensures n < |sorted| && forall i :: 0 <= i < n ==> Better(sorted[i], l) {
      var k :| 0 <= k < |sorted| && sorted[k] == l;
    }
    assert forall l :: l in sorted[..n] ==> l in sorted;
  }

  /** The two lists together carry the snapshot: a client that starts from them shows the
      aggregated book of the pair. */
  method GetOrderBook(s: Store, base: Token, quote: Token) returns (bids: seq<Update>, asks: seq<Update>)
    ensures forall i, j :: 0 <= i < j < |bids| ==> bids[i].level.price > bids[j].level.price
    ensures forall i, j :: 0 <= i < j < |asks| ==> asks[i].level.price < asks[j].level.price
    ensures (forall u :: u in bids ==> u.level.side == Buy) && (forall u :: u in asks ==> u.level.side == Sell)
    ensures Apply(map[], bids + asks) == Snapshot(s, base, quote)
  {
    bids := GetSideOrderBook(s, base, quote, Buy, None);
    asks := GetSideOrderBook(s, base, quote, Sell, None);
    ListedSide(bids, SideLevels(s, base, quote, Buy), Buy);
    ListedSide(asks, SideLevels(s, base, quote, Sell), Sell);
    BothSides(s, base, quote, bids, asks);
    ApplyRefreshes(map[], s, bids + asks);
  }

  lemma ListedSide(us: seq<Update>, ls: set<Level>, side: Side)
    requires (set l | l in LevelList(us)) == ls && forall l :: l in ls ==> l.side == side
    ensures forall u :: u in us ==> u.level.side == side
  {
    forall i | 0 <= i < |us| ensures us[i].level.side == side {
      assert LevelList(us)[i] in ls;
    }
  }

  lemma BothSides(s: Store, base: Token, quote: Token, bids: seq<Update>, asks: seq<Update>)
    requires (set l | l in LevelList(bids)) == SideLevels(s, base, quote, Buy)
    requires (set l | l in LevelList(asks)) == SideLevels(s, base, quote, Sell)
    ensures (set u | u in bids + asks :: u.level) == LiveLevels(s, base, quote)
  {
    LevelSet(bids);
    LevelSet(asks);
    assert (set u | u in bids + asks :: u.level) == (set u | u in bids :: u.level) + (set u | u in asks :: u.level);
    assert LiveLevels(s, base, quote) == SideLevels(s, base, quote, Buy) + SideLevels(s, base, quote, Sell);
  }

  lemma LevelSet(us: seq<Update>)
    ensures (set u | u in us :: u.level) == set l | l in LevelList(us)
  {
    forall u | u in us ensures u.level in LevelList(us) {
      var i :| 0 <= i < |us| && us[i] == u;
      assert LevelList(us)[i] == u.level;
    }
    forall l | l in LevelList(us) ensures l in set u | u in us :: u.level {
      var i :| 0 <= i < |us| && LevelList(us)[i] == l;
      assert us[i] in us;
    }
  }
}

/** The aggregated order book and the feed that keeps clients up to date with it
    (daos/order.go:544-657, services/order.go:226-299, 508-550). */
module Feed {
  import opened Options
  import opened Orders
  import opened OrderStore
  import opened Matching
  import opened Sums
  import FreshRuns

  datatype Level = Level(base: Token, quote: Token, side: Side, price: int)

  function LevelOf(h: Hash): Level {
    Level(h.base, h.quote, h.side, h.price)
  }

  predicate AtLevel(s: Store, l: Level, h: Hash) {
    h in s && s[h].Live() && LevelOf(h) == l
  }

  ghost function LevelWeight(s: Store, l: Level): Hash -> int {
    h => if AtLevel(s, l, h) then s[h].Remaining() else 0
  }

  /** What the book still has to trade at a level. */
  ghost function Depth(s: Store, l: Level): int {
    Sum(s.Keys, LevelWeight(s, l))
  }

  /** The aggregation for one price point; None when no live order stands there. */
  method GetOrderBookPricePoint(s: Store, l: Level) returns (amount: Option<int>)
    ensures amount == None <==> forall h :: h in s ==> !AtLevel(s, l, h)
    ensures Depth(s, l) == if amount == None then 0 else amount.value
  {
    var total, any := 0, false;
    var rest := s.Keys;
    while rest != {}
      invariant rest <= s.Keys
      invariant any <==> exists h :: h in s && h !in rest && AtLevel(s, l, h)
      invariant !any ==> total == 0
      invariant total + Sum(rest, LevelWeight(s, l)) == Depth(s, l)
      decreases |rest|
    {
      var h :| h in rest;
      SumRemove(rest, LevelWeight(s, l), h);
      rest := rest - {h};
      if AtLevel(s, l, h) {
        any, total := true, total + s[h].Remaining();
      }
    }
    amount := if any then Some(total) else None;
  }

  /** What a level adds up: nothing in an empty book, and of each order only what is left of it if
      it is live and stands at the level. */
  lemma DepthInsert(s: Store, o: Order, l: Level)
    requires o.hash !in s
    ensures Depth(map[], l) == 0
    ensures Depth(s[o.hash := o], l) == Depth(s, l) +
              if (o.status == Open || o.status == PartialFilled) && o.hash.base == l.base && o.hash.quote == l.quote
                 && o.hash.side == l.side && o.hash.price == l.price
              then o.hash.amount - o.filled else 0
  {
    var s' := s[o.hash := o];
    assert s'.Keys == s.Keys + {o.hash};
    SumAdd(s.Keys, LevelWeight(s', l), o.hash);
    SumSame(s.Keys, LevelWeight(s', l), LevelWeight(s, l));
  }

  datatype Update = Update(level: Level, amount: int)

  /** The message sent for a list of orders: for each, the current total at its price point,
      looked up under the pair of the first. */
  method BroadcastOrderBookUpdate(s: Store, orders: seq<Order>) returns (bids: seq<Update>, asks: seq<Update>)
    requires orders != []
    ensures forall u :: u in bids || u in asks ==> u.amount == Depth(s, u.level)
    ensures (set u | u in bids + asks :: u.level) ==
              set i | 0 <= i < |orders| :: Level(orders[0].hash.base, orders[0].hash.quote, orders[i].hash.side, orders[i].hash.price)
    ensures forall u :: (u in bids ==> u.level.side == Buy) && (u in asks ==> u.level.side == Sell)
  {
    bids, asks := [], [];
    ghost var done: seq<Update> := [];
    var i := 0;
    while i < |orders|
      invariant 0 <= i == |done| <= |orders|
      invariant forall u :: u in bids || u in asks <==> u in done
      invariant forall u :: (u in bids ==> u.level.side == Buy) && (u in asks ==> u.level.side == Sell)
      invariant forall j :: 0 <= j < i ==> done[j] == Update(PricePoint(orders, j), Depth(s, PricePoint(orders, j)))
    {
      var l := PricePoint(orders, i);
      var found := GetOrderBookPricePoint(s, l);
      var update := Update(l, if found == None then 0 else found.value);
      if l.side == Buy {
        bids := bids + [update];
      } else {
        asks := asks + [update];
      }
      done := done + [update];
      i := i + 1;
    }
    UpdateLevels(bids, asks, orders, done);
  }

  /** The price point of the j-th order, under the pair of the first. */
  function PricePoint(orders: seq<Order>, j: nat): (l: Level)
    requires j < |orders|
    ensures l == Level(orders[0].hash.base, orders[0].hash.quote, orders[j].hash.side, orders[j].hash.price)
  {
    Level(orders[0].hash.base, orders[0].hash.quote, orders[j].hash.side, orders[j].hash.price)
  }

  lemma UpdateLevels(bids: seq<Update>, asks: seq<Update>, orders: seq<Order>, done: seq<Update>)
    requires orders != [] && |done| == |orders| && forall u :: u in bids || u in asks <==> u in done
    requires forall j :: 0 <= j < |orders| ==> done[j].level == PricePoint(orders, j)
    ensures (set u | u in bids + asks :: u.level) ==
              set i | 0 <= i < |orders| :: Level(orders[0].hash.base, orders[0].hash.quote, orders[i].hash.side, orders[i].hash.price)
  {
    var ls := set u | u in bids + asks :: u.level;
    var ps := set i | 0 <= i < |orders| :: Level(orders[0].hash.base, orders[0].hash.quote, orders[i].hash.side, orders[i].hash.price);
    forall l | l in ps ensures l in ls {
      var i :| 0 <= i < |orders| && l == Level(orders[0].hash.base, orders[0].hash.quote, orders[i].hash.side, orders[i].hash.price);
      assert done[i].level == PricePoint(orders, i);
      assert done[i] in done && done[i] in bids + asks;
    }
    forall l | l in ls ensures l in ps {
      var u :| u in bids + asks && u.level == l;
      assert u in done;
      var i :| 0 <= i < |done| && done[i] == u;
      assert done[i].level == PricePoint(orders, i);
    }
  }

  /** A client that replaces the levels it is told about. */
  function Apply(shown: map<Level, int>, us: seq<Update>): map<Level, int>
    decreases |us|
  {
    if us == [] then shown else Apply(shown[us[0].level := us[0].amount], us[1..])
  }

  ghost function Refresh(shown: map<Level, int>, s: Store, ls: set<Level>): map<Level, int> {
    shown + map l | l in ls :: Depth(s, l)
  }

  lemma RefreshOneMore(shown: map<Level, int>, s: Store, l: Level, ls: set<Level>)
    ensures Refresh(shown[l := Depth(s, l)], s, ls) == Refresh(shown, s, {l} + ls)
  {
  }

  /** Truthful updates, in whatever order, bring exactly their levels up to date. */
  lemma {:induction false} ApplyRefreshes(shown: map<Level, int>, s: Store, us: seq<Update>)
    requires forall i :: 0 <= i < |us| ==> us[i].amount == Depth(s, us[i].level)
    ensures Apply(shown, us) == Refresh(shown, s, set u | u in us :: u.level)
    decreases |us|
  {
    if us == [] {
      assert (set u | u in us :: u.level) == {};
    } else {
      var l, rest := us[0].level, us[1..];
      ApplyRefreshes(shown[l := us[0].amount], s, rest);
      assert (set u | u in us :: u.level) == {l} + set u | u in rest :: u.level by {
        assert us == [us[0]] + rest;
      }
      RefreshOneMore(shown, s, l, set u | u in rest :: u.level);
    }
  }

  function Amount(shown: map<Level, int>, l: Level): int {
    if l in shown then shown[l] else 0
  }

  // ---- the feed over a run ----

  /** The orders a response handler broadcasts when every maker is still valid. */
  function Broadcast(r: Response): (os: seq<Order>)
    ensures r.OrderAdded? || r.OrderFilled? || r.OrderPartiallyFilled? || r.OrderCancelled? ==> os != []
  {
    match r
    case OrderAdded(o) => [o]
    case OrderFilled(o, ms) => [o] + ms.makers
    case OrderPartiallyFilled(o, ms) => [o] + ms.makers
    case OrderCancelled(o) => [o]
    case TradesCancelled(os) => os
  }

  ghost function Levels(r: Response): set<Level> {
    var os := Broadcast(r);
    set i | 0 <= i < |os| :: Level(os[0].hash.base, os[0].hash.quote, os[i].hash.side, os[i].hash.price)
  }

  /** Handling a response whose makers are all valid brings a client up to date on the levels
      the response touches. */
  method HandleResponse(s: Store, r: Response, shown: map<Level, int>) returns (shown': map<Level, int>)
    ensures shown' == Refresh(shown, s, Levels(r))
  {
    var orders := Broadcast(r);
    if |orders| == 0 {
      return shown;
    }
    var bids, asks := BroadcastOrderBookUpdate(s, orders);
    shown' := Apply(shown, bids + asks);
    ApplyRefreshes(shown, s, bids + asks);
  }

  /** The stored orders, the engine responses nobody has handled yet, and what a client shows. */
  datatype Feed = Feed(orders: Store, responses: multiset<Response>, shown: map<Level, int>)

  datatype Event =
    | Submit(o: Order, makers: seq<Order>, now: int)
    | Cancel(o: Order)
    | Handle(r: Response)
    | Connect(base: Token, quote: Token)

  predicate OfPair(l: Level, base: Token, quote: Token) {
    l.base == base && l.quote == quote
  }

  ghost function LiveLevels(s: Store, base: Token, quote: Token): set<Level> {
    set h | h in s && s[h].Live() && OfPair(LevelOf(h), base, quote) :: LevelOf(h)
  }

  /** The aggregated book of a pair, sent to a client that subscribes to it. */
  ghost function Snapshot(s: Store, base: Token, quote: Token): map<Level, int> {
    map l | l in LiveLevels(s, base, quote) :: Depth(s, l)
  }

  /** The client drops what it showed for the pair and shows the snapshot instead. */
  ghost function Opened(shown: map<Level, int>, s: Store, base: Token, quote: Token): map<Level, int> {
    (map l | l in shown && !OfPair(l, base, quote) :: shown[l]) + Snapshot(s, base, quote)
  }

  ghost predicate Step(f: Feed, e: Event, f': Feed) {
    match e
    case Submit(o, makers, now) =>
      && FreshRuns.Fresh(f.orders, o)
      && IsMatching(f.orders, o, makers)
      && var r := Match(f.orders, o, makers, now);
         f' == Feed(r.store, f.responses + multiset{r.response}, f.shown)
    case Cancel(o) =>
      && o.hash in f.orders
      && f' == Feed(SetStatus(f.orders, o.hash, Cancelled), f.responses + multiset{OrderCancelled(o.(status := Cancelled))}, f.shown)
    case Handle(r) =>
      && r in f.responses
      && f' == Feed(f.orders, f.responses - multiset{r}, Refresh(f.shown, f.orders, Levels(r)))
    case Connect(base, quote) =>
      f' == f.(shown := Opened(f.shown, f.orders, base, quote))
  }

  ghost predicate StepAt(states: seq<Feed>, events: seq<Event>, i: nat)
    requires i < |events| && |states| == |events| + 1
  {
    Step(states[i], events[i], states[i + 1])
  }

  ghost predicate IsRun(states: seq<Feed>, events: seq<Event>) {
    && |states| == |events| + 1
    && states[0] == Feed(map[], multiset{}, map[])
    && forall i :: 0 <= i < |events| ==> StepAt(states, events, i)
  }

  ghost predicate Outstanding(f: Feed, l: Level) {
    exists r :: r in f.responses && l in Levels(r)
  }

  /** A level the client shows wrongly is touched by a response that is still to be handled. */
  ghost predicate UpToDate(f: Feed) {
    forall l :: Amount(f.shown, l) == Depth(f.orders, l) || Outstanding(f, l)
  }

  /** A match changes no level outside those its response names. */
  lemma MatchDepth(s: Store, o: Order, makers: seq<Order>, now: int, l: Level)
    requires FreshRuns.Consistent(s) && FreshRuns.Fresh(s, o) && IsMatching(s, o, makers)
    requires l !in Levels(Match(s, o, makers, now).response)
    ensures Depth(Match(s, o, makers, now).store, l) == Depth(s, l)
  {
    var r := Match(s, o, makers, now);
    FreshRuns.MakersRest(s, o, makers);
    MatchEffect(s, o, makers, now);
    MatchLevels(s, o, makers, now);
    var w := Walk(o, o.hash.amount, makers);
    DepthUnchanged(s, r.store, o.hash, HashSet(w.matched), l);
  }

  /** Only the levels of the changed orders and of the added one can differ. */
  lemma DepthUnchanged(s: Store, s': Store, added: Hash, changed: set<Hash>, l: Level)
    requires added !in s && s'.Keys == s.Keys + {added} && LevelOf(added) != l
    requires forall h :: h in s && h !in changed ==> s'[h] == s[h]
    requires forall h :: h in changed ==> LevelOf(h) != l
    ensures Depth(s', l) == Depth(s, l)
  {
    SumAdd(s.Keys, LevelWeight(s', l), added);
    SumSame(s.Keys, LevelWeight(s', l), LevelWeight(s, l));
  }

  lemma MatchLevels(s: Store, o: Order, makers: seq<Order>, now: int)
    requires FreshRuns.Consistent(s) && FreshRuns.Fresh(s, o) && IsMatching(s, o, makers)
    ensures var ls := Levels(Match(s, o, makers, now).response);
            && LevelOf(o.hash) in ls
            && forall h :: h in HashSet(Walk(o, o.hash.amount, makers).matched) ==> LevelOf(h) in ls
  {
    var r := Match(s, o, makers, now).response;
    var w := Walk(o, o.hash.amount, makers);
    FreshRuns.MakersRest(s, o, makers);
    TakenEffect(o, makers);
    WalkMakers(o, o.hash.amount, makers);
    var os := Broadcast(r);
    assert os[0].hash == o.hash;
    forall i | 0 <= i < |w.matched| ensures LevelOf(w.matched[i].hash) in Levels(r) {
      assert Executed(o.hash, makers[i], w.matched[i], w.trades[i]);
      assert os[i + 1] == w.matched[i];
    }
  }

  lemma CancelDepth(s: Store, h: Hash, l: Level)
    requires l != LevelOf(h)
    ensures Depth(SetStatus(s, h, Cancelled), l) == Depth(s, l)
  {
    var s' := SetStatus(s, h, Cancelled);
    assert s'.Keys == s.Keys;
    SumSame(s.Keys, LevelWeight(s', l), LevelWeight(s, l));
  }

  /** Cancelling a live order takes what is left of it out of its level. */
  lemma CancelLowers(s: Store, h: Hash)
    requires h in s && s[h].hash == h
    ensures Depth(SetStatus(s, h, Cancelled), LevelOf(h)) == Depth(s, LevelOf(h)) - if s[h].Live() then h.amount - s[h].filled else 0
  {
    var s', l := SetStatus(s, h, Cancelled), LevelOf(h);
    assert s'.Keys == s.Keys;
    SumShift(s.Keys, LevelWeight(s, l), LevelWeight(s', l), h);
  }

  /** A level that is not in the snapshot has nothing in it. */
  lemma SnapshotShows(s: Store, l: Level)
    requires WellKeyed(s)
    ensures Amount(Snapshot(s, l.base, l.quote), l) == Depth(s, l)
  {
    if l !in Snapshot(s, l.base, l.quote) {
      forall h | h in s ensures LevelWeight(s, l)(h) == 0 {
        assert AtLevel(s, l, h) ==> LevelOf(h) in LiveLevels(s, l.base, l.quote);
      }
      SumZero(s.Keys, LevelWeight(s, l));
    }
  }

  /** The pair is shown as it is, and what is shown of other pairs stays. */
  lemma OpenedShows(shown: map<Level, int>, s: Store, base: Token, quote: Token, l: Level)
    requires WellKeyed(s)
    ensures Amount(Opened(shown, s, base, quote), l) == if OfPair(l, base, quote) then Depth(s, l) else Amount(shown, l)
  {
    if OfPair(l, base, quote) {
      SnapshotShows(s, l);
    }
  }

  lemma {:induction false} SumZero(keys: set<Hash>, f: Hash -> int)
    requires forall k :: k in keys ==> f(k) == 0
    ensures Sum(keys, f) == 0
    decreases |keys|
  {
    if keys != {} {
      var k :| k in keys;
      SumRemove(keys, f, k);
      SumZero(keys - {k}, f);
    }
  }

  lemma UpToDateSubmit(f: Feed, o: Order, makers: seq<Order>, now: int, f': Feed)
    requires FreshRuns.Consistent(f.orders) && UpToDate(f) && Step(f, Submit(o, makers, now), f')
    ensures UpToDate(f')
  {
    var r := Match(f.orders, o, makers, now).response;
    assert r in f'.responses;
    forall l ensures Amount(f'.shown, l) == Depth(f'.orders, l) || Outstanding(f', l) {
      StillOutstanding(f, f', l);
      if l !in Levels(r) {
        MatchDepth(f.orders, o, makers, now, l);
      }
    }
  }

  lemma UpToDateCancel(f: Feed, o: Order, f': Feed)
    requires UpToDate(f) && Step(f, Cancel(o), f')
    ensures UpToDate(f')
  {
    var r := OrderCancelled(o.(status := Cancelled));
    assert r in f'.responses;
    assert Broadcast(r)[0].hash == o.hash;
    forall l ensures Amount(f'.shown, l) == Depth(f'.orders, l) || Outstanding(f', l) {
      StillOutstanding(f, f', l);
      if l == LevelOf(o.hash) {
        assert l in Levels(r);
      } else {
        CancelDepth(f.orders, o.hash, l);
      }
    }
  }

  lemma UpToDateHandle(f: Feed, r: Response, f': Feed)
    requires UpToDate(f) && Step(f, Handle(r), f')
    ensures UpToDate(f')
  {
    forall l ensures Amount(f'.shown, l) == Depth(f'.orders, l) || Outstanding(f', l) {
      if l !in Levels(r) && Outstanding(f, l) {
        var r' :| r' in f.responses && l in Levels(r');
        assert r' in f'.responses;
      }
    }
  }

  lemma UpToDateStep(f: Feed, e: Event, f': Feed)
    requires FreshRuns.Consistent(f.orders) && UpToDate(f) && Step(f, e, f')
    ensures FreshRuns.Consistent(f'.orders) && UpToDate(f')
  {
    match e
    case Submit(o, makers, now) =>
      FreshRuns.ConsistentMatch(f.orders, o, makers, now);
      UpToDateSubmit(f, o, makers, now, f');
    case Cancel(o) =>
      UpToDateCancel(f, o, f');
    case Handle(r) =>
      UpToDateHandle(f, r, f');
    case Connect(base, quote) =>
      forall l ensures Amount(f'.shown, l) == Depth(f'.orders, l) || Outstanding(f', l) {
        OpenedShows(f.shown, f.orders, base, quote, l);
        StillOutstanding(f, f', l);
      }
  }

  lemma StillOutstanding(f: Feed, f': Feed, l: Level)
    requires f.responses <= f'.responses
    ensures Outstanding(f, l) ==> Outstanding(f', l)
  {
    if r :| r in f.responses && l in Levels(r) {
      assert r in f'.responses;
    }
  }

  /** Over every run, with responses handled late and in any order: a client shows the
      aggregated book at every level that no unhandled response touches. */
  lemma {:induction false} RunUpToDate(states: seq<Feed>, events: seq<Event>, n: nat)
    requires IsRun(states, events) && n < |states|
    ensures FreshRuns.Consistent(states[n].orders) && UpToDate(states[n])
    ensures states[n].responses == multiset{} ==> forall l :: Amount(states[n].shown, l) == Depth(states[n].orders, l)
  {
    if n > 0 {
      RunUpToDate(states, events, n - 1);
      assert StepAt(states, events, n - 1);
      UpToDateStep(states[n - 1], events[n - 1], states[n]);
    } else {
      assert forall l :: Depth(map[], l) == 0;
    }
  }
}

/** Locked balances and the admission check (daos/order.go:478-511, services/validator.go:37-128,
    services/order.go:123-172), with validation and matching as one step. */
module Solvency {
  import opened Orders
  import opened OrderStore
  import opened Matching
  import opened Sums
  import opened Amounts
  import FreshRuns

  type Registry = map<(Token, Token), Pair>

  predicate ValidRegistry(reg: Registry) {
    forall k :: k in reg ==> reg[k].base == k.0 && reg[k].quote == k.1 && reg[k].makeFee >= 0 && reg[k].takeFee >= 0
  }

  predicate Listed(reg: Registry, h: Hash) {
    (h.base, h.quote) in reg
  }

  function PairOf(reg: Registry, h: Hash): Pair
    requires Listed(reg, h)
  {
    reg[(h.base, h.quote)]
  }

  function SellToken(h: Hash): Token {
    if h.side == Buy then h.quote else h.base
  }

  /** The orders the locked-balance query selects. */
  predicate Locks(s: Store, user: Address, token: Token, h: Hash) {
    h in s && s[h].Live() && h.user == user && SellToken(h) == token
  }

  ghost function EstimateWeight(s: Store, user: Address, token: Token, p: Pair): Hash -> int {
    h => if Locks(s, user, token, h) then RemainingSellAmount(s[h], p) else 0
  }

  /** What the query answers: every lock valued with the pair of the order being admitted. */
  ghost function Estimate(s: Store, user: Address, token: Token, p: Pair): int {
    Sum(s.Keys, EstimateWeight(s, user, token, p))
  }

  ghost function LockWeight(s: Store, reg: Registry, user: Address, token: Token): Hash -> int {
    h => if Locks(s, user, token, h) && Listed(reg, h) then RemainingSellAmount(s[h], PairOf(reg, h)) else 0
  }

  /** What is really locked: every lock valued with its own pair. */
  ghost function Locked(s: Store, reg: Registry, user: Address, token: Token): int {
    Sum(s.Keys, LockWeight(s, reg, user, token))
  }

  method GetUserLockedBalance(s: Store, user: Address, token: Token, p: Pair) returns (total: int)
    ensures total == Estimate(s, user, token, p)
  {
    total := 0;
    var rest := s.Keys;
    while rest != {}
      invariant rest <= s.Keys
      invariant total + Sum(rest, EstimateWeight(s, user, token, p)) == Estimate(s, user, token, p)
      decreases |rest|
    {
      var h :| h in rest;
      SumRemove(rest, EstimateWeight(s, user, token, p), h);
      rest := rest - {h};
      if Locks(s, user, token, h) {
        total := total + RemainingSellAmount(s[h], p);
      }
    }
  }

  datatype Account = Account(balance: int, allowance: int)

  type Funds = map<(Address, Token), Account>

  function FundsOf(f: Funds, user: Address, token: Token): Account {
    if (user, token) in f then f[(user, token)] else Account(0, 0)
  }

  /** The admission check: the whole requirement has to fit beside the estimated locks. */
  ghost predicate Admitted(s: Store, reg: Registry, f: Funds, h: Hash) {
    && Listed(reg, h)
    && var p := PairOf(reg, h);
       var account := FundsOf(f, h.user, SellToken(h));
       var required := TotalRequiredSellAmount(h, p);
       && QuoteAmount(h, p) >= p.MinQuoteAmount()
       && required <= account.balance
       && required <= account.allowance
       && required + Estimate(s, h.user, SellToken(h), p) <= account.balance
       && required + Estimate(s, h.user, SellToken(h), p) <= account.allowance
  }

  method ValidateNewOrder(s: Store, reg: Registry, f: Funds, h: Hash) returns (ok: bool)
    ensures ok <==> Admitted(s, reg, f, h)
  {
    if (h.base, h.quote) !in reg {
      return false;
    }
    var p := reg[(h.base, h.quote)];
    if QuoteAmount(h, p) < p.MinQuoteAmount() {
      return false;
    }
    var required := TotalRequiredSellAmount(h, p);
    var account := FundsOf(f, h.user, SellToken(h));
    var locked := GetUserLockedBalance(s, h.user, SellToken(h), p);
    var availableBalance := account.balance - locked;
    var availableAllowance := account.allowance - locked;
    if account.balance < required || availableBalance < required {
      return false;
    }
    ok := !(account.allowance < required || availableAllowance < required);
  }

  /** An amount fits alone and beside the locks. */
  predicate Fits(amount: int, account: Account, locked: int) {
    && amount <= account.balance && amount <= account.allowance
    && amount + locked <= account.balance && amount + locked <= account.allowance
  }

  /** The admission check in prices, fees and funds: the pair is listed, the order is worth at least
      twice both fees, and what the user sells - for a buy its value with either fee, for a sell
      its amount - fits beside the estimated locks in balance and in allowance. */
  lemma AdmittedInFees(s: Store, reg: Registry, f: Funds, h: Hash)
    ensures Admitted(s, reg, f, h) ==> (h.base, h.quote) in reg
    ensures (h.base, h.quote) in reg ==>
              var p := reg[(h.base, h.quote)];
              var token := if h.side == Buy then h.quote else h.base;
              var value := Value(h.amount, h.price, p.baseDecimals);
              var account := if (h.user, token) in f then f[(h.user, token)] else Account(0, 0);
              var locked := Estimate(s, h.user, token, p);
              Admitted(s, reg, f, h) <==>
                && value >= 2 * p.makeFee + 2 * p.takeFee
                && if h.side == Buy then Fits(value + p.makeFee, account, locked) && Fits(value + p.takeFee, account, locked)
                   else Fits(h.amount, account, locked)
  {
    if (h.base, h.quote) in reg {
      Scaled(Incoming(h), reg[(h.base, h.quote)]);
    }
  }

  /** What the locked-balance query counts: nothing in an empty book, and of each order only what
      is left of it if it is live, belongs to the user and sells the token. */
  lemma EstimateInsert(s: Store, o: Order, user: Address, token: Token, p: Pair)
    requires o.hash !in s
    ensures Estimate(map[], user, token, p) == 0
    ensures var left := o.hash.amount - o.filled;
            Estimate(s[o.hash := o], user, token, p) == Estimate(s, user, token, p) +
              if (o.status == Open || o.status == PartialFilled) && o.hash.user == user then
                if o.hash.side == Buy && o.hash.quote == token then Value(left, o.hash.price, p.baseDecimals)
                else if o.hash.side == Sell && o.hash.base == token then left
                else 0
              else 0
  {
    Scaled(o, p);
    var s' := s[o.hash := o];
    assert s'.Keys == s.Keys + {o.hash};
    SumAdd(s.Keys, EstimateWeight(s', user, token, p), o.hash);
    SumSame(s.Keys, EstimateWeight(s', user, token, p), EstimateWeight(s, user, token, p));
  }

  // ---- runs ----

  datatype Market = Market(orders: Store, funds: Funds)

  datatype Event =
    | Submit(o: Order, makers: seq<Order>, now: int)
    | Cancel(h: Hash)
    | Credit(user: Address, token: Token, account: Account)

  /** Balances and allowances only grow; an order that is not admitted changes nothing. */
  ghost predicate Step(reg: Registry, m: Market, e: Event, m': Market) {
    match e
    case Submit(o, makers, now) =>
      && FreshRuns.Fresh(m.orders, o) && o.hash.price > 0
      && IsMatching(m.orders, o, makers)
      && m' == if Admitted(m.orders, reg, m.funds, o.hash)
               then m.(orders := Match(m.orders, o, makers, now).store) else m
    case Cancel(h) =>
      m' == m.(orders := SetStatus(m.orders, h, Cancelled))
    case Credit(user, token, account) =>
      var before := FundsOf(m.funds, user, token);
      && before.balance <= account.balance && before.allowance <= account.allowance
      && m' == m.(funds := m.funds[(user, token) := account])
  }

  ghost predicate StepAt(reg: Registry, states: seq<Market>, events: seq<Event>, i: nat)
    requires i < |events| && |states| == |events| + 1
  {
    Step(reg, states[i], events[i], states[i + 1])
  }

  ghost predicate IsRun(reg: Registry, states: seq<Market>, events: seq<Event>) {
    && |states| == |events| + 1
    && states[0] == Market(map[], map[])
    && forall i :: 0 <= i < |events| ==> StepAt(reg, states, events, i)
  }

  ghost predicate Covers(m: Market, reg: Registry, user: Address, token: Token) {
    var account := FundsOf(m.funds, user, token);
    Locked(m.orders, reg, user, token) <= account.balance && Locked(m.orders, reg, user, token) <= account.allowance
  }

  ghost predicate Solvent(m: Market, reg: Registry) {
    forall user, token :: Covers(m, reg, user, token)
  }

  ghost predicate WellPriced(s: Store, reg: Registry) {
    && FreshRuns.Consistent(s)
    && forall h :: h in s ==> h.price > 0 && Listed(reg, h)
  }

  /** Wherever one pair's admission check values locks taken through another pair, it does not
      undervalue them: the multiplier it divides by is no larger than theirs. */
  predicate NeverUndervalues(reg: Registry) {
    forall k, k' :: k in reg && k' in reg && (k.0 == k'.1 || k.1 == k'.1) ==> reg[k].baseDecimals <= reg[k'].baseDecimals
  }

  // ---- locks only shrink ----

  /** A match locks at most the sell amount of the new order, and frees the rest. */
  lemma MatchLocked(s: Store, reg: Registry, o: Order, makers: seq<Order>, now: int, user: Address, token: Token)
    requires WellPriced(s, reg) && FreshRuns.Fresh(s, o) && o.hash.price > 0 && Listed(reg, o.hash) && IsMatching(s, o, makers)
    ensures Locked(Match(s, o, makers, now).store, reg, user, token) <=
              Locked(s, reg, user, token) +
              if o.hash.user == user && SellToken(o.hash) == token then SellAmount(o.hash, PairOf(reg, o.hash)) else 0
  {
    FreshRuns.MakersRest(s, o, makers);
    MatchEffect(s, o, makers, now);
    TakenEffect(o, makers);
    AdvanceLocked(s, Match(s, o, makers, now).store, reg, o.hash, user, token);
  }

  lemma AdvanceLocked(s: Store, s': Store, reg: Registry, added: Hash, user: Address, token: Token)
    requires WellPriced(s, reg) && added !in s && s'.Keys == s.Keys + {added} && added.price > 0 && Listed(reg, added)
    requires s'[added].hash == added && s'[added].InRange()
    requires forall h :: h in s ==> Advanced(s[h], s'[h])
    ensures Locked(s', reg, user, token) <=
              Locked(s, reg, user, token) +
              if added.user == user && SellToken(added) == token then SellAmount(added, PairOf(reg, added)) else 0
  {
    SumAdd(s.Keys, LockWeight(s', reg, user, token), added);
    forall h | h in s ensures LockWeight(s', reg, user, token)(h) <= LockWeight(s, reg, user, token)(h) {
      assert Advanced(s[h], s'[h]);
      SoldForMonotone(h, s'[h].Remaining(), s[h].Remaining(), PairOf(reg, h));
    }
    SumLe(s.Keys, LockWeight(s', reg, user, token), LockWeight(s, reg, user, token));
    SoldForMonotone(added, s'[added].Remaining(), added.amount, PairOf(reg, added));
  }

  lemma CancelLocked(s: Store, reg: Registry, h: Hash, user: Address, token: Token)
    requires WellPriced(s, reg)
    ensures Locked(SetStatus(s, h, Cancelled), reg, user, token) <= Locked(s, reg, user, token)
  {
    var s' := SetStatus(s, h, Cancelled);
    assert s'.Keys == s.Keys;
    forall k | k in s ensures LockWeight(s', reg, user, token)(k) <= LockWeight(s, reg, user, token)(k) {
      SoldForMonotone(k, s[k].Remaining(), s[k].Remaining(), PairOf(reg, k));
    }
    SumLe(s.Keys, LockWeight(s', reg, user, token), LockWeight(s, reg, user, token));
  }

  /** Under the condition on the registry the estimate is never below the truth. */
  lemma EstimateCovers(s: Store, reg: Registry, user: Address, token: Token, p: Pair)
    requires ValidRegistry(reg) && NeverUndervalues(reg) && WellPriced(s, reg)
    requires (p.base, p.quote) in reg && reg[(p.base, p.quote)] == p && (p.base == token || p.quote == token)
    ensures Locked(s, reg, user, token) <= Estimate(s, user, token, p)
  {
    forall h | h in s ensures LockWeight(s, reg, user, token)(h) <= EstimateWeight(s, user, token, p)(h) {
      if Locks(s, user, token, h) && h.side == Buy {
        MultiplierMonotone(p.baseDecimals, PairOf(reg, h).baseDecimals);
        MulMonotone(0, s[h].Remaining(), h.price);
        DivAntitone(s[h].Remaining() * h.price, Multiplier(p.baseDecimals), Multiplier(PairOf(reg, h).baseDecimals));
      }
    }
    SumLe(s.Keys, LockWeight(s, reg, user, token), EstimateWeight(s, user, token, p));
  }

  lemma WellPricedMatch(s: Store, reg: Registry, o: Order, makers: seq<Order>, now: int)
    requires WellPriced(s, reg) && FreshRuns.Fresh(s, o) && o.hash.price > 0 && Listed(reg, o.hash) && IsMatching(s, o, makers)
    ensures WellPriced(Match(s, o, makers, now).store, reg)
  {
    FreshRuns.ConsistentMatch(s, o, makers, now);
    FreshRuns.MakersRest(s, o, makers);
    MatchEffect(s, o, makers, now);
  }

  lemma AdmittedSolvent(m: Market, reg: Registry, o: Order, makers: seq<Order>, now: int, user: Address, token: Token)
    requires ValidRegistry(reg) && NeverUndervalues(reg) && WellPriced(m.orders, reg) && Covers(m, reg, user, token)
    requires FreshRuns.Fresh(m.orders, o) && o.hash.price > 0 && IsMatching(m.orders, o, makers)
    requires Admitted(m.orders, reg, m.funds, o.hash)
    ensures Covers(m.(orders := Match(m.orders, o, makers, now).store), reg, user, token)
  {
    MatchLocked(m.orders, reg, o, makers, now, user, token);
    if o.hash.user == user && SellToken(o.hash) == token {
      EstimateCovers(m.orders, reg, user, token, PairOf(reg, o.hash));
    }
  }

  lemma SolventStep(reg: Registry, m: Market, e: Event, m': Market)
    requires ValidRegistry(reg) && NeverUndervalues(reg)
    requires WellPriced(m.orders, reg) && Solvent(m, reg) && Step(reg, m, e, m')
    ensures WellPriced(m'.orders, reg) && Solvent(m', reg)
  {
    match e
    case Submit(o, makers, now) =>
      if Admitted(m.orders, reg, m.funds, o.hash) {
        WellPricedMatch(m.orders, reg, o, makers, now);
        forall user, token ensures Covers(m', reg, user, token) {
          assert Covers(m, reg, user, token);
          AdmittedSolvent(m, reg, o, makers, now, user, token);
        }
      }
    case Cancel(h) =>
      forall user, token ensures Covers(m', reg, user, token) {
        assert Covers(m, reg, user, token);
        CancelLocked(m.orders, reg, h, user, token);
      }
    case Credit(u, t, account) =>
      forall user, token ensures Covers(m', reg, user, token) {
        assert Covers(m, reg, user, token);
      }
  }

  /** While no admission check undervalues another pair's locks, every user's locks stay within balance and allowance, token by token, in every run. */
  lemma {:induction false} RunSolvent(reg: Registry, states: seq<Market>, events: seq<Event>, n: nat)
    requires ValidRegistry(reg) && NeverUndervalues(reg)
    requires IsRun(reg, states, events) && n < |states|
    ensures WellPriced(states[n].orders, reg) && Solvent(states[n], reg)
  {
    if n > 0 {
      RunSolvent(reg, states, events, n - 1);
      assert StepAt(reg, states, events, n - 1);
      SolventStep(reg, states[n - 1], events[n - 1], states[n]);
    }
  }

  /** With a single pair there is nothing to undervalue. */
  lemma SinglePairSolvent(k: (Token, Token), p: Pair, states: seq<Market>, events: seq<Event>, n: nat)
    requires ValidRegistry(map[k := p]) && IsRun(map[k := p], states, events) && n < |states|
    ensures Solvent(states[n], map[k := p])
  {
    assert NeverUndervalues(map[k := p]);
    RunSolvent(map[k := p], states, events, n);
  }
}

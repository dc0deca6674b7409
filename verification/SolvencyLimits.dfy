/** The condition under which the admission check keeps users solvent is necessary: wherever it
    fails there is a run in which an order is admitted beyond the user's balance
    (daos/order.go:504-508 values every lock with the pair of the order being admitted). */
module SolvencyLimits {
  import opened Orders
  import opened OrderStore
  import opened Matching
  import opened Sums
  import opened Amounts
  import opened Solvency

  const USER: Address := 0

  /** An order for `sold` units of the sold token, on the side that sells `token`. */
  function OrderFor(p: Pair, token: Token, sold: int, nonce: int): (h: Hash)
    requires sold > 0 && (p.base == token || p.quote == token)
    ensures h.user == USER && h.base == p.base && h.quote == p.quote && h.nonce == nonce && SellToken(h) == token
    ensures h.price > 0 && h.amount > 0
    ensures SellAmount(h, p) == sold && QuoteAmount(h, p) == sold
    ensures TotalRequiredSellAmount(h, p) <= sold + if p.MaxFee() >= 0 then p.MaxFee() else 0
  {
    var m := Multiplier(p.baseDecimals);
    MulDiv(sold, m);
    if p.quote == token then Terms(USER, p.base, p.quote, Buy, sold, m, nonce)
    else Terms(USER, p.base, p.quote, Sell, m, sold, nonce)
  }

  /** An unmatched order is simply inserted. */
  lemma Unmatched(s: Store, h: Hash)
    requires h !in s && forall k :: k in s ==> k.base != h.base || k.quote != h.quote
    requires WellKeyed(s)
    ensures IsMatching(s, Incoming(h), [])
    ensures Match(s, Incoming(h), [], 0).store == s[h := Order(h, 0, Open, 0)]
  {
  }

  lemma LockedAfter(s: Store, reg: Registry, h: Hash)
    requires h !in s && h.user == USER && Listed(reg, h)
    ensures Locked(s[h := Order(h, 0, Open, 0)], reg, USER, SellToken(h)) ==
              Locked(s, reg, USER, SellToken(h)) + SellAmount(h, PairOf(reg, h))
  {
    var s' := s[h := Order(h, 0, Open, 0)];
    assert s'.Keys == s.Keys + {h};
    SumAdd(s.Keys, LockWeight(s', reg, USER, SellToken(h)), h);
    SumSame(s.Keys, LockWeight(s', reg, USER, SellToken(h)), LockWeight(s, reg, USER, SellToken(h)));
  }

  lemma AtMostATenth(m': int, m: int, sold: int)
    requires 0 < m' && 10 * m' <= m && sold > 0
    ensures 10 * (m' * sold / m) <= sold
  {
    var e := m' * sold / m;
    assert m * e <= m' * sold;
    MulMonotone(10 * m', m, sold);
    assert m * (10 * e) == 10 * (m * e) && m * (sold + 1) == m * sold + m && 10 * m' * sold == 10 * (m' * sold);
    CancelMul(m, 10 * e, sold + 1);
  }

  lemma EstimateOfOne(h: Hash, p: Pair)
    requires h.user == USER
    ensures Estimate(map[h := Order(h, 0, Open, 0)], USER, SellToken(h), p) == SellAmount(h, p)
  {
    var s: Store := map[h := Order(h, 0, Open, 0)];
    SumAdd({}, EstimateWeight(s, USER, SellToken(h), p), h);
    assert s.Keys == {} + {h};
  }

  /** A pair with a larger multiplier sees less than a tenth of a lock of size `sold`. */
  lemma Undervalued(h: Hash, p': Pair, p: Pair, sold: int)
    requires p'.baseDecimals < p.baseDecimals && sold > 0
    requires h == OrderFor(p', p'.quote, sold, 0)
    ensures 10 * Estimate(map[h := Order(h, 0, Open, 0)], USER, p'.quote, p) <= sold
  {
    EstimateOfOne(h, p);
    MultiplierMonotone(p'.baseDecimals, p.baseDecimals);
    AtMostATenth(Multiplier(p'.baseDecimals), Multiplier(p.baseDecimals), sold);
  }

  /** Submitting an admitted order that meets nothing. */
  lemma SubmitStep(reg: Registry, m: Market, h: Hash)
    requires WellKeyed(m.orders) && h !in m.orders && h.amount > 0 && h.price > 0
    requires forall k :: k in m.orders ==> k.base != h.base || k.quote != h.quote
    requires Admitted(m.orders, reg, m.funds, h)
    ensures Step(reg, m, Submit(Incoming(h), [], 0), m.(orders := m.orders[h := Order(h, 0, Open, 0)]))
  {
    Unmatched(m.orders, h);
  }

  /** Two orders of one user: the first uses up the balance through p', the second is admitted
      through p because p sees too little of the first. */
  lemma BothAdmitted(reg: Registry, k: (Token, Token), k': (Token, Token), first: int, second: int, funds: Funds)
    requires ValidRegistry(reg) && k in reg && k' in reg && (k.0 == k'.1 || k.1 == k'.1)
    requires reg[k'].baseDecimals < reg[k].baseDecimals
    requires second == reg[k'].MaxFee() + 1 + reg[k].MinQuoteAmount()
    requires first == 10 * (second + reg[k].MaxFee() + reg[k'].MinQuoteAmount() + 1)
    requires funds == map[(USER, k'.1) := Account(first + reg[k'].MaxFee(), first + reg[k'].MaxFee())]
    ensures second > 0 && first > 0
    ensures var h', h := OrderFor(reg[k'], k'.1, first, 0), OrderFor(reg[k], k'.1, second, 1);
            Admitted(map[], reg, funds, h') && Admitted(map[h' := Order(h', 0, Open, 0)], reg, funds, h)
  {
    var h', h := OrderFor(reg[k'], k'.1, first, 0), OrderFor(reg[k], k'.1, second, 1);
    assert Estimate(map[], USER, k'.1, reg[k']) == 0;
    assert PairOf(reg, h') == reg[k'] && PairOf(reg, h) == reg[k];
    Undervalued(h', reg[k'], reg[k], first);
  }

  lemma RunOfThree(reg: Registry, m1: Market, m2: Market, m3: Market, e0: Event, e1: Event, e2: Event)
    requires Step(reg, Market(map[], map[]), e0, m1) && Step(reg, m1, e1, m2) && Step(reg, m2, e2, m3)
    ensures IsRun(reg, [Market(map[], map[]), m1, m2, m3], [e0, e1, e2])
  {
  }

  lemma LockedByBoth(reg: Registry, h': Hash, h: Hash)
    requires h' != h && h.user == h'.user == USER && SellToken(h) == SellToken(h') && Listed(reg, h) && Listed(reg, h')
    ensures Locked(map[h' := Order(h', 0, Open, 0)][h := Order(h, 0, Open, 0)], reg, USER, SellToken(h)) ==
              SellAmount(h', PairOf(reg, h')) + SellAmount(h, PairOf(reg, h))
  {
    LockedAfter(map[], reg, h');
    var none: Store := map[];
    assert none[h' := Order(h', 0, Open, 0)] == map[h' := Order(h', 0, Open, 0)];
    LockedAfter(map[h' := Order(h', 0, Open, 0)], reg, h);
  }

  lemma Overcommits(reg: Registry, k: (Token, Token), k': (Token, Token)) returns (states: seq<Market>, events: seq<Event>)
    requires ValidRegistry(reg) && k in reg && k' in reg && (k.0 == k'.1 || k.1 == k'.1)
    requires reg[k'].baseDecimals < reg[k].baseDecimals
    ensures IsRun(reg, states, events)
    ensures !Covers(states[|states| - 1], reg, USER, k'.1)
  {
    var p, p', token := reg[k], reg[k'], k'.1;
    var second := p'.MaxFee() + 1 + p.MinQuoteAmount();
    var first := 10 * (second + p.MaxFee() + p'.MinQuoteAmount() + 1);
    var account := Account(first + p'.MaxFee(), first + p'.MaxFee());
    var funds: Funds := map[(USER, token) := account];
    BothAdmitted(reg, k, k', first, second, funds);
    var h', h := OrderFor(p', token, first, 0), OrderFor(p, token, second, 1);
    var s1: Store := map[h' := Order(h', 0, Open, 0)];
    var s2 := s1[h := Order(h, 0, Open, 0)];
    var m0, m1, m2, m3 := Market(map[], map[]), Market(map[], funds), Market(s1, funds), Market(s2, funds);
    SubmitStep(reg, m1, h');
    SubmitStep(reg, m2, h);
    var credit := Credit(USER, token, account);
    assert Step(reg, m0, credit, m1);
    states := [m0, m1, m2, m3];
    events := [credit, Submit(Incoming(h'), [], 0), Submit(Incoming(h), [], 0)];
    RunOfThree(reg, m1, m2, m3, credit, Submit(Incoming(h'), [], 0), Submit(Incoming(h), [], 0));
    LockedByBoth(reg, h', h);
  }

  /** The admission check keeps every user solvent in every run exactly when no pair's check
      undervalues the locks taken through another. */
  lemma SolventIff(reg: Registry)
    requires ValidRegistry(reg)
    ensures NeverUndervalues(reg) <==>
            forall states: seq<Market>, events: seq<Event>, n: nat ::
              IsRun(reg, states, events) && n < |states| ==> Solvent(states[n], reg)
  {
    if NeverUndervalues(reg) {
      forall states: seq<Market>, events: seq<Event>, n: nat | IsRun(reg, states, events) && n < |states|
        ensures Solvent(states[n], reg)
      {
        RunSolvent(reg, states, events, n);
      }
    } else {
      var k, k' :| k in reg && k' in reg && (k.0 == k'.1 || k.1 == k'.1) && reg[k].baseDecimals > reg[k'].baseDecimals;
      var states, events := Overcommits(reg, k, k');
      assert !Solvent(states[|states| - 1], reg);
    }
  }
}

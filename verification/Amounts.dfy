/** Floor-division amounts of an order, and what rounding can cost (types/order.go:239-295,
    types/pair.go:135-172). */
module Amounts {
  import opened Orders
  import FreshRuns

  datatype Pair = Pair(base: Token, quote: Token, baseDecimals: nat, makeFee: int, takeFee: int) {
    function MinQuoteAmount(): int {
      2 * makeFee + 2 * takeFee
    }

    function MaxFee(): int {
      if makeFee > takeFee then makeFee else takeFee
    }
  }

  function Pow10(n: nat): (r: int)
    ensures r >= 1
  {
    if n == 0 then 1 else 10 * Pow10(n - 1)
  }

  /** Price points are scaled by 10^18 and by the base token's own unit. */
  function Multiplier(decimals: nat): (m: int)
    ensures m >= 1
  {
    MulPositive(Pow10(18), Pow10(decimals));
    Pow10(18) * Pow10(decimals)
  }

  /** The amount of the sold token that `amount` base tokens stand for. */
  function SoldFor(h: Hash, amount: int, p: Pair): int {
    if h.side == Buy then amount * h.price / Multiplier(p.baseDecimals) else amount
  }

  function QuoteAmount(h: Hash, p: Pair): int {
    h.amount * h.price / Multiplier(p.baseDecimals)
  }

  function SellAmount(h: Hash, p: Pair): int {
    SoldFor(h, h.amount, p)
  }

  function RemainingSellAmount(o: Order, p: Pair): int {
    SoldFor(o.hash, o.Remaining(), p)
  }

  function TotalRequiredSellAmount(h: Hash, p: Pair): int {
    if h.side == Buy then SellAmount(h, p) + p.MaxFee() else h.amount
  }

  // ---- arithmetic ----

  lemma MulPositive(a: int, b: int)
    requires a >= 1 && b >= 1
    ensures a * b >= 1
  {
    MulMonotone(1, a, b);
  }

  lemma MulMonotone(a: int, b: int, c: int)
    requires a <= b && 0 <= c
    ensures a * c <= b * c
  {
    assert (b - a) * c >= 0;
    assert (b - a) * c == b * c - a * c;
  }

  lemma CancelMul(m: int, x: int, y: int)
    requires m > 0
    ensures m * x < m * y ==> x < y
  {
    if y <= x {
      MulMonotone(y, x, m);
    }
  }

  lemma DivMonotone(a: int, b: int, m: int)
    requires a <= b && m > 0
    ensures a / m <= b / m
  {
    var q, r := a / m, b / m;
    assert m * q <= a && b < m * r + m;
    assert m * (r + 1) == m * r + m;
    CancelMul(m, q, r + 1);
  }

  /** A larger divisor gives a smaller quotient. */
  lemma DivAntitone(a: int, m: int, n: int)
    requires 0 <= a && 0 < m <= n
    ensures a / n <= a / m
  {
    var q, r := a / n, a / m;
    assert n * q <= a < m * r + m;
    assert 0 <= q;
    MulMonotone(m, n, q);
    assert m * (r + 1) == m * r + m;
    CancelMul(m, q, r + 1);
  }

  /** Splitting a dividend loses at most one unit. */
  lemma DivSplit(a: int, b: int, m: int)
    requires m > 0
    ensures a / m + b / m <= (a + b) / m <= a / m + b / m + 1
  {
    var r := a % m + b % m;
    assert a + b == m * (a / m + b / m) + r;
    assert 0 <= r < 2 * m;
    DivAddMultiple(r, a / m + b / m, m);
  }

  lemma DivAddMultiple(r: int, q: int, m: int)
    requires m > 0 && 0 <= r < 2 * m
    ensures q <= (m * q + r) / m <= q + 1
  {
    var x := m * q + r;
    var d := x / m;
    assert m * d <= x < m * d + m;
    assert m * (d + 1) == m * d + m && m * (q + 2) == m * q + 2 * m;
    CancelMul(m, q, d + 1);
    CancelMul(m, d, q + 2);
  }

  lemma {:induction false} Pow10Monotone(a: nat, b: nat)
    requires a <= b
    ensures Pow10(a) <= Pow10(b)
    ensures a < b ==> 10 * Pow10(a) <= Pow10(b)
  {
    if a < b {
      Pow10Monotone(a, b - 1);
    }
  }

  lemma MultiplierMonotone(a: nat, b: nat)
    requires a <= b
    ensures Multiplier(a) <= Multiplier(b)
    ensures a < b ==> 10 * Multiplier(a) <= Multiplier(b)
  {
    Pow10Monotone(a, b);
    Scale(Pow10(a), Pow10(b), Pow10(18));
  }

  lemma Scale(x: int, y: int, c: int)
    requires x <= y && c >= 0
    ensures c * x <= c * y
    ensures 10 * x <= y ==> 10 * (c * x) <= c * y
  {
    MulMonotone(x, y, c);
    if 10 * x <= y {
      MulMonotone(10 * x, y, c);
    }
  }

  lemma MulDiv(a: int, m: int)
    requires m > 0
    ensures a * m / m == a && m * a / m == a
  {
    var d := m * a / m;
    assert m * a == a * m;
    assert m * d <= m * a < m * d + m;
    assert m * (d + 1) == m * d + m && m * (a + 1) == m * a + m;
    CancelMul(m, a, d + 1);
    CancelMul(m, d, a + 1);
  }

  // ---- the scale of amounts and prices ----

  lemma Pow10Eighteen()
    ensures Pow10(18) == 1_000_000_000_000_000_000
  {
    assert Pow10(6) == 1_000_000;
    assert Pow10(12) == 1_000_000_000_000;
  }

  /** Values are price points times amounts over 10^18 and the base token's own unit. */
  function Value(amount: int, price: int, decimals: nat): int {
    amount * price / (1_000_000_000_000_000_000 * Pow10(decimals))
  }

  lemma Scaled(o: Order, p: Pair)
    ensures QuoteAmount(o.hash, p) == Value(o.hash.amount, o.hash.price, p.baseDecimals)
    ensures SellAmount(o.hash, p) == if o.hash.side == Buy then Value(o.hash.amount, o.hash.price, p.baseDecimals) else o.hash.amount
    ensures RemainingSellAmount(o, p) ==
              if o.hash.side == Buy then Value(o.hash.amount - o.filled, o.hash.price, p.baseDecimals) else o.hash.amount - o.filled
  {
    Pow10Eighteen();
  }

  /** One whole base token at a price point of k times 10^18 is worth k units of the quote token,
      whatever the decimals; that is what a buyer sells and a seller asks for. */
  lemma WholeToken(h: Hash, p: Pair, k: int)
    requires h.amount == Pow10(p.baseDecimals) && h.price == k * 1_000_000_000_000_000_000
    ensures QuoteAmount(h, p) == k
    ensures SellAmount(h, p) == if h.side == Buy then k else Pow10(p.baseDecimals)
  {
    Pow10Eighteen();
    var d := Pow10(p.baseDecimals);
    MulPositive(1_000_000_000_000_000_000, d);
    assert d * (k * 1_000_000_000_000_000_000) == k * (1_000_000_000_000_000_000 * d);
    MulDiv(k, 1_000_000_000_000_000_000 * d);
  }

  // ---- fills never raise a lock ----

  lemma SoldForMonotone(h: Hash, a: int, b: int, p: Pair)
    requires 0 <= a <= b && h.price >= 0
    ensures 0 <= SoldFor(h, a, p) <= SoldFor(h, b, p)
  {
    var m := Multiplier(p.baseDecimals);
    MulMonotone(0, a, h.price);
    MulMonotone(a, b, h.price);
    DivMonotone(0, a * h.price, m);
    DivMonotone(a * h.price, b * h.price, m);
    assert 0 / m == 0;
  }

  // ---- rounding ----

  /** What the trades on order h move of the sold token, each rounded down on its own. */
  function SoldInTrades(ts: seq<Trade>, h: Hash, p: Pair): int {
    if ts == [] then 0
    else (if ts[0].maker == h || ts[0].taker == h then SoldFor(h, ts[0].amount, p) else 0) + SoldInTrades(ts[1..], h, p)
  }

  function TradeCount(ts: seq<Trade>, h: Hash): nat {
    if ts == [] then 0 else (if ts[0].maker == h || ts[0].taker == h then 1 else 0) + TradeCount(ts[1..], h)
  }

  /** Trades and remainder, rounded separately, stay within the sold amount of the whole and
      fall short of it by at most one unit a trade. */
  lemma {:induction false} RoundingLoss(ts: seq<Trade>, h: Hash, rest: int, p: Pair)
    ensures var whole := SoldFor(h, FreshRuns.Traded(ts, h) + rest, p);
            var parts := SoldInTrades(ts, h, p) + SoldFor(h, rest, p);
            parts <= whole <= parts + TradeCount(ts, h)
  {
    if ts != [] {
      RoundingLoss(ts[1..], h, rest, p);
      if ts[0].maker == h || ts[0].taker == h {
        SoldForSplit(h, ts[0].amount, FreshRuns.Traded(ts[1..], h) + rest, p);
      }
    }
  }

  lemma SoldForSplit(h: Hash, a: int, b: int, p: Pair)
    ensures SoldFor(h, a, p) + SoldFor(h, b, p) <= SoldFor(h, a + b, p) <= SoldFor(h, a, p) + SoldFor(h, b, p) + 1
  {
    DivSplit(a * h.price, b * h.price, Multiplier(p.baseDecimals));
    assert a * h.price + b * h.price == (a + b) * h.price;
  }

  /** In every state of every run, for every stored order: what its trades have moved and what
      it still locks add up to at most its sell amount, and miss it by at most one unit a trade. */
  lemma RunRounding(states: seq<FreshRuns.Exchange>, events: seq<FreshRuns.Event>, n: nat, h: Hash, p: Pair)
    requires FreshRuns.IsRun(states, events) && n < |states| && h in states[n].orders
    ensures var moved := SoldInTrades(states[n].ledger, h, p) + RemainingSellAmount(states[n].orders[h], p);
            moved <= SellAmount(h, p) <= moved + TradeCount(states[n].ledger, h)
  {
    FreshRuns.RunFilled(states, events, n, h);
    RoundingLoss(states[n].ledger, h, states[n].orders[h].Remaining(), p);
  }
}

/** Batches of matches on their way from the engine to the exchange contract: splitting off the
    invalid ones and laying the rest out for the contract (services/order.go:236-292,
    types/engine.go:63-74, contracts/exchange.go:139-169, 194-224). */
module Batches {
  import opened Options
  import opened Orders
  import opened OrderStore
  import opened Matching

  /** Trade i is a trade of maker i with the taker. */
  ghost predicate Aligned(ms: Matches) {
    && |ms.makers| == |ms.trades|
    && forall i :: 0 <= i < |ms.makers| ==> ms.trades[i].maker == ms.makers[i].hash && ms.trades[i].taker == ms.taker.hash
  }

  /** What the engine publishes is aligned, and all of it is on the taker's pair. */
  lemma MatchAligned(s: Store, o: Order, makers: seq<Order>, now: int)
    requires AllCapped(s) && o.Capped() && IsMatching(s, o, makers) && makers != []
    ensures var ms := Match(s, o, makers, now).response.matches;
            && Aligned(ms)
            && ms.makers != []
            && forall i :: 0 <= i < |ms.makers| ==> ms.makers[i].hash.base == ms.taker.hash.base && ms.makers[i].hash.quote == ms.taker.hash.quote
  {
    WalkMakers(o, o.hash.amount, makers);
    TakenEffect(o, makers);
    var w := Walk(o, o.hash.amount, makers);
    forall i | 0 <= i < |w.matched| ensures w.trades[i].maker == w.matched[i].hash == makers[i].hash && w.trades[i].taker == o.hash {
      assert Executed(o.hash, makers[i], w.matched[i], w.trades[i]);
    }
  }

  // ---- valid and invalid matches ----

  /** The elements whose flag equals `flag`, in order. */
  function Pick<T>(xs: seq<T>, flags: seq<bool>, flag: bool): seq<T>
    requires |xs| == |flags|
  {
    if xs == [] then []
    else Pick(xs[..|xs| - 1], flags[..|xs| - 1], flag) + if flags[|xs| - 1] == flag then [xs[|xs| - 1]] else []
  }

  function PickMatches(ms: Matches, flags: seq<bool>, flag: bool): Matches
    requires |ms.makers| == |ms.trades| == |flags|
  {
    Matches(Pick(ms.makers, flags, flag), ms.taker, Pick(ms.trades, flags, flag))
  }

  /** Puts two lists back together by the flags, from the last element to the first. */
  function Merge<T>(yes: seq<T>, no: seq<T>, flags: seq<bool>): seq<T>
    decreases |flags|
  {
    if flags == [] then []
    else
      var n := |flags| - 1;
      if flags[n] then (if yes == [] then [] else Merge(yes[..|yes| - 1], no, flags[..n]) + [yes[|yes| - 1]])
      else (if no == [] then [] else Merge(yes, no[..|no| - 1], flags[..n]) + [no[|no| - 1]])
  }

  /** Nothing is lost, duplicated or reordered by a split: merging undoes it. */
  lemma {:induction false} MergePicks<T>(xs: seq<T>, flags: seq<bool>)
    requires |xs| == |flags|
    ensures Merge(Pick(xs, flags, true), Pick(xs, flags, false), flags) == xs
    decreases |xs|
  {
    if xs != [] {
      var n := |xs| - 1;
      MergePicks(xs[..n], flags[..n]);
      var yes, no := Pick(xs[..n], flags[..n], true), Pick(xs[..n], flags[..n], false);
      assert (yes + [xs[n]])[..|yes|] == yes && (no + [xs[n]])[..|no|] == no;
      assert xs == xs[..n] + [xs[n]];
      if flags[n] {
        assert Pick(xs, flags, false) == no + [] == no;
      } else {
        assert Pick(xs, flags, true) == yes + [] == yes;
      }
    }
  }

  lemma {:induction false} PickAligned(ms: Matches, flags: seq<bool>, flag: bool)
    requires Aligned(ms) && |flags| == |ms.makers|
    ensures Aligned(PickMatches(ms, flags, flag))
    ensures forall m :: m in PickMatches(ms, flags, flag).makers ==> m in ms.makers
    decreases |flags|
  {
    if ms.makers != [] {
      var n := |ms.makers| - 1;
      PickAligned(Matches(ms.makers[..n], ms.taker, ms.trades[..n]), flags[..n], flag);
    }
  }

  /** The split made when a matched response is handled; `orders` are those to broadcast. */
  method SplitMatches(ms: Matches, valid: seq<bool>) returns (good: Matches, bad: Matches, orders: seq<Order>)
    requires |ms.makers| == |ms.trades| == |valid|
    ensures good == PickMatches(ms, valid, true)
    ensures bad == PickMatches(ms, valid, false)
    ensures orders == [ms.taker] + good.makers
  {
    good, bad := Matches([], ms.taker, []), Matches([], ms.taker, []);
    orders := [ms.taker];
    var i := 0;
    while i < |ms.trades|
      invariant 0 <= i <= |ms.trades|
      invariant good == PickMatches(Matches(ms.makers[..i], ms.taker, ms.trades[..i]), valid[..i], true)
      invariant bad == PickMatches(Matches(ms.makers[..i], ms.taker, ms.trades[..i]), valid[..i], false)
      invariant orders == [ms.taker] + good.makers
    {
      assert ms.makers[..i + 1][..i] == ms.makers[..i] && ms.trades[..i + 1][..i] == ms.trades[..i] && valid[..i + 1][..i] == valid[..i];
      if valid[i] {
        good := good.(makers := good.makers + [ms.makers[i]], trades := good.trades + [ms.trades[i]]);
        orders := orders + [ms.makers[i]];
      } else {
        bad := bad.(makers := bad.makers + [ms.makers[i]], trades := bad.trades + [ms.trades[i]]);
      }
      i := i + 1;
    }
    assert ms.makers[..i] == ms.makers && ms.trades[..i] == ms.trades && valid[..i] == valid;
  }

  // ---- the contract call ----

  datatype Signature = Signature(v: nat, r: nat, s: nat)

  /** An order with the fields only the contract looks at. */
  datatype Signed = Signed(order: Order, makeFee: int, takeFee: int, signature: Option<Signature>)

  datatype Batch = Batch(values: seq<seq<int>>, addresses: seq<seq<nat>>, amounts: seq<int>, vs: seq<seq<nat>>, rs: seq<seq<nat>>)

  function EncodedSide(o: Order): int {
    if o.hash.side == Buy then 0 else 1
  }

  function Values(mo: Signed, to: Signed): seq<int> {
    [mo.order.hash.amount, mo.order.hash.price, EncodedSide(mo.order), mo.order.hash.nonce,
     to.order.hash.amount, to.order.hash.price, EncodedSide(to.order), to.order.hash.nonce, mo.makeFee, mo.takeFee]
  }

  /** The transaction that is sent. A missing signature crashes the process, here None. */
  method ExecuteBatchTrades(makers: seq<Signed>, taker: Signed, trades: seq<Trade>) returns (sent: Option<Batch>)
    requires |makers| == |trades|
    ensures sent.Some? <==> makers == [] || (taker.signature.Some? && forall i :: 0 <= i < |makers| ==> makers[i].signature.Some?)
    ensures sent.Some? ==> Lays(sent.value, makers, taker, trades)
    ensures sent.Some? ==> forall i :: 0 <= i < |makers| ==>
                sent.value.addresses[i] == [makers[i].order.hash.user, taker.order.hash.user, makers[i].order.hash.base, taker.order.hash.quote]
  {
    var b := Batch([], [], [], [], []);
    var i := 0;
    while i < |makers|
      invariant 0 <= i <= |makers|
      invariant i > 0 ==> taker.signature.Some?
      invariant forall j :: 0 <= j < i ==> makers[j].signature.Some?
      invariant Lays(b, makers[..i], taker, trades[..i])
      invariant forall j :: 0 <= j < i ==>
                  b.addresses[j] == [makers[j].order.hash.user, taker.order.hash.user, makers[j].order.hash.base, taker.order.hash.quote]
    {
      var mo := makers[i];
      if mo.signature == None || taker.signature == None {
        return None;
      }
      var x, y := mo.signature.value, taker.signature.value;
      b := Batch(b.values + [Values(mo, taker)],
                 b.addresses + [[mo.order.hash.user, taker.order.hash.user, mo.order.hash.base, taker.order.hash.quote]],
                 b.amounts + [trades[i].amount], b.vs + [[x.v, y.v]], b.rs + [[x.r, x.s, y.r, y.s]]);
      i := i + 1;
    }
    assert makers[..i] == makers && trades[..i] == trades;
    sent := Some(b);
  }

  /** The call whose gas is estimated. A missing signature is an error, here None. */
  method CallBatchTrades(makers: seq<Signed>, taker: Signed, trades: seq<Trade>) returns (called: Option<Batch>)
    requires |makers| == |trades|
    ensures called.Some? <==> makers == [] || (taker.signature.Some? && forall i :: 0 <= i < |makers| ==> makers[i].signature.Some?)
    ensures called.Some? ==> Lays(called.value, makers, taker, trades)
    ensures called.Some? ==> forall i :: 0 <= i < |makers| ==>
                called.value.addresses[i] == [makers[i].order.hash.user, taker.order.hash.user, makers[i].order.hash.base, makers[i].order.hash.quote]
  {
    var b := Batch([], [], [], [], []);
    var i := 0;
    while i < |makers|
      invariant 0 <= i <= |makers|
      invariant i > 0 ==> taker.signature.Some?
      invariant forall j :: 0 <= j < i ==> makers[j].signature.Some?
      invariant Lays(b, makers[..i], taker, trades[..i])
      invariant forall j :: 0 <= j < i ==>
                  b.addresses[j] == [makers[j].order.hash.user, taker.order.hash.user, makers[j].order.hash.base, makers[j].order.hash.quote]
    {
      var mo := makers[i];
      if mo.signature == None {
        return None;
      }
      if taker.signature == None {
        return None;
      }
      var x, y := mo.signature.value, taker.signature.value;
      b := Batch(b.values + [Values(mo, taker)],
                 b.addresses + [[mo.order.hash.user, taker.order.hash.user, mo.order.hash.base, mo.order.hash.quote]],
                 b.amounts + [trades[i].amount], b.vs + [[x.v, y.v]], b.rs + [[x.r, x.s, y.r, y.s]]);
      i := i + 1;
    }
    assert makers[..i] == makers && trades[..i] == trades;
    called := Some(b);
  }

  /** The ten values of a row: amount, price point, side and nonce of the maker, the same of the
      taker, and the maker's two fees. */
  predicate IsRow(row: seq<int>, mo: Signed, to: Signed) {
    && |row| == 10
    && row[0] == mo.order.hash.amount && row[1] == mo.order.hash.price && row[3] == mo.order.hash.nonce
    && (if mo.order.hash.side == Buy then row[2] == 0 else row[2] == 1)
    && row[4] == to.order.hash.amount && row[5] == to.order.hash.price && row[7] == to.order.hash.nonce
    && (if to.order.hash.side == Buy then row[6] == 0 else row[6] == 1)
    && row[8] == mo.makeFee && row[9] == mo.takeFee
  }

  /** Row i of every array but the addresses belongs to maker i, the taker and trade i. */
  ghost predicate Lays(b: Batch, makers: seq<Signed>, taker: Signed, trades: seq<Trade>) {
    && |b.values| == |b.addresses| == |b.amounts| == |b.vs| == |b.rs| == |makers| == |trades|
    && forall i :: 0 <= i < |makers| ==>
         && makers[i].signature.Some? && taker.signature.Some?
         && IsRow(b.values[i], makers[i], taker)
         && b.amounts[i] == trades[i].amount
         && b.vs[i] == [makers[i].signature.value.v, taker.signature.value.v]
         && b.rs[i] == [makers[i].signature.value.r, makers[i].signature.value.s, taker.signature.value.r, taker.signature.value.s]
  }

  lemma SameRow(a: seq<int>, b: seq<int>, mo: Signed, to: Signed)
    requires IsRow(a, mo, to) && IsRow(b, mo, to)
    ensures a == b
  {
  }

  /** What the contract reads from a row: the terms of the order at the given place. */
  function Decoded(row: seq<int>, addresses: seq<nat>, place: nat): Terms
    requires |row| == 10 && |addresses| == 4 && place < 2
  {
    Terms(addresses[place], addresses[2], addresses[3], if row[4 * place + 2] == 0 then Buy else Sell,
          row[4 * place + 1], row[4 * place], row[4 * place + 3])
  }

  /** The contract gets back the signed terms of maker i at the place of the maker's signature and
      those of the taker at the place of the taker's, as long as both are on one pair. */
  lemma DecodesTerms(row: seq<int>, addresses: seq<nat>, mo: Signed, to: Signed)
    requires IsRow(row, mo, to) && mo.order.hash.base == to.order.hash.base && mo.order.hash.quote == to.order.hash.quote
    requires addresses == [mo.order.hash.user, to.order.hash.user, mo.order.hash.base, to.order.hash.quote]
    ensures Decoded(row, addresses, 0) == mo.order.hash && Decoded(row, addresses, 1) == to.order.hash
  {
  }

  /** The sent batch equals the estimated one exactly when every maker quotes in the taker's
      token. */
  method EstimateAndSend(makers: seq<Signed>, taker: Signed, trades: seq<Trade>) returns (called: Option<Batch>, sent: Option<Batch>)
    requires |makers| == |trades|
    ensures called.Some? <==> sent.Some?
    ensures sent.Some? <==> makers == [] || (taker.signature.Some? && forall i :: 0 <= i < |makers| ==> makers[i].signature.Some?)
    ensures sent.Some? ==> Lays(sent.value, makers, taker, trades)
    ensures sent.Some? ==> forall i :: 0 <= i < |makers| ==>
              sent.value.addresses[i] == [makers[i].order.hash.user, taker.order.hash.user, makers[i].order.hash.base, taker.order.hash.quote]
    ensures called.Some? ==> (called == sent <==> forall i :: 0 <= i < |makers| ==> makers[i].order.hash.quote == taker.order.hash.quote)
  {
    called := CallBatchTrades(makers, taker, trades);
    sent := ExecuteBatchTrades(makers, taker, trades);
    if called.Some? {
      if forall i :: 0 <= i < |makers| ==> makers[i].order.hash.quote == taker.order.hash.quote {
        forall i | 0 <= i < |makers| ensures called.value.values[i] == sent.value.values[i] {
          SameRow(called.value.values[i], sent.value.values[i], makers[i], taker);
        }
        assert called.value.addresses == sent.value.addresses && called.value.values == sent.value.values
               && called.value.amounts == sent.value.amounts && called.value.vs == sent.value.vs && called.value.rs == sent.value.rs;
      } else {
        var i :| 0 <= i < |makers| && makers[i].order.hash.quote != taker.order.hash.quote;
        assert called.value.addresses[i][3] != sent.value.addresses[i][3];
      }
    }
  }

  /** What the engine publishes is aligned on one pair, its valid half still is, so for that half
      the transaction that is sent is the call that was estimated. */
  method EstimateAndSendValid(ghost s: Store, ghost o: Order, ghost answer: seq<Order>, ghost now: int, ghost valid: seq<bool>,
                              makers: seq<Signed>, taker: Signed, trades: seq<Trade>)
    returns (called: Option<Batch>, sent: Option<Batch>)
    requires AllCapped(s) && o.Capped() && IsMatching(s, o, answer) && answer != []
    requires var ms := Match(s, o, answer, now).response.matches;
             && |ms.makers| == |ms.trades| == |valid|
             && PickMatches(ms, valid, true) == Matches(SignedOrders(makers), taker.order, trades)
    ensures |makers| == |trades| && called == sent
    ensures sent.Some? ==> Lays(sent.value, makers, taker, trades)
    ensures forall i :: 0 <= i < |makers| ==> trades[i].maker == makers[i].order.hash && trades[i].taker == taker.order.hash
    ensures sent.Some? ==> forall i :: 0 <= i < |makers| ==>
              |sent.value.values[i]| == 10 && |sent.value.addresses[i]| == 4
    ensures sent.Some? ==> forall i :: 0 <= i < |makers| ==>
              && Decoded(sent.value.values[i], sent.value.addresses[i], 0) == trades[i].maker
              && Decoded(sent.value.values[i], sent.value.addresses[i], 1) == trades[i].taker
              && sent.value.amounts[i] == trades[i].amount
  {
    ghost var ms := Match(s, o, answer, now).response.matches;
    MatchAligned(s, o, answer, now);
    PickAligned(ms, valid, true);
    forall i | 0 <= i < |makers|
      ensures makers[i].order.hash.base == taker.order.hash.base && makers[i].order.hash.quote == taker.order.hash.quote
      ensures trades[i].maker == makers[i].order.hash && trades[i].taker == taker.order.hash
    {
      assert SignedOrders(makers)[i] in ms.makers;
    }
    called, sent := EstimateAndSend(makers, taker, trades);
    if sent.Some? {
      forall i | 0 <= i < |makers|
        ensures |sent.value.values[i]| == 10 && |sent.value.addresses[i]| == 4
        ensures Decoded(sent.value.values[i], sent.value.addresses[i], 0) == trades[i].maker
        ensures Decoded(sent.value.values[i], sent.value.addresses[i], 1) == trades[i].taker
      {
        DecodesTerms(sent.value.values[i], sent.value.addresses[i], makers[i], taker);
      }
    }
  }

  function SignedOrders(makers: seq<Signed>): (os: seq<Order>)
    ensures |os| == |makers| && forall i :: 0 <= i < |os| ==> os[i] == makers[i].order
  {
    seq(|makers|, i requires 0 <= i < |makers| => makers[i].order)
  }
}

/** The order collection as a map from hash to order, and the queries and updates
    the engine issues against it (daos/order.go). */
module OrderStore {
  import opened Orders

  type Store = map<Hash, Order>

  predicate WellKeyed(s: Store) {
    forall h :: h in s ==> s[h].hash == h
  }

  /** FindAndModify: overwrites every field except the creation time, which an upsert
      sets once, when the order is first inserted. */
  function Put(s: Store, o: Order, now: int): Store {
    s[o.hash := o.(createdAt := if o.hash in s then s[o.hash].createdAt else now)]
  }

  /** Writes a list of orders that already carry their stored creation times. */
  function PutAll(s: Store, os: seq<Order>): Store
    decreases |os|
  {
    if os == [] then s else PutAll(s[os[0].hash := os[0]], os[1..])
  }

  /** Update of a single status; a missing hash leaves the collection unchanged. */
  function SetStatus(s: Store, h: Hash, status: Status): Store {
    if h in s then s[h := s[h].(status := status)] else s
  }

  function SetStatuses(s: Store, hs: set<Hash>, status: Status): Store {
    map h | h in s :: if h in hs then s[h].(status := status) else s[h]
  }

  /** One element of UpdateOrderFilledAmounts: subtract, clamp to [0, amount], set the status. */
  function Rollback(o: Order, amount: int): Order {
    var filled := o.filled - amount;
    if filled <= 0 then o.(filled := 0, status := Open)
    else if filled >= o.hash.amount then o.(filled := o.hash.amount, status := Filled)
    else o.(filled := filled, status := PartialFilled)
  }

  function Rollbacks(found: seq<Order>, amounts: seq<int>): (updated: seq<Order>)
    requires |found| <= |amounts|
    ensures |updated| == |found|
    ensures forall i :: 0 <= i < |found| ==> updated[i] == Rollback(found[i], amounts[i])
  {
    seq(|found|, i requires 0 <= i < |found| => Rollback(found[i], amounts[i]))
  }

  /** The answer of a `$in` query: every stored order with one of the hashes, once, in any order. */
  ghost predicate IsFound(s: Store, hs: seq<Hash>, found: seq<Order>) {
    && Distinct(found)
    && (forall i :: 0 <= i < |found| ==> found[i].hash in hs && found[i].hash in s && s[found[i].hash] == found[i])
    && (forall h :: h in hs && h in s ==> s[h] in found)
  }

  /** m is on the opposite side of o's pair at a price o accepts. */
  predicate Crosses(m: Order, o: Order) {
    && m.Live()
    && m.hash.base == o.hash.base
    && m.hash.quote == o.hash.quote
    && m.hash.side == o.hash.side.Opposite()
    && (if o.hash.side.Buy? then m.hash.price <= o.hash.price else m.hash.price >= o.hash.price)
  }

  /** Price priority, then time priority: asks ascending, bids descending. */
  predicate NoLater(a: Order, b: Order) {
    if a.hash.price == b.hash.price then a.createdAt <= b.createdAt
    else if a.hash.side.Sell? then a.hash.price < b.hash.price
    else a.hash.price > b.hash.price
  }

  predicate Sorted(ms: seq<Order>) {
    forall i, j :: 0 <= i < j < |ms| ==> NoLater(ms[i], ms[j])
  }

  /** The answer of GetMatchingBuyOrders / GetMatchingSellOrders: exactly the crossing
      orders, in priority order, ties in any order. */
  ghost predicate IsMatching(s: Store, o: Order, ms: seq<Order>) {
    && Distinct(ms)
    && Sorted(ms)
    && (forall i :: 0 <= i < |ms| ==> ms[i].hash in s && s[ms[i].hash] == ms[i] && Crosses(ms[i], o))
    && (forall h :: h in s && Crosses(s[h], o) ==> s[h] in ms)
  }

  ghost function HashSet(os: seq<Order>): set<Hash> {
    set i | 0 <= i < |os| :: os[i].hash
  }

  lemma {:induction false} PutAllAt(s: Store, os: seq<Order>)
    requires Distinct(os)
    ensures PutAll(s, os).Keys == s.Keys + HashSet(os)
    ensures forall i :: 0 <= i < |os| ==> PutAll(s, os)[os[i].hash] == os[i]
    ensures forall h :: h in s && h !in HashSet(os) ==> PutAll(s, os)[h] == s[h]
    decreases |os|
  {
    if os != [] {
      var rest := os[1..];
      PutAllAt(s[os[0].hash := os[0]], rest);
      assert forall i :: 0 <= i < |rest| ==> rest[i] == os[i + 1];
      assert HashSet(os) == {os[0].hash} + HashSet(rest) by {
        assert forall i :: 1 <= i < |os| ==> os[i] == rest[i - 1];
      }
      assert PutAll(s, os) == PutAll(s[os[0].hash := os[0]], rest);
      forall i | 0 <= i < |os| ensures PutAll(s, os)[os[i].hash] == os[i] {
        if i > 0 { assert os[i] == rest[i - 1]; }
      }
    }
  }

  lemma {:induction false} PutAllSnoc(s: Store, os: seq<Order>, o: Order)
    ensures PutAll(s, os + [o]) == PutAll(s, os)[o.hash := o]
    decreases |os|
  {
    if os == [] {
      assert os + [o] == [o];
    } else {
      assert (os + [o])[1..] == os[1..] + [o];
      PutAllSnoc(s[os[0].hash := os[0]], os[1..], o);
    }
  }
}

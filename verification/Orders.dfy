/** Orders, trades and match batches (types/order.go, types/trade.go, types/engine.go). */
module Orders {
  type Address = nat
  type Token = nat

  datatype Side = Buy | Sell {
    function Opposite(): Side {
      if Buy? then Sell else Buy
    }
  }

  datatype Status = New | Open | PartialFilled | Filled | Cancelled | Invalidated | Error

  /** The signed terms of an order; the nonce stands for the remaining hashed fields. */
  datatype Terms = Terms(user: Address, base: Token, quote: Token, side: Side, price: int, amount: int, nonce: int)

  /** An order's hash is a Keccak digest of its terms. Collision freedom is modelled by
      letting the terms themselves be the hash: two orders with one hash have equal terms. */
  type Hash = Terms

  datatype Order = Order(hash: Hash, filled: int, status: Status, createdAt: int) {
    function Remaining(): int {
      hash.amount - filled
    }

    /** The statuses that every book query selects. */
    predicate Live() {
      status.Open? || status.PartialFilled?
    }

    predicate InRange() {
      0 <= filled <= hash.amount
    }

    /** No more filled than ordered; less than nothing is allowed. */
    predicate Capped() {
      0 <= hash.amount && filled <= hash.amount
    }

    /** Live, with something left to trade. */
    predicate Resting() {
      Live() && Remaining() > 0
    }

    /** The status of a live or filled order is the one its amounts call for. */
    predicate StatusAgrees() {
      && (status.Open? ==> filled == 0 < hash.amount)
      && (status.PartialFilled? ==> 0 < filled < hash.amount)
      && (status.Filled? ==> filled == hash.amount)
    }
  }

  /** An order as the engine receives it for the first time. */
  function Incoming(h: Hash): Order {
    Order(h, 0, New, 0)
  }

  /** A trade's own hash is the digest of the two order hashes, so the pair stands for it. */
  datatype Trade = Trade(maker: Hash, taker: Hash, amount: int, price: int)

  datatype Matches = Matches(makers: seq<Order>, taker: Order, trades: seq<Trade>)

  datatype Response =
    | OrderAdded(order: Order)
    | OrderFilled(order: Order, matches: Matches)
    | OrderPartiallyFilled(order: Order, matches: Matches)
    | OrderCancelled(order: Order)
    | TradesCancelled(invalidated: seq<Order>)

  predicate Distinct(os: seq<Order>) {
    forall i, j :: 0 <= i < j < |os| ==> os[i].hash != os[j].hash
  }

  function TradeSum(ts: seq<Trade>): int {
    if ts == [] then 0 else ts[0].amount + TradeSum(ts[1..])
  }

  function RemainingSum(os: seq<Order>): int {
    if os == [] then 0 else os[0].Remaining() + RemainingSum(os[1..])
  }

  function TradeAmounts(ts: seq<Trade>): (amounts: seq<int>)
    ensures |amounts| == |ts|
    ensures forall i :: 0 <= i < |ts| ==> amounts[i] == ts[i].amount
  {
    seq(|ts|, i requires 0 <= i < |ts| => ts[i].amount)
  }
}

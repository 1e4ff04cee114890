/** The rows of the exchange's database and the pure helpers of the matching engine.

    Money is held in integer cents.  The SQL CHECK constraints that PostgreSQL enforces on every
    row (a price is positive, quantities and holdings are not negative) are types here; a balance
    carries no such constraint in the schema, so it is a plain integer and its sign is a theorem. */
module Orders {
  datatype Option<+T> = None | Some(value: T)

  datatype OrderId = OrderId(text: string)
  datatype UserId = UserId(text: string)
  datatype Symbol = Symbol(text: string)

  type Cents = c: int | 0 < c witness 1
  type Quantity = q: int | 0 < q witness 1

  datatype Side = Buy | Sell {
    function Opposite(): Side {
      if Buy? then Sell else Buy
    }
  }

  datatype OrderType = Market | Limit

  datatype Status = Open | PartiallyFilled | Filled | Cancelled

  datatype Order = Order(
    id: OrderId,
    userId: UserId,
    symbol: Symbol,
    orderType: OrderType,
    side: Side,
    price: Option<Cents>,
    quantity: Quantity,
    filled: nat,
    status: Status)

  datatype Holding = Holding(quantity: nat, averageCents: nat)

  datatype HoldingKey = HoldingKey(user: UserId, symbol: Symbol)

  datatype Trade = Trade(buyOrderId: OrderId, sellOrderId: OrderId, symbol: Symbol, price: Cents, quantity: Quantity)

  datatype Db = Db(
    orders: map<OrderId, Order>,
    balances: map<UserId, int>,
    holdings: map<HoldingKey, Holding>,
    trades: seq<Trade>)

  function Remaining(order: Order): int {
    order.quantity - order.filled
  }

  predicate OpenStatus(status: Status) {
    status.Open? || status.PartiallyFilled?
  }

  predicate IsOpen(order: Order) {
    OpenStatus(order.status) && Remaining(order) > 0
  }

  function StatusAfterFill(order: Order, executed: nat, cancelRemainder: bool): Status {
    var nextFilled := order.filled + executed;
    if nextFilled >= order.quantity then Filled
    else if cancelRemainder then Cancelled
    else if nextFilled > 0 then PartiallyFilled
    else Open
  }

  /** The row `setOrderState` returns after its UPDATE. */
  function SetOrderState(order: Order, executed: nat, cancelRemainder: bool): Order {
    order.(filled := order.filled + executed, status := StatusAfterFill(order, executed, cancelRemainder))
  }

  predicate CanMatch(incoming: Order, resting: Order) {
    if incoming.symbol != resting.symbol || incoming.side == resting.side then false
    else if incoming.orderType.Market? then true
    else if resting.price.None? || incoming.price.None? then false
    else if incoming.side.Buy? then resting.price.value <= incoming.price.value
    else resting.price.value >= incoming.price.value
  }

  function Min(a: int, b: int): int {
    if a <= b then a else b
  }

  /** The columns of an order that no statement in the repository ever updates. */
  predicate SameTerms(a: Order, b: Order) {
    a.(filled := b.filled, status := b.status) == b
  }

  /** Two limit orders of different users that the engine would pair: the book is crossed. */
  predicate Crossing(a: Order, b: Order) {
    a.orderType.Limit? && b.orderType.Limit? && a.userId != b.userId && CanMatch(a, b)
  }
}

/** The tables the order and inventory services share. */
module Domain {
  import opened Prelude

  type ProductId = nat
  type LocationId = nat
  type OrderId = nat
  type ItemId = nat
  type Time = int

  /** A stock row is identified by the pair its table declares unique. */
  datatype StockKey = StockKey(product: ProductId, location: LocationId)

  datatype Stock = Stock(quantity: int, reserved: int, reorderPoint: int, alertedAt: Option<Time>) {

    function Available(): int { quantity - reserved }

    predicate IsLow() { reorderPoint > 0 && Available() <= reorderPoint }

    /** The alert column is set exactly while the row is low. */
    predicate FlagAgrees() { alertedAt.Some? <==> IsLow() }

    /** Low without its alert set: only a new row, between the commits of its creation. */
    predicate Unseen() { IsLow() && alertedAt.None? }

    /** Not low with its alert set: only a row whose creation set the alert too late. */
    predicate Stale() { !IsLow() && alertedAt.Some? }
  }

  datatype ReservationStatus = Reserved | Fulfilled | Released

  /** The reservation of an order item; `order_item_id` is unique, so the table is a map from it. */
  datatype Reservation = Reservation(stock: StockKey, quantity: int, status: ReservationStatus)

  datatype Item = Item(id: ItemId, product: ProductId, quantity: int)

  datatype OrderStatus = Created | Confirmed | Cancelled | Completed

  datatype Order = Order(status: OrderStatus, items: seq<Item>)

  datatype MovementKind = In | Out | Adjust

  datatype Movement = Movement(stock: StockKey, kind: MovementKind, quantity: int, previous: int, next: int)

  /** A recorded movement; the database stamps it with the time of the transaction that inserts it. */
  datatype LedgerRow = LedgerRow(movement: Movement, createdAt: Time)

  /** `itemOrder` is the `order_id` column of the order items. */
  datatype Db = Db(
    products: set<ProductId>,
    locations: set<LocationId>,
    stocks: map<StockKey, Stock>,
    reservations: map<ItemId, Reservation>,
    orders: map<OrderId, Order>,
    itemOrder: map<ItemId, OrderId>,
    movements: seq<LedgerRow>)

  datatype Error =
    | OrderNotFound | InvalidOrderStatus | OrderItemNotFound | InvalidQuantity
    | ProductNotFound | InvalidLocation | InvalidQuantityStock | StockAlreadyExists
    | InvalidProductOrLocation | StockNegative | StockNotFound | InsufficientStock
    | ReservationNotFound | InvalidReservationStatus
    | InvalidReplenishmentPolicy
    | IntegrityError
}

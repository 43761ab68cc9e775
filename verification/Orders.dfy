/** Order transitions as functions of the tables, their loops over the order's items, and what they keep. */
module Orders {
  import opened Prelude
  import opened Domain
  import opened Inventory

  /** The n-th clock reading taken while one request runs. */
  type Clock = nat -> Time

  function ItemKey(it: Item, location: LocationId): StockKey { StockKey(it.product, location) }

  // ---- the loops, cut off after the first n items

  function ReserveFirst(db: Db, items: seq<Item>, location: LocationId, clock: Clock, n: nat): Result<Db, Error>
    requires n <= |items|
  {
    if n == 0 then Ok(db)
    else
      var d :- ReserveFirst(db, items, location, clock, n - 1);
      var it := items[n - 1];
      Reserve(d, it.id, ItemKey(it, location), it.quantity, clock(n - 1))
  }

  function ReleaseFirst(db: Db, items: seq<Item>, clock: Clock, n: nat): Result<Db, Error>
    requires n <= |items|
  {
    if n == 0 then Ok(db)
    else
      var d :- ReleaseFirst(db, items, clock, n - 1);
      if items[n - 1].id !in d.reservations then Ok(d) else Release(d, items[n - 1].id, clock(n - 1))
  }

  function FulfillFirst(db: Db, items: seq<Item>, clock: Clock, at: Time, n: nat): Result<Db, Error>
    requires n <= |items|
  {
    if n == 0 then Ok(db)
    else
      var d :- FulfillFirst(db, items, clock, at, n - 1);
      if items[n - 1].id !in d.reservations then Ok(d) else Fulfill(d, items[n - 1].id, clock(n - 1), at)
  }

  function SetStatus(db: Db, o: OrderId, status: OrderStatus): Db
    requires o in db.orders
  {
    db.(orders := db.orders[o := db.orders[o].(status := status)])
  }

  // ---- the transactions

  function Guard(db: Db, o: OrderId, status: OrderStatus): Result<Order, Error> {
    if o !in db.orders then Err(OrderNotFound)
    else if db.orders[o].status != status then Err(InvalidOrderStatus)
    else Ok(db.orders[o])
  }

  function Confirm(db: Db, o: OrderId, location: LocationId, clock: Clock): Result<Db, Error> {
    var ord :- Guard(db, o, Created);
    var d :- ReserveFirst(db, ord.items, location, clock, |ord.items|);
    Ok(d.(orders := db.orders[o := ord.(status := Confirmed)]))
  }

  function Cancel(db: Db, o: OrderId, clock: Clock): Result<Db, Error> {
    var ord :- Guard(db, o, Confirmed);
    var d :- ReleaseFirst(db, ord.items, clock, |ord.items|);
    Ok(d.(orders := db.orders[o := ord.(status := Cancelled)]))
  }

  function Complete(db: Db, o: OrderId, clock: Clock, at: Time): Result<Db, Error> {
    var ord :- Guard(db, o, Confirmed);
    var d :- FulfillFirst(db, ord.items, clock, at, |ord.items|);
    Ok(d.(orders := db.orders[o := ord.(status := Completed)]))
  }

  function CreateOrder(db: Db, o: OrderId): Result<Db, Error> {
    if o in db.orders then Err(IntegrityError)
    else Ok(db.(orders := db.orders[o := Order(Created, [])]))
  }

  function AddItem(db: Db, o: OrderId, id: ItemId, product: ProductId, quantity: int): Result<Db, Error> {
    if product !in db.products then Err(ProductNotFound)
    else if o !in db.orders then Err(OrderNotFound)
    else if db.orders[o].status != Created then Err(InvalidOrderStatus)
    else if quantity <= 0 then Err(InvalidQuantity)
    else if id in db.itemOrder then Err(IntegrityError)
    else
      var items := db.orders[o].items + [Item(id, product, quantity)];
      Ok(db.(orders := db.orders[o := Order(Created, items)], itemOrder := db.itemOrder[id := o]))
  }

  /** The position of the first item of a product, or the length of the list. */
  function FirstOf(items: seq<Item>, product: ProductId): (i: nat)
    ensures i <= |items|
    ensures i < |items| ==> items[i].product == product
    ensures forall j :: 0 <= j < i ==> items[j].product != product
  {
    if items == [] then 0
    else if items[0].product == product then 0
    else 1 + FirstOf(items[1..], product)
  }

  function RemoveItem(db: Db, o: OrderId, product: ProductId): Result<Db, Error> {
    var ord :- Guard(db, o, Created);
    var i := FirstOf(ord.items, product);
    if i == |ord.items| then Err(OrderItemNotFound)
    else Ok(db.(orders := db.orders[o := ord.(items := Without(ord.items, i))],
                itemOrder := db.itemOrder - {ord.items[i].id}))
  }

  // ---- the order/reservation correspondence

  function Expected(status: OrderStatus): ReservationStatus
    requires !status.Created?
  {
    match status
    case Confirmed => Reserved
    case Cancelled => Released
    case Completed => Fulfilled
  }

  ghost predicate Distinct(items: seq<Item>) {
    forall i, j :: 0 <= i < j < |items| ==> items[i].id != items[j].id
  }

  /** A created order's item has no reservation; any other order's item has one of the same quantity,
      on a row of the same product, in the status its order is in. */
  ghost predicate ItemInv(db: Db, o: OrderId, status: OrderStatus, it: Item) {
    && it.quantity > 0
    && it.id in db.itemOrder && db.itemOrder[it.id] == o
    && if status.Created? then it.id !in db.reservations
       else it.id in db.reservations && Mirrors(db.reservations[it.id], it, Expected(status))
  }

  ghost predicate Mirrors(r: Reservation, it: Item, status: ReservationStatus) {
    r.quantity == it.quantity && r.stock.product == it.product && r.status == status
  }

  ghost predicate OrderInv(db: Db) {
    && (forall o :: o in db.orders ==> Distinct(db.orders[o].items))
    && (forall o, it :: o in db.orders && it in db.orders[o].items ==> ItemInv(db, o, db.orders[o].status, it))
    && (forall id :: id in db.reservations ==> id in db.itemOrder)
    && (forall id :: id in db.itemOrder ==> db.itemOrder[id] in db.orders)
  }

  ghost predicate Inv(db: Db) { StockInv(db) && OrderInv(db) }

  // ---- reserving

  /** The total quantity the first n items ask of one product. */
  ghost function Demand(items: seq<Item>, n: nat, product: ProductId): int
    requires n <= |items|
  {
    if n == 0 then 0
    else Demand(items, n - 1, product) + (if items[n - 1].product == product then items[n - 1].quantity else 0)
  }

  ghost function DemandAt(items: seq<Item>, n: nat, location: LocationId, k: StockKey): int
    requires n <= |items|
  {
    if k.location == location then Demand(items, n, k.product) else 0
  }

  /** Items of positive quantity that have no reservation yet. */
  ghost predicate Bookable(db: Db, items: seq<Item>) {
    && Distinct(items)
    && forall i :: 0 <= i < |items| ==> items[i].quantity > 0 && items[i].id !in db.reservations
  }

  ghost predicate FlagsAgree(db: Db) {
    forall k :: k in db.stocks ==> db.stocks[k].FlagAgrees()
  }

  /** The row reserves `extra` more and nothing else, and its alert column agrees with it from then on; if it was
      rightly set already it keeps its time. A row of which nothing is asked is untouched. */
  ghost predicate RowReserved(s: Stock, t: Stock, extra: int) {
    if extra == 0 then t == s
    else
      && t.FlagAgrees()
      && t.(alertedAt := s.alertedAt) == s.(reserved := s.reserved + extra)
      && (s.FlagAgrees() && s.alertedAt.Some? ==> t.alertedAt == s.alertedAt)
  }

  /** One open reservation for each of the first n items. */
  ghost function Bookings(items: seq<Item>, n: nat, location: LocationId): map<ItemId, Reservation>
    requires n <= |items|
  {
    if n == 0 then map[]
    else Bookings(items, n - 1, location)
         [items[n - 1].id := Reservation(ItemKey(items[n - 1], location), items[n - 1].quantity, Reserved)]
  }

  lemma {:induction false} BookingsOfItems(items: seq<Item>, n: nat, location: LocationId)
    requires n <= |items| && Distinct(items)
    ensures forall id :: id in Bookings(items, n, location) ==> exists i :: 0 <= i < n && items[i].id == id
    ensures forall i :: 0 <= i < n ==>
      && items[i].id in Bookings(items, n, location)
      && Bookings(items, n, location)[items[i].id]
         == Reservation(ItemKey(items[i], location), items[i].quantity, Reserved)
  {
    if n != 0 {
      BookingsOfItems(items, n - 1, location);
    }
  }

  lemma {:induction false} DemandNonNegative(items: seq<Item>, n: nat, product: ProductId)
    requires n <= |items| && forall i :: 0 <= i < |items| ==> items[i].quantity > 0
    ensures Demand(items, n, product) >= 0
  {
    if n != 0 {
      DemandNonNegative(items, n - 1, product);
    }
  }

  /** Every row reserves exactly the demand on it, every item gets one open reservation, nothing else changes. */
  ghost predicate ReservedExactly(db: Db, d: Db, items: seq<Item>, n: nat, location: LocationId)
    requires n <= |items|
  {
    && d.stocks.Keys == db.stocks.Keys
    && (forall k :: k in db.stocks ==> RowReserved(db.stocks[k], d.stocks[k], DemandAt(items, n, location, k)))
    && d == db.(stocks := d.stocks, reservations := db.reservations + Bookings(items, n, location))
  }

  lemma {:induction false} ReserveFirstExact(db: Db, items: seq<Item>, location: LocationId, clock: Clock, n: nat)
    requires n <= |items| && Bookable(db, items)
    requires ReserveFirst(db, items, location, clock, n).Ok?
    ensures ReservedExactly(db, ReserveFirst(db, items, location, clock, n).value, items, n, location)
  {
    if n == 0 {
      assert db.reservations + map[] == db.reservations;
    } else {
      ReserveFirstExact(db, items, location, clock, n - 1);
      ReserveStep(db, ReserveFirst(db, items, location, clock, n - 1).value, items, n, location, clock(n - 1));
    }
  }

  lemma ReserveStep(db: Db, d: Db, items: seq<Item>, n: nat, location: LocationId, now: Time)
    requires 0 < n <= |items| && Bookable(db, items) && ReservedExactly(db, d, items, n - 1, location)
    requires Reserve(d, items[n - 1].id, ItemKey(items[n - 1], location), items[n - 1].quantity, now).Ok?
    ensures ReservedExactly(
      db, Reserve(d, items[n - 1].id, ItemKey(items[n - 1], location), items[n - 1].quantity, now).value,
      items, n, location)
  {
    var it, key := items[n - 1], ItemKey(items[n - 1], location);
    var d' := Reserve(d, it.id, key, it.quantity, now).value;
    assert d'.reservations == db.reservations + Bookings(items, n, location);
    DemandNonNegative(items, n - 1, it.product);
    forall k | k in db.stocks
      ensures RowReserved(db.stocks[k], d'.stocks[k], DemandAt(items, n, location, k))
    {
      assert RowReserved(db.stocks[k], d.stocks[k], DemandAt(items, n - 1, location, k));
      if k != key {
        assert DemandAt(items, n, location, k) == DemandAt(items, n - 1, location, k);
      }
    }
  }

  lemma {:induction false} DemandGrows(items: seq<Item>, m: nat, n: nat, product: ProductId)
    requires m <= n <= |items|
    requires forall i :: 0 <= i < |items| ==> items[i].quantity > 0
    ensures Demand(items, m, product) <= Demand(items, n, product)
  {
    if m < n {
      DemandGrows(items, m, n - 1, product);
    }
  }

  /** The aggregate test: each asked row exists and has the summed demand available. */
  ghost predicate Fits(db: Db, items: seq<Item>, n: nat, location: LocationId)
    requires n <= |items|
  {
    forall i :: 0 <= i < n ==>
      && ItemKey(items[i], location) in db.stocks
      && Demand(items, n, items[i].product) <= db.stocks[ItemKey(items[i], location)].Available()
  }

  lemma {:induction false} ReserveFirstIffFits(db: Db, items: seq<Item>, location: LocationId, clock: Clock, n: nat)
    requires n <= |items| && Bookable(db, items)
    ensures ReserveFirst(db, items, location, clock, n).Ok? <==> Fits(db, items, n, location)
  {
    if n != 0 {
      ReserveFirstIffFits(db, items, location, clock, n - 1);
      FitsStep(db, items, n, location);
      if ReserveFirst(db, items, location, clock, n - 1).Ok? {
        ReserveFirstExact(db, items, location, clock, n - 1);
        ReserveOkIff(db, ReserveFirst(db, items, location, clock, n - 1).value, items, n, location, clock(n - 1));
      }
    }
  }

  /** The n-th item is reserved exactly when its row has the summed demand of the first n available at the start. */
  lemma ReserveOkIff(db: Db, d: Db, items: seq<Item>, n: nat, location: LocationId, now: Time)
    requires 0 < n <= |items| && Bookable(db, items) && ReservedExactly(db, d, items, n - 1, location)
    ensures var it := items[n - 1];
            var key := ItemKey(it, location);
            Reserve(d, it.id, key, it.quantity, now).Ok? <==>
            key in db.stocks && Demand(items, n, key.product) <= db.stocks[key].Available()
  {
    var key := ItemKey(items[n - 1], location);
    BookingsOfItems(items, n - 1, location);
    assert items[n - 1].id !in d.reservations;
    if key in db.stocks {
      assert RowReserved(db.stocks[key], d.stocks[key], DemandAt(items, n - 1, location, key));
    }
  }

  /** The test of n items is the test of n - 1 and room for the last on its row. */
  lemma FitsStep(db: Db, items: seq<Item>, n: nat, location: LocationId)
    requires 0 < n <= |items| && forall i :: 0 <= i < |items| ==> items[i].quantity > 0
    ensures var key := ItemKey(items[n - 1], location);
            Fits(db, items, n, location) <==>
            Fits(db, items, n - 1, location) && key in db.stocks
              && Demand(items, n, key.product) <= db.stocks[key].Available()
  {
    forall i | 0 <= i < n { DemandGrows(items, n - 1, n, items[i].product); }
    var key := ItemKey(items[n - 1], location);
    if Fits(db, items, n - 1, location) && key in db.stocks
      && Demand(items, n, key.product) <= db.stocks[key].Available() {
      forall i | 0 <= i < n
        ensures ItemKey(items[i], location) in db.stocks
        ensures Demand(items, n, items[i].product) <= db.stocks[ItemKey(items[i], location)].Available()
      {
        if items[i].product == key.product {
          assert ItemKey(items[i], location) == key;
        }
      }
    }
    if Fits(db, items, n, location) {
      forall i | 0 <= i < n - 1
        ensures ItemKey(items[i], location) in db.stocks
        ensures Demand(items, n - 1, items[i].product) <= db.stocks[ItemKey(items[i], location)].Available()
      {
      }
    }
  }

  /** Once the loop has failed it has failed for good. */
  lemma {:induction false} FailurePersists(db: Db, items: seq<Item>, location: LocationId, clock: Clock, n: nat, m: nat)
    requires n <= m <= |items| && ReserveFirst(db, items, location, clock, n).Err?
    ensures ReserveFirst(db, items, location, clock, m) == ReserveFirst(db, items, location, clock, n)
  {
    if n < m {
      FailurePersists(db, items, location, clock, n, m - 1);
    }
  }

  lemma CreatedIsBookable(db: Db, o: OrderId)
    requires Inv(db) && o in db.orders && db.orders[o].status == Created
    ensures Bookable(db, db.orders[o].items)
  {
    var items := db.orders[o].items;
    forall i | 0 <= i < |items| ensures items[i].quantity > 0 && items[i].id !in db.reservations {
      assert items[i] in items;
    }
  }

  /** Confirming a created order succeeds exactly when every product it asks for has a row at the location with
      the summed demand available, and then reserves exactly that. */
  lemma ConfirmIsTheAggregateTest(db: Db, o: OrderId, location: LocationId, clock: Clock)
    requires Inv(db) && o in db.orders && db.orders[o].status == Created
    ensures var items := db.orders[o].items;
            && (Confirm(db, o, location, clock).Ok? <==> Fits(db, items, |items|, location))
            && (Confirm(db, o, location, clock).Ok? ==>
                 var d := Confirm(db, o, location, clock).value;
                 && ReservedExactly(db, d.(orders := db.orders), items, |items|, location)
                 && d.orders == SetStatus(db, o, Confirmed).orders)
  {
    var items := db.orders[o].items;
    CreatedIsBookable(db, o);
    ReserveFirstIffFits(db, items, location, clock, |items|);
    if ReserveFirst(db, items, location, clock, |items|).Ok? {
      ReserveFirstExact(db, items, location, clock, |items|);
      var d := ReserveFirst(db, items, location, clock, |items|).value;
      assert Confirm(db, o, location, clock).value.(orders := db.orders) == d;
    }
  }

  lemma {:induction false} ReserveFirstKeeps(db: Db, items: seq<Item>, location: LocationId, clock: Clock, n: nat)
    requires n <= |items| && StockInv(db) && ReserveFirst(db, items, location, clock, n).Ok?
    ensures StockInv(ReserveFirst(db, items, location, clock, n).value)
  {
    if n != 0 {
      ReserveFirstKeeps(db, items, location, clock, n - 1);
      var d := ReserveFirst(db, items, location, clock, n - 1).value;
      ReserveKeeps(d, items[n - 1].id, ItemKey(items[n - 1], location), items[n - 1].quantity, clock(n - 1));
    }
  }

  lemma StockInvIgnoresOrders(db: Db, d: Db)
    requires StockInv(db) && d.stocks == db.stocks && d.reservations == db.reservations
    ensures StockInv(d)
  {
    forall k | k in d.stocks ensures RowInv(d, k) { assert RowInv(db, k); }
  }

  /** Moving one order to another status keeps the correspondence when only its own items' reservations change. */
  lemma TransitionKeeps(db: Db, d: Db, o: OrderId, status: OrderStatus)
    requires OrderInv(db) && o in db.orders
    requires d.orders == db.orders[o := db.orders[o].(status := status)] && d.itemOrder == db.itemOrder
    requires forall id :: id in d.reservations && id !in db.reservations ==> id in db.itemOrder
    requires forall id :: id in db.itemOrder && db.itemOrder[id] != o ==>
      if id in db.reservations then id in d.reservations && d.reservations[id] == db.reservations[id]
      else id !in d.reservations
    requires forall it :: it in db.orders[o].items ==> ItemInv(d, o, status, it)
    ensures OrderInv(d)
  {
    forall p, it | p in d.orders && it in d.orders[p].items ensures ItemInv(d, p, d.orders[p].status, it) {
      assert ItemInv(db, p, db.orders[p].status, it);
    }
  }

  lemma ConfirmKeeps(db: Db, o: OrderId, location: LocationId, clock: Clock)
    requires Inv(db) && Confirm(db, o, location, clock).Ok?
    ensures Inv(Confirm(db, o, location, clock).value)
  {
    var items := db.orders[o].items;
    ConfirmIsTheAggregateTest(db, o, location, clock);
    ReserveFirstKeeps(db, items, location, clock, |items|);
    BookingsOfItems(items, |items|, location);
    var d := Confirm(db, o, location, clock).value;
    StockInvIgnoresOrders(ReserveFirst(db, items, location, clock, |items|).value, d);
    forall it | it in items ensures ItemInv(d, o, Confirmed, it) {
      assert ItemInv(db, o, Created, it);
    }
    forall id | id in Bookings(items, |items|, location) ensures id in db.itemOrder && db.itemOrder[id] == o {
      var i :| 0 <= i < |items| && id == items[i].id;
      assert items[i] in items;
    }
    TransitionKeeps(db, d, o, Confirmed);
  }

  // ---- releasing and fulfilling

  /** Every item has an open reservation of a positive quantity, on an existing row whose low stock has been seen. */
  ghost predicate AllOpen(db: Db, items: seq<Item>) {
    && Distinct(items)
    && forall i :: 0 <= i < |items| ==>
         && items[i].id in db.reservations
         && db.reservations[items[i].id].status == Reserved
         && ReservationInv(db, db.reservations[items[i].id])
  }

  /** The quantity that the reservations of the first n items hold on a row. */
  ghost function HeldBy(rs: map<ItemId, Reservation>, items: seq<Item>, n: nat, k: StockKey): int
    requires n <= |items|
  {
    if n == 0 then 0
    else
      var id := items[n - 1].id;
      HeldBy(rs, items, n - 1, k) + (if id in rs && rs[id].stock == k then rs[id].quantity else 0)
  }

  /** The reservation table once those of the first n items have moved to another status. */
  ghost function Closed(rs: map<ItemId, Reservation>, items: seq<Item>, n: nat,
                        status: ReservationStatus): map<ItemId, Reservation>
    requires n <= |items|
  {
    if n == 0 then rs
    else
      var id := items[n - 1].id;
      var closed := Closed(rs, items, n - 1, status);
      if id in rs then closed[id := rs[id].(status := status)] else closed
  }

  lemma {:induction false} ClosedOfItems(rs: map<ItemId, Reservation>, items: seq<Item>, n: nat,
                                         status: ReservationStatus)
    requires n <= |items| && Distinct(items)
    ensures Closed(rs, items, n, status).Keys == rs.Keys
    ensures forall id :: id in rs && (forall i :: 0 <= i < n ==> items[i].id != id) ==>
      Closed(rs, items, n, status)[id] == rs[id]
    ensures forall i :: 0 <= i < n && items[i].id in rs ==>
      Closed(rs, items, n, status)[items[i].id] == rs[items[i].id].(status := status)
  {
    if n != 0 {
      ClosedOfItems(rs, items, n - 1, status);
    }
  }

  /** The row becomes `changed` with its alert column in agreement, set only if it was set, and then at the same
      time. */
  ghost predicate ChangedQuietly(s: Stock, t: Stock, changed: Stock) {
    t.FlagAgrees() && t.(alertedAt := s.alertedAt) == changed && (t.alertedAt.Some? ==> t.alertedAt == s.alertedAt)
  }

  /** The row reserves `less` fewer and nothing else, and raises no alert. */
  ghost predicate RowReleased(s: Stock, t: Stock, less: int) {
    if less == 0 then t == s else ChangedQuietly(s, t, s.(reserved := s.reserved - less))
  }

  ghost predicate ReleasedExactly(db: Db, d: Db, items: seq<Item>, n: nat)
    requires n <= |items|
  {
    && d.stocks.Keys == db.stocks.Keys
    && (forall k :: k in db.stocks ==> RowReleased(db.stocks[k], d.stocks[k], HeldBy(db.reservations, items, n, k)))
    && d == db.(stocks := d.stocks, reservations := Closed(db.reservations, items, n, Released))
  }

  lemma {:induction false} ReleaseFirstExact(db: Db, items: seq<Item>, clock: Clock, n: nat)
    requires n <= |items| && AllOpen(db, items)
    ensures ReleaseFirst(db, items, clock, n).Ok?
    ensures ReleasedExactly(db, ReleaseFirst(db, items, clock, n).value, items, n)
  {
    if n != 0 {
      ReleaseFirstExact(db, items, clock, n - 1);
      ReleaseStep(db, ReleaseFirst(db, items, clock, n - 1).value, items, n, clock(n - 1));
    }
  }

  lemma ReleaseStep(db: Db, d: Db, items: seq<Item>, n: nat, now: Time)
    requires 0 < n <= |items| && AllOpen(db, items) && ReleasedExactly(db, d, items, n - 1)
    ensures items[n - 1].id in d.reservations && Release(d, items[n - 1].id, now).Ok?
    ensures ReleasedExactly(db, Release(d, items[n - 1].id, now).value, items, n)
  {
    var id, r := StillOpen(db, items, n, Released);
    var d' := Release(d, id, now).value;
    forall k | k in db.stocks
      ensures RowReleased(db.stocks[k], d'.stocks[k], HeldBy(db.reservations, items, n, k))
    {
      HeldByNonNegative(db, items, n - 1, k);
      if k == r.stock {
        RowReleaseStep(db.stocks[k], d.stocks[k], HeldBy(db.reservations, items, n - 1, k), r.quantity, now);
      }
    }
  }

  lemma {:induction false} HeldByNonNegative(db: Db, items: seq<Item>, n: nat, k: StockKey)
    requires n <= |items| && AllOpen(db, items)
    ensures HeldBy(db.reservations, items, n, k) >= 0
  {
    if n != 0 {
      HeldByNonNegative(db, items, n - 1, k);
    }
  }

  /** The reservation of the n-th item is untouched by the items before it. */
  lemma StillOpen(db: Db, items: seq<Item>, n: nat, status: ReservationStatus) returns (id: ItemId, r: Reservation)
    requires 0 < n <= |items| && AllOpen(db, items)
    ensures id == items[n - 1].id && id in db.reservations && r == db.reservations[id]
    ensures r.status == Reserved && ReservationInv(db, r)
    ensures id in Closed(db.reservations, items, n - 1, status)
            && Closed(db.reservations, items, n - 1, status)[id] == r
    ensures Closed(db.reservations, items, n, status)
            == Closed(db.reservations, items, n - 1, status)[id := r.(status := status)]
    ensures forall k :: HeldBy(db.reservations, items, n, k)
                     == HeldBy(db.reservations, items, n - 1, k) + (if k == r.stock then r.quantity else 0)
  {
    UntouchedBefore(db, items, n, status);
    id := items[n - 1].id;
    r := db.reservations[id];
  }

  lemma UntouchedBefore(db: Db, items: seq<Item>, n: nat, status: ReservationStatus)
    requires 0 < n <= |items| && AllOpen(db, items)
    ensures var id := items[n - 1].id;
            var closed := Closed(db.reservations, items, n - 1, status);
            id in db.reservations && id in closed && closed[id] == db.reservations[id]
  {
    ClosedOfItems(db.reservations, items, n - 1, status);
  }

  lemma RowReleaseStep(s: Stock, t: Stock, less: int, q: int, now: Time)
    requires !s.Unseen() && RowReleased(s, t, less) && less >= 0 && q > 0
    ensures RowReleased(s, Sync(t.(reserved := t.reserved - q), now), less + q)
  {
  }

  /** One OUT movement per item, each starting from the quantity the one before it on that row left. */
  ghost function Sales(db: Db, items: seq<Item>, n: nat, at: Time): seq<LedgerRow>
    requires n <= |items| && AllOpen(db, items)
  {
    if n == 0 then []
    else
      var r := db.reservations[items[n - 1].id];
      var q := db.stocks[r.stock].quantity;
      Sales(db, items, n - 1, at)
      + [LedgerRow(Movement(r.stock, Out, r.quantity, q - HeldBy(db.reservations, items, n - 1, r.stock),
                            q - HeldBy(db.reservations, items, n, r.stock)), at)]
  }

  function Sold(s: Stock, amount: int): Stock {
    s.(quantity := s.quantity - amount, reserved := s.reserved - amount)
  }

  /** The row loses `amount` of what it has and of what it reserves, and raises no alert. */
  ghost predicate RowSold(s: Stock, t: Stock, amount: int) {
    if amount == 0 then t == s else ChangedQuietly(s, t, Sold(s, amount))
  }

  lemma RowSoldStep(s: Stock, t: Stock, amount: int, q: int, now: Time)
    requires !s.Unseen() && RowSold(s, t, amount) && amount >= 0 && q > 0
    ensures RowSold(s, Sync(t.(quantity := t.quantity - q, reserved := t.reserved - q), now), amount + q)
  {
  }

  ghost predicate FulfilledExactly(db: Db, d: Db, items: seq<Item>, n: nat, at: Time)
    requires n <= |items| && AllOpen(db, items)
  {
    && d.stocks.Keys == db.stocks.Keys
    && (forall k :: k in db.stocks ==> RowSold(db.stocks[k], d.stocks[k], HeldBy(db.reservations, items, n, k)))
    && d == db.(stocks := d.stocks, reservations := Closed(db.reservations, items, n, Fulfilled),
                movements := db.movements + Sales(db, items, n, at))
  }

  lemma {:induction false} FulfillFirstExact(db: Db, items: seq<Item>, clock: Clock, at: Time, n: nat)
    requires n <= |items| && AllOpen(db, items)
    ensures FulfillFirst(db, items, clock, at, n).Ok?
    ensures FulfilledExactly(db, FulfillFirst(db, items, clock, at, n).value, items, n, at)
  {
    if n != 0 {
      FulfillFirstExact(db, items, clock, at, n - 1);
      FulfillStep(db, FulfillFirst(db, items, clock, at, n - 1).value, items, n, clock(n - 1), at);
    }
  }

  lemma FulfillStep(db: Db, d: Db, items: seq<Item>, n: nat, now: Time, at: Time)
    requires 0 < n <= |items| && AllOpen(db, items) && FulfilledExactly(db, d, items, n - 1, at)
    ensures items[n - 1].id in d.reservations && Fulfill(d, items[n - 1].id, now, at).Ok?
    ensures FulfilledExactly(db, Fulfill(d, items[n - 1].id, now, at).value, items, n, at)
  {
    var id, r := StillOpen(db, items, n, Fulfilled);
    var d' := Fulfill(d, id, now, at).value;
    HeldByNonNegative(db, items, n - 1, r.stock);
    RowSoldStep(db.stocks[r.stock], d.stocks[r.stock], HeldBy(db.reservations, items, n - 1, r.stock), r.quantity, now);
    assert d'.movements == db.movements + Sales(db, items, n, at);
  }

  lemma {:induction false} ReleaseFirstKeeps(db: Db, items: seq<Item>, clock: Clock, n: nat)
    requires n <= |items| && StockInv(db) && ReleaseFirst(db, items, clock, n).Ok?
    ensures StockInv(ReleaseFirst(db, items, clock, n).value)
  {
    if n != 0 {
      ReleaseFirstKeeps(db, items, clock, n - 1);
      var d := ReleaseFirst(db, items, clock, n - 1).value;
      if items[n - 1].id in d.reservations {
        ReleaseKeeps(d, items[n - 1].id, clock(n - 1));
      }
    }
  }

  lemma {:induction false} FulfillFirstKeeps(db: Db, items: seq<Item>, clock: Clock, at: Time, n: nat)
    requires n <= |items| && StockInv(db) && FulfillFirst(db, items, clock, at, n).Ok?
    ensures StockInv(FulfillFirst(db, items, clock, at, n).value)
  {
    if n != 0 {
      FulfillFirstKeeps(db, items, clock, at, n - 1);
      var d := FulfillFirst(db, items, clock, at, n - 1).value;
      if items[n - 1].id in d.reservations {
        FulfillKeeps(d, items[n - 1].id, clock(n - 1), at);
      }
    }
  }

  lemma ConfirmedIsAllOpen(db: Db, o: OrderId)
    requires Inv(db) && o in db.orders && db.orders[o].status == Confirmed
    ensures AllOpen(db, db.orders[o].items)
  {
    var items := db.orders[o].items;
    forall i | 0 <= i < |items|
      ensures items[i].id in db.reservations && db.reservations[items[i].id].status == Reserved
      ensures ReservationInv(db, db.reservations[items[i].id])
    {
      assert ItemInv(db, o, Confirmed, items[i]);
    }
  }

  /** Cancelling a confirmed order never fails midway, and returns exactly what its reservations hold. */
  lemma CancelReleasesAll(db: Db, o: OrderId, clock: Clock)
    requires Inv(db) && o in db.orders && db.orders[o].status == Confirmed
    ensures Cancel(db, o, clock).Ok?
    ensures var d := Cancel(db, o, clock).value;
            && ReleasedExactly(db, d.(orders := db.orders), db.orders[o].items, |db.orders[o].items|)
            && d.orders == SetStatus(db, o, Cancelled).orders
  {
    var items := db.orders[o].items;
    ConfirmedIsAllOpen(db, o);
    ReleaseFirstExact(db, items, clock, |items|);
    assert Cancel(db, o, clock).value.(orders := db.orders) == ReleaseFirst(db, items, clock, |items|).value;
  }

  lemma CancelKeeps(db: Db, o: OrderId, clock: Clock)
    requires Inv(db) && Cancel(db, o, clock).Ok?
    ensures Inv(Cancel(db, o, clock).value)
  {
    var items := db.orders[o].items;
    CancelReleasesAll(db, o, clock);
    ReleaseFirstKeeps(db, items, clock, |items|);
    var d := Cancel(db, o, clock).value;
    StockInvIgnoresOrders(ReleaseFirst(db, items, clock, |items|).value, d);
    CloseKeepsOrders(db, d, o, Cancelled);
  }

  /** Completing a confirmed order never fails midway, and sells exactly what its reservations hold. */
  lemma CompleteFulfillsAll(db: Db, o: OrderId, clock: Clock, at: Time)
    requires Inv(db) && o in db.orders && db.orders[o].status == Confirmed
    ensures Complete(db, o, clock, at).Ok? && AllOpen(db, db.orders[o].items)
    ensures var d := Complete(db, o, clock, at).value;
            && FulfilledExactly(db, d.(orders := db.orders), db.orders[o].items, |db.orders[o].items|, at)
            && d.orders == SetStatus(db, o, Completed).orders
  {
    var items := db.orders[o].items;
    ConfirmedIsAllOpen(db, o);
    FulfillFirstExact(db, items, clock, at, |items|);
    assert Complete(db, o, clock, at).value.(orders := db.orders) == FulfillFirst(db, items, clock, at, |items|).value;
  }

  lemma CompleteKeeps(db: Db, o: OrderId, clock: Clock, at: Time)
    requires Inv(db) && Complete(db, o, clock, at).Ok?
    ensures Inv(Complete(db, o, clock, at).value)
  {
    var items := db.orders[o].items;
    CompleteFulfillsAll(db, o, clock, at);
    FulfillFirstKeeps(db, items, clock, at, |items|);
    var d := Complete(db, o, clock, at).value;
    StockInvIgnoresOrders(FulfillFirst(db, items, clock, at, |items|).value, d);
    CloseKeepsOrders(db, d, o, Completed);
  }

  lemma CloseKeepsOrders(db: Db, d: Db, o: OrderId, status: OrderStatus)
    requires OrderInv(db) && o in db.orders && db.orders[o].status == Confirmed && status in {Cancelled, Completed}
    requires d.orders == db.orders[o := db.orders[o].(status := status)] && d.itemOrder == db.itemOrder
    requires d.reservations == Closed(db.reservations, db.orders[o].items, |db.orders[o].items|, Expected(status))
    ensures OrderInv(d)
  {
    var items := db.orders[o].items;
    ClosedOfItems(db.reservations, items, |items|, Expected(status));
    forall it | it in items ensures ItemInv(d, o, status, it) {
      assert ItemInv(db, o, Confirmed, it);
      var i :| 0 <= i < |items| && items[i] == it;
    }
    forall i | 0 <= i < |items| ensures items[i].id in db.itemOrder && db.itemOrder[items[i].id] == o {
      assert ItemInv(db, o, Confirmed, items[i]);
    }
    TransitionKeeps(db, d, o, status);
  }

  // ---- the alerts noted along the loops

  ghost function RaisedBetween(r: Result<Db, Error>, r': Result<Db, Error>): set<StockKey> {
    if r.Ok? && r'.Ok? then Raised(r.value.stocks, r'.value.stocks) else {}
  }

  /** The rows that some round of the confirmation loop raises an alert for. */
  ghost function ReserveRaises(db: Db, items: seq<Item>, location: LocationId, clock: Clock, n: nat): set<StockKey>
    requires n <= |items|
  {
    if n == 0 then {}
    else ReserveRaises(db, items, location, clock, n - 1)
         + RaisedBetween(ReserveFirst(db, items, location, clock, n - 1), ReserveFirst(db, items, location, clock, n))
  }

  ghost function FulfillRaises(db: Db, items: seq<Item>, clock: Clock, at: Time, n: nat): set<StockKey>
    requires n <= |items|
  {
    if n == 0 then {}
    else FulfillRaises(db, items, clock, at, n - 1)
         + RaisedBetween(FulfillFirst(db, items, clock, at, n - 1), FulfillFirst(db, items, clock, at, n))
  }

  ghost function ConfirmRaises(db: Db, o: OrderId, location: LocationId, clock: Clock): set<StockKey> {
    if Confirm(db, o, location, clock).Ok?
    then ReserveRaises(db, db.orders[o].items, location, clock, |db.orders[o].items|) else {}
  }

  ghost function CompleteRaises(db: Db, o: OrderId, clock: Clock, at: Time): set<StockKey> {
    if Complete(db, o, clock, at).Ok?
    then FulfillRaises(db, db.orders[o].items, clock, at, |db.orders[o].items|) else {}
  }

  /** An alert that a round of a confirmation raises carries that round's clock reading. */
  lemma AlertTimeIsOfRound(db: Db, items: seq<Item>, location: LocationId, clock: Clock, n: nat, k: StockKey)
    requires n < |items| && ReserveFirst(db, items, location, clock, n + 1).Ok?
    requires k in RaisedBetween(ReserveFirst(db, items, location, clock, n),
                                ReserveFirst(db, items, location, clock, n + 1))
    ensures ReserveFirst(db, items, location, clock, n + 1).value.stocks[k].alertedAt == Some(clock(n))
  {
  }

  /** What a confirmation makes of a row, and whether it raised an alert for it. */
  ghost predicate RowRaises(s: Stock, t: Stock, raised: bool) {
    && (raised ==> t != s && t.IsLow() && t.alertedAt.Some?)
    && (s.FlagAgrees() ==> (raised <==> !s.IsLow() && t.IsLow()))
    && (s.Unseen() ==> (raised <==> t != s))
  }

  lemma RowRaisesStep(s: Stock, t: Stock, extra: int, raised: bool, q: int, now: Time)
    requires RowReserved(s, t, extra) && RowRaises(s, t, raised) && extra >= 0 && q > 0
    ensures var u := Sync(t.(reserved := t.reserved + q), now);
            RowRaises(s, u, raised || (u.alertedAt.Some? && t.alertedAt.None?))
  {
  }

  /** A confirmation raises an alert for a row whose column agreed exactly if it makes it low, and for a low row not
      seen before exactly if it touches it. */
  lemma {:induction false} ReserveRaisesOnRow(db: Db, items: seq<Item>, location: LocationId, clock: Clock, n: nat,
                                              k: StockKey)
    requires n <= |items| && Bookable(db, items) && ReserveFirst(db, items, location, clock, n).Ok? && k in db.stocks
    ensures var d := ReserveFirst(db, items, location, clock, n).value;
            k in d.stocks && RowRaises(db.stocks[k], d.stocks[k], k in ReserveRaises(db, items, location, clock, n))
  {
    if n != 0 {
      ReserveRaisesOnRow(db, items, location, clock, n - 1, k);
      ReserveFirstExact(db, items, location, clock, n - 1);
      DemandNonNegative(items, n - 1, k.product);
      var d := ReserveFirst(db, items, location, clock, n - 1).value;
      RaisesRound(db.stocks[k], d, items[n - 1], ItemKey(items[n - 1], location), clock(n - 1), k,
                  DemandAt(items, n - 1, location, k), k in ReserveRaises(db, items, location, clock, n - 1));
    }
  }

  lemma RaisesRound(s: Stock, d: Db, it: Item, key: StockKey, now: Time, k: StockKey, extra: int, raised: bool)
    requires k in d.stocks && RowReserved(s, d.stocks[k], extra) && extra >= 0 && RowRaises(s, d.stocks[k], raised)
    requires Reserve(d, it.id, key, it.quantity, now).Ok?
    ensures var e := Reserve(d, it.id, key, it.quantity, now).value;
            k in e.stocks && RowRaises(s, e.stocks[k], raised || k in Raised(d.stocks, e.stocks))
  {
    if k == key {
      RowRaisesStep(s, d.stocks[k], extra, raised, it.quantity, now);
    }
  }

  lemma ReserveKeepsRows(db: Db, item: ItemId, key: StockKey, quantity: int, now: Time)
    requires Reserve(db, item, key, quantity, now).Ok?
    ensures Reserve(db, item, key, quantity, now).value.stocks.Keys == db.stocks.Keys
  {
  }

  lemma {:induction false} ReserveRaisesRows(db: Db, items: seq<Item>, location: LocationId, clock: Clock, n: nat)
    requires n <= |items| && ReserveFirst(db, items, location, clock, n).Ok?
    ensures ReserveFirst(db, items, location, clock, n).value.stocks.Keys == db.stocks.Keys
    ensures ReserveRaises(db, items, location, clock, n) <= db.stocks.Keys
  {
    if n != 0 {
      ReserveRaisesRows(db, items, location, clock, n - 1);
      var d := ReserveFirst(db, items, location, clock, n - 1).value;
      ReserveKeepsRows(d, items[n - 1].id, ItemKey(items[n - 1], location), items[n - 1].quantity, clock(n - 1));
    }
  }

  /** Releasing raises no alert, so none is lost because a cancellation sends none. */
  lemma ReleaseIsQuiet(db: Db, item: ItemId, now: Time)
    requires StockInv(db) && Release(db, item, now).Ok?
    ensures Raised(db.stocks, Release(db, item, now).value.stocks) == {}
  {
    assert ReservationInv(db, db.reservations[item]);
  }

  lemma FulfillIsQuiet(db: Db, item: ItemId, now: Time, at: Time)
    requires StockInv(db) && Fulfill(db, item, now, at).Ok?
    ensures Raised(db.stocks, Fulfill(db, item, now, at).value.stocks) == {}
  {
    assert ReservationInv(db, db.reservations[item]);
  }

  lemma {:induction false} FulfillingRaisesNothing(db: Db, items: seq<Item>, clock: Clock, at: Time, n: nat)
    requires n <= |items| && StockInv(db)
    ensures FulfillRaises(db, items, clock, at, n) == {}
  {
    if n != 0 {
      FulfillingRaisesNothing(db, items, clock, at, n - 1);
      if FulfillFirst(db, items, clock, at, n).Ok? {
        FulfillFirstKeeps(db, items, clock, at, n - 1);
        var d := FulfillFirst(db, items, clock, at, n - 1).value;
        if items[n - 1].id in d.reservations {
          FulfillIsQuiet(d, items[n - 1].id, clock(n - 1), at);
        }
      }
    }
  }

  /** Completing raises no alert either. */
  lemma CompletionRaisesNothing(db: Db, o: OrderId, clock: Clock, at: Time)
    requires Inv(db)
    ensures CompleteRaises(db, o, clock, at) == {}
  {
    if Complete(db, o, clock, at).Ok? {
      FulfillingRaisesNothing(db, db.orders[o].items, clock, at, |db.orders[o].items|);
    }
  }

  // ---- editing an order

  lemma {:induction false} DemandOfConcat(items: seq<Item>, more: seq<Item>, n: nat, product: ProductId)
    requires n <= |items|
    ensures Demand(items + more, n, product) == Demand(items, n, product)
  {
    if n != 0 {
      DemandOfConcat(items, more, n - 1, product);
    }
  }

  /** An item is added exactly when its product and a created order exist and its quantity is positive; the order's
      demand then grows by that quantity of that product. */
  lemma AddedItemIsDemanded(db: Db, o: OrderId, id: ItemId, product: ProductId, quantity: int, p: ProductId)
    requires id !in db.itemOrder
    ensures AddItem(db, o, id, product, quantity).Ok? <==>
            product in db.products && o in db.orders && db.orders[o].status == Created && quantity > 0
    ensures AddItem(db, o, id, product, quantity).Ok? ==>
              var items, items' := db.orders[o].items, AddItem(db, o, id, product, quantity).value.orders[o].items;
              Demand(items', |items'|, p) == Demand(items, |items|, p) + (if p == product then quantity else 0)
    ensures AddItem(db, o, id, product, quantity).Ok? ==>
              var d := AddItem(db, o, id, product, quantity).value;
              && d.orders[o] == Order(Created, db.orders[o].items + [Item(id, product, quantity)])
              && d == db.(orders := db.orders[o := d.orders[o]], itemOrder := db.itemOrder[id := o])
  {
    if AddItem(db, o, id, product, quantity).Ok? {
      var items := db.orders[o].items;
      DemandOfConcat(items, [Item(id, product, quantity)], |items|, p);
    }
  }

  lemma {:induction false} FirstOfConcat(items: seq<Item>, it: Item)
    requires forall i :: 0 <= i < |items| ==> items[i].product != it.product
    ensures FirstOf(items + [it], it.product) == |items|
  {
    if items != [] {
      assert (items + [it])[1..] == items[1..] + [it];
      FirstOfConcat(items[1..], it);
    }
  }

  /** Removing a product that was added to an order without it gives back the tables as they were. */
  lemma AddThenRemove(db: Db, o: OrderId, id: ItemId, product: ProductId, quantity: int)
    requires AddItem(db, o, id, product, quantity).Ok?
    requires forall i :: 0 <= i < |db.orders[o].items| ==> db.orders[o].items[i].product != product
    ensures RemoveItem(AddItem(db, o, id, product, quantity).value, o, product) == Ok(db)
  {
    var items, it := db.orders[o].items, Item(id, product, quantity);
    FirstOfConcat(items, it);
    assert Without(items + [it], |items|) == items;
    assert db.itemOrder[id := o] - {id} == db.itemOrder;
    var d := AddItem(db, o, id, product, quantity).value;
    assert RemoveItem(d, o, product).value.orders == db.orders;
  }

  /** Removing a product takes exactly one item off the order, the first of that product, and only from a created
      order. */
  lemma RemovedItem(db: Db, o: OrderId, product: ProductId)
    ensures RemoveItem(db, o, product).Ok? <==>
            && o in db.orders && db.orders[o].status == Created
            && exists i :: 0 <= i < |db.orders[o].items| && db.orders[o].items[i].product == product
    ensures RemoveItem(db, o, product).Ok? ==>
              var d := RemoveItem(db, o, product).value;
              exists i :: 0 <= i < |db.orders[o].items|
                && db.orders[o].items[i].product == product
                && (forall j :: 0 <= j < i ==> db.orders[o].items[j].product != product)
                && d.orders[o].items == Without(db.orders[o].items, i)
                && d.orders[o].status == Created
                && d == db.(orders := db.orders[o := d.orders[o]],
                            itemOrder := db.itemOrder - {db.orders[o].items[i].id})
  {
    if o in db.orders && db.orders[o].status == Created {
      var items := db.orders[o].items;
      var i := FirstOf(items, product);
      if i < |items| {
        assert RemoveItem(db, o, product).value.orders[o].items == Without(items, i);
      }
    }
  }

  lemma AddItemKeeps(db: Db, o: OrderId, id: ItemId, product: ProductId, quantity: int)
    requires Inv(db) && AddItem(db, o, id, product, quantity).Ok?
    ensures Inv(AddItem(db, o, id, product, quantity).value)
  {
    var d := AddItem(db, o, id, product, quantity).value;
    StockInvIgnoresOrders(db, d);
    forall i | 0 <= i < |db.orders[o].items| ensures db.orders[o].items[i].id != id {
      assert ItemInv(db, o, Created, db.orders[o].items[i]);
    }
    forall p, it | p in d.orders && it in d.orders[p].items ensures ItemInv(d, p, d.orders[p].status, it) {
      if it in (if p in db.orders then db.orders[p].items else []) {
        assert ItemInv(db, p, db.orders[p].status, it);
      }
    }
  }

  lemma RemoveItemKeeps(db: Db, o: OrderId, product: ProductId)
    requires Inv(db) && RemoveItem(db, o, product).Ok?
    ensures Inv(RemoveItem(db, o, product).value)
  {
    var d := RemoveItem(db, o, product).value;
    var items := db.orders[o].items;
    var i := FirstOf(items, product);
    StockInvIgnoresOrders(db, d);
    assert ItemInv(db, o, Created, items[i]);
    forall p, it | p in d.orders && it in d.orders[p].items ensures ItemInv(d, p, d.orders[p].status, it) {
      assert ItemInv(db, p, db.orders[p].status, it);
    }
  }

  /** A new order is CREATED and has no items; nothing else changes. */
  lemma NewOrderIsEmpty(db: Db, o: OrderId)
    ensures CreateOrder(db, o).Ok? <==> o !in db.orders
    ensures CreateOrder(db, o).Ok? ==>
              var d := CreateOrder(db, o).value;
              o in d.orders && d.orders[o].status == Created && d.orders[o].items == [] && d.orders - {o} == db.orders
              && d == db.(orders := d.orders)
  {
    assert db.orders[o := Order(Created, [])] - {o} == db.orders - {o};
    assert o !in db.orders ==> db.orders - {o} == db.orders;
  }

  lemma CreateOrderKeeps(db: Db, o: OrderId)
    requires Inv(db) && CreateOrder(db, o).Ok?
    ensures Inv(CreateOrder(db, o).value)
  {
    var d := CreateOrder(db, o).value;
    StockInvIgnoresOrders(db, d);
    forall p, it | p in d.orders && it in d.orders[p].items ensures ItemInv(d, p, d.orders[p].status, it) {
      assert ItemInv(db, p, db.orders[p].status, it);
    }
  }

  // ---- whole life cycles

  lemma {:induction false} BookedIsDemand(rs: map<ItemId, Reservation>, items: seq<Item>, n: nat, location: LocationId,
                                          k: StockKey)
    requires n <= |items| && Distinct(items)
    requires forall i :: 0 <= i < |items| ==>
      items[i].id in rs && rs[items[i].id].stock == ItemKey(items[i], location)
        && rs[items[i].id].quantity == items[i].quantity
    ensures HeldBy(rs, items, n, k) == DemandAt(items, n, location, k)
  {
    if n != 0 {
      BookedIsDemand(rs, items, n - 1, location, k);
    }
  }

  /** What a confirmed order's reservations hold is what its items demand at the location it was confirmed for. */
  lemma ConfirmBooksDemand(db: Db, o: OrderId, location: LocationId, clock: Clock)
    requires Inv(db) && Confirm(db, o, location, clock).Ok?
    ensures var d := Confirm(db, o, location, clock).value;
            var items := db.orders[o].items;
            && Inv(d) && d.orders[o] == Order(Confirmed, items)
            && d.stocks.Keys == db.stocks.Keys
            && forall k :: k in db.stocks ==>
                 && HeldBy(d.reservations, items, |items|, k) == DemandAt(items, |items|, location, k)
                 && RowReserved(db.stocks[k], d.stocks[k], DemandAt(items, |items|, location, k))
  {
    var items := db.orders[o].items;
    var d := Confirm(db, o, location, clock).value;
    CreatedIsBookable(db, o);
    ConfirmIsTheAggregateTest(db, o, location, clock);
    ConfirmKeeps(db, o, location, clock);
    BookingsOfItems(items, |items|, location);
    forall k | k in db.stocks
      ensures HeldBy(d.reservations, items, |items|, k) == DemandAt(items, |items|, location, k)
    {
      BookedIsDemand(d.reservations, items, |items|, location, k);
    }
  }

  /** Confirming and then cancelling gives back the quantity and the reserved quantity of every row; it gives back the
      whole row, its alert column and alert time included, exactly if nothing was asked of it or its column agreed. */
  lemma ConfirmThenCancel(db: Db, o: OrderId, location: LocationId, clock: Clock, later: Clock)
    requires Inv(db) && Confirm(db, o, location, clock).Ok?
    ensures var d := Confirm(db, o, location, clock).value;
            && Cancel(d, o, later).Ok?
            && var e := Cancel(d, o, later).value;
            && e.stocks.Keys == db.stocks.Keys
            && (forall k :: k in db.stocks ==>
                  && e.stocks[k].(alertedAt := db.stocks[k].alertedAt) == db.stocks[k]
                  && (e.stocks[k] == db.stocks[k] <==>
                      || DemandAt(db.orders[o].items, |db.orders[o].items|, location, k) == 0
                      || db.stocks[k].FlagAgrees()))
            && (FlagsAgree(db) ==> e.stocks == db.stocks)
  {
    var items := db.orders[o].items;
    var d := Confirm(db, o, location, clock).value;
    ConfirmBooksDemand(db, o, location, clock);
    CancelReleasesAll(d, o, later);
    var e := Cancel(d, o, later).value;
    assert e.stocks.Keys == db.stocks.Keys;
    forall k | k in db.stocks
      ensures e.stocks[k].(alertedAt := db.stocks[k].alertedAt) == db.stocks[k]
      ensures e.stocks[k] == db.stocks[k] <==> DemandAt(items, |items|, location, k) == 0 || db.stocks[k].FlagAgrees()
    {
      RowThereAndBack(db.stocks[k], d.stocks[k], e.stocks[k], DemandAt(items, |items|, location, k));
    }
  }

  lemma RowThereAndBack(s: Stock, t: Stock, u: Stock, x: int)
    requires RowReserved(s, t, x) && RowReleased(t, u, x)
    ensures u.(alertedAt := s.alertedAt) == s
    ensures u == s <==> x == 0 || s.FlagAgrees()
  {
  }

  lemma {:induction false} SalesOfItems(db: Db, items: seq<Item>, n: nat, at: Time)
    requires n <= |items| && AllOpen(db, items)
    ensures |Sales(db, items, n, at)| == n
    ensures forall i :: 0 <= i < n ==>
      var r := db.reservations[items[i].id];
      var m := Sales(db, items, n, at)[i].movement;
      m.stock == r.stock && m.stock in db.stocks && m.kind == Out && m.quantity == r.quantity == m.previous - m.next
  {
    if n != 0 {
      SalesOfItems(db, items, n - 1, at);
    }
  }

  /** Confirming and then completing lowers each row by exactly the order's demand on it, reserves what was
      reserved before, and leaves available and alerted what was once confirmed. */
  lemma ConfirmThenComplete(db: Db, o: OrderId, location: LocationId, clock: Clock, later: Clock, at: Time)
    requires Inv(db) && Confirm(db, o, location, clock).Ok?
    ensures var d := Confirm(db, o, location, clock).value;
            && Complete(d, o, later, at).Ok?
            && var e := Complete(d, o, later, at).value;
            && e.stocks.Keys == d.stocks.Keys == db.stocks.Keys
            && forall k :: k in db.stocks ==>
                 RowSoldOut(db.stocks[k], d.stocks[k], e.stocks[k],
                            DemandAt(db.orders[o].items, |db.orders[o].items|, location, k))
  {
    var items := db.orders[o].items;
    var d := Confirm(db, o, location, clock).value;
    ConfirmBooksDemand(db, o, location, clock);
    CompleteFulfillsAll(d, o, later, at);
    var e := Complete(d, o, later, at).value;
    forall k | k in db.stocks
      ensures RowSoldOut(db.stocks[k], d.stocks[k], e.stocks[k], DemandAt(items, |items|, location, k))
    {
      RowOutAndGone(db.stocks[k], d.stocks[k], e.stocks[k], DemandAt(items, |items|, location, k));
    }
  }

  /** A row, confirmed and then completed. */
  ghost predicate RowSoldOut(s: Stock, t: Stock, u: Stock, x: int) {
    u.quantity == s.quantity - x && u.reserved == s.reserved && u.Available() == t.Available()
      && u.alertedAt == t.alertedAt
  }

  lemma RowOutAndGone(s: Stock, t: Stock, u: Stock, x: int)
    requires RowReserved(s, t, x) && RowSold(t, u, x)
    ensures RowSoldOut(s, t, u, x)
  {
  }

  /** The OUT movement of an item's reservation: its quantity, on its row. */
  ghost predicate Records(m: Movement, it: Item, r: Reservation) {
    m.stock == r.stock && m.kind == Out && m.quantity == r.quantity == it.quantity == m.previous - m.next
  }

  ghost predicate RecordsEach(db: Db, items: seq<Item>, rows: seq<LedgerRow>) {
    && |rows| == |items|
    && forall i :: 0 <= i < |items| ==>
         items[i].id in db.reservations && Records(rows[i].movement, items[i], db.reservations[items[i].id])
  }

  lemma SalesRecordEach(db: Db, o: OrderId, at: Time)
    requires Inv(db) && o in db.orders && db.orders[o].status == Confirmed && AllOpen(db, db.orders[o].items)
    ensures RecordsEach(db, db.orders[o].items, Sales(db, db.orders[o].items, |db.orders[o].items|, at))
  {
    var items := db.orders[o].items;
    SalesOfItems(db, items, |items|, at);
    forall i | 0 <= i < |items| ensures db.reservations[items[i].id].quantity == items[i].quantity {
      assert ItemInv(db, o, Confirmed, items[i]);
    }
  }

  /** Completing appends one OUT movement per item, for its reservation's quantity on its reservation's row. */
  lemma CompleteRecordsEachItem(db: Db, o: OrderId, clock: Clock, at: Time)
    requires Inv(db) && o in db.orders && db.orders[o].status == Confirmed
    ensures Complete(db, o, clock, at).Ok?
    ensures var e := Complete(db, o, clock, at).value;
            && db.movements <= e.movements
            && RecordsEach(db, db.orders[o].items, e.movements[|db.movements|..])
  {
    CompleteFulfillsAll(db, o, clock, at);
    SalesRecordEach(db, o, at);
    var items := db.orders[o].items;
    var sales := Sales(db, items, |items|, at);
    assert (db.movements + sales)[|db.movements|..] == sales;
  }

  function AskOf(product: ProductId): Item -> int {
    (it: Item) => if it.product == product then it.quantity else 0
  }

  lemma {:induction false} DemandIsASum(items: seq<Item>, n: nat, product: ProductId)
    requires n <= |items|
    ensures Demand(items, n, product) == SumBy(items[..n], AskOf(product))
  {
    if n != 0 {
      DemandIsASum(items, n - 1, product);
      assert items[..n] == items[..n - 1] + [items[n - 1]];
      SumByAppend(items[..n - 1], items[n - 1], AskOf(product));
    }
  }

  /** The rows agree but for the time of an alert. */
  ghost predicate SameRows(stocks: map<StockKey, Stock>, stocks': map<StockKey, Stock>) {
    && stocks.Keys == stocks'.Keys
    && forall k :: k in stocks ==>
         && stocks[k].(alertedAt := None) == stocks'[k].(alertedAt := None)
         && (stocks[k].alertedAt.Some? <==> stocks'[k].alertedAt.Some?)
  }

  lemma ReservedAlike(db: Db, d: Db, d': Db, items: seq<Item>, items': seq<Item>, location: LocationId)
    requires forall p :: Demand(items, |items|, p) == Demand(items', |items'|, p)
    requires ReservedExactly(db, d, items, |items|, location)
    requires ReservedExactly(db, d', items', |items'|, location)
    ensures SameRows(d.stocks, d'.stocks)
  {
    forall k | k in db.stocks
      ensures d.stocks[k].(alertedAt := None) == d'.stocks[k].(alertedAt := None)
      ensures d.stocks[k].alertedAt.Some? <==> d'.stocks[k].alertedAt.Some?
    {
      assert RowReserved(db.stocks[k], d.stocks[k], DemandAt(items, |items|, location, k));
      assert RowReserved(db.stocks[k], d'.stocks[k], DemandAt(items', |items'|, location, k));
    }
  }

  lemma {:induction false} DemandPermuted(items: seq<Item>, items': seq<Item>, p: ProductId)
    requires multiset(items) == multiset(items')
    ensures Demand(items, |items|, p) == Demand(items', |items'|, p)
  {
    assert items[..|items|] == items && items'[..|items'|] == items';
    DemandIsASum(items, |items|, p);
    DemandIsASum(items', |items'|, p);
    SumByPermuted(items, items', AskOf(p));
  }

  lemma BookingsPermuted(items: seq<Item>, items': seq<Item>, location: LocationId)
    requires Distinct(items) && Distinct(items') && multiset(items) == multiset(items')
    ensures Bookings(items, |items|, location) == Bookings(items', |items'|, location)
  {
    BookingsOfItems(items, |items|, location);
    BookingsOfItems(items', |items'|, location);
    BookedAlike(items, items', location);
    BookedAlike(items', items, location);
  }

  lemma BookedAlike(items: seq<Item>, items': seq<Item>, location: LocationId)
    requires Distinct(items) && Distinct(items') && multiset(items) == multiset(items')
    ensures var booked, booked' := Bookings(items, |items|, location), Bookings(items', |items'|, location);
            forall id :: id in booked ==> id in booked' && booked'[id] == booked[id]
  {
    BookingsOfItems(items, |items|, location);
    BookingsOfItems(items', |items'|, location);
    var booked, booked' := Bookings(items, |items|, location), Bookings(items', |items'|, location);
    forall id | id in booked ensures id in booked' && booked'[id] == booked[id] {
      var i :| 0 <= i < |items| && items[i].id == id;
      assert items[i] in multiset(items');
      var j :| 0 <= j < |items'| && items'[j] == items[i];
    }
  }

  /** The order in which the items are loaded changes neither the outcome nor what is reserved. */
  lemma ReserveIgnoresItemOrder(
      db: Db, items: seq<Item>, items': seq<Item>, location: LocationId, clock: Clock, clock': Clock)
    requires Bookable(db, items) && Bookable(db, items') && multiset(items) == multiset(items')
    ensures var r := ReserveFirst(db, items, location, clock, |items|);
            var r' := ReserveFirst(db, items', location, clock', |items'|);
            && (r.Ok? <==> r'.Ok?)
            && (r.Ok? ==>
                  SameRows(r.value.stocks, r'.value.stocks) && r'.value == r.value.(stocks := r'.value.stocks))
  {
    forall p ensures Demand(items, |items|, p) == Demand(items', |items'|, p) {
      DemandPermuted(items, items', p);
    }
    FitsPermuted(db, items, items', location);
    FitsPermuted(db, items', items, location);
    ReserveFirstIffFits(db, items, location, clock, |items|);
    ReserveFirstIffFits(db, items', location, clock', |items'|);
    if Fits(db, items, |items|, location) {
      ReserveFirstExact(db, items, location, clock, |items|);
      ReserveFirstExact(db, items', location, clock', |items'|);
      BookingsPermuted(items, items', location);
      ReservedAlike(db, ReserveFirst(db, items, location, clock, |items|).value,
                    ReserveFirst(db, items', location, clock', |items'|).value, items, items', location);
    }
  }

  lemma FitsPermuted(db: Db, items: seq<Item>, items': seq<Item>, location: LocationId)
    requires multiset(items) == multiset(items')
    requires forall p :: Demand(items, |items|, p) == Demand(items', |items'|, p)
    ensures Fits(db, items, |items|, location) ==> Fits(db, items', |items'|, location)
  {
    forall i | 0 <= i < |items'| && Fits(db, items, |items|, location)
      ensures ItemKey(items'[i], location) in db.stocks
      ensures Demand(items', |items'|, items'[i].product) <= db.stocks[ItemKey(items'[i], location)].Available()
    {
      assert items'[i] in multiset(items);
      var j :| 0 <= j < |items| && items[j] == items'[i];
    }
  }
}

/** What every refused request answers with, told on the tables before it. */
module Refusals {
  import opened Prelude
  import opened Domain
  import opened Inventory
  import opened Orders

  ghost predicate Refused<T>(r: Result<T, Error>, error: Error) { r.Err? && r.error == error }

  // ---- stock

  lemma CreationRefusals(db: Db, key: StockKey, quantity: int, reorderPoint: int)
    ensures var r := Create(db, key, quantity, reorderPoint);
            && (Refused(r, InvalidLocation) <==> key.location !in db.locations)
            && (Refused(r, InvalidQuantityStock) <==> key.location in db.locations && quantity == 0)
            && (Refused(r, StockAlreadyExists) <==> key.location in db.locations && quantity != 0 && key in db.stocks)
            && (Refused(r, IntegrityError) <==>
                  key.location in db.locations && quantity != 0 && key !in db.stocks && key.product !in db.products)
            && (r.Err? ==> r.error in {InvalidLocation, InvalidQuantityStock, StockAlreadyExists, IntegrityError})
  {
  }

  /** An addition or a removal of nothing is refused before the row is looked for; an adjustment looks for it first. */
  lemma MoveRefusals(db: Db, key: StockKey, move: Move, now: Time)
    ensures var r := MoveStock(db, key, move, now);
            && (Refused(r, InvalidQuantityStock) <==> !move.StockAdjust? && move.amount <= 0)
            && (Refused(r, InvalidProductOrLocation) <==>
                  (!move.StockAdjust? ==> move.amount > 0) && key !in db.stocks)
            && (Refused(r, StockNegative) <==>
                  && (!move.StockAdjust? ==> move.amount > 0) && key in db.stocks
                  && !move.StockIn? && Target(move, db.stocks[key].quantity) < 0)
            && (r.Err? ==> r.error in {InvalidQuantityStock, InvalidProductOrLocation, StockNegative})
  {
  }

  // ---- reservations

  lemma ReserveRefusals(db: Db, item: ItemId, key: StockKey, quantity: int, now: Time)
    ensures var r := Reserve(db, item, key, quantity, now);
            && (Refused(r, InvalidQuantityStock) <==> quantity <= 0)
            && (Refused(r, StockNotFound) <==> quantity > 0 && key !in db.stocks)
            && (Refused(r, InsufficientStock) <==>
                  quantity > 0 && key in db.stocks && db.stocks[key].quantity < db.stocks[key].reserved + quantity)
            && (Refused(r, IntegrityError) <==>
                  && quantity > 0 && key in db.stocks && db.stocks[key].reserved + quantity <= db.stocks[key].quantity
                  && item in db.reservations)
            && (r.Err? ==> r.error in {InvalidQuantityStock, StockNotFound, InsufficientStock, IntegrityError})
  {
  }

  /** A reservation is refused alike when it is released and when it is fulfilled. */
  lemma ClosingRefusals(db: Db, item: ItemId, now: Time, at: Time)
    ensures forall r :: r in {Release(db, item, now), Fulfill(db, item, now, at)} ==>
            && (Refused(r, ReservationNotFound) <==> item !in db.reservations)
            && (Refused(r, InvalidReservationStatus) <==>
                  item in db.reservations && db.reservations[item].status != Reserved)
            && (Refused(r, StockNotFound) <==>
                  && item in db.reservations && db.reservations[item].status == Reserved
                  && db.reservations[item].stock !in db.stocks)
            && (r.Err? ==> r.error in {ReservationNotFound, InvalidReservationStatus, StockNotFound})
  {
  }

  // ---- orders

  /** The i-th item is the first that the stock does not cover, together with the items before it. */
  ghost predicate FirstUncovered(db: Db, items: seq<Item>, location: LocationId, i: nat) {
    i < |items| && Fits(db, items, i, location) && !Fits(db, items, i + 1, location)
  }

  /** The answer to a confirmation that stops at the i-th item: its row is missing, or has less available than what the
      items up to it ask for. */
  ghost predicate StopsAt(db: Db, items: seq<Item>, location: LocationId, i: nat, r: Result<Db, Error>)
    requires i < |items|
  {
    var key := ItemKey(items[i], location);
    && Refused(r, if key !in db.stocks then StockNotFound else InsufficientStock)
    && (key in db.stocks ==> db.stocks[key].Available() < Demand(items, i + 1, key.product))
  }

  lemma StopsAtFirst(db: Db, items: seq<Item>, location: LocationId, clock: Clock, i: nat)
    requires Bookable(db, items) && FirstUncovered(db, items, location, i)
    ensures StopsAt(db, items, location, i, ReserveFirst(db, items, location, clock, |items|))
  {
    ReserveFirstIffFits(db, items, location, clock, i);
    ReserveFirstExact(db, items, location, clock, i);
    var d := ReserveFirst(db, items, location, clock, i).value;
    StopRound(db, d, items, location, i, clock(i));
    NextRound(db, items, location, clock, i, d);
    FailurePersists(db, items, location, clock, i + 1, |items|);
  }

  lemma NextRound(db: Db, items: seq<Item>, location: LocationId, clock: Clock, i: nat, d: Db)
    requires i < |items| && ReserveFirst(db, items, location, clock, i) == Ok(d)
    ensures ReserveFirst(db, items, location, clock, i + 1)
         == Reserve(d, items[i].id, ItemKey(items[i], location), items[i].quantity, clock(i))
  {
  }

  lemma StopRound(db: Db, d: Db, items: seq<Item>, location: LocationId, i: nat, now: Time)
    requires Bookable(db, items) && FirstUncovered(db, items, location, i)
    requires ReservedExactly(db, d, items, i, location)
    ensures var it := items[i];
            StopsAt(db, items, location, i, Reserve(d, it.id, ItemKey(it, location), it.quantity, now))
  {
    var key := ItemKey(items[i], location);
    FitsStep(db, items, i + 1, location);
    ReserveOkIff(db, d, items, i + 1, location, now);
    ReserveRefusals(d, items[i].id, key, items[i].quantity, now);
    BookingsOfItems(items, i, location);
  }

  lemma {:induction false} SomeIsUncovered(db: Db, items: seq<Item>, location: LocationId, n: nat) returns (i: nat)
    requires n <= |items| && !Fits(db, items, n, location)
    ensures i < n && FirstUncovered(db, items, location, i)
  {
    if Fits(db, items, n - 1, location) {
      i := n - 1;
    } else {
      i := SomeIsUncovered(db, items, location, n - 1);
    }
  }

  /** A confirmation is refused for a missing order, for an order that is not CREATED, or else for the first item that
      the stock does not cover: because its row is missing, or has less than what the items up to it ask for. */
  lemma ConfirmRefusals(db: Db, o: OrderId, location: LocationId, clock: Clock)
    requires Inv(db)
    ensures var r := Confirm(db, o, location, clock);
            && (Refused(r, OrderNotFound) <==> o !in db.orders)
            && (Refused(r, InvalidOrderStatus) <==> o in db.orders && db.orders[o].status != Created)
            && (o in db.orders && db.orders[o].status == Created ==>
                  var items := db.orders[o].items;
                  && (r.Err? <==> exists i :: FirstUncovered(db, items, location, i))
                  && forall i :: FirstUncovered(db, items, location, i) ==> StopsAt(db, items, location, i, r))
  {
    if o in db.orders && db.orders[o].status == Created {
      var items := db.orders[o].items;
      CreatedIsBookable(db, o);
      ReserveFirstIffFits(db, items, location, clock, |items|);
      if !Fits(db, items, |items|, location) {
        var i := SomeIsUncovered(db, items, location, |items|);
      }
      forall i | FirstUncovered(db, items, location, i)
        ensures StopsAt(db, items, location, i, Confirm(db, o, location, clock))
      {
        StopsAtFirst(db, items, location, clock, i);
      }
    }
  }

  /** Cancelling and completing are refused for a missing order, or for one that is not CONFIRMED, and for nothing
      else. */
  lemma ClosingOrderRefusals(db: Db, o: OrderId, clock: Clock, at: Time)
    requires Inv(db)
    ensures forall r :: r in {Cancel(db, o, clock), Complete(db, o, clock, at)} ==>
            && (Refused(r, OrderNotFound) <==> o !in db.orders)
            && (Refused(r, InvalidOrderStatus) <==> o in db.orders && db.orders[o].status != Confirmed)
            && (r.Ok? <==> o in db.orders && db.orders[o].status == Confirmed)
  {
    if o in db.orders && db.orders[o].status == Confirmed {
      CancelReleasesAll(db, o, clock);
      CompleteFulfillsAll(db, o, clock, at);
    }
  }

  lemma EditRefusals(db: Db, o: OrderId, id: ItemId, product: ProductId, quantity: int)
    ensures var r := AddItem(db, o, id, product, quantity);
            && (Refused(r, ProductNotFound) <==> product !in db.products)
            && (Refused(r, OrderNotFound) <==> product in db.products && o !in db.orders)
            && (Refused(r, InvalidOrderStatus) <==>
                  product in db.products && o in db.orders && db.orders[o].status != Created)
            && (Refused(r, InvalidQuantity) <==>
                  product in db.products && o in db.orders && db.orders[o].status == Created && quantity <= 0)
            && (id !in db.itemOrder && r.Err? ==>
                  r.error in {ProductNotFound, OrderNotFound, InvalidOrderStatus, InvalidQuantity})
    ensures var r := RemoveItem(db, o, product);
            && (Refused(r, OrderNotFound) <==> o !in db.orders)
            && (Refused(r, InvalidOrderStatus) <==> o in db.orders && db.orders[o].status != Created)
            && (Refused(r, OrderItemNotFound) <==>
                  && o in db.orders && db.orders[o].status == Created
                  && forall i :: 0 <= i < |db.orders[o].items| ==> db.orders[o].items[i].product != product)
            && (r.Err? ==> r.error in {OrderNotFound, InvalidOrderStatus, OrderItemNotFound})
  {
  }
}

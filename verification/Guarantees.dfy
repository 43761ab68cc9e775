/** What else holds over whole runs: overselling, the life of an order, closed reservations and consumption. */
module Guarantees {
  import opened Prelude
  import opened Domain
  import opened Inventory
  import opened Orders
  import opened Operations
  import opened Alerts

  // ---- overselling

  /** Every row reserves at most what it has, so nothing available is negative. */
  ghost predicate Covered(db: Db) {
    forall k :: k in db.stocks ==> 0 <= db.stocks[k].reserved <= db.stocks[k].quantity
  }

  /** A removal within what is available, and an adjustment to no less than what is reserved. */
  ghost predicate Careful(db: Db, step: Step) {
    step.OpenMove? && step.key in db.stocks ==>
      match step.move
      case StockIn(_) => true
      case StockOut(amount) => 0 < amount <= db.stocks[step.key].quantity ==> amount <= db.stocks[step.key].Available()
      case StockAdjust(target) => 0 <= target ==> db.stocks[step.key].reserved <= target
  }

  /** Whatever else happens, only manual removals and adjustments lower a row's available quantity below zero or
      further. */
  lemma AvailableSinksOnlyByHand(s: State, step: Step, k: StockKey)
    requires Inv(s.db) && k in s.db.stocks
    requires step.OpenMove? ==> step.move.StockIn?
    ensures var s' := Apply(s, step);
            k in s'.db.stocks && s'.db.stocks[k].Available() >= Min(0, s.db.stocks[k].Available())
  {
    if Bookkeeping(step) {
      BookkeepingLeavesRows(s, step);
    } else if OrderStep(step) {
      OrderStepSettles(s, step);
      OrdersLeaveAvailable(s.db, step, k);
    } else {
      RowStepLeavesAvailable(s, step, k);
    }
  }

  ghost predicate KeepsAvailable(db: Db, d: Db, k: StockKey) {
    k in db.stocks && k in d.stocks && d.stocks[k].Available() >= Min(0, db.stocks[k].Available())
  }

  lemma OrdersLeaveAvailable(db: Db, step: Step, k: StockKey)
    requires Inv(db) && k in db.stocks && OrderStep(step)
    ensures step.ConfirmOrder? ==>
      KeepsAvailable(db, Settled(db, Confirm(db, step.order, step.location, step.clock)), k)
    ensures step.CancelOrder? ==> KeepsAvailable(db, Settled(db, Cancel(db, step.order, step.clock)), k)
    ensures step.CompleteOrder? ==> KeepsAvailable(db, Settled(db, Complete(db, step.order, step.clock, step.at)), k)
  {
    match step
    case ConfirmOrder(o, location, clock) =>
      if Confirm(db, o, location, clock).Ok? { ConfirmLeavesAvailable(db, o, location, clock, k); }
    case CancelOrder(o, clock) => if Cancel(db, o, clock).Ok? { CancelTouches(db, o, clock, k); }
    case CompleteOrder(o, clock, at) => if Complete(db, o, clock, at).Ok? { CompleteTouches(db, o, clock, at, k); }
  }

  lemma RowStepLeavesAvailable(s: State, step: Step, k: StockKey)
    requires k in s.db.stocks && !Bookkeeping(step) && !OrderStep(step) && (step.OpenMove? ==> step.move.StockIn?)
    ensures KeepsAvailable(s.db, Apply(s, step).db, k)
  {
    if step.OpenMove? { MoveIsAccepted(s.db, step.key, step.move, step.now); }
  }

  lemma ConfirmLeavesAvailable(db: Db, o: OrderId, location: LocationId, clock: Clock, k: StockKey)
    requires Inv(db) && k in db.stocks && Confirm(db, o, location, clock).Ok?
    ensures var d := Confirm(db, o, location, clock).value;
            k in d.stocks && d.stocks[k].Available() >= Min(0, db.stocks[k].Available())
  {
    var items := db.orders[o].items;
    ConfirmIsTheAggregateTest(db, o, location, clock);
    assert RowReserved(db.stocks[k], Confirm(db, o, location, clock).value.stocks[k],
                       DemandAt(items, |items|, location, k));
    if DemandAt(items, |items|, location, k) != 0 {
      var i := DemandSource(items, |items|, k.product);
      assert ItemKey(items[i], location) == k;
    }
  }

  lemma ReservedNonNegative(db: Db)
    requires Inv(db)
    ensures forall k :: k in db.stocks ==> db.stocks[k].reserved >= 0
  {
    forall k | k in db.stocks ensures db.stocks[k].reserved >= 0 {
      assert RowInv(db, k);
      HeldNonNegative(db.reservations, Reserved, k);
    }
  }

  lemma MoveCovers(db: Db, key: StockKey, move: Move, now: Time)
    requires Covered(db) && MoveStock(db, key, move, now).Ok?
    ensures var d := db.(stocks := db.stocks[key := MoveStock(db, key, move, now).value.0]);
            Covered(d) <==> db.stocks[key].reserved <= Target(move, db.stocks[key].quantity)
  {
    MoveIsAccepted(db, key, move, now);
    var d := db.(stocks := db.stocks[key := MoveStock(db, key, move, now).value.0]);
    assert d.stocks[key].reserved == db.stocks[key].reserved
      && d.stocks[key].quantity == Target(move, db.stocks[key].quantity);
  }

  lemma CarefulMove(s: State, key: StockKey, move: Move, now: Time)
    requires Covered(s.db)
    ensures Covered(Apply(s, OpenMove(key, move, now)).db) <==> Careful(s.db, OpenMove(key, move, now))
  {
    MoveIsAccepted(s.db, key, move, now);
    if MoveStock(s.db, key, move, now).Ok? {
      MoveCovers(s.db, key, move, now);
    }
  }

  lemma StepCovers(s: State, step: Step)
    requires Inv(s.db) && Covered(s.db)
    ensures Covered(Apply(s, step).db) <==> Careful(s.db, step)
  {
    if step.OpenMove? {
      CarefulMove(s, step.key, step.move, step.now);
    } else {
      OtherStepsCover(s, step);
    }
  }

  lemma OtherStepsCover(s: State, step: Step)
    requires Inv(s.db) && Covered(s.db) && !step.OpenMove?
    ensures Covered(Apply(s, step).db)
  {
    var s' := Apply(s, step);
    StepKeepsInv(s, step);
    ReservedNonNegative(s'.db);
    forall k | k in s'.db.stocks ensures s'.db.stocks[k].reserved <= s'.db.stocks[k].quantity {
      if k in s.db.stocks {
        AvailableSinksOnlyByHand(s, step, k);
      } else {
        NewRowIsCovered(s, step, k);
      }
    }
  }

  lemma NewRowIsCovered(s: State, step: Step, k: StockKey)
    requires Inv(s.db) && !step.OpenMove? && k !in s.db.stocks && k in Apply(s, step).db.stocks
    ensures Apply(s, step).db.stocks[k].reserved == 0 < Apply(s, step).db.stocks[k].quantity
  {
    StepKeepsKeys(s, step);
  }

  ghost predicate CoveredThroughout(start: State, steps: seq<Step>) {
    && Covered(Run(start, steps).db)
    && (steps != [] ==> CoveredThroughout(start, steps[..|steps| - 1]))
  }

  ghost predicate CarefulThroughout(start: State, steps: seq<Step>) {
    steps != [] ==>
      var init := steps[..|steps| - 1];
      CarefulThroughout(start, init) && Careful(Run(start, init).db, steps[|steps| - 1])
  }

  /** Along a run nothing is ever oversold exactly when every removal and adjustment respects the reservations. */
  lemma {:induction false} NeverOversoldIff(products: set<ProductId>, locations: set<LocationId>, steps: seq<Step>)
    ensures var start := Start(products, locations);
            CoveredThroughout(start, steps) <==> CarefulThroughout(start, steps)
  {
    var start := Start(products, locations);
    if steps != [] {
      var init := steps[..|steps| - 1];
      NeverOversoldIff(products, locations, init);
      if CoveredThroughout(start, init) {
        ReachableInv(products, locations, init);
        StepCovers(Run(start, init), steps[|steps| - 1]);
      }
    }
  }

  lemma {:induction false} RunTwice(start: State, first: seq<Step>, second: seq<Step>)
    ensures Run(start, first + second) == Run(Run(start, first), second)
  {
    if second == [] {
      assert first + second == first;
    } else {
      var n := |second| - 1;
      assert (first + second)[..|first + second| - 1] == first + second[..n];
      RunTwice(start, first, second[..n]);
    }
  }

  lemma RunOfThree(start: State, a: Step, b: Step, c: Step)
    ensures Run(start, [a, b, c]) == Apply(Apply(Apply(start, a), b), c)
  {
    RunAppend(start, [], a);
    RunAppend(start, [a], b);
    RunAppend(start, [a, b], c);
    assert [] + [a] == [a] && [a] + [b] == [a, b] && [a, b] + [c] == [a, b, c];
  }

  function Ten(reserved: int): map<StockKey, Stock> { map[StockKey(0, 0) := Stock(10, reserved, 0, None)] }

  function OneOrder(status: OrderStatus): map<OrderId, Order> { map[0 := Order(status, [Item(0, 0, 10)])] }

  /** Ten in stock. */
  lemma TenInStock()
    ensures var s := Run(Start({0}, {0}),
                         [OpenCreate(StockKey(0, 0), 10, 0), ReadCreate(StockKey(0, 0), 0), NewOrder(0)]);
            && s.db == Start({0}, {0}).db.(stocks := Ten(0), orders := map[0 := Order(Created, [])])
            && s.inflight == []
  {
    var key := StockKey(0, 0);
    var start := Start({0}, {0});
    RunOfThree(start, OpenCreate(key, 10, 0), ReadCreate(key, 0), NewOrder(0));
    var s1 := Apply(start, OpenCreate(key, 10, 0));
    assert s1.db == start.db.(stocks := Ten(0));
    assert Apply(s1, ReadCreate(key, 0)).db == s1.db;
  }

  /** ... all ordered, */
  lemma AllOrdered(s: State)
    requires s.db == Start({0}, {0}).db.(stocks := Ten(0), orders := map[0 := Order(Created, [])])
    ensures var s' := Apply(s, NewItem(0, 0, 0, 10));
            s'.db.stocks == Ten(0) && s'.db.reservations == map[] && s'.db.orders == OneOrder(Created)
              && s'.inflight == s.inflight
  {
    assert [] + [Item(0, 0, 10)] == [Item(0, 0, 10)];
  }

  /** ... then confirmed and so reserved, */
  lemma AllReserved(s: State, clock: Clock)
    requires s.db.stocks == Ten(0) && s.db.reservations == map[] && s.db.orders == OneOrder(Created)
    ensures var s' := Apply(s, ConfirmOrder(0, 0, clock));
            && s'.db.stocks == Ten(10) && s'.db.orders == OneOrder(Confirmed)
            && s'.db.reservations == map[0 := Reservation(StockKey(0, 0), 10, Reserved)]
            && s'.inflight == s.inflight
  {
    assert ReserveFirst(s.db, [Item(0, 0, 10)], 0, clock, 0) == Ok(s.db);
  }

  /** ... half of it removed by hand, */
  lemma HalfRemoved(s: State)
    requires s.db.stocks == Ten(10) && s.inflight == []
    ensures var s' := Apply(Apply(s, OpenMove(StockKey(0, 0), StockOut(5), 0)), CloseMove(0, 0));
            && s'.db.stocks == map[StockKey(0, 0) := Stock(5, 10, 0, None)]
            && s'.db.orders == s.db.orders && s'.db.reservations == s.db.reservations
  {
  }

  /** ... and completed. */
  lemma Oversold(s: State, clock: Clock)
    requires s.db.stocks == map[StockKey(0, 0) := Stock(5, 10, 0, None)] && s.db.orders == OneOrder(Confirmed)
    requires s.db.reservations == map[0 := Reservation(StockKey(0, 0), 10, Reserved)]
    ensures var db := Apply(s, CompleteOrder(0, clock, 0)).db;
            StockKey(0, 0) in db.stocks && db.stocks[StockKey(0, 0)].quantity == -5
  {
    assert FulfillFirst(s.db, [Item(0, 0, 10)], clock, 0, 0) == Ok(s.db);
  }

  /** Without that care the guard of `remove_stock` is not enough: completing an order can leave a negative quantity. */
  lemma RemovalCanOversell(clock: Clock)
    ensures var key := StockKey(0, 0);
            var steps := [OpenCreate(key, 10, 0), ReadCreate(key, 0), NewOrder(0)]
                       + [NewItem(0, 0, 0, 10)] + [ConfirmOrder(0, 0, clock)]
                       + [OpenMove(key, StockOut(5), 0), CloseMove(0, 0), CompleteOrder(0, clock, 0)];
            var db := Run(Start({0}, {0}), steps).db;
            key in db.stocks && db.stocks[key].quantity == -5
  {
    var key, start := StockKey(0, 0), Start({0}, {0});
    var first := [OpenCreate(key, 10, 0), ReadCreate(key, 0), NewOrder(0)];
    var last := [OpenMove(key, StockOut(5), 0), CloseMove(0, 0), CompleteOrder(0, clock, 0)];
    TenInStock();
    var s1 := Run(start, first);
    RunAppend(start, first, NewItem(0, 0, 0, 10));
    AllOrdered(s1);
    var s2 := Run(start, first + [NewItem(0, 0, 0, 10)]);
    RunAppend(start, first + [NewItem(0, 0, 0, 10)], ConfirmOrder(0, 0, clock));
    AllReserved(s2, clock);
    var s3 := Run(start, first + [NewItem(0, 0, 0, 10)] + [ConfirmOrder(0, 0, clock)]);
    RunTwice(start, first + [NewItem(0, 0, 0, 10)] + [ConfirmOrder(0, 0, clock)], last);
    RunOfThree(s3, last[0], last[1], last[2]);
    HalfRemoved(s3);
    Oversold(Apply(Apply(s3, last[0]), last[1]), clock);
  }

  // ---- the life of an order

  /** What one committed step may make of an order. */
  ghost predicate Advances(before: Order, after: Order) {
    || after == before
    || (before.status == Created && after.status == Created)
    || (before.status == Created && after == before.(status := Confirmed))
    || (before.status == Confirmed && after == before.(status := Cancelled))
    || (before.status == Confirmed && after == before.(status := Completed))
  }

  ghost predicate AdvancesIn(db: Db, d: Db, o: OrderId) {
    o in db.orders && o in d.orders && Advances(db.orders[o], d.orders[o])
  }

  lemma TransitionsAdvance(db: Db, p: OrderId, location: LocationId, clock: Clock, at: Time, o: OrderId)
    requires Inv(db) && o in db.orders
    ensures AdvancesIn(db, Settled(db, Confirm(db, p, location, clock)), o)
    ensures AdvancesIn(db, Settled(db, Cancel(db, p, clock)), o)
    ensures AdvancesIn(db, Settled(db, Complete(db, p, clock, at)), o)
  {
    if Confirm(db, p, location, clock).Ok? { ConfirmIsTheAggregateTest(db, p, location, clock); }
    if Cancel(db, p, clock).Ok? { CancelReleasesAll(db, p, clock); }
    if Complete(db, p, clock, at).Ok? { CompleteFulfillsAll(db, p, clock, at); }
  }

  /** Orders are never lost, go from CREATED to CONFIRMED to CANCELLED or COMPLETED and no other way, and change
      their items only while CREATED. */
  lemma OrdersOnlyAdvance(s: State, step: Step, o: OrderId)
    requires Inv(s.db) && o in s.db.orders
    ensures AdvancesIn(s.db, Apply(s, step).db, o)
  {
    OrderStepSettles(s, step);
    match step
    case ConfirmOrder(p, location, clock) => TransitionsAdvance(s.db, p, location, clock, 0, o);
    case CancelOrder(p, clock) => TransitionsAdvance(s.db, p, 0, clock, 0, o);
    case CompleteOrder(p, clock, at) => TransitionsAdvance(s.db, p, 0, clock, at, o);
    case _ => OtherStepsAdvance(s, step, o);
  }

  lemma OtherStepsAdvance(s: State, step: Step, o: OrderId)
    requires !step.ConfirmOrder? && !step.CancelOrder? && !step.CompleteOrder? && o in s.db.orders
    ensures AdvancesIn(s.db, Apply(s, step).db, o)
  {
  }

  // ---- closed reservations

  lemma ClosedElsewhere(db: Db, items: seq<Item>, id: ItemId, status: ReservationStatus)
    requires AllOpen(db, items) && id in db.reservations && db.reservations[id].status != Reserved
    ensures var closed := Closed(db.reservations, items, |items|, status);
            id in closed && closed[id] == db.reservations[id]
  {
    ClosedOfItems(db.reservations, items, |items|, status);
  }

  lemma BookedElsewhere(db: Db, items: seq<Item>, id: ItemId, location: LocationId)
    requires Bookable(db, items) && id in db.reservations
    ensures id !in Bookings(items, |items|, location)
  {
    BookingsOfItems(items, |items|, location);
  }

  ghost predicate KeepsReservation(db: Db, d: Db, id: ItemId) {
    id in db.reservations && id in d.reservations && d.reservations[id] == db.reservations[id]
  }

  lemma ConfirmLeavesClosed(db: Db, o: OrderId, location: LocationId, clock: Clock, id: ItemId)
    requires Inv(db) && id in db.reservations
    ensures KeepsReservation(db, Settled(db, Confirm(db, o, location, clock)), id)
  {
    if Confirm(db, o, location, clock).Ok? {
      ConfirmIsTheAggregateTest(db, o, location, clock);
      CreatedIsBookable(db, o);
      BookedElsewhere(db, db.orders[o].items, id, location);
    }
  }

  lemma CancelLeavesClosed(db: Db, o: OrderId, clock: Clock, id: ItemId)
    requires Inv(db) && id in db.reservations && db.reservations[id].status != Reserved
    ensures KeepsReservation(db, Settled(db, Cancel(db, o, clock)), id)
  {
    if Cancel(db, o, clock).Ok? {
      CancelReleasesAll(db, o, clock);
      ConfirmedIsAllOpen(db, o);
      ClosedElsewhere(db, db.orders[o].items, id, Released);
    }
  }

  lemma CompleteLeavesClosed(db: Db, o: OrderId, clock: Clock, at: Time, id: ItemId)
    requires Inv(db) && id in db.reservations && db.reservations[id].status != Reserved
    ensures KeepsReservation(db, Settled(db, Complete(db, o, clock, at)), id)
  {
    if Complete(db, o, clock, at).Ok? {
      CompleteFulfillsAll(db, o, clock, at);
      ClosedElsewhere(db, db.orders[o].items, id, Fulfilled);
    }
  }

  /** A released or fulfilled reservation never changes again, so none is consumed twice. */
  lemma ClosedStaysClosed(s: State, step: Step, id: ItemId)
    requires Inv(s.db) && id in s.db.reservations && s.db.reservations[id].status != Reserved
    ensures KeepsReservation(s.db, Apply(s, step).db, id)
  {
    OrderStepSettles(s, step);
    match step
    case ConfirmOrder(o, location, clock) => ConfirmLeavesClosed(s.db, o, location, clock, id);
    case CancelOrder(o, clock) => CancelLeavesClosed(s.db, o, clock, id);
    case CompleteOrder(o, clock, at) => CompleteLeavesClosed(s.db, o, clock, at, id);
    case _ => OtherStepsLeaveReservations(s, step);
  }

  lemma OtherStepsLeaveReservations(s: State, step: Step)
    requires !step.ConfirmOrder? && !step.CancelOrder? && !step.CompleteOrder?
    ensures Apply(s, step).db.reservations == s.db.reservations
  {
  }

  // ---- consumption

  function OutSince(k: StockKey, since: Time): LedgerRow -> int {
    (row: LedgerRow) =>
      if row.movement.stock == k && row.movement.kind == Out && row.createdAt >= since then row.movement.quantity else 0
  }

  /** The units that left a row since a time: the sum over its OUT movements. */
  ghost function Consumption(rows: seq<LedgerRow>, k: StockKey, since: Time): int {
    SumBy(rows, OutSince(k, since))
  }

  /** What one step takes from a row: what a manual removal lowered its quantity by, counted when its movement is
      recorded, or the reservations an order fulfills. */
  ghost function Taken(s: State, step: Step, k: StockKey, since: Time): int {
    match step
    case CloseMove(i, at) =>
      if i < |s.inflight| && at >= since && s.inflight[i].movement.kind == Out && s.inflight[i].movement.stock == k
      then s.inflight[i].movement.previous - s.inflight[i].movement.next else 0
    case CompleteOrder(_, _, at) =>
      if at >= since then Held(Apply(s, step).db.reservations, Fulfilled, k) - Held(s.db.reservations, Fulfilled, k)
      else 0
    case _ => 0
  }

  ghost function TakenAlong(start: State, steps: seq<Step>, k: StockKey, since: Time): int {
    if steps == [] then 0
    else
      var n := |steps| - 1;
      TakenAlong(start, steps[..n], k, since) + Taken(Run(start, steps[..n]), steps[n], k, since)
  }

  lemma HeldOnceFulfilled(rs: map<ItemId, Reservation>, id: ItemId, k: StockKey)
    requires id in rs && rs[id].status == Reserved
    ensures Held(rs[id := rs[id].(status := Fulfilled)], Fulfilled, k)
         == Held(rs, Fulfilled, k) + (if k == rs[id].stock then rs[id].quantity else 0)
  {
    HeldWrite(rs, id, rs[id].(status := Fulfilled), Fulfilled, k);
  }

  lemma {:induction false} HeldOnceClosed(db: Db, items: seq<Item>, n: nat, k: StockKey)
    requires n <= |items| && AllOpen(db, items)
    ensures Held(Closed(db.reservations, items, n, Fulfilled), Fulfilled, k)
         == Held(db.reservations, Fulfilled, k) + HeldBy(db.reservations, items, n, k)
  {
    if n != 0 {
      HeldOnceClosed(db, items, n - 1, k);
      var id, r := StillOpen(db, items, n, Fulfilled);
      HeldOnceFulfilled(Closed(db.reservations, items, n - 1, Fulfilled), id, k);
    }
  }

  lemma {:induction false} SalesConsumption(db: Db, items: seq<Item>, n: nat, at: Time, k: StockKey, since: Time)
    requires n <= |items| && AllOpen(db, items)
    ensures Consumption(Sales(db, items, n, at), k, since)
         == if at >= since then HeldBy(db.reservations, items, n, k) else 0
  {
    if n != 0 {
      SalesConsumption(db, items, n - 1, at, k, since);
      var sales := Sales(db, items, n, at);
      SumByAppend(Sales(db, items, n - 1, at), sales[|sales| - 1], OutSince(k, since));
    }
  }

  lemma CompletionConsumes(db: Db, o: OrderId, clock: Clock, at: Time, k: StockKey, since: Time)
    requires Inv(db) && Complete(db, o, clock, at).Ok?
    ensures var d := Complete(db, o, clock, at).value;
            Consumption(d.movements, k, since) == Consumption(db.movements, k, since)
              + (if at >= since then Held(d.reservations, Fulfilled, k) - Held(db.reservations, Fulfilled, k) else 0)
  {
    var items := db.orders[o].items;
    CompleteFulfillsAll(db, o, clock, at);
    HeldOnceClosed(db, items, |items|, k);
    SalesConsumption(db, items, |items|, at, k, since);
    SumByConcat(db.movements, Sales(db, items, |items|, at), OutSince(k, since));
  }

  lemma RecordingConsumes(s: State, i: nat, at: Time, k: StockKey, since: Time)
    requires AllConsistent(CallMoves(s.inflight))
    ensures Consumption(Apply(s, CloseMove(i, at)).db.movements, k, since)
         == Consumption(s.db.movements, k, since) + Taken(s, CloseMove(i, at), k, since)
  {
    if i < |s.inflight| {
      assert Consistent(CallMoves(s.inflight)[i]);
      SumByAppend(s.db.movements, LedgerRow(s.inflight[i].movement, at), OutSince(k, since));
    }
  }

  lemma OtherStepsRecordNothing(s: State, step: Step)
    requires Inv(s.db) && !step.CloseMove? && !step.CompleteOrder?
    ensures Apply(s, step).db.movements == s.db.movements
  {
    if OrderStep(step) {
      OrderStepSettles(s, step);
      match step
      case ConfirmOrder(o, location, clock) =>
        if Confirm(s.db, o, location, clock).Ok? { ConfirmLeavesQuantities(s.db, o, location, clock); }
      case CancelOrder(o, clock) => if Cancel(s.db, o, clock).Ok? { CancelLeavesQuantities(s.db, o, clock); }
    }
  }

  lemma StepConsumption(s: State, step: Step, k: StockKey, since: Time)
    requires Inv(s.db) && AllConsistent(CallMoves(s.inflight))
    ensures Consumption(Apply(s, step).db.movements, k, since)
         == Consumption(s.db.movements, k, since) + Taken(s, step, k, since)
  {
    match step
    case CloseMove(i, at) => RecordingConsumes(s, i, at, k, since);
    case CompleteOrder(o, clock, at) =>
      OrderStepSettles(s, step);
      if Complete(s.db, o, clock, at).Ok? { CompletionConsumes(s.db, o, clock, at, k, since); }
    case _ => OtherStepsRecordNothing(s, step);
  }

  /** Over any run, a row's consumption since a time is what manual removals and fulfilled reservations took since
      then. */
  lemma {:induction false} ConsumptionIsWhatWasTaken(products: set<ProductId>, locations: set<LocationId>,
                                                     steps: seq<Step>,
                                                    k: StockKey, since: Time)
    ensures var start := Start(products, locations);
            Consumption(Run(start, steps).db.movements, k, since) == TakenAlong(start, steps, k, since)
  {
    if steps != [] {
      var n := |steps| - 1;
      ConsumptionIsWhatWasTaken(products, locations, steps[..n], k, since);
      ReachableInv(products, locations, steps[..n]);
      MovementsAreConsistent(products, locations, steps[..n]);
      StepConsumption(Run(Start(products, locations), steps[..n]), steps[n], k, since);
    }
  }
}

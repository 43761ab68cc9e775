/** The alert column of a stock row and the alerts sent for it, over whole runs, creations and their two commits
    included. */
module Alerts {
  import opened Prelude
  import opened Domain
  import opened Inventory
  import opened Orders
  import opened Operations

  // ---- what is counted

  ghost predicate LowAt(db: Db, k: StockKey) { k in db.stocks && db.stocks[k].IsLow() }

  /** The row becomes low between two committed states; a row created low counts. */
  ghost predicate Rises(db: Db, db': Db, k: StockKey) { !LowAt(db, k) && LowAt(db', k) }

  /** The number of times a row becomes low along a run. */
  ghost function RiseCount(start: State, steps: seq<Step>, k: StockKey): nat {
    if steps == [] then 0
    else
      var n := |steps| - 1;
      RiseCount(start, steps[..n], k) + (if Rises(Run(start, steps[..n]).db, Run(start, steps).db, k) then 1 else 0)
  }

  function RaisedOn(k: StockKey): Call -> int {
    (c: Call) => if c.raised && c.movement.stock == k then 1 else 0
  }

  /** The alert that an unfinished creation is going to send: it has found the row low, or is going to. */
  ghost function Owed(s: State, k: StockKey): int {
    if k !in s.creating then 0
    else if s.creating[k].Some? then 1
    else if k in s.db.stocks && s.db.stocks[k].Unseen() then 1 else 0
  }

  /** The alerts of a row sent, or to be sent by a manual move whose row is committed. */
  ghost function Raises(s: State, k: StockKey): int {
    s.alerts[k] + SumBy(s.inflight, RaisedOn(k))
  }

  /** The alerts of a row that were sent, and those an open call or an unfinished creation is going to send. */
  ghost function AlertCount(s: State, k: StockKey): int { Raises(s, k) + Owed(s, k) }

  /** The rows a step raises an alert for as it changes them. */
  ghost function RaisedBy(s: State, step: Step): set<StockKey> {
    match step
    case OpenMove(key, move, now) => Raised(s.db.stocks, Apply(s, step).db.stocks)
    case ConfirmOrder(o, location, clock) => ConfirmRaises(s.db, o, location, clock)
    case CompleteOrder(o, clock, at) => CompleteRaises(s.db, o, clock, at)
    case _ => {}
  }

  /** What a step that brings the alert column into agreement makes of a row, and whether it raised an alert. */
  ghost predicate Touched(s: Stock, t: Stock, raised: bool) {
    || (t == s && !raised)
    || (&& t.FlagAgrees()
        && (raised ==> t.IsLow())
        && (s.FlagAgrees() ==> (raised <==> !s.IsLow() && t.IsLow()))
        && (s.Unseen() ==> (raised <==> t.IsLow())))
  }

  ghost predicate Touches(step: Step) { step.OpenMove? || OrderStep(step) }

  ghost predicate TouchedBy(s: State, step: Step, k: StockKey) {
    && k in s.db.stocks && k in Apply(s, step).db.stocks
    && Touched(s.db.stocks[k], Apply(s, step).db.stocks[k], k in RaisedBy(s, step))
  }

  lemma ConfirmTouches(db: Db, o: OrderId, location: LocationId, clock: Clock, k: StockKey)
    requires Inv(db) && k in db.stocks && Confirm(db, o, location, clock).Ok?
    ensures var d := Confirm(db, o, location, clock).value;
            k in d.stocks && Touched(db.stocks[k], d.stocks[k], k in ConfirmRaises(db, o, location, clock))
  {
    var items := db.orders[o].items;
    CreatedIsBookable(db, o);
    ReserveFirstExact(db, items, location, clock, |items|);
    ReserveRaisesOnRow(db, items, location, clock, |items|, k);
    var d := ReserveFirst(db, items, location, clock, |items|).value;
    assert RowReserved(db.stocks[k], d.stocks[k], DemandAt(items, |items|, location, k));
    TouchedByReserving(db.stocks[k], d.stocks[k], DemandAt(items, |items|, location, k),
                       k in ConfirmRaises(db, o, location, clock));
  }

  lemma TouchedByReserving(s: Stock, t: Stock, extra: int, raised: bool)
    requires RowReserved(s, t, extra) && RowRaises(s, t, raised)
    ensures Touched(s, t, raised)
  {
  }

  ghost predicate SameLimit(s: Stock, t: Stock) { t.reorderPoint == s.reorderPoint }

  lemma CancelTouches(db: Db, o: OrderId, clock: Clock, k: StockKey)
    requires Inv(db) && k in db.stocks && Cancel(db, o, clock).Ok?
    ensures var d := Cancel(db, o, clock).value;
            k in d.stocks && Touched(db.stocks[k], d.stocks[k], false) && SameLimit(db.stocks[k], d.stocks[k])
            && d.stocks[k].Available() >= db.stocks[k].Available()
  {
    var items := db.orders[o].items;
    CancelReleasesAll(db, o, clock);
    ConfirmedIsAllOpen(db, o);
    HeldByNonNegative(db, items, |items|, k);
    assert RowReleased(db.stocks[k], Cancel(db, o, clock).value.stocks[k], HeldBy(db.reservations, items, |items|, k));
  }

  lemma CompleteTouches(db: Db, o: OrderId, clock: Clock, at: Time, k: StockKey)
    requires Inv(db) && k in db.stocks && Complete(db, o, clock, at).Ok?
    ensures var d := Complete(db, o, clock, at).value;
            k in d.stocks && Touched(db.stocks[k], d.stocks[k], false) && SameLimit(db.stocks[k], d.stocks[k])
            && d.stocks[k].Available() == db.stocks[k].Available()
  {
    var items := db.orders[o].items;
    CompleteFulfillsAll(db, o, clock, at);
    assert RowSold(db.stocks[k], Complete(db, o, clock, at).value.stocks[k],
                   HeldBy(db.reservations, items, |items|, k));
  }

  lemma MoveTouches(s: State, key: StockKey, move: Move, now: Time, k: StockKey)
    requires k in s.db.stocks
    ensures TouchedBy(s, OpenMove(key, move, now), k)
  {
    MoveIsAccepted(s.db, key, move, now);
  }

  /** Every manual move and every order transition leaves each row as it was or with its alert column in agreement. */
  lemma StepTouches(s: State, step: Step, k: StockKey)
    requires Inv(s.db) && Touches(step) && k in s.db.stocks
    ensures TouchedBy(s, step, k)
  {
    OrderStepSettles(s, step);
    match step
    case OpenMove(key, move, now) => MoveTouches(s, key, move, now, k);
    case ConfirmOrder(o, location, clock) =>
      if Confirm(s.db, o, location, clock).Ok? { ConfirmTouches(s.db, o, location, clock, k); }
    case CancelOrder(o, clock) => if Cancel(s.db, o, clock).Ok? { CancelTouches(s.db, o, clock, k); }
    case CompleteOrder(o, clock, at) =>
      CompletionRaisesNothing(s.db, o, clock, at);
      if Complete(s.db, o, clock, at).Ok? { CompleteTouches(s.db, o, clock, at, k); }
  }

  /** Cancelling, completing and adding stock never make a row low; the first two alert nobody, and adding alerts
      only for a new row that was low and not seen. */
  lemma QuietSteps(s: State, step: Step, k: StockKey)
    requires Inv(s.db) && k in s.db.stocks
    requires step.CancelOrder? || step.CompleteOrder? || (step.OpenMove? && step.move.StockIn?)
    ensures !Rises(s.db, Apply(s, step).db, k)
    ensures k in RaisedBy(s, step) ==> step.OpenMove? && s.db.stocks[k].Unseen()
  {
    if step.OpenMove? {
      AddingIsQuiet(s, step.key, step.move, step.now, k);
    } else {
      ClosingIsQuiet(s, step, k);
    }
  }

  lemma AddingIsQuiet(s: State, key: StockKey, move: Move, now: Time, k: StockKey)
    requires k in s.db.stocks && move.StockIn?
    ensures !Rises(s.db, Apply(s, OpenMove(key, move, now)).db, k)
    ensures k in RaisedBy(s, OpenMove(key, move, now)) ==> s.db.stocks[k].Unseen()
  {
    MoveIsAccepted(s.db, key, move, now);
    MoveTouches(s, key, move, now, k);
  }

  lemma ClosingIsQuiet(s: State, step: Step, k: StockKey)
    requires Inv(s.db) && k in s.db.stocks && (step.CancelOrder? || step.CompleteOrder?)
    ensures !Rises(s.db, Apply(s, step).db, k) && k !in RaisedBy(s, step)
  {
    OrderStepSettles(s, step);
    match step
    case CancelOrder(o, clock) => if Cancel(s.db, o, clock).Ok? { CancelTouches(s.db, o, clock, k); }
    case CompleteOrder(o, clock, at) =>
      CompletionRaisesNothing(s.db, o, clock, at);
      if Complete(s.db, o, clock, at).Ok? { CompleteTouches(s.db, o, clock, at, k); }
  }

  // ---- the alert column along runs

  /** Only an unfinished creation leaves a row low without its alert set, and it never leaves one set on a row not
      low. */
  ghost predicate FlagInv(s: State) {
    && (forall k :: k in s.creating ==> k in s.db.stocks && !s.db.stocks[k].Stale())
    && (forall k :: k in s.db.stocks && s.db.stocks[k].Unseen() ==> k in s.creating)
  }

  lemma TouchesLeaveCreations(s: State, step: Step)
    requires Touches(step)
    ensures Apply(s, step).creating == s.creating
  {
  }

  lemma TouchesKeepFlagInv(s: State, step: Step)
    requires Inv(s.db) && FlagInv(s) && Touches(step)
    ensures FlagInv(Apply(s, step)) && Apply(s, step).creating == s.creating
  {
    TouchesLeaveCreations(s, step);
    StepKeepsKeys(s, step);
    forall k | k in s.db.stocks ensures TouchedBy(s, step, k) { StepTouches(s, step, k); }
    FlagInvFromRows(s, Apply(s, step), RaisedBy(s, step));
  }

  lemma FlagInvFromRows(s: State, s': State, raised: set<StockKey>)
    requires FlagInv(s) && s'.creating == s.creating && s'.db.stocks.Keys == s.db.stocks.Keys
    requires forall k :: k in s.db.stocks ==> Touched(s.db.stocks[k], s'.db.stocks[k], k in raised)
    ensures FlagInv(s')
  {
  }

  lemma CreationKeepsFlagInv(s: State, step: Step)
    requires FlagInv(s) && (step.OpenCreate? || step.ReadCreate? || step.CloseCreate?)
    ensures FlagInv(Apply(s, step))
  {
  }

  lemma StepKeepsFlagInv(s: State, step: Step)
    requires Inv(s.db) && FlagInv(s)
    ensures FlagInv(Apply(s, step))
  {
    if Touches(step) {
      TouchesKeepFlagInv(s, step);
    } else if Bookkeeping(step) {
      BookkeepingLeavesRows(s, step);
    } else {
      CreationKeepsFlagInv(s, step);
    }
  }

  lemma {:induction false} ReachableFlags(products: set<ProductId>, locations: set<LocationId>, steps: seq<Step>)
    ensures FlagInv(Run(Start(products, locations), steps))
  {
    if steps != [] {
      var n := |steps| - 1;
      ReachableFlags(products, locations, steps[..n]);
      ReachableInv(products, locations, steps[..n]);
      StepKeepsFlagInv(Run(Start(products, locations), steps[..n]), steps[n]);
    }
  }

  /** The row's alert column agrees with it unless its creation is unfinished. */
  ghost predicate FlagHolds(s: State, k: StockKey) {
    k in s.db.stocks && k !in s.creating ==> s.db.stocks[k].FlagAgrees()
  }

  ghost predicate FlagHoldsThroughout(start: State, steps: seq<Step>, k: StockKey) {
    FlagHolds(Run(start, steps), k) && (steps != [] ==> FlagHoldsThroughout(start, steps[..|steps| - 1], k))
  }

  /** If the step commits the alert column of a creation, the row is still low. */
  ghost predicate OnTime(s: State, step: Step, k: StockKey) {
    step == CloseCreate(k) && k in s.creating && s.creating[k].Some? ==> LowAt(s.db, k)
  }

  ghost predicate OnTimeThroughout(start: State, steps: seq<Step>, k: StockKey) {
    steps != [] ==>
      var init := steps[..|steps| - 1];
      OnTimeThroughout(start, init, k) && OnTime(Run(start, init), steps[|steps| - 1], k)
  }

  lemma CreationHoldsFlag(s: State, step: Step, k: StockKey)
    requires FlagInv(s) && FlagHolds(s, k) && (step.OpenCreate? || step.ReadCreate? || step.CloseCreate?)
    ensures FlagHolds(Apply(s, step), k) <==> OnTime(s, step, k)
  {
  }

  lemma TouchHoldsFlag(s: State, step: Step, k: StockKey)
    requires Inv(s.db) && FlagInv(s) && FlagHolds(s, k) && Touches(step)
    ensures FlagHolds(Apply(s, step), k)
  {
    TouchesKeepFlagInv(s, step);
    StepKeepsKeys(s, step);
    if k in s.db.stocks { StepTouches(s, step, k); }
  }

  lemma StepHoldsFlag(s: State, step: Step, k: StockKey)
    requires Inv(s.db) && FlagInv(s) && FlagHolds(s, k)
    ensures FlagHolds(Apply(s, step), k) <==> OnTime(s, step, k)
  {
    if Touches(step) {
      TouchHoldsFlag(s, step, k);
    } else if Bookkeeping(step) {
      BookkeepingLeavesRows(s, step);
    } else {
      CreationHoldsFlag(s, step, k);
    }
  }

  /** Along a run a row's alert column is set exactly while it is low, once its creation is over, exactly if the
      creation did not set it on a row that was no longer low. */
  lemma {:induction false} FlagHoldsIff(products: set<ProductId>, locations: set<LocationId>, steps: seq<Step>,
                                        k: StockKey)
    ensures var start := Start(products, locations);
            FlagHoldsThroughout(start, steps, k) <==> OnTimeThroughout(start, steps, k)
  {
    var start := Start(products, locations);
    if steps != [] {
      var init := steps[..|steps| - 1];
      FlagHoldsIff(products, locations, init, k);
      if FlagHoldsThroughout(start, init, k) {
        ReachableInv(products, locations, init);
        ReachableFlags(products, locations, init);
        StepHoldsFlag(Run(start, init), steps[|steps| - 1], k);
      }
    }
  }

  // ---- counting alerts

  /** The creation is going to find a row recovered that was low when it was committed. */
  ghost predicate RecoversUnread(s: State, step: Step, k: StockKey) {
    && k in s.creating && s.creating[k].None? && k in s.db.stocks && s.db.stocks[k].Unseen()
    && !LowAt(Apply(s, step).db, k)
  }

  /** The step alerts for a row that the creation has found low and is going to alert for. */
  ghost predicate AlertsAgain(s: State, step: Step, k: StockKey) {
    && k in s.creating && s.creating[k].Some? && k in s.db.stocks && s.db.stocks[k].Unseen()
    && k in RaisedBy(s, step)
  }

  /** The row becomes low with its alert already set, too late, by its creation. */
  ghost predicate DropsSilently(s: State, step: Step, k: StockKey) {
    k in s.db.stocks && s.db.stocks[k].Stale() && LowAt(Apply(s, step).db, k) && k !in RaisedBy(s, step)
  }

  ghost predicate Deviates(s: State, step: Step, k: StockKey) {
    RecoversUnread(s, step, k) || AlertsAgain(s, step, k) || DropsSilently(s, step, k)
  }

  ghost predicate AlertsFollow(s: State, s': State, k: StockKey) {
    AlertCount(s', k) == AlertCount(s, k) + (if Rises(s.db, s'.db, k) then 1 else 0)
  }

  lemma TouchRaises(s: State, step: Step, k: StockKey)
    requires Touches(step)
    ensures Raises(Apply(s, step), k) == Raises(s, k) + (if k in RaisedBy(s, step) then 1 else 0)
  {
    match step
    case OpenMove(key, move, now) => MoveRaises(s, key, move, now, k);
    case ConfirmOrder(o, location, clock) =>
    case CancelOrder(o, clock) =>
    case CompleteOrder(o, clock, at) =>
  }

  lemma MoveRaises(s: State, key: StockKey, move: Move, now: Time, k: StockKey)
    ensures var step := OpenMove(key, move, now);
            Raises(Apply(s, step), k) == Raises(s, k) + (if k in RaisedBy(s, step) then 1 else 0)
  {
    if MoveStock(s.db, key, move, now).Ok? {
      MoveIsAccepted(s.db, key, move, now);
      var s' := Apply(s, OpenMove(key, move, now));
      var call := s'.inflight[|s.inflight|];
      assert s'.inflight == s.inflight + [call];
      SumByAppend(s.inflight, call, RaisedOn(k));
    }
  }

  lemma TouchAlerts(s: State, step: Step, k: StockKey)
    requires Inv(s.db) && FlagInv(s) && Touches(step) && k in s.db.stocks
    ensures AlertsFollow(s, Apply(s, step), k) <==> !Deviates(s, step, k)
  {
    TouchRaises(s, step, k);
    TouchesKeepFlagInv(s, step);
    StepTouches(s, step, k);
  }

  lemma TouchElsewhere(s: State, step: Step, k: StockKey)
    requires Inv(s.db) && FlagInv(s) && Touches(step) && k !in s.db.stocks
    ensures AlertsFollow(s, Apply(s, step), k) && !Deviates(s, step, k)
  {
    TouchRaises(s, step, k);
    TouchesKeepFlagInv(s, step);
    StepKeepsKeys(s, step);
    RaisedByRows(s, step);
  }

  lemma RaisedByRows(s: State, step: Step)
    requires Inv(s.db)
    ensures RaisedBy(s, step) <= s.db.stocks.Keys
  {
    match step
    case ConfirmOrder(o, location, clock) =>
      if Confirm(s.db, o, location, clock).Ok? {
        ReserveRaisesRows(s.db, s.db.orders[o].items, location, clock, |s.db.orders[o].items|);
      }
    case CompleteOrder(o, clock, at) => CompletionRaisesNothing(s.db, o, clock, at);
    case OpenMove(key, move, now) => StepKeepsKeys(s, step);
    case _ =>
  }

  lemma CreationAlerts(s: State, step: Step, k: StockKey)
    requires FlagInv(s) && (step.OpenCreate? || step.ReadCreate? || step.CloseCreate?)
    ensures AlertsFollow(s, Apply(s, step), k)
  {
  }

  lemma CreationLeavesLow(s: State, step: Step, k: StockKey)
    requires (step.OpenCreate? || step.ReadCreate? || step.CloseCreate?) && k in s.db.stocks
    ensures LowAt(Apply(s, step).db, k) <==> LowAt(s.db, k)
  {
  }

  lemma CloseMoveAlerts(s: State, step: Step, k: StockKey)
    requires step.CloseMove?
    ensures Raises(Apply(s, step), k) == Raises(s, k)
  {
    if step.call < |s.inflight| {
      SumByWithout(s.inflight, step.call, RaisedOn(k));
    }
  }

  lemma OtherAlerts(s: State, step: Step, k: StockKey)
    requires FlagInv(s) && !Touches(step)
    ensures AlertsFollow(s, Apply(s, step), k) && !Deviates(s, step, k)
  {
    if Bookkeeping(step) {
      BookkeepingLeavesRows(s, step);
      if step.CloseMove? { CloseMoveAlerts(s, step, k); }
    } else {
      CreationAlerts(s, step, k);
      if k in s.db.stocks { CreationLeavesLow(s, step, k); }
    }
  }

  lemma StepDeviates(s: State, step: Step, k: StockKey)
    requires Inv(s.db) && FlagInv(s)
    ensures AlertsFollow(s, Apply(s, step), k) <==> !Deviates(s, step, k)
  {
    if !Touches(step) {
      OtherAlerts(s, step, k);
    } else if k in s.db.stocks {
      TouchAlerts(s, step, k);
    } else {
      TouchElsewhere(s, step, k);
    }
  }

  // ---- the requests behind it, told before they run

  ghost predicate AcceptedMove(db: Db, key: StockKey, move: Move) {
    && key in db.stocks
    && (!move.StockAdjust? ==> move.amount > 0)
    && (!move.StockIn? ==> Target(move, db.stocks[key].quantity) >= 0)
  }

  ghost predicate AcceptedConfirm(db: Db, o: OrderId, location: LocationId) {
    && o in db.orders && db.orders[o].status == Created
    && Fits(db, db.orders[o].items, |db.orders[o].items|, location)
  }

  /** Some item asks for the row. */
  ghost predicate AsksFor(items: seq<Item>, location: LocationId, k: StockKey) {
    k.location == location && FirstOf(items, k.product) < |items|
  }

  /** Some item's reservation is on the row. */
  ghost predicate HoldsOn(db: Db, items: seq<Item>, k: StockKey) {
    exists i :: 0 <= i < |items| && items[i].id in db.reservations && db.reservations[items[i].id].stock == k
  }

  /** The request is accepted and writes the row. */
  ghost predicate Writes(db: Db, step: Step, k: StockKey) {
    match step
    case OpenMove(key, move, _) => key == k && AcceptedMove(db, key, move)
    case ConfirmOrder(o, location, _) => AcceptedConfirm(db, o, location) && AsksFor(db.orders[o].items, location, k)
    case CancelOrder(o, _) => o in db.orders && db.orders[o].status == Confirmed && HoldsOn(db, db.orders[o].items, k)
    case CompleteOrder(o, _, _) =>
      o in db.orders && db.orders[o].status == Confirmed && HoldsOn(db, db.orders[o].items, k)
    case _ => false
  }

  /** Whether the row would be low with another quantity. */
  ghost predicate LowWith(s: Stock, quantity: int) { s.reorderPoint > 0 && quantity - s.reserved <= s.reorderPoint }

  /** The first item that asks for the row takes it to its reorder point by itself. */
  ghost predicate FirstAskTakesLow(s: Stock, items: seq<Item>, location: LocationId, k: StockKey) {
    AsksFor(items, location, k) && LowWith(s, s.quantity - items[FirstOf(items, k.product)].quantity)
  }

  /** A row created low, and not read back yet, is lifted above its reorder point by a manual move. */
  ghost predicate Forgotten(s: State, step: Step, k: StockKey) {
    && k in s.creating && s.creating[k].None? && k in s.db.stocks && s.db.stocks[k].Unseen()
    && step.OpenMove? && Writes(s.db, step, k) && !LowWith(s.db.stocks[k], Target(step.move, s.db.stocks[k].quantity))
  }

  /** A row that its creation has found low, and will alert for, is asked for by a confirmation or moved by hand and
      left low. */
  ghost predicate Doubled(s: State, step: Step, k: StockKey) {
    && k in s.creating && s.creating[k].Some? && k in s.db.stocks && s.db.stocks[k].Unseen()
    && Writes(s.db, step, k)
    && (step.OpenMove? ==> LowWith(s.db.stocks[k], Target(step.move, s.db.stocks[k].quantity)))
  }

  /** A row whose alert its creation set too late is taken to its reorder point by a manual move, or by the first item
      of a confirmation that asks for it. */
  ghost predicate Lost(s: State, step: Step, k: StockKey) {
    && k in s.db.stocks && s.db.stocks[k].Stale() && Writes(s.db, step, k)
    && match step
       case OpenMove(_, move, _) => LowWith(s.db.stocks[k], Target(move, s.db.stocks[k].quantity))
       case ConfirmOrder(o, location, _) => FirstAskTakesLow(s.db.stocks[k], s.db.orders[o].items, location, k)
       case _ => false
  }

  ghost predicate Disturbed(s: State, step: Step, k: StockKey) {
    Forgotten(s, step, k) || Doubled(s, step, k) || Lost(s, step, k)
  }

  lemma {:induction false} DemandSource(items: seq<Item>, n: nat, product: ProductId) returns (i: nat)
    requires n <= |items| && Demand(items, n, product) != 0
    ensures i < n && items[i].product == product
  {
    if items[n - 1].product == product {
      i := n - 1;
    } else {
      i := DemandSource(items, n - 1, product);
    }
  }

  lemma AskedIsDemanded(items: seq<Item>, location: LocationId, k: StockKey)
    requires forall i :: 0 <= i < |items| ==> items[i].quantity > 0
    ensures AsksFor(items, location, k) <==> DemandAt(items, |items|, location, k) != 0
  {
    var f := FirstOf(items, k.product);
    if f < |items| {
      DemandNonNegative(items, f, k.product);
      DemandGrows(items, f + 1, |items|, k.product);
    } else if Demand(items, |items|, k.product) != 0 {
      var i := DemandSource(items, |items|, k.product);
    }
  }

  lemma {:induction false} HeldOnSome(db: Db, items: seq<Item>, n: nat, k: StockKey)
    requires n <= |items| && AllOpen(db, items)
    ensures HeldBy(db.reservations, items, n, k) != 0
       <==> exists i :: 0 <= i < n && items[i].id in db.reservations && db.reservations[items[i].id].stock == k
  {
    if n != 0 {
      HeldOnSome(db, items, n - 1, k);
      HeldByNonNegative(db, items, n - 1, k);
    }
  }

  /** A stale row along a confirmation that asks for it: if the first ask takes it low its alert stays as it is, and
      otherwise it is cleared and set again when the row becomes low. */
  ghost predicate StaleAsked(t: Stock, raised: bool, firstLow: bool) {
    if firstLow then t.IsLow() && t.alertedAt.Some? && !raised
    else t.FlagAgrees() && (raised <==> t.IsLow())
  }

  lemma FirstAsk(s: Stock, q: int, now: Time)
    requires s.Stale() && q > 0
    ensures var t := Sync(s.(reserved := s.reserved + q), now);
            StaleAsked(t, t.alertedAt.Some? && s.alertedAt.None?, LowWith(s, s.quantity - q))
  {
  }

  lemma LaterAsk(t: Stock, raised: bool, firstLow: bool, q: int, now: Time)
    requires StaleAsked(t, raised, firstLow) && q > 0
    ensures var u := Sync(t.(reserved := t.reserved + q), now);
            StaleAsked(u, raised || (u.alertedAt.Some? && t.alertedAt.None?), firstLow)
  {
  }

  /** What the first n rounds of a confirmation make of a stale row that it asks for. */
  ghost predicate StaleAfter(s: Stock, items: seq<Item>, n: nat, location: LocationId, k: StockKey, t: Stock,
                             raised: bool) {
    AsksFor(items, location, k) &&
    if n <= FirstOf(items, k.product) then t == s && !raised
    else StaleAsked(t, raised, FirstAskTakesLow(s, items, location, k))
  }

  lemma StaleRound(s: Stock, items: seq<Item>, n: nat, location: LocationId, k: StockKey, d: Db, raised: bool,
                   now: Time)
    requires n < |items| && s.Stale() && k in d.stocks && StaleAfter(s, items, n, location, k, d.stocks[k], raised)
    requires Reserve(d, items[n].id, ItemKey(items[n], location), items[n].quantity, now).Ok?
    ensures var e := Reserve(d, items[n].id, ItemKey(items[n], location), items[n].quantity, now).value;
            k in e.stocks
            && StaleAfter(s, items, n + 1, location, k, e.stocks[k], raised || k in Raised(d.stocks, e.stocks))
  {
    if ItemKey(items[n], location) == k {
      if n == FirstOf(items, k.product) {
        FirstAsk(s, items[n].quantity, now);
      } else {
        LaterAsk(d.stocks[k], raised, FirstAskTakesLow(s, items, location, k), items[n].quantity, now);
      }
    }
  }

  lemma {:induction false} StaleLoop(db: Db, items: seq<Item>, location: LocationId, clock: Clock, n: nat, k: StockKey)
    requires n <= |items| && ReserveFirst(db, items, location, clock, n).Ok?
    requires k in db.stocks && db.stocks[k].Stale() && AsksFor(items, location, k)
    ensures var d := ReserveFirst(db, items, location, clock, n).value;
            && k in d.stocks
            && StaleAfter(db.stocks[k], items, n, location, k, d.stocks[k],
                          k in ReserveRaises(db, items, location, clock, n))
  {
    if n != 0 {
      StaleLoop(db, items, location, clock, n - 1, k);
      var d := ReserveFirst(db, items, location, clock, n - 1).value;
      StaleRound(db.stocks[k], items, n - 1, location, k, d,
                 k in ReserveRaises(db, items, location, clock, n - 1), clock(n - 1));
    }
  }

  /** What a request makes of a row, told by whether it writes it: nothing if not, and agreement if so. */
  ghost predicate WrittenAs(s: Stock, t: Stock, raised: bool, writes: bool) {
    if writes then t.FlagAgrees() else t == s && !raised
  }

  lemma ConfirmWrites(db: Db, o: OrderId, location: LocationId, clock: Clock, k: StockKey)
    requires Inv(db) && k in db.stocks
    ensures Confirm(db, o, location, clock).Ok? <==> AcceptedConfirm(db, o, location)
    ensures var step := ConfirmOrder(o, location, clock);
            var d := Settled(db, Confirm(db, o, location, clock));
            var raised := k in ConfirmRaises(db, o, location, clock);
            && k in d.stocks && WrittenAs(db.stocks[k], d.stocks[k], raised, Writes(db, step, k))
            && (db.stocks[k].Unseen() ==> (raised <==> Writes(db, step, k)) && d.stocks[k].IsLow())
            && (db.stocks[k].Stale() ==>
                  (d.stocks[k].IsLow() && !raised
                   <==> Writes(db, step, k) && FirstAskTakesLow(db.stocks[k], db.orders[o].items, location, k)))
  {
    if o in db.orders && db.orders[o].status == Created {
      ConfirmIsTheAggregateTest(db, o, location, clock);
      if Confirm(db, o, location, clock).Ok? {
        AcceptedConfirmWrites(db, o, location, clock, k);
      }
    }
  }

  lemma AcceptedConfirmWrites(db: Db, o: OrderId, location: LocationId, clock: Clock, k: StockKey)
    requires Inv(db) && k in db.stocks && Confirm(db, o, location, clock).Ok?
    ensures var items := db.orders[o].items;
            var d := Confirm(db, o, location, clock).value;
            var raised := k in ConfirmRaises(db, o, location, clock);
            && k in d.stocks && WrittenAs(db.stocks[k], d.stocks[k], raised, AsksFor(items, location, k))
            && (db.stocks[k].Unseen() ==> (raised <==> AsksFor(items, location, k)) && d.stocks[k].IsLow())
            && (db.stocks[k].Stale() ==>
                  (d.stocks[k].IsLow() && !raised <==> FirstAskTakesLow(db.stocks[k], items, location, k)))
  {
    var items := db.orders[o].items;
    CreatedIsBookable(db, o);
    AskedIsDemanded(items, location, k);
    ReserveFirstExact(db, items, location, clock, |items|);
    ReserveRaisesOnRow(db, items, location, clock, |items|, k);
    DemandNonNegative(items, |items|, k.product);
    var d := ReserveFirst(db, items, location, clock, |items|).value;
    assert RowReserved(db.stocks[k], d.stocks[k], DemandAt(items, |items|, location, k));
    if db.stocks[k].Stale() && AsksFor(items, location, k) {
      StaleLoop(db, items, location, clock, |items|, k);
    }
  }

  lemma CancelWrites(db: Db, o: OrderId, clock: Clock, k: StockKey)
    requires Inv(db) && k in db.stocks
    ensures var d := Settled(db, Cancel(db, o, clock));
            && k in d.stocks && WrittenAs(db.stocks[k], d.stocks[k], false, Writes(db, CancelOrder(o, clock), k))
            && (db.stocks[k].Unseen() ==> !Writes(db, CancelOrder(o, clock), k))
            && (!db.stocks[k].IsLow() ==> !d.stocks[k].IsLow())
  {
    if o in db.orders && db.orders[o].status == Confirmed {
      CancelReleasesAll(db, o, clock);
      ConfirmedIsAllOpen(db, o);
      var items := db.orders[o].items;
      HeldOnSome(db, items, |items|, k);
      HeldByNonNegative(db, items, |items|, k);
      assert RowReleased(db.stocks[k], Cancel(db, o, clock).value.stocks[k],
                         HeldBy(db.reservations, items, |items|, k));
    }
  }

  lemma CompleteWrites(db: Db, o: OrderId, clock: Clock, at: Time, k: StockKey)
    requires Inv(db) && k in db.stocks
    ensures var d := Settled(db, Complete(db, o, clock, at));
            && k in d.stocks && WrittenAs(db.stocks[k], d.stocks[k], false, Writes(db, CompleteOrder(o, clock, at), k))
            && (db.stocks[k].Unseen() ==> !Writes(db, CompleteOrder(o, clock, at), k))
            && (!db.stocks[k].IsLow() ==> !d.stocks[k].IsLow())
  {
    if o in db.orders && db.orders[o].status == Confirmed {
      CompleteFulfillsAll(db, o, clock, at);
      var items := db.orders[o].items;
      HeldOnSome(db, items, |items|, k);
      assert RowSold(db.stocks[k], Complete(db, o, clock, at).value.stocks[k],
                     HeldBy(db.reservations, items, |items|, k));
    }
  }

  lemma MoveWrites(s: State, key: StockKey, move: Move, now: Time, k: StockKey)
    requires k in s.db.stocks
    ensures var step := OpenMove(key, move, now);
            var d := Apply(s, step).db;
            && k in d.stocks && WrittenAs(s.db.stocks[k], d.stocks[k], k in RaisedBy(s, step), Writes(s.db, step, k))
            && (Writes(s.db, step, k) ==>
                  && (d.stocks[k].IsLow() <==> LowWith(s.db.stocks[k], Target(move, s.db.stocks[k].quantity)))
                  && (k in RaisedBy(s, step) <==> d.stocks[k].IsLow() && s.db.stocks[k].alertedAt.None?))
  {
    MoveIsAccepted(s.db, key, move, now);
  }

  ghost predicate WrittenBy(s: State, step: Step, k: StockKey) {
    && k in s.db.stocks && k in Apply(s, step).db.stocks
    && WrittenAs(s.db.stocks[k], Apply(s, step).db.stocks[k], k in RaisedBy(s, step), Writes(s.db, step, k))
  }

  /** A request that writes a row leaves its alert column in agreement, and any other leaves the row as it was; and the
      guards tell exactly which requests make the alerts of a row differ from its drops. */
  lemma GuardsTell(s: State, step: Step, k: StockKey)
    requires Inv(s.db) && Touches(step) && k in s.db.stocks
    ensures WrittenBy(s, step, k)
    ensures Forgotten(s, step, k) <==> RecoversUnread(s, step, k)
    ensures Doubled(s, step, k) <==> AlertsAgain(s, step, k)
    ensures Lost(s, step, k) <==> DropsSilently(s, step, k)
  {
    OrderStepSettles(s, step);
    match step
    case OpenMove(key, move, now) => MoveWrites(s, key, move, now, k);
    case ConfirmOrder(o, location, clock) => ConfirmWrites(s.db, o, location, clock, k);
    case CancelOrder(o, clock) => CancelWrites(s.db, o, clock, k);
    case CompleteOrder(o, clock, at) =>
      CompletionRaisesNothing(s.db, o, clock, at);
      CompleteWrites(s.db, o, clock, at, k);
  }

  lemma NoRequest(s: State, step: Step, k: StockKey)
    requires !Touches(step) || k !in s.db.stocks
    ensures !Disturbed(s, step, k)
  {
  }

  /** The guards tell exactly the steps that make the alerts of a row differ from its drops. */
  lemma DisturbedIffDeviates(s: State, step: Step, k: StockKey)
    requires Inv(s.db) && FlagInv(s)
    ensures Disturbed(s, step, k) <==> Deviates(s, step, k)
    ensures Lost(s, step, k) <==> DropsSilently(s, step, k)
  {
    if !Touches(step) {
      OtherAlerts(s, step, k);
      NoRequest(s, step, k);
    } else if k in s.db.stocks {
      GuardsTell(s, step, k);
    } else {
      NoRequest(s, step, k);
    }
  }

  /** A step adds one alert for a row that it makes low and none for any other, exactly unless it is a request that
      disturbs the row around its creation. */
  lemma StepAlerts(s: State, step: Step, k: StockKey)
    requires Inv(s.db) && FlagInv(s)
    ensures AlertsFollow(s, Apply(s, step), k) <==> !Disturbed(s, step, k)
  {
    StepDeviates(s, step, k);
    DisturbedIffDeviates(s, step, k);
  }

  ghost predicate CountsMatchThroughout(start: State, steps: seq<Step>, k: StockKey) {
    && AlertCount(Run(start, steps), k) == RiseCount(start, steps, k)
    && (steps != [] ==> CountsMatchThroughout(start, steps[..|steps| - 1], k))
  }

  ghost predicate UndisturbedThroughout(start: State, steps: seq<Step>, k: StockKey) {
    steps != [] ==>
      var init := steps[..|steps| - 1];
      UndisturbedThroughout(start, init, k) && !Disturbed(Run(start, init), steps[|steps| - 1], k)
  }

  /** Along a run the alerts of a row number exactly the times it became low, being created low included, exactly if
      no step disturbs the row around its creation. */
  lemma {:induction false} AlertsAreTheRisesIff(products: set<ProductId>, locations: set<LocationId>, steps: seq<Step>,
                                                k: StockKey)
    ensures var start := Start(products, locations);
            CountsMatchThroughout(start, steps, k) <==> UndisturbedThroughout(start, steps, k)
  {
    var start := Start(products, locations);
    if steps != [] {
      var init := steps[..|steps| - 1];
      AlertsAreTheRisesIff(products, locations, init, k);
      if CountsMatchThroughout(start, init, k) {
        ReachableInv(products, locations, init);
        ReachableFlags(products, locations, init);
        StepAlerts(Run(start, init), steps[|steps| - 1], k);
      }
    }
  }

  // ---- stale rows

  /** The row's creation has committed its alert when the row was not low, and no request has written the row since. */
  ghost predicate LateSince(start: State, steps: seq<Step>, k: StockKey) {
    steps != [] &&
    var last := steps[|steps| - 1];
    var s := Run(start, steps[..|steps| - 1]);
    if last == CloseCreate(k) && k in s.creating && s.creating[k].Some? then !LowAt(s.db, k)
    else LateSince(start, steps[..|steps| - 1], k) && !Writes(s.db, last, k)
  }

  ghost predicate StaleAt(db: Db, k: StockKey) { k in db.stocks && db.stocks[k].Stale() }

  lemma CreationStales(s: State, step: Step, k: StockKey)
    requires FlagInv(s) && (step.OpenCreate? || step.ReadCreate? || step.CloseCreate?)
    ensures StaleAt(Apply(s, step).db, k)
       <==> if step == CloseCreate(k) && k in s.creating && s.creating[k].Some? then !LowAt(s.db, k)
            else StaleAt(s.db, k)
  {
  }

  lemma TouchStales(s: State, step: Step, k: StockKey)
    requires Inv(s.db) && FlagInv(s) && Touches(step)
    ensures StaleAt(Apply(s, step).db, k) <==> StaleAt(s.db, k) && !Writes(s.db, step, k)
  {
    StepKeepsKeys(s, step);
    if k in s.db.stocks { GuardsTell(s, step, k); }
  }

  /** In every run a row is stale exactly if its creation committed the alert late and no request has written it
      since. */
  lemma {:induction false} StaleIffLate(products: set<ProductId>, locations: set<LocationId>, steps: seq<Step>,
                                        k: StockKey)
    ensures var start := Start(products, locations);
            StaleAt(Run(start, steps).db, k) <==> LateSince(start, steps, k)
  {
    if steps != [] {
      var init, last := steps[..|steps| - 1], steps[|steps| - 1];
      var s := Run(Start(products, locations), init);
      StaleIffLate(products, locations, init, k);
      ReachableInv(products, locations, init);
      ReachableFlags(products, locations, init);
      if Touches(last) {
        TouchStales(s, last, k);
      } else if Bookkeeping(last) {
        BookkeepingLeavesRows(s, last);
      } else {
        CreationStales(s, last, k);
      }
    }
  }

  // ---- undisturbed creations

  /** While the row's creation is unfinished, no other step changes the row. */
  ghost predicate LeavesWindow(s: State, step: Step, k: StockKey) {
    k in s.creating && k in s.db.stocks && Touches(step) ==>
      k in Apply(s, step).db.stocks && Apply(s, step).db.stocks[k] == s.db.stocks[k]
  }

  ghost predicate QuietCreation(start: State, steps: seq<Step>, k: StockKey) {
    steps != [] ==>
      var init := steps[..|steps| - 1];
      QuietCreation(start, init, k) && LeavesWindow(Run(start, init), steps[|steps| - 1], k)
  }

  /** The column agrees outside the window, and a creation that found the row low still does. */
  ghost predicate WindowInv(s: State, k: StockKey) {
    && FlagHolds(s, k)
    && (k in s.creating && k in s.db.stocks && s.creating[k].Some? ==> s.db.stocks[k].Unseen())
  }

  lemma QuietTouch(s: State, step: Step, k: StockKey)
    requires Inv(s.db) && FlagInv(s) && WindowInv(s, k) && LeavesWindow(s, step, k) && Touches(step)
    ensures WindowInv(Apply(s, step), k) && !Deviates(s, step, k)
  {
    TouchesKeepFlagInv(s, step);
    TouchHoldsFlag(s, step, k);
    StepKeepsKeys(s, step);
    if k in s.db.stocks { StepTouches(s, step, k); }
  }

  lemma QuietWindow(s: State, step: Step, k: StockKey)
    requires FlagInv(s) && WindowInv(s, k) && (step.OpenCreate? || step.ReadCreate? || step.CloseCreate?)
    ensures WindowInv(Apply(s, step), k) && OnTime(s, step, k)
  {
    CreationHoldsFlag(s, step, k);
  }

  lemma QuietStep(s: State, step: Step, k: StockKey)
    requires Inv(s.db) && FlagInv(s) && WindowInv(s, k) && LeavesWindow(s, step, k)
    ensures WindowInv(Apply(s, step), k) && OnTime(s, step, k) && !Disturbed(s, step, k)
  {
    StepDeviates(s, step, k);
    StepAlerts(s, step, k);
    if Touches(step) {
      QuietTouch(s, step, k);
    } else {
      OtherAlerts(s, step, k);
      if Bookkeeping(step) {
        BookkeepingLeavesRows(s, step);
      } else {
        QuietWindow(s, step, k);
      }
    }
  }

  /** Along every run that leaves the row alone while it is being created, its alert column is exact once it is created
      and its alerts number exactly the times it became low. */
  lemma {:induction false} AlertsAreTheRises(products: set<ProductId>, locations: set<LocationId>, steps: seq<Step>,
                                             k: StockKey)
    requires QuietCreation(Start(products, locations), steps, k)
    ensures var start := Start(products, locations);
            && AlertCount(Run(start, steps), k) == RiseCount(start, steps, k)
            && WindowInv(Run(start, steps), k)
            && OnTimeThroughout(start, steps, k) && UndisturbedThroughout(start, steps, k)
  {
    var start := Start(products, locations);
    if steps != [] {
      var init := steps[..|steps| - 1];
      AlertsAreTheRises(products, locations, init, k);
      ReachableInv(products, locations, init);
      ReachableFlags(products, locations, init);
      QuietStep(Run(start, init), steps[|steps| - 1], k);
      StepAlerts(Run(start, init), steps[|steps| - 1], k);
    }
  }

  // ---- disturbed creations: five units created with a reorder point of ten

  function NewKey(): StockKey { StockKey(0, 0) }

  /** A state that holds one row and nothing else that matters to its alerts. */
  ghost predicate OneRow(s: State, row: Stock, creating: map<StockKey, Option<Time>>, inflight: seq<Call>,
                         alerts: nat) {
    && s.db.stocks == map[NewKey() := row] && s.db.movements == []
    && s.creating == creating && s.inflight == inflight && s.alerts[NewKey()] == alerts
  }

  lemma OneMoreStep(start: State, steps: seq<Step>, step: Step, k: StockKey)
    ensures Run(start, steps + [step]) == Apply(Run(start, steps), step)
    ensures RiseCount(start, steps + [step], k)
         == RiseCount(start, steps, k)
            + (if Rises(Run(start, steps).db, Run(start, steps + [step]).db, k) then 1 else 0)
  {
    assert (steps + [step])[..|steps|] == steps;
  }

  function Opened(): seq<Step> { [OpenCreate(NewKey(), 5, 10)] }

  /** The first commit alone leaves a low row without its alert. */
  lemma FirstCommitIsUnseen()
    ensures var s := Run(Start({0}, {0}), Opened());
            OneRow(s, Stock(5, 0, 10, None), map[NewKey() := None], [], 0) && s.db.stocks[NewKey()].Unseen()
    ensures RiseCount(Start({0}, {0}), Opened(), NewKey()) == 1
  {
    OneMoreStep(Start({0}, {0}), [], OpenCreate(NewKey(), 5, 10), NewKey());
    assert [] + Opened() == Opened();
  }

  function Ordered(): seq<Step> { Opened() + [NewOrder(0)] + [NewItem(0, 0, 0, 1)] }

  /** The tables after the first commit of that creation. */
  function OpenedDb(): Db {
    Db({0}, {0}, map[NewKey() := Stock(5, 0, 10, None)], map[], map[], map[], [])
  }

  lemma OpenedTables()
    ensures Run(Start({0}, {0}), Opened()).db == OpenedDb()
  {
    OneMoreStep(Start({0}, {0}), [], OpenCreate(NewKey(), 5, 10), NewKey());
    assert [] + Opened() == Opened();
  }

  lemma OneUnitOrdered()
    ensures var db := Run(Start({0}, {0}), Ordered()).db;
            && db.stocks == OpenedDb().stocks && 0 in db.orders
            && db.orders[0] == Order(Created, [Item(0, 0, 1)])
  {
    var start := Start({0}, {0});
    OpenedTables();
    var s := Run(start, Opened());
    RunAppend(start, Opened(), NewOrder(0));
    OrderStepSettles(s, NewOrder(0));
    NewOrderIsEmpty(OpenedDb(), 0);
    var t := Run(start, Opened() + [NewOrder(0)]);
    RunAppend(start, Opened() + [NewOrder(0)], NewItem(0, 0, 0, 1));
    OrderStepSettles(t, NewItem(0, 0, 0, 1));
    AddedItemIsDemanded(t.db, 0, 0, 0, 1, 0);
  }

  /** Confirming one unit of that row and cancelling leaves its alert set: the row is not given back. */
  lemma UnseenRowIsNotGivenBack(clock: Clock, later: Clock)
    ensures var db := Run(Start({0}, {0}), Ordered()).db;
            && Confirm(db, 0, 0, clock).Ok?
            && var d := Confirm(db, 0, 0, clock).value;
            && Cancel(d, 0, later).Ok? && NewKey() in Cancel(d, 0, later).value.stocks
            && NewKey() in db.stocks && db.stocks[NewKey()] == Stock(5, 0, 10, None)
            && Cancel(d, 0, later).value.stocks[NewKey()] != db.stocks[NewKey()]
  {
    var db := Run(Start({0}, {0}), Ordered()).db;
    OneUnitOrdered();
    ReachableInv({0}, {0}, Ordered());
    var items := [Item(0, 0, 1)];
    assert Demand(items, 1, 0) == 1;
    ConfirmIsTheAggregateTest(db, 0, 0, clock);
    ConfirmThenCancel(db, 0, 0, clock, later);
  }

  function Found(): seq<Step> { Opened() + [ReadCreate(NewKey(), 0)] }

  lemma FoundLow()
    ensures OneRow(Run(Start({0}, {0}), Found()), Stock(5, 0, 10, None), map[NewKey() := Some(0)], [], 0)
    ensures RiseCount(Start({0}, {0}), Found(), NewKey()) == 1
  {
    FirstCommitIsUnseen();
    OneMoreStep(Start({0}, {0}), Opened(), ReadCreate(NewKey(), 0), NewKey());
  }

  lemma MoveOfOneRow(s: State, row: Stock, move: Move, now: Time, row': Stock, m: Movement)
    requires OneRow(s, row, s.creating, s.inflight, s.alerts[NewKey()])
    requires MoveStock(s.db, NewKey(), move, now) == Ok((row', m))
    ensures OneRow(Apply(s, OpenMove(NewKey(), move, now)), row', s.creating,
                   s.inflight + [Call(m, row'.alertedAt.Some? && row.alertedAt.None?)], s.alerts[NewKey()])
  {
    assert s.db.stocks[NewKey() := row'] == map[NewKey() := row'];
  }

  function FoundThenTaken(): seq<Step> { Found() + [OpenMove(NewKey(), StockOut(1), 1)] }

  lemma TakenInWindow()
    ensures OneRow(Run(Start({0}, {0}), FoundThenTaken()), Stock(4, 0, 10, Some(1)), map[NewKey() := Some(0)],
                   [Call(Movement(NewKey(), Out, 1, 5, 4), true)], 0)
    ensures RiseCount(Start({0}, {0}), FoundThenTaken(), NewKey()) == 1
  {
    FoundLow();
    var s := Run(Start({0}, {0}), Found());
    OneMoreStep(Start({0}, {0}), Found(), OpenMove(NewKey(), StockOut(1), 1), NewKey());
    var m := Movement(NewKey(), Out, 1, 5, 4);
    TakingOne(s.db);
    MoveOfOneRow(s, Stock(5, 0, 10, None), StockOut(1), 1, Stock(4, 0, 10, Some(1)), m);
    assert [] + [Call(m, true)] == [Call(m, true)];
    StaysLow(Run(Start({0}, {0}), Found()), Run(Start({0}, {0}), FoundThenTaken()));
  }

  lemma TakingOne(db: Db)
    requires NewKey() in db.stocks && db.stocks[NewKey()] == Stock(5, 0, 10, None)
    ensures MoveStock(db, NewKey(), StockOut(1), 1) == Ok((Stock(4, 0, 10, Some(1)), Movement(NewKey(), Out, 1, 5, 4)))
  {
  }

  lemma StaysLow(s: State, s': State)
    requires OneRow(s, Stock(5, 0, 10, None), s.creating, s.inflight, s.alerts[NewKey()])
    requires OneRow(s', Stock(4, 0, 10, Some(1)), s'.creating, s'.inflight, s'.alerts[NewKey()])
    ensures !Rises(s.db, s'.db, NewKey())
  {
  }

  /** A removal that finds the row low and unseen alerts for it, and so does the creation: two alerts, one drop. */
  lemma CreationCanAlertTwice()
    ensures var s := Run(Start({0}, {0}), FoundThenTaken());
            && AlertCount(s, NewKey()) == 2 && RiseCount(Start({0}, {0}), FoundThenTaken(), NewKey()) == 1
  {
    TakenInWindow();
    BothAlert(Run(Start({0}, {0}), FoundThenTaken()), Stock(4, 0, 10, Some(1)), Movement(NewKey(), Out, 1, 5, 4));
  }

  /** One alert of a manual move and one of a creation. */
  lemma BothAlert(s: State, row: Stock, m: Movement)
    requires OneRow(s, row, map[NewKey() := Some(0)], [Call(m, true)], 0) && m.stock == NewKey()
    ensures AlertCount(s, NewKey()) == 2
  {
    SumByAppend([], Call(m, true), RaisedOn(NewKey()));
    assert [] + [Call(m, true)] == [Call(m, true)];
  }

  function FoundThenAdded(): seq<Step> { Found() + [OpenMove(NewKey(), StockIn(20), 1)] }

  function FlaggedLate(): seq<Step> { FoundThenAdded() + [CloseCreate(NewKey())] }

  function DroppedAgain(): seq<Step> { FlaggedLate() + [OpenMove(NewKey(), StockOut(20), 2)] }

  lemma RecoveredInWindow() returns (calls: seq<Call>)
    ensures OneRow(Run(Start({0}, {0}), FoundThenAdded()), Stock(25, 0, 10, None), map[NewKey() := Some(0)], calls, 0)
    ensures RiseCount(Start({0}, {0}), FoundThenAdded(), NewKey()) == 1 && SumBy(calls, RaisedOn(NewKey())) == 0
  {
    FoundLow();
    var s := Run(Start({0}, {0}), Found());
    OneMoreStep(Start({0}, {0}), Found(), OpenMove(NewKey(), StockIn(20), 1), NewKey());
    var m := Movement(NewKey(), In, 20, 5, 25);
    MoveOfOneRow(s, Stock(5, 0, 10, None), StockIn(20), 1, Stock(25, 0, 10, None), m);
    calls := [Call(m, false)];
    SumByAppend([], Call(m, false), RaisedOn(NewKey()));
    assert [] + calls == calls;
  }

  /** An addition between the commits leaves the alert set on a row that is not low, */
  lemma LateFlagIsStale() returns (calls: seq<Call>)
    ensures OneRow(Run(Start({0}, {0}), FlaggedLate()), Stock(25, 0, 10, Some(0)), map[], calls, 1)
    ensures Run(Start({0}, {0}), FlaggedLate()).db.stocks[NewKey()].Stale()
    ensures RiseCount(Start({0}, {0}), FlaggedLate(), NewKey()) == 1 && SumBy(calls, RaisedOn(NewKey())) == 0
  {
    calls := RecoveredInWindow();
    OneMoreStep(Start({0}, {0}), FoundThenAdded(), CloseCreate(NewKey()), NewKey());
    assert map[NewKey() := Some(0)] - {NewKey()} == map[];
  }

  /** ... and the next drop is never alerted: two drops, one alert. */
  lemma LateFlagLosesADrop()
    ensures var s := Run(Start({0}, {0}), DroppedAgain());
            && LowAt(s.db, NewKey()) && s.creating == map[]
            && AlertCount(s, NewKey()) == 1 && RiseCount(Start({0}, {0}), DroppedAgain(), NewKey()) == 2
  {
    var calls := LateFlagIsStale();
    var s := Run(Start({0}, {0}), FlaggedLate());
    OneMoreStep(Start({0}, {0}), FlaggedLate(), OpenMove(NewKey(), StockOut(20), 2), NewKey());
    var m := Movement(NewKey(), Out, 20, 25, 5);
    MoveOfOneRow(s, Stock(25, 0, 10, Some(0)), StockOut(20), 2, Stock(5, 0, 10, Some(0)), m);
    SumByAppend(calls, Call(m, false), RaisedOn(NewKey()));
  }
}

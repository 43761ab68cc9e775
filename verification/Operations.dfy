/** Runs of the whole system: every committed step of the order and inventory services, in any order. */
module Operations {
  import opened Prelude
  import opened Domain
  import opened Inventory
  import opened Orders

  /** A manual stock move between the commit of its stock row and the commit of its movement. */
  datatype Call = Call(movement: Movement, raised: bool)

  /** The tables, the open calls and the alerts handed to the notifier. `creating` holds the rows whose creation has
      committed the row and not finished: without a time it has not yet read the row back, with one it has found it low
      and will commit the alert column with that time. `initial` and `applied` are history: the quantity each row was
      created with, and every quantity change in the order it was committed. */
  datatype State = State(
    db: Db,
    inflight: seq<Call>,
    creating: map<StockKey, Option<Time>>,
    alerts: multiset<StockKey>,
    initial: map<StockKey, int>,
    applied: seq<Movement>)

  datatype Step =
    | OpenCreate(key: StockKey, quantity: int, reorderPoint: int)
    | ReadCreate(key: StockKey, now: Time)
    | CloseCreate(key: StockKey)
    | OpenMove(key: StockKey, move: Move, now: Time)
    | CloseMove(call: nat, at: Time)
    | ConfirmOrder(order: OrderId, location: LocationId, clock: Clock)
    | CancelOrder(order: OrderId, clock: Clock)
    | CompleteOrder(order: OrderId, clock: Clock, at: Time)
    | NewOrder(order: OrderId)
    | NewItem(order: OrderId, item: ItemId, product: ProductId, quantity: int)
    | DropItem(order: OrderId, product: ProductId)

  ghost function Start(products: set<ProductId>, locations: set<LocationId>): State {
    State(Db(products, locations, map[], map[], map[], map[], []), [], map[], multiset{}, map[], [])
  }

  ghost function Committed(s: State, r: Result<Db, Error>): State {
    if r.Err? then s else s.(db := r.value)
  }

  ghost function CommittedAndFlushed(s: State, r: Result<Db, Error>, raised: set<StockKey>): State {
    if r.Err? then s else s.(db := r.value, alerts := s.alerts + multiset(raised))
  }

  ghost function Moves(rows: seq<LedgerRow>): seq<Movement> {
    seq(|rows|, i requires 0 <= i < |rows| => rows[i].movement)
  }

  ghost function CallMoves(calls: seq<Call>): seq<Movement> {
    seq(|calls|, i requires 0 <= i < |calls| => calls[i].movement)
  }

  function Appended<T>(before: seq<T>, after: seq<T>): seq<T> {
    if |before| <= |after| then after[|before|..] else []
  }

  /** One committed step; a refused request leaves everything as it was. */
  ghost function Apply(s: State, step: Step): State {
    match step
    case OpenCreate(key, quantity, reorderPoint) =>
      var r := Create(s.db, key, quantity, reorderPoint);
      if r.Err? then s
      else s.(db := r.value, creating := s.creating[key := None],
              initial := s.initial[key := r.value.stocks[key].quantity])
    case ReadCreate(key, now) =>
      if key !in s.creating || key !in s.db.stocks || s.creating[key].Some? then s
      else if s.db.stocks[key].Unseen() then s.(creating := s.creating[key := Some(now)])
      else s.(creating := s.creating - {key})
    case CloseCreate(key) =>
      if key !in s.creating || key !in s.db.stocks || s.creating[key].None? then s
      else s.(db := Flag(s.db, key, s.creating[key].value), creating := s.creating - {key},
              alerts := s.alerts + multiset{key})
    case OpenMove(key, move, now) =>
      var r := MoveStock(s.db, key, move, now);
      if r.Err? then s
      else
        var stocks := s.db.stocks[key := r.value.0];
        s.(db := s.db.(stocks := stocks), applied := s.applied + [r.value.1],
           inflight := s.inflight + [Call(r.value.1, key in Raised(s.db.stocks, stocks))])
    case CloseMove(i, at) =>
      if i >= |s.inflight| then s
      else
        var call := s.inflight[i];
        s.(db := s.db.(movements := s.db.movements + [LedgerRow(call.movement, at)]),
           inflight := Without(s.inflight, i),
           alerts := s.alerts + (if call.raised then multiset{call.movement.stock} else multiset{}))
    case ConfirmOrder(o, location, clock) =>
      CommittedAndFlushed(s, Confirm(s.db, o, location, clock), ConfirmRaises(s.db, o, location, clock))
    case CancelOrder(o, clock) => Committed(s, Cancel(s.db, o, clock))
    case CompleteOrder(o, clock, at) =>
      var r := Complete(s.db, o, clock, at);
      if r.Err? then s
      else CommittedAndFlushed(s, r, CompleteRaises(s.db, o, clock, at))
           .(applied := s.applied + Moves(Appended(s.db.movements, r.value.movements)))
    case NewOrder(o) => Committed(s, Orders.CreateOrder(s.db, o))
    case NewItem(o, id, product, quantity) => Committed(s, AddItem(s.db, o, id, product, quantity))
    case DropItem(o, product) => Committed(s, RemoveItem(s.db, o, product))
  }

  /** The state after a run of steps from a catalog without stock or orders. */
  ghost function Run(start: State, steps: seq<Step>): State {
    if steps == [] then start else Apply(Run(start, steps[..|steps| - 1]), steps[|steps| - 1])
  }

  lemma RunAppend(start: State, steps: seq<Step>, step: Step)
    ensures Run(start, steps + [step]) == Apply(Run(start, steps), step)
  {
    assert (steps + [step])[..|steps|] == steps;
  }

  /** A manual move that no other step comes between writes its row, its movement and its alert, and is over. */
  lemma UninterruptedMove(s: State, key: StockKey, move: Move, now: Time, at: Time)
    requires MoveStock(s.db, key, move, now).Ok?
    ensures var (row, movement) := MoveStock(s.db, key, move, now).value;
            var s' := Apply(Apply(s, OpenMove(key, move, now)), CloseMove(|s.inflight|, at));
            && movement.stock == key
            && s'.db == s.db.(stocks := s.db.stocks[key := row],
                              movements := s.db.movements + [LedgerRow(movement, at)])
            && s'.inflight == s.inflight
            && s'.alerts == s.alerts + multiset(Raised(s.db.stocks, s'.db.stocks))
  {
    var (row, movement) := MoveStock(s.db, key, move, now).value;
    var stocks := s.db.stocks[key := row];
    var call := Call(movement, key in Raised(s.db.stocks, stocks));
    assert Raised(s.db.stocks, stocks) == if call.raised then {key} else {};
    assert Without(s.inflight + [call], |s.inflight|) == s.inflight;
  }

  /** So does a creation that no other step comes between: it is `Initialize`, with an alert if the row is low. */
  lemma UninterruptedCreation(s: State, key: StockKey, quantity: int, reorderPoint: int, now: Time)
    requires key !in s.creating && Initialize(s.db, key, quantity, reorderPoint, now).Ok?
    ensures var d := Initialize(s.db, key, quantity, reorderPoint, now).value;
            var s' := Apply(Apply(Apply(s, OpenCreate(key, quantity, reorderPoint)), ReadCreate(key, now)),
                            CloseCreate(key));
            && s'.db == d && s'.creating == s.creating
            && s'.alerts == s.alerts + multiset(Raised(s.db.stocks, d.stocks))
  {
    var d := Initialize(s.db, key, quantity, reorderPoint, now).value;
    assert Raised(s.db.stocks, d.stocks) == if d.stocks[key].alertedAt.Some? then {key} else {};
    assert s.creating[key := None] - {key} == s.creating;
    assert s.creating[key := Some(now)] - {key} == s.creating;
  }

  // ---- what single steps change

  /** The tables after a request that either commits or leaves them as they are. */
  ghost function Settled(db: Db, r: Result<Db, Error>): Db { if r.Err? then db else r.value }

  lemma OrderStepSettles(s: State, step: Step)
    ensures step.ConfirmOrder? ==>
      Apply(s, step).db == Settled(s.db, Confirm(s.db, step.order, step.location, step.clock))
    ensures step.CancelOrder? ==> Apply(s, step).db == Settled(s.db, Cancel(s.db, step.order, step.clock))
    ensures step.CompleteOrder? ==> Apply(s, step).db == Settled(s.db, Complete(s.db, step.order, step.clock, step.at))
    ensures step.NewOrder? ==> Apply(s, step).db == Settled(s.db, Orders.CreateOrder(s.db, step.order))
    ensures step.NewItem? ==>
      Apply(s, step).db == Settled(s.db, AddItem(s.db, step.order, step.item, step.product, step.quantity))
    ensures step.DropItem? ==> Apply(s, step).db == Settled(s.db, RemoveItem(s.db, step.order, step.product))
  {
  }

  /** The steps of the order service. */
  ghost predicate OrderStep(step: Step) { step.ConfirmOrder? || step.CancelOrder? || step.CompleteOrder? }

  /** The steps that write no stock row. */
  ghost predicate Bookkeeping(step: Step) { step.CloseMove? || step.NewOrder? || step.NewItem? || step.DropItem? }

  lemma BookkeepingLeavesRows(s: State, step: Step)
    requires Bookkeeping(step)
    ensures Apply(s, step).db.stocks == s.db.stocks && Apply(s, step).creating == s.creating
    ensures !step.CloseMove? ==> Apply(s, step).inflight == s.inflight && Apply(s, step).alerts == s.alerts
  {
  }

  lemma TransitionsKeepKeys(db: Db, o: OrderId, location: LocationId, clock: Clock, at: Time)
    requires Inv(db)
    ensures Settled(db, Confirm(db, o, location, clock)).stocks.Keys == db.stocks.Keys
    ensures Settled(db, Cancel(db, o, clock)).stocks.Keys == db.stocks.Keys
    ensures Settled(db, Complete(db, o, clock, at)).stocks.Keys == db.stocks.Keys
  {
    if Confirm(db, o, location, clock).Ok? { ConfirmIsTheAggregateTest(db, o, location, clock); }
    if Cancel(db, o, clock).Ok? { CancelReleasesAll(db, o, clock); }
    if Complete(db, o, clock, at).Ok? { CompleteFulfillsAll(db, o, clock, at); }
  }

  lemma RowStepKeepsKeys(s: State, step: Step)
    requires !OrderStep(step) && !Bookkeeping(step)
    ensures s.db.stocks.Keys <= Apply(s, step).db.stocks.Keys
    ensures !step.OpenCreate? ==> Apply(s, step).db.stocks.Keys == s.db.stocks.Keys
  {
  }

  /** No row is ever lost, and only a creation adds one. */
  lemma StepKeepsKeys(s: State, step: Step)
    requires Inv(s.db)
    ensures s.db.stocks.Keys <= Apply(s, step).db.stocks.Keys
    ensures !step.OpenCreate? ==> Apply(s, step).db.stocks.Keys == s.db.stocks.Keys
  {
    if Bookkeeping(step) {
      BookkeepingLeavesRows(s, step);
    } else if OrderStep(step) {
      OrderStepSettles(s, step);
      match step
      case ConfirmOrder(o, location, clock) => TransitionsKeepKeys(s.db, o, location, clock, 0);
      case CancelOrder(o, clock) => TransitionsKeepKeys(s.db, o, 0, clock, 0);
      case CompleteOrder(o, clock, at) => TransitionsKeepKeys(s.db, o, 0, clock, at);
    } else {
      RowStepKeepsKeys(s, step);
    }
  }

  // ---- the table invariants

  lemma RowWriteKeeps(db: Db, key: StockKey, s: Stock)
    requires Inv(db) && (key in db.stocks ==> !s.Unseen())
    requires s.reserved == if key in db.stocks then db.stocks[key].reserved else 0
    ensures Inv(db.(stocks := db.stocks[key := s]))
  {
    var d := db.(stocks := db.stocks[key := s]);
    forall k | k in d.stocks ensures RowInv(d, k) {
      if k in db.stocks {
        assert RowInv(db, k);
      } else {
        HeldNothing(db.reservations, Reserved, key);
      }
    }
    OrderInvIgnoresStocks(db, d);
  }

  lemma OrderInvIgnoresStocks(db: Db, d: Db)
    requires OrderInv(db) && d.orders == db.orders && d.itemOrder == db.itemOrder && d.reservations == db.reservations
    ensures OrderInv(d)
  {
    forall p, it | p in d.orders && it in d.orders[p].items ensures ItemInv(d, p, d.orders[p].status, it) {
      assert ItemInv(db, p, db.orders[p].status, it);
    }
  }

  lemma OrderStepKeepsInv(s: State, step: Step)
    requires Inv(s.db) && OrderStep(step)
    ensures Inv(Apply(s, step).db)
  {
    match step
    case ConfirmOrder(o, location, clock) =>
      if Confirm(s.db, o, location, clock).Ok? { ConfirmKeeps(s.db, o, location, clock); }
    case CancelOrder(o, clock) => if Cancel(s.db, o, clock).Ok? { CancelKeeps(s.db, o, clock); }
    case CompleteOrder(o, clock, at) => if Complete(s.db, o, clock, at).Ok? { CompleteKeeps(s.db, o, clock, at); }
  }

  /** The steps that write one stock row. */
  ghost predicate RowStep(step: Step) { step.OpenCreate? || step.OpenMove? || step.CloseCreate? }

  lemma RowStepKeepsInv(s: State, step: Step)
    requires Inv(s.db) && RowStep(step)
    ensures Inv(Apply(s, step).db)
  {
    var s' := Apply(s, step);
    if s'.db != s.db {
      RowWriteKeeps(s.db, step.key, s'.db.stocks[step.key]);
    }
  }

  /** Every committed step keeps the tables' invariants. */
  lemma StepKeepsInv(s: State, step: Step)
    requires Inv(s.db)
    ensures Inv(Apply(s, step).db)
  {
    if OrderStep(step) {
      OrderStepKeepsInv(s, step);
    } else if RowStep(step) {
      RowStepKeepsInv(s, step);
    } else {
      OtherStepKeepsInv(s, step);
    }
  }

  lemma OtherStepKeepsInv(s: State, step: Step)
    requires Inv(s.db) && !OrderStep(step) && !RowStep(step)
    ensures Inv(Apply(s, step).db)
  {
    var s' := Apply(s, step);
    if s'.db != s.db {
      match step
      case CloseMove(i, at) =>
        StockInvIgnoresOrders(s.db, s'.db);
        OrderInvIgnoresStocks(s.db, s'.db);
      case NewOrder(o) => CreateOrderKeeps(s.db, o);
      case NewItem(o, id, product, quantity) => AddItemKeeps(s.db, o, id, product, quantity);
      case DropItem(o, product) => RemoveItemKeeps(s.db, o, product);
      case _ =>
    }
  }

  /** In every reachable state each row reserves the sum of its open reservations, a row with a reservation is not low
      without its alert set, and orders and reservations correspond item by item. */
  lemma {:induction false} ReachableInv(products: set<ProductId>, locations: set<LocationId>, steps: seq<Step>)
    ensures Inv(Run(Start(products, locations), steps).db)
  {
    if steps != [] {
      var n := |steps| - 1;
      ReachableInv(products, locations, steps[..n]);
      StepKeepsInv(Run(Start(products, locations), steps[..n]), steps[n]);
    }
  }

  /** In every reachable state, exactly the confirmed orders can be cancelled, and exactly they can be completed. */
  lemma ConfirmedOrdersCanClose(products: set<ProductId>, locations: set<LocationId>, steps: seq<Step>, o: OrderId,
                                clock: Clock, at: Time)
    ensures var db := Run(Start(products, locations), steps).db;
            && (Cancel(db, o, clock).Ok? <==> o in db.orders && db.orders[o].status == Confirmed)
            && (Complete(db, o, clock, at).Ok? <==> o in db.orders && db.orders[o].status == Confirmed)
  {
    ReachableInv(products, locations, steps);
    var db := Run(Start(products, locations), steps).db;
    if o in db.orders && db.orders[o].status == Confirmed {
      CancelReleasesAll(db, o, clock);
      CompleteFulfillsAll(db, o, clock, at);
    }
  }

  // ---- the ledger

  function DeltaOn(k: StockKey): Movement -> int {
    (m: Movement) => if m.stock == k then m.next - m.previous else 0
  }

  /** The quantity of a row after a sequence of movements, if each one starts where the one before it on that row
      ended. */
  ghost function Replay(ms: seq<Movement>, k: StockKey, from: int): Option<int> {
    if ms == [] then Some(from)
    else
      var m := ms[|ms| - 1];
      match Replay(ms[..|ms| - 1], k, from)
      case None => None
      case Some(q) => if m.stock != k then Some(q) else if m.previous == q then Some(m.next) else None
  }

  lemma ReplayAppend(ms: seq<Movement>, m: Movement, k: StockKey, from: int)
    ensures Replay(ms + [m], k, from) ==
            match Replay(ms, k, from)
            case None => None
            case Some(q) => if m.stock != k then Some(q) else if m.previous == q then Some(m.next) else None
  {
    assert (ms + [m])[..|ms|] == ms;
  }

  lemma ReplayOneMore(before: seq<Movement>, ms: seq<Movement>, m: Movement, k: StockKey, from: int)
    requires Replay(before + ms, k, from).Some? && (m.stock == k ==> m.previous == Replay(before + ms, k, from).value)
    ensures Replay(before + (ms + [m]), k, from) == if m.stock == k then Some(m.next) else Replay(before + ms, k, from)
  {
    assert before + (ms + [m]) == (before + ms) + [m];
    ReplayAppend(before + ms, m, k, from);
  }

  lemma {:induction false} ReplaySum(ms: seq<Movement>, k: StockKey, from: int)
    requires Replay(ms, k, from).Some?
    ensures Replay(ms, k, from).value == from + SumBy(ms, DeltaOn(k))
  {
    if ms != [] {
      ReplaySum(ms[..|ms| - 1], k, from);
    }
  }

  /** The changes in commit order chain every row from its initial to its current quantity, and are, as a
      multiset, the recorded movements and those of the calls between their two commits. */
  ghost predicate LedgerInv(s: State) {
    && s.initial.Keys == s.db.stocks.Keys
    && (forall k :: k in s.db.stocks ==> Replay(s.applied, k, s.initial[k]) == Some(s.db.stocks[k].quantity))
    && (forall m :: m in s.applied ==> m.stock in s.db.stocks)
    && multiset(s.applied) == multiset(Moves(s.db.movements)) + multiset(CallMoves(s.inflight))
  }

  lemma {:induction false} ReplayNothing(ms: seq<Movement>, k: StockKey, from: int)
    requires forall m :: m in ms ==> m.stock != k
    ensures Replay(ms, k, from) == Some(from)
  {
    if ms != [] {
      ReplayNothing(ms[..|ms| - 1], k, from);
    }
  }

  lemma CreateKeepsLedger(s: State, key: StockKey, quantity: int, reorderPoint: int)
    requires LedgerInv(s)
    ensures LedgerInv(Apply(s, OpenCreate(key, quantity, reorderPoint)))
  {
    if Create(s.db, key, quantity, reorderPoint).Ok? {
      var s' := Apply(s, OpenCreate(key, quantity, reorderPoint));
      ReplayNothing(s.applied, key, s'.initial[key]);
    }
  }

  lemma OpenKeepsLedger(s: State, key: StockKey, move: Move, now: Time)
    requires LedgerInv(s)
    ensures LedgerInv(Apply(s, OpenMove(key, move, now)))
  {
    if MoveStock(s.db, key, move, now).Ok? {
      var (row, m) := MoveStock(s.db, key, move, now).value;
      var s' := Apply(s, OpenMove(key, move, now));
      assert m.stock == key && m.previous == s.db.stocks[key].quantity && m.next == row.quantity;
      forall k | k in s.db.stocks
        ensures Replay(s'.applied, k, s'.initial[k]) == Some(s'.db.stocks[k].quantity)
      {
        ReplayAppend(s.applied, m, k, s.initial[k]);
      }
      assert CallMoves(s'.inflight) == CallMoves(s.inflight) + [m];
      assert multiset(s'.applied) == multiset(s.applied) + multiset{m};
    }
  }

  lemma CloseKeepsLedger(s: State, i: nat, at: Time)
    requires LedgerInv(s)
    ensures LedgerInv(Apply(s, CloseMove(i, at)))
  {
    if i < |s.inflight| {
      var s' := Apply(s, CloseMove(i, at));
      MultisetWithout(CallMoves(s.inflight), i);
      assert CallMoves(s'.inflight) == Without(CallMoves(s.inflight), i);
      assert Moves(s'.db.movements) == Moves(s.db.movements) + [CallMoves(s.inflight)[i]];
    }
  }

  /** The movement of the n-th item starts from what the ones before it left of its row. */
  lemma LastSale(db: Db, items: seq<Item>, n: nat, at: Time, k: StockKey) returns (m: Movement)
    requires 0 < n <= |items| && AllOpen(db, items) && k in db.stocks
    ensures Moves(Sales(db, items, n, at)) == Moves(Sales(db, items, n - 1, at)) + [m]
    ensures var q := db.stocks[k].quantity;
            var before, after := q - HeldBy(db.reservations, items, n - 1, k), q - HeldBy(db.reservations, items, n, k);
            if m.stock == k then m.previous == before && m.next == after else after == before
  {
    var sales := Sales(db, items, n, at);
    m := sales[|sales| - 1].movement;
  }

  lemma {:induction false} SalesReplay(db: Db, items: seq<Item>, n: nat, at: Time, before: seq<Movement>, k: StockKey,
                                       from: int)
    requires n <= |items| && AllOpen(db, items) && k in db.stocks
    requires Replay(before, k, from) == Some(db.stocks[k].quantity)
    ensures Replay(before + Moves(Sales(db, items, n, at)), k, from)
         == Some(db.stocks[k].quantity - HeldBy(db.reservations, items, n, k))
  {
    if n == 0 {
      assert before + Moves([]) == before;
    } else {
      SalesReplay(db, items, n - 1, at, before, k, from);
      var m := LastSale(db, items, n, at, k);
      ReplayOneMore(before, Moves(Sales(db, items, n - 1, at)), m, k, from);
    }
  }

  lemma CompleteKeepsLedger(s: State, o: OrderId, clock: Clock, at: Time)
    requires LedgerInv(s) && Inv(s.db) && Complete(s.db, o, clock, at).Ok?
    ensures LedgerInv(Apply(s, CompleteOrder(o, clock, at)))
  {
    var items := s.db.orders[o].items;
    CompleteFulfillsAll(s.db, o, clock, at);
    SalesOfItems(s.db, items, |items|, at);
    var d := Complete(s.db, o, clock, at).value;
    var sales := Sales(s.db, items, |items|, at);
    assert Appended(s.db.movements, d.movements) == sales;
    SalesChain(s, d.(orders := s.db.orders), items, at);
    SalesKeepLedger(s, Apply(s, CompleteOrder(o, clock, at)), sales);
  }

  lemma SalesChain(s: State, d: Db, items: seq<Item>, at: Time)
    requires LedgerInv(s) && AllOpen(s.db, items) && FulfilledExactly(s.db, d, items, |items|, at)
    ensures forall k :: k in s.db.stocks ==>
      Replay(s.applied + Moves(Sales(s.db, items, |items|, at)), k, s.initial[k]) == Some(d.stocks[k].quantity)
  {
    forall k | k in s.db.stocks
      ensures Replay(s.applied + Moves(Sales(s.db, items, |items|, at)), k, s.initial[k]) == Some(d.stocks[k].quantity)
    {
      assert Replay(s.applied, k, s.initial[k]) == Some(s.db.stocks[k].quantity);
      SalesReplay(s.db, items, |items|, at, s.applied, k, s.initial[k]);
      assert RowSold(s.db.stocks[k], d.stocks[k], HeldBy(s.db.reservations, items, |items|, k));
    }
  }

  lemma SalesKeepLedger(s: State, s': State, sales: seq<LedgerRow>)
    requires LedgerInv(s) && s'.initial == s.initial && s'.inflight == s.inflight
             && s'.db.stocks.Keys == s.db.stocks.Keys
    requires s'.db.movements == s.db.movements + sales && s'.applied == s.applied + Moves(sales)
    requires forall i :: 0 <= i < |sales| ==> sales[i].movement.stock in s.db.stocks
    requires forall k :: k in s.db.stocks ==> Replay(s'.applied, k, s.initial[k]) == Some(s'.db.stocks[k].quantity)
    ensures LedgerInv(s')
  {
    MovesOfConcat(s.db.movements, sales);
    MultisetOfConcat(s.applied, Moves(sales), Moves(s.db.movements), CallMoves(s.inflight));
    forall m | m in s'.applied ensures m.stock in s'.db.stocks {
      if m !in s.applied {
        var i :| 0 <= i < |sales| && Moves(sales)[i] == m;
      }
    }
  }

  lemma MovesOfConcat(a: seq<LedgerRow>, b: seq<LedgerRow>)
    ensures Moves(a + b) == Moves(a) + Moves(b)
  {
  }

  lemma MultisetOfConcat(all: seq<Movement>, more: seq<Movement>, a: seq<Movement>, b: seq<Movement>)
    requires multiset(all) == multiset(a) + multiset(b)
    ensures multiset(all + more) == multiset(a + more) + multiset(b)
  {
  }

  /** A step that records nothing and changes no quantity. */
  lemma QuietKeepsLedger(s: State, s': State)
    requires LedgerInv(s) && s' == s.(db := s'.db, creating := s'.creating, alerts := s'.alerts)
    requires s'.db.movements == s.db.movements && s'.db.stocks.Keys == s.db.stocks.Keys
    requires forall k :: k in s.db.stocks ==> s'.db.stocks[k].quantity == s.db.stocks[k].quantity
    ensures LedgerInv(s')
  {
  }

  lemma ConfirmLeavesQuantities(db: Db, o: OrderId, location: LocationId, clock: Clock)
    requires Inv(db) && Confirm(db, o, location, clock).Ok?
    ensures var d := Confirm(db, o, location, clock).value;
            d.movements == db.movements && d.stocks.Keys == db.stocks.Keys
            && forall k :: k in db.stocks ==> d.stocks[k].quantity == db.stocks[k].quantity
  {
    ConfirmIsTheAggregateTest(db, o, location, clock);
    var d := Confirm(db, o, location, clock).value;
    forall k | k in db.stocks ensures d.stocks[k].quantity == db.stocks[k].quantity {
      assert RowReserved(db.stocks[k], d.stocks[k], DemandAt(db.orders[o].items, |db.orders[o].items|, location, k));
    }
  }

  lemma CancelLeavesQuantities(db: Db, o: OrderId, clock: Clock)
    requires Inv(db) && Cancel(db, o, clock).Ok?
    ensures var d := Cancel(db, o, clock).value;
            d.movements == db.movements && d.stocks.Keys == db.stocks.Keys
            && forall k :: k in db.stocks ==> d.stocks[k].quantity == db.stocks[k].quantity
  {
    CancelReleasesAll(db, o, clock);
    var d := Cancel(db, o, clock).value;
    forall k | k in db.stocks ensures d.stocks[k].quantity == db.stocks[k].quantity {
      assert RowReleased(db.stocks[k], d.stocks[k],
                         HeldBy(db.reservations, db.orders[o].items, |db.orders[o].items|, k));
    }
  }

  lemma StepKeepsLedger(s: State, step: Step)
    requires LedgerInv(s) && Inv(s.db)
    ensures LedgerInv(Apply(s, step))
  {
    match step
    case OpenCreate(key, quantity, reorderPoint) => CreateKeepsLedger(s, key, quantity, reorderPoint);
    case OpenMove(key, move, now) => OpenKeepsLedger(s, key, move, now);
    case CloseMove(i, at) => CloseKeepsLedger(s, i, at);
    case CompleteOrder(o, clock, at) => if Complete(s.db, o, clock, at).Ok? { CompleteKeepsLedger(s, o, clock, at); }
    case ConfirmOrder(o, location, clock) =>
      if Confirm(s.db, o, location, clock).Ok? { ConfirmLeavesQuantities(s.db, o, location, clock); }
      QuietKeepsLedger(s, Apply(s, step));
    case CancelOrder(o, clock) =>
      if Cancel(s.db, o, clock).Ok? { CancelLeavesQuantities(s.db, o, clock); }
      QuietKeepsLedger(s, Apply(s, step));
    case _ => OtherStepKeepsLedger(s, step);
  }

  lemma OtherStepKeepsLedger(s: State, step: Step)
    requires LedgerInv(s) && (step.ReadCreate? || step.CloseCreate? || step.NewOrder? || step.NewItem?
                              || step.DropItem?)
    ensures LedgerInv(Apply(s, step))
  {
    QuietKeepsLedger(s, Apply(s, step));
  }

  lemma {:induction false} ReachableLedger(products: set<ProductId>, locations: set<LocationId>, steps: seq<Step>)
    ensures LedgerInv(Run(Start(products, locations), steps))
  {
    if steps != [] {
      var n := |steps| - 1;
      ReachableLedger(products, locations, steps[..n]);
      ReachableInv(products, locations, steps[..n]);
      StepKeepsLedger(Run(Start(products, locations), steps[..n]), steps[n]);
    }
  }

  ghost predicate AllConsistent(ms: seq<Movement>) { forall i :: 0 <= i < |ms| ==> Consistent(ms[i]) }

  lemma CompletionIsConsistent(db: Db, o: OrderId, clock: Clock, at: Time)
    requires Inv(db) && Complete(db, o, clock, at).Ok?
    ensures AllConsistent(Moves(Appended(db.movements, Complete(db, o, clock, at).value.movements)))
  {
    var items := db.orders[o].items;
    CompleteFulfillsAll(db, o, clock, at);
    SalesOfItems(db, items, |items|, at);
    assert Appended(db.movements, Complete(db, o, clock, at).value.movements) == Sales(db, items, |items|, at);
  }

  lemma StepKeepsConsistent(s: State, step: Step)
    requires Inv(s.db) && AllConsistent(s.applied)
    ensures AllConsistent(Apply(s, step).applied)
  {
    match step
    case OpenMove(key, move, now) => MoveIsAccepted(s.db, key, move, now);
    case CompleteOrder(o, clock, at) =>
      if Complete(s.db, o, clock, at).Ok? { CompletionIsConsistent(s.db, o, clock, at); }
    case _ =>
  }

  /** In every reachable state each recorded movement, and each one about to be, has the direction of its kind and the
      distance of its quantity. */
  lemma {:induction false} MovementsAreConsistent(products: set<ProductId>, locations: set<LocationId>,
                                                  steps: seq<Step>)
    ensures var s := Run(Start(products, locations), steps);
            AllConsistent(s.applied) && AllConsistent(Moves(s.db.movements)) && AllConsistent(CallMoves(s.inflight))
  {
    var s := Run(Start(products, locations), steps);
    if steps != [] {
      var n := |steps| - 1;
      MovementsAreConsistent(products, locations, steps[..n]);
      ReachableInv(products, locations, steps[..n]);
      StepKeepsConsistent(Run(Start(products, locations), steps[..n]), steps[n]);
    }
    ReachableLedger(products, locations, steps);
    AllConsistentTogether(s.applied, Moves(s.db.movements), CallMoves(s.inflight));
  }

  lemma AllConsistentTogether(all: seq<Movement>, a: seq<Movement>, b: seq<Movement>)
    requires AllConsistent(all) && multiset(all) == multiset(a) + multiset(b)
    ensures AllConsistent(a) && AllConsistent(b)
  {
    forall i | 0 <= i < |a| ensures Consistent(a[i]) { assert a[i] in multiset(all); }
    forall i | 0 <= i < |b| ensures Consistent(b[i]) { assert b[i] in multiset(all); }
  }

  ghost predicate ChainsEveryRow(s: State, chain: seq<Movement>)
    requires s.initial.Keys == s.db.stocks.Keys
  {
    forall k :: k in s.db.stocks ==> Replay(chain, k, s.initial[k]) == Some(s.db.stocks[k].quantity)
  }

  /** In every interleaving, a row's quantity is its initial one plus the recorded changes plus those of the
      calls between their two commits; with no such call, the recorded movements can be put in an order that
      chains every row from its initial to its current quantity. */
  lemma LedgerBalances(products: set<ProductId>, locations: set<LocationId>, steps: seq<Step>)
    ensures var s := Run(Start(products, locations), steps);
            && s.initial.Keys == s.db.stocks.Keys
            && (forall k :: k in s.db.stocks ==>
                  s.db.stocks[k].quantity
                  == s.initial[k] + SumBy(Moves(s.db.movements), DeltaOn(k)) + SumBy(CallMoves(s.inflight), DeltaOn(k)))
            && (s.inflight == [] ==>
                  exists chain :: ChainsEveryRow(s, chain) && multiset(chain) == multiset(Moves(s.db.movements)))
  {
    ReachableLedger(products, locations, steps);
    var s := Run(Start(products, locations), steps);
    var recorded, open := Moves(s.db.movements), CallMoves(s.inflight);
    forall k | k in s.db.stocks
      ensures s.db.stocks[k].quantity == s.initial[k] + SumBy(recorded, DeltaOn(k)) + SumBy(open, DeltaOn(k))
    {
      ReplaySum(s.applied, k, s.initial[k]);
      SumByPermuted(s.applied, recorded + open, DeltaOn(k));
      SumByConcat(recorded, open, DeltaOn(k));
    }
    if s.inflight == [] {
      assert ChainsEveryRow(s, s.applied) && multiset(s.applied) == multiset(recorded);
    }
  }
}

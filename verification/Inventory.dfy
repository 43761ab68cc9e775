/** What each inventory call does to the tables, and what every such call keeps. */
module Inventory {
  import opened Prelude
  import opened Domain

  /** The alert column after a change, set or cleared so that it agrees with the row. */
  function Sync(s: Stock, now: Time): (r: Stock)
    ensures r.FlagAgrees()
    ensures r.(alertedAt := s.alertedAt) == s
    ensures s.FlagAgrees() ==> r == s
    ensures s.Unseen() ==> r.alertedAt == Some(now)
  {
    if s.IsLow() && s.alertedAt.None? then s.(alertedAt := Some(now))
    else if !s.IsLow() && s.alertedAt.Some? then s.(alertedAt := None)
    else s
  }

  /** The rows whose alert column is newly set in `after`. */
  function Raised(before: map<StockKey, Stock>, after: map<StockKey, Stock>): set<StockKey> {
    set k | k in after && after[k].alertedAt.Some? && !(k in before && before[k].alertedAt.Some?)
  }

  function Abs(x: int): int { if x < 0 then -x else x }

  /** The first commit of a creation: the row, with its alert column not yet decided. */
  function Create(db: Db, key: StockKey, quantity: int, reorderPoint: int): Result<Db, Error> {
    if key.location !in db.locations then Err(InvalidLocation)
    else if Abs(quantity) <= 0 then Err(InvalidQuantityStock)
    else if key in db.stocks then Err(StockAlreadyExists)
    else if key.product !in db.products then Err(IntegrityError)
    else Ok(db.(stocks := db.stocks[key := Stock(Abs(quantity), 0, Abs(reorderPoint), None)]))
  }

  /** The second commit of a creation writes the alert column alone. */
  function Flag(db: Db, key: StockKey, now: Time): Db
    requires key in db.stocks
  {
    db.(stocks := db.stocks[key := db.stocks[key].(alertedAt := Some(now))])
  }

  /** A creation that no other request comes between. */
  function Initialize(db: Db, key: StockKey, quantity: int, reorderPoint: int, now: Time): Result<Db, Error> {
    var d :- Create(db, key, quantity, reorderPoint);
    Ok(if d.stocks[key].Unseen() then Flag(d, key, now) else d)
  }

  datatype Move = StockIn(amount: int) | StockOut(amount: int) | StockAdjust(target: int)

  /** The row and the movement of a manual stock move; the movement is recorded by a later commit. */
  function MoveStock(db: Db, key: StockKey, move: Move, now: Time): Result<(Stock, Movement), Error> {
    match move
    case StockIn(amount) =>
      if amount <= 0 then Err(InvalidQuantityStock)
      else if key !in db.stocks then Err(InvalidProductOrLocation)
      else Ok(Moved(key, db.stocks[key], In, amount, db.stocks[key].quantity + amount, now))
    case StockOut(amount) =>
      if amount <= 0 then Err(InvalidQuantityStock)
      else if key !in db.stocks then Err(InvalidProductOrLocation)
      else if db.stocks[key].quantity < amount then Err(StockNegative)
      else Ok(Moved(key, db.stocks[key], Out, amount, db.stocks[key].quantity - amount, now))
    case StockAdjust(target) =>
      if key !in db.stocks then Err(InvalidProductOrLocation)
      else if target < 0 then Err(StockNegative)
      else Ok(Moved(key, db.stocks[key], Adjust, Abs(target - db.stocks[key].quantity), target, now))
  }

  function Moved(key: StockKey, s: Stock, kind: MovementKind, amount: int, next: int, now: Time): (Stock, Movement) {
    (Sync(s.(quantity := next), now), Movement(key, kind, amount, s.quantity, next))
  }

  function Reserve(db: Db, item: ItemId, key: StockKey, quantity: int, now: Time): Result<Db, Error> {
    if quantity <= 0 then Err(InvalidQuantityStock)
    else if key !in db.stocks then Err(StockNotFound)
    else if db.stocks[key].Available() < quantity then Err(InsufficientStock)
    else if item in db.reservations then Err(IntegrityError)
    else
      var s := db.stocks[key];
      Ok(db.(stocks := db.stocks[key := Sync(s.(reserved := s.reserved + quantity), now)],
             reservations := db.reservations[item := Reservation(key, quantity, Reserved)]))
  }

  /** The guards shared by releasing and fulfilling the reservation of an item. */
  function OpenReservation(db: Db, item: ItemId): (r: Result<Reservation, Error>)
    ensures r.Ok? <==> item in db.reservations && db.reservations[item].status == Reserved
                       && db.reservations[item].stock in db.stocks
    ensures r.Ok? ==> r.value == db.reservations[item]
  {
    if item !in db.reservations then Err(ReservationNotFound)
    else if db.reservations[item].status != Reserved then Err(InvalidReservationStatus)
    else if db.reservations[item].stock !in db.stocks then Err(StockNotFound)
    else Ok(db.reservations[item])
  }

  function Release(db: Db, item: ItemId, now: Time): Result<Db, Error> {
    var r :- OpenReservation(db, item);
    var s := db.stocks[r.stock];
    Ok(db.(stocks := db.stocks[r.stock := Sync(s.(reserved := s.reserved - r.quantity), now)],
           reservations := db.reservations[item := r.(status := Released)]))
  }

  function Fulfill(db: Db, item: ItemId, now: Time, at: Time): Result<Db, Error> {
    var r :- OpenReservation(db, item);
    var s := db.stocks[r.stock];
    var s' := s.(quantity := s.quantity - r.quantity, reserved := s.reserved - r.quantity);
    Ok(db.(stocks := db.stocks[r.stock := Sync(s', now)],
           reservations := db.reservations[item := r.(status := Fulfilled)],
           movements := db.movements + [LedgerRow(Movement(r.stock, Out, r.quantity, s.quantity, s'.quantity), at)]))
  }

  // ---- manual moves

  /** What a manual move makes of a quantity. */
  ghost function Target(move: Move, quantity: int): int {
    match move
    case StockIn(amount) => quantity + amount
    case StockOut(amount) => quantity - amount
    case StockAdjust(target) => target
  }

  /** The direction and the distance of a movement are its kind and its quantity. */
  ghost predicate Consistent(m: Movement) {
    match m.kind
    case In => m.quantity > 0 && m.next - m.previous == m.quantity
    case Out => m.quantity > 0 && m.previous - m.next == m.quantity
    case Adjust => m.quantity == Abs(m.next - m.previous) && m.next >= 0
  }

  /** A manual move is accepted exactly when its row exists, an amount in or out is positive and an amount out or a
      target does not make the quantity negative; its movement then tells the row's change exactly. */
  lemma MoveIsAccepted(db: Db, key: StockKey, move: Move, now: Time)
    ensures var r := MoveStock(db, key, move, now);
            && (r.Ok? <==> && key in db.stocks
                           && (!move.StockAdjust? ==> move.amount > 0)
                           && (!move.StockIn? ==> Target(move, db.stocks[key].quantity) >= 0))
            && (r.Ok? ==>
                  var (row, m) := r.value;
                  && row.quantity == Target(move, db.stocks[key].quantity)
                  && row.reserved == db.stocks[key].reserved && row.reorderPoint == db.stocks[key].reorderPoint
                  && row.FlagAgrees()
                  && (db.stocks[key].IsLow() && row.IsLow() && db.stocks[key].alertedAt.Some? ==>
                        row.alertedAt == db.stocks[key].alertedAt)
                  && (row.IsLow() && db.stocks[key].alertedAt.None? ==> row.alertedAt == Some(now))
                  && m.stock == key && m.previous == db.stocks[key].quantity && m.next == row.quantity
                  && (m.kind == In <==> move.StockIn?) && (m.kind == Out <==> move.StockOut?)
                  && Consistent(m))
  {
  }

  /** A created row holds the size of the quantity given, reserves nothing, and, if nothing comes between, is flagged
      exactly if it is low. */
  lemma CreatedRow(db: Db, key: StockKey, quantity: int, reorderPoint: int, now: Time)
    ensures var r := Initialize(db, key, quantity, reorderPoint, now);
            && (r.Ok? <==>
                  key !in db.stocks && key.product in db.products && key.location in db.locations && quantity != 0)
            && (r.Ok? ==>
                  && key in r.value.stocks && r.value == db.(stocks := db.stocks[key := r.value.stocks[key]])
                  && var s := r.value.stocks[key];
                     && s.quantity > 0 && s.quantity in {quantity, -quantity}
                     && s.reorderPoint >= 0 && s.reorderPoint in {reorderPoint, -reorderPoint}
                     && s.reserved == 0 && s.FlagAgrees() && (s.IsLow() ==> s.alertedAt == Some(now)))
  {
  }

  // ---- sums over the reservation table

  function Weight(r: Reservation, status: ReservationStatus, key: StockKey): int {
    if r.status == status && r.stock == key then r.quantity else 0
  }

  /** The quantity that reservations of one status hold on one row. */
  ghost function Held(rs: map<ItemId, Reservation>, status: ReservationStatus, key: StockKey): int
    decreases |rs|
  {
    if |rs| == 0 then 0
    else Weight(rs[Pick(rs)], status, key) + Held(rs - {Pick(rs)}, status, key)
  }

  ghost function Pick(rs: map<ItemId, Reservation>): (id: ItemId)
    requires |rs| != 0
    ensures id in rs
  {
    var id :| id in rs; id
  }

  lemma {:induction false} HeldPick(rs: map<ItemId, Reservation>, id: ItemId, status: ReservationStatus, key: StockKey)
    requires id in rs
    ensures Held(rs, status, key) == Weight(rs[id], status, key) + Held(rs - {id}, status, key)
    decreases |rs|
  {
    var first := Pick(rs);
    if first != id {
      HeldPick(rs - {first}, id, status, key);
      HeldPick(rs - {id}, first, status, key);
      assert rs - {first} - {id} == rs - {id} - {first};
    }
  }

  /** Writing one reservation changes the sums by the difference of its weights. */
  lemma HeldWrite(rs: map<ItemId, Reservation>, id: ItemId, r: Reservation, status: ReservationStatus, key: StockKey)
    ensures Held(rs[id := r], status, key)
         == Held(rs, status, key) - (if id in rs then Weight(rs[id], status, key) else 0) + Weight(r, status, key)
  {
    HeldPick(rs[id := r], id, status, key);
    if id in rs {
      HeldPick(rs, id, status, key);
      assert rs[id := r] - {id} == rs - {id};
    } else {
      assert rs[id := r] - {id} == rs;
    }
  }

  // ---- what every call keeps

  /** Each row's reserved quantity is the sum of its open reservations, and every reservation is of a positive
      quantity on an existing row that is not low without its alert set. */
  ghost predicate StockInv(db: Db) {
    && (forall k :: k in db.stocks ==> RowInv(db, k))
    && (forall id :: id in db.reservations ==> ReservationInv(db, db.reservations[id]))
  }

  ghost predicate ReservationInv(db: Db, r: Reservation) {
    r.quantity > 0 && r.stock in db.stocks && !db.stocks[r.stock].Unseen()
  }

  ghost predicate RowInv(db: Db, k: StockKey)
    requires k in db.stocks
  {
    db.stocks[k].reserved == Held(db.reservations, Reserved, k)
  }

  lemma ReserveKeeps(db: Db, item: ItemId, key: StockKey, quantity: int, now: Time)
    requires StockInv(db) && Reserve(db, item, key, quantity, now).Ok?
    ensures StockInv(Reserve(db, item, key, quantity, now).value)
  {
    var d := Reserve(db, item, key, quantity, now).value;
    forall k | k in d.stocks ensures RowInv(d, k) {
      assert RowInv(db, k);
      HeldWrite(db.reservations, item, d.reservations[item], Reserved, k);
    }
  }

  lemma ReleaseKeeps(db: Db, item: ItemId, now: Time)
    requires StockInv(db) && Release(db, item, now).Ok?
    ensures StockInv(Release(db, item, now).value)
  {
    var d := Release(db, item, now).value;
    forall k | k in d.stocks ensures RowInv(d, k) {
      assert RowInv(db, k);
      HeldWrite(db.reservations, item, d.reservations[item], Reserved, k);
    }
  }

  lemma FulfillKeeps(db: Db, item: ItemId, now: Time, at: Time)
    requires StockInv(db) && Fulfill(db, item, now, at).Ok?
    ensures StockInv(Fulfill(db, item, now, at).value)
  {
    var d := Fulfill(db, item, now, at).value;
    forall k | k in d.stocks ensures RowInv(d, k) {
      assert RowInv(db, k);
      HeldWrite(db.reservations, item, d.reservations[item], Reserved, k);
    }
  }

  lemma {:induction false} HeldNonNegative(rs: map<ItemId, Reservation>, status: ReservationStatus, key: StockKey)
    requires forall id :: id in rs ==> rs[id].quantity > 0
    ensures Held(rs, status, key) >= 0
    decreases |rs|
  {
    if |rs| != 0 {
      var id :| id in rs;
      HeldPick(rs, id, status, key);
      HeldNonNegative(rs - {id}, status, key);
    }
  }

  lemma {:induction false} HeldNothing(rs: map<ItemId, Reservation>, status: ReservationStatus, key: StockKey)
    requires forall id :: id in rs ==> rs[id].stock != key
    ensures Held(rs, status, key) == 0
    decreases |rs|
  {
    if |rs| != 0 {
      var id :| id in rs;
      HeldPick(rs, id, status, key);
      HeldNothing(rs - {id}, status, key);
    }
  }
}

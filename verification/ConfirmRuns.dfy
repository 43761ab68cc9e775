/** Confirms of different orders running side by side, and beside the commits that write one stock row: each confirm
    locks one stock row per item as it reserves it and keeps its locks and its uncommitted rows until its single commit
    or rollback; a write of a locked row waits. */
module ConfirmRuns {
  import opened Prelude
  import opened Domain
  import opened Inventory
  import opened Orders
  import Operations

  type TxId = nat

  datatype Request = Request(order: OrderId, location: LocationId, clock: Clock)

  datatype Phase = Running | Done | Failed(error: Error) | Aborted

  /** A transaction with the rows it has written, the reservations it has inserted and the alerts it has noted, none of
      them committed or sent. */
  datatype Tx = Tx(request: Request, items: seq<Item>, next: nat, writes: map<StockKey, Stock>,
                   booked: map<ItemId, Reservation>, pending: set<StockKey>, phase: Phase)

  /** What is committed at once: a confirmed order, or one row of a manual move or of either commit of a creation. */
  datatype Entry =
    | Confirms(request: Request)
    | Moves(key: StockKey, move: Move, now: Time)
    | Creates(key: StockKey, quantity: int, reorderPoint: int)
    | Flags(key: StockKey, now: Time)

  /** `db` is what is committed; `log` lists it in commit order, and `alerts` are the ones sent after those commits. */
  datatype State = State(db: Db, locks: map<StockKey, TxId>, txs: map<TxId, Tx>, log: seq<Entry>,
                         alerts: multiset<StockKey>)

  datatype Step =
    | Begin(tx: TxId, request: Request)
    | ReserveNext(tx: TxId)
    | Commit(tx: TxId)
    | Write(entry: Entry)
    | Abort(tx: TxId)   // chosen by the database: a deadlock victim, a timeout

  /** What a transaction sees: the committed tables under its own writes. */
  ghost function View(db: Db, t: Tx): Db {
    db.(stocks := db.stocks + t.writes, reservations := db.reservations + t.booked)
  }

  ghost function Unlocked(locks: map<StockKey, TxId>, tx: TxId): map<StockKey, TxId> {
    map k | k in locks && locks[k] != tx :: locks[k]
  }

  ghost function Finish(s: State, tx: TxId, phase: Phase): State
    requires tx in s.txs
  {
    s.(locks := Unlocked(s.locks, tx), txs := s.txs[tx := s.txs[tx].(phase := phase)])
  }

  /** Whether a lock that the transaction asks for is held by another one. */
  ghost predicate Blocked(s: State, tx: TxId, key: StockKey) {
    key in s.db.stocks && key in s.locks && s.locks[key] != tx
  }

  ghost predicate Active(s: State, tx: TxId) { tx in s.txs && s.txs[tx].phase == Running }

  /** What an entry makes of the tables when it runs alone. */
  ghost function Perform(db: Db, e: Entry): Result<Db, Error> {
    match e
    case Confirms(r) => Confirm(db, r.order, r.location, r.clock)
    case Moves(key, move, now) =>
      var (row, _) :- MoveStock(db, key, move, now);
      Ok(db.(stocks := db.stocks[key := row]))
    case Creates(key, quantity, reorderPoint) => Create(db, key, quantity, reorderPoint)
    case Flags(key, now) => if key in db.stocks then Ok(Flag(db, key, now)) else Err(StockNotFound)
  }

  /** The outcome of the next item of an active transaction, read under its lock. */
  ghost function NextReserve(s: State, tx: TxId): Result<Db, Error>
    requires Active(s, tx) && s.txs[tx].next < |s.txs[tx].items|
  {
    var t := s.txs[tx];
    var it := t.items[t.next];
    Reserve(View(s.db, t), it.id, ItemKey(it, t.request.location), it.quantity, t.request.clock(t.next))
  }

  /** A transaction with one more row written, one more reservation booked and the alerts noted for it. */
  ghost function Advanced(t: Tx, key: StockKey, s: Stock, id: ItemId, r: Reservation, raised: set<StockKey>): Tx {
    t.(next := t.next + 1, writes := t.writes[key := s], booked := t.booked[id := r], pending := t.pending + raised)
  }

  /** The transaction after it has reserved its next item, which leaves it seeing `d`. */
  ghost function AdvancedTo(db: Db, t: Tx, d: Db): Tx
    requires t.next < |t.items|
    requires ItemKey(t.items[t.next], t.request.location) in d.stocks && t.items[t.next].id in d.reservations
  {
    var it := t.items[t.next];
    var key := ItemKey(it, t.request.location);
    Advanced(t, key, d.stocks[key], it.id, d.reservations[it.id], Raised(View(db, t).stocks, d.stocks))
  }

  /** The alerts sent once an entry is committed; a manual move sends its own after its second commit. */
  ghost function AlertsOf(db: Db, e: Entry): set<StockKey> {
    match e
    case Confirms(r) => ConfirmRaises(db, r.order, r.location, r.clock)
    case Flags(key, _) => {key}
    case _ => {}
  }

  /** One step of one transaction; a step that is not enabled changes nothing. */
  ghost function Apply(s: State, step: Step): State {
    match step
    case Begin(tx, request) =>
      if tx in s.txs || (exists u :: Active(s, u) && s.txs[u].request.order == request.order) then s
      else
        var r := Guard(s.db, request.order, Created);
        if r.Err? then s.(txs := s.txs[tx := Tx(request, [], 0, map[], map[], {}, Failed(r.error))])
        else s.(txs := s.txs[tx := Tx(request, r.value.items, 0, map[], map[], {}, Running)])
    case ReserveNext(tx) =>
      if !Active(s, tx) || s.txs[tx].next >= |s.txs[tx].items| then s
      else
        var t := s.txs[tx];
        var it := t.items[t.next];
        var key := ItemKey(it, t.request.location);
        if Blocked(s, tx, key) then s
        else
          var r := NextReserve(s, tx);
          if r.Err? then Finish(s, tx, Failed(r.error))
          else
            s.(locks := s.locks[key := tx],
               txs := s.txs[tx := AdvancedTo(s.db, t, r.value)])
    case Commit(tx) =>
      if !Active(s, tx) || s.txs[tx].next < |s.txs[tx].items| || s.txs[tx].request.order !in s.db.orders then s
      else
        var t := s.txs[tx];
        Finish(s, tx, Done).(db := SetStatus(View(s.db, t), t.request.order, Confirmed),
                             log := s.log + [Confirms(t.request)],
                             alerts := s.alerts + multiset(t.pending))
    case Write(e) =>
      if e.Confirms? || e.key in s.locks || Perform(s.db, e).Err? then s
      else s.(db := Perform(s.db, e).value, log := s.log + [e], alerts := s.alerts + multiset(AlertsOf(s.db, e)))
    case Abort(tx) => if !Active(s, tx) then s else Finish(s, tx, Aborted)
  }

  ghost function Run(start: State, steps: seq<Step>): State {
    if steps == [] then start else Apply(Run(start, steps[..|steps| - 1]), steps[|steps| - 1])
  }

  ghost function Start(db: Db): State { State(db, map[], map[], [], multiset{}) }

  /** The entries performed one after the other. */
  ghost function Serial(db: Db, log: seq<Entry>): Result<Db, Error> {
    if log == [] then Ok(db)
    else
      var d :- Serial(db, log[..|log| - 1]);
      Perform(d, log[|log| - 1])
  }

  /** The alerts of the entries performed one after the other. */
  ghost function SerialAlerts(db: Db, log: seq<Entry>): multiset<StockKey> {
    if log == [] then multiset{}
    else
      var init := log[..|log| - 1];
      SerialAlerts(db, init)
      + (if Serial(db, init).Ok? then multiset(AlertsOf(Serial(db, init).value, log[|log| - 1])) else multiset{})
  }

  ghost predicate AgreesWithLoop(db: Db, t: Tx) {
    && t.next <= |t.items|
    && ReserveFirst(db, t.items, t.request.location, t.request.clock, t.next) == Ok(View(db, t))
  }

  /** It has noted the alerts of its rounds so far. */
  ghost predicate Noted(db: Db, items: seq<Item>, request: Request, n: nat, pending: set<StockKey>) {
    n <= |items| && pending == ReserveRaises(db, items, request.location, request.clock, n)
  }

  /** It has booked its items so far and written existing rows, theirs among them. */
  ghost predicate WroteItsRows(db: Db, t: Tx) {
    && t.next <= |t.items|
    && t.booked == Bookings(t.items, t.next, t.request.location)
    && t.writes.Keys <= db.stocks.Keys
    && forall i :: 0 <= i < t.next ==> ItemKey(t.items[i], t.request.location) in t.writes
  }

  /** A running transaction has done exactly what its loop would have done alone, from what is committed now. */
  ghost predicate WorkInv(db: Db, t: Tx) {
    t.phase == Running ==>
      && t.request.order in db.orders
      && db.orders[t.request.order] == Order(Created, t.items)
      && AgreesWithLoop(db, t)
      && Noted(db, t.items, t.request, t.next, t.pending)
      && WroteItsRows(db, t)
  }

  /** It holds the lock of every row it has written. */
  ghost predicate HoldsLocks(locks: map<StockKey, TxId>, tx: TxId, t: Tx) {
    t.phase == Running ==> forall k :: k in t.writes ==> k in locks && locks[k] == tx
  }

  /** Every lock is held by a running transaction that has written the row. */
  ghost predicate LocksInv(s: State) {
    forall k :: k in s.locks ==> Active(s, s.locks[k]) && k in s.txs[s.locks[k]].writes
  }

  ghost predicate DistinctOrders(s: State) {
    forall tx, u :: Active(s, tx) && Active(s, u) && s.txs[tx].request.order == s.txs[u].request.order ==> tx == u
  }

  /** Rows written by running transactions are locked by them, and no two of them confirm the same order. */
  ghost predicate ControlInv(s: State) {
    && LocksInv(s) && DistinctOrders(s)
    && (forall tx :: tx in s.txs ==> HoldsLocks(s.locks, tx, s.txs[tx]))
  }

  ghost predicate AllWork(db: Db, txs: map<TxId, Tx>) {
    forall tx :: tx in txs ==> WorkInv(db, txs[tx])
  }

  ghost predicate SerialInv(s: State, start: Db) {
    Inv(s.db) && Serial(start, s.log) == Ok(s.db) && SerialAlerts(start, s.log) == s.alerts
  }

  ghost predicate SameStocks(before: map<StockKey, Stock>, before': map<StockKey, Stock>, after: map<StockKey, Stock>,
                             after': map<StockKey, Stock>, rows: set<StockKey>) {
    && after.Keys == before.Keys && after'.Keys == before'.Keys
    && forall k :: k in before' ==> after'[k] == if k in rows && k in after then after[k] else before'[k]
  }

  /** `e` and `e'` are what the same items reserve from two tables that agree on `rows`. */
  ghost predicate SameOnRows(db: Db, db': Db, e: Db, e': Db, booked: map<ItemId, Reservation>, rows: set<StockKey>) {
    && SameStocks(db.stocks, db'.stocks, e.stocks, e'.stocks, rows)
    && e' == db'.(stocks := e'.stocks, reservations := db'.reservations + booked)
  }

  /** The loop depends only on the rows it touches. */
  lemma {:induction false} ReserveFirstFrame(db: Db, db': Db, items: seq<Item>, location: LocationId, clock: Clock,
                                             n: nat, rows: set<StockKey>)
    requires n <= |items| && Bookable(db', items)
    requires ReserveFirst(db, items, location, clock, n).Ok?
    requires rows <= db.stocks.Keys <= db'.stocks.Keys
    requires forall k :: k in rows ==> db'.stocks[k] == db.stocks[k]
    requires forall i :: 0 <= i < n ==> ItemKey(items[i], location) in rows
    ensures ReserveFirst(db', items, location, clock, n).Ok?
    ensures SameOnRows(db, db', ReserveFirst(db, items, location, clock, n).value,
                       ReserveFirst(db', items, location, clock, n).value, Bookings(items, n, location), rows)
  {
    if n == 0 {
      assert db'.reservations + map[] == db'.reservations;
    } else {
      ReserveFirstFrame(db, db', items, location, clock, n - 1, rows);
      BookingsOfItems(items, n - 1, location);
      ReserveFrame(db, db', ReserveFirst(db, items, location, clock, n - 1).value,
                   ReserveFirst(db', items, location, clock, n - 1).value,
                   Bookings(items, n - 1, location), rows, items[n - 1], ItemKey(items[n - 1], location), clock(n - 1));
    }
  }

  lemma SameWrite(before: map<StockKey, Stock>, before': map<StockKey, Stock>, after: map<StockKey, Stock>,
                  after': map<StockKey, Stock>, rows: set<StockKey>, key: StockKey, row: Stock)
    requires SameStocks(before, before', after, after', rows) && key in rows && rows <= before.Keys <= before'.Keys
    ensures SameStocks(before, before', after[key := row], after'[key := row], rows)
  {
  }

  /** A table with one row written and one reservation inserted. */
  ghost function Written(e: Db, key: StockKey, row: Stock, id: ItemId, r: Reservation): Db {
    e.(stocks := e.stocks[key := row], reservations := e.reservations[id := r])
  }

  lemma WrittenAlike(db: Db, db': Db, e: Db, e': Db, booked: map<ItemId, Reservation>, rows: set<StockKey>,
                     key: StockKey, row: Stock, id: ItemId, r: Reservation)
    requires SameOnRows(db, db', e, e', booked, rows) && key in rows && rows <= db.stocks.Keys <= db'.stocks.Keys
    ensures SameOnRows(db, db', Written(e, key, row, id, r), Written(e', key, row, id, r), booked[id := r], rows)
  {
    SameWrite(db.stocks, db'.stocks, e.stocks, e'.stocks, rows, key, row);
    assert db'.reservations + booked[id := r] == (db'.reservations + booked)[id := r];
  }

  ghost function ReservedRow(s: Stock, quantity: int, now: Time): Stock {
    Sync(s.(reserved := s.reserved + quantity), now)
  }

  lemma ReserveIsWritten(e: Db, it: Item, key: StockKey, now: Time)
    requires Reserve(e, it.id, key, it.quantity, now).Ok?
    ensures key in e.stocks
    ensures Reserve(e, it.id, key, it.quantity, now).value
         == Written(e, key, ReservedRow(e.stocks[key], it.quantity, now), it.id,
                    Reservation(key, it.quantity, Reserved))
  {
  }

  lemma ReserveAlike(e: Db, e': Db, it: Item, key: StockKey, now: Time)
    requires Reserve(e, it.id, key, it.quantity, now).Ok? && it.id !in e'.reservations
    requires key in e.stocks && key in e'.stocks && e'.stocks[key] == e.stocks[key]
    ensures Reserve(e', it.id, key, it.quantity, now).Ok?
  {
  }

  lemma ReserveFrame(db: Db, db': Db, e: Db, e': Db, booked: map<ItemId, Reservation>, rows: set<StockKey>,
                     it: Item, key: StockKey, now: Time)
    requires SameOnRows(db, db', e, e', booked, rows) && key in rows && rows <= db.stocks.Keys <= db'.stocks.Keys
    requires it.id !in e'.reservations && Reserve(e, it.id, key, it.quantity, now).Ok?
    ensures Reserve(e', it.id, key, it.quantity, now).Ok?
    ensures SameOnRows(db, db', Reserve(e, it.id, key, it.quantity, now).value,
                       Reserve(e', it.id, key, it.quantity, now).value,
                       booked[it.id := Reservation(key, it.quantity, Reserved)], rows)
  {
    assert e'.stocks[key] == e.stocks[key];
    ReserveAlike(e, e', it, key, now);
    ReserveIsWritten(e, it, key, now);
    ReserveIsWritten(e', it, key, now);
    WrittenAlike(db, db', e, e', booked, rows, key, ReservedRow(e.stocks[key], it.quantity, now), it.id,
                 Reservation(key, it.quantity, Reserved));
  }

  lemma RaisedFrame(db: Db, db': Db, e: Db, e': Db, booked: map<ItemId, Reservation>, rows: set<StockKey>,
                    it: Item, key: StockKey, now: Time)
    requires SameOnRows(db, db', e, e', booked, rows) && key in rows && rows <= db.stocks.Keys <= db'.stocks.Keys
    requires Reserve(e, it.id, key, it.quantity, now).Ok? && Reserve(e', it.id, key, it.quantity, now).Ok?
    ensures RaisedBetween(Ok(e), Reserve(e, it.id, key, it.quantity, now))
         == RaisedBetween(Ok(e'), Reserve(e', it.id, key, it.quantity, now))
  {
    assert e'.stocks[key] == e.stocks[key];
    RaisedByReserve(e, it, key, now);
    RaisedByReserve(e', it, key, now);
  }

  lemma RaisedByReserve(e: Db, it: Item, key: StockKey, now: Time)
    requires Reserve(e, it.id, key, it.quantity, now).Ok?
    ensures var s := Sync(e.stocks[key].(reserved := e.stocks[key].reserved + it.quantity), now);
            RaisedBetween(Ok(e), Reserve(e, it.id, key, it.quantity, now))
            == if s.alertedAt.Some? && e.stocks[key].alertedAt.None? then {key} else {}
  {
  }

  /** ... and so do the alerts it notes. */
  lemma {:induction false} RaisesFrame(db: Db, db': Db, items: seq<Item>, location: LocationId, clock: Clock, n: nat,
                                       rows: set<StockKey>)
    requires n <= |items| && Bookable(db', items)
    requires ReserveFirst(db, items, location, clock, n).Ok?
    requires rows <= db.stocks.Keys <= db'.stocks.Keys
    requires forall k :: k in rows ==> db'.stocks[k] == db.stocks[k]
    requires forall i :: 0 <= i < n ==> ItemKey(items[i], location) in rows
    ensures ReserveRaises(db', items, location, clock, n) == ReserveRaises(db, items, location, clock, n)
  {
    if n != 0 {
      RaisesFrame(db, db', items, location, clock, n - 1, rows);
      ReserveFirstFrame(db, db', items, location, clock, n - 1, rows);
      ReserveFirstFrame(db, db', items, location, clock, n, rows);
      RaisedFrame(db, db', ReserveFirst(db, items, location, clock, n - 1).value,
                  ReserveFirst(db', items, location, clock, n - 1).value, Bookings(items, n - 1, location), rows,
                  items[n - 1], ItemKey(items[n - 1], location), clock(n - 1));
    }
  }

  /** A step at which a transaction fails. */
  ghost predicate FailsAt(s: State, step: Step, tx: TxId) {
    var s' := Apply(s, step);
    && tx in s'.txs && s'.txs[tx].phase.Failed?
    && (tx in s.txs ==> s.txs[tx].phase == Running)
  }

  /** Run alone on what is committed before the step, the transaction's confirm fails with the same error. */
  ghost predicate FailsAlone(s: State, step: Step, tx: TxId) {
    var s' := Apply(s, step);
    && tx in s'.txs && s'.txs[tx].phase.Failed?
    && var r := s'.txs[tx].request;
       Confirm(s.db, r.order, r.location, r.clock) == Err(s'.txs[tx].phase.error)
  }

  lemma LoopFailure(db: Db, t: Tx, d: Db, error: Error)
    requires t.next < |t.items| && ReserveFirst(db, t.items, t.request.location, t.request.clock, t.next) == Ok(d)
    requires var it := t.items[t.next];
             Reserve(d, it.id, ItemKey(it, t.request.location), it.quantity, t.request.clock(t.next)) == Err(error)
    ensures ReserveFirst(db, t.items, t.request.location, t.request.clock, |t.items|) == Err(error)
  {
    FailurePersists(db, t.items, t.request.location, t.request.clock, t.next + 1, |t.items|);
  }

  /** A transaction that fails would fail the same way if it ran alone on what is committed when it fails. */
  lemma FailureIsSerial(s: State, step: Step, tx: TxId)
    requires AllWork(s.db, s.txs) && FailsAt(s, step, tx)
    ensures FailsAlone(s, step, tx)
  {
    match step
    case ReserveNext(u) =>
      assert WorkInv(s.db, s.txs[tx]);
      LoopFailure(s.db, s.txs[tx], View(s.db, s.txs[tx]), NextReserve(s, tx).error);
    case Begin(u, request) =>
      assert Guard(s.db, request.order, Created).Err?;
    case Commit(u) =>
    case Write(e) =>
    case Abort(u) =>
  }

  // ---- steps before a commit leave the committed tables alone

  lemma BeginKeepsControl(s: State, tx: TxId, request: Request)
    requires ControlInv(s)
    ensures ControlInv(Apply(s, Begin(tx, request)))
  {
    var s' := Apply(s, Begin(tx, request));
    if s' != s {
      assert forall u :: Active(s, u) ==> s.txs[u].request.order != request.order;
      AddKeepsControl(s, tx, s'.txs[tx]);
    }
  }

  lemma AddKeepsControl(s: State, tx: TxId, t: Tx)
    requires ControlInv(s) && tx !in s.txs && t.writes == map[]
    requires forall u :: Active(s, u) ==> s.txs[u].request.order != t.request.order
    ensures ControlInv(s.(txs := s.txs[tx := t]))
  {
  }

  lemma FinishKeepsControl(s: State, tx: TxId, phase: Phase)
    requires ControlInv(s) && tx in s.txs && phase != Running
    ensures ControlInv(Finish(s, tx, phase))
  {
  }

  lemma LockKeepsControl(s: State, tx: TxId, t: Tx, key: StockKey)
    requires ControlInv(s) && Active(s, tx) && (key in s.locks ==> s.locks[key] == tx)
    requires t.phase == Running && t.request == s.txs[tx].request && t.writes.Keys == s.txs[tx].writes.Keys + {key}
    ensures ControlInv(s.(locks := s.locks[key := tx], txs := s.txs[tx := t]))
  {
    assert HoldsLocks(s.locks, tx, s.txs[tx]);
  }

  lemma ReserveNextKeepsControl(s: State, tx: TxId)
    requires ControlInv(s)
    ensures ControlInv(Apply(s, ReserveNext(tx)))
  {
    var s' := Apply(s, ReserveNext(tx));
    if s' != s {
      var r := NextReserve(s, tx);
      if r.Err? {
        FinishKeepsControl(s, tx, Failed(r.error));
      } else {
        var it := s.txs[tx].items[s.txs[tx].next];
        LockKeepsControl(s, tx, s'.txs[tx], ItemKey(it, s.txs[tx].request.location));
      }
    }
  }

  lemma BeginWorks(db: Db, tx: TxId, request: Request)
    requires Guard(db, request.order, Created).Ok?
    ensures WorkInv(db, Tx(request, db.orders[request.order].items, 0, map[], map[], {}, Running))
  {
    assert db.stocks + map[] == db.stocks && db.reservations + map[] == db.reservations;
  }

  lemma AdvancedView(db: Db, t: Tx, key: StockKey, s: Stock, id: ItemId, r: Reservation, raised: set<StockKey>)
    ensures var d := View(db, t);
            View(db, Advanced(t, key, s, id, r, raised))
            == d.(stocks := d.stocks[key := s], reservations := d.reservations[id := r])
  {
    var t' := Advanced(t, key, s, id, r, raised);
    assert db.stocks + t'.writes == (db.stocks + t.writes)[key := s];
    assert db.reservations + t'.booked == (db.reservations + t.booked)[id := r];
  }

  lemma ReserveWrites(db: Db, d: Db, it: Item, key: StockKey, now: Time)
    requires Reserve(db, it.id, key, it.quantity, now) == Ok(d)
    ensures key in db.stocks && key in d.stocks
    ensures it.id in d.reservations && d.reservations[it.id] == Reservation(key, it.quantity, Reserved)
    ensures d == db.(stocks := db.stocks[key := d.stocks[key]],
                     reservations := db.reservations[it.id := d.reservations[it.id]])
  {
  }

  ghost predicate NextReserves(db: Db, t: Tx, d: Db)
    requires t.next < |t.items|
  {
    var it := t.items[t.next];
    Reserve(View(db, t), it.id, ItemKey(it, t.request.location), it.quantity, t.request.clock(t.next)) == Ok(d)
  }

  lemma AdvancedAgrees(db: Db, t: Tx, d: Db)
    requires t.next < |t.items| && AgreesWithLoop(db, t) && NextReserves(db, t, d)
    ensures var it := t.items[t.next];
            var key := ItemKey(it, t.request.location);
            && key in db.stocks + t.writes && key in d.stocks
            && it.id in d.reservations && d.reservations[it.id] == Reservation(key, it.quantity, Reserved)
            && AgreesWithLoop(db, AdvancedTo(db, t, d))
  {
    var it := t.items[t.next];
    var key := ItemKey(it, t.request.location);
    ReserveWrites(View(db, t), d, it, key, t.request.clock(t.next));
    AdvancedView(db, t, key, d.stocks[key], it.id, d.reservations[it.id], Raised(View(db, t).stocks, d.stocks));
  }

  lemma NextNoted(db: Db, items: seq<Item>, request: Request, n: nat, e: Db, d: Db, pending: set<StockKey>)
    requires n < |items| && ReserveFirst(db, items, request.location, request.clock, n) == Ok(e)
    requires Reserve(e, items[n].id, ItemKey(items[n], request.location), items[n].quantity, request.clock(n)) == Ok(d)
    requires Noted(db, items, request, n, pending)
    ensures Noted(db, items, request, n + 1, pending + Raised(e.stocks, d.stocks))
  {
  }

  lemma AdvancedRows(db: Db, t: Tx, d: Db)
    requires t.next < |t.items| && WroteItsRows(db, t)
    requires var key := ItemKey(t.items[t.next], t.request.location);
             && key in db.stocks + t.writes && key in d.stocks && t.items[t.next].id in d.reservations
             && d.reservations[t.items[t.next].id] == Reservation(key, t.items[t.next].quantity, Reserved)
    ensures WroteItsRows(db, AdvancedTo(db, t, d))
  {
  }

  /** The transaction that reserves its next item still agrees with its loop. */
  lemma AdvanceWorks(db: Db, t: Tx, d: Db)
    requires t.phase == Running && WorkInv(db, t) && t.next < |t.items| && NextReserves(db, t, d)
    ensures var it := t.items[t.next];
            ItemKey(it, t.request.location) in d.stocks && it.id in d.reservations && WorkInv(db, AdvancedTo(db, t, d))
  {
    AdvancedAgrees(db, t, d);
    NextNoted(db, t.items, t.request, t.next, View(db, t), d, t.pending);
    AdvancedRows(db, t, d);
  }

  lemma QuietStepKeepsWork(s: State, step: Step)
    requires AllWork(s.db, s.txs) && !step.Commit? && !step.Write?
    ensures Apply(s, step).db == s.db && Apply(s, step).log == s.log && AllWork(s.db, Apply(s, step).txs)
  {
    match step
    case Begin(tx, request) =>
      if Guard(s.db, request.order, Created).Ok? {
        BeginWorks(s.db, tx, request);
      }
    case ReserveNext(tx) => ReserveNextKeepsWork(s, tx);
    case Abort(tx) =>
  }

  lemma ReserveNextKeepsWork(s: State, tx: TxId)
    requires AllWork(s.db, s.txs)
    ensures var s' := Apply(s, ReserveNext(tx));
            s'.db == s.db && s'.log == s.log && AllWork(s.db, s'.txs)
  {
    var s' := Apply(s, ReserveNext(tx));
    if s' != s {
      if NextReserve(s, tx).Ok? {
        AdvanceWorks(s.db, s.txs[tx], NextReserve(s, tx).value);
      }
      assert WorkInv(s.db, s'.txs[tx]);
      assert s'.txs == s.txs[tx := s'.txs[tx]];
    }
  }

  // ---- a commit

  /** Another transaction's work stands after a commit that wrote none of its rows. */
  lemma WorkSurvivesCommit(db: Db, db': Db, u: Tx)
    requires WorkInv(db, u) && u.phase == Running
    requires u.request.order in db'.orders && db'.orders[u.request.order] == Order(Created, u.items)
             && Bookable(db', u.items)
    requires db.stocks.Keys <= db'.stocks.Keys && forall k :: k in u.writes ==> db'.stocks[k] == db.stocks[k]
    ensures WorkInv(db', u)
  {
    var r := u.request;
    ReserveFirstFrame(db, db', u.items, r.location, r.clock, u.next, u.writes.Keys);
    RaisesFrame(db, db', u.items, r.location, r.clock, u.next, u.writes.Keys);
    var e' := ReserveFirst(db', u.items, r.location, r.clock, u.next).value;
    assert e'.stocks == db'.stocks + u.writes;
    assert e' == View(db', u);
  }

  /** Two running transactions confirm different orders and have written different rows. */
  lemma OthersAreDisjoint(s: State, tx: TxId, u: TxId)
    requires ControlInv(s) && Active(s, tx) && Active(s, u) && u != tx
    ensures s.txs[tx].request.order != s.txs[u].request.order
    ensures s.txs[tx].writes.Keys !! s.txs[u].writes.Keys
  {
    assert HoldsLocks(s.locks, tx, s.txs[tx]) && HoldsLocks(s.locks, u, s.txs[u]);
  }

  lemma OthersSurviveCommit(s: State, tx: TxId, u: TxId, db': Db)
    requires Active(s, tx) && Active(s, u) && Inv(db')
    requires s.txs[tx].request.order != s.txs[u].request.order && s.txs[tx].writes.Keys !! s.txs[u].writes.Keys
    requires WorkInv(s.db, s.txs[tx]) && WorkInv(s.db, s.txs[u])
    requires db' == SetStatus(View(s.db, s.txs[tx]), s.txs[tx].request.order, Confirmed)
    ensures WorkInv(db', s.txs[u])
  {
    assert db'.orders[s.txs[u].request.order] == s.db.orders[s.txs[u].request.order];
    assert db'.stocks.Keys == s.db.stocks.Keys;
    CreatedIsBookable(db', s.txs[u].request.order);
    WorkSurvivesCommit(s.db, db', s.txs[u]);
  }

  lemma LoopIsConfirm(db: Db, t: Tx)
    requires WorkInv(db, t) && t.phase == Running && t.next == |t.items|
    ensures var r := t.request;
            && r.order in db.orders
            && Confirm(db, r.order, r.location, r.clock) == Ok(SetStatus(View(db, t), r.order, Confirmed))
            && ConfirmRaises(db, r.order, r.location, r.clock) == t.pending
  {
    assert ReserveFirst(db, t.items, t.request.location, t.request.clock, |t.items|) == Ok(View(db, t));
  }

  lemma CommitIsSerial(s: State, start: Db, tx: TxId)
    requires SerialInv(s, start) && Active(s, tx) && WorkInv(s.db, s.txs[tx]) && s.txs[tx].next == |s.txs[tx].items|
    ensures var s' := Apply(s, Commit(tx));
            && SerialInv(s', start)
            && s'.db == SetStatus(View(s.db, s.txs[tx]), s.txs[tx].request.order, Confirmed)
  {
    var r := s.txs[tx].request;
    LoopIsConfirm(s.db, s.txs[tx]);
    ConfirmKeeps(s.db, r.order, r.location, r.clock);
    assert Apply(s, Commit(tx)).log[..|s.log|] == s.log;
  }

  lemma CommitKeeps(s: State, start: Db, tx: TxId)
    requires SerialInv(s, start) && ControlInv(s) && AllWork(s.db, s.txs)
    ensures var s' := Apply(s, Commit(tx));
            SerialInv(s', start) && ControlInv(s') && AllWork(s'.db, s'.txs)
  {
    var s' := Apply(s, Commit(tx));
    if s' != s {
      CommitIsSerial(s, start, tx);
      FinishKeepsControl(s, tx, Done);
      assert ControlInv(s');
      forall u | u in s'.txs ensures WorkInv(s'.db, s'.txs[u]) {
        if u != tx && s.txs[u].phase == Running {
          OthersAreDisjoint(s, tx, u);
          OthersSurviveCommit(s, tx, u, s'.db);
        }
      }
    }
  }

  // ---- a write of one row

  lemma WriteKeepsRows(db: Db, e: Entry)
    requires Inv(db) && !e.Confirms? && Perform(db, e).Ok?
    ensures var d := Perform(db, e).value;
            Inv(d) && e.key in d.stocks && d == db.(stocks := db.stocks[e.key := d.stocks[e.key]])
  {
    if e.Moves? { MoveIsAccepted(db, e.key, e.move, e.now); }
    Operations.RowWriteKeeps(db, e.key, Perform(db, e).value.stocks[e.key]);
  }

  lemma WorkSurvivesWrite(db: Db, d: Db, key: StockKey, t: Tx)
    requires WorkInv(db, t) && Inv(d) && key !in t.writes && key in d.stocks
    requires d == db.(stocks := db.stocks[key := d.stocks[key]])
    ensures WorkInv(d, t)
  {
    if t.phase == Running {
      CreatedIsBookable(d, t.request.order);
      WorkSurvivesCommit(db, d, t);
    }
  }

  /** A row that nobody has locked can be written without any running confirm noticing. */
  lemma WriteKeeps(s: State, start: Db, e: Entry)
    requires SerialInv(s, start) && ControlInv(s) && AllWork(s.db, s.txs)
    ensures var s' := Apply(s, Write(e));
            SerialInv(s', start) && ControlInv(s') && AllWork(s'.db, s'.txs)
  {
    var s' := Apply(s, Write(e));
    if s' != s {
      WriteKeepsRows(s.db, e);
      assert s'.log[..|s'.log| - 1] == s.log;
      forall u | u in s'.txs ensures WorkInv(s'.db, s'.txs[u]) {
        assert HoldsLocks(s.locks, u, s.txs[u]);
        if s.txs[u].phase == Running { WorkSurvivesWrite(s.db, s'.db, e.key, s.txs[u]); }
      }
    }
  }

  lemma StepKeeps(s: State, start: Db, step: Step)
    requires SerialInv(s, start) && ControlInv(s) && AllWork(s.db, s.txs)
    ensures var s' := Apply(s, step);
            SerialInv(s', start) && ControlInv(s') && AllWork(s'.db, s'.txs)
  {
    match step
    case Begin(tx, request) => BeginKeepsControl(s, tx, request); QuietStepKeepsWork(s, step);
    case ReserveNext(tx) => ReserveNextKeepsControl(s, tx); QuietStepKeepsWork(s, step);
    case Abort(tx) =>
      if Active(s, tx) { FinishKeepsControl(s, tx, Aborted); }
      QuietStepKeepsWork(s, step);
    case Commit(tx) => CommitKeeps(s, start, tx);
    case Write(e) => WriteKeeps(s, start, e);
  }

  /** Every interleaving of confirms with each other and with writes of single rows leaves what performing the committed
      ones one by one, in commit order, leaves, and sends the same alerts. */
  lemma {:induction false} InterleavedConfirmsAreSerial(db: Db, steps: seq<Step>)
    requires Inv(db)
    ensures var s := Run(Start(db), steps);
            && Serial(db, s.log) == Ok(s.db) && SerialAlerts(db, s.log) == s.alerts
            && SerialInv(s, db) && ControlInv(s) && AllWork(s.db, s.txs)
  {
    if steps != [] {
      var n := |steps| - 1;
      InterleavedConfirmsAreSerial(db, steps[..n]);
      StepKeeps(Run(Start(db), steps[..n]), db, steps[n]);
    }
  }

  /** In every interleaving, a confirm that fails at some step would fail alike run alone on what is then committed. */
  lemma FailedConfirmsFailAlone(db: Db, steps: seq<Step>, step: Step, tx: TxId)
    requires Inv(db)
    ensures FailsAt(Run(Start(db), steps), step, tx) ==> FailsAlone(Run(Start(db), steps), step, tx)
  {
    InterleavedConfirmsAreSerial(db, steps);
    if FailsAt(Run(Start(db), steps), step, tx) {
      FailureIsSerial(Run(Start(db), steps), step, tx);
    }
  }

  // ---- a confirm that nobody disturbs

  lemma RunAppend(s: State, steps: seq<Step>, step: Step)
    ensures Run(s, steps + [step]) == Apply(Run(s, steps), step)
  {
    assert (steps + [step])[..|steps|] == steps;
  }

  /** A transaction begun and moved on by `n` items. */
  ghost function Alone(tx: TxId, request: Request, n: nat): seq<Step> {
    if n == 0 then [Begin(tx, request)] else Alone(tx, request, n - 1) + [ReserveNext(tx)]
  }

  /** The transaction runs, has reserved its first n items, and holds the only locks. */
  ghost predicate Solo(start: State, s: State, tx: TxId, request: Request, n: nat) {
    && s.db == start.db && s.alerts == start.alerts && s.log == start.log
    && Active(s, tx) && WorkInv(s.db, s.txs[tx]) && s.txs[tx].request == request && s.txs[tx].next == n
    && forall k :: k in s.locks ==> s.locks[k] == tx
  }

  ghost predicate Startable(s: State, tx: TxId, request: Request) {
    && s.locks == map[] && tx !in s.txs && (forall u :: Active(s, u) ==> s.txs[u].request.order != request.order)
    && Inv(s.db) && request.order in s.db.orders && s.db.orders[request.order].status == Created
  }

  lemma SoloBegins(s: State, tx: TxId, request: Request)
    requires Startable(s, tx, request)
    ensures Solo(s, Run(s, Alone(tx, request, 0)), tx, request, 0)
  {
    RunAppend(s, [], Begin(tx, request));
    assert [] + [Begin(tx, request)] == [Begin(tx, request)];
    BeginWorks(s.db, tx, request);
  }

  lemma SoloReserves(start: State, s: State, tx: TxId, request: Request, n: nat)
    requires Solo(start, s, tx, request, n) && n < |s.txs[tx].items| && NextReserve(s, tx).Ok?
    ensures Solo(start, Apply(s, ReserveNext(tx)), tx, request, n + 1)
  {
    AdvanceWorks(s.db, s.txs[tx], NextReserve(s, tx).value);
  }

  lemma {:induction false} SoloRuns(s: State, tx: TxId, request: Request, n: nat)
    requires Startable(s, tx, request) && n <= |s.db.orders[request.order].items|
    requires ReserveFirst(s.db, s.db.orders[request.order].items, request.location, request.clock, n).Ok?
    ensures Solo(s, Run(s, Alone(tx, request, n)), tx, request, n)
  {
    if n == 0 {
      SoloBegins(s, tx, request);
    } else {
      SoloRuns(s, tx, request, n - 1);
      var t := Run(s, Alone(tx, request, n - 1));
      RunAppend(s, Alone(tx, request, n - 1), ReserveNext(tx));
      SoloReserves(s, t, tx, request, n - 1);
    }
  }

  /** A confirm that finds no lock goes through all its items and commits, with its alerts, what `Confirm` says. */
  lemma AloneIsConfirm(s: State, tx: TxId, request: Request)
    requires Startable(s, tx, request)
    requires Confirm(s.db, request.order, request.location, request.clock).Ok?
    ensures var s' := Run(s, Alone(tx, request, |s.db.orders[request.order].items|) + [Commit(tx)]);
            && Ok(s'.db) == Confirm(s.db, request.order, request.location, request.clock)
            && s'.alerts == s.alerts + multiset(ConfirmRaises(s.db, request.order, request.location, request.clock))
            && s'.log == s.log + [Confirms(request)] && s'.locks == map[]
  {
    var n := |s.db.orders[request.order].items|;
    SoloRuns(s, tx, request, n);
    var t := Run(s, Alone(tx, request, n));
    RunAppend(s, Alone(tx, request, n), Commit(tx));
    LoopIsConfirm(s.db, t.txs[tx]);
  }

  /** The transaction has failed and left no trace. */
  ghost predicate SoloFailed(start: State, s: State, tx: TxId, error: Error) {
    && s.db == start.db && s.alerts == start.alerts && s.log == start.log && s.locks == map[]
    && tx in s.txs && s.txs[tx].phase == Failed(error)
  }

  lemma SoloFails(start: State, s: State, tx: TxId, request: Request, n: nat, error: Error)
    requires Solo(start, s, tx, request, n) && n < |s.txs[tx].items|
    requires ReserveFirst(s.db, s.txs[tx].items, request.location, request.clock, n + 1) == Err(error)
    ensures SoloFailed(start, Apply(s, ReserveNext(tx)), tx, error)
  {
  }

  lemma ConfirmStops(db: Db, request: Request, n: nat, error: Error)
    requires request.order in db.orders && db.orders[request.order].status == Created
    requires n < |db.orders[request.order].items|
    requires ReserveFirst(db, db.orders[request.order].items, request.location, request.clock, n + 1) == Err(error)
    ensures Confirm(db, request.order, request.location, request.clock) == Err(error)
  {
    var items := db.orders[request.order].items;
    FailurePersists(db, items, request.location, request.clock, n + 1, |items|);
  }

  /** One that the stock does not cover fails at the item that `Confirm` stops at, with its error, and leaves the tables
      alone. */
  lemma AloneFails(s: State, tx: TxId, request: Request, n: nat, error: Error)
    requires Startable(s, tx, request) && n < |s.db.orders[request.order].items|
    requires ReserveFirst(s.db, s.db.orders[request.order].items, request.location, request.clock, n).Ok?
    requires ReserveFirst(s.db, s.db.orders[request.order].items, request.location, request.clock, n + 1) == Err(error)
    ensures SoloFailed(s, Run(s, Alone(tx, request, n + 1)), tx, error)
    ensures Confirm(s.db, request.order, request.location, request.clock) == Err(error)
  {
    SoloRuns(s, tx, request, n);
    RunAppend(s, Alone(tx, request, n), ReserveNext(tx));
    SoloFails(s, Run(s, Alone(tx, request, n)), tx, request, n, error);
    ConfirmStops(s.db, request, n, error);
  }

  /** A write that finds its row unlocked is performed. */
  lemma UnlockedWriteIsPerformed(s: State, e: Entry)
    requires !e.Confirms? && e.key !in s.locks && Perform(s.db, e).Ok?
    ensures Ok(Apply(s, Write(e)).db) == Perform(s.db, e) && Apply(s, Write(e)).log == s.log + [e]
  {
  }

  /** The step of a run of the whole system that an entry is. */
  function StepOf(e: Entry): Operations.Step {
    match e
    case Confirms(r) => Operations.ConfirmOrder(r.order, r.location, r.clock)
    case Moves(key, move, now) => Operations.OpenMove(key, move, now)
    case Creates(key, quantity, reorderPoint) => Operations.OpenCreate(key, quantity, reorderPoint)
    case Flags(key, _) => Operations.CloseCreate(key)
  }

  /** An entry performed alone is one step of a run of the whole system, with the alerts it sends, so that there
      confirms may be single steps. */
  lemma EntryIsAStep(s: Operations.State, e: Entry)
    requires Perform(s.db, e).Ok?
    requires e.Flags? ==> e.key in s.creating && s.creating[e.key] == Some(e.now)
    ensures Operations.Apply(s, StepOf(e)).db == Perform(s.db, e).value
    ensures Operations.Apply(s, StepOf(e)).alerts == s.alerts + multiset(AlertsOf(s.db, e))
  {
  }
}

/** Low-stock alerts from the commit that makes a row low to the email, through a queue that drops duplicates. */
module StockAlerts {
  import opened Prelude
  import opened Domain
  import opened Inventory
  import opened Orders
  import opened Operations
  import opened Alerts

  type Address = string

  datatype Email = Email(to: Address, stock: StockKey, available: int, reorderPoint: int)

  /** The emails an alert job defers after reading the row: none if it is gone or its alert is not set. */
  function JobEmails(key: StockKey, row: Option<Stock>, recipients: seq<Address>): (emails: seq<Email>)
    ensures emails != [] <==> recipients != [] && row.Some? && row.value.alertedAt.Some?
    ensures emails != [] ==> forall a :: a in recipients <==> exists e :: e in emails && e.to == a
    ensures emails != [] ==> (Alarming(emails) <==> row.value.IsLow())
  {
    if row.None? || row.value.alertedAt.None? then []
    else
      var available, reorderPoint := row.value.Available(), row.value.reorderPoint;
      var emails := seq(|recipients|, i requires 0 <= i < |recipients| =>
        Email(recipients[i], key, available, reorderPoint));
      assert forall i :: 0 <= i < |recipients| ==> emails[i] in emails && emails[i].to == recipients[i];
      assert forall e :: e in emails ==> e.available == available && e.reorderPoint == reorderPoint;
      assert emails != [] ==> emails[0] in emails;
      emails
  }

  /** The email tells one recipient of one row: what it has available and its reorder point. */
  ghost predicate Reports(e: Email, to: Address, key: StockKey, row: Stock) {
    && e.to == to && e.stock.product == key.product && e.stock.location == key.location
    && e.available == row.quantity - row.reserved && e.reorderPoint == row.reorderPoint
  }

  /** Every email reports available units at or below a reorder point. */
  ghost predicate Alarming(emails: seq<Email>) {
    forall e :: e in emails ==> 0 < e.reorderPoint && e.available <= e.reorderPoint
  }

  /** The job queue: at most one waiting alert job per stock row, because of its queueing lock. */
  class JobQueue {
    var waiting: set<StockKey>
    var emails: seq<Email>

    constructor ()
      ensures waiting == {} && emails == []
    {
      waiting, emails := {}, [];
    }

    method DeferLowStockAlert(key: StockKey) returns (enqueued: bool)
      modifies this`waiting
      ensures enqueued == (key !in old(waiting))
      ensures waiting == old(waiting) + {key}
    {
      enqueued := key !in waiting;
      if enqueued {
        waiting := waiting + {key};
      }
    }

    method LowStockAlertJob(key: StockKey, row: Option<Stock>, recipients: seq<Address>)
      modifies this`emails
      ensures emails == old(emails) + JobEmails(key, row, recipients)
      ensures row.None? || row.value.alertedAt.None? ==> emails == old(emails)
      ensures row.Some? && row.value.alertedAt.Some? ==>
                && |emails| == |old(emails)| + |recipients| && old(emails) <= emails
                && forall i :: 0 <= i < |recipients| ==>
                     Reports(emails[|old(emails)| + i], recipients[i], key, row.value)
    {
      if row.None? || row.value.alertedAt.None? {
        return;
      }
      for i := 0 to |recipients|
        invariant emails == old(emails) + JobEmails(key, row, recipients)[..i]
      {
        assert JobEmails(key, row, recipients)[i]
            == Email(recipients[i], key, row.value.Available(), row.value.reorderPoint);
        emails := emails + [Email(recipients[i], key, row.value.Available(), row.value.reorderPoint)];
      }
    }
  }

  // ---- the protocol

  /** `delivered` counts the notifier calls made; `waiting` and `running` are the alert jobs; `read` is history:
      the rows that some job has read as low since they last became low. */
  datatype State = State(
    sys: Operations.State,
    delivered: multiset<StockKey>,
    waiting: set<StockKey>,
    running: multiset<StockKey>,
    read: set<StockKey>,
    emails: seq<Email>)

  datatype Step =
    | Serve(step: Operations.Step)
    | Notify(key: StockKey)
    | StartJob(key: StockKey)
    | ReadRow(key: StockKey, recipients: seq<Address>)

  ghost predicate Flagged(db: Db, k: StockKey) { k in db.stocks && db.stocks[k].alertedAt.Some? }

  ghost function Row(db: Db, k: StockKey): Option<Stock> { if k in db.stocks then Some(db.stocks[k]) else None }

  ghost function Apply(p: State, step: Step): State {
    match step
    case Serve(step) =>
      var sys := Operations.Apply(p.sys, step);
      p.(sys := sys, read := set k | k in p.read && LowAt(p.sys.db, k) && LowAt(sys.db, k))
    case Notify(k) =>
      if p.delivered[k] >= p.sys.alerts[k] then p
      else p.(delivered := p.delivered + multiset{k}, waiting := p.waiting + {k})
    case StartJob(k) =>
      if k !in p.waiting then p else p.(waiting := p.waiting - {k}, running := p.running + multiset{k})
    case ReadRow(k, recipients) =>
      if k !in p.running then p
      else
        p.(running := p.running - multiset{k},
           read := if Flagged(p.sys.db, k) then p.read + {k} else p.read,
           emails := p.emails + JobEmails(k, Row(p.sys.db, k), recipients))
  }

  ghost function Run(start: State, steps: seq<Step>): State {
    if steps == [] then start else Apply(Run(start, steps[..|steps| - 1]), steps[|steps| - 1])
  }

  ghost function Idle(products: set<ProductId>, locations: set<LocationId>): State {
    State.State(Operations.Start(products, locations), multiset{}, {}, multiset{}, {}, [])
  }

  // ---- the service's part of a run

  ghost function Served(steps: seq<Step>): seq<Operations.Step> {
    if steps == [] then []
    else
      var last := steps[|steps| - 1];
      Served(steps[..|steps| - 1]) + (if last.Serve? then [last.step] else [])
  }

  lemma {:induction false} RunServes(products: set<ProductId>, locations: set<LocationId>, steps: seq<Step>)
    ensures Run(Idle(products, locations), steps).sys
            == Operations.Run(Operations.Start(products, locations), Served(steps))
  {
    if steps != [] {
      var n := |steps| - 1;
      RunServes(products, locations, steps[..n]);
      if steps[n].Serve? {
        RunAppend(Operations.Start(products, locations), Served(steps[..n]), steps[n].step);
      } else {
        assert Served(steps[..n]) + [] == Served(steps[..n]);
      }
    }
  }

  lemma ReachableService(products: set<ProductId>, locations: set<LocationId>, steps: seq<Step>)
    ensures var sys := Run(Idle(products, locations), steps).sys;
            Inv(sys.db) && FlagInv(sys)
  {
    RunServes(products, locations, steps);
    ReachableInv(products, locations, Served(steps));
    ReachableFlags(products, locations, Served(steps));
  }

  // ---- what is still to come

  ghost predicate Coming(p: State, k: StockKey) {
    AlertCount(p.sys, k) > p.delivered[k] || k in p.waiting || k in p.running
  }

  /** A low row not read as low since it became low still has a notification, a waiting job or a running job to come. */
  ghost predicate NotLost(p: State, k: StockKey) {
    && (LowAt(p.sys.db, k) && k !in p.read ==> Coming(p, k))
    && p.delivered[k] <= p.sys.alerts[k]
  }

  /** If the step is a request that makes the row low without an alert, because its creation has set the alert too late,
      some earlier alert of the row is still to be delivered or read. */
  ghost predicate Covers(p: State, step: Step, k: StockKey) {
    step.Serve? && Lost(p.sys, step.step, k) ==> Coming(p, k)
  }

  lemma {:induction false} RaisedNonNegative(calls: seq<Call>, k: StockKey)
    ensures SumBy(calls, RaisedOn(k)) >= 0
  {
    if calls != [] {
      RaisedNonNegative(calls[..|calls| - 1], k);
    }
  }

  lemma AlertsOnlyGrow(s: Operations.State, step: Operations.Step, k: StockKey)
    ensures Operations.Apply(s, step).alerts[k] >= s.alerts[k]
  {
  }

  /** While a row stays low its alerts are never forgotten, and one that becomes low is alerted or lost. */
  lemma LowKeepsItsAlerts(s: Operations.State, step: Operations.Step, k: StockKey)
    requires Inv(s.db) && FlagInv(s) && LowAt(Operations.Apply(s, step).db, k)
    ensures LowAt(s.db, k) ==> AlertCount(Operations.Apply(s, step), k) >= AlertCount(s, k)
    ensures !LowAt(s.db, k) ==> Lost(s, step, k) || AlertCount(Operations.Apply(s, step), k) > AlertCount(s, k)
  {
    StepDeviates(s, step, k);
    DisturbedIffDeviates(s, step, k);
    if LowAt(s.db, k) && Touches(step) && k in s.db.stocks {
      TouchRaises(s, step, k);
      TouchesKeepFlagInv(s, step);
      StepTouches(s, step, k);
    }
  }

  /** A drop that is not alerted leaves what is still to come as it is. */
  lemma LostLeavesComing(p: State, step: Operations.Step, k: StockKey)
    requires Inv(p.sys.db) && FlagInv(p.sys) && Lost(p.sys, step, k)
    ensures !LowAt(p.sys.db, k) && LowAt(Operations.Apply(p.sys, step).db, k)
    ensures Coming(Apply(p, Serve(step)), k) <==> Coming(p, k)
  {
    DisturbedIffDeviates(p.sys, step, k);
    TouchRaises(p.sys, step, k);
    TouchesKeepFlagInv(p.sys, step);
  }

  lemma ServeKeeps(p: State, step: Operations.Step, k: StockKey)
    requires Inv(p.sys.db) && FlagInv(p.sys) && NotLost(p, k)
    ensures NotLost(Apply(p, Serve(step)), k) <==> Covers(p, Serve(step), k)
  {
    var sys := Operations.Apply(p.sys, step);
    AlertsOnlyGrow(p.sys, step, k);
    RaisedNonNegative(p.sys.inflight, k);
    if LowAt(sys.db, k) {
      LowKeepsItsAlerts(p.sys, step, k);
    }
    if Lost(p.sys, step, k) {
      LostLeavesComing(p, step, k);
    }
  }

  lemma WorkerKeeps(p: State, step: Step, k: StockKey)
    requires FlagInv(p.sys) && NotLost(p, k) && !step.Serve?
    ensures NotLost(Apply(p, step), k)
  {
    RaisedNonNegative(p.sys.inflight, k);
  }

  ghost predicate NotLostThroughout(start: State, steps: seq<Step>, k: StockKey) {
    NotLost(Run(start, steps), k) && (steps != [] ==> NotLostThroughout(start, steps[..|steps| - 1], k))
  }

  ghost predicate CoveredThroughout(start: State, steps: seq<Step>, k: StockKey) {
    steps != [] ==>
      var init := steps[..|steps| - 1];
      CoveredThroughout(start, init, k) && Covers(Run(start, init), steps[|steps| - 1], k)
  }

  /** Along a run a row's low stock is never without a job to come, or read, exactly if no drop goes unalerted after a
      late alert of its creation with nothing else to come. */
  lemma {:induction false} NotLostIff(products: set<ProductId>, locations: set<LocationId>, steps: seq<Step>,
                                      k: StockKey)
    ensures var start := Idle(products, locations);
            NotLostThroughout(start, steps, k) <==> CoveredThroughout(start, steps, k)
  {
    var start := Idle(products, locations);
    if steps != [] {
      var n := |steps| - 1;
      NotLostIff(products, locations, steps[..n], k);
      if NotLostThroughout(start, steps[..n], k) {
        ReachableService(products, locations, steps[..n]);
        if steps[n].Serve? {
          ServeKeeps(Run(start, steps[..n]), steps[n].step, k);
        } else {
          WorkerKeeps(Run(start, steps[..n]), steps[n], k);
        }
      }
    }
  }

  /** Nothing is to be sent, delivered, started or read for the row. */
  ghost predicate Quiet(p: State, k: StockKey) {
    p.delivered[k] == AlertCount(p.sys, k) && k !in p.waiting && k !in p.running
  }

  /** A row whose creation committed its alert on time has no drop that is not alerted. */
  lemma {:induction false} OnTimeCovers(products: set<ProductId>, locations: set<LocationId>, steps: seq<Step>,
                                        k: StockKey)
    requires OnTimeThroughout(Operations.Start(products, locations), Served(steps), k)
    ensures CoveredThroughout(Idle(products, locations), steps, k)
    decreases |steps|
  {
    if steps != [] {
      var n := |steps| - 1;
      OnTimeBefore(products, locations, steps, k);
      OnTimeCovers(products, locations, steps[..n], k);
      OnTimeIsNotStale(products, locations, steps[..n], k);
    }
  }

  /** The service's part of a run before its last step is on time too. */
  lemma OnTimeBefore(products: set<ProductId>, locations: set<LocationId>, steps: seq<Step>, k: StockKey)
    requires steps != [] && OnTimeThroughout(Operations.Start(products, locations), Served(steps), k)
    ensures OnTimeThroughout(Operations.Start(products, locations), Served(steps[..|steps| - 1]), k)
  {
    var n := |steps| - 1;
    if steps[n].Serve? {
      assert Served(steps)[..|Served(steps)| - 1] == Served(steps[..n]);
    } else {
      assert Served(steps) == Served(steps[..n]);
    }
  }

  lemma OnTimeIsNotStale(products: set<ProductId>, locations: set<LocationId>, steps: seq<Step>, k: StockKey)
    requires OnTimeThroughout(Operations.Start(products, locations), Served(steps), k)
    ensures !StaleAt(Run(Idle(products, locations), steps).sys.db, k)
  {
    RunServes(products, locations, steps);
    FlagHoldsIff(products, locations, Served(steps), k);
    ReachableFlags(products, locations, Served(steps));
  }

  /** Once nothing is pending, waiting or running for a row, it has been read as low by some job since it last became
      low, if it is low: in every run in which its drops are covered, and so in every one in which its creation, if it
      alerts, does so while the row is low; and so in every one that leaves the row alone while it is being created. */
  lemma NoDropIsLost(products: set<ProductId>, locations: set<LocationId>, steps: seq<Step>, k: StockKey)
    requires var start := Operations.Start(products, locations);
             || CoveredThroughout(Idle(products, locations), steps, k)
             || OnTimeThroughout(start, Served(steps), k)
             || QuietCreation(start, Served(steps), k)
    ensures var p := Run(Idle(products, locations), steps);
            Quiet(p, k) && LowAt(p.sys.db, k) ==> k in p.read
  {
    var start := Operations.Start(products, locations);
    if QuietCreation(start, Served(steps), k) {
      AlertsAreTheRises(products, locations, Served(steps), k);
    }
    if OnTimeThroughout(start, Served(steps), k) {
      OnTimeCovers(products, locations, steps, k);
    }
    NotLostIff(products, locations, steps, k);
  }

  ghost function Serving(steps: seq<Operations.Step>): seq<Step> {
    if steps == [] then [] else Serving(steps[..|steps| - 1]) + [Serve(steps[|steps| - 1])]
  }

  lemma {:induction false} RunServing(p: State, steps: seq<Operations.Step>)
    requires p.read == {}
    ensures Run(p, Serving(steps)) == p.(sys := Operations.Run(p.sys, steps))
  {
    if steps != [] {
      var n := |steps| - 1;
      RunServing(p, steps[..n]);
      OneMore(p, Serving(steps[..n]), Serve(steps[n]));
    }
  }

  lemma OneMore(start: State, steps: seq<Step>, step: Step)
    ensures Run(start, steps + [step]) == Apply(Run(start, steps), step)
  {
    assert (steps + [step])[..|steps|] == steps;
  }

  /** An alert that was sent can be delivered, its job started and the row read: then the job has emailed what it read
      and, if the alert was set, the row counts as read. */
  lemma AlertIsDelivered(p: State, k: StockKey, recipients: seq<Address>)
    requires p.delivered[k] < p.sys.alerts[k]
    ensures var waiting := Apply(p, Notify(k));
            var q := Apply(Apply(waiting, StartJob(k)), ReadRow(k, recipients));
            && waiting.waiting == p.waiting + {k} && waiting.running == p.running && waiting.emails == p.emails
            && q.sys == p.sys && q.delivered == p.delivered + multiset{k}
            && q.waiting == p.waiting - {k} && q.running == p.running
            && q.emails == p.emails + JobEmails(k, Row(p.sys.db, k), recipients)
            && q.read == if Flagged(p.sys.db, k) then p.read + {k} else p.read
  {
    var started := Apply(Apply(p, Notify(k)), StartJob(k));
    assert started.running - multiset{k} == p.running;
    assert p.waiting + {k} - {k} == p.waiting - {k};
  }

  function Told(): seq<Step> { [Notify(NewKey())] + [StartJob(NewKey())] + [ReadRow(NewKey(), ["staff"])] }

  /** The worker's part for one alert of a row whose alert is set. */
  lemma WorkerTold(p: State, row: Stock)
    requires p.delivered == multiset{} && p.waiting == {} && p.running == multiset{} && p.read == {} && p.emails == []
    requires p.sys.alerts[NewKey()] == 1 && p.sys.db.stocks == map[NewKey() := row] && row.alertedAt.Some?
    ensures var q := Run(p, Told());
            && q.sys == p.sys && q.read == {NewKey()} && q.waiting == {} && q.running == multiset{}
            && q.delivered == multiset{NewKey()}
            && q.emails == [Email("staff", NewKey(), row.Available(), row.reorderPoint)]
  {
    ToldSteps(p);
    AlertIsDelivered(p, NewKey(), ["staff"]);
    OneEmail(row);
  }

  lemma ToldSteps(p: State)
    ensures Run(p, Told()) == Apply(Apply(Apply(p, Notify(NewKey())), StartJob(NewKey())), ReadRow(NewKey(), ["staff"]))
  {
    var k := NewKey();
    OneMore(p, [], Notify(k));
    OneMore(p, [Notify(k)], StartJob(k));
    OneMore(p, [Notify(k)] + [StartJob(k)], ReadRow(k, ["staff"]));
    assert [] + [Notify(k)] == [Notify(k)];
  }

  lemma OneEmail(row: Stock)
    requires row.alertedAt.Some?
    ensures JobEmails(NewKey(), Some(row), ["staff"])
         == [Email("staff", NewKey(), row.Available(), row.reorderPoint)]
  {
  }

  /** A drop that the service does not alert for leaves a row unread that was read before. */
  lemma UntoldDrop(p: State, step: Operations.Step, k: StockKey)
    requires !LowAt(p.sys.db, k)
    ensures k !in Apply(p, Serve(step)).read && Apply(p, Serve(step)).emails == p.emails
    ensures var q := Apply(p, Serve(step));
            q.delivered == p.delivered && q.waiting == p.waiting && q.running == p.running
  {
  }

  /** A late alert is delivered, its job emails about a row that is not low, and the next drop is never told. */
  lemma LateFlagLosesTheEmail()
    ensures var p := Run(Run(Idle({0}, {0}), Serving(FlaggedLate())),
                         Told() + [Serve(OpenMove(NewKey(), StockOut(20), 2))]);
            && Quiet(p, NewKey()) && LowAt(p.sys.db, NewKey()) && NewKey() !in p.read
            && p.emails == [Email("staff", NewKey(), 25, 10)]
  {
    var p := Run(Idle({0}, {0}), Serving(FlaggedLate()));
    RunServing(Idle({0}, {0}), FlaggedLate());
    var calls := LateFlagIsStale();
    LateFlagLosesADrop();
    WorkerTold(p, Stock(25, 0, 10, Some(0)));
    var drop := OpenMove(NewKey(), StockOut(20), 2);
    RunAppend(Operations.Start({0}, {0}), FlaggedLate(), drop);
    OneMore(p, Told(), Serve(drop));
    UntoldDrop(Run(p, Told()), drop, NewKey());
  }

  // ---- emails

  ghost predicate AlarmingThroughout(start: State, steps: seq<Step>) {
    Alarming(Run(start, steps).emails) && (steps != [] ==> AlarmingThroughout(start, steps[..|steps| - 1]))
  }

  /** A job with recipients runs for a row whose creation committed its alert late and that no request has written
      since. */
  ghost predicate ReadsLate(start: Operations.State, served: seq<Operations.Step>, p: State, step: Step) {
    step.ReadRow? && step.key in p.running && step.recipients != [] && LateSince(start, served, step.key)
  }

  ghost predicate NeverReadsLate(products: set<ProductId>, locations: set<LocationId>, steps: seq<Step>) {
    steps != [] ==>
      var init, last := steps[..|steps| - 1], steps[|steps| - 1];
      && NeverReadsLate(products, locations, init)
      && !ReadsLate(Operations.Start(products, locations), Served(init), Run(Idle(products, locations), init), last)
  }

  lemma StepEmails(p: State, step: Step)
    requires Alarming(p.emails)
    ensures Alarming(Apply(p, step).emails)
       <==> !(step.ReadRow? && step.key in p.running && step.recipients != [] && StaleAt(p.sys.db, step.key))
  {
    if step.ReadRow? && step.key in p.running {
      var more := JobEmails(step.key, Row(p.sys.db, step.key), step.recipients);
      assert forall e :: e in p.emails + more <==> e in p.emails || e in more;
    }
  }

  /** Along a run every email is about a low row exactly if no job with recipients runs for a row between a late second
      commit of its creation and the next request that writes it. */
  lemma {:induction false} EmailsAreAlarmingIff(products: set<ProductId>, locations: set<LocationId>, steps: seq<Step>)
    ensures AlarmingThroughout(Idle(products, locations), steps) <==> NeverReadsLate(products, locations, steps)
  {
    var start := Idle(products, locations);
    if steps != [] {
      var n := |steps| - 1;
      EmailsAreAlarmingIff(products, locations, steps[..n]);
      if AlarmingThroughout(start, steps[..n]) {
        StepEmails(Run(start, steps[..n]), steps[n]);
        if steps[n].ReadRow? {
          RunServes(products, locations, steps[..n]);
          StaleIffLate(products, locations, Served(steps[..n]), steps[n].key);
        }
      }
    }
  }

  /** The job finds the row's alert cleared or the row low. */
  ghost predicate ReadsInTime(p: State, step: Step) {
    step.ReadRow? && Flagged(p.sys.db, step.key) ==> LowAt(p.sys.db, step.key)
  }

  /** A job emails only about a low row if the row's creation committed its alert on time, and so if the row was left
      alone while it was created. */
  lemma OnTimeReads(products: set<ProductId>, locations: set<LocationId>, steps: seq<Step>, step: Step)
    requires step.ReadRow?
    requires var start := Operations.Start(products, locations);
             OnTimeThroughout(start, Served(steps), step.key) || QuietCreation(start, Served(steps), step.key)
    ensures ReadsInTime(Run(Idle(products, locations), steps), step)
  {
    if QuietCreation(Operations.Start(products, locations), Served(steps), step.key) {
      AlertsAreTheRises(products, locations, Served(steps), step.key);
    }
    OnTimeIsNotStale(products, locations, steps, step.key);
  }
}

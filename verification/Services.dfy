/** The inventory and order services over one database session. */
module Services {
  import opened Prelude
  import opened Domain
  import opened Inventory
  import opened Orders
  import Operations
  import Alerts
  import Guarantees
  import Replenishment

  // ---- restock suggestions of a database

  const SECONDS_A_DAY := 24 * 60 * 60

  datatype StockReplenishment = StockReplenishment(stock: StockKey, suggestion: Replenishment.Suggestion)

  predicate InScope(k: StockKey, location: Option<LocationId>) {
    location.None? || k.location == location.value
  }

  /** The suggestion for a row from its own numbers and what left it since a time. */
  ghost function SuggestionFor(db: Db, k: StockKey, p: Replenishment.Policy, since: Time): Replenishment.Suggestion
    requires k in db.stocks && p.Valid()
  {
    var s := db.stocks[k];
    Replenishment.Evaluate(Replenishment.Snapshot(s.quantity, s.reserved, s.reorderPoint),
                           Guarantees.Consumption(db.movements, k, since), p)
  }

  /** The rows in scope, restricted if asked to those that need a restock. */
  ghost predicate Listed(db: Db, k: StockKey, location: Option<LocationId>, p: Replenishment.Policy, since: Time,
                         onlyNeeded: bool)
    requires p.Valid()
  {
    k in db.stocks && InScope(k, location) && (onlyNeeded ==> SuggestionFor(db, k, p, since).needsRestock)
  }

  /** The suggestions for a list of rows, in its order. */
  ghost function SuggestionsFor(db: Db, keys: seq<StockKey>, p: Replenishment.Policy, since: Time,
                                onlyNeeded: bool): seq<StockReplenishment>
    requires p.Valid() && forall k :: k in keys ==> k in db.stocks
  {
    if keys == [] then []
    else
      var init, k := keys[..|keys| - 1], keys[|keys| - 1];
      var suggestion := SuggestionFor(db, k, p, since);
      SuggestionsFor(db, init, p, since, onlyNeeded)
      + (if onlyNeeded && !suggestion.needsRestock then [] else [StockReplenishment(k, suggestion)])
  }

  /** Exactly the listed rows, each once, with its own suggestion. */
  ghost predicate ListsExactly(db: Db, results: seq<StockReplenishment>, location: Option<LocationId>,
                               p: Replenishment.Policy, since: Time, onlyNeeded: bool)
    requires p.Valid()
  {
    && (forall k ::
          Listed(db, k, location, p, since, onlyNeeded) <==> exists i :: 0 <= i < |results| && results[i].stock == k)
    && (forall i, j :: 0 <= i < j < |results| ==> results[i].stock != results[j].stock)
    && (forall i :: 0 <= i < |results| ==>
          results[i].stock in db.stocks && results[i].suggestion == SuggestionFor(db, results[i].stock, p, since))
  }

  ghost predicate NeededOrAll(suggestion: Replenishment.Suggestion, onlyNeeded: bool) {
    onlyNeeded ==> suggestion.needsRestock
  }

  ghost predicate SuggestsRow(results: seq<StockReplenishment>, k: StockKey) {
    exists i :: 0 <= i < |results| && results[i].stock == k
  }

  /** The results are of the rows in the list, each once with its own suggestion, and of all those that qualify. */
  ghost predicate SuggestsOf(db: Db, keys: seq<StockKey>, results: seq<StockReplenishment>,
                             p: Replenishment.Policy, since: Time, onlyNeeded: bool)
    requires p.Valid() && forall k :: k in keys ==> k in db.stocks
  {
    && (forall i :: 0 <= i < |results| ==>
          && results[i].stock in keys
          && results[i].suggestion == SuggestionFor(db, results[i].stock, p, since)
          && NeededOrAll(results[i].suggestion, onlyNeeded))
    && (forall k :: k in keys && NeededOrAll(SuggestionFor(db, k, p, since), onlyNeeded) ==> SuggestsRow(results, k))
    && (forall i, j :: 0 <= i < j < |results| ==> results[i].stock != results[j].stock)
  }

  lemma SuggestsOneMore(results: seq<StockReplenishment>, more: seq<StockReplenishment>, k: StockKey)
    requires SuggestsRow(results, k) || (|more| == 1 && more[0].stock == k)
    ensures SuggestsRow(results + more, k)
  {
    if SuggestsRow(results, k) {
      var i :| 0 <= i < |results| && results[i].stock == k;
      assert (results + more)[i].stock == k;
    } else {
      assert (results + more)[|results|].stock == k;
    }
  }

  lemma SuggestsOneRowMore(db: Db, keys: seq<StockKey>, k: StockKey, results: seq<StockReplenishment>,
                           p: Replenishment.Policy, since: Time, onlyNeeded: bool)
    requires p.Valid() && k in db.stocks && k !in keys && (forall o :: o in keys ==> o in db.stocks)
    requires SuggestsOf(db, keys, results, p, since, onlyNeeded)
    ensures var s := SuggestionFor(db, k, p, since);
            var more := if NeededOrAll(s, onlyNeeded) then [StockReplenishment(k, s)] else [];
            SuggestsOf(db, keys + [k], results + more, p, since, onlyNeeded)
  {
    var s := SuggestionFor(db, k, p, since);
    var more := if NeededOrAll(s, onlyNeeded) then [StockReplenishment(k, s)] else [];
    forall o | o in keys + [k] && NeededOrAll(SuggestionFor(db, o, p, since), onlyNeeded)
      ensures SuggestsRow(results + more, o)
    {
      SuggestsOneMore(results, more, o);
    }
  }

  lemma {:induction false} SuggestionsOfRows(db: Db, keys: seq<StockKey>, p: Replenishment.Policy, since: Time,
                                             onlyNeeded: bool)
    requires p.Valid() && forall k :: k in keys ==> k in db.stocks
    requires forall i, j :: 0 <= i < j < |keys| ==> keys[i] != keys[j]
    ensures SuggestsOf(db, keys, SuggestionsFor(db, keys, p, since, onlyNeeded), p, since, onlyNeeded)
  {
    if keys != [] {
      var init, k := keys[..|keys| - 1], keys[|keys| - 1];
      SuggestionsOfRows(db, init, p, since, onlyNeeded);
      SuggestsOneRowMore(db, init, k, SuggestionsFor(db, init, p, since, onlyNeeded), p, since, onlyNeeded);
      assert keys == init + [k];
    }
  }

  lemma SuggestionsListExactly(db: Db, keys: seq<StockKey>, location: Option<LocationId>,
                               p: Replenishment.Policy, since: Time, onlyNeeded: bool)
    requires p.Valid() && forall k :: k in keys <==> k in db.stocks && InScope(k, location)
    requires forall i, j :: 0 <= i < j < |keys| ==> keys[i] != keys[j]
    ensures ListsExactly(db, SuggestionsFor(db, keys, p, since, onlyNeeded), location, p, since, onlyNeeded)
  {
    SuggestionsOfRows(db, keys, p, since, onlyNeeded);
    var results := SuggestionsFor(db, keys, p, since, onlyNeeded);
    forall k | Listed(db, k, location, p, since, onlyNeeded)
      ensures exists i :: 0 <= i < |results| && results[i].stock == k
    {
      assert SuggestsRow(results, k);
    }
  }

  // ---- the order of the results

  /** Lowest days of coverage first, rows with no consumption last; among equals the larger suggestion first. */
  predicate NoLessUrgent(a: StockReplenishment, b: StockReplenishment) {
    var c, d := a.suggestion.daysOfCoverage, b.suggestion.daysOfCoverage;
    if c.None? != d.None? then d.None?
    else
      var x, y := if c.Some? then c.value else 0.0, if d.Some? then d.value else 0.0;
      x < y || (x == y && a.suggestion.suggestedQuantity >= b.suggestion.suggestedQuantity)
  }

  /** Equal keys keep their order. */
  function Insert(x: StockReplenishment, s: seq<StockReplenishment>): seq<StockReplenishment> {
    if s == [] || NoLessUrgent(x, s[0]) then [x] + s else [s[0]] + Insert(x, s[1..])
  }

  function ByUrgency(s: seq<StockReplenishment>): seq<StockReplenishment> {
    if s == [] then [] else Insert(s[0], ByUrgency(s[1..]))
  }

  ghost predicate Urgent(s: seq<StockReplenishment>) {
    forall i, j :: 0 <= i < j < |s| ==> NoLessUrgent(s[i], s[j])
  }

  ghost predicate DistinctRows(s: seq<StockReplenishment>) {
    forall i, j :: 0 <= i < j < |s| ==> s[i].stock != s[j].stock
  }

  lemma {:induction false} InsertElements(x: StockReplenishment, s: seq<StockReplenishment>)
    ensures multiset(Insert(x, s)) == multiset(s) + multiset{x}
    ensures forall y :: y in Insert(x, s) <==> y == x || y in s
  {
    if s != [] && !NoLessUrgent(x, s[0]) {
      InsertElements(x, s[1..]);
      assert s == [s[0]] + s[1..];
    }
  }

  lemma {:induction false} InsertKeeps(x: StockReplenishment, s: seq<StockReplenishment>)
    requires Urgent(s) && DistinctRows(s) && forall i :: 0 <= i < |s| ==> s[i].stock != x.stock
    ensures Urgent(Insert(x, s)) && DistinctRows(Insert(x, s))
  {
    var r := Insert(x, s);
    if s != [] && !NoLessUrgent(x, s[0]) {
      InsertKeeps(x, s[1..]);
      InsertElements(x, s[1..]);
      forall j | 0 < j < |r| ensures NoLessUrgent(r[0], r[j]) && r[0].stock != r[j].stock {
        assert r[j] in Insert(x, s[1..]);
      }
    }
  }

  /** Sorting by urgency orders the results and only moves them. */
  lemma {:induction false} SortedByUrgency(s: seq<StockReplenishment>)
    requires DistinctRows(s)
    ensures Urgent(ByUrgency(s)) && DistinctRows(ByUrgency(s)) && multiset(ByUrgency(s)) == multiset(s)
    ensures forall y :: y in ByUrgency(s) <==> y in s
  {
    if s != [] {
      SortedByUrgency(s[1..]);
      forall i | 0 <= i < |ByUrgency(s[1..])| ensures ByUrgency(s[1..])[i].stock != s[0].stock {
        assert ByUrgency(s[1..])[i] in s[1..];
      }
      InsertKeeps(s[0], ByUrgency(s[1..]));
      InsertElements(s[0], ByUrgency(s[1..]));
      assert s == [s[0]] + s[1..];
    }
  }

  lemma SameResultsListExactly(db: Db, a: seq<StockReplenishment>, b: seq<StockReplenishment>,
                               location: Option<LocationId>,
                               p: Replenishment.Policy, since: Time, onlyNeeded: bool)
    requires p.Valid() && ListsExactly(db, a, location, p, since, onlyNeeded)
    requires DistinctRows(b) && forall y :: y in b <==> y in a
    ensures ListsExactly(db, b, location, p, since, onlyNeeded)
  {
    forall i | 0 <= i < |a| ensures exists j :: 0 <= j < |b| && b[j].stock == a[i].stock {
      assert a[i] in b;
    }
    forall j | 0 <= j < |b| ensures exists i :: 0 <= i < |a| && a[i] == b[j] {
      assert b[j] in a;
    }
  }

  // ---- the results in plain numbers

  /** The row is at or below its reorder point, or what is available lasts no longer than the horizon at the rate of the
      window. */
  ghost predicate Needs(db: Db, k: StockKey, p: Replenishment.Policy, since: Time)
    requires k in db.stocks
  {
    var s, c := db.stocks[k], Guarantees.Consumption(db.movements, k, since);
    var a := s.quantity - s.reserved;
    (s.reorderPoint > 0 && a <= s.reorderPoint) || (c > 0 && Max(a, 0) * p.windowDays <= p.horizonDays * c)
  }

  /** `x` more units lift the row above its reorder point and last the target days at the rate of the window. */
  ghost predicate Lasts(db: Db, k: StockKey, p: Replenishment.Policy, since: Time, x: int)
    requires k in db.stocks
  {
    var s, c := db.stocks[k], Guarantees.Consumption(db.movements, k, since);
    var a := s.quantity - s.reserved + x;
    a > s.reorderPoint && a * p.windowDays >= Max(c, 0) * p.targetDays
  }

  /** What is measured of a row: available, daily consumption and days of coverage. */
  ghost predicate Measures(s: Stock, c: int, r: Replenishment.Suggestion, windowDays: int) {
    && r.available == s.quantity - s.reserved
    && r.dailyConsumption * windowDays as real == Max(c, 0) as real
    && (r.daysOfCoverage.None? <==> c <= 0)
    && (c > 0 ==> r.daysOfCoverage.value * c as real == (Max(s.quantity - s.reserved, 0) * windowDays) as real)
  }

  /** What is suggested for a row: the least quantity that lasts if it needs one, and otherwise none. */
  ghost predicate Suggests(db: Db, k: StockKey, r: Replenishment.Suggestion, p: Replenishment.Policy, since: Time)
    requires k in db.stocks
  {
    && (r.needsRestock <==> Needs(db, k, p, since))
    && (!r.needsRestock ==> r.suggestedQuantity == 0)
    && (r.needsRestock ==> r.suggestedQuantity >= 0 && Lasts(db, k, p, since, r.suggestedQuantity)
                           && forall x :: x >= 0 && Lasts(db, k, p, since, x) ==> r.suggestedQuantity <= x)
  }

  /** Every figure of the suggestion for a row. */
  ghost predicate Figures(db: Db, k: StockKey, r: Replenishment.Suggestion, p: Replenishment.Policy, since: Time)
    requires k in db.stocks
  {
    && Measures(db.stocks[k], Guarantees.Consumption(db.movements, k, since), r, p.windowDays)
    && Suggests(db, k, r, p, since)
  }

  lemma SuggestionMeasures(db: Db, k: StockKey, p: Replenishment.Policy, since: Time)
    requires k in db.stocks && p.Valid()
    ensures Measures(db.stocks[k], Guarantees.Consumption(db.movements, k, since),
                     SuggestionFor(db, k, p, since), p.windowDays)
  {
    var s := db.stocks[k];
    Replenishment.EvaluationTells(Replenishment.Snapshot(s.quantity, s.reserved, s.reorderPoint),
                                  Guarantees.Consumption(db.movements, k, since), p);
  }

  lemma LastsIsSuffices(db: Db, k: StockKey, p: Replenishment.Policy, since: Time, x: int)
    requires k in db.stocks
    ensures var s := db.stocks[k];
            Lasts(db, k, p, since, x) <==>
            Replenishment.Suffices(Replenishment.Snapshot(s.quantity, s.reserved, s.reorderPoint),
                                   Guarantees.Consumption(db.movements, k, since), p, x)
  {
  }

  lemma SuggestionSuggests(db: Db, k: StockKey, p: Replenishment.Policy, since: Time)
    requires k in db.stocks && p.Valid()
    ensures Suggests(db, k, SuggestionFor(db, k, p, since), p, since)
  {
    var s, c := db.stocks[k], Guarantees.Consumption(db.movements, k, since);
    var snapshot := Replenishment.Snapshot(s.quantity, s.reserved, s.reorderPoint);
    var r := SuggestionFor(db, k, p, since);
    Replenishment.SuggestionIsLeast(snapshot, c, p, 0);
    LastsIsSuffices(db, k, p, since, r.suggestedQuantity);
    forall x | x >= 0 && Lasts(db, k, p, since, x) && r.needsRestock ensures r.suggestedQuantity <= x {
      Replenishment.SuggestionIsLeast(snapshot, c, p, x);
      LastsIsSuffices(db, k, p, since, x);
    }
  }

  lemma SuggestionTells(db: Db, k: StockKey, p: Replenishment.Policy, since: Time)
    requires k in db.stocks && p.Valid()
    ensures Figures(db, k, SuggestionFor(db, k, p, since), p, since)
  {
    SuggestionMeasures(db, k, p, since);
    SuggestionSuggests(db, k, p, since);
  }

  /** The first row's stock lasts no longer than the second's, told by cross products; stock that nothing leaves lasts
      longest, and among equals the larger suggestion comes first. */
  ghost predicate LastsNoLonger(db: Db, k: StockKey, x: int, o: StockKey, y: int, since: Time)
    requires k in db.stocks && o in db.stocks
  {
    NoLonger(db.stocks[k], Guarantees.Consumption(db.movements, k, since), x,
             db.stocks[o], Guarantees.Consumption(db.movements, o, since), y)
  }

  /** The same on the two rows and on what left them. */
  ghost predicate NoLonger(s: Stock, c: int, x: int, s': Stock, d: int, y: int) {
    var a, b := Max(s.Available(), 0), Max(s'.Available(), 0);
    if c <= 0 || d <= 0 then c > 0 || (d <= 0 && x >= y)
    else a * d < b * c || (a * d == b * c && x >= y)
  }

  lemma UrgencyByNumbers(k: StockKey, s: Stock, c: int, r: Replenishment.Suggestion,
                         o: StockKey, s': Stock, d: int, r': Replenishment.Suggestion, w: int)
    requires w > 0 && Measures(s, c, r, w) && Measures(s', d, r', w)
    ensures NoLessUrgent(StockReplenishment(k, r), StockReplenishment(o, r'))
       <==> NoLonger(s, c, r.suggestedQuantity, s', d, r'.suggestedQuantity)
  {
    if c > 0 && d > 0 {
      Replenishment.CoverageOrder(r.daysOfCoverage.value, r'.daysOfCoverage.value,
                                  Max(s.Available(), 0), Max(s'.Available(), 0), c, d, w);
    }
  }

  lemma UrgencyOfRows(db: Db, k: StockKey, o: StockKey, p: Replenishment.Policy, since: Time)
    requires k in db.stocks && o in db.stocks && p.Valid()
    ensures var r, r' := SuggestionFor(db, k, p, since), SuggestionFor(db, o, p, since);
            NoLessUrgent(StockReplenishment(k, r), StockReplenishment(o, r'))
            <==> LastsNoLonger(db, k, r.suggestedQuantity, o, r'.suggestedQuantity, since)
  {
    SuggestionMeasures(db, k, p, since);
    SuggestionMeasures(db, o, p, since);
    UrgencyByNumbers(k, db.stocks[k], Guarantees.Consumption(db.movements, k, since), SuggestionFor(db, k, p, since),
                     o, db.stocks[o], Guarantees.Consumption(db.movements, o, since), SuggestionFor(db, o, p, since),
                     p.windowDays);
  }

  /** The rows listed, their figures and their order, in plain numbers. */
  ghost predicate ListedByNeed(db: Db, results: seq<StockReplenishment>, location: Option<LocationId>,
                               p: Replenishment.Policy, since: Time, onlyNeeded: bool)
  {
    && (forall i :: 0 <= i < |results| ==>
          results[i].stock in db.stocks && Figures(db, results[i].stock, results[i].suggestion, p, since))
    && (forall i, j :: 0 <= i < j < |results| ==>
          && results[i].stock != results[j].stock
          && LastsNoLonger(db, results[i].stock, results[i].suggestion.suggestedQuantity,
                           results[j].stock, results[j].suggestion.suggestedQuantity, since))
    && (forall k :: k in db.stocks ==>
          (SuggestsRow(results, k) <==>
             (location.Some? ==> k.location == location.value) && (onlyNeeded ==> Needs(db, k, p, since))))
  }

  lemma ListTells(db: Db, results: seq<StockReplenishment>, location: Option<LocationId>,
                  p: Replenishment.Policy, since: Time, onlyNeeded: bool)
    requires p.Valid() && ListsExactly(db, results, location, p, since, onlyNeeded) && Urgent(results)
    ensures ListedByNeed(db, results, location, p, since, onlyNeeded)
  {
    forall i | 0 <= i < |results| ensures Figures(db, results[i].stock, results[i].suggestion, p, since) {
      SuggestionTells(db, results[i].stock, p, since);
    }
    forall i, j | 0 <= i < j < |results|
      ensures LastsNoLonger(db, results[i].stock, results[i].suggestion.suggestedQuantity,
                            results[j].stock, results[j].suggestion.suggestedQuantity, since)
    {
      UrgencyOfRows(db, results[i].stock, results[j].stock, p, since);
    }
    forall k | k in db.stocks
      ensures SuggestsRow(results, k) <==>
              (location.Some? ==> k.location == location.value) && (onlyNeeded ==> Needs(db, k, p, since))
    {
      SuggestionSuggests(db, k, p, since);
      assert Listed(db, k, location, p, since, onlyNeeded) <==> SuggestsRow(results, k);
    }
  }

  lemma SortingListsExactly(db: Db, results: seq<StockReplenishment>, location: Option<LocationId>,
                            p: Replenishment.Policy, since: Time, onlyNeeded: bool)
    requires p.Valid() && ListsExactly(db, results, location, p, since, onlyNeeded)
    ensures ListsExactly(db, ByUrgency(results), location, p, since, onlyNeeded) && Urgent(ByUrgency(results))
  {
    SortedByUrgency(results);
    SameResultsListExactly(db, results, ByUrgency(results), location, p, since, onlyNeeded);
  }

  lemma ResultsTell(db: Db, keys: seq<StockKey>, location: Option<LocationId>,
                    p: Replenishment.Policy, since: Time, onlyNeeded: bool)
    requires p.Valid() && forall k :: k in keys <==> k in db.stocks && InScope(k, location)
    requires forall i, j :: 0 <= i < j < |keys| ==> keys[i] != keys[j]
    ensures var sorted := ByUrgency(SuggestionsFor(db, keys, p, since, onlyNeeded));
            && ListsExactly(db, sorted, location, p, since, onlyNeeded) && Urgent(sorted)
            && ListedByNeed(db, sorted, location, p, since, onlyNeeded)
  {
    var results := SuggestionsFor(db, keys, p, since, onlyNeeded);
    SuggestionsListExactly(db, keys, location, p, since, onlyNeeded);
    SortingListsExactly(db, results, location, p, since, onlyNeeded);
    ListTells(db, ByUrgency(results), location, p, since, onlyNeeded);
  }

  /** A low row is listed for its location with a suggestion of at least one, and adding that many units clears its
      alert. */
  lemma LowRowIsSuggested(db: Db, k: StockKey, p: Replenishment.Policy, since: Time, now: Time)
    requires p.Valid() && k in db.stocks && db.stocks[k].IsLow()
    ensures var x := SuggestionFor(db, k, p, since).suggestedQuantity;
            && Listed(db, k, Some(k.location), p, since, true)
            && x >= 1
            && MoveStock(db, k, StockIn(x), now).Ok?
            && MoveStock(db, k, StockIn(x), now).value.0.alertedAt == None
  {
    var s := db.stocks[k];
    Replenishment.NeedTest(Replenishment.Snapshot(s.quantity, s.reserved, s.reorderPoint),
                           Guarantees.Consumption(db.movements, k, since), p);
  }

  /** In every run, a row with its alert set is low, and so listed with a suggestion that clears it, exactly unless its
      creation set the alert too late. */
  lemma AlertedRowsAreSuggested(products: set<ProductId>, locations: set<LocationId>, steps: seq<Operations.Step>,
                                k: StockKey, p: Replenishment.Policy, since: Time, now: Time)
    requires p.Valid()
    requires var db := Operations.Run(Operations.Start(products, locations), steps).db;
             k in db.stocks && db.stocks[k].alertedAt.Some?
    ensures var db := Operations.Run(Operations.Start(products, locations), steps).db;
            var x := SuggestionFor(db, k, p, since).suggestedQuantity;
            && (Alerts.OnTimeThroughout(Operations.Start(products, locations), steps, k) ==> db.stocks[k].IsLow())
            && (db.stocks[k].Stale() || (Listed(db, k, Some(k.location), p, since, true) && x >= 1
                  && MoveStock(db, k, StockIn(x), now).Ok?
                     && MoveStock(db, k, StockIn(x), now).value.0.alertedAt == None))
  {
    var start := Operations.Start(products, locations);
    var s := Operations.Run(start, steps);
    Alerts.FlagHoldsIff(products, locations, steps, k);
    Alerts.ReachableFlags(products, locations, steps);
    if s.db.stocks[k].IsLow() {
      LowRowIsSuggested(s.db, k, p, since, now);
    }
  }

  /** A row of 25 over a reorder point of 10 with its alert set: nothing is suggested for it. */
  lemma StaleRowIsNotSuggested(p: Replenishment.Policy, since: Time)
    requires p.Valid()
    ensures var db := Operations.Run(Operations.Start({0}, {0}), Alerts.FlaggedLate()).db;
            && Alerts.NewKey() in db.stocks && db.stocks[Alerts.NewKey()].alertedAt.Some?
            && SuggestionFor(db, Alerts.NewKey(), p, since).suggestedQuantity == 0
            && !Listed(db, Alerts.NewKey(), None, p, since, true)
  {
    var calls := Alerts.LateFlagIsStale();
    var db := Operations.Run(Operations.Start({0}, {0}), Alerts.FlaggedLate()).db;
    assert Guarantees.Consumption(db.movements, Alerts.NewKey(), since) == 0;
    Replenishment.NeedTest(Replenishment.Snapshot(25, 0, 10), 0, p);
  }

  /** A database session: what is committed, and what this request sees and writes. */
  class Session {
    var committed: Db
    var work: Db

    constructor (db: Db)
      ensures committed == work == db
    {
      committed, work := db, db;
    }

    method Commit()
      modifies this`committed
      ensures committed == work
    {
      committed := work;
    }

    method Rollback()
      modifies this`work
      ensures work == committed
    {
      work := committed;
    }
  }

  /** The tables after a manual move keep their invariants. */
  lemma AfterMove(db: Db, key: StockKey, kind: MovementKind, amount: int, next: int, now: Time, at: Time)
    returns (row: Stock, d: Db)
    requires Inv(db) && key in db.stocks
    ensures row == Sync(db.stocks[key].(quantity := next), now)
    ensures d == db.(stocks := db.stocks[key := row],
                     movements := db.movements + [LedgerRow(Moved(key, db.stocks[key], kind, amount, next, now).1, at)])
    ensures Inv(d) && db.stocks[key := db.stocks[key].(quantity := next)][key := row] == d.stocks
    ensures var s := db.stocks[key].(quantity := next);
            Raised(db.stocks, d.stocks) == if s.IsLow() && s.alertedAt.None? then {key} else {}
  {
    row := Sync(db.stocks[key].(quantity := next), now);
    Operations.RowWriteKeeps(db, key, row);
    var e := db.(stocks := db.stocks[key := row]);
    d := e.(movements := db.movements + [LedgerRow(Moved(key, db.stocks[key], kind, amount, next, now).1, at)]);
    StockInvIgnoresOrders(e, d);
    Operations.OrderInvIgnoresStocks(e, d);
  }

  /** The tables after a creation keep their invariants. */
  lemma AfterCreation(db: Db, key: StockKey, quantity: int, reorderPoint: int, now: Time)
    returns (created: Stock, d: Db)
    requires Inv(db) && Initialize(db, key, quantity, reorderPoint, now).Ok?
    ensures created == Stock(Abs(quantity), 0, Abs(reorderPoint), None)
    ensures d == db.(stocks := db.stocks[key := Sync(created, now)])
    ensures Initialize(db, key, quantity, reorderPoint, now) == Ok(d) && Inv(d)
    ensures Raised(db.stocks, d.stocks) == if created.IsLow() then {key} else {}
  {
    created := Stock(Abs(quantity), 0, Abs(reorderPoint), None);
    d := db.(stocks := db.stocks[key := Sync(created, now)]);
    assert db.stocks[key := created][key := Sync(created, now)] == d.stocks;
    Operations.RowWriteKeeps(db, key, Sync(created, now));
  }

  /** The order of the stock table: by product, then by location. */
  predicate Precedes(a: StockKey, b: StockKey) {
    a.product < b.product || (a.product == b.product && a.location < b.location)
  }

  predicate IsFirst(k: StockKey, keys: set<StockKey>) {
    k in keys && forall o :: o in keys && o != k ==> Precedes(k, o)
  }

  lemma FirstPrecedes(k: StockKey, keys: set<StockKey>)
    requires IsFirst(k, keys)
    ensures forall o :: o in keys && o != k ==> Precedes(k, o)
  {
  }

  lemma PrecedesIsAnOrder(a: StockKey, b: StockKey, c: StockKey)
    ensures a != b ==> Precedes(a, b) || Precedes(b, a)
    ensures Precedes(a, b) && Precedes(b, c) ==> Precedes(a, c)
  {
  }

  lemma {:induction false} SomeKeyIsFirst(keys: set<StockKey>) returns (k: StockKey)
    requires keys != {}
    ensures IsFirst(k, keys)
    decreases |keys|
  {
    var a :| a in keys;
    k := a;
    if keys != {a} {
      assert keys - {a} != {};
      var b := SomeKeyIsFirst(keys - {a});
      PrecedesIsAnOrder(a, b, a);
      if !Precedes(a, b) { k := b; }
      forall o | o in keys && o != k ensures Precedes(k, o) {
        if o != a && o != b { PrecedesIsAnOrder(a, b, o); }
      }
    }
  }

  class InventoryService {
    const session: Session
    var pending: set<StockKey>
    /** The notifier calls made so far. */
    var sent: seq<StockKey>

    /** Between requests: nothing uncommitted, no alert held back, and tables that satisfy their invariant. */
    ghost predicate Ready()
      reads this, session
    {
      session.work == session.committed && pending == {} && Inv(session.committed)
    }

    constructor (session: Session)
      requires session.work == session.committed && Inv(session.committed)
      ensures this.session == session && Ready() && sent == []
    {
      this.session, pending, sent := session, {}, [];
    }

    /** A request that raised: its session rolls back and its pending alerts are dropped with it. */
    method Abandon()
      modifies this`pending, session`work
      ensures session.work == session.committed && pending == {}
    {
      session.Rollback();
      pending := {};
    }

    // ---- alerts

    method SyncLowStock(key: StockKey, now: Time) returns (raised: bool)
      requires key in session.work.stocks
      modifies this`pending, session`work
      ensures var before := old(session.work.stocks);
              && session.work == old(session.work).(stocks := before[key := Sync(before[key], now)])
              && raised == (before[key].IsLow() && before[key].alertedAt.None?)
              && pending == old(pending) + (if raised then {key} else {})
    {
      var s := session.work.stocks[key];
      var isLow := s.reorderPoint > 0 && s.quantity - s.reserved <= s.reorderPoint;
      if isLow && s.alertedAt.None? {
        session.work := session.work.(stocks := session.work.stocks[key := s.(alertedAt := Some(now))]);
        pending := pending + {key};
        return true;
      }
      if !isLow && s.alertedAt.Some? {
        session.work := session.work.(stocks := session.work.stocks[key := s.(alertedAt := None)]);
      }
      assert session.work.stocks == old(session.work.stocks)[key := Sync(s, now)];
      return false;
    }

    method FlushLowStockAlerts()
      modifies this`pending, this`sent
      ensures pending == {}
      ensures multiset(sent) == multiset(old(sent)) + multiset(old(pending))
    {
      var todo := pending;
      pending := {};
      while todo != {}
        invariant pending == {}
        invariant multiset(sent) + multiset(todo) == multiset(old(sent)) + multiset(old(pending))
        decreases |todo|
      {
        var key :| key in todo;
        todo := todo - {key};
        sent := sent + [key];
      }
    }

    // ---- stock

    method InitializeStock(key: StockKey, quantity: int, reorderPoint: int, now: Time) returns (error: Option<Error>)
      requires Ready()
      modifies this`pending, this`sent, session
      ensures Ready()
      ensures match Initialize(old(session.committed), key, quantity, reorderPoint, now)
              case Err(e) => error == Some(e) && session.committed == old(session.committed) && sent == old(sent)
              case Ok(d) => error == None && session.committed == d
                            && multiset(sent) == multiset(old(sent))
                               + multiset(Raised(old(session.committed).stocks, d.stocks))
    {
      var absQuantity, absReorderPoint := Abs(quantity), Abs(reorderPoint);
      if key.location !in session.work.locations {
        return Some(InvalidLocation);
      }
      if absQuantity <= 0 {
        return Some(InvalidQuantityStock);
      }
      if key in session.work.stocks {
        return Some(StockAlreadyExists);
      }
      if key.product !in session.work.products {
        return Some(IntegrityError);
      }
      ghost var before := session.committed;
      ghost var row, d := AfterCreation(before, key, quantity, reorderPoint, now);
      var created := Stock(absQuantity, 0, absReorderPoint, None);
      session.work := session.work.(stocks := session.work.stocks[key := created]);
      session.Commit();
      var raised := SyncLowStock(key, now);
      assert session.work == d;
      assert pending == Raised(before.stocks, d.stocks);
      if raised {
        session.Commit();
        FlushLowStockAlerts();
      }
      assert session.committed == d;
      error := None;
    }

    method AddStock(key: StockKey, quantity: int, now: Time, at: Time) returns (error: Option<Error>)
      requires Ready()
      modifies this`pending, this`sent, session
      ensures Ready() && MovedAs(old(session.committed),
                                 MoveStock(old(session.committed), key, StockIn(quantity), now), at,
                                 old(sent), error)
    {
      if quantity <= 0 {
        return Some(InvalidQuantityStock);
      }
      if key !in session.work.stocks {
        return Some(InvalidProductOrLocation);
      }
      error := ChangeQuantity(key, In, quantity, session.work.stocks[key].quantity + quantity, now, at);
    }

    method RemoveStock(key: StockKey, quantity: int, now: Time, at: Time) returns (error: Option<Error>)
      requires Ready()
      modifies this`pending, this`sent, session
      ensures Ready() && MovedAs(old(session.committed),
                                 MoveStock(old(session.committed), key, StockOut(quantity), now), at,
                                 old(sent), error)
    {
      if quantity <= 0 {
        return Some(InvalidQuantityStock);
      }
      if key !in session.work.stocks {
        return Some(InvalidProductOrLocation);
      }
      if session.work.stocks[key].quantity < quantity {
        return Some(StockNegative);
      }
      error := ChangeQuantity(key, Out, quantity, session.work.stocks[key].quantity - quantity, now, at);
    }

    method AdjustStock(key: StockKey, quantity: int, now: Time, at: Time) returns (error: Option<Error>)
      requires Ready()
      modifies this`pending, this`sent, session
      ensures Ready() && MovedAs(old(session.committed),
                                 MoveStock(old(session.committed), key, StockAdjust(quantity), now), at,
                                 old(sent), error)
    {
      if key !in session.work.stocks {
        return Some(InvalidProductOrLocation);
      }
      if quantity < 0 {
        return Some(StockNegative);
      }
      var previous := session.work.stocks[key].quantity;
      error := ChangeQuantity(key, Adjust, Abs(quantity - previous), quantity, now, at);
    }

    /** A manual move refused with its error, or committed with its movement and its alert. */
    ghost predicate MovedAs(before: Db, r: Result<(Stock, Movement), Error>, at: Time, sentBefore: seq<StockKey>,
                            error: Option<Error>)
      reads this, session
    {
      match r
      case Err(e) => error == Some(e) && session.committed == before && sent == sentBefore
      case Ok((row, movement)) =>
        && error == None
        && session.committed == before.(stocks := before.stocks[movement.stock := row],
                                        movements := before.movements + [LedgerRow(movement, at)])
        && multiset(sent) == multiset(sentBefore) + multiset(Raised(before.stocks, session.committed.stocks))
    }

    /** The end of every manual move: the row is written and committed, then its movement, then the alert goes out. */
    method ChangeQuantity(key: StockKey, kind: MovementKind, amount: int, next: int, now: Time, at: Time)
      returns (error: Option<Error>)
      requires Ready() && key in session.work.stocks
      modifies this`pending, this`sent, session
      ensures Ready() && error == None
      ensures MovedAs(old(session.committed),
                      Ok(Moved(key, old(session.committed).stocks[key], kind, amount, next, now)), at,
                      old(sent), error)
    {
      ghost var before := session.committed;
      ghost var row, after := AfterMove(before, key, kind, amount, next, now, at);
      var s := session.work.stocks[key];
      session.work := session.work.(stocks := session.work.stocks[key := s.(quantity := next)]);
      var raised := SyncLowStock(key, now);
      var movement := Movement(key, kind, amount, s.quantity, next);
      assert session.work == before.(stocks := after.stocks);
      assert pending == Raised(before.stocks, after.stocks);
      session.Commit();
      session.work := session.work.(movements := session.work.movements + [LedgerRow(movement, at)]);
      session.Commit();
      assert session.committed == after;
      FlushLowStockAlerts();
      error := None;
    }

    /** The rows of a location and of a product, or of any, ordered by product and then location. */
    method GetStockLevels(location: Option<LocationId>, product: Option<ProductId>) returns (keys: seq<StockKey>)
      ensures forall k :: k in keys <==>
        k in session.work.stocks && InScope(k, location) && (product.Some? ==> k.product == product.value)
      ensures forall k :: k in keys && location.Some? ==> k.location == location.value
      ensures forall i, j :: 0 <= i < j < |keys| ==> Precedes(keys[i], keys[j])
      ensures forall i, j :: 0 <= i < j < |keys| ==>
                && keys[i].product <= keys[j].product
                && (keys[i].product == keys[j].product ==> keys[i].location < keys[j].location)
    {
      var todo := session.work.stocks.Keys;
      keys := [];
      while todo != {}
        invariant todo <= session.work.stocks.Keys
        invariant forall k :: k in keys <==>
          k in session.work.stocks && k !in todo && InScope(k, location)
            && (product.Some? ==> k.product == product.value)
        invariant forall i, j :: 0 <= i < j < |keys| ==> Precedes(keys[i], keys[j])
        invariant forall i, k :: 0 <= i < |keys| && k in todo ==> Precedes(keys[i], k)
        decreases |todo|
      {
        ghost var first := SomeKeyIsFirst(todo);
        var k :| k in todo && IsFirst(k, todo);
        FirstPrecedes(k, todo);
        todo := todo - {k};
        if InScope(k, location) && (product.None? || k.product == product.value) {
          keys := keys + [k];
        }
      }
    }

    /** The units that left each row in scope since a time; a row that nothing left is absent. */
    method GetConsumptionByStock(since: Time, location: Option<LocationId>) returns (totals: map<StockKey, int>)
      ensures forall k :: InScope(k, location) ==>
        Guarantees.Consumption(session.work.movements, k, since) == if k in totals then totals[k] else 0
    {
      var rows := session.work.movements;
      totals := map[];
      for i := 0 to |rows|
        invariant forall k :: InScope(k, location) ==>
          Guarantees.Consumption(rows[..i], k, since) == if k in totals then totals[k] else 0
      {
        var m := rows[i].movement;
        forall k: StockKey
          ensures Guarantees.Consumption(rows[..i + 1], k, since)
               == Guarantees.Consumption(rows[..i], k, since) + Guarantees.OutSince(k, since)(rows[i])
        {
          assert rows[..i + 1] == rows[..i] + [rows[i]];
          SumByAppend(rows[..i], rows[i], Guarantees.OutSince(k, since));
        }
        if m.kind == Out && rows[i].createdAt >= since && InScope(m.stock, location) {
          totals := totals[m.stock := (if m.stock in totals then totals[m.stock] else 0) + m.quantity];
        }
      }
      assert rows[..|rows|] == rows;
    }

    function Suggest(k: StockKey, consumed: int, p: Replenishment.Policy): Replenishment.Suggestion
      requires k in session.work.stocks && p.Valid()
      reads session
    {
      var s := session.work.stocks[k];
      Replenishment.Evaluate(Replenishment.Snapshot(s.quantity, s.reserved, s.reorderPoint), consumed, p)
    }

    /** The loop of the suggestions. */
    method SuggestEach(keys: seq<StockKey>, consumption: map<StockKey, int>, p: Replenishment.Policy, ghost since: Time,
                       onlyNeeded: bool)
      returns (results: seq<StockReplenishment>)
      requires p.Valid() && forall k :: k in keys ==> k in session.work.stocks
      requires forall k :: k in keys ==>
        Guarantees.Consumption(session.work.movements, k, since) == if k in consumption then consumption[k] else 0
      ensures results == SuggestionsFor(session.work, keys, p, since, onlyNeeded)
    {
      results := [];
      for n := 0 to |keys|
        invariant results == SuggestionsFor(session.work, keys[..n], p, since, onlyNeeded)
      {
        var k := keys[n];
        assert k in keys;
        var suggestion := Suggest(k, if k in consumption then consumption[k] else 0, p);
        assert suggestion == SuggestionFor(session.work, k, p, since);
        assert keys[..n + 1][..n] == keys[..n];
        if onlyNeeded && !suggestion.needsRestock {
          continue;
        }
        results := results + [StockReplenishment(k, suggestion)];
      }
      assert keys[..|keys|] == keys;
    }

    /** The suggestions under a policy. */
    method SuggestUnder(p: Replenishment.Policy, location: Option<LocationId>, onlyNeeded: bool, since: Time)
      returns (results: seq<StockReplenishment>)
      requires p.Valid()
      ensures ListsExactly(session.work, results, location, p, since, onlyNeeded) && Urgent(results)
      ensures ListedByNeed(session.work, results, location, p, since, onlyNeeded)
    {
      var keys := GetStockLevels(location, None);
      var consumption := GetConsumptionByStock(since, location);
      results := SuggestEach(keys, consumption, p, since, onlyNeeded);
      ResultsTell(session.work, keys, location, p, since, onlyNeeded);
      results := ByUrgency(results);
    }

    method GetReplenishmentSuggestions(location: Option<LocationId>, horizonDays: Option<int>, onlyNeeded: bool,
                                       now: Time)
      returns (r: Result<seq<StockReplenishment>, Error>)
      ensures var p := Replenishment.DEFAULT_POLICY.(horizonDays := if horizonDays.Some? then horizonDays.value else 7);
              var since := now - p.windowDays * SECONDS_A_DAY;
              if !p.Valid() then r == Err(InvalidReplenishmentPolicy)
              else r.Ok? && ListsExactly(session.work, r.value, location, p, since, onlyNeeded) && Urgent(r.value)
      ensures r == Err(InvalidReplenishmentPolicy) <==> horizonDays.Some? && !(1 <= horizonDays.value <= 30)
      ensures r.Ok? ==>
                var horizon := if horizonDays.Some? then horizonDays.value else 7;
                ListedByNeed(session.work, r.value, location, Replenishment.Policy(30, horizon, 30),
                             now - 30 * 24 * 60 * 60, onlyNeeded)
    {
      var p := Replenishment.DEFAULT_POLICY;
      if horizonDays.Some? {
        p := p.(horizonDays := horizonDays.value);
      }
      if !p.Valid() {
        return Err(InvalidReplenishmentPolicy);
      }
      var since := now - p.windowDays * SECONDS_A_DAY;
      assert p == Replenishment.Policy(30, if horizonDays.Some? then horizonDays.value else 7, 30);
      assert since == now - 30 * 24 * 60 * 60;
      var results := SuggestUnder(p, location, onlyNeeded, since);
      r := Ok(results);
    }

    // ---- reservations

    /** A call inside a transaction: done as specified with the alerts it raised noted, or refused; except for a
        row the database itself refuses, a refused call has written nothing. */
    ghost predicate DoneAs(before: Db, pendingBefore: set<StockKey>, r: Result<Db, Error>, error: Option<Error>)
      reads this, session
    {
      match r
      case Err(e) => error == Some(e) && (e != IntegrityError ==> session.work == before && pending == pendingBefore)
      case Ok(d) => error == None && session.work == d && pending == pendingBefore + Raised(before.stocks, d.stocks)
    }

    method ReserveForItem(item: ItemId, product: ProductId, location: LocationId, quantity: int, now: Time)
      returns (error: Option<Error>)
      modifies this`pending, session`work
      ensures DoneAs(old(session.work), old(pending),
                     Reserve(old(session.work), item, StockKey(product, location), quantity, now), error)
    {
      if quantity <= 0 {
        return Some(InvalidQuantityStock);
      }
      var key := StockKey(product, location);
      if key !in session.work.stocks {
        return Some(StockNotFound);
      }
      ghost var before := session.work;
      var s := session.work.stocks[key];
      if s.quantity - s.reserved < quantity {
        return Some(InsufficientStock);
      }
      session.work := session.work.(stocks := session.work.stocks[key := s.(reserved := s.reserved + quantity)]);
      var raised := SyncLowStock(key, now);
      if item in session.work.reservations {
        return Some(IntegrityError);
      }
      session.work := session.work.(
        reservations := session.work.reservations[item := Reservation(key, quantity, Reserved)]);
      assert session.work.stocks == before.stocks[key := Sync(s.(reserved := s.reserved + quantity), now)];
      assert pending == old(pending) + Raised(before.stocks, session.work.stocks);
      error := None;
    }

    method ReleaseForItem(item: ItemId, now: Time) returns (error: Option<Error>)
      modifies this`pending, session`work
      ensures DoneAs(old(session.work), old(pending), Release(old(session.work), item, now), error)
    {
      if item !in session.work.reservations {
        return Some(ReservationNotFound);
      }
      var r := session.work.reservations[item];
      if r.status != Reserved {
        return Some(InvalidReservationStatus);
      }
      if r.stock !in session.work.stocks {
        return Some(StockNotFound);
      }
      ghost var before := session.work;
      var s := session.work.stocks[r.stock];
      session.work := session.work.(stocks := session.work.stocks[r.stock := s.(reserved := s.reserved - r.quantity)],
                                    reservations := session.work.reservations[item := r.(status := Released)]);
      var raised := SyncLowStock(r.stock, now);
      assert session.work.stocks == before.stocks[r.stock := Sync(s.(reserved := s.reserved - r.quantity), now)];
      assert pending == old(pending) + Raised(before.stocks, session.work.stocks);
      error := None;
    }

    method FulfillForItem(item: ItemId, now: Time, at: Time) returns (error: Option<Error>)
      modifies this`pending, session`work
      ensures DoneAs(old(session.work), old(pending), Fulfill(old(session.work), item, now, at), error)
    {
      if item !in session.work.reservations {
        return Some(ReservationNotFound);
      }
      var r := session.work.reservations[item];
      if r.status != Reserved {
        return Some(InvalidReservationStatus);
      }
      if r.stock !in session.work.stocks {
        return Some(StockNotFound);
      }
      ghost var before := session.work;
      var s := session.work.stocks[r.stock];
      var s' := s.(quantity := s.quantity - r.quantity, reserved := s.reserved - r.quantity);
      session.work := session.work.(stocks := session.work.stocks[r.stock := s'],
                                    reservations := session.work.reservations[item := r.(status := Fulfilled)]);
      var raised := SyncLowStock(r.stock, now);
      var movement := Movement(r.stock, Out, r.quantity, s.quantity, s'.quantity);
      session.work := session.work.(movements := session.work.movements + [LedgerRow(movement, at)]);
      assert session.work.stocks == before.stocks[r.stock := Sync(s', now)];
      assert pending == old(pending) + Raised(before.stocks, session.work.stocks);
      error := None;
    }
  }

  // ---- the order loops, round by round

  /** One round of the confirmation loop. */
  lemma ReserveRound(db: Db, d: Db, items: seq<Item>, location: LocationId, clock: Clock, n: nat)
    requires n < |items| && ReserveFirst(db, items, location, clock, n) == Ok(d)
    ensures var it := items[n];
            var r := Reserve(d, it.id, ItemKey(it, location), it.quantity, clock(n));
            && ReserveFirst(db, items, location, clock, n + 1) == r
            && (r.Err? ==> ReserveFirst(db, items, location, clock, |items|) == r)
            && (r.Ok? ==> ReserveRaises(db, items, location, clock, n + 1)
                          == ReserveRaises(db, items, location, clock, n) + Raised(d.stocks, r.value.stocks))
  {
    if ReserveFirst(db, items, location, clock, n + 1).Err? {
      FailurePersists(db, items, location, clock, n + 1, |items|);
    }
  }

  lemma ReleaseNext(db: Db, d: Db, items: seq<Item>, clock: Clock, n: nat)
    requires n < |items| && ReleaseFirst(db, items, clock, n) == Ok(d) && items[n].id in d.reservations
    ensures ReleaseFirst(db, items, clock, n + 1) == Release(d, items[n].id, clock(n))
  {
  }

  lemma FulfillNext(db: Db, d: Db, items: seq<Item>, clock: Clock, at: Time, n: nat)
    requires n < |items| && FulfillFirst(db, items, clock, at, n) == Ok(d) && items[n].id in d.reservations
    ensures FulfillFirst(db, items, clock, at, n + 1) == Fulfill(d, items[n].id, clock(n), at)
  {
  }

  /** One round of the cancellation loop: it succeeds and makes no row low. */
  lemma ReleaseRound(db: Db, d: Db, items: seq<Item>, n: nat, now: Time)
    requires n < |items| && AllOpen(db, items) && StockInv(d) && ReleasedExactly(db, d, items, n)
    ensures items[n].id in d.reservations
    ensures var r := Release(d, items[n].id, now);
            && r.Ok? && ReleasedExactly(db, r.value, items, n + 1)
            && StockInv(r.value) && Raised(d.stocks, r.value.stocks) == {}
  {
    ReleaseStep(db, d, items, n + 1, now);
    ReleaseKeeps(d, items[n].id, now);
    ReleaseIsQuiet(d, items[n].id, now);
  }

  /** One round of the completion loop: it succeeds and makes no row low. */
  lemma FulfillRound(db: Db, d: Db, items: seq<Item>, n: nat, now: Time, at: Time)
    requires n < |items| && AllOpen(db, items) && StockInv(d) && FulfilledExactly(db, d, items, n, at)
    ensures items[n].id in d.reservations
    ensures var r := Fulfill(d, items[n].id, now, at);
            && r.Ok? && FulfilledExactly(db, r.value, items, n + 1, at)
            && StockInv(r.value) && Raised(d.stocks, r.value.stocks) == {}
  {
    FulfillStep(db, d, items, n + 1, now, at);
    FulfillKeeps(d, items[n].id, now, at);
    FulfillIsQuiet(d, items[n].id, now, at);
  }

  lemma {:induction false} ReserveLeavesOrders(db: Db, items: seq<Item>, location: LocationId, clock: Clock, n: nat)
    requires n <= |items| && ReserveFirst(db, items, location, clock, n).Ok?
    ensures ReserveFirst(db, items, location, clock, n).value.orders == db.orders
  {
    if n != 0 {
      ReserveLeavesOrders(db, items, location, clock, n - 1);
    }
  }

  lemma {:induction false} ReleaseLeavesOrders(db: Db, items: seq<Item>, clock: Clock, n: nat)
    requires n <= |items| && ReleaseFirst(db, items, clock, n).Ok?
    ensures ReleaseFirst(db, items, clock, n).value.orders == db.orders
  {
    if n != 0 {
      ReleaseLeavesOrders(db, items, clock, n - 1);
    }
  }

  lemma {:induction false} FulfillLeavesOrders(db: Db, items: seq<Item>, clock: Clock, at: Time, n: nat)
    requires n <= |items| && FulfillFirst(db, items, clock, at, n).Ok?
    ensures FulfillFirst(db, items, clock, at, n).value.orders == db.orders
  {
    if n != 0 {
      FulfillLeavesOrders(db, items, clock, at, n - 1);
    }
  }

  class OrderService {
    const session: Session
    const inventory: InventoryService

    constructor (inventory: InventoryService)
      ensures this.inventory == inventory && session == inventory.session
    {
      this.inventory, session := inventory, inventory.session;
    }

    /** A request refused with its error and no trace, or committed with exactly these alerts sent. */
    ghost predicate ServedAs(before: Db, sentBefore: seq<StockKey>, r: Result<Db, Error>, alerts: set<StockKey>,
                             error: Option<Error>)
      reads inventory, session
    {
      match r
      case Err(e) => error == Some(e) && session.committed == before && inventory.sent == sentBefore
      case Ok(d) =>
        error == None && session.committed == d && multiset(inventory.sent) == multiset(sentBefore) + multiset(alerts)
    }

    /** The loop of a confirmation: the first refusal stops it. */
    method ReserveItems(items: seq<Item>, location: LocationId, clock: Clock) returns (error: Option<Error>)
      requires inventory.session == session && inventory.pending == {}
      modifies inventory`pending, session`work
      ensures match ReserveFirst(old(session.work), items, location, clock, |items|)
              case Err(e) => error == Some(e)
              case Ok(d) => error == None && session.work == d
                            && inventory.pending == ReserveRaises(old(session.work), items, location, clock, |items|)
    {
      ghost var before := session.work;
      for i := 0 to |items|
        invariant ReserveFirst(before, items, location, clock, i) == Ok(session.work)
        invariant inventory.pending == ReserveRaises(before, items, location, clock, i)
      {
        ReserveRound(before, session.work, items, location, clock, i);
        error := inventory.ReserveForItem(items[i].id, items[i].product, location, items[i].quantity, clock(i));
        if error.Some? {
          return;
        }
      }
      error := None;
    }

    method ConfirmOrder(o: OrderId, location: LocationId, clock: Clock) returns (error: Option<Error>)
      requires inventory.session == session && inventory.Ready()
      modifies inventory`pending, inventory`sent, session
      ensures inventory.Ready()
      ensures var r := Confirm(old(session.committed), o, location, clock);
              ServedAs(old(session.committed), old(inventory.sent), r,
                       ConfirmRaises(old(session.committed), o, location, clock), error)
    {
      ghost var before := session.committed;
      if o !in session.work.orders {
        return Some(OrderNotFound);
      }
      var order := session.work.orders[o];
      if order.status != Created {
        return Some(InvalidOrderStatus);
      }
      error := ReserveItems(order.items, location, clock);
      if error.Some? {
        inventory.Abandon();
        return;
      }
      ReserveLeavesOrders(before, order.items, location, clock, |order.items|);
      session.work := session.work.(orders := session.work.orders[o := order.(status := Confirmed)]);
      ConfirmKeeps(before, o, location, clock);
      session.Commit();
      inventory.FlushLowStockAlerts();
      error := None;
    }

    /** The loop of a cancellation; releasing raises no alert. */
    method ReleaseItems(items: seq<Item>, clock: Clock) returns (error: Option<Error>)
      requires inventory.session == session && inventory.pending == {}
      requires StockInv(session.work) && AllOpen(session.work, items)
      modifies inventory`pending, session`work
      ensures error == None && inventory.pending == {}
      ensures ReleaseFirst(old(session.work), items, clock, |items|) == Ok(session.work)
    {
      ghost var before := session.work;
      ReleaseFirstExact(before, items, clock, 0);
      for i := 0 to |items|
        invariant ReleaseFirst(before, items, clock, i) == Ok(session.work)
                  && ReleasedExactly(before, session.work, items, i)
        invariant inventory.pending == {} && StockInv(session.work)
      {
        ReleaseRound(before, session.work, items, i, clock(i));
        ReleaseNext(before, session.work, items, clock, i);
        if items[i].id in session.work.reservations {
          error := inventory.ReleaseForItem(items[i].id, clock(i));
        }
      }
      error := None;
    }

    method CancelOrder(o: OrderId, clock: Clock) returns (error: Option<Error>)
      requires inventory.session == session && inventory.Ready()
      modifies inventory`pending, session
      ensures inventory.Ready()
      ensures ServedAs(old(session.committed), old(inventory.sent), Cancel(old(session.committed), o, clock), {}, error)
    {
      ghost var before := session.committed;
      if o !in session.work.orders {
        return Some(OrderNotFound);
      }
      var order := session.work.orders[o];
      if order.status != Confirmed {
        return Some(InvalidOrderStatus);
      }
      ConfirmedIsAllOpen(before, o);
      error := ReleaseItems(order.items, clock);
      ReleaseLeavesOrders(before, order.items, clock, |order.items|);
      session.work := session.work.(orders := session.work.orders[o := order.(status := Cancelled)]);
      CancelKeeps(before, o, clock);
      session.Commit();
    }

    /** The loop of a completion; fulfilling raises no alert. */
    method FulfillItems(items: seq<Item>, clock: Clock, at: Time) returns (error: Option<Error>)
      requires inventory.session == session && inventory.pending == {}
      requires StockInv(session.work) && AllOpen(session.work, items)
      modifies inventory`pending, session`work
      ensures error == None && inventory.pending == {}
      ensures FulfillFirst(old(session.work), items, clock, at, |items|) == Ok(session.work)
    {
      ghost var before := session.work;
      FulfillFirstExact(before, items, clock, at, 0);
      for i := 0 to |items|
        invariant FulfillFirst(before, items, clock, at, i) == Ok(session.work)
        invariant FulfilledExactly(before, session.work, items, i, at)
        invariant inventory.pending == {} && StockInv(session.work)
      {
        FulfillRound(before, session.work, items, i, clock(i), at);
        FulfillNext(before, session.work, items, clock, at, i);
        if items[i].id in session.work.reservations {
          error := inventory.FulfillForItem(items[i].id, clock(i), at);
        }
      }
      error := None;
    }

    method CompleteOrder(o: OrderId, clock: Clock, at: Time) returns (error: Option<Error>)
      requires inventory.session == session && inventory.Ready()
      modifies inventory`pending, inventory`sent, session
      ensures inventory.Ready()
      ensures ServedAs(old(session.committed), old(inventory.sent), Complete(old(session.committed), o, clock, at), {},
                       error)
    {
      ghost var before := session.committed;
      if o !in session.work.orders {
        return Some(OrderNotFound);
      }
      var order := session.work.orders[o];
      if order.status != Confirmed {
        return Some(InvalidOrderStatus);
      }
      ConfirmedIsAllOpen(before, o);
      error := FulfillItems(order.items, clock, at);
      FulfillLeavesOrders(before, order.items, clock, at, |order.items|);
      session.work := session.work.(orders := session.work.orders[o := order.(status := Completed)]);
      CompleteKeeps(before, o, clock, at);
      session.Commit();
      inventory.FlushLowStockAlerts();
    }

    method CreateOrder(o: OrderId) returns (error: Option<Error>)
      requires inventory.session == session && inventory.Ready()
      modifies session
      ensures inventory.Ready()
      ensures ServedAs(old(session.committed), old(inventory.sent), Orders.CreateOrder(old(session.committed), o), {},
                       error)
    {
      ghost var before := session.committed;
      if o in session.work.orders {
        return Some(IntegrityError);
      }
      session.work := session.work.(orders := session.work.orders[o := Order(Created, [])]);
      CreateOrderKeeps(before, o);
      session.Commit();
      error := None;
    }

    method AddItemToOrder(o: OrderId, id: ItemId, product: ProductId, quantity: int) returns (error: Option<Error>)
      requires inventory.session == session && inventory.Ready()
      modifies session
      ensures inventory.Ready()
      ensures ServedAs(old(session.committed), old(inventory.sent),
                       AddItem(old(session.committed), o, id, product, quantity), {}, error)
    {
      ghost var before := session.committed;
      if product !in session.work.products {
        return Some(ProductNotFound);
      }
      if o !in session.work.orders {
        return Some(OrderNotFound);
      }
      var order := session.work.orders[o];
      if order.status != Created {
        return Some(InvalidOrderStatus);
      }
      if quantity <= 0 {
        return Some(InvalidQuantity);
      }
      if id in session.work.itemOrder {
        return Some(IntegrityError);
      }
      var items := order.items + [Item(id, product, quantity)];
      session.work := session.work.(orders := session.work.orders[o := order.(items := items)],
                                    itemOrder := session.work.itemOrder[id := o]);
      AddItemKeeps(before, o, id, product, quantity);
      session.Commit();
      error := None;
    }

    method RemoveItemFromOrder(o: OrderId, product: ProductId) returns (error: Option<Error>)
      requires inventory.session == session && inventory.Ready()
      modifies session
      ensures inventory.Ready()
      ensures ServedAs(old(session.committed), old(inventory.sent), RemoveItem(old(session.committed), o, product), {},
                       error)
    {
      ghost var before := session.committed;
      if o !in session.work.orders {
        return Some(OrderNotFound);
      }
      var order := session.work.orders[o];
      if order.status != Created {
        return Some(InvalidOrderStatus);
      }
      for i := 0 to |order.items|
        invariant session.work == session.committed == before && inventory.sent == old(inventory.sent)
        invariant forall j :: 0 <= j < i ==> order.items[j].product != product
      {
        if order.items[i].product == product {
          session.work := session.work.(orders := session.work.orders[o := order.(items := Without(order.items, i))],
                                        itemOrder := session.work.itemOrder - {order.items[i].id});
          RemoveItemKeeps(before, o, product);
          session.Commit();
          return None;
        }
      }
      error := Some(OrderItemNotFound);
    }
  }
}

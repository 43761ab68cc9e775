/** Restock suggestions, over exact rationals. */
module Replenishment {
  import opened Prelude

  datatype Snapshot = Snapshot(quantity: int, reserved: int, reorderPoint: int) {
    function Available(): int { quantity - reserved }
  }

  datatype Policy = Policy(windowDays: int, horizonDays: int, targetDays: int) {
    /** What the policy's constructor accepts. */
    predicate Valid() { windowDays > 0 && horizonDays > 0 && targetDays > 0 && targetDays >= horizonDays }
  }

  const DEFAULT_POLICY := Policy(30, 7, 30)

  datatype Suggestion = Suggestion(available: int, dailyConsumption: real, daysOfCoverage: Option<real>,
                                   needsRestock: bool, suggestedQuantity: int)

  function DailyConsumption(consumed: int, windowDays: int): real
    requires windowDays > 0
  {
    Max(consumed, 0) as real / windowDays as real
  }

  function DaysOfCoverage(available: int, daily: real): Option<real> {
    if daily <= 0.0 then None else Some(Max(available, 0) as real / daily)
  }

  function Evaluate(s: Snapshot, consumed: int, p: Policy): Suggestion
    requires p.Valid()
  {
    var available := s.Available();
    var daily := DailyConsumption(consumed, p.windowDays);
    var coverage := DaysOfCoverage(available, daily);
    var belowReorderPoint := s.reorderPoint > 0 && available <= s.reorderPoint;
    var runsOutSoon := coverage.Some? && coverage.value <= p.horizonDays as real;
    var needs := belowReorderPoint || runsOutSoon;
    var targetLevel := Max(Ceil(daily * p.targetDays as real), s.reorderPoint + 1);
    var suggested := if needs then Max(targetLevel - available, 0) else 0;
    Suggestion(available, daily, coverage, needs, suggested)
  }

  /** Every figure of a suggestion, in whole numbers: available is what is not reserved; daily consumption times the
      window is what was consumed; coverage is told exactly if something was, and is available over daily
      consumption. */
  lemma EvaluationTells(s: Snapshot, consumed: int, p: Policy)
    requires p.Valid()
    ensures var r := Evaluate(s, consumed, p);
            && r.available == s.quantity - s.reserved
            && r.dailyConsumption * p.windowDays as real == Max(consumed, 0) as real
            && (r.daysOfCoverage.None? <==> consumed <= 0)
            && (consumed > 0 ==>
                  r.daysOfCoverage.value * consumed as real == (Max(s.quantity - s.reserved, 0) * p.windowDays) as real)
  {
    var c, w, a := Max(consumed, 0) as real, p.windowDays as real, Max(s.quantity - s.reserved, 0) as real;
    var daily := DailyConsumption(consumed, p.windowDays);
    assert daily * w == c;
    SignOfProduct(daily, w);
    if consumed > 0 {
      var v := a / daily;
      assert v * daily == a;
      assert v * c == a * w by { assert v * (daily * w) == v * daily * w; }
      assert a * w == (Max(s.quantity - s.reserved, 0) * p.windowDays) as real;
    }
  }

  /** Coverages over the same window compare like the cross products of available and consumed. */
  lemma CoverageOrder(v: real, v': real, a: int, a': int, c: int, c': int, w: int)
    requires w > 0 && c > 0 && c' > 0 && v * c as real == (a * w) as real && v' * c' as real == (a' * w) as real
    ensures v < v' <==> a * c' < a' * c
    ensures v == v' <==> a * c' == a' * c
  {
    var k := c as real * c' as real;
    assert k > 0.0;
    assert v * k == (a * c' * w) as real by {
      assert v * k == v * c as real * c' as real;
      assert (a * w) as real * c' as real == (a * w * c') as real;
      assert a * w * c' == a * c' * w;
    }
    assert v' * k == (a' * c * w) as real by {
      assert v' * k == v' * c' as real * c as real;
      assert (a' * w) as real * c as real == (a' * w * c) as real;
      assert a' * w * c == a' * c * w;
    }
    SignOfProduct(v - v', k);
    assert (v - v') * k == v * k - v' * k;
    IntSign(a * c' - a' * c, w);
    assert (a * c' - a' * c) * w == a * c' * w - a' * c * w;
  }

  // ---- the same tests on whole numbers

  /** `x / w <= y` for a positive `w`. */
  lemma DivisionTest(x: int, w: int, y: int)
    requires w > 0
    ensures x as real / w as real <= y as real <==> x <= y * w
  {
    var q := x as real / w as real;
    assert q * w as real == x as real;
    if q <= y as real {
      assert q * w as real <= y as real * w as real;
    } else {
      assert q * w as real > y as real * w as real;
    }
    assert y as real * w as real == (y * w) as real;
  }

  /** The stock runs out within the horizon exactly when there is demand and the horizon's demand covers it. */
  ghost predicate RunsOutSoon(available: int, consumed: int, p: Policy) {
    consumed > 0 && Max(available, 0) * p.windowDays <= p.horizonDays * consumed
  }

  ghost predicate Below(s: Snapshot) { s.reorderPoint > 0 && s.Available() <= s.reorderPoint }

  /** `x` more units leave the row above its reorder point with the target days of demand covered. */
  ghost predicate Suffices(s: Snapshot, consumed: int, p: Policy, x: int) {
    && s.Available() + x > s.reorderPoint
    && (s.Available() + x) * p.windowDays >= Max(consumed, 0) * p.targetDays
  }

  lemma CoverageTest(available: int, consumed: int, p: Policy)
    requires p.Valid()
    ensures var coverage := DaysOfCoverage(available, DailyConsumption(consumed, p.windowDays));
            (coverage.Some? && coverage.value <= p.horizonDays as real) <==> RunsOutSoon(available, consumed, p)
  {
    var a, c, w, h := Max(available, 0) as real, Max(consumed, 0) as real, p.windowDays as real, p.horizonDays as real;
    var daily := DailyConsumption(consumed, p.windowDays);
    assert daily * w == c;
    if consumed > 0 {
      SignOfProduct(daily, w);
      RatioTest(a, daily, w, c, h);
      assert a * w == (Max(available, 0) * p.windowDays) as real;
      assert h * c == (p.horizonDays * consumed) as real;
    } else {
      SignOfProduct(daily, w);
    }
  }

  lemma SignOfProduct(x: real, w: real)
    requires w > 0.0
    ensures (x > 0.0 <==> x * w > 0.0) && (x < 0.0 <==> x * w < 0.0)
  {
  }

  lemma RatioTest(a: real, daily: real, w: real, c: real, h: real)
    requires daily > 0.0 && w > 0.0 && daily * w == c
    ensures a / daily <= h <==> a * w <= h * c
  {
    var q := a / daily;
    assert q * daily == a;
    assert a * w == q * c by { assert q * daily * w == q * (daily * w); }
    assert c > 0.0 by { assert daily * w > 0.0; }
    if q <= h { assert q * c <= h * c; } else { assert q * c > h * c; }
  }

  lemma TargetTest(consumed: int, p: Policy, y: int)
    requires p.Valid()
    ensures Ceil(DailyConsumption(consumed, p.windowDays) * p.targetDays as real) <= y
       <==> Max(consumed, 0) * p.targetDays <= y * p.windowDays
  {
    var x := DailyConsumption(consumed, p.windowDays) * p.targetDays as real;
    assert Ceil(x) <= y <==> x <= y as real;
    var c, w, t := Max(consumed, 0) as real, p.windowDays as real, p.targetDays as real;
    assert x == (Max(consumed, 0) * p.targetDays) as real / w by {
      assert c / w * t == c * t / w;
      assert c * t == (Max(consumed, 0) * p.targetDays) as real;
    }
    DivisionTest(Max(consumed, 0) * p.targetDays, p.windowDays, y);
  }

  /** The level a restock aims for. */
  function TargetLevel(s: Snapshot, consumed: int, p: Policy): int
    requires p.Valid()
  {
    Max(Ceil(DailyConsumption(consumed, p.windowDays) * p.targetDays as real), s.reorderPoint + 1)
  }

  lemma SufficesTest(s: Snapshot, consumed: int, p: Policy, x: int)
    requires p.Valid()
    ensures Suffices(s, consumed, p, x) <==> TargetLevel(s, consumed, p) <= s.Available() + x
  {
    TargetTest(consumed, p, s.Available() + x);
  }

  lemma NeedTest(s: Snapshot, consumed: int, p: Policy)
    requires p.Valid()
    ensures var r := Evaluate(s, consumed, p);
            && (r.needsRestock <==> Below(s) || RunsOutSoon(s.Available(), consumed, p))
            && r.suggestedQuantity == if r.needsRestock then Max(TargetLevel(s, consumed, p) - s.Available(), 0) else 0
  {
    CoverageTest(s.Available(), consumed, p);
  }

  /** When a restock is needed the suggestion is the least quantity that suffices; otherwise it is zero. */
  lemma SuggestionIsLeast(s: Snapshot, consumed: int, p: Policy, x: int)
    requires p.Valid()
    ensures var r := Evaluate(s, consumed, p);
            && (r.needsRestock <==> Below(s) || RunsOutSoon(s.Available(), consumed, p))
            && r.suggestedQuantity >= 0
            && (r.needsRestock ==> Suffices(s, consumed, p, r.suggestedQuantity))
            && (r.needsRestock && x >= 0 && Suffices(s, consumed, p, x) ==> r.suggestedQuantity <= x)
            && (!r.needsRestock ==> r.suggestedQuantity == 0)
  {
    NeedTest(s, consumed, p);
    SufficesTest(s, consumed, p, Evaluate(s, consumed, p).suggestedQuantity);
    SufficesTest(s, consumed, p, x);
  }

  /** Once the suggested quantity is in stock nothing more is suggested. */
  lemma RestockingSettles(s: Snapshot, consumed: int, p: Policy)
    requires p.Valid()
    ensures var x := Evaluate(s, consumed, p).suggestedQuantity;
            Evaluate(s.(quantity := s.quantity + x), consumed, p).suggestedQuantity == 0
  {
    var x := Evaluate(s, consumed, p).suggestedQuantity;
    var s' := s.(quantity := s.quantity + x);
    SuggestionIsLeast(s, consumed, p, x);
    SuggestionIsLeast(s', consumed, p, 0);
    if Evaluate(s, consumed, p).needsRestock {
      assert Suffices(s', consumed, p, 0);
    } else {
      assert s' == s;
    }
  }

  /** The suggestion falls when more is available, and rises with consumption and with the horizon. */
  lemma SuggestionIsMonotone(s: Snapshot, s': Snapshot, consumed: int, consumed': int, p: Policy, p': Policy)
    requires p.Valid() && p'.Valid()
    requires s'.reorderPoint == s.reorderPoint && s'.Available() <= s.Available()
    requires consumed <= consumed'
    requires p' == p.(horizonDays := p'.horizonDays) && p.horizonDays <= p'.horizonDays
    ensures Evaluate(s, consumed, p).suggestedQuantity <= Evaluate(s', consumed', p').suggestedQuantity
    ensures Evaluate(s, consumed, p).needsRestock ==> Evaluate(s', consumed', p').needsRestock
  {
    var x' := Evaluate(s', consumed', p').suggestedQuantity;
    SuggestionIsLeast(s, consumed, p, x');
    SuggestionIsLeast(s', consumed', p', x');
    if RunsOutSoon(s.Available(), consumed, p) {
      RunsOutSooner(s, s', consumed, consumed', p, p');
    }
    if Evaluate(s', consumed', p').needsRestock {
      LessSuffices(s, s', consumed, consumed', p, x');
    }
  }

  lemma Product(a: int, b: int, c: int, d: int)
    requires 0 <= a <= b && 0 <= c <= d
    ensures a * c <= b * d
  {
    assert a * c <= b * c && b * c <= b * d;
  }

  lemma RunsOutSooner(s: Snapshot, s': Snapshot, consumed: int, consumed': int, p: Policy, p': Policy)
    requires p.Valid() && RunsOutSoon(s.Available(), consumed, p) && s'.Available() <= s.Available()
             && consumed <= consumed'
    requires p'.windowDays == p.windowDays && p.horizonDays <= p'.horizonDays
    ensures RunsOutSoon(s'.Available(), consumed', p')
  {
    Product(Max(s'.Available(), 0), Max(s.Available(), 0), p.windowDays, p.windowDays);
    Product(p.horizonDays, p'.horizonDays, consumed, consumed');
  }

  lemma LessSuffices(s: Snapshot, s': Snapshot, consumed: int, consumed': int, p: Policy, x: int)
    requires p.Valid() && s'.reorderPoint == s.reorderPoint && s'.Available() <= s.Available() && consumed <= consumed'
    requires Suffices(s', consumed', p, x)
    ensures Suffices(s, consumed, p, x)
  {
    Product(Max(consumed, 0), Max(consumed', 0), p.targetDays, p.targetDays);
    var a, b := s'.Available() + x, s.Available() + x;
    assert (b - a) * p.windowDays >= 0;
    assert b * p.windowDays == a * p.windowDays + (b - a) * p.windowDays;
  }

  /** A needed restock suggests nothing exactly when the target is the horizon and stock above the reorder point
      covers that demand to the unit; so with a longer target, needing a restock and being suggested one coincide. */
  lemma NeededButNothingSuggested(s: Snapshot, consumed: int, p: Policy)
    requires p.Valid()
    ensures var r := Evaluate(s, consumed, p);
            (r.needsRestock && r.suggestedQuantity == 0) <==>
            && consumed > 0 && p.targetDays == p.horizonDays
            && s.Available() > s.reorderPoint && s.Available() * p.windowDays == consumed * p.horizonDays
    ensures p.targetDays > p.horizonDays ==>
      (Evaluate(s, consumed, p).needsRestock <==> Evaluate(s, consumed, p).suggestedQuantity > 0)
  {
    var a := s.Available();
    SuggestionIsLeast(s, consumed, p, 0);
    if consumed > 0 {
      DemandFits(a, consumed, p);
    }
  }

  /** A unit in stock, one consumed in the window, and a target as long as the horizon. */
  lemma NeededForNothing()
    ensures var r := Evaluate(Snapshot(1, 0, 0), 1, Policy(30, 30, 30));
            r.needsRestock && r.suggestedQuantity == 0
  {
    NeededButNothingSuggested(Snapshot(1, 0, 0), 1, Policy(30, 30, 30));
  }

  /** The two demands a level can cover, the target's being at least the horizon's. */
  lemma DemandFits(a: int, consumed: int, p: Policy)
    requires p.Valid() && consumed > 0
    ensures (RunsOutSoon(a, consumed, p) && a * p.windowDays >= consumed * p.targetDays)
       <==> (p.targetDays == p.horizonDays && a * p.windowDays == consumed * p.horizonDays)
  {
    var extra := (p.targetDays - p.horizonDays) * consumed;
    assert consumed * p.targetDays == consumed * p.horizonDays + extra;
    assert extra >= 0 && (extra == 0 <==> p.targetDays == p.horizonDays)
      by { IntSign(p.targetDays - p.horizonDays, consumed); }
    assert consumed * p.horizonDays > 0 by { IntSign(p.horizonDays, consumed); }
    IntSign(a, p.windowDays);
  }

  lemma IntSign(x: int, w: int)
    requires w > 0
    ensures (x > 0 <==> x * w > 0) && (x < 0 <==> x * w < 0)
  {
  }
}

/** The rate limiter's token bucket: refilled lazily when it is asked, and expiring when idle. */
module TokenBucket {
  import opened Prelude

  datatype Policy = Policy(capacity: int, refill: real) {
    /** The settings accept only positive capacities and refill rates. */
    predicate Valid() { capacity > 0 && refill > 0.0 }
  }

  /** The hash Redis keeps under a bucket's key. */
  datatype Entry = Entry(tokens: real, ts: real)

  datatype Decision = Decision(allowed: bool, remaining: real, retryAfter: real)

  function MinReal(a: real, b: real): real { if a <= b then a else b }

  /** The seconds after which Redis drops an idle bucket. */
  function Ttl(p: Policy): int
    requires p.Valid()
  {
    Ceil(p.capacity as real / p.refill) + 1
  }

  /** The tokens in the bucket at a time; a missing bucket is full. */
  function Level(p: Policy, e: Option<Entry>, now: real): real {
    match e
    case None => p.capacity as real
    case Some(s) =>
      var elapsed := if now - s.ts < 0.0 then 0.0 else now - s.ts;
      MinReal(p.capacity as real, s.tokens + elapsed * p.refill)
  }

  predicate Admits(p: Policy, e: Option<Entry>, now: real, cost: int) { Level(p, e, now) >= cost as real }

  /** The entry a request leaves behind: only an admitted one takes tokens. */
  function Consume(p: Policy, e: Option<Entry>, now: real, cost: int): Entry {
    Entry(Level(p, e, now) - (if Admits(p, e, now, cost) then cost as real else 0.0), now)
  }

  /** What the caller is told. */
  function Decide(p: Policy, e: Option<Entry>, now: real, cost: int): Decision
    requires p.Valid()
  {
    var left := Consume(p, e, now, cost).tokens;
    if Admits(p, e, now, cost) then Decision(true, left, 0.0)
    else Decision(false, left, (cost as real - left) / p.refill)
  }

  /** The script as Redis runs it on one key. */
  class Bucket {
    var entry: Option<Entry>
    var expiresAt: real

    constructor ()
      ensures entry == None
    {
      entry, expiresAt := None, 0.0;
    }

    method Run(p: Policy, now: real, cost: int) returns (d: Decision)
      requires p.Valid()
      modifies this
      ensures entry == Some(Consume(p, old(entry), now, cost))
      ensures d == Decide(p, old(entry), now, cost)
      ensures expiresAt == now + Ttl(p) as real
      ensures d.allowed <==> Level(p, old(entry), now) >= cost as real
      ensures d.remaining == entry.value.tokens == Level(p, old(entry), now) - (if d.allowed then cost as real else 0.0)
      ensures d.allowed ==> d.retryAfter == 0.0
    {
      var capacity := p.capacity as real;
      var tokens, ts := capacity, now;
      if entry.Some? {
        tokens, ts := entry.value.tokens, entry.value.ts;
      }
      var elapsed := now - ts;
      if elapsed < 0.0 {
        elapsed := 0.0;
      }
      tokens := MinReal(capacity, tokens + elapsed * p.refill);
      assert tokens == Level(p, entry, now);
      var allowed := false;
      if tokens >= cost as real {
        allowed := true;
        tokens := tokens - cost as real;
      }
      assert tokens == Consume(p, entry, now, cost).tokens;
      entry := Some(Entry(tokens, now));
      expiresAt := now + (Ceil(p.capacity as real / p.refill) + 1) as real;
      var retryAfter := 0.0;
      if !allowed {
        retryAfter := (cost as real - tokens) / p.refill;
      }
      d := Decision(allowed, tokens, retryAfter);
    }
  }

  // ---- runs

  /** One request: when it came, what it cost, and whether Redis had dropped the key by then. */
  datatype Request = Request(now: real, cost: int, dropped: bool)

  ghost function Found(e: Option<Entry>, r: Request): Option<Entry> { if r.dropped then None else e }

  /** The bucket after a run of requests. */
  ghost function After(p: Policy, rs: seq<Request>): Option<Entry>
    requires p.Valid()
  {
    if rs == [] then None
    else
      var r := rs[|rs| - 1];
      Some(Consume(p, Found(After(p, rs[..|rs| - 1]), r), r.now, r.cost))
  }

  /** Whether the last request of a run is admitted. */
  ghost predicate Admitted(p: Policy, rs: seq<Request>)
    requires p.Valid() && rs != []
  {
    var r := rs[|rs| - 1];
    Admits(p, Found(After(p, rs[..|rs| - 1]), r), r.now, r.cost)
  }

  ghost predicate NoNegativeCost(rs: seq<Request>) { forall i :: 0 <= i < |rs| ==> rs[i].cost >= 0 }

  /** From the i-th request on the clock never goes back and a key is dropped only once its time to live is over; costs
      are never negative. */
  ghost predicate RegularFrom(p: Policy, rs: seq<Request>, i: nat)
    requires p.Valid()
  {
    && NoNegativeCost(rs)
    && (forall j :: i < j < |rs| ==> rs[j - 1].now <= rs[j].now)
    && (forall j :: i < j < |rs| && rs[j].dropped ==> rs[j].now - rs[j - 1].now >= Ttl(p) as real)
  }

  ghost predicate Regular(p: Policy, rs: seq<Request>)
    requires p.Valid()
  {
    RegularFrom(p, rs, 0)
  }

  /** The cost admitted by the requests from the i-th on. */
  ghost function Spent(p: Policy, rs: seq<Request>, i: nat): int
    requires p.Valid() && i <= |rs|
    decreases |rs| - i, |rs|
  {
    if i == |rs| then 0
    else Spent(p, rs[..|rs| - 1], i) + (if Admitted(p, rs) then rs[|rs| - 1].cost else 0)
  }

  lemma LevelInRange(p: Policy, e: Option<Entry>, now: real)
    requires p.Valid() && (e.Some? ==> 0.0 <= e.value.tokens)
    ensures 0.0 <= Level(p, e, now) <= p.capacity as real
  {
    if e.Some? && now - e.value.ts >= 0.0 {
      Scale(0.0, now - e.value.ts, p.refill);
    }
  }

  /** The bucket always holds between nothing and its capacity, whatever the clock does and whenever keys are
      dropped. */
  lemma {:induction false} TokensStayInRange(p: Policy, rs: seq<Request>)
    requires p.Valid() && NoNegativeCost(rs)
    ensures rs == [] ==> After(p, rs) == None
    ensures rs != [] ==>
      && After(p, rs).Some?
      && After(p, rs).value.ts == rs[|rs| - 1].now
      && 0.0 <= After(p, rs).value.tokens <= p.capacity as real
  {
    if rs != [] {
      var n := |rs| - 1;
      TokensStayInRange(p, rs[..n]);
      LevelInRange(p, Found(After(p, rs[..n]), rs[n]), rs[n].now);
    }
  }

  lemma CapacityRefills(p: Policy)
    requires p.Valid()
    ensures Ttl(p) as real * p.refill >= p.capacity as real
  {
    var x := p.capacity as real / p.refill;
    assert x * p.refill == p.capacity as real;
    assert Ttl(p) as real >= x;
    Scale(x, Ttl(p) as real, p.refill);
  }

  /** The time to live is one second more than the least whole seconds that refill the bucket. */
  lemma TtlIsLeast(p: Policy, n: int)
    requires p.Valid()
    ensures Poured(p, n as real) >= p.capacity as real <==> n >= Ttl(p) - 1
  {
    var x := p.capacity as real / p.refill;
    assert x * p.refill == p.capacity as real;
    assert n as real >= x <==> n >= Ceil(x);
    if n as real >= x {
      Scale(x, n as real, p.refill);
    } else {
      ScaleStrictly(n as real, x, p.refill);
    }
  }

  lemma Scale(x: real, y: real, r: real)
    requires x <= y && r >= 0.0
    ensures x * r <= y * r
  {
  }

  /** Dropping a bucket after its time to live changes nothing: it would be full by then. */
  lemma DroppingIsUnobservable(p: Policy, e: Entry, now: real)
    requires p.Valid() && 0.0 <= e.tokens && now - e.ts >= Ttl(p) as real
    ensures Level(p, Some(e), now) == Level(p, None, now)
  {
    CapacityRefills(p);
    Scale(Ttl(p) as real, now - e.ts, p.refill);
  }

  /** The tokens refilled from time zero to `t`, were the bucket without bottom. */
  function Poured(p: Policy, t: real): real { t * p.refill }

  /** Between two requests the level rises by at most the refill of the time between them. */
  lemma LevelRise(p: Policy, prev: Entry, r: Request)
    requires p.Valid() && 0.0 <= prev.tokens && prev.ts <= r.now && (r.dropped ==> r.now - prev.ts >= Ttl(p) as real)
    ensures Level(p, Found(Some(prev), r), r.now) <= prev.tokens + Poured(p, r.now) - Poured(p, prev.ts)
  {
    if r.dropped {
      DroppingIsUnobservable(p, prev, r.now);
    }
  }

  /** A request pays for what it is admitted out of the level it finds. */
  lemma Payment(p: Policy, rs: seq<Request>, i: nat) returns (level: real, paid: int, left: real)
    requires p.Valid() && i < |rs| && RegularFrom(p, rs, i)
    ensures After(p, rs).Some? && left == After(p, rs).value.tokens == level - paid as real
    ensures Spent(p, rs, i) == Spent(p, rs[..|rs| - 1], i) + paid
    ensures level <= p.capacity as real
    ensures |rs| - 1 > i ==>
      var prev := After(p, rs[..|rs| - 1]);
      prev.Some? && level <= prev.value.tokens + Poured(p, rs[|rs| - 1].now) - Poured(p, rs[|rs| - 2].now)
  {
    var r, init := rs[|rs| - 1], rs[..|rs| - 1];
    TokensStayInRange(p, init);
    level := Level(p, Found(After(p, init), r), r.now);
    paid := if Admitted(p, rs) then r.cost else 0;
    left := After(p, rs).value.tokens;
    if |rs| - 1 > i {
      LevelRise(p, After(p, init).value, r);
    }
  }

  lemma {:induction false} SpentIsBounded(p: Policy, rs: seq<Request>, i: nat) returns (left: real)
    requires p.Valid() && i < |rs| && RegularFrom(p, rs, i)
    ensures After(p, rs).Some? && left == After(p, rs).value.tokens
    ensures Spent(p, rs, i) as real + left <= p.capacity as real + Poured(p, rs[|rs| - 1].now) - Poured(p, rs[i].now)
    decreases |rs|
  {
    var n := |rs| - 1;
    var level, paid;
    level, paid, left := Payment(p, rs, i);
    if i < n {
      var before := SpentIsBounded(p, rs[..n], i);
    }
  }

  /** Whatever was asked before, and whatever the clock did before, the cost admitted between two times is at most the
      capacity plus the refill of the time between them. */
  lemma WindowedRate(p: Policy, rs: seq<Request>, i: nat, t1: real, t2: real)
    requires p.Valid() && i < |rs| && RegularFrom(p, rs, i) && t1 <= rs[i].now && rs[|rs| - 1].now <= t2
    ensures Spent(p, rs, i) as real <= p.capacity as real + (t2 - t1) * p.refill
  {
    var left := SpentIsBounded(p, rs, i);
    TokensStayInRange(p, rs);
    PouredBetween(p, t1, rs[i].now, rs[|rs| - 1].now, t2);
  }

  lemma PouredBetween(p: Policy, t1: real, a: real, b: real, t2: real)
    requires p.Valid() && t1 <= a && b <= t2
    ensures Poured(p, b) - Poured(p, a) <= (t2 - t1) * p.refill
  {
    Scale(t1, a, p.refill);
    Scale(b, t2, p.refill);
  }

  lemma Distribute(r: real, a: real, b: real, c: real)
    ensures (b - a) * r + (c - b) * r == (c - a) * r
  {
  }

  /** The clock must not go back: the script then stores the earlier time and refills the same seconds twice. */
  lemma ClockGoingBackBreaksTheBound()
    ensures var p := Policy(1, 1.0);
            var rs := [Request(10.0, 1, false), Request(0.0, 1, false), Request(10.0, 1, false)];
            p.Valid() && Spent(p, rs, 0) == 2 && 2.0 > p.capacity as real + (10.0 - 10.0) * p.refill
  {
    var p := Policy(1, 1.0);
    var a, b, c := Request(10.0, 1, false), Request(0.0, 1, false), Request(10.0, 1, false);
    assert [a, b, c][..2] == [a, b] && [a, b][..1] == [a] && [a][..0] == [];
    assert After(p, [a]) == Some(Entry(0.0, 10.0)) && Spent(p, [a], 0) == 1;
    assert After(p, [a, b]) == Some(Entry(0.0, 0.0)) && Spent(p, [a, b], 0) == 1;
    assert Admitted(p, [a, b, c]);
  }

  // ---- the clock

  /** Requests at given times for given costs, none of which finds its key dropped. */
  ghost function Timed(times: seq<real>, costs: seq<int>): seq<Request>
    requires |times| == |costs|
  {
    seq(|times|, i requires 0 <= i < |times| => Request(times[i], costs[i], false))
  }

  /** The requests from the i-th to the j-th, which does not come at an earlier time, are admitted at most the capacity
      and the refill of the time between them. */
  ghost predicate BoundAt(p: Policy, times: seq<real>, costs: seq<int>, i: nat, j: nat)
    requires p.Valid() && |times| == |costs| && i <= j < |times|
  {
    times[i] <= times[j] ==> WithinRate(p, Timed(times, costs)[..j + 1], i, times[j] - times[i])
  }

  ghost predicate WithinRate(p: Policy, rs: seq<Request>, i: nat, seconds: real)
    requires p.Valid() && i < |rs|
  {
    Spent(p, rs, i) as real <= p.capacity as real + seconds * p.refill
  }

  ghost predicate Payable(costs: seq<int>) { forall k :: 0 <= k < |costs| ==> costs[k] >= 0 }

  /** The bound holds between two requests for every policy and whatever the requests cost. */
  ghost predicate BoundBetween(times: seq<real>, i: nat, j: nat)
    requires i <= j < |times|
  {
    forall p: Policy, costs: seq<int> ::
      p.Valid() && |costs| == |times| && Payable(costs) ==> BoundAt(p, times, costs, i, j)
  }

  ghost predicate BoundHolds(times: seq<real>) {
    forall i: nat, j: nat :: i <= j < |times| ==> BoundBetween(times, i, j)
  }

  /** The clock goes back at the l-th request, between two of which the second does not come at an earlier time. */
  ghost predicate BackStep(times: seq<real>, i: nat, l: nat, j: nat)
    requires i < l <= j < |times|
  {
    times[i] <= times[j] && times[l] < times[l - 1]
  }

  ghost predicate NoBackStep(times: seq<real>) {
    forall i: nat, l: nat, j: nat :: i < l <= j < |times| ==> !BackStep(times, i, l, j)
  }

  lemma ForwardKeepsTheBound(p: Policy, times: seq<real>, costs: seq<int>, i: nat, j: nat)
    requires p.Valid() && |times| == |costs| && i <= j < |times| && NoBackStep(times) && Payable(costs)
    ensures BoundAt(p, times, costs, i, j)
  {
    if times[i] <= times[j] {
      var rs := Timed(times, costs)[..j + 1];
      TimedIsRegular(p, times, costs, i, j);
      RateOfRun(p, rs, i, times[i], times[j]);
    }
  }

  lemma TimedIsRegular(p: Policy, times: seq<real>, costs: seq<int>, i: nat, j: nat)
    requires p.Valid() && |times| == |costs| && i <= j < |times| && NoBackStep(times) && times[i] <= times[j]
    requires Payable(costs)
    ensures RegularFrom(p, Timed(times, costs)[..j + 1], i)
  {
    forall l | i < l <= j ensures times[l - 1] <= times[l] {
      assert !BackStep(times, i, l, j);
    }
  }

  lemma RateOfRun(p: Policy, rs: seq<Request>, i: nat, t1: real, t2: real)
    requires p.Valid() && i < |rs| && RegularFrom(p, rs, i) && t1 == rs[i].now && rs[|rs| - 1].now == t2
    ensures WithinRate(p, rs, i, t2 - t1)
  {
    WindowedRate(p, rs, i, t1, t2);
  }

  // ---- a back step refills the same seconds twice

  /** Requests that cost nothing leave the bucket full, whatever the clock does. */
  lemma {:induction false} FreeRequestsLeaveFull(p: Policy, rs: seq<Request>)
    requires p.Valid() && forall i :: 0 <= i < |rs| ==> rs[i].cost == 0
    ensures After(p, rs).Some? ==> After(p, rs).value.tokens == p.capacity as real
  {
    if rs != [] {
      var n := |rs| - 1;
      FreeRequestsLeaveFull(p, rs[..n]);
      FreeLevel(p, Found(After(p, rs[..n]), rs[n]), rs[n].now);
    }
  }

  lemma FreeLevel(p: Policy, e: Option<Entry>, now: real)
    requires p.Valid() && (e.Some? ==> e.value.tokens == p.capacity as real)
    ensures Level(p, e, now) == p.capacity as real
  {
    if e.Some? && now - e.value.ts > 0.0 {
      Scale(0.0, now - e.value.ts, p.refill);
    }
  }

  function Forth(a: real, b: real): real { if a <= b then b - a else 0.0 }

  /** The sum of the forward steps from the i-th time to the j-th. */
  ghost function Forward(times: seq<real>, i: nat, j: nat): real
    requires i <= j < |times|
  {
    if i == j then 0.0 else Forward(times, i, j - 1) + Forth(times[j - 1], times[j])
  }

  /** It is at least the time between them, and more if there is a back step. */
  lemma {:induction false} ForwardExceeds(times: seq<real>, i: nat, l: nat, j: nat)
    requires i < l <= j < |times|
    ensures Forward(times, i, j) >= times[j] - times[i] && Forward(times, i, j) >= Forward(times, i, j - 1) >= 0.0
    ensures times[l] < times[l - 1] ==> Forward(times, i, j) > times[j] - times[i]
    decreases j
  {
    if j - 1 > i {
      ForwardExceeds(times, i, if l < j then l else j - 1, j - 1);
    }
  }

  /** Between a request for the whole capacity and another one only free ones come. */
  function Costs(n: nat, i: nat, capacity: int, j: nat, last: int): seq<int> {
    seq(n, k requires 0 <= k < n => if k == i then capacity else if k == j then last else 0)
  }

  /** The tokens refilled by the forward steps since the i-th request. */
  ghost function Refilled(p: Policy, rs: seq<Request>, i: nat): real
    requires i < |rs|
  {
    var n := |rs| - 1;
    if n == i then 0.0 else Refilled(p, rs[..n], i) + Poured(p, Forth(rs[n - 1].now, rs[n].now))
  }

  lemma {:induction false} RefilledIsForward(p: Policy, times: seq<real>, costs: seq<int>, i: nat, n: nat)
    requires |times| == |costs| && i <= n < |times|
    ensures Refilled(p, Timed(times, costs)[..n + 1], i) == Poured(p, Forward(times, i, n))
    decreases n
  {
    var rs := Timed(times, costs);
    assert rs[..n + 1][..n] == rs[..n];
    if n > i {
      RefilledIsForward(p, times, costs, i, n - 1);
      PouredTwice(p, Forward(times, i, n - 1), Forth(times[n - 1], times[n]));
    }
  }

  lemma PouredTwice(p: Policy, a: real, b: real)
    ensures Poured(p, a) + Poured(p, b) == Poured(p, a + b)
  {
  }

  lemma PouredMore(p: Policy, a: real, b: real)
    requires p.Valid() && a <= b
    ensures Poured(p, a) <= Poured(p, b) && (0.0 <= a ==> 0.0 <= Poured(p, a))
  {
    Scale(a, b, p.refill);
    if 0.0 <= a { Scale(0.0, a, p.refill); }
  }

  /** A request for the whole capacity, with free ones before and after it. */
  ghost predicate OneBurst(p: Policy, rs: seq<Request>, i: nat) {
    && i < |rs| && rs[i].cost == p.capacity
    && forall k :: 0 <= k < |rs| ==> !rs[k].dropped && (k != i ==> rs[k].cost == 0)
  }

  /** After it the bucket holds the refill of the forward steps since. */
  lemma {:induction false} RefillsForward(p: Policy, rs: seq<Request>, i: nat)
    requires p.Valid() && OneBurst(p, rs, i) && Refilled(p, rs, i) <= p.capacity as real
    ensures After(p, rs) == Some(Entry(Refilled(p, rs, i), rs[|rs| - 1].now)) && Refilled(p, rs, i) >= 0.0
    ensures Spent(p, rs, i) == p.capacity
  {
    var n := |rs| - 1;
    if n == i {
      FreeRequestsLeaveFull(p, rs[..n]);
      FreeLevel(p, After(p, rs[..n]), rs[n].now);
      assert Admitted(p, rs);
      assert Spent(p, rs[..n], i) == 0;
    } else {
      PouredMore(p, Forth(rs[n - 1].now, rs[n].now), Forth(rs[n - 1].now, rs[n].now));
      RefillsForward(p, rs[..n], i);
      RefillStep(p, Refilled(p, rs[..n], i), rs[n - 1].now, rs[n].now);
    }
  }

  lemma RefillStep(p: Policy, tokens: real, before: real, now: real)
    requires p.Valid() && tokens + Poured(p, Forth(before, now)) <= p.capacity as real
    ensures Level(p, Some(Entry(tokens, before)), now) == tokens + Poured(p, Forth(before, now))
  {
  }

  /** The policy for which one more unit is admitted than the bound allows. */
  function Refuting(forward: real, seconds: real): Policy
    requires forward > seconds >= 0.0
  {
    var refill := 1.0 / (forward - seconds);
    Policy(Ceil(forward * refill) + 1, refill)
  }

  lemma RefutingIsValid(forward: real, seconds: real)
    requires forward > seconds >= 0.0
    ensures var p := Refuting(forward, seconds);
            && p.Valid() && 0.0 < Poured(p, forward) <= p.capacity as real
            && Poured(p, forward) == Poured(p, seconds) + 1.0
  {
    var r := 1.0 / (forward - seconds);
    assert r * (forward - seconds) == 1.0;
    assert r > 0.0;
    assert forward * r == seconds * r + 1.0;
    Scale(0.0, seconds, r);
  }

  /** The last request is admitted what the forward steps have refilled. */
  lemma LastIsAdmitted(p: Policy, rs: seq<Request>, i: nat, last: int)
    requires p.Valid() && i + 1 < |rs| && OneBurst(p, rs[..|rs| - 1], i) && !rs[|rs| - 1].dropped
             && rs[|rs| - 1].cost == last
    requires 0 <= last && last as real <= Refilled(p, rs, i) <= p.capacity as real
    ensures Spent(p, rs, i) == p.capacity + last
  {
    var n := |rs| - 1;
    PouredMore(p, Forth(rs[n - 1].now, rs[n].now), Forth(rs[n - 1].now, rs[n].now));
    RefillsForward(p, rs[..n], i);
    RefillStep(p, Refilled(p, rs[..n], i), rs[n - 1].now, rs[n].now);
    assert Admitted(p, rs);
  }

  lemma BurstOfCosts(times: seq<real>, i: nat, j: nat, p: Policy, last: int)
    requires i < j < |times|
    ensures var rs := Timed(times, Costs(|times|, i, p.capacity, j, last))[..j + 1];
            OneBurst(p, rs[..j], i) && !rs[j].dropped && rs[j].cost == last
  {
  }

  lemma BackwardsBreaksTheBound(times: seq<real>, i: nat, l: nat, j: nat)
    requires i < l <= j < |times| && BackStep(times, i, l, j)
    ensures !BoundBetween(times, i, j)
  {
    ForwardExceeds(times, i, l, j);
    var forward, seconds := Forward(times, i, j), times[j] - times[i];
    var p := Refuting(forward, seconds);
    RefutingIsValid(forward, seconds);
    var last := Poured(p, forward).Floor;
    var costs := Costs(|times|, i, p.capacity, j, last);
    RefilledIsForward(p, times, costs, i, j);
    BurstOfCosts(times, i, j, p, last);
    LastIsAdmitted(p, Timed(times, costs)[..j + 1], i, last);
    assert last as real > Poured(p, seconds);
    assert !WithinRate(p, Timed(times, costs)[..j + 1], i, seconds);
    assert Payable(costs) && !BoundAt(p, times, costs, i, j);
  }

  lemma ForwardIsBounded(times: seq<real>, i: nat, j: nat)
    requires i <= j < |times| && NoBackStep(times)
    ensures BoundBetween(times, i, j)
  {
    forall p: Policy, costs: seq<int> | p.Valid() && |costs| == |times| && Payable(costs)
      ensures BoundAt(p, times, costs, i, j)
    {
      ForwardKeepsTheBound(p, times, costs, i, j);
    }
  }

  /** For a sequence of request times the bound holds, for every policy and whatever the requests cost, between any two
      of them of which the second does not come at an earlier time, exactly if between no such two the clock goes
      back. */
  lemma BoundHoldsIff(times: seq<real>)
    ensures BoundHolds(times) <==> NoBackStep(times)
  {
    if NoBackStep(times) {
      forall i: nat, j: nat | i <= j < |times| ensures BoundBetween(times, i, j) {
        ForwardIsBounded(times, i, j);
      }
    } else {
      var i: nat, l: nat, j: nat :| i < l <= j < |times| && BackStep(times, i, l, j);
      BackwardsBreaksTheBound(times, i, l, j);
    }
  }

  /** A clock that only goes back breaks no bound: nothing is refilled. */
  lemma OnlyBackKeepsTheBound()
    ensures BoundHolds([10.0, 0.0])
  {
    BoundHoldsIff([10.0, 0.0]);
  }

  // ---- the simple bucket

  /** A bucket that never expires and is refilled whenever time passes. */
  datatype Event = Tick(elapsed: real) | Ask(cost: int)

  datatype Simple = Simple(level: real, now: real)

  function SimpleStep(p: Policy, s: Simple, e: Event): (Simple, bool) {
    match e
    case Tick(d) => (Simple(MinReal(p.capacity as real, s.level + d * p.refill), s.now + d), false)
    case Ask(cost) =>
      if s.level >= cost as real then (Simple(s.level - cost as real, s.now), true) else (s, false)
  }

  ghost function SimpleAfter(p: Policy, start: Simple, es: seq<Event>): Simple {
    if es == [] then start else SimpleStep(p, SimpleAfter(p, start, es[..|es| - 1]), es[|es| - 1]).0
  }

  ghost predicate Timely(es: seq<Event>) {
    forall i :: 0 <= i < |es| ==> if es[i].Tick? then es[i].elapsed >= 0.0 else es[i].cost >= 0
  }

  /** The requests that the lazy bucket sees of a history, at the times they come; `dropped` says which of them
      find the key gone. */
  ghost function Asked(start: real, es: seq<Event>, dropped: set<nat>): seq<Request> {
    if es == [] then []
    else
      var init := Asked(start, es[..|es| - 1], dropped);
      match es[|es| - 1]
      case Tick(_) => init
      case Ask(cost) => init + [Request(Clock(start, es), cost, |init| in dropped)]
  }

  ghost function Clock(start: real, es: seq<Event>): real {
    if es == [] then start
    else Clock(start, es[..|es| - 1]) + (if es[|es| - 1].Tick? then es[|es| - 1].elapsed else 0.0)
  }

  ghost function Full(p: Policy, start: real): Simple { Simple(p.capacity as real, start) }

  lemma {:induction false} SimpleInRange(p: Policy, start: real, es: seq<Event>)
    requires p.Valid() && Timely(es)
    ensures var s := SimpleAfter(p, Full(p, start), es);
            0.0 <= s.level <= p.capacity as real && s.now == Clock(start, es)
  {
    if es != [] {
      SimpleInRange(p, start, es[..|es| - 1]);
    }
  }

  /** Refilling in two goes is refilling once. */
  lemma SplitRefill(p: Policy, s: Simple, d: real, d': real)
    requires p.Valid() && d >= 0.0 && d' >= 0.0
    ensures SimpleStep(p, SimpleStep(p, s, Tick(d)).0, Tick(d')).0 == SimpleStep(p, s, Tick(d + d')).0
  {
    Scale(0.0, d', p.refill);
    assert (d + d') * p.refill == d * p.refill + d' * p.refill;
  }

  /** A request that takes nothing, because it is denied or costs nothing, changes no later level of the script's
      bucket. */
  lemma DeniedLeavesNoTrace(p: Policy, e: Option<Entry>, now: real, cost: int, later: real)
    requires p.Valid() && now <= later && (e.Some? ==> e.value.ts <= now)
    requires !Admits(p, e, now, cost) || cost == 0
    ensures Level(p, Some(Consume(p, e, now, cost)), later) == Level(p, e, later)
  {
    Scale(0.0, later - now, p.refill);
    if e.Some? {
      Distribute(p.refill, e.value.ts, now, later);
    }
  }

  lemma TickAgrees(p: Policy, e: Option<Entry>, s: Simple, d: real)
    requires p.Valid() && d >= 0.0 && (e.Some? ==> e.value.ts <= s.now) && Level(p, e, s.now) == s.level
    ensures Level(p, e, s.now + d) == SimpleStep(p, s, Tick(d)).0.level
  {
    Scale(0.0, d, p.refill);
    if e.Some? {
      Distribute(p.refill, e.value.ts, s.now, s.now + d);
    }
  }

  /** One request on a bucket that may have expired, against the simple bucket at the same level. */
  lemma AskAgrees(p: Policy, e: Option<Entry>, r: Request, s: Simple)
    requires p.Valid() && Level(p, e, r.now) == s.level && 0.0 <= s.level <= p.capacity as real && r.cost >= 0
    requires e.Some? ==> 0.0 <= e.value.tokens && (r.dropped ==> r.now - e.value.ts >= Ttl(p) as real)
    ensures var (s', admitted) := SimpleStep(p, s, Ask(r.cost));
            && (Admits(p, Found(e, r), r.now, r.cost) <==> admitted)
            && Level(p, Some(Consume(p, Found(e, r), r.now, r.cost)), r.now) == s'.level
  {
    if r.dropped && e.Some? {
      DroppingIsUnobservable(p, e.value, r.now);
    }
  }

  /** The lazy bucket after one more request of a history, and its answer. */
  lemma OneMoreAsk(p: Policy, start: real, es: seq<Event>, dropped: set<nat>) returns (r: Request)
    requires p.Valid() && es != [] && es[|es| - 1].Ask? && Regular(p, Asked(start, es, dropped))
    ensures var init, rs := Asked(start, es[..|es| - 1], dropped), Asked(start, es, dropped);
            && rs == init + [r] && r.cost == es[|es| - 1].cost
               && r.now == Clock(start, es) == Clock(start, es[..|es| - 1])
            && Regular(p, init)
            && After(p, rs) == Some(Consume(p, Found(After(p, init), r), r.now, r.cost))
            && (Admitted(p, rs) <==> Admits(p, Found(After(p, init), r), r.now, r.cost))
            && (init != [] && r.dropped ==> r.now - init[|init| - 1].now >= Ttl(p) as real)
  {
    var init, rs := Asked(start, es[..|es| - 1], dropped), Asked(start, es, dropped);
    r := rs[|init|];
    assert rs[..|init|] == init;
    assert forall i :: 0 <= i < |init| ==> init[i] == rs[i];
  }

  /** However time is split into ticks, whichever requests were denied before and whenever idle keys are dropped,
      the lazy bucket stands at the level of the simple one. */
  lemma {:induction false} LazyRefinesSimple(p: Policy, start: real, es: seq<Event>, dropped: set<nat>)
    returns (e: Option<Entry>, s: Simple)
    requires p.Valid() && Timely(es) && Regular(p, Asked(start, es, dropped))
    ensures e == After(p, Asked(start, es, dropped)) && s == SimpleAfter(p, Full(p, start), es)
    ensures s.now == Clock(start, es) && (e.Some? ==> e.value.ts <= s.now)
    ensures Level(p, e, s.now) == s.level
    decreases |es|, 1
  {
    if es == [] {
      e, s := None, Full(p, start);
    } else if es[|es| - 1].Tick? {
      e, s := LazyRefinesSimple(p, start, es[..|es| - 1], dropped);
      TickAgrees(p, e, s, es[|es| - 1].elapsed);
      s := SimpleStep(p, s, es[|es| - 1]).0;
    } else {
      e, s := AskRefinesSimple(p, start, es, dropped);
    }
  }

  lemma {:induction false} AskRefinesSimple(p: Policy, start: real, es: seq<Event>, dropped: set<nat>)
    returns (e: Option<Entry>, s: Simple)
    requires p.Valid() && Timely(es) && Regular(p, Asked(start, es, dropped)) && es != [] && es[|es| - 1].Ask?
    ensures e == After(p, Asked(start, es, dropped)) && s == SimpleAfter(p, Full(p, start), es)
    ensures s.now == Clock(start, es) && e.Some? && e.value.ts == s.now
    ensures Level(p, e, s.now) == s.level
    decreases |es|, 0
  {
    var n := |es| - 1;
    var r := OneMoreAsk(p, start, es, dropped);
    var before, s' := LazyRefinesSimple(p, start, es[..n], dropped);
    SimpleInRange(p, start, es[..n]);
    TokensStayInRange(p, Asked(start, es[..n], dropped));
    AskAgrees(p, before, r, s');
    e, s := Some(Consume(p, Found(before, r), r.now, r.cost)), SimpleStep(p, s', es[n]).0;
  }

  /** ... and admits exactly the same requests. */
  lemma LazyAnswersAlike(p: Policy, start: real, es: seq<Event>, dropped: set<nat>)
    requires p.Valid() && Timely(es) && Regular(p, Asked(start, es, dropped)) && es != [] && es[|es| - 1].Ask?
    ensures Asked(start, es, dropped) != []
    ensures Admitted(p, Asked(start, es, dropped))
       <==> SimpleStep(p, SimpleAfter(p, Full(p, start), es[..|es| - 1]), es[|es| - 1]).1
  {
    var n := |es| - 1;
    var r := OneMoreAsk(p, start, es, dropped);
    var e, s := LazyRefinesSimple(p, start, es[..n], dropped);
    SimpleInRange(p, start, es[..n]);
    TokensStayInRange(p, Asked(start, es[..n], dropped));
    AskAgrees(p, e, r, s);
  }

  // ---- the headers

  /** A denied request of at most the capacity is admitted after a further delay exactly when the delay is at least
      `retryAfter`, whether or not the key is dropped meanwhile. */
  lemma RetryAfterIsExact(p: Policy, e: Option<Entry>, now: real, cost: int, later: Request)
    requires p.Valid() && 0 <= cost <= p.capacity && later.cost == cost && later.now >= now
    requires e.Some? ==> 0.0 <= e.value.tokens
    requires !Admits(p, e, now, cost)
    requires later.dropped ==> later.now - now >= Ttl(p) as real
    ensures Admits(p, Found(Some(Consume(p, e, now, cost)), later), later.now, cost)
            <==> later.now - now >= Decide(p, e, now, cost).retryAfter
  {
    var e' := Consume(p, e, now, cost);
    LevelInRange(p, e, now);
    if later.dropped {
      DroppingIsUnobservable(p, e', later.now);
    }
    var wait, retry := later.now - now, Decide(p, e, now, cost).retryAfter;
    assert retry * p.refill == cost as real - e'.tokens;
    if wait >= retry {
      Scale(retry, wait, p.refill);
    } else {
      ScaleStrictly(wait, retry, p.refill);
    }
  }

  lemma ScaleStrictly(x: real, y: real, r: real)
    requires x < y && r > 0.0
    ensures x * r < y * r
  {
  }

  datatype Headers = Headers(limit: int, remaining: int, retryAfter: Option<int>)

  function Answer(p: Policy, d: Decision): (bool, Headers) {
    (d.allowed, if d.allowed then Headers(p.capacity, d.remaining.Floor, None)
                else Headers(p.capacity, 0, Some(Max(1, Ceil(d.retryAfter)))))
  }

  /** `n` is the least positive number of whole seconds that refills `missing` tokens. */
  ghost predicate LeastWait(p: Policy, missing: real, n: int) {
    n >= 1 && Poured(p, n as real) >= missing && (n > 1 ==> Poured(p, (n - 1) as real) < missing)
  }

  /** What the headers say: the limit, the whole tokens left for an admitted request, and for a denied one the least
      positive whole seconds that refill what it lacks. */
  ghost predicate Tells(p: Policy, level: real, cost: int, admitted: bool, headers: Headers) {
    && (admitted <==> level >= cost as real)
    && headers.limit == p.capacity
    && (admitted ==> headers.retryAfter.None? && headers.remaining as real <= level - cost as real
                     && level - cost as real < headers.remaining as real + 1.0)
    && (!admitted ==>
          && headers.retryAfter.Some? && headers.remaining == 0
          && LeastWait(p, cost as real - level, headers.retryAfter.value))
  }

  lemma PouredStrictly(p: Policy, a: real, b: real)
    requires p.Valid() && a < b
    ensures Poured(p, a) < Poured(p, b)
  {
    ScaleStrictly(a, b, p.refill);
  }

  lemma CeilIsLeast(p: Policy, missing: real)
    requires p.Valid() && missing > 0.0
    ensures LeastWait(p, missing, Max(1, Ceil(missing / p.refill)))
  {
    var x := missing / p.refill;
    var n := Ceil(x);
    assert Poured(p, x) == missing;
    if x <= 0.0 { PouredMore(p, x, 0.0); }
    assert x > 0.0 && n >= 1;
    PouredMore(p, x, n as real);
    PouredStrictly(p, (n - 1) as real, x);
  }

  /** The answer tells the headers of the level that the request finds. */
  lemma AnswerTells(p: Policy, e: Option<Entry>, now: real, cost: int)
    requires p.Valid()
    ensures var (admitted, headers) := Answer(p, Decide(p, e, now, cost));
            Tells(p, Level(p, e, now), cost, admitted, headers)
  {
    if !Admits(p, e, now, cost) {
      CeilIsLeast(p, cost as real - Level(p, e, now));
    }
  }

  /** What the rate limit dependency answers with. */
  method RateLimit(bucket: Bucket, p: Policy, now: real, cost: int) returns (admitted: bool, headers: Headers)
    requires p.Valid()
    modifies bucket
    ensures bucket.entry == Some(Consume(p, old(bucket.entry), now, cost))
    ensures (admitted, headers) == Answer(p, Decide(p, old(bucket.entry), now, cost))
    ensures Tells(p, Level(p, old(bucket.entry), now), cost, admitted, headers)
    ensures bucket.entry == Some(Entry(Level(p, old(bucket.entry), now) - (if admitted then cost as real else 0.0),
                                       now))
  {
    AnswerTells(p, bucket.entry, now, cost);
    var d := bucket.Run(p, now, cost);
    if d.allowed {
      return true, Headers(p.capacity, d.remaining.Floor, None);
    }
    return false, Headers(p.capacity, 0, Some(Max(1, Ceil(d.retryAfter))));
  }

  /** Along any history the rate limit admits exactly the requests that the simple bucket admits. */
  lemma RateLimitAnswersAlike(p: Policy, start: real, es: seq<Event>, dropped: set<nat>)
    requires p.Valid() && Timely(es) && Regular(p, Asked(start, es, dropped)) && es != [] && es[|es| - 1].Ask?
    ensures Asked(start, es, dropped) != []
    ensures var rs := Asked(start, es, dropped);
            var r := rs[|rs| - 1];
            Answer(p, Decide(p, Found(After(p, rs[..|rs| - 1]), r), r.now, r.cost)).0
            <==> SimpleStep(p, SimpleAfter(p, Full(p, start), es[..|es| - 1]), es[|es| - 1]).1
  {
    LazyAnswersAlike(p, start, es, dropped);
  }

  /** Of the positive whole seconds, exactly those from the `Retry-After` header on suffice. */
  lemma RetryHeaderIsLeast(p: Policy, e: Option<Entry>, now: real, cost: int, n: int, later: Request)
    requires p.Valid() && 0 <= cost <= p.capacity && n >= 1
    requires later.cost == cost && later.now == now + n as real
    requires e.Some? ==> 0.0 <= e.value.tokens
    requires !Admits(p, e, now, cost)
    requires later.dropped ==> later.now - now >= Ttl(p) as real
    ensures Admits(p, Found(Some(Consume(p, e, now, cost)), later), later.now, cost)
       <==> n >= Answer(p, Decide(p, e, now, cost)).1.retryAfter.value
  {
    RetryAfterIsExact(p, e, now, cost, later);
    var x := Decide(p, e, now, cost).retryAfter;
    assert n as real >= x <==> n >= Ceil(x);
  }

  /** Waiting the whole seconds of the `Retry-After` header always suffices. */
  lemma RetryHeaderSuffices(p: Policy, e: Option<Entry>, now: real, cost: int, later: Request)
    requires p.Valid() && 0 <= cost <= p.capacity && later.cost == cost
    requires e.Some? ==> 0.0 <= e.value.tokens
    requires !Admits(p, e, now, cost)
    requires later.now >= now + Answer(p, Decide(p, e, now, cost)).1.retryAfter.value as real
    requires later.dropped ==> later.now - now >= Ttl(p) as real
    ensures Admits(p, Found(Some(Consume(p, e, now, cost)), later), later.now, cost)
  {
    RetryAfterIsExact(p, e, now, cost, later);
  }

  /** `n` requests of cost one, asked at once: what they leave, and whether all were admitted. */
  ghost function Burst(p: Policy, e: Entry, now: real, n: nat): (Entry, bool) {
    if n == 0 then (e, true)
    else
      var (e', all) := Burst(p, e, now, n - 1);
      (Consume(p, Some(e'), now, 1), all && Admits(p, Some(e'), now, 1))
  }

  /** An admitted request's remaining header is exactly the number of requests of cost one admitted at once after it; a
      denied one's is zero, though the whole tokens left would still be admitted. */
  lemma {:induction false} RemainingIsExact(p: Policy, e: Option<Entry>, now: real, cost: int, n: nat)
    requires p.Valid() && cost >= 0 && (e.Some? ==> 0.0 <= e.value.tokens)
    ensures var left := Consume(p, e, now, cost).tokens;
            var (e'', all) := Burst(p, Consume(p, e, now, cost), now, n);
            && e''.ts == now
            && (all <==> n <= left.Floor)
            && (all ==> e''.tokens == left - n as real)
            && Answer(p, Decide(p, e, now, cost)).1.remaining == if Admits(p, e, now, cost) then left.Floor else 0
    ensures 0.0 <= Consume(p, e, now, cost).tokens <= p.capacity as real
  {
    LevelInRange(p, e, now);
    if n != 0 {
      RemainingIsExact(p, e, now, cost, n - 1);
    }
  }
}

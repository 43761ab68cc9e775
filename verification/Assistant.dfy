/** The assistant's agent loop against an arbitrary language model, and the daily quota it is charged to. */
module Assistant {
  import opened Prelude

  type UserId = nat

  datatype Usage = Usage(input: nat, output: nat, cacheRead: nat, cacheCreation: nat)

  /** The cost in units of one uncached input token. */
  function Cost(u: Usage): real {
    u.input as real + u.cacheRead as real * 0.05 + u.cacheCreation as real * 1.25 + u.output as real * 5.0
  }

  /** In twentieths of a unit: one for a cached token read, twenty-five for one written, a hundred for an output
      token. */
  lemma CostInTwentieths(u: Usage)
    ensures Cost(u) * 20.0 == (20 * u.input + u.cacheRead + 25 * u.cacheCreation + 100 * u.output) as real
  {
  }

  /** Rounding to the nearest integer, halves to the even one. */
  function Round(x: real): int {
    var f := x.Floor;
    var rest := x - f as real;
    if rest < 0.5 || (rest == 0.5 && f % 2 == 0) then f else f + 1
  }

  lemma RoundIsNearest(x: real)
    ensures -0.5 <= Round(x) as real - x <= 0.5
    ensures (Round(x) as real - x == 0.5 || Round(x) as real - x == -0.5) ==> Round(x) % 2 == 0
  {
  }

  datatype StopReason = Refusal | MaxTokens | PauseTurn | ToolUse | Other

  /** What becomes of the tools of a response: they return, the request's deadline passes while they run, or one of
      them, or the commit after them, raises. */
  datatype Tools = Return | RunLate | Raise

  /** One call of the model: a response, an error, or the request's deadline. */
  datatype Reply =
    | Response(stop: StopReason, text: string, calls: seq<string>, usage: Usage, tools: Tools)
    | LlmError
    | Deadline

  /** What the model says to the n-th call. */
  type Model = nat -> Reply

  /** What comes before the first call: reading the permissions and ending that transaction succeeds, is overtaken by
      the deadline, or raises. */
  datatype Opening = Opens | OpensLate | OpeningRaises

  datatype Answer = Text(text: string) | RefusalAnswer | TruncatedAnswer | EmptyAnswer | MaxIterationsAnswer

  datatype Outcome =
    | Answered(answer: Answer, toolsCalled: seq<string>, iterations: nat)
    | QuotaExceeded
    | TimedOut
    | Unavailable
    | Raised

  datatype Config = Config(maxIterations: int, maxCostPerRequest: int, dailyCostPerUser: int)

  datatype Conversation = Conversation(outcome: Outcome, spent: real, calls: nat)

  /** The loop from its i-th round on, with what was spent and which tools were called so far. */
  function Converse(c: Config, model: Model, i: nat, spent: real, tools: seq<string>): Conversation
    decreases c.maxIterations - i
  {
    if i >= c.maxIterations || Round(spent) >= c.maxCostPerRequest
    then Conversation(Answered(MaxIterationsAnswer, tools, i), spent, i)
    else
      match model(i)
      case LlmError => Conversation(Unavailable, spent, i + 1)
      case Deadline => Conversation(TimedOut, spent, i + 1)
      case Response(stop, text, calls, usage, ending) =>
        var spent' := spent + Cost(usage);
        match stop
        case Refusal => Conversation(Answered(RefusalAnswer, tools, i + 1), spent', i + 1)
        case MaxTokens => Conversation(Answered(TruncatedAnswer, tools, i + 1), spent', i + 1)
        case PauseTurn => Converse(c, model, i + 1, spent', tools)
        case Other =>
          Conversation(Answered(if text == "" then EmptyAnswer else Text(text), tools, i + 1), spent', i + 1)
        case ToolUse =>
          match ending
          case RunLate => Conversation(TimedOut, spent', i + 1)
          case Raise => Conversation(Raised, spent', i + 1)
          case Return => Converse(c, model, i + 1, spent', tools + calls)
  }

  /** The whole request, from its opening on. */
  function Request(c: Config, opening: Opening, model: Model): Conversation {
    match opening
    case Opens => Converse(c, model, 0, 0.0, [])
    case OpensLate => Conversation(TimedOut, 0.0, 0)
    case OpeningRaises => Conversation(Raised, 0.0, 0)
  }

  function Used(counters: map<UserId, int>, user: UserId): int { if user in counters then counters[user] else 0 }

  /** The counters after a charge; nothing is written for a cost that is not positive. */
  function Charged(counters: map<UserId, int>, user: UserId, cost: int): map<UserId, int> {
    if cost <= 0 then counters else counters[user := Used(counters, user) + cost]
  }

  /** The counters after one chat. */
  function AfterChat(c: Config, counters: map<UserId, int>, user: UserId, opening: Opening,
                     model: Model): map<UserId, int> {
    if Used(counters, user) >= c.dailyCostPerUser then counters
    else Charged(counters, user, Round(Request(c, opening, model).spent))
  }

  /** What the calls from the i-th up to the n-th are billed at. */
  ghost function Billed(model: Model, i: nat, n: nat): real
    requires i <= n
    decreases n - i
  {
    if i == n then 0.0 else (if model(i).Response? then Cost(model(i).usage) else 0.0) + Billed(model, i + 1, n)
  }

  ghost predicate GoesOn(reply: Reply) {
    reply.Response? && (reply.stop == PauseTurn || (reply.stop == ToolUse && reply.tools == Return))
  }

  /** Each call from the i-th to before the n-th is made while the bill so far is below the request's budget. */
  ghost predicate EachWithinBudget(c: Config, model: Model, i: nat, n: nat, spent: real) {
    forall j :: i <= j < n ==> Round(spent + Billed(model, i, j)) < c.maxCostPerRequest
  }

  lemma WithinBudgetStep(c: Config, model: Model, i: nat, n: nat, spent: real)
    requires i < n && model(i).Response? && Round(spent) < c.maxCostPerRequest
    requires EachWithinBudget(c, model, i + 1, n, spent + Cost(model(i).usage))
    ensures EachWithinBudget(c, model, i, n, spent)
  {
    forall j | i <= j < n ensures Round(spent + Billed(model, i, j)) < c.maxCostPerRequest {
      if j > i {
        assert spent + Billed(model, i, j) == spent + Cost(model(i).usage) + Billed(model, i + 1, j);
      }
    }
  }

  /** A conversation spends the bill of the calls it made, however it ends; it makes at most `maxIterations` of them,
      each one while the bill so far was below the request's budget and every response before it asked to go on; and
      it ends only when one of these fails. */
  lemma {:induction false} ConversationPaysItsBill(c: Config, model: Model, i: nat, spent: real, tools: seq<string>)
    ensures var r := Converse(c, model, i, spent, tools);
            && i <= r.calls <= Max(c.maxIterations, i)
            && r.spent == spent + Billed(model, i, r.calls)
            && EachWithinBudget(c, model, i, r.calls, spent)
            && (forall j :: i <= j < r.calls - 1 ==> GoesOn(model(j)))
            && (r.calls < c.maxIterations && Round(r.spent) < c.maxCostPerRequest
                ==> i < r.calls && !GoesOn(model(r.calls - 1)))
    decreases c.maxIterations - i
  {
    if i < c.maxIterations && Round(spent) < c.maxCostPerRequest && GoesOn(model(i)) {
      var tools' := if model(i).stop == PauseTurn then tools else tools + model(i).calls;
      ConversationPaysItsBill(c, model, i + 1, spent + Cost(model(i).usage), tools');
      WithinBudgetStep(c, model, i, Converse(c, model, i, spent, tools).calls, spent);
    }
  }

  /** The tools called in the calls from the i-th up to the n-th. */
  ghost function ToolsOf(model: Model, i: nat, n: nat): seq<string>
    requires i <= n
    decreases n - i
  {
    if i == n then []
    else (if model(i).Response? && model(i).stop == ToolUse then model(i).calls else []) + ToolsOf(model, i + 1, n)
  }

  ghost predicate ToldByLast(model: Model, i: nat, tools: seq<string>, r: Conversation) {
    && i <= r.calls
    && (r.outcome.Answered? ==>
          r.outcome.iterations == r.calls && r.outcome.toolsCalled == tools + ToolsOf(model, i, r.calls))
    && (r.calls == i ==> r.outcome.Answered? && r.outcome.answer == MaxIterationsAnswer)
    && (r.calls > i ==> EndsAs(model(r.calls - 1), r.outcome))
  }

  function ToolsAfter(tools: seq<string>, reply: Reply): seq<string>
    requires reply.Response?
  {
    if reply.stop == ToolUse then tools + reply.calls else tools
  }

  lemma GoesOnOnce(c: Config, model: Model, i: nat, spent: real, tools: seq<string>)
    requires i < c.maxIterations && Round(spent) < c.maxCostPerRequest && GoesOn(model(i))
    ensures Converse(c, model, i, spent, tools)
         == Converse(c, model, i + 1, spent + Cost(model(i).usage), ToolsAfter(tools, model(i)))
  {
  }

  lemma LastReplyEnds(c: Config, model: Model, i: nat, spent: real, tools: seq<string>)
    requires i < c.maxIterations && Round(spent) < c.maxCostPerRequest ==> !GoesOn(model(i))
    ensures ToldByLast(model, i, tools, Converse(c, model, i, spent, tools))
  {
    assert ToolsOf(model, i, i) == [] && ToolsOf(model, i + 1, i + 1) == [];
  }

  lemma OneMoreReply(model: Model, i: nat, tools: seq<string>, r: Conversation)
    requires GoesOn(model(i)) && ToldByLast(model, i + 1, ToolsAfter(tools, model(i)), r)
    ensures ToldByLast(model, i, tools, r)
  {
  }

  /** How a conversation ends is told by the last reply; an answer reports every call made and every tool called. */
  lemma {:induction false} LastReplyDecides(c: Config, model: Model, i: nat, spent: real, tools: seq<string>)
    ensures ToldByLast(model, i, tools, Converse(c, model, i, spent, tools))
    decreases c.maxIterations - i
  {
    if i < c.maxIterations && Round(spent) < c.maxCostPerRequest && GoesOn(model(i)) {
      LastReplyDecides(c, model, i + 1, spent + Cost(model(i).usage), ToolsAfter(tools, model(i)));
      GoesOnOnce(c, model, i, spent, tools);
      OneMoreReply(model, i, tools, Converse(c, model, i, spent, tools));
    } else {
      LastReplyEnds(c, model, i, spent, tools);
    }
  }

  ghost predicate EndsAs(reply: Reply, outcome: Outcome) {
    match outcome
    case Unavailable => reply.LlmError?
    case TimedOut => reply.Deadline? || (reply.Response? && reply.stop == ToolUse && reply.tools == RunLate)
    case Raised => reply.Response? && reply.stop == ToolUse && reply.tools == Raise
    case QuotaExceeded => false
    case Answered(answer, _, _) =>
      && reply.Response?
      && match answer
         case RefusalAnswer => reply.stop == Refusal
         case TruncatedAnswer => reply.stop == MaxTokens
         case MaxIterationsAnswer => GoesOn(reply)
         case EmptyAnswer => reply.stop == Other && reply.text == ""
         case Text(text) => reply.stop == Other && text == reply.text != ""
  }

  ghost predicate EachCostsAtMost(model: Model, k: nat) {
    forall n :: model(n).Response? ==> Cost(model(n).usage) <= k as real
  }

  /** The most that one call of at most `k` can take the charge to, from below the budget. */
  function PastBudget(max: int, k: nat): int { if max % 2 == 1 && k % 2 == 1 then max + k else max + k - 1 }

  lemma RoundHalfBelow(n: int)
    ensures Round(n as real - 0.5) == if n % 2 == 0 then n else n - 1
  {
    var x := n as real - 0.5;
    assert x == (n - 1) as real + 0.5;
    assert x.Floor == n - 1;
  }

  lemma RoundIsMonotone(x: real, y: real)
    requires x <= y
    ensures Round(x) <= Round(y)
  {
  }

  lemma RoundedSum(s: real, cost: real, max: int, k: nat)
    requires Round(s) < max && cost <= k as real
    ensures Round(s + cost) <= PastBudget(max, k)
  {
    assert s <= max as real - 0.5 && (max % 2 == 0 ==> s < max as real - 0.5);
    RoundHalfBelow(max + k);
    RoundIsMonotone(s + cost, (max + k) as real - 0.5);
    assert (max + k) % 2 == 0 ==> max % 2 == k % 2;
  }

  ghost predicate BoundedFrom(c: Config, k: nat, spent: real, end: real) {
    end == spent || Round(end) <= PastBudget(c.maxCostPerRequest, k)
  }

  lemma StillBounded(c: Config, k: nat, spent: real, spent': real, end: real)
    requires Round(spent') <= PastBudget(c.maxCostPerRequest, k) && BoundedFrom(c, k, spent', end)
    ensures BoundedFrom(c, k, spent, end)
  {
  }

  lemma EndsBounded(c: Config, model: Model, k: nat, i: nat, spent: real, tools: seq<string>)
    requires EachCostsAtMost(model, k)
    requires i < c.maxIterations && Round(spent) < c.maxCostPerRequest ==> !GoesOn(model(i))
    ensures BoundedFrom(c, k, spent, Converse(c, model, i, spent, tools).spent)
  {
    if i < c.maxIterations && Round(spent) < c.maxCostPerRequest && model(i).Response? {
      RoundedSum(spent, Cost(model(i).usage), c.maxCostPerRequest, k);
    }
  }

  /** The budget is checked before each call, so a request can pass it by what one call costs. */
  lemma {:induction false} RequestIsBounded(c: Config, model: Model, k: nat, i: nat, spent: real, tools: seq<string>)
    requires EachCostsAtMost(model, k)
    ensures BoundedFrom(c, k, spent, Converse(c, model, i, spent, tools).spent)
    ensures PastBudget(c.maxCostPerRequest, k) <= c.maxCostPerRequest + k
    decreases c.maxIterations - i
  {
    if i < c.maxIterations && Round(spent) < c.maxCostPerRequest && GoesOn(model(i)) {
      var spent' := spent + Cost(model(i).usage);
      RoundedSum(spent, Cost(model(i).usage), c.maxCostPerRequest, k);
      GoesOnOnce(c, model, i, spent, tools);
      RequestIsBounded(c, model, k, i + 1, spent', ToolsAfter(tools, model(i)));
      StillBounded(c, k, spent, spent', Converse(c, model, i, spent, tools).spent);
    } else {
      EndsBounded(c, model, k, i, spent, tools);
    }
  }

  /** Calls of at most `k` units spend at most `k` for each call that is left. */
  lemma {:induction false} CallsSpendAtMost(c: Config, model: Model, k: nat, i: nat, spent: real, tools: seq<string>)
    requires EachCostsAtMost(model, k)
    ensures Converse(c, model, i, spent, tools).spent <= spent + (Max(c.maxIterations - i, 0) * k) as real
    decreases c.maxIterations - i
  {
    if i < c.maxIterations && Round(spent) < c.maxCostPerRequest && model(i).Response? {
      assert Max(c.maxIterations - i, 0) * k == Max(c.maxIterations - (i + 1), 0) * k + k;
      assert Max(c.maxIterations - (i + 1), 0) * k >= 0;
      if GoesOn(model(i)) {
        var tools' := if model(i).stop == PauseTurn then tools else tools + model(i).calls;
        CallsSpendAtMost(c, model, k, i + 1, spent + Cost(model(i).usage), tools');
      }
    } else {
      assert Max(c.maxIterations - i, 0) * k >= 0;
    }
  }

  /** The most a request of calls of at most `k` units is charged: all its calls if the last of them can be reached
      below the budget, or else what one call can add to a charge below the budget. */
  function MostCharged(c: Config, k: nat): int {
    if c.maxCostPerRequest <= 0 || c.maxIterations <= 0 then 0
    else if (c.maxIterations - 1) * k < c.maxCostPerRequest then c.maxIterations * k
    else PastBudget(c.maxCostPerRequest, k)
  }

  lemma ChargeIsAtMost(c: Config, model: Model, k: nat)
    requires EachCostsAtMost(model, k)
    ensures Round(Converse(c, model, 0, 0.0, []).spent) <= MostCharged(c, k)
  {
    assert Round(0.0) == 0;
    if c.maxCostPerRequest > 0 && c.maxIterations > 0 {
      CallsSpendAtMost(c, model, k, 0, 0.0, []);
      RequestIsBounded(c, model, k, 0, 0.0, []);
      var all := c.maxIterations * k;
      assert Max(c.maxIterations - 0, 0) * k == all;
      assert Round(all as real) == all;
      RoundIsMonotone(Converse(c, model, 0, 0.0, []).spent, all as real);
    }
  }

  /** A model that never stops thinking: its first call uses `first`, any other one `k` input tokens. */
  function Thinking(first: Usage, k: nat): Model {
    n => Response(PauseTurn, "", [], if n == 0 then first else Usage(k, 0, 0, 0), Return)
  }

  ghost predicate Thinks(model: Model, i: nat, k: nat) {
    model(i) == Response(PauseTurn, "", [], Usage(k, 0, 0, 0), Return)
  }

  /** What is spent after `n` more calls. */
  ghost function After(s: real, n: nat, k: nat): real
    decreases n
  {
    if n == 0 then s else After(s + k as real, n - 1, k)
  }

  lemma {:induction false} AfterIs(s: real, n: nat, k: nat)
    ensures After(s, n, k) == s + (n * k) as real
    decreases n
  {
    if n > 0 {
      AfterIs(s + k as real, n - 1, k);
      assert n * k == (n - 1) * k + k;
    }
  }

  /** Each of `n` more calls begins below the budget. */
  ghost predicate BelowFor(c: Config, s: real, n: nat, k: nat)
    decreases n
  {
    n > 0 ==> Round(s) < c.maxCostPerRequest && BelowFor(c, s + k as real, n - 1, k)
  }

  lemma {:induction false} LastBelowIsAllBelow(c: Config, s: real, n: nat, k: nat)
    requires n > 0 && Round(After(s, n - 1, k)) < c.maxCostPerRequest
    ensures BelowFor(c, s, n, k)
    decreases n
  {
    AfterIs(s, n - 1, k);
    assert (n - 1) * k >= 0;
    RoundIsMonotone(s, After(s, n - 1, k));
    if n > 1 {
      LastBelowIsAllBelow(c, s + k as real, n - 1, k);
    }
  }

  lemma EndsThere(c: Config, model: Model, i: nat, s: real, tools: seq<string>)
    requires i >= c.maxIterations || Round(s) >= c.maxCostPerRequest
    ensures Converse(c, model, i, s, tools).spent == s
  {
  }

  /** As long as the budget is not reached it goes on thinking, and spends accordingly. */
  lemma {:induction false} ThinksOn(c: Config, model: Model, k: nat, i: nat, s: real, n: nat)
    requires i + n <= c.maxIterations && BelowFor(c, s, n, k)
    requires forall j :: i <= j < i + n ==> Thinks(model, j, k)
    requires i + n == c.maxIterations || Round(After(s, n, k)) >= c.maxCostPerRequest
    ensures Converse(c, model, i, s, []).spent == After(s, n, k)
    decreases n
  {
    if n > 0 {
      assert Thinks(model, i, k);
      assert Cost(Usage(k, 0, 0, 0)) == k as real;
      GoesOnOnce(c, model, i, s, []);
      ThinksOn(c, model, k, i + 1, s + k as real, n - 1);
    } else {
      EndsThere(c, model, i, s, []);
    }
  }

  /** The first call of the dearest conversation, which leaves the last one to begin as close to the budget as it
      can. */
  function DearestFirst(c: Config, k: nat): Usage {
    var m := c.maxCostPerRequest;
    if k == 0 || m <= 0 || (c.maxIterations - 1) * k < m then Usage(k, 0, 0, 0)
    else Usage((m - 1) % k, 0, if m % 2 == 1 && k % 2 == 1 then 10 else 0, 0)
  }

  lemma DearestIsAllowed(c: Config, k: nat)
    ensures EachCostsAtMost(Thinking(DearestFirst(c, k), k), k) && Cost(DearestFirst(c, k)) <= k as real
  {
    var m := c.maxCostPerRequest;
    if !(k == 0 || m <= 0 || (c.maxIterations - 1) * k < m) {
      assert 0 <= (m - 1) % k <= k - 1;
    }
    forall n ensures Cost(Thinking(DearestFirst(c, k), k)(n).usage) <= k as real {
      assert Thinking(DearestFirst(c, k), k)(n).usage in {DearestFirst(c, k), Usage(k, 0, 0, 0)};
    }
  }

  lemma FirstThought(c: Config, first: Usage, k: nat)
    requires c.maxIterations > 0 && c.maxCostPerRequest > 0
    ensures Converse(c, Thinking(first, k), 0, 0.0, []) == Converse(c, Thinking(first, k), 1, Cost(first), [])
  {
    assert Round(0.0) == 0;
    assert 0.0 + Cost(first) == Cost(first);
    assert Thinking(first, k)(0) == Response(PauseTurn, "", [], first, Return);
  }

  lemma ProductIsWhole(n: nat, k: nat)
    ensures Round(After(k as real, n, k)) == (n + 1) * k && After(k as real, n, k) == ((n + 1) * k) as real
  {
    AfterIs(k as real, n, k);
    assert (n + 1) * k == n * k + k;
  }

  /** All the calls fit below the budget but for the last. */
  lemma AllCallsAreCharged(c: Config, k: nat)
    requires c.maxCostPerRequest > 0 && c.maxIterations > 0 && (c.maxIterations - 1) * k < c.maxCostPerRequest
    ensures Round(Converse(c, Thinking(DearestFirst(c, k), k), 0, 0.0, []).spent) == c.maxIterations * k
  {
    var n := c.maxIterations - 1;
    FirstThought(c, Usage(k, 0, 0, 0), k);
    assert Cost(Usage(k, 0, 0, 0)) == k as real;
    ProductIsWhole(n, k);
    if n > 0 {
      ProductIsWhole(n - 1, k);
      LastBelowIsAllBelow(c, k as real, n, k);
    }
    ThinksOn(c, Thinking(Usage(k, 0, 0, 0), k), k, 1, k as real, n);
  }

  lemma CallsForBudget(n: int, k: nat, q: nat, f: nat)
    requires n * k > q * k + f
    ensures q + 1 <= n
  {
    assert n <= q ==> n * k <= q * k;
  }

  /** The last call of a conversation that is still below the budget and passes it with that call. */
  lemma LastCallIsPaid(c: Config, first: Usage, k: nat, q: nat, below: real)
    requires c.maxCostPerRequest > 0 && q + 2 <= c.maxIterations && below == After(Cost(first), q, k)
    requires Round(below) < c.maxCostPerRequest <= Round(below + k as real)
    ensures Converse(c, Thinking(first, k), 0, 0.0, []).spent == below + k as real
  {
    FirstThought(c, first, k);
    AfterIs(Cost(first), q, k);
    AfterIs(Cost(first), q + 1, k);
    assert (q + 1) * k == q * k + k;
    LastBelowIsAllBelow(c, Cost(first), q + 1, k);
    ThinksOn(c, Thinking(first, k), k, 1, Cost(first), q + 1);
  }

  function Half(c: Config, k: nat): real { if c.maxCostPerRequest % 2 == 1 && k % 2 == 1 then 0.5 else 0.0 }

  lemma BelowBudget(c: Config, k: nat) returns (q: nat, below: real)
    requires c.maxCostPerRequest > 0 && c.maxIterations > 0 && (c.maxIterations - 1) * k >= c.maxCostPerRequest
    ensures below == After(Cost(DearestFirst(c, k)), q, k) == (c.maxCostPerRequest - 1) as real + Half(c, k)
    ensures q + 2 <= c.maxIterations && k > 0
  {
    var m := c.maxCostPerRequest;
    q := (m - 1) / k;
    var f := (m - 1) % k;
    assert m - 1 == q * k + f;
    assert Cost(DearestFirst(c, k)) == f as real + Half(c, k);
    CallsForBudget(c.maxIterations - 1, k, q, f);
    AfterIs(Cost(DearestFirst(c, k)), q, k);
    below := (m - 1) as real + Half(c, k);
  }

  /** The last call begins just below the budget. */
  lemma LastCallPassesTheBudget(c: Config, k: nat)
    requires c.maxCostPerRequest > 0 && c.maxIterations > 0 && (c.maxIterations - 1) * k >= c.maxCostPerRequest
    ensures Round(Converse(c, Thinking(DearestFirst(c, k), k), 0, 0.0, []).spent) == PastBudget(c.maxCostPerRequest, k)
  {
    var q, below := BelowBudget(c, k);
    JustBelow(c, k, below);
    LastCallIsPaid(c, DearestFirst(c, k), k, q, below);
  }

  lemma JustBelow(c: Config, k: nat, below: real)
    requires k > 0 && below == (c.maxCostPerRequest - 1) as real + Half(c, k)
    ensures Round(below) < c.maxCostPerRequest <= Round(below + k as real) == PastBudget(c.maxCostPerRequest, k)
  {
    var m := c.maxCostPerRequest;
    RoundHalfBelow(m);
    RoundHalfBelow(m + k);
    if Half(c, k) == 0.5 {
      assert below == m as real - 0.5 && below + k as real == (m + k) as real - 0.5;
      assert (m + k) % 2 == 0;
    } else {
      assert Round((m - 1) as real) == m - 1 && below + k as real == (m + k - 1) as real;
      assert Round((m + k - 1) as real) == m + k - 1;
    }
  }

  /** No request of calls of at most `k` units is charged more than that, and some request is charged exactly that. */
  lemma MostARequestIsCharged(c: Config, k: nat)
    ensures forall model :: EachCostsAtMost(model, k) ==>
      Round(Converse(c, model, 0, 0.0, []).spent) <= MostCharged(c, k)
    ensures var model := Thinking(DearestFirst(c, k), k);
            EachCostsAtMost(model, k) && Round(Converse(c, model, 0, 0.0, []).spent) == MostCharged(c, k)
  {
    forall model | EachCostsAtMost(model, k) ensures Round(Converse(c, model, 0, 0.0, []).spent) <= MostCharged(c, k) {
      ChargeIsAtMost(c, model, k);
    }
    DearestIsAllowed(c, k);
    if c.maxCostPerRequest <= 0 || c.maxIterations <= 0 {
      assert Round(0.0) == 0;
    } else if (c.maxIterations - 1) * k < c.maxCostPerRequest {
      AllCallsAreCharged(c, k);
    } else {
      LastCallPassesTheBudget(c, k);
    }
  }

  ghost predicate StaysInBudget(c: Config, k: nat) {
    forall model :: EachCostsAtMost(model, k) ==> Round(Converse(c, model, 0, 0.0, []).spent) <= c.maxCostPerRequest
  }

  /** The budget of a request bounds what it is charged exactly when all the calls it may make fit into the budget, or
      each costs at most one unit and the budget is even. */
  lemma RequestStaysInBudgetIff(c: Config, k: nat)
    ensures c.maxCostPerRequest > 0 ==>
      (StaysInBudget(c, k) <==> c.maxIterations * k <= c.maxCostPerRequest || (k == 1 && c.maxCostPerRequest % 2 == 0))
    ensures c.maxCostPerRequest <= 0 ==> (StaysInBudget(c, k) <==> c.maxCostPerRequest == 0)
  {
    MostARequestIsCharged(c, k);
    if c.maxCostPerRequest > 0 {
      MostChargedFits(c, k);
    }
  }

  lemma MostChargedFits(c: Config, k: nat)
    requires c.maxCostPerRequest > 0
    ensures MostCharged(c, k) <= c.maxCostPerRequest
       <==> c.maxIterations * k <= c.maxCostPerRequest || (k == 1 && c.maxCostPerRequest % 2 == 0)
  {
    if c.maxIterations <= 0 {
      assert c.maxIterations * k <= 0;
    } else {
      assert c.maxIterations * k == (c.maxIterations - 1) * k + k;
    }
  }

  datatype ChatCall = ChatCall(user: UserId, opening: Opening, model: Model)

  /** The counters after a day of chats, one after the other. */
  ghost function Day(c: Config, chats: seq<ChatCall>, counters: map<UserId, int>): map<UserId, int> {
    if chats == [] then counters
    else Day(c, chats[1..], AfterChat(c, counters, chats[0].user, chats[0].opening, chats[0].model))
  }

  ghost predicate WithinADay(c: Config, k: nat, used: int) {
    used == 0 || used < c.dailyCostPerUser + PastBudget(c.maxCostPerRequest, k)
  }

  /** However many chats the users have, no counter passes the daily quota by more than one request's bound. */
  lemma {:induction false} DayIsBounded(c: Config, chats: seq<ChatCall>, counters: map<UserId, int>, k: nat,
                                        user: UserId)
    requires forall chat <- chats :: EachCostsAtMost(chat.model, k)
    requires WithinADay(c, k, Used(counters, user))
    ensures WithinADay(c, k, Used(Day(c, chats, counters), user))
  {
    if chats != [] {
      RequestIsBounded(c, chats[0].model, k, 0, 0.0, []);
      DayIsBounded(c, chats[1..], AfterChat(c, counters, chats[0].user, chats[0].opening, chats[0].model), k, user);
    }
  }

  /** The outcome and the number of calls follow the model's replies and the configured limits. */
  ghost predicate Follows(c: Config, model: Model, outcome: Outcome, calls: nat) {
    && ToldByLast(model, 0, [], Conversation(outcome, Billed(model, 0, calls), calls))
    && calls <= Max(c.maxIterations, 0)
    && EachWithinBudget(c, model, 0, calls, 0.0)
    && (forall j :: 0 <= j < calls - 1 ==> GoesOn(model(j)))
    && (calls < c.maxIterations && Round(Billed(model, 0, calls)) < c.maxCostPerRequest
        ==> 0 < calls && !GoesOn(model(calls - 1)))
  }

  /** What a request ends as: by its opening, or by the replies of the model, paying their bill. */
  lemma RequestTells(c: Config, opening: Opening, model: Model)
    ensures var r := Request(c, opening, model);
            && (opening == OpensLate ==> r.outcome == TimedOut && r.calls == 0 && r.spent == 0.0)
            && (opening == OpeningRaises ==> r.outcome == Raised && r.calls == 0 && r.spent == 0.0)
            && (opening == Opens ==> Follows(c, model, r.outcome, r.calls) && r.spent == Billed(model, 0, r.calls))
  {
    ConversationPaysItsBill(c, model, 0, 0.0, []);
    LastReplyDecides(c, model, 0, 0.0, []);
  }

  /** The user's counter has grown by `units`, and no other counter has changed. */
  ghost predicate ChargedBy(before: map<UserId, int>, after: map<UserId, int>, user: UserId, units: int) {
    && (if user in after then after[user] else 0) == (if user in before then before[user] else 0) + units
    && forall other :: other != user ==>
         (other in after <==> other in before) && (other in before ==> after[other] == before[other])
  }

  lemma ChatCharges(c: Config, counters: map<UserId, int>, user: UserId, opening: Opening, model: Model)
    ensures var after := AfterChat(c, counters, user, opening, model);
            if Used(counters, user) >= c.dailyCostPerUser || opening != Opens then after == counters
            else ChargedBy(counters, after, user, Max(0, Round(Billed(model, 0, Request(c, opening, model).calls))))
  {
    RequestTells(c, opening, model);
    assert Round(0.0) == 0;
  }

  class UsageMeter {
    var inputTokens: nat
    var outputTokens: nat
    var cacheReadInputTokens: nat
    var cacheCreationInputTokens: nat

    constructor ()
      ensures Exact() == 0.0
    {
      inputTokens, outputTokens, cacheReadInputTokens, cacheCreationInputTokens := 0, 0, 0, 0;
    }

    ghost function Exact(): real
      reads this
    {
      Cost(Usage(inputTokens, outputTokens, cacheReadInputTokens, cacheCreationInputTokens))
    }

    method Add(u: Usage)
      modifies this
      ensures Exact() == old(Exact()) + Cost(u)
    {
      inputTokens := inputTokens + u.input;
      outputTokens := outputTokens + u.output;
      cacheReadInputTokens := cacheReadInputTokens + u.cacheRead;
      cacheCreationInputTokens := cacheCreationInputTokens + u.cacheCreation;
    }

    function CostUnits(): (units: int)
      reads this
      ensures units == Round(Exact())
    {
      Round(inputTokens as real + cacheReadInputTokens as real * 0.05 + cacheCreationInputTokens as real * 1.25
            + outputTokens as real * 5.0)
    }
  }

  class AssistantService {
    const config: Config
    /** The day's usage counters. */
    var counters: map<UserId, int>

    constructor (config: Config)
      ensures this.config == config && counters == map[]
    {
      this.config, counters := config, map[];
    }

    /** A request over quota is refused; any other ends as its conversation does, and on every exit the user is
        charged exactly the metered cost. */
    method Chat(user: UserId, opening: Opening, model: Model) returns (outcome: Outcome, ghost calls: nat)
      modifies this`counters
      ensures counters == AfterChat(config, old(counters), user, opening, model)
      ensures if Used(old(counters), user) >= config.dailyCostPerUser
              then outcome == QuotaExceeded && calls == 0
              else
                var c := Request(config, opening, model);
                outcome == c.outcome && calls == c.calls
      ensures (if user in old(counters) then old(counters)[user] else 0) >= config.dailyCostPerUser ==>
                outcome == QuotaExceeded && calls == 0 && counters == old(counters)
      ensures opening != Opens ==> counters == old(counters)
      ensures (if user in old(counters) then old(counters)[user] else 0) < config.dailyCostPerUser ==>
                && (opening == OpensLate ==> outcome == TimedOut)
                && (opening == OpeningRaises ==> outcome == Raised)
                && (opening == Opens ==>
                      && Follows(config, model, outcome, calls)
                      && ChargedBy(old(counters), counters, user, Max(0, Round(Billed(model, 0, calls)))))
    {
      RequestTells(config, opening, model);
      ChatCharges(config, counters, user, opening, model);
      if Used(counters, user) >= config.dailyCostPerUser {
        return QuotaExceeded, 0;
      }
      var meter := new UsageMeter();
      outcome, calls := Loop(opening, model, meter);
      counters := Charged(counters, user, meter.CostUnits());
    }

    method Loop(opening: Opening, model: Model, meter: UsageMeter) returns (outcome: Outcome, ghost calls: nat)
      requires meter.Exact() == 0.0
      modifies meter
      ensures var c := Request(config, opening, model);
              outcome == c.outcome && calls == c.calls && meter.Exact() == c.spent
    {
      if opening.OpensLate? {
        return TimedOut, 0;
      }
      if opening.OpeningRaises? {
        return Raised, 0;
      }
      var tools: seq<string> := [];
      var answer := MaxIterationsAnswer;
      var iterations := 0;
      calls := 0;
      while iterations < config.maxIterations
        invariant 0 <= iterations == calls && answer == MaxIterationsAnswer
        invariant Converse(config, model, iterations, meter.Exact(), tools) == Converse(config, model, 0, 0.0, [])
        decreases config.maxIterations - iterations
      {
        if meter.CostUnits() >= config.maxCostPerRequest {
          break;
        }
        var reply := model(iterations);
        calls := calls + 1;
        if reply.LlmError? {
          return Unavailable, calls;
        }
        if reply.Deadline? {
          return TimedOut, calls;
        }
        iterations := iterations + 1;
        meter.Add(reply.usage);
        if reply.stop == Refusal {
          answer := RefusalAnswer;
          break;
        }
        if reply.stop == MaxTokens {
          answer := TruncatedAnswer;
          break;
        }
        if reply.stop == PauseTurn {
          continue;
        }
        if reply.stop != ToolUse {
          answer := if reply.text == "" then EmptyAnswer else Text(reply.text);
          break;
        }
        if reply.tools == RunLate {
          return TimedOut, calls;
        }
        if reply.tools == Raise {
          return Raised, calls;
        }
        ghost var before := tools;
        for j := 0 to |reply.calls|
          invariant tools == before + reply.calls[..j]
        {
          tools := tools + [reply.calls[j]];
        }
        assert reply.calls[..|reply.calls|] == reply.calls;
      }
      outcome := Answered(answer, tools, iterations);
    }
  }
}

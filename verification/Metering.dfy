/** The shared compute-unit meter: a leaky bucket for pace plus a usage table that keeps only the current
    window of periods. Pace is exact in thousandths of a call, so one millisecond drains `refill` units. */
module Metering {
  import opened Basics

  const DAY_LENGTH := 86_400_000
  const RPC_BATCH_SIZE := 20

  /** `window` counts the earlier periods that stay in the table: 31 days, or none for calendar months. */
  datatype Plan = Plan(limit: int, refill: nat, burst: int, window: nat)

  const ALCHEMY := Plan(24_000_000, 100, 1_200, 31)
  const VALIDATION_CLOUD := Plan(40_000_000, 60, 60, 0)

  datatype Usage = Usage(period: int, cu: int)
  datatype Pace = Pace(at: int, level: int)
  datatype Meter = Meter(usage: seq<Usage>, pace: Option<Pace>)
  datatype Request = Request(now: int, period: int, cost: nat, weight: nat)
  datatype Verdict = Allowed(remaining: int) | BudgetReached(remaining: int) | RateReached

  const FRESH := Meter([], None)

  // ---------------------------------------------------------------- one transaction

  /** DELETE … WHERE period < oldest. */
  function Prune(usage: seq<Usage>, oldest: int): seq<Usage> {
    if usage == [] then []
    else
      var front := Prune(usage[..|usage| - 1], oldest);
      var last := usage[|usage| - 1];
      if last.period < oldest then front else front + [last]
  }

  function Total(usage: seq<Usage>): int {
    if usage == [] then 0 else Total(usage[..|usage| - 1]) + usage[|usage| - 1].cu
  }

  /** INSERT … ON CONFLICT DO UPDATE. */
  function Upsert(usage: seq<Usage>, period: int, cu: int): seq<Usage> {
    if usage == [] then [Usage(period, cu)]
    else
      var front, last := usage[..|usage| - 1], usage[|usage| - 1];
      if last.period == period then front + [last.(cu := last.cu + cu)] else Upsert(front, period, cu) + [last]
  }

  function Drained(pace: Pace, now: int, refill: int): int {
    Max(0, pace.level - Max(0, now - pace.at) * refill)
  }

  function Consume(m: Meter, plan: Plan, r: Request): (Meter, Verdict) {
    var pace := if m.pace.None? then Pace(r.now, 0) else m.pace.value;
    var usage := Prune(m.usage, r.period - plan.window);
    var used := Total(usage);
    if used + r.cost > plan.limit then (Meter(usage, Some(pace)), BudgetReached(Max(0, plan.limit - used)))
    else
      var level := Drained(pace, r.now, plan.refill);
      if level + 1000 * r.weight > 1000 * plan.burst then (Meter(usage, Some(pace)), RateReached)
      else
        (Meter(Upsert(usage, r.period, r.cost), Some(Pace(r.now, level + 1000 * r.weight))),
         Allowed(plan.limit - used - r.cost))
  }

  class ValidationCloudBudget {
    const plan: Plan
    var usage: seq<Usage>
    var pace: Option<Pace>

    function Value(): Meter
      reads this
    {
      Meter(usage, pace)
    }

    constructor (plan: Plan)
      ensures this.plan == plan && Value() == FRESH
    {
      this.plan := plan;
      usage, pace := [], None;
    }

    /** A refusal keeps the pruning and the first pace row, but records no usage. */
    method Spend(r: Request) returns (v: Verdict)
      modifies this
      ensures (Value(), v) == Consume(old(Value()), plan, r)
    {
      if pace.None? {
        pace := Some(Pace(r.now, 0));
      }
      usage := Prune(usage, r.period - plan.window);
      var used := Total(usage);
      if used + r.cost > plan.limit {
        return BudgetReached(if plan.limit - used < 0 then 0 else plan.limit - used);
      }
      var elapsed := if r.now - pace.value.at < 0 then 0 else r.now - pace.value.at;
      var level := pace.value.level - elapsed * plan.refill;
      if level < 0 { level := 0; }
      if level + 1000 * r.weight > 1000 * plan.burst { return RateReached; }
      usage := Upsert(usage, r.period, r.cost);
      pace := Some(Pace(r.now, level + 1000 * r.weight));
      return Allowed(plan.limit - used - r.cost);
    }
  }

  // ---------------------------------------------------------------- the full history

  datatype History = History(meter: Meter, grants: seq<Request>)

  /** Every request ever made, against a fresh meter; `grants` keeps each granted one for ever. */
  function Play(plan: Plan, requests: seq<Request>): History {
    if requests == [] then History(FRESH, [])
    else
      var h, r := Play(plan, requests[..|requests| - 1]), requests[|requests| - 1];
      var (meter, verdict) := Consume(h.meter, plan, r);
      History(meter, if verdict.Allowed? then h.grants + [r] else h.grants)
  }

  function UsageFrom(usage: seq<Usage>, from: int): int {
    if usage == [] then 0
    else
      var front, last := usage[..|usage| - 1], usage[|usage| - 1];
      UsageFrom(front, from) + (if last.period >= from then last.cu else 0)
  }

  /** Units granted in periods from … to. */
  function CostIn(grants: seq<Request>, from: int, to: int): int {
    if grants == [] then 0
    else
      var g := grants[|grants| - 1];
      CostIn(grants[..|grants| - 1], from, to) + (if from <= g.period <= to then g.cost else 0)
  }

  /** Weight admitted at times from … to. */
  function WeightIn(grants: seq<Request>, from: int, to: int): int {
    if grants == [] then 0
    else
      var g := grants[|grants| - 1];
      WeightIn(grants[..|grants| - 1], from, to) + (if from <= g.now <= to then g.weight else 0)
  }

  /** The periods of the requests never step back; their times may. */
  ghost predicate InOrder(requests: seq<Request>) {
    forall i, j :: 0 <= i < j < |requests| ==> requests[i].period <= requests[j].period
  }

  ghost predicate Before(grants: seq<Request>, period: int) {
    forall i :: 0 <= i < |grants| ==> grants[i].period <= period
  }

  // ---------------------------------------------------------------- the table

  lemma {:induction false} PruneFrom(usage: seq<Usage>, oldest: int, from: int)
    ensures UsageFrom(Prune(usage, oldest), from) == UsageFrom(usage, Max(oldest, from))
  {
    if usage != [] {
      var front, last := usage[..|usage| - 1], usage[|usage| - 1];
      PruneFrom(front, oldest, from);
      var kept := Prune(front, oldest);
      assert (kept + [last])[..|kept|] == kept;
    }
  }

  lemma {:induction false} PruneTotal(usage: seq<Usage>, oldest: int)
    ensures Total(Prune(usage, oldest)) == UsageFrom(usage, oldest)
  {
    if usage != [] {
      var front, last := usage[..|usage| - 1], usage[|usage| - 1];
      PruneTotal(front, oldest);
      var kept := Prune(front, oldest);
      assert (kept + [last])[..|kept|] == kept;
    }
  }

  lemma {:induction false} UpsertFrom(usage: seq<Usage>, period: int, cu: int, from: int)
    ensures UsageFrom(Upsert(usage, period, cu), from) == UsageFrom(usage, from) + (if period >= from then cu else 0)
  {
    if usage == [] {
      assert [Usage(period, cu)][..0] == [];
    } else {
      var front, last := usage[..|usage| - 1], usage[|usage| - 1];
      if last.period == period {
        assert (front + [last.(cu := last.cu + cu)])[..|front|] == front;
      } else {
        UpsertFrom(front, period, cu, from);
        var up := Upsert(front, period, cu);
        assert (up + [last])[..|up|] == up;
      }
    }
  }

  lemma {:induction false} CostMonotone(grants: seq<Request>, from: int, to: int, wider: int, later: int)
    requires wider <= from && to <= later
    ensures 0 <= CostIn(grants, from, to) <= CostIn(grants, wider, later)
  {
    if grants != [] {
      CostMonotone(grants[..|grants| - 1], from, to, wider, later);
    }
  }

  lemma GrantSnoc(grants: seq<Request>, r: Request, from: int, to: int)
    ensures CostIn(grants + [r], from, to) == CostIn(grants, from, to) + (if from <= r.period <= to then r.cost else 0)
    ensures WeightIn(grants + [r], from, to)
            == WeightIn(grants, from, to) + (if from <= r.now <= to then r.weight else 0)
  {
    assert (grants + [r])[..|grants|] == grants;
  }

  /** The pruned table still knows the whole history of every period it may be asked about. */
  ghost predicate TableExact(h: History, plan: Plan, period: int) {
    forall from :: period - plan.window <= from ==> UsageFrom(h.meter.usage, from) == CostIn(h.grants, from, period)
  }

  ghost predicate WindowsBounded(grants: seq<Request>, plan: Plan) {
    forall from, to :: to <= from + plan.window ==> CostIn(grants, from, to) <= plan.limit
  }

  lemma {:induction false} LaterPeriod(grants: seq<Request>, from: int, period: int, later: int)
    requires period <= later && forall i :: 0 <= i < |grants| ==> grants[i].period <= period
    ensures CostIn(grants, from, later) == CostIn(grants, from, period)
  {
    if grants != [] {
      LaterPeriod(grants[..|grants| - 1], from, period, later);
    }
  }

  /** One request keeps the table exact and every window within the limit; a grant's reply is exact. */
  lemma TableStep(h: History, plan: Plan, r: Request, period: int)
    requires TableExact(h, plan, period) && WindowsBounded(h.grants, plan) && Before(h.grants, period)
             && period <= r.period
    ensures var (meter, verdict) := Consume(h.meter, plan, r);
            var grants := if verdict.Allowed? then h.grants + [r] else h.grants;
            && TableExact(History(meter, grants), plan, r.period) && WindowsBounded(grants, plan)
            && (verdict.Allowed? ==> verdict.remaining == plan.limit - CostIn(grants, r.period - plan.window, r.period))
            && var used := CostIn(h.grants, r.period - plan.window, r.period);
            && (verdict.BudgetReached? <==> used + r.cost > plan.limit)
            && (verdict.BudgetReached? ==> verdict.remaining == plan.limit - used >= 0)
  {
    var oldest := r.period - plan.window;
    var (meter, verdict) := Consume(h.meter, plan, r);
    var grants := if verdict.Allowed? then h.grants + [r] else h.grants;
    var pruned := Prune(h.meter.usage, oldest);
    forall from | oldest <= from
      ensures UsageFrom(pruned, from) == CostIn(h.grants, from, r.period)
    {
      PruneFrom(h.meter.usage, oldest, from);
      LaterPeriod(h.grants, from, period, r.period);
    }
    PruneTotal(h.meter.usage, oldest);
    PruneFrom(h.meter.usage, oldest, oldest);
    assert Total(pruned) == CostIn(h.grants, oldest, r.period);
    if verdict.Allowed? {
      GrantSnoc(h.grants, r, oldest, r.period);
      forall from | oldest <= from
        ensures UsageFrom(meter.usage, from) == CostIn(grants, from, r.period)
      {
        UpsertFrom(pruned, r.period, r.cost, from);
        GrantSnoc(h.grants, r, from, r.period);
      }
      forall from, to | to <= from + plan.window
        ensures CostIn(grants, from, to) <= plan.limit
      {
        GrantSnoc(h.grants, r, from, to);
        if from <= r.period <= to {
          LaterPeriod(h.grants, from, r.period, to);
          CostMonotone(h.grants, from, r.period, oldest, r.period);
        }
      }
    }
  }

  // ---------------------------------------------------------------- all runs

  ghost predicate Exact(h: History, plan: Plan, period: int) {
    Before(h.grants, period) && TableExact(h, plan, period) && WindowsBounded(h.grants, plan)
  }

  /** Nothing is lost while no request arrives. */
  lemma ExactLater(h: History, plan: Plan, period: int, later: int)
    requires Exact(h, plan, period) && period <= later
    ensures Exact(h, plan, later)
  {
    hide WindowsBounded;
    forall from | later - plan.window <= from
      ensures UsageFrom(h.meter.usage, from) == CostIn(h.grants, from, later)
    {
      LaterPeriod(h.grants, from, period, later);
    }
  }

  lemma {:induction false} Metered(plan: Plan, requests: seq<Request>, period: int)
    requires InOrder(requests) && 0 <= plan.limit && Before(requests, period)
    ensures Exact(Play(plan, requests), plan, period)
  {
    hide TableExact, WindowsBounded, Consume;
    if requests == [] {
      NothingGranted(plan, period);
    } else {
      var front, r := requests[..|requests| - 1], requests[|requests| - 1];
      Metered(plan, front, r.period);
      TableStep(Play(plan, front), plan, r, r.period);
      ExactLater(Play(plan, requests), plan, r.period, period);
    }
  }

  lemma NothingGranted(plan: Plan, period: int)
    requires 0 <= plan.limit
    ensures TableExact(History(FRESH, []), plan, period) && WindowsBounded([], plan)
  {}

  /** While periods never step back: whatever was deleted, units granted in any window of consecutive periods stay
      within the limit. A request is refused for it exactly when it would exceed the current window, and grants and
      refusals report exactly what is left of that window. */
  lemma UsageNeverExceedsLimit(plan: Plan, requests: seq<Request>, from: int, to: int)
    requires InOrder(requests) && 0 <= plan.limit && to <= from + plan.window
    ensures CostIn(Play(plan, requests).grants, from, to) <= plan.limit
    ensures requests != [] ==>
      var front, r := requests[..|requests| - 1], requests[|requests| - 1];
      var verdict := Consume(Play(plan, front).meter, plan, r).1;
      && (verdict.Allowed? ==>
            verdict.remaining == plan.limit - CostIn(Play(plan, requests).grants, r.period - plan.window, r.period))
      && var used := CostIn(Play(plan, front).grants, r.period - plan.window, r.period);
      && (verdict.BudgetReached? <==> used + r.cost > plan.limit)
      && (verdict.BudgetReached? ==> verdict.remaining == plan.limit - used)
  {
    if requests != [] {
      var front, r := requests[..|requests| - 1], requests[|requests| - 1];
      Metered(plan, front, r.period);
      TableStep(Play(plan, front), plan, r, r.period);
    }
  }

  lemma PlaySnoc(plan: Plan, requests: seq<Request>, r: Request)
    ensures var h := Play(plan, requests);
            var (meter, verdict) := Consume(h.meter, plan, r);
            Play(plan, requests + [r]) == History(meter, if verdict.Allowed? then h.grants + [r] else h.grants)
  {
    assert (requests + [r])[..|requests|] == requests;
  }

  // ---------------------------------------------------------------- what a batch costs

  datatype Service = ValidationCloud | Alchemy

  function AlchemyCU(method_: string): Option<nat> {
    match method_
    case "eth_chainId" => Some(0)
    case "net_version" => Some(0)
    case "web3_clientVersion" => Some(20)
    case "eth_blockNumber" => Some(10)
    case "eth_getBlockByNumber" => Some(20)
    case "eth_getBlockByHash" => Some(20)
    case "eth_getBalance" => Some(20)
    case "eth_getCode" => Some(20)
    case "eth_getStorageAt" => Some(20)
    case "eth_getTransactionCount" => Some(20)
    case "eth_getTransactionByHash" => Some(20)
    case "eth_getTransactionReceipt" => Some(20)
    case "eth_call" => Some(26)
    case "eth_estimateGas" => Some(20)
    case "eth_gasPrice" => Some(20)
    case "eth_maxPriorityFeePerGas" => Some(10)
    case "eth_feeHistory" => Some(10)
    case "eth_sendRawTransaction" => Some(40)
    case _ => None
  }

  function AlchemyThroughputCU(method_: string): Option<nat> {
    if method_ == "eth_chainId" || method_ == "net_version" then Some(5)
    else if method_ == "eth_sendRawTransaction" then Some(50)
    else AlchemyCU(method_)
  }

  function ValidationCloudCU(method_: string): Option<nat> {
    match method_
    case "eth_chainId" => Some(10)
    case "net_version" => Some(10)
    case "web3_clientVersion" => Some(40)
    case "eth_blockNumber" => Some(20)
    case "eth_getBlockByNumber" => Some(40)
    case "eth_getBlockByHash" => Some(40)
    case "eth_getBalance" => Some(40)
    case "eth_getCode" => Some(40)
    case "eth_getStorageAt" => Some(40)
    case "eth_getLogs" => Some(80)
    case "eth_getTransactionCount" => Some(40)
    case "eth_getTransactionByHash" => Some(40)
    case "eth_getTransactionReceipt" => Some(40)
    case "eth_call" => Some(40)
    case "eth_estimateGas" => Some(40)
    case "eth_gasPrice" => Some(40)
    case "eth_maxPriorityFeePerGas" => Some(80)
    case "eth_sendRawTransaction" => Some(80)
    case "debug_traceCall" => Some(80)
    case _ => None
  }

  function CU(service: Service, method_: string): Option<nat> {
    if service.Alchemy? then AlchemyCU(method_) else ValidationCloudCU(method_)
  }

  function BurstOf(service: Service): int {
    if service.Alchemy? then ALCHEMY.burst else VALIDATION_CLOUD.burst
  }

  function Weight(service: Service, method_: string): nat {
    if service.Alchemy? then AlchemyThroughputCU(method_).GetOr(0) else 1
  }

  function CostOf(service: Service, methods: seq<string>): int {
    Sum(seq(|methods|, i requires 0 <= i < |methods| => CU(service, methods[i]).GetOr(0)))
  }

  function WeightOf(service: Service, methods: seq<string>): int {
    Sum(seq(|methods|, i requires 0 <= i < |methods| => Weight(service, methods[i])))
  }

  lemma BatchSnoc(service: Service, methods: seq<string>, m: string)
    ensures CostOf(service, methods + [m]) == CostOf(service, methods) + CU(service, m).GetOr(0)
    ensures WeightOf(service, methods + [m]) == WeightOf(service, methods) + Weight(service, m)
  {
    var n := |methods|;
    var all := methods + [m];
    assert seq(n + 1, i requires 0 <= i < n + 1 => CU(service, all[i]).GetOr(0))[..n]
        == seq(n, i requires 0 <= i < n => CU(service, methods[i]).GetOr(0));
    assert seq(n + 1, i requires 0 <= i < n + 1 => Weight(service, all[i]))[..n]
        == seq(n, i requires 0 <= i < n => Weight(service, methods[i]));
  }

  predicate Priceable(service: Service, methods: seq<string>) {
    0 < |methods| <= RPC_BATCH_SIZE && forall m :: m in methods ==> CU(service, m).Some?
  }

  lemma WeightBounds(service: Service, m: string)
    requires CU(service, m).Some?
    ensures 1 <= Weight(service, m) <= 50 && (service.ValidationCloud? ==> Weight(service, m) == 1)
  {}

  /** Every priced batch weighs at least one call per method, and fits an empty bucket. */
  lemma {:induction false} BatchBounds(service: Service, methods: seq<string>)
    requires forall m :: m in methods ==> CU(service, m).Some?
    ensures 0 <= CostOf(service, methods) && |methods| <= WeightOf(service, methods) <= 50 * |methods|
    ensures service.ValidationCloud? ==> WeightOf(service, methods) == |methods|
  {
    hide CU, Weight, CostOf, WeightOf;
    if methods == [] {
      EmptyBatch(service);
    } else {
      var front, last := methods[..|methods| - 1], methods[|methods| - 1];
      BatchBounds(service, front);
      WeightBounds(service, last);
      BatchSnoc(service, front, last);
      assert front + [last] == methods;
    }
  }

  lemma EmptyBatch(service: Service)
    ensures CostOf(service, []) == 0 && WeightOf(service, []) == 0
  {}

  /** Prices a batch, refusing an empty or oversized one and any method without a verified cost. A priced
      batch always fits an empty bucket, so the pace alone never refuses it for ever. */
  method Price(service: Service, methods: seq<string>) returns (r: Option<(int, int)>)
    ensures r.Some? <==> Priceable(service, methods)
    ensures r.Some? ==> r.value == (CostOf(service, methods), WeightOf(service, methods))
    ensures r.Some? ==> 0 < r.value.1 <= BurstOf(service) && 0 <= r.value.0
  {
    hide CU, Weight, CostOf, WeightOf;
    if methods == [] || |methods| > RPC_BATCH_SIZE { return None; }
    var cost, weight := 0, 0;
    EmptyBatch(service);
    for i := 0 to |methods|
      invariant forall j :: 0 <= j < i ==> CU(service, methods[j]).Some?
      invariant cost == CostOf(service, methods[..i]) && weight == WeightOf(service, methods[..i])
    {
      var cu := CU(service, methods[i]);
      if cu.None? { return None; }
      BatchSnoc(service, methods[..i], methods[i]);
      assert methods[..i] + [methods[i]] == methods[..i + 1];
      cost := cost + cu.value;
      weight := weight + Weight(service, methods[i]);
    }
    assert methods[..|methods|] == methods;
    BatchBounds(service, methods);
    return Some((cost, weight));
  }
}

/** The pace of the meter under any clock: how much a clock that steps back can add, and from which step on. */
module Pacing {
  import opened Basics
  import opened Metering

  // ---------------------------------------------------------------- the log of grants

  /** Milliseconds that the clock steps back over a log, in all. */
  function SetBack(log: seq<Request>): (total: nat) {
    if |log| < 2 then 0
    else SetBack(log[..|log| - 1]) + Max(0, log[|log| - 2].now - log[|log| - 1].now)
  }

  function WeightSince(log: seq<Request>, i: nat): int
    requires i <= |log|
  {
    if i == |log| then 0 else WeightSince(log[..|log| - 1], i) + log[|log| - 1].weight
  }

  lemma BackSnoc(log: seq<Request>, r: Request)
    ensures SetBack(log + [r]) == SetBack(log) + (if log == [] then 0 else Max(0, log[|log| - 1].now - r.now))
  {
    hide Max;
    assert (log + [r])[..|log|] == log;
  }

  lemma SinceSnoc(log: seq<Request>, r: Request, i: nat)
    requires i <= |log|
    ensures WeightSince(log + [r], i) == WeightSince(log, i) + r.weight && (log + [r])[..i] == log[..i]
  {
    assert (log + [r])[..|log|] == log;
  }

  /** Window weight is weight since the first grant inside the window. If something outside the window was granted in
      between, it weighs on top. */
  lemma {:induction false} FirstInside(log: seq<Request>, from: int, to: int) returns (i: nat)
    requires WeightIn(log, from, to) > 0
    ensures i < |log| && from <= log[i].now <= to && WeightIn(log, from, to) <= WeightSince(log, i)
    ensures (forall j :: 0 <= j < |log| ==> 1 <= log[j].weight) ==>
      WeightIn(log, from, to) + 1 <= WeightSince(log, i) || forall j :: i <= j < |log| ==> from <= log[j].now <= to
  {
    var front, last := log[..|log| - 1], log[|log| - 1];
    if WeightIn(front, from, to) > 0 {
      i := FirstInside(front, from, to);
      assert forall j :: 0 <= j < |front| ==> front[j] == log[j];
    } else {
      WeightIsNatural(front, from, to);
      i := |log| - 1;
      assert WeightSince(front, i) == 0;
    }
  }

  lemma {:induction false} WeightIsNatural(log: seq<Request>, from: int, to: int)
    ensures 0 <= WeightIn(log, from, to)
  {
    if log != [] { WeightIsNatural(log[..|log| - 1], from, to); }
  }

  lemma {:induction false} SetBackGrows(log: seq<Request>, i: nat)
    requires i <= |log|
    ensures SetBack(log[..i]) <= SetBack(log)
  {
    if i < |log| {
      SetBackGrows(log[..|log| - 1], i);
      assert log[..|log| - 1][..i] == log[..i];
    } else {
      assert log[..i] == log;
    }
  }

  /** A stretch at one instant steps nowhere. */
  lemma {:induction false} StandingStill(log: seq<Request>, i: nat)
    requires i < |log| && forall j :: i <= j < |log| ==> log[j].now == log[i].now
    ensures SetBack(log) == SetBack(log[..i + 1])
  {
    if i + 1 < |log| {
      StandingStill(log[..|log| - 1], i);
      assert log[..|log| - 1][..i + 1] == log[..i + 1];
    } else {
      assert log[..i + 1] == log;
    }
  }

  // ---------------------------------------------------------------- what the level remembers

  /** The level accounts for everything granted since any grant, less what the clock has drained since, forwards. */
  ghost predicate Level(pace: Pace, grants: seq<Request>, plan: Plan) {
    && 0 <= pace.level
    && (grants == [] ==> pace.level == 0)
    && (grants != [] ==> pace.at == grants[|grants| - 1].now && pace.level <= 1000 * plan.burst)
    && forall i :: 0 <= i < |grants| ==> Accounts(pace, grants, plan.refill, i)
  }

  ghost predicate Accounts(pace: Pace, grants: seq<Request>, refill: nat, i: nat)
    requires i < |grants|
  {
    1000 * WeightSince(grants, i) <= pace.level
        + refill * (pace.at - grants[i].now + SetBack(grants) - SetBack(grants[..i + 1]))
  }

  ghost predicate Paced(grants: seq<Request>, plan: Plan) {
    forall from, to :: from <= to ==>
      1000 * WeightIn(grants, from, to) <= 1000 * plan.burst + plan.refill * (to - from + SetBack(grants))
  }

  /** An instant can hold more than the burst only if the drain also covers a call made elsewhere in between. */
  ghost predicate PacedAtOnce(grants: seq<Request>, plan: Plan) {
    (forall j :: 0 <= j < |grants| ==> 1 <= grants[j].weight) ==>
      forall t :: WeightIn(grants, t, t) <= plan.burst
             || 1000 * (WeightIn(grants, t, t) + 1) <= 1000 * plan.burst + plan.refill * SetBack(grants)
  }

  ghost predicate PaceOk(h: History, plan: Plan) {
    && (match h.meter.pace case None => h.grants == [] case Some(p) => Level(p, h.grants, plan))
    && Paced(h.grants, plan) && PacedAtOnce(h.grants, plan)
  }

  lemma MulMonotone(k: nat, x: int, y: int)
    requires x <= y
    ensures k * x <= k * y
  {}

  lemma Distribute(k: int, x: int, y: int)
    ensures k * (x + y) == k * x + k * y
  {}

  lemma GrantLevels(pace: Pace, grants: seq<Request>, plan: Plan, r: Request)
    requires Level(pace, grants, plan) && Drained(pace, r.now, plan.refill) + 1000 * r.weight <= 1000 * plan.burst
    ensures Level(Pace(r.now, Drained(pace, r.now, plan.refill) + 1000 * r.weight), grants + [r], plan)
  {
    hide Accounts, WeightSince, SetBack;
    var pace' := Pace(r.now, Drained(pace, r.now, plan.refill) + 1000 * r.weight);
    forall i | 0 <= i < |grants| + 1
      ensures Accounts(pace', grants + [r], plan.refill, i)
    {
      if i < |grants| {
        assert Accounts(pace, grants, plan.refill, i);
        GrantAccounts(pace, grants, plan.refill, i, r);
      } else {
        assert 0 <= Drained(pace, r.now, plan.refill);
        LastAccounts(pace', grants, plan.refill, r);
      }
    }
  }

  lemma LastAccounts(pace: Pace, grants: seq<Request>, refill: nat, r: Request)
    requires pace.at == r.now && 1000 * r.weight <= pace.level
    ensures Accounts(pace, grants + [r], refill, |grants|)
  {
    hide SetBack;
    assert (grants + [r])[..|grants| + 1] == grants + [r];
    SinceSnoc(grants, r, |grants|);
    assert refill * 0 == 0;
  }

  lemma DrainedIs(pace: Pace, now: int, refill: nat)
    ensures Drained(pace, now, refill) >= pace.level - refill * Max(0, now - pace.at)
  {}

  lemma GrantAccounts(pace: Pace, grants: seq<Request>, refill: nat, i: nat, r: Request)
    requires i < |grants| && pace.at == grants[|grants| - 1].now && Accounts(pace, grants, refill, i)
    ensures Accounts(Pace(r.now, Drained(pace, r.now, refill) + 1000 * r.weight), grants + [r], refill, i)
  {
    hide Drained, SetBack, WeightSince;
    BackSnoc(grants, r);
    SinceSnoc(grants, r, i);
    SinceSnoc(grants, r, i + 1);
    DrainedIs(pace, r.now, refill);
    var ahead := Max(0, r.now - pace.at);
    var spent := pace.at - grants[i].now + SetBack(grants) - SetBack(grants[..i + 1]);
    Distribute(refill, spent, ahead);
    assert (grants + [r])[..i + 1] == grants[..i + 1] && (grants + [r])[i] == grants[i];
    assert r.now - grants[i].now + SetBack(grants + [r]) - SetBack((grants + [r])[..i + 1]) == spent + ahead;
  }

  /** The level bounds every window that the latest grant closes. */
  lemma WindowCloses(pace: Pace, grants: seq<Request>, plan: Plan, from: int, to: int)
    requires Level(pace, grants, plan) && grants != [] && from <= grants[|grants| - 1].now <= to && 0 <= plan.burst
    ensures 1000 * WeightIn(grants, from, to) <= 1000 * plan.burst + plan.refill * (to - from + SetBack(grants))
    ensures (forall j :: 0 <= j < |grants| ==> 1 <= grants[j].weight) && from == to ==>
      WeightIn(grants, from, to) <= plan.burst
          || 1000 * (WeightIn(grants, from, to) + 1) <= 1000 * plan.burst + plan.refill * SetBack(grants)
  {
    MulMonotone(plan.refill, 0, to - from + SetBack(grants));
    if WeightIn(grants, from, to) > 0 {
      var i := FirstInside(grants, from, to);
      assert Accounts(pace, grants, plan.refill, i);
      SetBackGrows(grants, i + 1);
      var spent := pace.at - grants[i].now + SetBack(grants) - SetBack(grants[..i + 1]);
      MulMonotone(plan.refill, spent, to - from + SetBack(grants));
      if from == to && forall j :: i <= j < |grants| ==> from <= grants[j].now <= to {
        StandingStill(grants, i);
        assert spent == 0;
      }
    }
  }

  lemma BucketStep(h: History, plan: Plan, r: Request)
    requires PaceOk(h, plan) && 0 <= plan.burst
    ensures var (meter, verdict) := Consume(h.meter, plan, r);
            PaceOk(History(meter, if verdict.Allowed? then h.grants + [r] else h.grants), plan)
  {
    hide Level, Paced, PacedAtOnce, Drained, Prune, Total, Upsert;
    var pace := if h.meter.pace.None? then Pace(r.now, 0) else h.meter.pace.value;
    assert Level(pace, h.grants, plan) by { FirstLevel(r.now, plan); }
    if Consume(h.meter, plan, r).1.Allowed? {
      GrantLevels(pace, h.grants, plan, r);
      GrantPaces(Pace(r.now, Drained(pace, r.now, plan.refill) + 1000 * r.weight), h.grants, plan, r);
    }
  }

  lemma FirstLevel(now: int, plan: Plan)
    ensures Level(Pace(now, 0), [], plan)
  {}

  lemma GrantPaces(pace: Pace, grants: seq<Request>, plan: Plan, r: Request)
    requires Level(pace, grants + [r], plan) && Paced(grants, plan) && PacedAtOnce(grants, plan) && 0 <= plan.burst
    ensures Paced(grants + [r], plan) && PacedAtOnce(grants + [r], plan)
  {
    hide Level, SetBack, WeightIn, Max;
    var all := grants + [r];
    forall from, to | from <= to
      ensures 1000 * WeightIn(all, from, to) <= 1000 * plan.burst + plan.refill * (to - from + SetBack(all))
    {
      WindowKeeps(pace, grants, plan, r, from, to);
    }
    if forall j :: 0 <= j < |all| ==> 1 <= all[j].weight {
      assert forall j :: 0 <= j < |grants| ==> grants[j] == all[j];
      forall t
        ensures WeightIn(all, t, t) <= plan.burst
                || 1000 * (WeightIn(all, t, t) + 1) <= 1000 * plan.burst + plan.refill * SetBack(all)
      {
        InstantKeeps(pace, grants, plan, r, t);
      }
    }
  }

  lemma WindowKeeps(pace: Pace, grants: seq<Request>, plan: Plan, r: Request, from: int, to: int)
    requires Level(pace, grants + [r], plan) && Paced(grants, plan) && 0 <= plan.burst && from <= to
    ensures var all := grants + [r];
            1000 * WeightIn(all, from, to) <= 1000 * plan.burst + plan.refill * (to - from + SetBack(all))
  {
    hide Level, SetBack, WeightIn;
    BackSnoc(grants, r);
    GrantSnoc(grants, r, from, to);
    if from <= r.now <= to {
      WindowCloses(pace, grants + [r], plan, from, to);
    } else {
      MulMonotone(plan.refill, to - from + SetBack(grants), to - from + SetBack(grants + [r]));
    }
  }

  lemma InstantKeeps(pace: Pace, grants: seq<Request>, plan: Plan, r: Request, t: int)
    requires Level(pace, grants + [r], plan) && 0 <= plan.burst
    requires forall j :: 0 <= j <= |grants| ==> 1 <= (grants + [r])[j].weight
    requires WeightIn(grants, t, t) <= plan.burst
             || 1000 * (WeightIn(grants, t, t) + 1) <= 1000 * plan.burst + plan.refill * SetBack(grants)
    ensures var all := grants + [r];
            || WeightIn(all, t, t) <= plan.burst
            || 1000 * (WeightIn(all, t, t) + 1) <= 1000 * plan.burst + plan.refill * SetBack(all)
  {
    hide Level, SetBack, WeightIn;
    BackSnoc(grants, r);
    GrantSnoc(grants, r, t, t);
    if t == r.now {
      WindowCloses(pace, grants + [r], plan, t, t);
    } else {
      MulMonotone(plan.refill, SetBack(grants), SetBack(grants + [r]));
    }
  }

  // ---------------------------------------------------------------- all runs, any clock

  lemma NothingYet(plan: Plan)
    requires 0 <= plan.burst
    ensures PaceOk(History(FRESH, []), plan)
  {
    forall from, to | from <= to
      ensures 1000 * WeightIn([], from, to) <= 1000 * plan.burst + plan.refill * (to - from + SetBack([]))
    {
      MulMonotone(plan.refill, 0, to - from);
    }
  }

  lemma {:induction false} PaceHolds(plan: Plan, requests: seq<Request>)
    requires 0 <= plan.burst
    ensures PaceOk(Play(plan, requests), plan)
  {
    hide PaceOk, Consume;
    if requests == [] {
      NothingYet(plan);
    } else {
      PaceHolds(plan, requests[..|requests| - 1]);
      BucketStep(Play(plan, requests[..|requests| - 1]), plan, requests[|requests| - 1]);
    }
  }

  /** How far a log steps back, and then to a request that follows it. */
  function SetBackTo(log: seq<Request>, now: int): (total: nat)
    ensures SetBack(log) <= total
  {
    SetBack(log) + if log == [] then 0 else Max(0, log[|log| - 1].now - now)
  }

  lemma BackToSnoc(log: seq<Request>, r: Request)
    ensures SetBackTo(log + [r], r.now) == SetBack(log + [r]) == SetBackTo(log, r.now)
  {
    hide SetBack;
    BackSnoc(log, r);
  }

  lemma BackToLater(log: seq<Request>, middle: int, now: int)
    ensures SetBackTo(log, now) <= SetBackTo(log, middle) + Max(0, middle - now)
  {
    hide SetBack;
  }

  /** Grants step back no further than the requests they answer. */
  lemma {:induction false} GrantsStepBackLess(plan: Plan, requests: seq<Request>)
    requires requests != []
    ensures SetBackTo(Play(plan, requests).grants, requests[|requests| - 1].now) <= SetBack(requests)
  {
    hide Consume, SetBack, SetBackTo, Max, Play;
    var front, r := requests[..|requests| - 1], requests[|requests| - 1];
    assert front + [r] == requests;
    var grants := Play(plan, front).grants;
    PlaySnoc(plan, front, r);
    BackSnoc(front, r);
    BackToSnoc(grants, r);
    if front == [] {
      FirstBack(plan, r.now);
    } else {
      GrantsStepBackLess(plan, front);
      BackToLater(grants, front[|front| - 1].now, r.now);
    }
  }

  lemma FirstBack(plan: Plan, now: int)
    ensures SetBackTo(Play(plan, []).grants, now) == 0
  {}

  lemma BackBound(plan: Plan, requests: seq<Request>)
    ensures SetBack(Play(plan, requests).grants) <= SetBack(requests)
  {
    if requests != [] {
      hide SetBack, SetBackTo, Play;
      GrantsStepBackLess(plan, requests);
    }
  }

  /** Under any clock, weight admitted in an interval is at most the burst plus what refills over its length and over
      all the time by which the clock stepped back. */
  lemma PaceUnderAnyClock(plan: Plan, requests: seq<Request>, from: int, to: int)
    requires 0 <= plan.burst && from <= to
    ensures 1000 * WeightIn(Play(plan, requests).grants, from, to)
            <= 1000 * plan.burst + plan.refill * (to - from + SetBack(requests))
  {
    hide SetBack, Play, WeightIn, Level, PacedAtOnce;
    PaceHolds(plan, requests);
    BackBound(plan, requests);
    MulMonotone(plan.refill, to - from + SetBack(Play(plan, requests).grants), to - from + SetBack(requests));
  }

  ghost predicate Chronological(requests: seq<Request>) {
    forall i, j :: 0 <= i < j < |requests| ==> requests[i].now <= requests[j].now
  }

  lemma {:induction false} NeverBack(requests: seq<Request>)
    requires Chronological(requests)
    ensures SetBack(requests) == 0
  {
    if |requests| >= 2 { NeverBack(requests[..|requests| - 1]); }
  }

  /** With a clock that does not run back: the burst plus what refills. */
  lemma {:induction false} PaceNeverExceedsRefill(plan: Plan, requests: seq<Request>, from: int, to: int)
    requires Chronological(requests) && 0 <= plan.burst && from <= to
    ensures 1000 * WeightIn(Play(plan, requests).grants, from, to) <= 1000 * plan.burst + plan.refill * (to - from)
  {
    NeverBack(requests);
    PaceUnderAnyClock(plan, requests, from, to);
  }

  /** Alchemy's periods are days. */
  ghost predicate Dated(requests: seq<Request>) {
    forall r :: r in requests ==> r.period == r.now / DAY_LENGTH
  }

  /** For Alchemy: any billing period of at most 32 days stays within 24,000,000 units, and any ten seconds
      within 2,200 throughput units, below the provider's 300 per second. */
  lemma AlchemyAllowance(requests: seq<Request>, firstDay: int, lastDay: int, from: int)
    requires Chronological(requests) && Dated(requests)
    requires firstDay <= lastDay <= firstDay + 31
    ensures CostIn(Play(ALCHEMY, requests).grants, firstDay, lastDay) <= 24_000_000
    ensures WeightIn(Play(ALCHEMY, requests).grants, from, from + 10_000) <= 2_200 < 10 * 300
  {
    UsageNeverExceedsLimit(ALCHEMY, requests, firstDay, lastDay);
    PaceNeverExceedsRefill(ALCHEMY, requests, from, from + 10_000);
  }

  /** The provider's 300 units per second survive a clock that steps back by up to eight seconds in all. */
  lemma AlchemyToleratesEightSeconds(requests: seq<Request>, from: int)
    requires SetBack(requests) <= 8_000
    ensures WeightIn(Play(ALCHEMY, requests).grants, from, from + 10_000) <= 10 * 300
  {
    PaceUnderAnyClock(ALCHEMY, requests, from, from + 10_000);
  }

  // ---------------------------------------------------------------- how far the clock must step back

  /** Requests as the meter prices them: each is a batch it does not refuse outright. */
  ghost predicate Priced(service: Service, requests: seq<Request>) {
    forall r :: r in requests ==> IsPriced(service, r)
  }

  ghost predicate IsPriced(service: Service, r: Request) {
    exists methods :: Prices(service, methods, r)
  }

  predicate Prices(service: Service, methods: seq<string>, r: Request) {
    Priceable(service, methods) && r.cost == CostOf(service, methods) && r.weight == WeightOf(service, methods)
  }

  lemma PricedWeights(service: Service, requests: seq<Request>)
    requires Priced(service, requests)
    ensures forall i :: 0 <= i < |requests| ==> 1 <= requests[i].weight
  {
    hide CostOf, WeightOf;
    forall i | 0 <= i < |requests|
      ensures 1 <= requests[i].weight
    {
      assert IsPriced(service, requests[i]);
      var methods :| Prices(service, methods, requests[i]);
      BatchBounds(service, methods);
    }
  }

  lemma {:induction false} GrantsWereRequested(plan: Plan, requests: seq<Request>)
    ensures forall g :: g in Play(plan, requests).grants ==> g in requests
  {
    hide Consume;
    if requests != [] { GrantsWereRequested(plan, requests[..|requests| - 1]); }
  }

  /** A batch of chain-id reads. */
  function Batch(n: nat): seq<string> {
    seq(n, _ => "eth_chainId")
  }

  function Call(now: int, n: nat): Request {
    Request(now, 0, 10 * n, n)
  }

  lemma {:induction false} BatchCosts(n: nat)
    ensures CostOf(ValidationCloud, Batch(n)) == 10 * n && WeightOf(ValidationCloud, Batch(n)) == n
  {
    hide CostOf, WeightOf;
    if n == 0 {
      EmptyBatch(ValidationCloud);
      assert Batch(0) == [];
    } else {
      BatchCosts(n - 1);
      BatchSnoc(ValidationCloud, Batch(n - 1), "eth_chainId");
      assert Batch(n - 1) + ["eth_chainId"] == Batch(n);
    }
  }

  lemma CallIsPriced(now: int, n: nat)
    requires 0 < n <= RPC_BATCH_SIZE
    ensures IsPriced(ValidationCloud, Call(now, n))
  {
    hide CostOf, WeightOf;
    BatchCosts(n);
    assert Prices(ValidationCloud, Batch(n), Call(now, n));
  }

  lemma PricedSnoc(requests: seq<Request>, now: int, n: nat)
    requires Priced(ValidationCloud, requests) && 0 < n <= RPC_BATCH_SIZE
    ensures Priced(ValidationCloud, requests + [Call(now, n)])
  {
    hide IsPriced;
    CallIsPriced(now, n);
  }

  /** A run of granted calls: the meter after it, its log, and how far it stepped back. */
  ghost predicate Granted(requests: seq<Request>, level: int, back: int) {
    && requests != [] && Priced(ValidationCloud, requests) && SetBack(requests) == back
    && Play(VALIDATION_CLOUD, requests).grants == requests
    && Play(VALIDATION_CLOUD, requests).meter.pace == Some(Pace(requests[|requests| - 1].now, level))
    && exists cu: nat :: cu <= 1000 * |requests| && Play(VALIDATION_CLOUD, requests).meter.usage == [Usage(0, cu)]
  }

  lemma FirstCall(now: int, n: nat)
    requires 0 < n <= RPC_BATCH_SIZE
    ensures Granted([Call(now, n)], 1000 * n, 0)
  {
    hide IsPriced;
    CallIsPriced(now, n);
    PlaySnoc(VALIDATION_CLOUD, [], Call(now, n));
    assert [] + [Call(now, n)] == [Call(now, n)];
    assert Prune([], 0) == [] && Upsert([], 0, 10 * n) == [Usage(0, 10 * n)];
  }

  lemma NextCall(requests: seq<Request>, level: int, back: int, now: int, n: nat)
    requires Granted(requests, level, back) && 0 < n <= RPC_BATCH_SIZE && |requests| <= 100
    requires Drained(Pace(requests[|requests| - 1].now, level), now, 60) + 1000 * n <= 60_000
    ensures var last := requests[|requests| - 1].now;
            Granted(requests + [Call(now, n)], Drained(Pace(last, level), now, 60) + 1000 * n,
                    back + Max(0, last - now))
  {
    hide Priced, Play, Consume, Drained, SetBack;
    PricedSnoc(requests, now, n);
    PlaySnoc(VALIDATION_CLOUD, requests, Call(now, n));
    BackSnoc(requests, Call(now, n));
    var cu: nat :| cu <= 1000 * |requests| && Play(VALIDATION_CLOUD, requests).meter.usage == [Usage(0, cu)];
    CallGranted(cu, requests[|requests| - 1].now, level, now, n);
  }

  lemma CallGranted(cu: nat, at: int, level: int, now: int, n: nat)
    requires cu <= 100_000 && n <= RPC_BATCH_SIZE && Drained(Pace(at, level), now, 60) + 1000 * n <= 60_000
    ensures var (meter, verdict) := Consume(Meter([Usage(0, cu)], Some(Pace(at, level))), VALIDATION_CLOUD,
                                            Call(now, n));
            && verdict.Allowed?
            && meter == Meter([Usage(0, cu + 10 * n)], Some(Pace(now, Drained(Pace(at, level), now, 60) + 1000 * n)))
  {
    hide Prune, Total, Upsert, Drained;
    OneRow(cu, 10 * n);
  }

  lemma OneRow(cu: nat, more: nat)
    ensures Prune([Usage(0, cu)], 0) == [Usage(0, cu)] && Total([Usage(0, cu)]) == cu
    ensures Upsert([Usage(0, cu)], 0, more) == [Usage(0, cu + more)]
  {
    assert [Usage(0, cu)][..0] == [];
  }

  /** Sixty-one calls in one instant, with a single call 34 milliseconds earlier in between. */
  function Burst61(): seq<Request> {
    [Call(1000, 20)] + [Call(1000, 20)] + [Call(966, 1)] + [Call(1000, 20)] + [Call(1000, 1)]
  }

  lemma BurstOverruns()
    ensures Priced(ValidationCloud, Burst61()) && SetBack(Burst61()) == 34
    ensures WeightIn(Play(VALIDATION_CLOUD, Burst61()).grants, 1000, 1000) == 61
  {
    hide Granted;
    var a := [Call(1000, 20)];
    var b := a + [Call(1000, 20)];
    var d := b + [Call(966, 1)];
    var e := d + [Call(1000, 20)];
    FirstCall(1000, 20);
    NextCall(a, 20_000, 0, 1000, 20);
    NextCall(b, 40_000, 0, 966, 1);
    NextCall(d, 41_000, 34, 1000, 20);
    NextCall(e, 58_960, 34, 1000, 1);
    GrantedMeans(Burst61(), 59_960, 34);
    GrantSnoc([], Call(1000, 20), 1000, 1000);
    assert [] + a == a;
    GrantSnoc(a, Call(1000, 20), 1000, 1000);
    GrantSnoc(b, Call(966, 1), 1000, 1000);
    GrantSnoc(d, Call(1000, 20), 1000, 1000);
    GrantSnoc(e, Call(1000, 1), 1000, 1000);
  }

  lemma GrantedMeans(requests: seq<Request>, level: int, back: int)
    requires Granted(requests, level, back)
    ensures Priced(ValidationCloud, requests) && SetBack(requests) == back
            && Play(VALIDATION_CLOUD, requests).grants == requests
  {}

  ghost predicate AtMostSixtyAtOnce(requests: seq<Request>) {
    forall t :: WeightIn(Play(VALIDATION_CLOUD, requests).grants, t, t) <= 60
  }

  /** The sixty-call bucket holds at every instant exactly while the clock has stepped back by at most 33
      milliseconds. */
  lemma SixtyAtOnceUpTo33ms(back: int)
    ensures (forall requests: seq<Request> :: Priced(ValidationCloud, requests) && SetBack(requests) <= back ==>
               AtMostSixtyAtOnce(requests))
            <==> back <= 33
  {
    hide Priced, SetBack, Play;
    if back <= 33 {
      forall requests: seq<Request> | Priced(ValidationCloud, requests) && SetBack(requests) <= back
        ensures AtMostSixtyAtOnce(requests)
      {
        AtOnce(requests);
      }
    } else {
      BurstOverruns();
    }
  }

  lemma AtOnce(requests: seq<Request>)
    requires Priced(ValidationCloud, requests) && SetBack(requests) <= 33
    ensures AtMostSixtyAtOnce(requests)
  {
    hide Priced, SetBack, Play, Paced, Level;
    PaceHolds(VALIDATION_CLOUD, requests);
    BackBound(VALIDATION_CLOUD, requests);
    PricedWeights(ValidationCloud, requests);
    GrantsWereRequested(VALIDATION_CLOUD, requests);
    var grants := Play(VALIDATION_CLOUD, requests).grants;
    forall j | 0 <= j < |grants|
      ensures 1 <= grants[j].weight
    {
      assert grants[j] in requests;
    }
  }

  /** Sixty-two calls in 33 milliseconds, in which 61.98 may refill, after a step back of one millisecond. */
  function OneMillisecond(): seq<Request> {
    [Call(0, 20)] + [Call(0, 20)] + [Call(0, 19)] + [Call(17, 1)] + [Call(16, 1)] + [Call(33, 1)]
  }

  lemma BackwardClockOverruns()
    ensures Priced(ValidationCloud, OneMillisecond()) && SetBack(OneMillisecond()) == 1
    ensures 1000 * WeightIn(Play(VALIDATION_CLOUD, OneMillisecond()).grants, 0, 33)
            > 1000 * VALIDATION_CLOUD.burst + VALIDATION_CLOUD.refill * (33 - 0)
  {
    hide Granted;
    var a := [Call(0, 20)];
    var b := a + [Call(0, 20)];
    var d := b + [Call(0, 19)];
    var e := d + [Call(17, 1)];
    var f := e + [Call(16, 1)];
    FirstCall(0, 20);
    NextCall(a, 20_000, 0, 0, 20);
    NextCall(b, 40_000, 0, 0, 19);
    NextCall(d, 59_000, 0, 17, 1);
    NextCall(e, 58_980, 0, 16, 1);
    NextCall(f, 59_980, 1, 33, 1);
    GrantedMeans(OneMillisecond(), 59_960, 1);
    GrantSnoc([], Call(0, 20), 0, 33);
    assert [] + a == a;
    GrantSnoc(a, Call(0, 20), 0, 33);
    GrantSnoc(b, Call(0, 19), 0, 33);
    GrantSnoc(d, Call(17, 1), 0, 33);
    GrantSnoc(e, Call(16, 1), 0, 33);
    GrantSnoc(f, Call(33, 1), 0, 33);
  }

  ghost predicate WithinPace(requests: seq<Request>) {
    forall from, to :: from <= to ==>
      1000 * WeightIn(Play(VALIDATION_CLOUD, requests).grants, from, to)
          <= 1000 * VALIDATION_CLOUD.burst + VALIDATION_CLOUD.refill * (to - from)
  }

  /** The pace limit holds for every interval exactly while the clock never steps back at all. */
  lemma PaceHoldsIffNeverBack(back: int)
    ensures (forall requests: seq<Request> :: Priced(ValidationCloud, requests) && SetBack(requests) <= back ==>
               WithinPace(requests))
            <==> back <= 0
  {
    hide Priced, SetBack, Play;
    if back <= 0 {
      forall requests: seq<Request> | Priced(ValidationCloud, requests) && SetBack(requests) <= back
        ensures WithinPace(requests)
      {
        forall from, to | from <= to
          ensures 1000 * WeightIn(Play(VALIDATION_CLOUD, requests).grants, from, to)
                  <= 1000 * VALIDATION_CLOUD.burst + VALIDATION_CLOUD.refill * (to - from)
        {
          PaceUnderAnyClock(VALIDATION_CLOUD, requests, from, to);
        }
      }
    } else {
      BackwardClockOverruns();
    }
  }
}

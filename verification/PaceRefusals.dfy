/** The pace refuses only what it must: a request that the budget has room for is granted exactly when it keeps the
    pace. */
module PaceRefusals {
  import opened Basics
  import opened Metering
  import opened Pacing

  /** The level is exactly what one of the grants and everything since has left in the bucket. */
  ghost predicate Exactly(pace: Pace, grants: seq<Request>, refill: nat, i: nat)
    requires i < |grants|
  {
    1000 * WeightSince(grants, i)
    == pace.level + refill * (pace.at - grants[i].now + SetBack(grants) - SetBack(grants[..i + 1]))
  }

  ghost predicate Tight(pace: Pace, grants: seq<Request>, refill: nat) {
    && 0 <= pace.level && (grants != [] ==> pace.at == grants[|grants| - 1].now)
    && (pace.level == 0 || exists i: nat :: i < |grants| && Exactly(pace, grants, refill, i))
  }

  ghost predicate TightHistory(h: History, refill: nat) {
    match h.meter.pace case None => h.grants == [] case Some(p) => Tight(p, h.grants, refill)
  }

  lemma DrainedCases(pace: Pace, now: int, refill: nat)
    ensures 0 <= Drained(pace, now, refill)
    ensures Drained(pace, now, refill) == 0 || Drained(pace, now, refill) == pace.level - refill * Max(0, now - pace.at)
  {}

  /** What was exact before the request is exact after it, as long as the bucket did not run empty. */
  lemma StaysExact(pace: Pace, grants: seq<Request>, refill: nat, i: nat, r: Request)
    requires i < |grants| && pace.at == grants[|grants| - 1].now && Exactly(pace, grants, refill, i)
    requires Drained(pace, r.now, refill) == pace.level - refill * Max(0, r.now - pace.at)
    ensures Exactly(Pace(r.now, Drained(pace, r.now, refill) + 1000 * r.weight), grants + [r], refill, i)
  {
    hide Drained, SetBack, WeightSince;
    BackSnoc(grants, r);
    SinceSnoc(grants, r, i);
    SinceSnoc(grants, r, i + 1);
    var ahead := Max(0, r.now - pace.at);
    var spent := pace.at - grants[i].now + SetBack(grants) - SetBack(grants[..i + 1]);
    Distribute(refill, spent, ahead);
    assert (grants + [r])[..i + 1] == grants[..i + 1] && (grants + [r])[i] == grants[i];
    assert r.now - grants[i].now + SetBack(grants + [r]) - SetBack((grants + [r])[..i + 1]) == spent + ahead;
  }

  lemma NewIsExact(grants: seq<Request>, refill: nat, r: Request)
    ensures Exactly(Pace(r.now, 1000 * r.weight), grants + [r], refill, |grants|)
  {
    hide SetBack;
    assert (grants + [r])[..|grants| + 1] == grants + [r];
    SinceSnoc(grants, r, |grants|);
    assert refill * 0 == 0;
  }

  /** After a request, granted or not, the bucket would hold exactly what some stretch of grants up to it left there. */
  lemma WouldBeExact(pace: Pace, grants: seq<Request>, refill: nat, r: Request) returns (i: nat)
    requires Tight(pace, grants, refill)
    ensures i <= |grants| && Exactly(Pace(r.now, Drained(pace, r.now, refill) + 1000 * r.weight), grants + [r], refill,
                                     i)
  {
    hide Drained, Exactly;
    DrainedCases(pace, r.now, refill);
    if Drained(pace, r.now, refill) == 0 {
      i := |grants|;
      NewIsExact(grants, refill, r);
    } else {
      MulMonotone(refill, 0, Max(0, r.now - pace.at));
      i :| i < |grants| && Exactly(pace, grants, refill, i);
      StaysExact(pace, grants, refill, i, r);
    }
  }

  lemma TightStep(h: History, plan: Plan, r: Request)
    requires TightHistory(h, plan.refill)
    ensures var (meter, verdict) := Consume(h.meter, plan, r);
            TightHistory(History(meter, if verdict.Allowed? then h.grants + [r] else h.grants), plan.refill)
  {
    hide Drained, Prune, Total, Upsert, Exactly;
    var pace := if h.meter.pace.None? then Pace(r.now, 0) else h.meter.pace.value;
    if Consume(h.meter, plan, r).1.Allowed? {
      DrainedCases(pace, r.now, plan.refill);
      var i := WouldBeExact(pace, h.grants, plan.refill, r);
    }
  }

  lemma {:induction false} AlwaysTight(plan: Plan, requests: seq<Request>)
    ensures TightHistory(Play(plan, requests), plan.refill)
  {
    hide Tight, Consume;
    if requests != [] {
      AlwaysTight(plan, requests[..|requests| - 1]);
      TightStep(Play(plan, requests[..|requests| - 1]), plan, requests[|requests| - 1]);
    }
  }

  /** Under a clock that does not run back, everything since a grant lies in the interval that it opens. */
  lemma {:induction false} SinceIsInside(log: seq<Request>, i: nat, to: int)
    requires Chronological(log) && i < |log| && forall j :: 0 <= j < |log| ==> log[j].now <= to
    ensures WeightSince(log, i) <= WeightIn(log, log[i].now, to)
  {
    var n := |log| - 1;
    if i < n {
      SinceIsInside(log[..n], i, to);
    } else {
      WeightIsNatural(log[..n], log[i].now, to);
      assert WeightSince(log[..n], n) == 0;
    }
  }

  lemma GrantsInOrder(plan: Plan, requests: seq<Request>, r: Request)
    requires Chronological(requests + [r])
    ensures Chronological(Play(plan, requests).grants + [r])
    ensures forall j :: 0 <= j <= |Play(plan, requests).grants| ==> (Play(plan, requests).grants + [r])[j].now <= r.now
  {
    hide Play;
    assert forall i :: 0 <= i < |requests| ==> (requests + [r])[i] == requests[i];
    GrantsKeepOrder(plan, requests);
    GrantsWereRequested(plan, requests);
    forall g | g in Play(plan, requests).grants
      ensures g.now <= r.now
    {
      var i :| 0 <= i < |requests| && requests[i] == g;
      assert (requests + [r])[i].now <= (requests + [r])[|requests|].now;
    }
  }

  lemma {:induction false} GrantsKeepOrder(plan: Plan, requests: seq<Request>)
    requires Chronological(requests)
    ensures Chronological(Play(plan, requests).grants)
  {
    hide Consume;
    if requests != [] {
      var front, r := requests[..|requests| - 1], requests[|requests| - 1];
      GrantsKeepOrder(plan, front);
      GrantsWereRequested(plan, front);
      forall g | g in Play(plan, front).grants
        ensures g.now <= r.now
      {
        var i :| 0 <= i < |front| && front[i] == g;
        assert requests[i] == g;
      }
    }
  }

  /** Every interval up to the request would still keep the pace if it were granted. */
  ghost predicate KeepsPace(plan: Plan, grants: seq<Request>, r: Request) {
    forall from :: from <= r.now ==>
      1000 * WeightIn(grants + [r], from, r.now) <= 1000 * plan.burst + plan.refill * (r.now - from)
  }

  /** With a clock that does not run back, a request that the window has room for is granted exactly when every interval
      up to it still keeps the pace; otherwise it is refused for the rate. */
  lemma PaceIsExact(plan: Plan, requests: seq<Request>, r: Request)
    requires Chronological(requests + [r]) && 0 <= plan.burst
    ensures var verdict := Consume(Play(plan, requests).meter, plan, r).1;
            !verdict.BudgetReached? ==> (verdict.Allowed? <==> KeepsPace(plan, Play(plan, requests).grants, r))
  {
    hide Consume, Play, WeightIn;
    if Consume(Play(plan, requests).meter, plan, r).1.Allowed? {
      PlaySnoc(plan, requests, r);
      forall from | from <= r.now
        ensures 1000 * WeightIn(Play(plan, requests).grants + [r], from, r.now)
                <= 1000 * plan.burst + plan.refill * (r.now - from)
      {
        PaceNeverExceedsRefill(plan, requests + [r], from, r.now);
      }
    } else if Consume(Play(plan, requests).meter, plan, r).1.RateReached? {
      var from := RateRefusalBreaks(plan, requests, r);
      assert from <= r.now;
    }
  }

  lemma RateRefusalBreaks(plan: Plan, requests: seq<Request>, r: Request) returns (from: int)
    requires Chronological(requests + [r]) && Consume(Play(plan, requests).meter, plan, r).1.RateReached?
    ensures from <= r.now
    ensures 1000 * WeightIn(Play(plan, requests).grants + [r], from, r.now) > 1000 * plan.burst
            + plan.refill * (r.now - from)
  {
    hide Play, WeightIn, Drained, Prune, Total, Upsert, SetBack, WeightSince;
    var h := Play(plan, requests);
    var pace := if h.meter.pace.None? then Pace(r.now, 0) else h.meter.pace.value;
    AlwaysTight(plan, requests);
    GrantsInOrder(plan, requests, r);
    var all := h.grants + [r];
    var i := WouldBeExact(pace, h.grants, plan.refill, r);
    NeverBack(all);
    NeverBackBefore(all, i);
    SinceIsInside(all, i, r.now);
    from := all[i].now;
  }

  lemma NeverBackBefore(log: seq<Request>, i: nat)
    requires Chronological(log) && i < |log|
    ensures SetBack(log[..i + 1]) == 0
  {
    NeverBack(log[..i + 1]);
  }
}

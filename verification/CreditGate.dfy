/** The paid lane's credit reservation: one row of counters against the log of every grant. */
module CreditGate {
  import opened Basics

  const MAX_ALLOWANCE := 10_000_000
  const PER_MINUTE := 1_000
  const PER_DAY := 40_000

  datatype Counters = Counters(total: int, minute: int, minuteUsed: int, day: int, dayUsed: int)
  datatype Call = Call(credits: int, now: int)
  datatype Failure = BadAllowance | BadCredits

  const ZERO := Counters(0, 0, 0, 0, 0)

  function Reserve(u: Counters, allowance: int, c: Call): (Counters, bool) {
    var minuteUsed := if u.minute == c.now / 60 then u.minuteUsed else 0;
    var dayUsed := if u.day == c.now / 86400 then u.dayUsed else 0;
    if u.total + c.credits > allowance || minuteUsed + c.credits > PER_MINUTE || dayUsed + c.credits > PER_DAY
    then (u, false)
    else (Counters(u.total + c.credits, c.now / 60, minuteUsed + c.credits, c.now / 86400, dayUsed + c.credits), true)
  }

  class Budget {
    const allowance: int
    var usage: Counters

    constructor (allowance: int, usage: Counters)
      requires 0 < allowance <= MAX_ALLOWANCE
      ensures this.allowance == allowance && this.usage == usage
    {
      this.allowance := allowance;
      this.usage := usage;
    }

    /** A refusal, whatever its reason, leaves the stored row as it was. */
    method Take(c: Call) returns (r: Result<bool, Failure>)
      modifies this
      ensures c.credits <= 0 ==> r == Err(BadCredits) && usage == old(usage)
      ensures c.credits > 0 ==> r.Ok? && (usage, r.value) == Reserve(old(usage), allowance, c)
    {
      if c.credits <= 0 { return Err(BadCredits); }
      var Counters(total, minute, minuteUsed, day, dayUsed) := usage;
      if minute != c.now / 60 { minuteUsed := 0; }
      if day != c.now / 86400 { dayUsed := 0; }
      if total + c.credits > allowance || minuteUsed + c.credits > PER_MINUTE || dayUsed + c.credits > PER_DAY {
        return Ok(false);
      }
      usage := Counters(total + c.credits, c.now / 60, minuteUsed + c.credits, c.now / 86400, dayUsed + c.credits);
      return Ok(true);
    }
  }

  /** `stored` is the row of an existing file, which opening keeps; a new file starts from zero. */
  method OpenBudget(allowance: int, stored: Option<Counters>) returns (r: Result<Budget, Failure>)
    ensures r.Ok? <==> 0 < allowance <= MAX_ALLOWANCE
    ensures r.Ok? ==> fresh(r.value) && r.value.allowance == allowance && r.value.usage == stored.GetOr(ZERO)
    ensures r.Err? ==> r.error == BadAllowance
  {
    if !(0 < allowance <= MAX_ALLOWANCE) { return Err(BadAllowance); }
    var b := new Budget(allowance, stored.GetOr(ZERO));
    return Ok(b);
  }

  // ---------------------------------------------------------------- the log of every grant

  datatype History = History(usage: Counters, grants: seq<Call>)

  function Play(allowance: int, calls: seq<Call>): History {
    if calls == [] then History(ZERO, [])
    else
      var h, c := Play(allowance, calls[..|calls| - 1]), calls[|calls| - 1];
      if c.credits <= 0 then h
      else
        var (usage, granted) := Reserve(h.usage, allowance, c);
        History(usage, if granted then h.grants + [c] else h.grants)
  }

  /** Credits granted at times from … to. */
  function Granted(grants: seq<Call>, from: int, to: int): int {
    if grants == [] then 0
    else
      var c := grants[|grants| - 1];
      Granted(grants[..|grants| - 1], from, to) + (if from <= c.now <= to then c.credits else 0)
  }

  function Spent(grants: seq<Call>): int {
    if grants == [] then 0 else Spent(grants[..|grants| - 1]) + grants[|grants| - 1].credits
  }

  function InMinute(grants: seq<Call>, m: int): int {
    Granted(grants, 60 * m, 60 * m + 59)
  }

  function InDay(grants: seq<Call>, d: int): int {
    Granted(grants, 86400 * d, 86400 * d + 86399)
  }

  lemma GrantSnoc(grants: seq<Call>, c: Call, from: int, to: int)
    ensures Granted(grants + [c], from, to) == Granted(grants, from, to)
            + (if from <= c.now <= to then c.credits else 0)
    ensures Spent(grants + [c]) == Spent(grants) + c.credits
  {
    assert (grants + [c])[..|grants|] == grants;
  }

  /** For any clock at all, the allowance is never exceeded. */
  lemma {:induction false} AllowanceHolds(allowance: int, calls: seq<Call>)
    requires 0 <= allowance
    ensures Play(allowance, calls).usage.total == Spent(Play(allowance, calls).grants) <= allowance
  {
    if calls != [] {
      var front := calls[..|calls| - 1];
      AllowanceHolds(allowance, front);
      GrantSnoc(Play(allowance, front).grants, calls[|calls| - 1], 0, 0);
    }
  }

  /** Credits of the newest grants for as long as they fall into one minute, or one day. */
  function MinuteRun(grants: seq<Call>, m: int): int {
    if grants == [] || grants[|grants| - 1].now / 60 != m then 0
    else MinuteRun(grants[..|grants| - 1], m) + grants[|grants| - 1].credits
  }

  function DayRun(grants: seq<Call>, d: int): int {
    if grants == [] || grants[|grants| - 1].now / 86400 != d then 0
    else DayRun(grants[..|grants| - 1], d) + grants[|grants| - 1].credits
  }

  ghost predicate RunsExact(h: History) {
    && h.usage.total == Spent(h.grants)
    && (forall m :: MinuteRun(h.grants, m) == if h.usage.minute == m then h.usage.minuteUsed else 0)
    && (forall d :: DayRun(h.grants, d) == if h.usage.day == d then h.usage.dayUsed else 0)
  }

  /** For any clock at all: the row holds exactly these runs, and a call is granted exactly when the allowance and both
      of them have room for it. A clock that steps back over a boundary starts a new run. */
  lemma RunsDecide(allowance: int, calls: seq<Call>, c: Call)
    requires 0 < c.credits
    ensures var h := Play(allowance, calls);
            Reserve(h.usage, allowance, c).1 <==>
              && Spent(h.grants) + c.credits <= allowance
              && MinuteRun(h.grants, c.now / 60) + c.credits <= 1_000
              && DayRun(h.grants, c.now / 86400) + c.credits <= 40_000
  {
    hide Play, MinuteRun, DayRun, Spent;
    RunsHold(allowance, calls);
  }

  lemma {:induction false} RunsHold(allowance: int, calls: seq<Call>)
    ensures RunsExact(Play(allowance, calls))
  {
    if calls != [] {
      hide RunsExact, Reserve;
      RunsHold(allowance, calls[..|calls| - 1]);
      RunsStep(Play(allowance, calls[..|calls| - 1]), allowance, calls[|calls| - 1]);
    }
  }

  lemma RunsStep(h: History, allowance: int, c: Call)
    requires RunsExact(h)
    ensures var (usage, granted) := Reserve(h.usage, allowance, c);
            RunsExact(History(usage, if granted then h.grants + [c] else h.grants))
  {
    var grants := h.grants + [c];
    assert grants[..|h.grants|] == h.grants;
    assert forall m ::
        MinuteRun(grants, m) == if c.now / 60 == m then MinuteRun(h.grants, m) + c.credits else 0;
    assert forall d ::
        DayRun(grants, d) == if c.now / 86400 == d then DayRun(h.grants, d) + c.credits else 0;
  }

  ghost predicate Chronological(calls: seq<Call>) {
    forall i, j :: 0 <= i < j < |calls| ==> calls[i].now <= calls[j].now
  }

  /** The two rolling counters hold exactly what the log says of the last grant's minute and day. */
  ghost predicate Exact(h: History) {
    if h.grants == [] then h.usage == ZERO
    else
      var last := h.grants[|h.grants| - 1].now;
      && (forall i :: 0 <= i < |h.grants| ==> h.grants[i].now <= last)
      && h.usage == Counters(Spent(h.grants), last / 60, InMinute(h.grants, last / 60), last / 86400,
                             InDay(h.grants, last / 86400))
  }

  ghost predicate Capped(grants: seq<Call>) {
    && (forall m :: InMinute(grants, m) <= PER_MINUTE)
    && (forall d :: InDay(grants, d) <= PER_DAY)
  }

  lemma {:induction false} NothingSince(grants: seq<Call>, from: int, to: int)
    requires forall i :: 0 <= i < |grants| ==> grants[i].now < from
    ensures Granted(grants, from, to) == 0
  {
    if grants != [] {
      NothingSince(grants[..|grants| - 1], from, to);
    }
  }

  /** Under a clock that does not run back, a stale counter means that nothing was granted since. */
  lemma CountersAt(h: History, now: int)
    requires Exact(h) && forall i :: 0 <= i < |h.grants| ==> h.grants[i].now <= now
    ensures (if h.usage.minute == now / 60 then h.usage.minuteUsed else 0) == InMinute(h.grants, now / 60)
    ensures (if h.usage.day == now / 86400 then h.usage.dayUsed else 0) == InDay(h.grants, now / 86400)
    ensures h.usage.total == Spent(h.grants)
  {
    if h.grants != [] {
      var last := h.grants[|h.grants| - 1].now;
      assert last <= now;
      if h.usage.minute != now / 60 {
        NothingSince(h.grants, 60 * (now / 60), 60 * (now / 60) + 59);
      }
      if h.usage.day != now / 86400 {
        NothingSince(h.grants, 86400 * (now / 86400), 86400 * (now / 86400) + 86399);
      }
    }
  }

  lemma ExactAfter(grants: seq<Call>, c: Call)
    requires forall i :: 0 <= i < |grants| ==> grants[i].now <= c.now
    ensures var m, d := c.now / 60, c.now / 86400;
            Exact(History(Counters(Spent(grants) + c.credits, m, InMinute(grants, m) + c.credits,
                                   d, InDay(grants, d) + c.credits), grants + [c]))
  {
    hide Granted, Spent;
    var m, d := c.now / 60, c.now / 86400;
    GrantSnoc(grants, c, 60 * m, 60 * m + 59);
    GrantSnoc(grants, c, 86400 * d, 86400 * d + 86399);
  }

  /** The compact row decides exactly as the full log would. */
  lemma ReserveRefinesLog(h: History, allowance: int, c: Call)
    requires Exact(h) && 0 < c.credits && forall i :: 0 <= i < |h.grants| ==> h.grants[i].now <= c.now
    ensures var (usage, granted) := Reserve(h.usage, allowance, c);
            && (granted <==> Spent(h.grants) + c.credits <= allowance
                             && InMinute(h.grants, c.now / 60) + c.credits <= PER_MINUTE
                             && InDay(h.grants, c.now / 86400) + c.credits <= PER_DAY)
            && (!granted ==> usage == h.usage)
            && (granted ==> Exact(History(usage, h.grants + [c])))
  {
    CountersAt(h, c.now);
    ExactAfter(h.grants, c);
    hide Exact, InMinute, InDay, Spent;
  }

  lemma GrantCapped(grants: seq<Call>, c: Call)
    requires Capped(grants) && InMinute(grants, c.now / 60) + c.credits <= PER_MINUTE
             && InDay(grants, c.now / 86400) + c.credits <= PER_DAY
    ensures Capped(grants + [c])
  {
    hide Granted;
    forall m
      ensures InMinute(grants + [c], m) <= PER_MINUTE
    {
      GrantSnoc(grants, c, 60 * m, 60 * m + 59);
      assert 60 * m <= c.now <= 60 * m + 59 ==> m == c.now / 60;
      assert InMinute(grants, m) <= PER_MINUTE;
    }
    forall d
      ensures InDay(grants + [c], d) <= PER_DAY
    {
      GrantSnoc(grants, c, 86400 * d, 86400 * d + 86399);
      assert 86400 * d <= c.now <= 86400 * d + 86399 ==> d == c.now / 86400;
      assert InDay(grants, d) <= PER_DAY;
    }
  }

  lemma {:induction false} EmptyCapped()
    ensures Capped([])
  {
    forall m
      ensures InMinute([], m) <= PER_MINUTE
    {}
    forall d
      ensures InDay([], d) <= PER_DAY
    {}
  }

  /** With a clock that does not run back, no calendar minute exceeds 1000 credits and no calendar day
      40,000, and the row stays exact. */
  lemma {:induction false} CalendarCapsHold(allowance: int, calls: seq<Call>, now: int)
    requires Chronological(calls) && forall i :: 0 <= i < |calls| ==> calls[i].now <= now
    ensures var h := Play(allowance, calls);
            Exact(h) && Capped(h.grants) && forall i :: 0 <= i < |h.grants| ==> h.grants[i].now <= now
  {
    if calls == [] {
      EmptyCapped();
    } else {
      var front, c := calls[..|calls| - 1], calls[|calls| - 1];
      CalendarCapsHold(allowance, front, c.now);
      var h := Play(allowance, front);
      if c.credits > 0 {
        ReserveRefinesLog(h, allowance, c);
        if Reserve(h.usage, allowance, c).1 {
          GrantCapped(h.grants, c);
        }
      }
    }
  }

  lemma {:induction false} SpanSplits(grants: seq<Call>, from: int, middle: int, to: int)
    requires from <= middle <= to
    ensures Granted(grants, from, to) == Granted(grants, from, middle) + Granted(grants, middle + 1, to)
  {
    if grants != [] {
      SpanSplits(grants[..|grants| - 1], from, middle, to);
    }
  }

  lemma {:induction false} NarrowerSpan(grants: seq<Call>, from: int, to: int, earlier: int, later: int)
    requires earlier <= from && to <= later && forall i :: 0 <= i < |grants| ==> 0 <= grants[i].credits
    ensures Granted(grants, from, to) <= Granted(grants, earlier, later)
  {
    if grants != [] {
      NarrowerSpan(grants[..|grants| - 1], from, to, earlier, later);
    }
  }

  lemma {:induction false} GrantsArePositive(allowance: int, calls: seq<Call>)
    ensures forall i :: 0 <= i < |Play(allowance, calls).grants| ==> 0 < Play(allowance, calls).grants[i].credits
  {
    if calls != [] {
      GrantsArePositive(allowance, calls[..|calls| - 1]);
    }
  }

  /** Any sixty seconds touch at most two calendar minutes, hence at most 2000 credits. */
  lemma SixtySecondsHold(allowance: int, calls: seq<Call>, from: int)
    requires Chronological(calls)
    ensures Granted(Play(allowance, calls).grants, from, from + 59) <= 2 * PER_MINUTE
  {
    var grants := Play(allowance, calls).grants;
    var m := from / 60;
    CalendarCapsHold(allowance, calls, if calls == [] then 0 else calls[|calls| - 1].now);
    GrantsArePositive(allowance, calls);
    assert InMinute(grants, m) <= PER_MINUTE && InMinute(grants, m + 1) <= PER_MINUTE;
    SpanSplits(grants, 60 * m, 60 * m + 59, 60 * m + 119);
    NarrowerSpan(grants, from, from + 59, 60 * m, 60 * m + 119);
  }
}

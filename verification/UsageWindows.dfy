/** The pruned usage table under a clock that may step back: a deleted day can come back into the window. */
module UsageWindows {
  import opened Basics
  import opened Metering
  import opened Pacing

  // ---------------------------------------------------------------- batches

  /** Twenty raw transactions: 800 compute units, and 1000 of throughput, which drain in ten seconds. */
  function Full(now: int): Request {
    Request(now, now / DAY_LENGTH, 800, 1_000)
  }

  /** One chain-id read: no compute units. */
  function Free(now: int): Request {
    Request(now, now / DAY_LENGTH, 0, 5)
  }

  function Sends(n: nat): seq<string> {
    seq(n, _ => "eth_sendRawTransaction")
  }

  lemma {:induction false} SendsCost(n: nat)
    ensures CostOf(Alchemy, Sends(n)) == 40 * n && WeightOf(Alchemy, Sends(n)) == 50 * n
  {
    hide CostOf, WeightOf;
    if n == 0 {
      EmptyBatch(Alchemy);
      assert Sends(0) == [];
    } else {
      SendsCost(n - 1);
      BatchSnoc(Alchemy, Sends(n - 1), "eth_sendRawTransaction");
      assert Sends(n - 1) + ["eth_sendRawTransaction"] == Sends(n);
    }
  }

  lemma FullIsPriced(now: int)
    ensures IsPriced(Alchemy, Full(now))
  {
    hide CostOf, WeightOf;
    SendsCost(20);
    assert Prices(Alchemy, Sends(20), Full(now));
  }

  lemma FreeIsPriced(now: int)
    ensures IsPriced(Alchemy, Free(now))
  {
    hide CostOf, WeightOf;
    EmptyBatch(Alchemy);
    BatchSnoc(Alchemy, [], "eth_chainId");
    assert [] + ["eth_chainId"] == ["eth_chainId"];
    assert Prices(Alchemy, ["eth_chainId"], Free(now));
  }

  // ---------------------------------------------------------------- spending the whole limit

  /** A full batch every ten seconds. */
  function Filling(n: nat): seq<Request> {
    if n == 0 then [] else Filling(n - 1) + [Full(10_000 * (n - 1))]
  }

  lemma {:induction false} FillingShape(n: nat)
    ensures |Filling(n)| == n && forall i :: 0 <= i < n ==> Filling(n)[i] == Full(10_000 * i)
  {
    if n > 0 { FillingShape(n - 1); }
  }

  lemma FillingOrder(n: nat)
    ensures Chronological(Filling(n)) && InOrder(Filling(n)) && Dated(Filling(n)) && Priced(Alchemy, Filling(n))
  {
    hide IsPriced, Filling;
    FillingShape(n);
    forall r | r in Filling(n)
      ensures IsPriced(Alchemy, r) && r.period == r.now / DAY_LENGTH
    {
      var i :| 0 <= i < n && Filling(n)[i] == r;
      FullIsPriced(10_000 * i);
    }
    forall i, j | 0 <= i < j < n
      ensures Filling(n)[i].period <= Filling(n)[j].period
    {
      LaterDay(10_000 * i, 10_000 * j);
    }
  }

  lemma LaterDay(a: int, b: int)
    requires a <= b
    ensures a / DAY_LENGTH <= b / DAY_LENGTH
  {}

  lemma {:induction false} FillingCost(n: nat, from: int, to: int)
    requires from <= 0 && 10_000 * n <= DAY_LENGTH * to
    ensures CostIn(Filling(n), from, to) == 800 * n
  {
    if n > 0 {
      FillingCost(n - 1, from, to);
      GrantSnoc(Filling(n - 1), Full(10_000 * (n - 1)), from, to);
    }
  }

  /** What a run of grants leaves: its log, and the bucket. */
  ghost predicate Took(requests: seq<Request>, level: int) {
    && requests != [] && Play(ALCHEMY, requests).grants == requests
    && Play(ALCHEMY, requests).meter.pace == Some(Pace(requests[|requests| - 1].now, level))
  }

  /** One more request is granted when the window and the bucket have room. */
  lemma Takes(requests: seq<Request>, level: int, r: Request)
    requires Took(requests, level)
    requires Total(Prune(Play(ALCHEMY, requests).meter.usage, r.period - 31)) + r.cost <= ALCHEMY.limit
    requires Drained(Pace(requests[|requests| - 1].now, level), r.now, 100) + 1000 * r.weight <= 1_200_000
    ensures Took(requests + [r], Drained(Pace(requests[|requests| - 1].now, level), r.now, 100) + 1000 * r.weight)
    ensures Play(ALCHEMY, requests + [r]).meter.usage
            == Upsert(Prune(Play(ALCHEMY, requests).meter.usage, r.period - 31), r.period, r.cost)
  {
    hide Play, Prune, Total, Upsert, Drained;
    PlaySnoc(ALCHEMY, requests, r);
  }

  /** The table's sum is what the log says of the window. */
  lemma WindowTotal(requests: seq<Request>, period: int)
    requires InOrder(requests) && Before(requests, period)
    ensures Total(Prune(Play(ALCHEMY, requests).meter.usage, period - 31))
            == CostIn(Play(ALCHEMY, requests).grants, period - 31, period)
  {
    hide Play, Consume, Prune, Total;
    Metered(ALCHEMY, requests, period);
    PruneTotal(Play(ALCHEMY, requests).meter.usage, period - 31);
  }

  lemma FirstTook()
    ensures Took([Full(0)], 1_000_000)
  {
    PlaySnoc(ALCHEMY, [], Full(0));
    assert [] + [Full(0)] == [Full(0)];
    assert Prune([], -31) == [];
  }

  const BATCHES := 30_000

  /** Thirty thousand full batches, over the first four days, spend exactly the limit. */
  lemma {:induction false} FillingTakes(n: nat)
    requires 0 < n <= BATCHES
    ensures Took(Filling(n), 1_000_000)
  {
    hide Took;
    if n == 1 {
      FirstTook();
      assert Filling(0) == [] && Filling(1) == [] + [Full(0)] == [Full(0)];
    } else {
      FillingTakes(n - 1);
      FillingNext(n - 1);
    }
  }

  lemma FillingNext(n: nat)
    requires 0 < n < BATCHES && Took(Filling(n), 1_000_000)
    ensures Took(Filling(n + 1), 1_000_000)
  {
    hide Took, Play, Prune, Total, Filling, CostIn, Drained, InOrder, Before, Chronological, Dated, Priced;
    var front, r := Filling(n), Full(10_000 * n);
    FillingSnoc(n);
    FillingOrder(n);
    BeforeDay(front, n, r.period);
    WindowTotal(front, r.period);
    TookGrants(front, 1_000_000);
    FillingCostUpTo(n, r.period);
    DrainsInTen(10_000 * (n - 1));
    Takes(front, 1_000_000, r);
  }

  lemma FillingSnoc(n: nat)
    requires 0 < n
    ensures Filling(n + 1) == Filling(n) + [Full(10_000 * n)]
    ensures |Filling(n)| == n && Filling(n)[n - 1].now == 10_000 * (n - 1)
  {
    FillingShape(n);
  }

  lemma DrainsInTen(at: int)
    ensures Drained(Pace(at, 1_000_000), at + 10_000, 100) == 0
  {}

  lemma TookGrants(requests: seq<Request>, level: int)
    requires Took(requests, level)
    ensures requests != [] && Play(ALCHEMY, requests).grants == requests
  {}

  lemma BeforeDay(requests: seq<Request>, n: nat, day: int)
    requires requests == Filling(n) && day == 10_000 * n / DAY_LENGTH
    ensures Before(requests, day)
  {
    FillingShape(n);
    forall i | 0 <= i < n
      ensures requests[i].period <= day
    {
      LaterDay(10_000 * i, 10_000 * n);
    }
  }

  /** No window of the filling costs more than the whole of it. */
  lemma {:induction false} FillingCostUpTo(n: nat, to: int)
    requires n < BATCHES && to == 10_000 * n / DAY_LENGTH
    ensures CostIn(Filling(n), to - 31, to) + 800 <= ALCHEMY.limit
  {
    CostMonotone(Filling(n), to - 31, to, -31, 31);
    FillingCost(n, -31, 31);
  }

  // ---------------------------------------------------------------- a deleted day comes back

  /** The first day of the next window prunes day 0; a millisecond's step back then reopens a window that contains
      it. */
  function Reopening(): seq<Request> {
    Filling(BATCHES) + [Free(32 * DAY_LENGTH)] + [Full(32 * DAY_LENGTH - 1)]
  }

  lemma {:induction false} CostSplits(grants: seq<Request>, from: int, middle: int, to: int)
    requires from <= middle <= to
    ensures CostIn(grants, from, to) == CostIn(grants, from, middle) + CostIn(grants, middle + 1, to)
  {
    if grants != [] { CostSplits(grants[..|grants| - 1], from, middle, to); }
  }

  /** The first day holds at least the first batch. */
  lemma {:induction false} FirstDayCost(n: nat)
    requires 0 < n
    ensures 800 <= CostIn(Filling(n), 0, 0)
  {
    if n == 1 {
      assert Filling(0) == [];
      GrantSnoc([], Full(0), 0, 0);
    } else {
      FirstDayCost(n - 1);
      GrantSnoc(Filling(n - 1), Full(10_000 * (n - 1)), 0, 0);
    }
  }

  /** After the filling, days 1 to 32 have room for one more batch. */
  lemma RoomAfterDayZero()
    ensures CostIn(Filling(BATCHES), 0, 31) == 24_000_000 && CostIn(Filling(BATCHES), 0, 32) == 24_000_000
    ensures CostIn(Filling(BATCHES), 1, 32) + 800 <= 24_000_000
  {
    FillingCost(BATCHES, 0, 31);
    FillingCost(BATCHES, 0, 32);
    FirstDayCost(BATCHES);
    CostSplits(Filling(BATCHES), 0, 0, 32);
  }

  lemma PrunedAndReopened(usage: seq<Usage>)
    ensures Total(Prune(Upsert(Prune(usage, 1), 32, 0), 0)) == Total(Prune(usage, 1))
  {
    hide Prune, Upsert, Total;
    PruneTotal(Upsert(Prune(usage, 1), 32, 0), 0);
    UpsertFrom(Prune(usage, 1), 32, 0, 0);
    PruneFrom(usage, 1, 0);
    PruneTotal(usage, 1);
  }

  lemma ReopeningTakes()
    ensures Play(ALCHEMY, Reopening()).grants == Reopening()
  {
    hide Took, Play, Prune, Total, Upsert, CostIn, Filling, Consume;
    var fill, free, last := Filling(BATCHES), Free(32 * DAY_LENGTH), Full(32 * DAY_LENGTH - 1);
    var usage := Play(ALCHEMY, fill).meter.usage;
    FillingTakes(BATCHES);
    FillingShape(BATCHES);
    FillingOrder(BATCHES);
    TookGrants(fill, 1_000_000);
    BeforeDay32(fill);
    WindowTotal(fill, 32);
    RoomAfterDayZero();
    assert free.period == 32 && last.period == 31;
    assert fill[|fill| - 1].now == 299_990_000;
    Takes(fill, 1_000_000, free);
    PrunedAndReopened(usage);
    assert (fill + [free])[|fill|] == free;
    Takes(fill + [free], 5_000, last);
    TookGrants(fill + [free] + [last], 1_005_000);
  }

  lemma BeforeDay32(requests: seq<Request>)
    requires requests == Filling(BATCHES)
    ensures Before(requests, 32)
  {
    FillingShape(BATCHES);
  }

  lemma ReopeningIsPriced()
    ensures Priced(Alchemy, Reopening()) && Dated(Reopening()) && SetBack(Reopening()) == 1
  {
    hide IsPriced, Filling, SetBack;
    FillingShape(BATCHES);
    FillingOrder(BATCHES);
    FreeIsPriced(32 * DAY_LENGTH);
    FullIsPriced(32 * DAY_LENGTH - 1);
    NeverBack(Filling(BATCHES));
    BackSnoc(Filling(BATCHES), Free(32 * DAY_LENGTH));
    BackSnoc(Filling(BATCHES) + [Free(32 * DAY_LENGTH)], Full(32 * DAY_LENGTH - 1));
  }

  /** Days 0 to 31 hold one batch more than the limit. */
  lemma DeletedDayOverruns()
    ensures Priced(Alchemy, Reopening()) && Dated(Reopening()) && SetBack(Reopening()) == 1
    ensures CostIn(Play(ALCHEMY, Reopening()).grants, 0, 31) == 24_000_800
  {
    hide Play, CostIn, Filling, SetBack, Priced;
    ReopeningIsPriced();
    ReopeningTakes();
    RoomAfterDayZero();
    GrantSnoc(Filling(BATCHES), Free(32 * DAY_LENGTH), 0, 31);
    GrantSnoc(Filling(BATCHES) + [Free(32 * DAY_LENGTH)], Full(32 * DAY_LENGTH - 1), 0, 31);
  }

  // ---------------------------------------------------------------- the exact condition

  ghost predicate WithinLimit(requests: seq<Request>) {
    forall first, last :: first <= last <= first + 31 ==>
             CostIn(Play(ALCHEMY, requests).grants, first, last) <= 24_000_000
  }

  lemma {:induction false} NoStepBackIsChronological(requests: seq<Request>)
    requires SetBack(requests) <= 0
    ensures Chronological(requests)
  {
    if |requests| >= 2 {
      var front := requests[..|requests| - 1];
      NoStepBackIsChronological(front);
      assert front[|front| - 1] == requests[|requests| - 2];
      forall i, j | 0 <= i < j < |requests|
        ensures requests[i].now <= requests[j].now
      {
        if j == |requests| - 1 { assert requests[i] == front[i]; }
            else { assert requests[i] == front[i] && requests[j] == front[j]; }
      }
    }
  }

  lemma DaysInOrder(requests: seq<Request>)
    requires Chronological(requests) && Dated(requests)
    ensures InOrder(requests)
  {
    forall i, j | 0 <= i < j < |requests|
      ensures requests[i].period <= requests[j].period
    {
      LaterDay(requests[i].now, requests[j].now);
    }
  }

  /** Over all runs of priced batches, every 32 consecutive days stay within the limit exactly while the clock never
      steps back. */
  lemma LimitHoldsIffNeverBack(back: int)
    ensures (forall requests: seq<Request> ::
               Priced(Alchemy, requests) && Dated(requests) && SetBack(requests) <= back ==> WithinLimit(requests))
            <==> back <= 0
  {
    hide Priced, SetBack, Play, Dated, Reopening;
    if back <= 0 {
      forall requests: seq<Request> | Priced(Alchemy, requests) && Dated(requests) && SetBack(requests) <= back
        ensures WithinLimit(requests)
      {
        NoStepBackIsChronological(requests);
        DaysInOrder(requests);
        forall first, last | first <= last <= first + 31
          ensures CostIn(Play(ALCHEMY, requests).grants, first, last) <= 24_000_000
        {
          UsageNeverExceedsLimit(ALCHEMY, requests, first, last);
        }
      }
    } else {
      DeletedDayOverruns();
      assert !WithinLimit(Reopening());
    }
  }
}

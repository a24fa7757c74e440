/** How wide a window of mined gas the daily budget bounds: exactly a day less the clock skew. */
module ProtocolWindows {
  import opened Basics
  import opened Transactions
  import opened RequestLedger
  import opened RequestCommits
  import opened RequestSafety
  import opened Transport
  import opened Admission
  import opened Protocol
  import opened ProtocolSafety
  import opened ProtocolTheorems
  import opened ProtocolLevels
  import opened BroadcasterService

  // ---------------------------------------------------------------- runs in segments

  lemma {:induction false} RunConcat(c: Config, s: System, xs: seq<Step>, ys: seq<Step>)
    ensures Run(c, s, xs + ys) == Run(c, Run(c, s, xs), ys)
  {
    hide Apply;
    if ys == [] {
      assert xs + ys == xs;
    } else {
      RunConcat(c, s, xs, ys[..|ys| - 1]);
      assert (xs + ys)[..|xs + ys| - 1] == xs + ys[..|ys| - 1];
    }
  }

  lemma RunOne(c: Config, s: System, a: Step)
    ensures Run(c, s, [a]) == Apply(c, s, a)
  {
    hide Apply;
    assert [a][..0] == [] && Run(c, s, []) == s;
  }

  lemma RunTwo(c: Config, s: System, a: Step, b: Step)
    ensures Run(c, s, [a] + [b]) == Apply(c, Apply(c, s, a), b)
  {
    hide Apply;
    RunConcat(c, s, [a], [b]);
    RunOne(c, s, a);
    RunOne(c, Apply(c, s, a), b);
  }

  // ---------------------------------------------------------------- one request, from arrival to settlement

  function EntryOf(key: Key, tx: Tx): Entry {
    Entry(key, "", tx, Digest(tx), CapCost(tx), tx.nonce, None, 0, false)
  }

  /** The row once its receipt, at its full cap, and its fee have arrived. */
  function Mined(key: Key, tx: Tx, at: int, minedAt: int): Row {
    NewRow(EntryOf(key, tx), at).(response := Some(""), checkedAt := at, confirmed := true,
                                  actualCost := Some(CapCost(tx)),
                                  minedAt := Some(minedAt), assured := true, settlement := Some(FeeReceived))
  }

  function Answered(key: Key, tx: Tx, at: int): Row {
    NewRow(EntryOf(key, tx), at).(response := Some(""))
  }

  /** The service is up and nothing is in flight. */
  ghost predicate Quiet(s: System) {
    && s.mode.Serving? && s.mode.calls == map[] && s.mode.reconciliation.Idle?
    && !s.mode.gate.busy && s.mode.gate.activeKey.None?
    && WellFormed(s.ledger) && !Open(s.ledger)
  }

  ghost predicate Payable(c: Config, s: System, key: Key, tx: Tx, at: int) {
    && Accepts(c.terms, tx, false) && Guarded(c.terms, tx, false) && 0 < CapCost(tx) && tx.nonce <= MAX_SAFE_INTEGER
    && s.clock <= at && Exposure(s.ledger, at) + CapCost(tx) <= c.budget
    && (s.transport.Some? ==> s.transport.value.nonce < tx.nonce) && Admissible(s, key)
  }

  /** The request is new and the rates have room for it. */
  ghost predicate Admissible(s: System, key: Key) {
    && Get(s.ledger, key).None?
    && s.mode.Serving? && |s.mode.gate.attempts| < MAX_ATTEMPTS && |s.mode.gate.lastRequests| < MAX_REQUESTS
  }

  function Intake(id: nat, key: Key): seq<Step> {
    [Arrive(id, key)] + [Consider(id, WELCOME, 0, "")]
  }

  function Submission(id: nat, key: Key, tx: Tx, at: int): seq<Step> {
    ([SignRequest(id, EntryOf(key, tx), at, at, 0)] + [StageRequest(id, Observation(tx.nonce, tx.nonce))])
        + ([Submit(id)] + [Succeed(id, "")])
  }

  function Settlement(tx: Tx, at: int, minedAt: int): seq<Step> {
    ([ReconcileBegin] + [ReconcileNext(at)])
        + ([ReconcileReceipt(true, true, CapCost(tx), minedAt)] + [ReconcileSettle]) + [ReconcileNext(at)]
  }

  lemma IntakeReserves(c: Config, s: System, id: nat, key: Key)
    requires Quiet(s) && Admissible(s, key)
    ensures var s' := Run(c, s, Intake(id, key));
            && s'.mode.Serving? && s' == s.(mode := s.mode.(gate := s'.mode.gate, calls := map[id := Holding(key)]))
            && |s'.mode.gate.attempts| <= |s.mode.gate.attempts| + 1
               && |s'.mode.gate.lastRequests| <= |s.mode.gate.lastRequests|
  {
    hide WellFormed;
    RunTwo(c, s, Arrive(id, key), Consider(id, WELCOME, 0, ""));
    HasPendingIsOpen(s.ledger);
    var s1 := Apply(c, s, Arrive(id, key));
    assert s1.mode == s.mode.(calls := map[id := Arrived(key)]);
    assert Admit(s1.mode.gate, s1.ledger, key, WELCOME, 0).1 == Reserved;
    assert map[id := Arrived(key)][id := Holding(key)] == map[id := Holding(key)];
  }

  lemma SubmissionPublishes(c: Config, s: System, id: nat, key: Key, tx: Tx, at: int)
    requires s.mode.Serving? && s.mode.calls == map[id := Holding(key)] && WellFormed(s.ledger) && !Open(s.ledger)
    requires Payable(c, s.(mode := s.mode.(gate := IDLE)), key, tx, at)
    ensures var s' := Run(c, s, Submission(id, key, tx, at));
            && s'.ledger.rows == s.ledger.rows + [Answered(key, tx, at)]
               && s'.ledger.resolutions == s.ledger.resolutions
            && s'.transport == Some(PendingRow(Digest(tx), tx.nonce, tx, None, None))
            && s'.clock == at && s'.admitted == s.admitted + [at]
            && s'.mode == s.mode.(gate := Release(RecordSigning(s.mode.gate, 0)), calls := map[])
  {
    hide Accepts, ExposureOf, WellFormed, Apply;
    var e, seen := EntryOf(key, tx), Observation(tx.nonce, tx.nonce);
    var s1 := Apply(c, s, SignRequest(id, e, at, at, 0));
    var s2 := Apply(c, s1, StageRequest(id, seen));
    HasPendingIsOpen(s.ledger);
    RunTwo(c, s, SignRequest(id, e, at, at, 0), StageRequest(id, seen));
    RunTwo(c, s2, Submit(id), Succeed(id, ""));
    RunConcat(c, s, [SignRequest(id, e, at, at, 0)] + [StageRequest(id, seen)], [Submit(id)] + [Succeed(id, "")]);
    assert Sign(s.ledger, e, c.budget, at, at).Ok?;
    SubmissionIsProtocolSteps(c, s, id, e, at, at, 0, Some(seen), true, "", "");
    LastRow(s.ledger, NewRow(e, at), (r: Row) => r.(response := Some("")));
    assert map[id := Holding(key)] - {id} == map[];
  }

  lemma AnsweredIsPending(l: Ledger, key: Key, tx: Tx, at: int)
    requires WellFormed(l) && !Open(l) && Get(l, key).None? && 0 < CapCost(tx)
    ensures var l' := l.(rows := l.rows + [Answered(key, tx, at)]);
            WellFormed(l') && Open(l') && Pending(l') == [Answered(key, tx, at)]
  {
    var row := Answered(key, tx, at);
    hide WellFormed;
    AppendWellFormed(l, row);
    PendingIsComplete(l.(rows := l.rows + [row]));
  }

  lemma ItemSettled(l: Ledger, key: Key, tx: Tx, at: int, minedAt: int)
    ensures var row := Answered(key, tx, at);
            var l' := l.(rows := l.rows + [row]);
            ReconcileItem(l', row, at, Receipt(true, true, CapCost(tx), Some(minedAt), true, None, true))
            == l.(rows := l.rows + [Mined(key, tx, at, minedAt)])
  {
    hide IndexOf;
    var row := Answered(key, tx, at);
    var checked := row.(checkedAt := at);
    var confirmed := checked.(confirmed := true, actualCost := Some(CapCost(tx)), minedAt := Some(minedAt));
    LastRow(l, row, (r: Row) => r.(checkedAt := at));
    LastRow(l, checked, (r: Row) => r.(confirmed := true, actualCost := Some(CapCost(tx)), minedAt := Some(minedAt)));
    LastRow(l, confirmed, (r: Row) => r.(assured := true, settlement := Some(FeeReceived)));
    LastKnown(l, confirmed);
  }

  lemma SettlementSettles(c: Config, s: System, base: Ledger, key: Key, tx: Tx, at: int, minedAt: int)
    requires s.mode.Serving? && s.mode.reconciliation.Idle? && s.clock == at
    requires WellFormed(base) && !Open(base) && Get(base, key).None? && 0 < CapCost(tx)
    requires s.ledger == base.(rows := base.rows + [Answered(key, tx, at)], pilot := s.ledger.pilot)
    ensures Run(c, s, Settlement(tx, at, minedAt))
            == s.(ledger := s.ledger.(rows := base.rows + [Mined(key, tx, at, minedAt)]))
  {
    hide Apply, WellFormed, Open, ReconcileItem, Pending, Get;
    var row := Answered(key, tx, at);
    var l := base.(pilot := s.ledger.pilot);
    SamePilot(base, l);
    AnsweredIsPending(l, key, tx, at);
    ItemSettled(l, key, tx, at, minedAt);
    LastKnown(l, row);
    var s1 := Apply(c, s, ReconcileBegin);
    BeginsQueue(c, s);
    assert s1 == s.(mode := s.mode.(reconciliation := Queue([row])));
    var f := Receipt(true, true, CapCost(tx), Some(minedAt), true, None, true);
    assert Plausible(row, f);
    TurnIsProtocolSteps(c, s1, at, f);
    var s2 := Turn(c, s1, row, at, f);
    assert [row][1..] == [];
    EndsQueue(c, s2, at);
    var head, middle := [ReconcileBegin] + [ReconcileNext(at)],
        [ReconcileReceipt(true, true, CapCost(tx), minedAt)] + [ReconcileSettle];
    RunTwo(c, s, ReconcileBegin, ReconcileNext(at));
    RunTwo(c, Apply(c, s1, ReconcileNext(at)), ReconcileReceipt(true, true, CapCost(tx), minedAt), ReconcileSettle);
    RunConcat(c, s, head, middle);
    RunConcat(c, s, head + middle, [ReconcileNext(at)]);
    RunOne(c, s2, ReconcileNext(at));
  }

  lemma SamePilot(l: Ledger, l': Ledger)
    requires l' == l.(pilot := l'.pilot) && WellFormed(l) && !Open(l)
    ensures WellFormed(l') && !Open(l') && forall key :: Get(l', key) == Get(l, key)
  {}

  lemma BeginsQueue(c: Config, s: System)
    requires s.mode.Serving? && s.mode.reconciliation.Idle?
    ensures Apply(c, s, ReconcileBegin) == s.(mode := s.mode.(reconciliation := Queue(Pending(s.ledger))))
  {
    ReconcileDispatch(c, s, ReconcileBegin);
  }

  lemma EndsQueue(c: Config, s: System, at: int)
    requires s.mode.Serving? && s.mode.reconciliation == Queue([])
    ensures Apply(c, s, ReconcileNext(at)) == s.(mode := s.mode.(reconciliation := Idle))
  {
    ReconcileDispatch(c, s, ReconcileNext(at));
  }

  function Request(id: nat, key: Key, tx: Tx, at: int, minedAt: int): seq<Step> {
    Intake(id, key) + Submission(id, key, tx, at) + Settlement(tx, at, minedAt)
  }

  /** A request that arrives while nothing is in flight is signed, published, mined at its full cap and paid for. */
  lemma RequestRuns(c: Config, s: System, id: nat, key: Key, tx: Tx, at: int, minedAt: int)
    requires Quiet(s) && Payable(c, s, key, tx, at)
    ensures var s' := Run(c, s, Request(id, key, tx, at, minedAt));
            && s'.ledger.rows == s.ledger.rows + [Mined(key, tx, at, minedAt)]
            && s'.admitted == s.admitted + [at] && s'.clock == at
            && s'.transport == Some(PendingRow(Digest(tx), tx.nonce, tx, None, None))
            && s'.mode.Serving? && s'.mode.calls == map[] && s'.mode.reconciliation.Idle?
            && !s'.mode.gate.busy && s'.mode.gate.activeKey.None?
            && |s'.mode.gate.attempts| <= |s.mode.gate.attempts| + 1
               && |s'.mode.gate.lastRequests| <= |s.mode.gate.lastRequests| + 1
  {
    hide Run, Accepts, ExposureOf, WellFormed, Open, Get, Intake, Submission, Settlement;
    RunConcat(c, s, Intake(id, key) + Submission(id, key, tx, at), Settlement(tx, at, minedAt));
    RunConcat(c, s, Intake(id, key), Submission(id, key, tx, at));
    IntakeReserves(c, s, id, key);
    var s1 := Run(c, s, Intake(id, key));
    SubmissionPublishes(c, s1, id, key, tx, at);
    var s2 := Run(c, s1, Submission(id, key, tx, at));
    SettlementSettles(c, s2, s.ledger, key, tx, at, minedAt);
  }

  // ---------------------------------------------------------------- two requests a day apart

  /** Two acceptable transactions on increasing nonces, each within the budget but not both together. */
  predicate Overdraws(c: Config, tx1: Tx, tx2: Tx) {
    && Accepts(c.terms, tx1, false) && Guarded(c.terms, tx1, false) && Accepts(c.terms, tx2, false)
       && Guarded(c.terms, tx2, false)
    && 0 < CapCost(tx1) <= c.budget && 0 < CapCost(tx2) <= c.budget && c.budget < CapCost(tx1) + CapCost(tx2)
    && tx1.nonce < tx2.nonce <= MAX_SAFE_INTEGER
  }

  /** The second request is admitted as soon as the first has aged out, and mined in a block stamped `skew` earlier. */
  function TwoRequests(c: Config, tx1: Tx, tx2: Tx, skew: int): seq<Step> {
    [Start] + Request(0, "a", tx1, c.start, c.start)
        + Request(1, "b", tx2, c.start + DAY_MS + 1, c.start + DAY_MS + 1 - skew)
  }

  lemma FirstDay(c: Config, tx1: Tx, tx2: Tx)
    requires Overdraws(c, tx1, tx2)
    ensures var s1 := Run(c, Initial(c), [Start] + Request(0, "a", tx1, c.start, c.start));
            && s1.ledger.rows == [Mined("a", tx1, c.start, c.start)] && s1.admitted == [c.start]
            && Quiet(s1) && Payable(c, s1, "b", tx2, c.start + DAY_MS + 1)
  {
    hide Run, Request, Accepts, Apply, Inv, After, ExposureOf, WellFormed, Open, Get;
    var s0 := Run(c, Initial(c), [Start]);
    Started(c);
    FirstPayable(c, s0, tx1, tx2);
    RunConcat(c, Initial(c), [Start], Request(0, "a", tx1, c.start, c.start));
    RequestRuns(c, s0, 0, "a", tx1, c.start, c.start);
    var s1 := Run(c, s0, Request(0, "a", tx1, c.start, c.start));
    AfterIsRun(c, [Start] + Request(0, "a", tx1, c.start, c.start));
    Reachable(c, [Start] + Request(0, "a", tx1, c.start, c.start));
    InvWellFormed(c, s1);
    assert s1.ledger.rows == [Mined("a", tx1, c.start, c.start)];
    MinedIsSettled(s1.ledger, tx1, c.start);
    AgedOut(c, tx1);
  }

  lemma FirstPayable(c: Config, s: System, tx1: Tx, tx2: Tx)
    requires Overdraws(c, tx1, tx2) && s == Initial(c).(mode := Serving(IDLE, map[], Idle))
    ensures Quiet(s) && Payable(c, s, "a", tx1, c.start)
  {
    hide Accepts;
  }

  lemma MinedIsSettled(l: Ledger, tx: Tx, at: int)
    requires l.rows == [Mined("a", tx, at, at)]
    ensures !Open(l) && Get(l, "b").None?
  {
    assert l.rows[..0] == [];
  }

  lemma Started(c: Config)
    ensures Run(c, Initial(c), [Start]) == Initial(c).(mode := Serving(IDLE, map[], Idle))
  {
    RunOne(c, Initial(c), Start);
  }

  lemma AgedOut(c: Config, tx: Tx)
    ensures ExposureOf([Mined("a", tx, c.start, c.start)], c.start + DAY_MS + 1) == 0
  {
    var row := Mined("a", tx, c.start, c.start);
    assert [row][..|[row]| - 1] == [] && Charge(row, c.start + DAY_MS + 1) == 0;
  }

  lemma BothMined(c: Config, tx1: Tx, tx2: Tx, skew: int)
    requires Overdraws(c, tx1, tx2)
    ensures var s := After(c, TwoRequests(c, tx1, tx2, skew));
            && s.admitted == [c.start, c.start + DAY_MS + 1]
            && s.ledger.rows == [Mined("a", tx1, c.start, c.start),
                                 Mined("b", tx2, c.start + DAY_MS + 1, c.start + DAY_MS + 1 - skew)]
  {
    hide Run, Request, Accepts, Quiet, Payable, After;
    var first := [Start] + Request(0, "a", tx1, c.start, c.start);
    var second := Request(1, "b", tx2, c.start + DAY_MS + 1, c.start + DAY_MS + 1 - skew);
    AfterIsRun(c, first + second);
    RunConcat(c, Initial(c), first, second);
    FirstDay(c, tx1, tx2);
    RequestRuns(c, Run(c, Initial(c), first), 1, "b", tx2, c.start + DAY_MS + 1, c.start + DAY_MS + 1 - skew);
  }

  ghost predicate WindowHolds(c: Config, steps: seq<Step>, from: int, width: int) {
    GasMined(After(c, steps).ledger.rows, from, from + width) <= c.budget
  }

  lemma TwoRequestsOverrun(c: Config, tx1: Tx, tx2: Tx, skew: int, width: int)
    requires Overdraws(c, tx1, tx2) && 0 <= skew <= DAY_MS < width + skew
    ensures WithinSkew(After(c, TwoRequests(c, tx1, tx2, skew)), skew)
            && !WindowHolds(c, TwoRequests(c, tx1, tx2, skew), c.start, width)
  {
    hide After, TwoRequests, Accepts;
    BothMined(c, tx1, tx2, skew);
    var rows := After(c, TwoRequests(c, tx1, tx2, skew)).ledger.rows;
    assert rows[..1] == [rows[0]] && rows[..1][..0] == [];
    assert GasMined(rows[..1], c.start, c.start + width) == CapCost(tx1);
  }

  /** Over all runs whose block stamps precede the local clock by at most `skew`, the budget bounds the gas mined in
      every window of a width exactly when the width is at most a day less the skew. */
  lemma BoundedWindowsAreADayLessSkew(c: Config, tx1: Tx, tx2: Tx, skew: int, width: int)
    requires Overdraws(c, tx1, tx2) && 0 <= skew <= DAY_MS
    ensures (forall steps: seq<Step>, from: int :: WithinSkew(After(c, steps), skew) ==>
               WindowHolds(c, steps, from, width))
            <==> width <= DAY_MS - skew
  {
    hide After, WithinSkew, TwoRequests, Overdraws, GasMined;
    PositiveBudget(c, tx1, tx2);
    if width <= DAY_MS - skew {
      forall steps: seq<Step>, from: int | WithinSkew(After(c, steps), skew)
        ensures WindowHolds(c, steps, from, width)
      {
        RollingDayWithinBudget(c, steps, skew, from, from + width);
      }
    } else {
      TwoRequestsOverrun(c, tx1, tx2, skew, width);
    }
  }

  lemma PositiveBudget(c: Config, tx1: Tx, tx2: Tx)
    requires Overdraws(c, tx1, tx2)
    ensures 0 <= c.budget
  {}

  // ---------------------------------------------------------------- any positive budget can be overdrawn

  /** A legacy call of the privacy contract. */
  function Legacy(terms: Terms, nonce: nat, gasLimit: int, gasPrice: int): Tx {
    Tx(Some(terms.operator), Some(terms.proxy), 1, 0, nonce, gasLimit, 0, [0], None, None, Some(gasPrice), [], None)
  }

  lemma AnyBudgetIsOverdrawn(c: Config) returns (tx1: Tx, tx2: Tx)
    requires 0 < c.budget
    ensures Overdraws(c, tx1, tx2)
  {
    var gas := if c.budget < 100_000 then 1 else 100_000;
    var price := c.budget / gas;
    tx1, tx2 := Legacy(c.terms, 0, gas, price), Legacy(c.terms, 1, gas, price);
    assert gas * price <= c.budget < gas * price + gas;
  }

  /** For every positive budget: a day less the skew is exactly what the store's rolling budget bounds. */
  lemma RollingBudgetIsExact(c: Config, skew: int, width: int)
    requires 0 < c.budget && 0 <= skew <= DAY_MS
    ensures (forall steps: seq<Step>, from: int :: WithinSkew(After(c, steps), skew) ==>
               WindowHolds(c, steps, from, width))
            <==> width <= DAY_MS - skew
  {
    var tx1, tx2 := AnyBudgetIsOverdrawn(c);
    BoundedWindowsAreADayLessSkew(c, tx1, tx2, skew, width);
  }
}

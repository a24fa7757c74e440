/** Concrete runs behind the exact conditions: an interrupted cancellation that a retry cannot finish, and a stored
    answer that reconciliation replaces. */
module ProtocolWitnesses {
  import opened Basics
  import opened Transactions
  import opened RequestLedger
  import opened Transport
  import opened Protocol
  import opened ProtocolSafety
  import opened ProtocolTheorems
  import opened ProtocolLevels
  import opened ProtocolWindows
  import opened BroadcasterService
  import Recovery
  import RecoverySteps
  import ProtocolReplay

  /** The store signs for it as the first request of the installation. */
  predicate Signable(c: Config, tx: Tx) {
    0 < CapCost(tx) <= c.budget && tx.nonce <= MAX_SAFE_INTEGER
  }

  /** And the transport takes it. */
  predicate Affords(c: Config, tx: Tx) {
    Signable(c, tx) && Accepts(c.terms, tx, false) && Guarded(c.terms, tx, false)
  }

  lemma FirstIntake(c: Config) returns (s: System)
    ensures s == After(c, [Start] + Intake(0, "a"))
    ensures s == Initial(c).(mode := s.mode) && s.mode.Serving?
            && s.mode == Serving(s.mode.gate, map[0 := Holding("a")], Idle)
    ensures |s.mode.gate.attempts| <= 1 && s.mode.gate.lastRequests == []
  {
    hide Run, Intake;
    Started(c);
    var s0 := Run(c, Initial(c), [Start]);
    RunConcat(c, Initial(c), [Start], Intake(0, "a"));
    AfterIsRun(c, [Start] + Intake(0, "a"));
    assert Quiet(s0) && Admissible(s0, "a");
    IntakeReserves(c, s0, 0, "a");
    s := Run(c, s0, Intake(0, "a"));
  }

  // ---------------------------------------------------------------- a pair of copies that disagrees

  /** The order of the two copies matters: with the request journal copied first there is a run whose pair
      holds a transport row that no request row explains. */
  lemma RequestsFirstSnapshotsCanDisagree(c: Config, tx: Tx)
    requires Affords(c, tx)
    ensures exists steps: seq<Step>, n: nat ::
              n <= |steps| && !Recorded(After(c, steps).transport, After(c, steps[..n]).ledger)
  {
    hide After, Apply, Accepts, Intake, Recorded;
    var sign, stage := SignRequest(0, EntryOf("a", tx), c.start, c.start, 0),
        StageRequest(0, Observation(tx.nonce, tx.nonce));
    var t := [Start] + Intake(0, "a") + [sign] + [stage];
    var s0 := FirstIntake(c);
    AfterSnoc(c, [Start] + Intake(0, "a"), sign);
    AfterSnoc(c, [Start] + Intake(0, "a") + [sign], stage);
    FirstSigned(c, s0, tx);
    FirstStaged(c, Apply(c, s0, sign), tx);
    assert t[..0] == [];
    NothingExplains(c, After(c, t).transport);
    assert 0 <= |t| && !Recorded(After(c, t).transport, After(c, t[..0]).ledger);
  }

  lemma FirstStaged(c: Config, s: System, tx: Tx)
    requires Affords(c, tx) && s.transport.None? && s.mode.Serving?
    requires 0 in s.mode.calls && s.mode.calls[0] == Journaled("a", tx)
    ensures Apply(c, s, StageRequest(0, Observation(tx.nonce, tx.nonce))).transport.Some?
  {
    hide Apply, Accepts;
    StageResult(c, s, 0, Observation(tx.nonce, tx.nonce));
  }

  lemma NothingExplains(c: Config, t: Option<PendingRow>)
    requires t.Some?
    ensures !Recorded(t, After(c, []).ledger)
  {}

  // ---------------------------------------------------------------- a cancellation that a retry cannot finish

  /** A crash before staging, a cancel that stores its payload, and another crash before anything is sent. */
  function InterruptedRun(c: Config, tx: Tx, maxFee: int, maxTip: int): seq<Step> {
    [Start] + Intake(0, "a") + [SignRequest(0, EntryOf("a", tx), c.start, c.start, 0)] + [Crash]
    + [RecoverBegin(true, Observation(tx.nonce, tx.nonce))]
    + [RecoverCancel(Recovery.CancellationOf(c.terms.operator, tx.nonce, maxFee, maxTip), c.start)] + [Crash]
  }

  lemma InterruptedRunStops(c: Config, tx: Tx, maxFee: int, maxTip: int)
    requires Signable(c, tx) && FeeCap(tx) < maxFee && TipCap(tx) < maxTip && 0 < maxTip <= maxFee
             && CANCEL_GAS * maxFee <= c.budget
    ensures var s := After(c, InterruptedRun(c, tx, maxFee, maxTip));
            var cancel := Recovery.CancellationOf(c.terms.operator, tx.nonce, maxFee, maxTip);
            && s.mode.Stopped? && s.clock == c.start && s.transport.None?
            && s.ledger.rows == [NewRow(EntryOf("a", tx), c.start).(cancelRaw := Some(cancel),
                                                                    cancelHash := Some(Digest(cancel)),
                                                                    maxCost := Max(CapCost(tx), CANCEL_GAS * maxFee))]
            && s.ledger.resolutions == map[]
  {
    hide After, Intake, Apply;
    var cancel := Recovery.CancellationOf(c.terms.operator, tx.nonce, maxFee, maxTip);
    var sign := SignRequest(0, EntryOf("a", tx), c.start, c.start, 0);
    var begin, store := RecoverBegin(true, Observation(tx.nonce, tx.nonce)), RecoverCancel(cancel, c.start);
    var s0 := FirstIntake(c);
    var t0 := [Start] + Intake(0, "a");
    AfterSnoc(c, t0, sign);
    AfterSnoc(c, t0 + [sign], Crash);
    AfterSnoc(c, t0 + [sign] + [Crash], begin);
    AfterSnoc(c, t0 + [sign] + [Crash] + [begin], store);
    AfterSnoc(c, t0 + [sign] + [Crash] + [begin] + [store], Crash);
    FirstSigned(c, s0, tx);
    CrashStops(c, Apply(c, s0, sign));
    CancelThenCrash(c, Apply(c, Apply(c, s0, sign), Crash), tx, maxFee, maxTip);
  }

  /** A stopped service stores a cancellation of its one request, and stops again. */
  lemma CancelThenCrash(c: Config, s: System, tx: Tx, maxFee: int, maxTip: int)
    requires Signable(c, tx) && FeeCap(tx) < maxFee && TipCap(tx) < maxTip && 0 < maxTip <= maxFee
             && CANCEL_GAS * maxFee <= c.budget
    requires s.mode.Stopped? && s.transport.None? && s.clock == c.start && s.admitted == [c.start]
    requires s.ledger == Ledger([NewRow(EntryOf("a", tx), c.start)], map[], None)
    ensures var cancel := Recovery.CancellationOf(c.terms.operator, tx.nonce, maxFee, maxTip);
            var s' := Apply(c, Apply(c, Apply(c, s, RecoverBegin(true, Observation(tx.nonce, tx.nonce))),
                                     RecoverCancel(cancel, c.start)), Crash);
            && s'.mode.Stopped? && s'.clock == c.start && s'.transport.None? && s'.ledger.resolutions == map[]
            && s'.ledger.rows == [NewRow(EntryOf("a", tx), c.start).(cancelRaw := Some(cancel),
                                                                     cancelHash := Some(Digest(cancel)),
                                                                     maxCost := Max(CapCost(tx), CANCEL_GAS * maxFee))]
  {
    hide Apply, IndexOf, Unconfirmed;
    var cancel := Recovery.CancellationOf(c.terms.operator, tx.nonce, maxFee, maxTip);
    var begin, store := RecoverBegin(true, Observation(tx.nonce, tx.nonce)), RecoverCancel(cancel, c.start);
    var row := NewRow(EntryOf("a", tx), c.start);
    OneUnconfirmed(row);
    RecoverySteps.BeginResult(c, s, Recovery.CancelCommand, row);
    FirstCancelled(s.ledger, row, cancel, c.budget, c.start);
    RecoverySteps.CancelResult(c, Apply(c, s, begin), row, cancel, c.start);
    CrashStops(c, Apply(c, Apply(c, s, begin), store));
  }

  lemma FirstSigned(c: Config, s: System, tx: Tx)
    requires Signable(c, tx) && s.mode.Serving? && s == Initial(c).(mode := s.mode)
             && s.mode.calls == map[0 := Holding("a")]
    ensures var s' := Apply(c, s, SignRequest(0, EntryOf("a", tx), c.start, c.start, 0));
            && s'.ledger == Ledger([NewRow(EntryOf("a", tx), c.start)], map[], None) && s'.transport.None?
            && s'.clock == c.start && s'.admitted == [c.start]
            && s'.mode.Serving? && s'.mode.calls == map[0 := Journaled("a", tx)]
  {
    hide Accepts, Apply;
    assert map[0 := Holding("a")][0 := Journaled("a", tx)] == map[0 := Journaled("a", tx)];
    assert Sign(EMPTY, EntryOf("a", tx), c.budget, c.start, c.start).Ok?;
    SignResult(c, s, 0, EntryOf("a", tx), c.start, c.start, 0);
    assert EMPTY.rows + [NewRow(EntryOf("a", tx), c.start)] == [NewRow(EntryOf("a", tx), c.start)];
  }

  lemma CrashStops(c: Config, s: System)
    ensures Apply(c, s, Crash) == s.(mode := Stopped)
  {}

  lemma OneUnconfirmed(row: Row)
    requires !row.confirmed
    ensures Unconfirmed([row]) == [row]
  {
    assert [row][..0] == [] && Unconfirmed([]) == [];
  }

  lemma FirstCancelled(l: Ledger, row: Row, tx: Tx, budget: int, now: int)
    requires l.rows == [row] && !row.confirmed && row.actualCost.None? && row.minedAt.None? && CapCost(tx) <= budget
             && row.maxCost <= budget
    ensures var cost := Max(row.maxCost, CapCost(tx));
            Cancel(l, row.key, tx, Digest(tx), CapCost(tx), budget, now)
            == Ok(l.(rows := [row.(cancelRaw := Some(tx), cancelHash := Some(Digest(tx)), maxCost := cost)]))
  {
    assert IndexOf([row], row.key) == Some(0);
    assert [row][..|[row]| - 1] == [];
    assert ExposureOf([row], now) == Charge(row, now);
    var row' := row.(cancelRaw := Some(tx), cancelHash := Some(Digest(tx)), maxCost := Max(row.maxCost, CapCost(tx)));
    assert l.rows[0 := row'] == [row'];
  }

  /** The run is interrupted in the sense of `RetryFinishesCancellation`, and once the base fee has risen to the stored
      cancellation's price, `recover retry` publishes nothing. */
  lemma RisenBaseFeeStopsRetry(c: Config, tx: Tx, maxFee: int, maxTip: int, limits: Limits, balance: int, traced: bool)
    requires Signable(c, tx) && FeeCap(tx) < maxFee && TipCap(tx) < maxTip && 0 < maxTip <= maxFee
             && CANCEL_GAS * maxFee <= c.budget
    requires limits.dailyBudget == c.budget && limits.mainnet == c.mainnet
    ensures var s := After(c, InterruptedRun(c, tx, maxFee, maxTip));
            var head := Recovery.Head(maxFee, tx.nonce, tx.nonce, balance);
            var seen := Some(Observation(tx.nonce, tx.nonce));
            && RecoverySteps.Interrupted(s, head)
            && !Recovery.Permitted(limits, c.terms, s.ledger, s.transport, Recovery.RetryCommand, None, Some(head),
                                   c.start, traced, seen, seen)
  {
    hide After, Accepts, InterruptedRun, Recovery.Permitted;
    InterruptedRunStops(c, tx, maxFee, maxTip);
    RecoverySteps.RetryFinishesCancellation(c, InterruptedRun(c, tx, maxFee, maxTip), limits,
                                            Recovery.Head(maxFee, tx.nonce, tx.nonce, balance), c.start, traced);
  }

  /** Nor does it publish anything, at any price, for an original that the transport refuses: such a request can be
      signed, and its cancellation stored, before the transport is ever asked. */
  lemma UnacceptableOriginalStopsRetry(c: Config, tx: Tx, maxFee: int, maxTip: int, limits: Limits, base: int,
                                       balance: int, traced: bool)
    requires Signable(c, tx) && !Accepts(c.terms, tx, false)
    requires FeeCap(tx) < maxFee && TipCap(tx) < maxTip && 0 < maxTip <= maxFee && CANCEL_GAS * maxFee <= c.budget
    requires limits.dailyBudget == c.budget && limits.mainnet == c.mainnet
    ensures var s := After(c, InterruptedRun(c, tx, maxFee, maxTip));
            var head := Recovery.Head(base, tx.nonce, tx.nonce, balance);
            var seen := Some(Observation(tx.nonce, tx.nonce));
            && RecoverySteps.Interrupted(s, head)
            && !Recovery.Permitted(limits, c.terms, s.ledger, s.transport, Recovery.RetryCommand, None, Some(head),
                                   c.start,
                                   traced, seen, seen)
  {
    hide After, Accepts, InterruptedRun, Recovery.Permitted;
    InterruptedRunStops(c, tx, maxFee, maxTip);
    RecoverySteps.RetryFinishesCancellation(c, InterruptedRun(c, tx, maxFee, maxTip), limits,
                                            Recovery.Head(base, tx.nonce, tx.nonce, balance), c.start, traced);
  }

  // ---------------------------------------------------------------- an answer that changes

  /** A request is answered, and then its receipt is read. */
  function AnsweredRun(c: Config, tx: Tx): seq<Step> {
    [Start] + (Intake(0, "a") + Submission(0, "a", tx, c.start))
  }

  function ReceiptRun(c: Config, tx: Tx): seq<Step> {
    AnsweredRun(c, tx) + [ReconcileBegin] + [ReconcileNext(c.start)]
        + [ReconcileReceipt(true, true, CapCost(tx), c.start)]
  }

  /** The same duplicate is answered with other bytes before and after reconciliation answers for the receipt. */
  lemma AnswerCanChange(c: Config, tx: Tx, other: Cipher)
    requires Affords(c, tx)
    ensures ProtocolReplay.Answer(After(c, AnsweredRun(c, tx)).ledger, "a") == Some("")
    ensures ProtocolReplay.Answer(After(c, ReceiptRun(c, tx) + [ReconcileAnswer(other)]).ledger, "a") == Some(other)
  {
    hide Run, Accepts, Intake, Submission, Apply, After, Pending;
    var s0 := Run(c, Initial(c), [Start]);
    Started(c);
    assert Quiet(s0) && Payable(c, s0, "a", tx, c.start);
    RunConcat(c, Initial(c), [Start], Intake(0, "a") + Submission(0, "a", tx, c.start));
    RunConcat(c, s0, Intake(0, "a"), Submission(0, "a", tx, c.start));
    AfterIsRun(c, AnsweredRun(c, tx));
    IntakeReserves(c, s0, 0, "a");
    SubmissionPublishes(c, Run(c, s0, Intake(0, "a")), 0, "a", tx, c.start);
    var row := Answered("a", tx, c.start);
    var s := After(c, AnsweredRun(c, tx));
    assert s.ledger == Ledger([row], map[], s.ledger.pilot);
    OneRow(s.ledger, row);
    ReadsReceipt(c, s, tx);
    var t1 := AnsweredRun(c, tx) + [ReconcileBegin];
    AfterSnoc(c, AnsweredRun(c, tx), ReconcileBegin);
    AfterSnoc(c, t1, ReconcileNext(c.start));
    AfterSnoc(c, t1 + [ReconcileNext(c.start)], ReconcileReceipt(true, true, CapCost(tx), c.start));
    AfterSnoc(c, ReceiptRun(c, tx), ReconcileAnswer(other));
    AnswerResult(c, After(c, ReceiptRun(c, tx)), other);
    ProtocolReplay.RespondAnswer(After(c, ReceiptRun(c, tx)).ledger, "a", other, "a");
  }

  lemma OneRow(l: Ledger, row: Row)
    requires l.rows == [row]
    ensures Get(l, row.key) == Some(row)
  {}

  /** Three steps of reconciliation find the row and record its receipt. */
  lemma ReadsReceipt(c: Config, s: System, tx: Tx)
    requires s.ledger == Ledger([Answered("a", tx, c.start)], map[], s.ledger.pilot) && 0 < CapCost(tx)
             && s.clock == c.start
    requires s.mode.Serving? && s.mode.reconciliation.Idle?
    ensures var s' := Apply(c, Apply(c, Apply(c, s, ReconcileBegin), ReconcileNext(c.start)),
                            ReconcileReceipt(true, true, CapCost(tx), c.start));
            && s'.mode.Serving? && s'.mode.reconciliation.AfterReceipt? && s'.mode.reconciliation.original
            && s'.mode.reconciliation.item.key == "a" && Get(s'.ledger, "a").Some?
  {
    hide Apply, Pending;
    var row := Answered("a", tx, c.start);
    var base := Ledger([], map[], s.ledger.pilot);
    AnsweredIsPending(base, "a", tx, c.start);
    assert base.rows + [row] == [row];
    BeginsQueue(c, s);
    var s1 := Apply(c, s, ReconcileBegin);
    NextResult(c, s1, c.start);
    ReceiptResult(c, Apply(c, s1, ReconcileNext(c.start)), true, true, CapCost(tx), c.start);
    OneRow(s.ledger, row);
    KeysSurvive(s.ledger, "a", c.start, CapCost(tx), c.start, "");
  }
}

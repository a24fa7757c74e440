/** The recovery that the operator runs on the journal objects is a run of the protocol's own recovery steps. */
module RecoverySteps {
  import opened Basics
  import opened Transactions
  import opened RequestLedger
  import opened RequestSafety
  import opened Transport
  import opened Protocol
  import opened ProtocolSafety
  import opened Recovery
  import opened ProtocolLevels

  function Steps(c: Config, s: System, command: Command, item: Row, raw: Tx, now: int, seen1: Observation,
                 seen2: Observation): System {
    var s1 := Apply(c, s, RecoverBegin(command.CancelCommand?, Observation(item.nonce, item.nonce)));
    var s2 := if command.CancelCommand? then Apply(c, s1, RecoverCancel(raw, now)) else s1;
    Apply(c, Apply(c, Apply(c, s2, RecoverStage(seen1)), RecoverJournal(seen2)), RecoverDisclose)
  }

  lemma {:induction false} UnconfirmedAreRows(rows: seq<Row>)
    ensures forall r :: r in Unconfirmed(rows) ==> r in rows && !r.confirmed
  {
    if rows != [] {
      UnconfirmedAreRows(rows[..|rows| - 1]);
    }
  }

  /** With distinct keys, looking the row up by its key finds the row itself. */
  lemma ChosenIsTheRow(l: Ledger)
    requires UniqueKeys(l.rows) && ChosenRow(l).Some?
    ensures Unconfirmed(l.rows) == [ChosenRow(l).value] && l.rows != []
  {
    hide IndexOf;
    var rows := Unconfirmed(l.rows);
    UnconfirmedAreRows(l.rows);
    assert rows[0] in rows;
    var i :| 0 <= i < |l.rows| && l.rows[i] == rows[0];
    IndexOfUnique(l.rows, i);
  }

  lemma BeginResult(c: Config, s: System, command: Command, item: Row)
    requires s.mode.Stopped? && Unconfirmed(s.ledger.rows) == [item]
    requires item.raw.Some? && item.hash == Some(Digest(item.raw.value)) && item.raw.value.nonce == item.nonce
    requires s.transport.Some? ==>
      (Some(s.transport.value.hash) == item.hash && s.transport.value.nonce == item.nonce)
          || s.transport.value.nonce < item.nonce
    requires command.RetryCommand? && c.mainnet ==> item.cancelRaw.Some?
    ensures Apply(c, s, RecoverBegin(command.CancelCommand?, Observation(item.nonce, item.nonce)))
            == s.(mode := Recovering(if command.CancelCommand? then Chosen(item, s.transport)
                                     else Bound(item, s.transport, Current(item).value, item.cancelRaw.Some?)))
  {
    hide Unconfirmed;
  }

  lemma CancelResult(c: Config, s: System, item: Row, raw: Tx, now: int)
    requires s.mode == Recovering(Chosen(item, s.transport)) && s.clock <= now
    requires |s.admitted| == |s.ledger.rows| && s.ledger.rows != []
    requires BuiltCancellation(c, item, raw)
             && Cancel(s.ledger, item.key, raw, Digest(raw), CapCost(raw), c.budget, now).Ok?
    ensures Apply(c, s, RecoverCancel(raw, now))
            == s.(ledger := Cancel(s.ledger, item.key, raw, Digest(raw), CapCost(raw), c.budget, now).value,
                  clock := now,
                  mode := Recovering(Bound(item, s.transport, raw, true)),
                      admitted := s.admitted[|s.admitted| - 1 := now],
                  issued := s.issued + [Issue(item.key, raw)])
  {
    hide BuiltCancellation, RequestLedger.Cancel;
  }

  lemma StageResult(c: Config, s: System, item: Row, raw: Tx, cancelling: bool, seen1: Option<Observation>,
                    other: Observation)
    requires s.mode == Recovering(Bound(item, s.transport, raw, cancelling)) && item.raw.Some?
    requires Levels(c.terms, item, s.transport, seen1)
    ensures Apply(c, s, RecoverStage(seen1.GetOr(other)))
            == s.(mode := Recovering(Restaged(item, raw, cancelling)),
                  transport := Level(c.terms, item, s.transport, seen1))
  {
    hide Accepts, JournalStep;
  }

  lemma JournalResult(c: Config, s: System, item: Row, payload: Tx, cancelling: bool, raw: Tx, seen2: Observation,
                      t': Option<PendingRow>)
    requires s.mode == Recovering(Restaged(item, payload, cancelling))
    requires if cancelling then payload == raw && Publishes(c.terms, s.transport, raw, true, None, Some(seen2))
                                && JournalStep(s.transport, raw, true, None, seen2) == Ok(t')
             else Resends(c.terms, s.transport, Some(seen2)) && raw == Payload(s.transport.value)
                  && Resent(s.transport.value, seen2) == Ok(t')
    ensures Apply(c, Apply(c, s, RecoverJournal(seen2)), RecoverDisclose)
            == s.(mode := Recovering(Disclosed(item, raw)), transport := t', published := s.published + [raw])
  {
    hide Accepts, JournalStep;
    assert Apply(c, s, RecoverJournal(seen2)) == s.(mode := Recovering(Rejournaled(item, raw)), transport := t');
  }

  lemma RecoveryIsProtocolSteps(c: Config, s: System, command: Command, raw: Tx, now: int, seen1: Option<Observation>,
                                seen2: Option<Observation>, l': Ledger, t': Option<PendingRow>)
    requires s.mode.Stopped? && UniqueKeys(s.ledger.rows) && s.clock <= now && |s.admitted| == |s.ledger.rows|
    requires Performs(c, s.ledger, s.transport, command, raw, now, seen1, seen2, l', t')
    ensures seen2.Some?
    ensures var item := ChosenRow(s.ledger).value;
            var s' := Steps(c, s, command, item, raw, now, seen1.GetOr(seen2.value), seen2.value);
            && s'.mode == Recovering(Disclosed(item, raw)) && s'.ledger == l' && s'.transport == t'
            && s'.published == s.published + [raw]
  {
    hide Apply, Accepts, JournalStep, RequestLedger.Cancel, BuiltCancellation, Unconfirmed, ChosenRow, UniqueKeys;
    ChosenIsTheRow(s.ledger);
    var item := ChosenRow(s.ledger).value;
    assert seen2.Some?;
    BeginResult(c, s, command, item);
    var s1 := Apply(c, s, RecoverBegin(command.CancelCommand?, Observation(item.nonce, item.nonce)));
    if command.CancelCommand? { CancelResult(c, s1, item, raw, now); }
    var s2 := if command.CancelCommand? then Apply(c, s1, RecoverCancel(raw, now)) else s1;
    StageResult(c, s2, item, s2.mode.repair.raw, s2.mode.repair.cancelling, seen1, seen2.value);
    var s3 := Apply(c, s2, RecoverStage(seen1.GetOr(seen2.value)));
    JournalResult(c, s3, item, s2.mode.repair.raw, s2.mode.repair.cancelling, raw, seen2.value, t');
  }

  /** From whatever state a crash left after any run, the recovery that gets through levels the two journals: the
      transport row equals the one unresolved request as the request journal then has it. */
  lemma RecoveryLevelsTheJournals(c: Config, steps: seq<Step>, command: Command, raw: Tx, now: int,
                                  seen1: Option<Observation>,
                                  seen2: Option<Observation>, l': Ledger, t': Option<PendingRow>)
    requires 0 <= c.budget && After(c, steps).mode.Stopped? && After(c, steps).clock <= now
    requires Performs(c, After(c, steps).ledger, After(c, steps).transport, command, raw, now, seen1, seen2, l', t')
    ensures Open(l') && Recorded(t', l')
    ensures c.mainnet || !Twin(l') ==> Aligned(t', l') && Current(Last(l')) == Some(raw)
  {
    hide After, Performs, Apply, Inv, Steps, Open, Recorded, Aligned, Twin, ChosenRow;
    ProtocolTheorems.Reachable(c, steps);
    var s := After(c, steps);
    InvParts(c, s);
    RecoveryIsProtocolSteps(c, s, command, raw, now, seen1, seen2, l', t');
    var item := ChosenRow(s.ledger).value;
    StepsKeep(c, s, command, item, raw, now, seen1.GetOr(seen2.value), seen2.value);
    DisclosedMeans(c, Steps(c, s, command, item, raw, now, seen1.GetOr(seen2.value), seen2.value), item, raw);
  }

  lemma InvParts(c: Config, s: System)
    requires Inv(c, s)
    ensures UniqueKeys(s.ledger.rows) && |s.admitted| == |s.ledger.rows|
  {}

  lemma DisclosedMeans(c: Config, s: System, item: Row, raw: Tx)
    requires Inv(c, s) && s.mode == Recovering(Disclosed(item, raw))
    ensures Open(s.ledger) && Recorded(s.transport, s.ledger)
    ensures c.mainnet || !Twin(s.ledger) ==> Aligned(s.transport, s.ledger) && Current(Last(s.ledger)) == Some(raw)
  {
    hide Safe, IssuedOk, PublishedOk, TransportOk, SubmittedOk, Aligned, Twin, Recorded, WasIssued;
  }

  lemma StepsKeep(c: Config, s: System, command: Command, item: Row, raw: Tx, now: int, seen1: Observation,
                  seen2: Observation)
    requires Inv(c, s)
    ensures Inv(c, Steps(c, s, command, item, raw, now, seen1, seen2))
  {
    hide Inv, Apply, Extends;
    var begin := RecoverBegin(command.CancelCommand?, Observation(item.nonce, item.nonce));
    ProtocolTheorems.StepKeeps(c, s, begin);
    var s1 := Apply(c, s, begin);
    ProtocolTheorems.StepKeeps(c, s1, RecoverCancel(raw, now));
    var s2 := if command.CancelCommand? then Apply(c, s1, RecoverCancel(raw, now)) else s1;
    ProtocolTheorems.StepKeeps(c, s2, RecoverStage(seen1));
    var s3 := Apply(c, s2, RecoverStage(seen1));
    ProtocolTheorems.StepKeeps(c, s3, RecoverJournal(seen2));
    ProtocolTheorems.StepKeeps(c, Apply(c, s3, RecoverJournal(seen2)), RecoverDisclose);
  }

  // ---------------------------------------------------------------- finishing an interrupted cancellation

  /** A stopped state with a stored cancellation of the unconfirmed request, whose nonce the node reports as the
      next one and not yet confirmed. */
  ghost predicate Interrupted(s: System, head: Head) {
    && s.mode.Stopped? && Open(s.ledger) && !Last(s.ledger).confirmed && Last(s.ledger).cancelRaw.Some?
    && head.latest == Last(s.ledger).nonce == head.confirmed
  }

  /** The stored cancellation still fits the limits that recovery applies to a retry. */
  predicate Affordable(tx: Tx, head: Head, limits: Limits) {
    CheckLimits(tx.gasLimit, FeeCap(tx), tx.maxPriorityFeePerGas.GetOr(1), head.baseFee, head.balance, limits)
  }

  /** The row the transport ends up with. */
  function Finished(row: Row): Option<PendingRow>
    requires row.raw.Some? && row.cancelRaw.Some?
  {
    Some(PendingRow(Digest(row.raw.value), row.nonce, row.raw.value, Some(Digest(row.cancelRaw.value)), row.cancelRaw))
  }

  lemma LastIsChosen(c: Config, s: System)
    requires Inv(c, s) && Open(s.ledger) && !Last(s.ledger).confirmed
    ensures ChosenRow(s.ledger) == Some(Last(s.ledger))
  {
    hide Within, Admitted, IssuedOk, PublishedOk, TransportOk, SubmittedOk, Recorded, IndexOf, Unconfirmed;
    ProtocolRecovery.UnconfirmedIsLast(s.ledger);
    IndexOfUnique(s.ledger.rows, |s.ledger.rows| - 1);
  }

  /** Staging and sending cannot fail: the stored cancellation is always one that the transport takes. */
  lemma CancellationSends(terms: Terms, row: Row, t: Option<PendingRow>, seen: Observation)
    requires row.raw.Some? && row.cancelRaw.Some? && row.hash == Some(Digest(row.raw.value))
             && row.nonce == row.raw.value.nonce
    requires Accepts(terms, row.raw.value, false) && CancelsWell(terms, row)
             && seen == Observation(row.nonce, row.nonce)
    requires t.Some? ==> Consistent(t.value) && (Some(t.value.hash) == row.hash || t.value.nonce < row.nonce)
    requires t.Some? && Some(t.value.hash) == row.hash ==> t.value.nonce == row.nonce
    ensures Discloses(terms, row, t, true, row.cancelRaw.value, Some(seen), Some(seen), Finished(row))
  {
    hide Accepts;
  }

  lemma TransportConsistent(c: Config, s: System)
    requires Inv(c, s) && s.transport.Some?
    ensures Consistent(s.transport.value)
  {
    hide Within, Admitted, WellFormed, Recorded, IssuedOk, PublishedOk, TransportOk, SubmittedOk, ModeOk;
    ProtocolRecovery.RecordedConsistent(s.transport, s.ledger, s.issued);
  }

  lemma RowCancelsWell(c: Config, s: System)
    requires Inv(c, s) && Open(s.ledger)
    ensures CancelsWell(c.terms, Last(s.ledger))
  {
    hide Safe, Recorded, PublishedOk, TransportOk, SubmittedOk, ModeOk, CancelsWell, Tracks, Escalates;
    assert CancelsWell(c.terms, s.ledger.rows[|s.ledger.rows| - 1]);
  }

  /** A transport that holds the request holds its original, which it accepted. */
  lemma HeldIsAccepted(terms: Terms, t: Option<PendingRow>, row: Row)
    requires row.raw.Some? && row.hash == Some(Digest(row.raw.value))
    requires t.Some? ==> Consistent(t.value) && Accepts(terms, t.value.raw, false)
    ensures t.Some? && Some(t.value.hash) == row.hash ==> Accepts(terms, row.raw.value, false)
  {}

  lemma SendingNeedsTheOriginal(terms: Terms, row: Row, t: Option<PendingRow>, raw: Tx, seen1: Option<Observation>,
                                seen2: Option<Observation>)
    requires row.raw.Some? && Sends(terms, row, t, true, raw, seen1, seen2)
    ensures (t.Some? && Some(t.value.hash) == row.hash) || Accepts(terms, row.raw.value, false)
  {
    hide Accepts;
  }

  lemma BehindMeans(c: Config, s: System)
    requires Inv(c, s) && Levelled(c, s) && Open(s.ledger) && Last(s.ledger).cancelRaw.Some?
    ensures s.transport.Some? ==> Consistent(s.transport.value) && Accepts(c.terms, s.transport.value.raw, false)
    ensures NotAhead(s.transport, Last(s.ledger))
  {
    hide Inv, Accepts, Consistent;
    if s.transport.Some? { TransportConsistent(c, s); }
  }

  lemma BudgetHolds(c: Config, s: System, now: int)
    requires Inv(c, s) && s.clock <= now
    ensures Exposure(s.ledger, now) <= c.budget
  {
    hide Safe, Recorded, IssuedOk, PublishedOk, TransportOk, SubmittedOk, ModeOk;
    ExposureNeverExceedsBudget(s.ledger, s.admitted, s.clock, c.budget, now);
  }

  /** From a state with both invariants, an interrupted cancellation is finished by `recover retry` exactly when its
      signed price still fits the limits, its trace succeeds and the original is one the transport accepts. The
      budget never stands in the way, nor does the row that a crash left in the transport. The bytes are those
      already stored, and the transport row then equals the request. */
  lemma RetryFinishes(c: Config, s: System, limits: Limits, head: Head, now: int, traced: bool)
    requires Inv(c, s) && Levelled(c, s) && Interrupted(s, head) && s.clock <= now
    requires limits.dailyBudget == c.budget && limits.mainnet == c.mainnet
    ensures Last(s.ledger).raw.Some?
    ensures var row := Last(s.ledger);
            var seen := Some(Observation(row.nonce, row.nonce));
            && (Permitted(limits, c.terms, s.ledger, s.transport, RetryCommand, None, Some(head), now, traced, seen,
                          seen)
                <==> Affordable(row.cancelRaw.value, head, limits) && traced && Accepts(c.terms, row.raw.value, false))
            && (Accepts(c.terms, row.raw.value, false) ==>
                  && Performs(c, s.ledger, s.transport, RetryCommand, row.cancelRaw.value, now, seen, seen, s.ledger,
                              Finished(row))
                  && Aligned(Finished(row), s.ledger))
  {
    hide Inv, Levelled, Accepts, ChosenRow, Discloses, CancelsWell, CheckLimits, Open, RowOk, Consistent, Sends;
    ProtocolTheorems.InvLast(c, s);
    var row := Last(s.ledger);
    var seen := Observation(row.nonce, row.nonce);
    LastIsChosen(c, s);
    RowCancelsWell(c, s);
    BehindMeans(c, s);
    SameNonce(s.transport, row);
    BudgetHolds(c, s, now);
    HeldIsAccepted(c.terms, s.transport, row);
    if Accepts(c.terms, row.raw.value, false) {
      OriginalIsOurs(c.terms, row.raw.value);
      CancellationSends(c.terms, row, s.transport, seen);
      SendsFollows(c.terms, row, s.transport, row.cancelRaw.value, Some(seen), Some(seen), Finished(row));
      FinishedAligns(s.ledger);
    } else if Sends(c.terms, row, s.transport, true, row.cancelRaw.value, Some(seen), Some(seen)) {
      SendingNeedsTheOriginal(c.terms, row, s.transport, row.cancelRaw.value, Some(seen), Some(seen));
    }
  }

  /** The same of every stopped state that a run can reach. */
  lemma RetryFinishesCancellation(c: Config, steps: seq<Step>, limits: Limits, head: Head, now: int, traced: bool)
    requires 0 <= c.budget && Interrupted(After(c, steps), head) && After(c, steps).clock <= now
    requires limits.dailyBudget == c.budget && limits.mainnet == c.mainnet
    ensures Last(After(c, steps).ledger).raw.Some?
    ensures var s := After(c, steps);
            var row := Last(s.ledger);
            var seen := Some(Observation(row.nonce, row.nonce));
            && (Permitted(limits, c.terms, s.ledger, s.transport, RetryCommand, None, Some(head), now, traced, seen,
                          seen)
                <==> Affordable(row.cancelRaw.value, head, limits) && traced && Accepts(c.terms, row.raw.value, false))
            && (Accepts(c.terms, row.raw.value, false) ==>
                  && Performs(c, s.ledger, s.transport, RetryCommand, row.cancelRaw.value, now, seen, seen, s.ledger,
                              Finished(row))
                  && Aligned(Finished(row), s.ledger))
  {
    hide After, Inv, Levelled, Accepts, Permitted, Performs, Aligned, CheckLimits;
    ReachableLevels(c, steps);
    RetryFinishes(c, After(c, steps), limits, head, now, traced);
  }

  lemma OriginalIsOurs(terms: Terms, tx: Tx)
    requires Accepts(terms, tx, false)
    ensures tx.sender == Some(terms.operator) && tx.chainId == 1
  {}

  lemma SameNonce(t: Option<PendingRow>, row: Row)
    requires row.raw.Some? && row.hash == Some(Digest(row.raw.value)) && row.nonce == row.raw.value.nonce
    requires t.Some? ==> Consistent(t.value)
    ensures t.Some? && Some(t.value.hash) == row.hash ==> t.value.nonce == row.nonce
  {}

  lemma SendsFollows(terms: Terms, row: Row, t: Option<PendingRow>, raw: Tx, seen1: Option<Observation>,
                     seen2: Option<Observation>,
                     t': Option<PendingRow>)
    requires row.raw.Some? && Discloses(terms, row, t, true, raw, seen1, seen2, t')
    ensures Sends(terms, row, t, true, raw, seen1, seen2)
  {}

  lemma FinishedAligns(l: Ledger)
    requires Open(l) && Last(l).raw.Some? && Last(l).cancelRaw.Some? && RowOk(Last(l))
    ensures Aligned(Finished(Last(l)), l)
  {}
}

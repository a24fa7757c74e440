/** How the transport row stands to a stored cancellation in every reachable state, and how it moves. */
module ProtocolLevels {
  import opened Basics
  import opened Transactions
  import opened RequestLedger
  import opened RequestSafety
  import opened Transport
  import opened Admission
  import opened Protocol
  import opened ProtocolSafety
  import ProtocolRecovery
  import ProtocolTheorems

  // ---------------------------------------------------------------- the invariant

  /** The transport holds this request or an older one. */
  predicate NotAhead(t: Option<PendingRow>, row: Row) {
    t.Some? ==> Some(t.value.hash) == row.hash || t.value.nonce < row.nonce
  }

  /** The transport holds only originals it accepts, and is never ahead of a request with a stored cancellation. */
  ghost predicate Behind(terms: Terms, t: Option<PendingRow>, l: Ledger) {
    && (t.Some? ==> Accepts(terms, t.value.raw, false))
    && (l.rows != [] && Last(l).cancelRaw.Some? ==> NotAhead(t, Last(l)))
  }

  /** A request that is signed but not staged is the newest one, and has no cancellation. */
  ghost predicate Unstaged(l: Ledger, calls: map<nat, Call>) {
    forall i :: i in calls && calls[i].Journaled? ==>
             l.rows != [] && Last(l).key == calls[i].key && Last(l).cancelRaw.None?
  }

  ghost predicate Levelled(c: Config, s: System) {
    && Behind(c.terms, s.transport, s.ledger)
    && (s.mode.Serving? ==> Unstaged(s.ledger, s.mode.calls))
    && (s.mode.Recovering? && s.mode.repair.Chosen? ==> NotAhead(s.transport, s.mode.repair.item))
  }

  // ---------------------------------------------------------------- commits that leave the newest payloads alone

  ghost predicate SameLast(l: Ledger, l': Ledger) {
    && |l'.rows| == |l.rows|
    && (l.rows != [] ==>
          && Last(l').key == Last(l).key && Last(l').hash == Last(l).hash && Last(l').nonce == Last(l).nonce
          && Last(l').cancelRaw == Last(l).cancelRaw)
  }

  lemma UpdateSameLast(l: Ledger, key: Key, change: Row -> Row)
    requires forall r :: change(r).key == r.key && change(r).hash == r.hash && change(r).nonce == r.nonce
                         && change(r).cancelRaw == r.cancelRaw
    ensures SameLast(l, Update(l, key, change))
  {}

  lemma RespondSameLast(l: Ledger, key: Key, answer: Cipher)
    ensures SameLast(l, Respond(l, key, answer)) && SameLast(l, AnswerKnown(l, key, answer))
  {
    UpdateSameLast(l, key, (r: Row) => r.(response := Some(answer)));
  }

  lemma SettlingSameLast(l: Ledger, key: Key, now: int, cost: int, received: bool)
    ensures SameLast(l, Checked(l, key, now)) && SameLast(l, Confirm(l, key, cost, now))
    ensures Assure(l, key, received).Ok? ==> SameLast(l, Assure(l, key, received).value)
  {
    UpdateSameLast(l, key, (r: Row) => r.(checkedAt := now));
    UpdateSameLast(l, key, (r: Row) => r.(confirmed := true, actualCost := Some(cost), minedAt := Some(now)));
    UpdateSameLast(l, key, (r: Row) =>
      r.(assured := true, settlement := Some(if received then FeeReceived else Cancelled)));
  }

  lemma SameLastLevels(terms: Terms, t: Option<PendingRow>, l: Ledger, l': Ledger, calls: map<nat, Call>)
    requires Behind(terms, t, l) && Unstaged(l, calls) && SameLast(l, l')
    ensures Behind(terms, t, l') && Unstaged(l', calls)
  {
    hide Accepts;
  }

  // ---------------------------------------------------------------- steps

  lemma ConsiderLevels(c: Config, s: System, id: nat, a: Arrival, elapsed: int, answer: Cipher)
    requires Levelled(c, s) && s.mode.Serving? && id in s.mode.calls && s.mode.calls[id].Arrived?
    ensures Levelled(c, DoConsider(s, id, a, elapsed, answer))
  {
    hide Admit, AnswerKnown, Behind, SameLast;
    RespondSameLast(s.ledger, s.mode.calls[id].key, answer);
    SameLastLevels(c.terms, s.transport, s.ledger, AnswerKnown(s.ledger, s.mode.calls[id].key, answer), s.mode.calls);
  }

  lemma SignLevels(c: Config, s: System, id: nat, e: Entry, checkedAt: int, now: int, elapsed: int)
    requires Inv(c, s) && Levelled(c, s) && s.mode.Serving? && id in s.mode.calls && s.mode.calls[id] == Holding(e.key)
    ensures Levelled(c, DoSign(c, s, id, e, checkedAt, now, elapsed))
  {
    hide Safe, Recorded, IssuedOk, PublishedOk, TransportOk, SubmittedOk, ReconciliationOk, Accepts, ExposureOf,
        HasPending;
    OnlyHolder(s, id);
  }

  lemma OnlyHolder(s: System, id: nat)
    requires s.mode.Serving? && CallsOk(s.ledger, s.submitted, s.mode.gate, s.mode.calls)
    requires id in s.mode.calls && Holds(s.mode.calls[id])
    ensures forall i :: i in s.mode.calls && i != id ==> !Holds(s.mode.calls[i])
  {}

  /** An original that commits is one the transport accepts, and holds the row. */
  lemma OriginalStep(terms: Terms, t: Option<PendingRow>, tx: Tx, seen: Observation)
    requires Accepts(terms, tx, false) && JournalStep(t, tx, false, None, seen).Ok?
    requires t.Some? ==> Accepts(terms, t.value.raw, false)
    ensures var t' := JournalStep(t, tx, false, None, seen).value;
            t'.Some? && t'.value.hash == Digest(tx) && Accepts(terms, t'.value.raw, false)
  {
    hide Accepts;
  }

  lemma StageLevels(c: Config, s: System, id: nat, seen: Observation)
    requires Levelled(c, s) && s.mode.Serving? && id in s.mode.calls && s.mode.calls[id].Journaled?
    ensures Levelled(c, DoStage(c, s, id, seen))
  {
    hide Accepts, JournalStep;
    var tx := s.mode.calls[id].tx;
    if Accepts(c.terms, tx, false) && JournalStep(s.transport, tx, false, None, seen).Ok? {
      OriginalStep(c.terms, s.transport, tx, seen);
    }
  }

  lemma FinishLevels(c: Config, s: System, id: nat, answer: Cipher)
    requires Levelled(c, s) && s.mode.Serving? && id in s.mode.calls
    ensures Levelled(c, DoFinish(s, id, answer))
  {
    hide AnswerKnown, Behind, SameLast;
    var l' := AnswerKnown(s.ledger, s.mode.calls[id].key, answer);
    RespondSameLast(s.ledger, s.mode.calls[id].key, answer);
    SameLastLevels(c.terms, s.transport, s.ledger, l', s.mode.calls);
  }

  lemma ReconcileLevels(c: Config, s: System, step: Step)
    requires Levelled(c, s) && s.mode.Serving?
    ensures Levelled(c, DoReconcile(s, step))
  {
    hide Behind, Unstaged, SameLast, Checked, Confirm, Assure, Respond, Pending, WithinCap;
    var s' := DoReconcile(s, step);
    match (step, s.mode.reconciliation)
    case (ReconcileNext(now), Queue(todo)) =>
      if todo != [] {
        SettlingSameLast(s.ledger, todo[0].key, now, 0, false);
        SameOrLevels(c, s, s');
      }
    case (ReconcileReceipt(_, _, cost, minedAt), Examining(item, _)) =>
      SettlingSameLast(s.ledger, item.key, minedAt, cost, false);
      SameOrLevels(c, s, s');
    case (ReconcileNonce(_, minedAt), Examining(item, _)) =>
      SettlingSameLast(s.ledger, item.key, minedAt, item.maxCost, false);
      SameOrLevels(c, s, s');
    case (ReconcileAnswer(answer), AfterReceipt(item, _, _, _)) =>
      RespondSameLast(s.ledger, item.key, answer);
      SameOrLevels(c, s, s');
    case (ReconcileSettle, AfterReceipt(item, original, _, _)) =>
      SettlingSameLast(s.ledger, item.key, 0, 0, original);
      SameOrLevels(c, s, s');
    case (ReconcileSettle, AfterNonce(item, _)) =>
      SettlingSameLast(s.ledger, item.key, 0, 0, true);
      SameOrLevels(c, s, s');
    case _ =>
  }

  lemma SameOrLevels(c: Config, s: System, s': System)
    requires Levelled(c, s) && s.mode.Serving? && s'.mode.Serving? && s'.mode.calls == s.mode.calls
    requires s'.transport == s.transport && (s'.ledger == s.ledger || SameLast(s.ledger, s'.ledger))
    ensures Levelled(c, s')
  {
    hide Behind, Unstaged, SameLast;
    if s'.ledger != s.ledger {
      SameLastLevels(c.terms, s.transport, s.ledger, s'.ledger, s.mode.calls);
    }
  }

  lemma BeginLevels(c: Config, s: System, cancel: bool, seen: Observation)
    requires Levelled(c, s) && s.mode.Stopped?
    ensures Levelled(c, DoRecoverBegin(c, s, cancel, seen))
  {
    hide Behind, Unconfirmed;
  }

  lemma CancelLevels(c: Config, s: System, tx: Tx, now: int)
    requires Inv(c, s) && Levelled(c, s) && s.mode.Recovering? && s.mode.repair.Chosen?
    ensures Levelled(c, DoRecoverCancel(c, s, tx, now))
  {
    hide Within, Admitted, Recorded, IssuedOk, PublishedOk, TransportOk, SubmittedOk, Accepts, BuiltCancellation,
        RequestLedger.Cancel,
         WellFormed, Open;
    var item := s.mode.repair.item;
    if Cancel(s.ledger, item.key, tx, Digest(tx), CapCost(tx), c.budget, now).Ok? && s.ledger.rows != [] {
      CancelLast(s.ledger, tx, c.budget, now);
    }
  }

  lemma CancelLast(l: Ledger, tx: Tx, budget: int, now: int)
    requires WellFormed(l) && l.rows != [] && Cancel(l, Last(l).key, tx, Digest(tx), CapCost(tx), budget, now).Ok?
    ensures var l' := Cancel(l, Last(l).key, tx, Digest(tx), CapCost(tx), budget, now).value;
            |l'.rows| == |l.rows| && Last(l').hash == Last(l).hash && Last(l').nonce == Last(l).nonce
  {
    IndexOfUnique(l.rows, |l.rows| - 1);
  }

  lemma RecoverStageLevels(c: Config, s: System, seen: Observation)
    requires Inv(c, s) && Levelled(c, s) && s.mode.Recovering? && s.mode.repair.Bound? && s.mode.repair.item.raw.Some?
    ensures Levelled(c, DoRecoverStage(c, s, seen))
  {
    hide Within, Admitted, Recorded, IssuedOk, PublishedOk, TransportOk, SubmittedOk, Accepts, JournalStep;
    var item := s.mode.repair.item;
    assert RowOk(Last(s.ledger));
    if Accepts(c.terms, item.raw.value, false) && JournalStep(s.transport, item.raw.value, false, None, seen).Ok? {
      OriginalStep(c.terms, s.transport, item.raw.value, seen);
    }
  }

  lemma RecoverJournalLevels(c: Config, s: System, seen: Observation)
    requires Inv(c, s) && Levelled(c, s) && s.mode.Recovering? && s.mode.repair.Restaged?
    ensures Levelled(c, DoRecoverJournal(c, s, seen))
  {
    hide Within, Admitted, WellFormed, Recorded, IssuedOk, PublishedOk, TransportOk, SubmittedOk, Accepts, JournalStep;
    var Restaged(_, raw, cancelling) := s.mode.repair;
    if cancelling {
      if JournalStep(s.transport, raw, true, None, seen).Ok? { CancellationKeepsRow(s.transport, raw, None, seen); }
    } else if s.transport.Some? && Resent(s.transport.value, seen).Ok? {
      ProtocolRecovery.RecordedConsistent(s.transport, s.ledger, s.issued);
      ProtocolRecovery.RetryKeepsRow(s.transport.value, seen);
    }
  }

  lemma LossLevels(c: Config, s: System, key: Key, hash: Hash, cost: int, block: int, reason: string)
    requires Levelled(c, s) && s.mode.Stopped? && Acknowledge(s.ledger, key, hash, cost, block, reason).Ok?
    ensures Levelled(c, s.(ledger := Acknowledge(s.ledger, key, hash, cost, block, reason).value))
  {
    hide Accepts;
  }

  lemma StepLevels(c: Config, s: System, step: Step)
    requires Inv(c, s) && Levelled(c, s)
    ensures Levelled(c, Apply(c, s, step))
  {
    hide Inv, Behind, DoConsider, DoSign, DoStage, DoFinish, DoReconcile, DoRecoverBegin, DoRecoverCancel,
        DoRecoverStage,
         DoRecoverJournal, Acknowledge;
    match step
    case Consider(id, a, elapsed, answer) =>
      if s.mode.Serving? && id in s.mode.calls
          && s.mode.calls[id].Arrived? { ConsiderLevels(c, s, id, a, elapsed, answer); }
    case SignRequest(id, e, checkedAt, now, elapsed) =>
      if s.mode.Serving? && id in s.mode.calls && s.mode.calls[id] == Holding(e.key) {
        SignLevels(c, s, id, e, checkedAt, now, elapsed);
      }
    case StageRequest(id, seen) =>
      if s.mode.Serving? && id in s.mode.calls && s.mode.calls[id].Journaled? { StageLevels(c, s, id, seen); }
    case Succeed(id, answer) =>
      if s.mode.Serving? && id in s.mode.calls { FinishLevels(c, s, id, answer); }
    case Fail(id, answer) =>
      if s.mode.Serving? && id in s.mode.calls { FinishLevels(c, s, id, answer); }
    case RecoverBegin(cancel, seen) => if s.mode.Stopped? { BeginLevels(c, s, cancel, seen); }
    case RecoverCancel(tx, now) =>
      if s.mode.Recovering? && s.mode.repair.Chosen? { CancelLevels(c, s, tx, now); }
    case RecoverStage(seen) =>
      if s.mode.Recovering? && s.mode.repair.Bound? && s.mode.repair.item.raw.Some? { RecoverStageLevels(c, s, seen); }
    case RecoverJournal(seen) =>
      if s.mode.Recovering? && s.mode.repair.Restaged? { RecoverJournalLevels(c, s, seen); }
    case AcknowledgeLoss(key, cost, block, reason) =>
      if s.mode.Stopped? && Get(s.ledger, key).Some? && Get(s.ledger, key).value.hash.Some?
        && Acknowledge(s.ledger, key, Get(s.ledger, key).value.hash.value, cost, block, reason).Ok?
      {
        LossLevels(c, s, key, Get(s.ledger, key).value.hash.value, cost, block, reason);
      }
    case _ => if s.mode.Serving? { ReconcileLevels(c, s, step); }
  }

  /** Both invariants survive every continuation of a state that has them. */
  lemma {:induction false} RunsLevel(c: Config, s: System, steps: seq<Step>)
    requires Inv(c, s) && Levelled(c, s)
    ensures Inv(c, Run(c, s, steps)) && Levelled(c, Run(c, s, steps)) && Extends(s.ledger, Run(c, s, steps).ledger)
  {
    hide Inv, Levelled, Apply, Extends;
    if steps == [] {
      ProtocolTheorems.Unmoved(s.ledger);
    } else {
      var front := steps[..|steps| - 1];
      RunsLevel(c, s, front);
      StepLevels(c, Run(c, s, front), steps[|steps| - 1]);
      ProtocolTheorems.StepKeeps(c, Run(c, s, front), steps[|steps| - 1]);
      ExtendsTransitive(s.ledger, Run(c, s, front).ledger, Run(c, s, steps).ledger);
    }
  }

  lemma {:induction false} AfterIsRun(c: Config, steps: seq<Step>)
    ensures After(c, steps) == Run(c, Initial(c), steps)
  {
    hide Apply;
    if steps != [] { AfterIsRun(c, steps[..|steps| - 1]); }
  }

  lemma ReachableLevels(c: Config, steps: seq<Step>)
    requires 0 <= c.budget
    ensures Inv(c, After(c, steps)) && Levelled(c, After(c, steps))
  {
    hide Inv, Run, After;
    ProtocolTheorems.InitialInv(c);
    RunsLevel(c, Initial(c), steps);
    AfterIsRun(c, steps);
  }
}

/** Restoring a backup: the transport journal of an earlier moment beside the request journal of a later one. */
module ProtocolBackup {
  import opened Basics
  import opened Transactions
  import opened RequestLedger
  import opened RequestSafety
  import opened Transport
  import opened Admission
  import opened Protocol
  import opened ProtocolSafety
  import opened ProtocolLevels
  import ProtocolSteps

  // ---------------------------------------------------------------- how the transport row moves

  /** The same original, or one on a larger nonce. */
  predicate Advances(t: Option<PendingRow>, t': Option<PendingRow>) {
    t.Some? ==>
      && t'.Some?
      && ((t'.value.hash == t.value.hash && t'.value.nonce == t.value.nonce) || t.value.nonce < t'.value.nonce)
  }

  lemma JournalAdvances(t: Option<PendingRow>, tx: Tx, cancellation: bool, retry: Option<Hash>, seen: Observation)
    requires JournalStep(t, tx, cancellation, retry, seen).Ok?
    ensures Advances(t, JournalStep(t, tx, cancellation, retry, seen).value)
  {}

  ghost predicate HistoryKept(s: System, s': System) {
    Advances(s.transport, s'.transport) && forall tx :: WasIssued(s.issued, tx) ==> WasIssued(s'.issued, tx)
  }

  lemma StepMoves(c: Config, s: System, step: Step)
    ensures HistoryKept(s, Apply(c, s, step))
  {
    hide DoConsider, DoSign, DoStage, DoFinish, DoReconcile, DoRecoverBegin, DoRecoverCancel, DoRecoverStage,
         DoRecoverJournal, Acknowledge, WasIssued;
    match step
    case Consider(id, a, elapsed, answer) =>
      if s.mode.Serving? && id in s.mode.calls { CallMoves(s, id, a, elapsed, answer); }
    case Succeed(id, answer) =>
      if s.mode.Serving? && id in s.mode.calls { CallMoves(s, id, Arrival(true, true, true, true), 0, answer); }
    case Fail(id, answer) =>
      if s.mode.Serving? && id in s.mode.calls { CallMoves(s, id, Arrival(true, true, true, true), 0, answer); }
    case SignRequest(id, e, checkedAt, now, elapsed) =>
      if s.mode.Serving? && id in s.mode.calls { SignMoves(c, s, id, e, checkedAt, now, elapsed); }
    case RecoverBegin(cancel, seen) => if s.mode.Stopped? { BeginMoves(c, s, cancel, seen); }
    case StageRequest(id, seen) =>
      if s.mode.Serving? && id in s.mode.calls && s.mode.calls[id].Journaled? {
        StageMoves(c, s, id, seen);
      }
    case RecoverCancel(tx, now) =>
      if s.mode.Recovering? && s.mode.repair.Chosen? {
        RecoverCancelMoves(c, s, tx, now);
      }
    case RecoverStage(seen) =>
      if s.mode.Recovering? && s.mode.repair.Bound? && s.mode.repair.item.raw.Some? { RecoverStageMoves(c, s, seen); }
    case RecoverJournal(seen) =>
      if s.mode.Recovering? && s.mode.repair.Restaged? { RecoverJournalMoves(c, s, seen); }
    case _ => if s.mode.Serving? { ReconcileMoves(s, step); }
  }

  lemma CallMoves(s: System, id: nat, a: Arrival, elapsed: int, answer: Cipher)
    requires s.mode.Serving? && id in s.mode.calls
    ensures HistoryKept(s, DoConsider(s, id, a, elapsed, answer)) && HistoryKept(s, DoFinish(s, id, answer))
  {
    hide Admit, AnswerKnown, WasIssued;
  }

  lemma SignMoves(c: Config, s: System, id: nat, e: Entry, checkedAt: int, now: int, elapsed: int)
    requires s.mode.Serving? && id in s.mode.calls
    ensures HistoryKept(s, DoSign(c, s, id, e, checkedAt, now, elapsed))
  {
    hide Sign, WasIssued;
    ProtocolSteps.WasIssuedGrows(s.issued, Issue(e.key, e.raw));
  }

  lemma BeginMoves(c: Config, s: System, cancel: bool, seen: Observation)
    requires s.mode.Stopped?
    ensures HistoryKept(s, DoRecoverBegin(c, s, cancel, seen))
  {
    hide Unconfirmed, WasIssued;
  }

  lemma RecoverCancelMoves(c: Config, s: System, tx: Tx, now: int)
    requires s.mode.Recovering? && s.mode.repair.Chosen?
    ensures HistoryKept(s, DoRecoverCancel(c, s, tx, now))
  {
    hide Cancel, BuiltCancellation, WasIssued;
    ProtocolSteps.WasIssuedGrows(s.issued, Issue(s.mode.repair.item.key, tx));
  }

  lemma StageMoves(c: Config, s: System, id: nat, seen: Observation)
    requires s.mode.Serving? && id in s.mode.calls && s.mode.calls[id].Journaled?
    ensures Advances(s.transport, DoStage(c, s, id, seen).transport) && DoStage(c, s, id, seen).issued == s.issued
  {
    hide JournalStep, Accepts;
    var tx := s.mode.calls[id].tx;
    if JournalStep(s.transport, tx, false, None, seen).Ok? { JournalAdvances(s.transport, tx, false, None, seen); }
  }

  lemma RecoverStageMoves(c: Config, s: System, seen: Observation)
    requires s.mode.Recovering? && s.mode.repair.Bound? && s.mode.repair.item.raw.Some?
    ensures Advances(s.transport, DoRecoverStage(c, s, seen).transport) && DoRecoverStage(c, s, seen).issued == s.issued
  {
    hide JournalStep, Accepts;
    var tx := s.mode.repair.item.raw.value;
    if JournalStep(s.transport, tx, false, None, seen).Ok? { JournalAdvances(s.transport, tx, false, None, seen); }
  }

  lemma RecoverJournalMoves(c: Config, s: System, seen: Observation)
    requires s.mode.Recovering? && s.mode.repair.Restaged?
    ensures Advances(s.transport, DoRecoverJournal(c, s, seen).transport)
            && DoRecoverJournal(c, s, seen).issued == s.issued
  {
    hide JournalStep, Accepts;
    var raw := s.mode.repair.raw;
    if JournalStep(s.transport, raw, true, None, seen).Ok? { JournalAdvances(s.transport, raw, true, None, seen); }
    if s.transport.Some? && Resent(s.transport.value, seen).Ok? {
      var row := s.transport.value;
      JournalAdvances(s.transport, Payload(row), row.cancelRaw.Some?, Some(row.cancelHash.GetOr(row.hash)), seen);
    }
  }

  lemma ReconcileMoves(s: System, step: Step)
    requires s.mode.Serving?
    ensures DoReconcile(s, step).transport == s.transport && DoReconcile(s, step).issued == s.issued
  {
    hide Checked, Confirm, Assure, Respond, Pending, WithinCap;
  }

  lemma {:induction false} RunMoves(c: Config, steps: seq<Step>, n: nat)
    requires n <= |steps|
    ensures HistoryKept(After(c, steps[..n]), After(c, steps))
  {
    hide Apply, WasIssued;
    if n == |steps| {
      assert steps[..n] == steps;
    } else {
      var front := steps[..|steps| - 1];
      assert front[..n] == steps[..n];
      RunMoves(c, front, n);
      StepMoves(c, After(c, front), steps[|steps| - 1]);
    }
  }

  // ---------------------------------------------------------------- the restored installation

  /** What a restore starts from: the service is stopped, the transport journal was copied after the first `n` steps and
      the request journal after all of them; history is what it was at the later copy. */
  function Restored(c: Config, steps: seq<Step>, n: nat): System
    requires n <= |steps|
  {
    After(c, steps).(transport := After(c, steps[..n]).transport, mode := Stopped)
  }

  lemma OlderTransportOk(t: Option<PendingRow>, issued: seq<Issue>, issued': seq<Issue>)
    requires TransportOk(t, issued) && forall tx :: WasIssued(issued, tx) ==> WasIssued(issued', tx)
    ensures TransportOk(t, issued')
  {}

  lemma OlderTransportBehind(terms: Terms, t: Option<PendingRow>, t': Option<PendingRow>, l: Ledger, issued: seq<Issue>)
    requires Advances(t, t') && Behind(terms, t', l) && (t.Some? ==> Accepts(terms, t.value.raw, false))
    requires Recorded(t', l) && WellFormed(l) && TransportOk(t', issued)
    ensures Behind(terms, t, l)
  {
    hide Accepts, WellFormed, Recorded, TransportOk;
    if t.Some? && l.rows != [] {
      ProtocolRecovery.RecordedConsistent(t', l, issued);
      ProtocolRecovery.LastIsOk(l);
    }
  }

  /** The restored pair has every invariant, with the later history. */
  lemma RestoredKeeps(c: Config, steps: seq<Step>, n: nat)
    requires 0 <= c.budget && n <= |steps|
    ensures Inv(c, Restored(c, steps, n)) && Levelled(c, Restored(c, steps, n))
  {
    hide After, Safe, Recorded, IssuedOk, PublishedOk, TransportOk, SubmittedOk, Behind, Advances, WasIssued, Accepts;
    ReachableLevels(c, steps);
    ReachableLevels(c, steps[..n]);
    RunMoves(c, steps, n);
    ProtocolTheorems.TransportFirstSnapshotsAgree(c, steps, n);
    var before, s := After(c, steps[..n]), After(c, steps);
    OlderTransportOk(before.transport, before.issued, s.issued);
    BehindAccepts(c.terms, before.transport, before.ledger);
    SafeIsWellFormed(s.ledger, s.admitted, s.clock, c.budget);
    OlderTransportBehind(c.terms, before.transport, s.transport, s.ledger, s.issued);
  }

  lemma BehindAccepts(terms: Terms, t: Option<PendingRow>, l: Ledger)
    requires Behind(terms, t, l)
    ensures t.Some? ==> Accepts(terms, t.value.raw, false)
  {}

  lemma SafeIsWellFormed(l: Ledger, admitted: seq<int>, clock: int, budget: int)
    requires Safe(l, admitted, clock, budget)
    ensures WellFormed(l)
  {}

  /** So every run that continues from a restored backup keeps them as well: the budget holds at all later times, at
      most one request is unresolved, what is settled stays settled, and only journaled bytes are ever published. */
  lemma RestoredRunsAreSafe(c: Config, steps: seq<Step>, n: nat, more: seq<Step>, now: int)
    requires 0 <= c.budget && n <= |steps| && Run(c, Restored(c, steps, n), more).clock <= now
    ensures var s := Run(c, Restored(c, steps, n), more);
            && Inv(c, s) && Levelled(c, s) && Extends(After(c, steps).ledger, s.ledger)
            && Exposure(s.ledger, now) <= c.budget
            && Pending(s.ledger) == (if Open(s.ledger) then [Last(s.ledger)] else [])
            && (forall i :: 0 <= i < |s.published| ==> WasIssued(s.issued, s.published[i]))
  {
    hide After, Run, IssuedOk, Levelled, Recorded, TransportOk, SubmittedOk, ModeOk, Within, Admitted, WellFormed,
        Extends, Open, Pending;
    RestoredKeeps(c, steps, n);
    RunsLevel(c, Restored(c, steps, n), more);
    var s := Run(c, Restored(c, steps, n), more);
    ExposureNeverExceedsBudget(s.ledger, s.admitted, s.clock, c.budget, now);
    PendingIsComplete(s.ledger);
  }
}

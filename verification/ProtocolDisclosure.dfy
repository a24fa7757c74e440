/** What any run can send to the endpoint: accepted payloads only, and so where they go. */
module ProtocolDisclosure {
  import opened Basics
  import opened Transactions
  import opened RequestLedger
  import opened Transport
  import opened Admission
  import opened Protocol

  predicate Vetted(terms: Terms, tx: Tx) {
    (Accepts(terms, tx, false) && Guarded(terms, tx, false)) || Accepts(terms, tx, true)
  }

  /** Everything published was vetted, and so is whatever is about to be. */
  ghost predicate OnlyVetted(c: Config, s: System) {
    && (forall i :: 0 <= i < |s.published| ==> Vetted(c.terms, s.published[i]))
    && (s.mode.Serving? ==>
          forall id :: id in s.mode.calls && s.mode.calls[id].Staged? ==> Vetted(c.terms, s.mode.calls[id].tx))
    && (s.mode.Recovering? && s.mode.repair.Rejournaled? ==> Vetted(c.terms, s.mode.repair.raw))
  }

  lemma HandleVets(c: Config, s: System, id: nat, seen: Observation)
    requires OnlyVetted(c, s) && s.mode.Serving? && id in s.mode.calls && s.mode.calls[id].Journaled?
    ensures OnlyVetted(c, DoStage(c, s, id, seen))
  {
    hide JournalStep, Accepts, Guarded;
  }

  lemma RecoveryVets(c: Config, s: System, seen: Observation)
    requires OnlyVetted(c, s) && s.mode.Recovering? && s.mode.repair.Restaged?
    ensures OnlyVetted(c, DoRecoverJournal(c, s, seen))
  {
    hide JournalStep, Accepts, Guarded;
  }

  lemma ReconcileVets(c: Config, s: System, step: Step)
    requires OnlyVetted(c, s) && s.mode.Serving?
    ensures OnlyVetted(c, DoReconcile(s, step))
  {
    hide Vetted, Checked, Confirm, Assure, Respond, Pending, WithinCap;
  }

  lemma CallVets(c: Config, s: System, id: nat, a: Arrival, elapsed: int, answer: Cipher)
    requires OnlyVetted(c, s) && s.mode.Serving? && id in s.mode.calls
    ensures OnlyVetted(c, DoConsider(s, id, a, elapsed, answer)) && OnlyVetted(c, DoFinish(s, id, answer))
  {
    hide Vetted, Admit, AnswerKnown;
  }

  lemma SignVets(c: Config, s: System, id: nat, e: Entry, checkedAt: int, now: int, elapsed: int)
    requires OnlyVetted(c, s) && s.mode.Serving? && id in s.mode.calls
    ensures OnlyVetted(c, DoSign(c, s, id, e, checkedAt, now, elapsed))
  {
    hide Vetted, Sign;
  }

  lemma RepairVets(c: Config, s: System, cancel: bool, tx: Tx, now: int, seen: Observation)
    requires OnlyVetted(c, s)
    ensures s.mode.Stopped? ==> OnlyVetted(c, DoRecoverBegin(c, s, cancel, seen))
    ensures s.mode.Recovering? && s.mode.repair.Chosen? ==> OnlyVetted(c, DoRecoverCancel(c, s, tx, now))
    ensures s.mode.Recovering? && s.mode.repair.Bound? && s.mode.repair.item.raw.Some? ==>
      OnlyVetted(c, DoRecoverStage(c, s, seen))
  {
    hide Vetted, JournalStep, Accepts, Cancel, BuiltCancellation, Unconfirmed;
  }

  lemma StepVets(c: Config, s: System, step: Step)
    requires OnlyVetted(c, s)
    ensures OnlyVetted(c, Apply(c, s, step))
  {
    hide Vetted, DoConsider, DoSign, DoStage, DoFinish, DoReconcile, DoRecoverBegin, DoRecoverCancel, DoRecoverStage,
         DoRecoverJournal, Acknowledge;
    match step
    case Consider(id, a, elapsed, answer) =>
      if s.mode.Serving? && id in s.mode.calls { CallVets(c, s, id, a, elapsed, answer); }
    case SignRequest(id, e, checkedAt, now, elapsed) =>
      if s.mode.Serving? && id in s.mode.calls { SignVets(c, s, id, e, checkedAt, now, elapsed); }
    case StageRequest(id, seen) =>
      if s.mode.Serving? && id in s.mode.calls && s.mode.calls[id].Journaled? { HandleVets(c, s, id, seen); }
    case Succeed(id, answer) =>
      if s.mode.Serving? && id in s.mode.calls { CallVets(c, s, id, Arrival(true, true, true, true), 0, answer); }
    case Fail(id, answer) =>
      if s.mode.Serving? && id in s.mode.calls { CallVets(c, s, id, Arrival(true, true, true, true), 0, answer); }
    case RecoverBegin(cancel, seen) => if s.mode.Stopped? { RepairVets(c, s, cancel, Nothing(), 0, seen); }
    case RecoverCancel(tx, now) => RepairVets(c, s, true, tx, now, Observation(0, 0));
    case RecoverStage(seen) => RepairVets(c, s, true, Nothing(), 0, seen);
    case RecoverJournal(seen) =>
      if s.mode.Recovering? && s.mode.repair.Restaged? { RecoveryVets(c, s, seen); }
    case _ => if s.mode.Serving? { ReconcileVets(c, s, step); }
  }

  function Nothing(): Tx {
    Tx(None, None, 1, 0, 0, 0, 0, [], None, None, None, [], None)
  }

  lemma {:induction false} RunsVet(c: Config, steps: seq<Step>)
    ensures OnlyVetted(c, After(c, steps))
  {
    hide OnlyVetted, Apply;
    if steps == [] {
      StartsVetted(c);
    } else {
      RunsVet(c, steps[..|steps| - 1]);
      StepVets(c, After(c, steps[..|steps| - 1]), steps[|steps| - 1]);
    }
  }

  lemma StartsVetted(c: Config)
    ensures OnlyVetted(c, Initial(c))
  {}

  /** In every run, whatever reaches the endpoint is signed by the operator, moves no value, and goes to the privacy
      contract, to one account that authorized the canonical delegate, or back to the operator itself as a plain
      transfer of nothing. An operator with a guard reaches such an account through the guard alone. */
  lemma PublishedAddresses(c: Config, steps: seq<Step>, i: nat)
    requires i < |After(c, steps).published|
    ensures var tx := After(c, steps).published[i];
            && tx.sender == Some(c.terms.operator) && tx.chainId == 1 && tx.value == 0
            && (CallsProxy(c.terms, tx) || (exists account :: CallsDelegated(c.terms, tx, account))
                || SelfTransfer(tx, c.terms.operator))
            && (c.terms.guard.Some? && tx.txType == 4 ==> tx.to == c.terms.guard)
  {
    hide After, Accepts, CallsProxy, CallsDelegated;
    RunsVet(c, steps);
    AcceptedAddresses(c.terms, After(c, steps).published[i]);
  }
}

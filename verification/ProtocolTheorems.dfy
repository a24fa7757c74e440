/** What holds in every state that any run can reach, with crashes, concurrent requests, a background
    reconciliation and arbitrary replies of the chain interleaved in any order. */
module ProtocolTheorems {
  import opened Basics
  import opened Transactions
  import opened RequestLedger
  import opened RequestSafety
  import opened Admission
  import opened Protocol
  import opened ProtocolSafety
  import ProtocolSteps
  import ProtocolReconcile
  import ProtocolRecovery

  // ---------------------------------------------------------------- induction over runs

  lemma InitialInv(c: Config)
    requires 0 <= c.budget
    ensures Inv(c, Initial(c))
  {
    EmptySafe(c.start, c.budget);
  }

  lemma StepKeeps(c: Config, s: System, step: Step)
    requires Inv(c, s)
    ensures Inv(c, Apply(c, s, step)) && Extends(s.ledger, Apply(c, s, step).ledger)
  {
    hide Inv, Extends, DoConsider, DoSign, DoStage, DoFinish, DoReconcile, DoRecoverBegin, DoRecoverCancel,
        DoRecoverStage, DoRecoverJournal;
    ProtocolSteps.Unchanged(s.ledger);
    match step
    case Tick(now) => ProtocolSteps.TickKeeps(c, s, now);
    case Start => ProtocolSteps.LifeKeeps(c, s);
    case Crash => ProtocolSteps.LifeKeeps(c, s);
    case Arrive(id, key) => ProtocolSteps.ArriveKeeps(c, s, id, key);
    case Consider(id, a, elapsed, answer) =>
      if s.mode.Serving? && id in s.mode.calls && s.mode.calls[id].Arrived? {
        ProtocolSteps.ConsiderKeeps(c, s, id, a, elapsed, answer);
      }
    case SignRequest(id, e, checkedAt, now, elapsed) =>
      if Apply(c, s, step) != s {
        ProtocolSteps.SignKeepsInv(c, s, id, e, checkedAt, now, elapsed);
      }
    case StageRequest(id, seen) =>
      if s.mode.Serving? && id in s.mode.calls && s.mode.calls[id].Journaled? {
        ProtocolSteps.StageKeeps(c, s, id, seen);
      }
    case Submit(id) =>
      if s.mode.Serving? && id in s.mode.calls && s.mode.calls[id].Staged? {
        ProtocolSteps.SubmitKeeps(c, s, id);
      }
    case Succeed(id, answer) =>
      if s.mode.Serving? && id in s.mode.calls && s.mode.calls[id].Sent? {
        ProtocolSteps.FinishKeeps(c, s, id, answer);
      }
    case Fail(id, answer) =>
      if s.mode.Serving? && id in s.mode.calls && Holds(s.mode.calls[id]) {
        ProtocolSteps.FinishKeeps(c, s, id, answer);
      }
    case RecoverBegin(cancel, seen) =>
      if s.mode.Stopped? {
        ProtocolRecovery.BeginKeeps(c, s, cancel, seen);
      }
    case RecoverCancel(tx, now) =>
      if s.mode.Recovering? && s.mode.repair.Chosen? {
        ProtocolRecovery.CancelKeepsInv(c, s, tx, now);
      }
    case RecoverStage(seen) =>
      if s.mode.Recovering? && s.mode.repair.Bound? && s.mode.repair.item.raw.Some? {
        ProtocolRecovery.StageKeepsInv(c, s, seen);
      }
    case RecoverJournal(seen) =>
      if s.mode.Recovering? && s.mode.repair.Restaged? {
        ProtocolRecovery.JournalKeepsInv(c, s, seen);
      }
    case RecoverDisclose =>
      if s.mode.Recovering? && s.mode.repair.Rejournaled? {
        ProtocolRecovery.DiscloseKeeps(c, s);
      }
    case AcknowledgeLoss(key, cost, block, reason) =>
      if s.mode.Stopped? {
        ProtocolReconcile.LossKeeps(c, s, key, cost, block, reason);
      }
    case _ =>
      if s.mode.Serving? {
        ProtocolReconcile.ReconcileKeeps(c, s, step);
      }
  }

  lemma Unmoved(l: Ledger)
    ensures Extends(l, l)
  {
    ProtocolSteps.Unchanged(l);
  }

  lemma {:induction false} Reachable(c: Config, steps: seq<Step>)
    requires 0 <= c.budget
    ensures Inv(c, After(c, steps))
  {
    hide Inv;
    if steps == [] {
      InitialInv(c);
    } else {
      Reachable(c, steps[..|steps| - 1]);
      StepKeeps(c, After(c, steps[..|steps| - 1]), steps[|steps| - 1]);
    }
  }

  /** Rows are never lost, and a settled row is settled for good: an assured or acknowledged request never
      becomes unresolved again, nor does any figure of it change. */
  lemma {:induction false} SettledForever(c: Config, steps: seq<Step>, n: nat)
    requires 0 <= c.budget && n <= |steps|
    ensures Extends(After(c, steps[..n]).ledger, After(c, steps).ledger)
  {
    hide Inv, Extends;
    if n == |steps| {
      assert steps[..n] == steps;
      ProtocolSteps.Unchanged(After(c, steps).ledger);
    } else {
      var front := steps[..|steps| - 1];
      assert front[..n] == steps[..n];
      SettledForever(c, front, n);
      Reachable(c, front);
      StepKeeps(c, After(c, front), steps[|steps| - 1]);
      ExtendsTransitive(After(c, steps[..n]).ledger, After(c, front).ledger, After(c, steps).ledger);
    }
  }

  // ---------------------------------------------------------------- the gas budget

  /** In every reachable state and at every later time, recorded exposure is within the daily budget. So
      the budget test that a retry repeats can never be what refuses it. */
  lemma BudgetAlwaysHolds(c: Config, steps: seq<Step>, now: int)
    requires 0 <= c.budget && After(c, steps).clock <= now
    ensures Exposure(After(c, steps).ledger, now) <= c.budget
  {
    Reachable(c, steps);
    var s := After(c, steps);
    ExposureNeverExceedsBudget(s.ledger, s.admitted, s.clock, c.budget, now);
  }

  /** No block that mined a request is stamped more than `skew` before the local clock of its last admission. */
  ghost predicate WithinSkew(s: System, skew: int) {
    forall i :: 0 <= i < |s.ledger.rows| && i < |s.admitted| && s.ledger.rows[i].confirmed
           && s.ledger.rows[i].minedAt.Some?
      ==> s.ledger.rows[i].minedAt.value >= s.admitted[i] - skew
  }

  /** Gas recorded as mined in any rolling day, less the clock skew, never exceeds the daily budget. The
      skew bounds how far a block timestamp may precede the local clock of the row's last admission. */
  lemma {:induction false} RollingDayWithinBudget(c: Config, steps: seq<Step>, skew: int, from: int, to: int)
    requires 0 <= c.budget && to - from <= DAY_MS - skew
    requires WithinSkew(After(c, steps), skew)
    ensures GasMined(After(c, steps).ledger.rows, from, to) <= c.budget
  {
    Reachable(c, steps);
    var s := After(c, steps);
    forall i | 0 <= i < |s.ledger.rows| && s.ledger.rows[i].confirmed
      ensures s.ledger.rows[i].minedAt.Some?
    {
      assert RowOk(s.ledger.rows[i]);
    }
    assert s.ledger.rows[..|s.ledger.rows|] == s.ledger.rows;
    AnyWindowWithinBudget(s.ledger, s.admitted, c.budget, skew, from, to, |s.ledger.rows|);
  }

  // ---------------------------------------------------------------- unresolved requests

  /** At most one request is ever unresolved, `pending` returns exactly it, and `hasPending` agrees. */
  lemma {:induction false} AtMostOneUnresolved(c: Config, steps: seq<Step>)
    requires 0 <= c.budget
    ensures var l := After(c, steps).ledger;
            && (forall i, j | 0 <= i < |l.rows| && 0 <= j < |l.rows| && i != j ::
                  !(Unresolved(l.rows[i], l.resolutions) && Unresolved(l.rows[j], l.resolutions)))
            && (forall r :: r in Pending(l) <==> r in l.rows && Unresolved(r, l.resolutions))
            && HasPending(l) == (Pending(l) != [])
  {
    Reachable(c, steps);
    var l := After(c, steps).ledger;
    PendingIsComplete(l);
    if Open(l) {
      assert Last(l) in l.rows;
    }
  }

  // ---------------------------------------------------------------- the two journals and their snapshots

  /** Copying the transport journal after the first `n` steps and the request journal after all of them
      yields a pair in which the transport row repeats a request row and its cancellation is stored. */
  lemma {:induction false} TransportFirstSnapshotsAgree(c: Config, steps: seq<Step>, n: nat)
    requires 0 <= c.budget && n <= |steps|
    ensures Recorded(After(c, steps[..n]).transport, After(c, steps).ledger)
  {
    Reachable(c, steps[..n]);
    SettledForever(c, steps, n);
    RecordedGrows(After(c, steps[..n]).transport, After(c, steps[..n]).ledger, After(c, steps).ledger);
  }

  lemma AfterSnoc(c: Config, steps: seq<Step>, step: Step)
    ensures After(c, steps + [step]) == Apply(c, After(c, steps), step)
  {
    assert (steps + [step])[..|steps|] == steps;
  }

  const WELCOME := Arrival(true, true, true, true)

  // ---------------------------------------------------------------- what may be disclosed

  /** Only bytes committed to the request journal are ever published, and the payloads of one request
      form a strict escalation: each later one is a 21000-gas self-transfer on the same nonce that
      outbids every earlier one in both fee fields. */
  lemma OnlyJournaledBytesAreDisclosed(c: Config, steps: seq<Step>)
    requires 0 <= c.budget
    ensures var s := After(c, steps);
            && (forall i :: 0 <= i < |s.published| ==> WasIssued(s.issued, s.published[i]))
            && (forall i, j :: 0 <= i < j < |s.issued| && s.issued[i].key == s.issued[j].key ==>
                  var next, earlier := s.issued[j].tx, s.issued[i].tx;
                  && SelfTransfer(next, c.terms.operator) && next.nonce == earlier.nonce
                  && FeeCap(next) > FeeCap(earlier) && TipCap(next) > TipCap(earlier))
            && (forall j :: 0 <= j < |s.issued| ==> Get(s.ledger, s.issued[j].key).Some?)
  {
    Reachable(c, steps);
    var s := After(c, steps);
    forall i, j | 0 <= i < j < |s.issued| && s.issued[i].key == s.issued[j].key
      ensures Outbids(s.issued[j].tx, s.issued[i].tx) && SelfTransfer(s.issued[j].tx, c.terms.operator)
    {
      assert Supersedes(c.terms.operator, s.issued[j], s.issued[i]);
    }
  }

  // ---------------------------------------------------------------- recovery

  /** Whatever a crash left between the journals, a recovery that gets through leaves the transport row equal
      to the one unresolved request, and has published that request's current payload. On mainnet that payload
      is always a cancellation; off mainnet the only exception is an older request with identical signed bytes. */
  lemma RecoveryRealigns(c: Config, steps: seq<Step>)
    requires 0 <= c.budget
    requires After(c, steps).mode.Recovering? && After(c, steps).mode.repair.Disclosed?
    ensures var s := After(c, steps);
            var raw := s.mode.repair.raw;
            && raw in s.published && WasIssued(s.issued, raw) && Open(s.ledger)
            && (c.mainnet || !Twin(s.ledger) ==>
                  Aligned(s.transport, s.ledger) && Current(Last(s.ledger)) == Some(raw)
                      && raw.nonce == Last(s.ledger).nonce)
            && (c.mainnet ==> Last(s.ledger).cancelRaw == Some(raw) && SelfTransfer(raw, c.terms.operator))
  {
    Reachable(c, steps);
    var s := After(c, steps);
    var row := s.ledger.rows[|s.ledger.rows| - 1];
    assert CancelsWell(c.terms, row) && RowOk(row);
  }

  lemma InvWellFormed(c: Config, s: System)
    requires Inv(c, s)
    ensures WellFormed(s.ledger)
  {}

  lemma InvLast(c: Config, s: System)
    requires Inv(c, s) && Open(s.ledger)
    ensures s.ledger.rows != [] && RowOk(Last(s.ledger)) && Last(s.ledger).raw.Some?
    ensures Last(s.ledger).hash == Some(Digest(Last(s.ledger).raw.value))
            && Last(s.ledger).nonce == Last(s.ledger).raw.value.nonce
  {}

  // ---------------------------------------------------------------- concurrent requests

  /** At most one invocation ever holds the reservation, `busy` and `activeKey` name it exactly, no key is
      journaled twice, and none is submitted twice by `handle`. */
  lemma {:induction false} OneRequestAtATime(c: Config, steps: seq<Step>)
    requires 0 <= c.budget
    ensures var s := After(c, steps);
            && (s.mode.Serving? ==>
                  && (forall i, j ::
                        i in s.mode.calls && j in s.mode.calls && Holds(s.mode.calls[i]) && Holds(s.mode.calls[j])
                        ==> i == j)
                  && (s.mode.gate.busy <==> exists i :: i in s.mode.calls && Holds(s.mode.calls[i]))
                  && (forall i :: i in s.mode.calls && Holds(s.mode.calls[i]) ==>
                        s.mode.gate.activeKey == Some(s.mode.calls[i].key)))
            && UniqueKeys(s.ledger.rows)
            && (forall i, j :: 0 <= i < j < |s.submitted| ==> s.submitted[i] != s.submitted[j])
            && (forall i :: 0 <= i < |s.submitted| ==> Get(s.ledger, s.submitted[i]).Some?)
  {
    Reachable(c, steps);
  }

  /** Once a request has a stored answer, every later duplicate of it is answered by what is stored then,
      unless it is dropped while that very request is being worked on; it is never processed again. */
  lemma {:induction false} AnsweredRequestsOnlyReplay(c: Config, steps: seq<Step>, n: nat, key: Key, a: Arrival,
                                                      elapsed: int)
    requires 0 <= c.budget && n <= |steps|
    requires var r := Get(After(c, steps[..n]).ledger, key); r.Some? && r.value.response.Some?
    ensures var s := After(c, steps);
            && Get(s.ledger, key).Some? && Get(s.ledger, key).value.response.Some?
            && forall g :: Admit(g, s.ledger, key, a, elapsed)
                 == (g, if g.activeKey == Some(key) then Dropped else Replay(Get(s.ledger, key).value.response.value))
  {
    SettledForever(c, steps, n);
    Reachable(c, steps);
    var before, now := After(c, steps[..n]).ledger, After(c, steps).ledger;
    var i := IndexOf(before.rows, key).value;
    assert Grows(before.rows[i], now.rows[i]);
    IndexOfUnique(now.rows, i);
  }
}

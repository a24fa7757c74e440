/** Which steps may change the ciphertext that a duplicate of an answered request receives. */
module ProtocolReplay {
  import opened Basics
  import opened Transactions
  import opened RequestLedger
  import opened RequestSafety
  import opened Transport
  import opened Admission
  import opened Protocol
  import opened ProtocolSafety
  import ProtocolTheorems

  function Answer(l: Ledger, key: Key): Option<Cipher> {
    var row := Get(l, key);
    if row.Some? then row.value.response else None
  }

  /** The end of the invocation that holds this request, or the answer that reconciliation derives from its receipt. */
  predicate Rewrites(s: System, step: Step, key: Key) {
    && s.mode.Serving?
    && match step
       case Succeed(id, _) => id in s.mode.calls && s.mode.calls[id].Sent? && s.mode.calls[id].key == key
       case Fail(id, _) => id in s.mode.calls && Holds(s.mode.calls[id]) && s.mode.calls[id].key == key
       case ReconcileAnswer(_) =>
         var r := s.mode.reconciliation; r.AfterReceipt? && r.original && r.item.key == key
       case _ => false
  }

  function Written(step: Step): Cipher
    requires step.Succeed? || step.Fail? || step.ReconcileAnswer?
  {
    step.answer
  }

  // ---------------------------------------------------------------- one commit

  lemma UpdateAnswer(l: Ledger, k: Key, change: Row -> Row, key: Key)
    requires Get(l, key).Some? && forall r :: change(r).key == r.key
    ensures Get(Update(l, k, change), key) == Some(if k == key then change(Get(l, key).value) else Get(l, key).value)
  {
    var l' := Update(l, k, change);
    SameKeysSameIndex(l.rows, l'.rows, key);
  }

  lemma RespondAnswer(l: Ledger, k: Key, answer: Cipher, key: Key)
    requires Get(l, key).Some?
    ensures Answer(Respond(l, k, answer), key) == if k == key then Some(answer) else Answer(l, key)
  {
    UpdateAnswer(l, k, (r: Row) => r.(response := Some(answer)), key);
  }

  lemma SettlingAnswer(l: Ledger, k: Key, now: int, cost: int, received: bool, key: Key)
    requires Get(l, key).Some?
    ensures Answer(Checked(l, k, now), key) == Answer(l, key)
    ensures Answer(Confirm(l, k, cost, now), key) == Answer(l, key)
    ensures Assure(l, k, received).Ok? ==> Answer(Assure(l, k, received).value, key) == Answer(l, key)
  {
    UpdateAnswer(l, k, (r: Row) => r.(checkedAt := now), key);
    UpdateAnswer(l, k, (r: Row) => r.(confirmed := true, actualCost := Some(cost), minedAt := Some(now)), key);
    UpdateAnswer(l, k, (r: Row) => r.(assured := true, settlement := Some(if received then FeeReceived else Cancelled)),
                 key);
  }

  lemma CancelAnswer(l: Ledger, k: Key, raw: Tx, budget: int, now: int, key: Key)
    requires Get(l, key).Some? && Cancel(l, k, raw, Digest(raw), CapCost(raw), budget, now).Ok?
    ensures Answer(Cancel(l, k, raw, Digest(raw), CapCost(raw), budget, now).value, key) == Answer(l, key)
  {
    var maxCost := Max(Get(l, k).value.maxCost, CapCost(raw));
    UpdateAnswer(l, k, (r: Row) => r.(cancelRaw := Some(raw), cancelHash := Some(Digest(raw)), maxCost := maxCost),
                 key);
  }

  lemma SignAnswer(l: Ledger, e: Entry, budget: int, checkedAt: int, now: int, key: Key)
    requires Get(l, key).Some? && Sign(l, e, budget, checkedAt, now).Ok?
    ensures Answer(Sign(l, e, budget, checkedAt, now).value, key) == Answer(l, key)
  {
    var row := NewRow(e, now);
    assert (l.rows + [row])[..|l.rows|] == l.rows && (l.rows + [row])[|l.rows|] == row;
    assert IndexOf(l.rows + [row], key) == IndexOf(l.rows, key);
  }

  lemma KnownAnswer(l: Ledger, k: Key, answer: Cipher, key: Key)
    requires Get(l, key).Some? && Get(l, key).value.raw.Some?
    ensures Answer(AnswerKnown(l, k, answer), key) == if k == key then Some(answer) else Answer(l, key)
  {
    RespondAnswer(l, k, answer, key);
  }

  // ---------------------------------------------------------------- one step

  lemma ConsiderAnswer(s: System, id: nat, a: Arrival, elapsed: int, answer: Cipher, key: Key)
    requires s.mode.Serving? && id in s.mode.calls && Answer(s.ledger, key).Some? && Get(s.ledger, key).value.raw.Some?
    ensures Answer(DoConsider(s, id, a, elapsed, answer).ledger, key) == Answer(s.ledger, key)
  {
    hide AnswerKnown;
    KnownAnswer(s.ledger, s.mode.calls[id].key, answer, key);
  }

  lemma ReconcileStepAnswer(s: System, step: Step, key: Key)
    requires s.mode.Serving? && Answer(s.ledger, key).Some?
    ensures Answer(DoReconcile(s, step).ledger, key)
            == if Rewrites(s, step, key) && step.ReconcileAnswer? then Some(step.answer) else Answer(s.ledger, key)
  {
    hide Checked, Confirm, Assure, Respond, Answer, Pending, WithinCap;
    AnsweredIsKnown(s.ledger, key);
    match (step, s.mode.reconciliation)
    case (ReconcileNext(now), Queue(todo)) =>
      if todo != [] { SettlingAnswer(s.ledger, todo[0].key, now, 0, false, key); }
    case (ReconcileReceipt(_, _, cost, minedAt), Examining(item, _)) => SettlingAnswer(s.ledger, item.key, minedAt,
                                                                                       cost, false, key);
    case (ReconcileNonce(_, minedAt), Examining(item, _)) => SettlingAnswer(s.ledger, item.key, minedAt, item.maxCost,
                                                                            false, key);
    case (ReconcileAnswer(answer), AfterReceipt(item, _, _, _)) => RespondAnswer(s.ledger, item.key, answer, key);
    case (ReconcileSettle, AfterReceipt(item, original, _, _)) => SettlingAnswer(s.ledger, item.key, 0, 0, original,
                                                                                 key);
    case (ReconcileSettle, AfterNonce(item, _)) => SettlingAnswer(s.ledger, item.key, 0, 0, true, key);
    case _ =>
  }

  lemma AnsweredIsKnown(l: Ledger, key: Key)
    requires Answer(l, key).Some?
    ensures Get(l, key).Some?
  {}

  lemma AnsweredIsSigned(c: Config, s: System, key: Key)
    requires Inv(c, s) && Answer(s.ledger, key).Some?
    ensures Get(s.ledger, key).Some? && Get(s.ledger, key).value.raw.Some?
  {
    hide Within, Admitted, Recorded, IssuedOk, PublishedOk, TransportOk, SubmittedOk, ModeOk;
    var i := IndexOf(s.ledger.rows, key).value;
    assert RowOk(s.ledger.rows[i]);
  }

  /** A stored answer changes in exactly two ways: its own invocation ends, or reconciliation answers for its
      receipt. */
  lemma StepAnswer(c: Config, s: System, step: Step, key: Key)
    requires Inv(c, s) && Answer(s.ledger, key).Some?
    ensures Answer(Apply(c, s, step).ledger, key) == if Rewrites(s, step, key) then Some(Written(step))
            else Answer(s.ledger, key)
  {
    hide Inv, Answer, DoReconcile, DoConsider, AnswerKnown, Admit, Sign, Cancel, Acknowledge, JournalStep, Accepts,
        BuiltCancellation;
    AnsweredIsSigned(c, s, key);
    match step
    case Consider(id, a, elapsed, answer) =>
      if s.mode.Serving? && id in s.mode.calls { ConsiderAnswer(s, id, a, elapsed, answer, key); }
    case SignRequest(id, e, checkedAt, now, elapsed) =>
      if Sign(s.ledger, e, c.budget, checkedAt, now).Ok? { SignAnswer(s.ledger, e, c.budget, checkedAt, now, key); }
    case Succeed(id, answer) =>
      if s.mode.Serving? && id in s.mode.calls { KnownAnswer(s.ledger, s.mode.calls[id].key, answer, key); }
    case Fail(id, answer) =>
      if s.mode.Serving? && id in s.mode.calls { KnownAnswer(s.ledger, s.mode.calls[id].key, answer, key); }
    case RecoverCancel(tx, now) =>
      if s.mode.Recovering? && s.mode.repair.Chosen?
          && Cancel(s.ledger, s.mode.repair.item.key, tx, Digest(tx), CapCost(tx), c.budget, now).Ok? {
        CancelAnswer(s.ledger, s.mode.repair.item.key, tx, c.budget, now, key);
      }
    case AcknowledgeLoss(k, cost, block, reason) =>
      if Get(s.ledger, k).Some? && Get(s.ledger, k).value.hash.Some? {
        AcknowledgeRows(s.ledger, k, Get(s.ledger, k).value.hash.value, cost, block, reason, key);
      }
    case _ =>
      if s.mode.Serving? { ReconcileStepAnswer(s, step, key); }
  }

  lemma AcknowledgeRows(l: Ledger, k: Key, hash: Hash, cost: int, block: int, reason: string, key: Key)
    ensures Acknowledge(l, k, hash, cost, block, reason).Ok? ==>
              Answer(Acknowledge(l, k, hash, cost, block, reason).value, key) == Answer(l, key)
  {}

  // ---------------------------------------------------------------- whole runs

  /** Between the steps that rewrite it, every replay of an answered request returns the same ciphertext. */
  lemma {:induction false} ReplaysAreIdentical(c: Config, steps: seq<Step>, n: nat, key: Key)
    requires 0 <= c.budget && n <= |steps| && Answer(After(c, steps[..n]).ledger, key).Some?
    requires forall k :: n <= k < |steps| ==> !Rewrites(After(c, steps[..k]), steps[k], key)
    ensures Answer(After(c, steps).ledger, key) == Answer(After(c, steps[..n]).ledger, key)
  {
    hide Answer, Apply, Rewrites;
    if n == |steps| {
      assert steps[..n] == steps;
    } else {
      var front := steps[..|steps| - 1];
      assert front[..n] == steps[..n];
      forall k | n <= k < |front|
        ensures !Rewrites(After(c, front[..k]), front[k], key)
      {
        assert front[..k] == steps[..k];
      }
      ReplaysAreIdentical(c, front, n, key);
      ProtocolTheorems.Reachable(c, front);
      StepAnswer(c, After(c, front), steps[|steps| - 1], key);
    }
  }
}

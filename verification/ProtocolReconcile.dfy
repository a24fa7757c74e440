/** The steps of `reconcile` and of a loss acknowledgement keep the invariant. */
module ProtocolReconcile {
  import opened Basics
  import opened RequestLedger
  import opened RequestSafety
  import opened Protocol
  import opened ProtocolSafety
  import opened ProtocolSteps

  /** `reconcile` picks up exactly the one unresolved row. */
  lemma BeginKeeps(c: Config, s: System)
    requires Inv(c, s) && s.mode.Serving? && s.mode.reconciliation.Idle?
    ensures Keeps(c, s, DoReconcile(s, ReconcileBegin))
  {
    hide Within, Admitted, WellFormed, Extends, Recorded, IssuedOk, PublishedOk, TransportOk, SubmittedOk, CallsOk;
    Unchanged(s.ledger);
    PendingIsComplete(s.ledger);
  }

  lemma NextKeeps(c: Config, s: System, now: int)
    requires Inv(c, s) && s.mode.Serving? && s.mode.reconciliation.Queue?
    ensures Keeps(c, s, DoReconcile(s, ReconcileNext(now)))
  {
    hide Safe, Extends, Recorded, IssuedOk, PublishedOk, TransportOk, SubmittedOk, CallsOk;
    Unchanged(s.ledger);
    var todo := s.mode.reconciliation.todo;
    if todo != [] && todo[0].hash.Some? && s.clock <= now {
      var l' := Checked(s.ledger, todo[0].key, now);
      CheckedTouches(s.ledger, todo[0].key, now);
      TouchMode(c, s, l');
      TouchKeeps(s.ledger, l', s.admitted, s.clock, c.budget);
      TimePasses(l', s.admitted, s.clock, now, c.budget);
      DurableKept(c, s, DoReconcile(s, ReconcileNext(now)));
    }
  }

  /** Confirming the snapshot's row at a cost within its reservation. */
  lemma ConfirmItem(c: Config, s: System, item: Row, cost: int, minedAt: int)
    requires Inv(c, s) && s.mode.Serving? && Open(s.ledger) && Last(s.ledger).key == item.key
    requires 0 <= cost <= Last(s.ledger).maxCost
    ensures var l' := Confirm(s.ledger, item.key, cost, minedAt);
            && Safe(l', s.admitted, s.clock, c.budget) && Extends(s.ledger, l') && SamePayloads(s.ledger, l')
            && CallsOk(l', s.submitted, s.mode.gate, s.mode.calls)
            && Open(l') && Last(l').key == item.key && Last(l').confirmed
  {
    hide Safe, Extends, Recorded, IssuedOk, PublishedOk, TransportOk, SubmittedOk, CallsOk, ReconciliationOk;
    var l' := Confirm(s.ledger, item.key, cost, minedAt);
    ConfirmKeeps(s.ledger, s.admitted, s.clock, c.budget, cost, minedAt);
    CallsGrow(s.ledger, l', s.submitted, s.mode.gate, s.mode.calls);
    UpdateSamePayloads(s.ledger, item.key,
      (r: Row) => r.(confirmed := true, actualCost := Some(cost), minedAt := Some(minedAt)));
  }

  lemma ReceiptKeeps(c: Config, s: System, original: bool, succeeded: bool, cost: int, minedAt: int)
    requires Inv(c, s) && s.mode.Serving? && s.mode.reconciliation.Examining?
    ensures Keeps(c, s, DoReconcile(s, ReconcileReceipt(original, succeeded, cost, minedAt)))
  {
    hide Within, Admitted, WellFormed, Extends, Recorded, IssuedOk, PublishedOk, TransportOk, SubmittedOk, CallsOk,
        WithinCap,
         Confirm, Open, SameSettlement;
    Unchanged(s.ledger);
    var item := s.mode.reconciliation.item;
    ItemIsLast(s.ledger, item);
    if WithinCap(if original then item.raw else item.cancelRaw, cost) {
      CapIsReserved(s.ledger, item, original, cost);
      ConfirmItem(c, s, item, cost, minedAt);
      DurableKept(c, s, DoReconcile(s, ReconcileReceipt(original, succeeded, cost, minedAt)));
    }
  }

  /** The reservation covers whichever payload was mined. */
  lemma CapIsReserved(l: Ledger, item: Row, original: bool, cost: int)
    requires WellFormed(l) && Open(l) && SameSettlement(item, Last(l))
    requires WithinCap(if original then item.raw else item.cancelRaw, cost)
    ensures 0 <= cost <= Last(l).maxCost
  {
    assert RowOk(Last(l));
  }

  lemma ItemIsLast(l: Ledger, item: Row)
    requires WellFormed(l) && Open(l) && SameSettlement(item, Last(l))
    ensures Last(l).key == item.key && Last(l).confirmed == item.confirmed && 0 < Last(l).maxCost == item.maxCost
  {
    assert RowOk(Last(l));
  }

  lemma NonceKeeps(c: Config, s: System, consumed: bool, minedAt: int)
    requires Inv(c, s) && s.mode.Serving? && s.mode.reconciliation.Examining?
    ensures Keeps(c, s, DoReconcile(s, ReconcileNonce(consumed, minedAt)))
  {
    hide Within, Admitted, WellFormed, Extends, Recorded, IssuedOk, PublishedOk, TransportOk, SubmittedOk, CallsOk,
        Confirm, Open,
         SameSettlement;
    Unchanged(s.ledger);
    var item := s.mode.reconciliation.item;
    ItemIsLast(s.ledger, item);
    if consumed {
      ConfirmItem(c, s, item, item.maxCost, minedAt);
      DurableKept(c, s, DoReconcile(s, ReconcileNonce(consumed, minedAt)));
    }
  }

  lemma SettleItem(c: Config, s: System, item: Row, received: bool)
    requires Inv(c, s) && s.mode.Serving? && Open(s.ledger) && Last(s.ledger).key == item.key
             && Last(s.ledger).confirmed
    ensures var r := Assure(s.ledger, item.key, received);
            && r.Ok? && Safe(r.value, s.admitted, s.clock, c.budget) && Extends(s.ledger, r.value)
            && SamePayloads(s.ledger, r.value) && CallsOk(r.value, s.submitted, s.mode.gate, s.mode.calls)
  {
    hide Safe, Extends, Recorded, IssuedOk, PublishedOk, TransportOk, SubmittedOk, CallsOk, ReconciliationOk;
    AssureKeeps(s.ledger, s.admitted, s.clock, c.budget, received);
    var l' := Assure(s.ledger, item.key, received).value;
    CallsGrow(s.ledger, l', s.submitted, s.mode.gate, s.mode.calls);
    UpdateSamePayloads(s.ledger, item.key, (r: Row) =>
      r.(assured := true, settlement := Some(if received then FeeReceived else Cancelled)));
  }

  lemma SettleKeeps(c: Config, s: System)
    requires Inv(c, s) && s.mode.Serving? && (s.mode.reconciliation.AfterReceipt? || s.mode.reconciliation.AfterNonce?)
    ensures Keeps(c, s, DoReconcile(s, ReconcileSettle))
  {
    hide Safe, Extends, Recorded, IssuedOk, PublishedOk, TransportOk, SubmittedOk, CallsOk, Assure, Open;
    Unchanged(s.ledger);
    match s.mode.reconciliation
    case AfterReceipt(item, original, succeeded, todo) =>
      SettleItem(c, s, item, original);
      if !(original && (!succeeded || item.assured)) {
        DurableKept(c, s, DoReconcile(s, ReconcileSettle));
      }
    case AfterNonce(item, todo) =>
      if item.confirmed && !item.assured {
        SettleItem(c, s, item, true);
        DurableKept(c, s, DoReconcile(s, ReconcileSettle));
      }
  }

  lemma AnswerKeeps(c: Config, s: System, answer: Cipher)
    requires Inv(c, s) && s.mode.Serving? && s.mode.reconciliation.AfterReceipt? && s.mode.reconciliation.original
    ensures Keeps(c, s, DoReconcile(s, ReconcileAnswer(answer)))
  {
    hide Safe, Extends, Recorded, IssuedOk, PublishedOk, TransportOk, SubmittedOk, CallsOk, ReconciliationOk;
    var l' := Respond(s.ledger, s.mode.reconciliation.item.key, answer);
    RespondTouches(s.ledger, s.mode.reconciliation.item.key, answer);
    TouchMode(c, s, l');
    DurableKept(c, s, DoReconcile(s, ReconcileAnswer(answer)));
  }

  predicate IsReconcile(step: Step) {
    step.ReconcileBegin? || step.ReconcileNext? || step.ReconcileReceipt? || step.ReconcileAnswer?
        || step.ReconcileNonce?
    || step.ReconcileSettle? || step.ReconcileSkip?
  }

  lemma ReconcileKeeps(c: Config, s: System, step: Step)
    requires Inv(c, s) && s.mode.Serving?
    ensures Keeps(c, s, DoReconcile(s, step))
  {
    hide Safe, Extends, Recorded, IssuedOk, PublishedOk, TransportOk, SubmittedOk, CallsOk, Checked, Confirm, Respond,
        Assure, Pending, WithinCap;
    Unchanged(s.ledger);
    match (step, s.mode.reconciliation)
    case (ReconcileBegin, Idle) => BeginKeeps(c, s);
    case (ReconcileNext(now), Queue(_)) => NextKeeps(c, s, now);
    case (ReconcileReceipt(original, succeeded, cost, minedAt), Examining(_, _)) =>
      ReceiptKeeps(c, s, original, succeeded, cost, minedAt);
    case (ReconcileNonce(consumed, minedAt), Examining(_, _)) => NonceKeeps(c, s, consumed, minedAt);
    case (ReconcileAnswer(answer), AfterReceipt(_, true, _, _)) => AnswerKeeps(c, s, answer);
    case (ReconcileSettle, AfterReceipt(_, _, _, _)) => SettleKeeps(c, s);
    case (ReconcileSettle, AfterNonce(_, _)) => SettleKeeps(c, s);
    case _ =>
  }

  lemma LossKeeps(c: Config, s: System, key: Key, cost: int, block: int, reason: string)
    requires Inv(c, s) && s.mode.Stopped?
    ensures Keeps(c, s, Apply(c, s, AcknowledgeLoss(key, cost, block, reason)))
  {
    hide Safe, Extends, Recorded, IssuedOk, PublishedOk, TransportOk, SubmittedOk;
    Unchanged(s.ledger);
    var s' := Apply(c, s, AcknowledgeLoss(key, cost, block, reason));
    if s' != s {
      var hash := Get(s.ledger, key).value.hash.value;
      AcknowledgeKeeps(s.ledger, s.admitted, s.clock, c.budget, key, hash, cost, block, reason);
      DurableKept(c, s, s');
    }
  }
}

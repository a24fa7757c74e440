/** The gas sponsor as a state machine: both journals, the volatile process that moves them, and a crash
    allowed between any two commits. `Apply` is one atomic step; awaits are the gaps between steps, and
    every reply of the chain, the clock and the endpoint is an argument of the step. */
module Protocol {
  import opened Basics
  import opened Transactions
  import opened RequestLedger
  import opened Transport
  import opened Admission

  datatype Config = Config(budget: int, terms: Terms, mainnet: bool, start: int)

  /** One concurrent `handle` invocation, by the last commit it has made. */
  datatype Call = Arrived(key: Key)
                | Holding(key: Key)
                | Journaled(key: Key, tx: Tx)
                | Staged(key: Key, tx: Tx)
                | Sent(key: Key, tx: Tx)

  /** The background `reconcile`: `item` is the row as `pending` returned it. */
  datatype Reconciliation = Idle
                 | Queue(todo: seq<Row>)
                 | Examining(item: Row, todo: seq<Row>)
                 | AfterReceipt(item: Row, original: bool, succeeded: bool, todo: seq<Row>)
                 | AfterNonce(item: Row, todo: seq<Row>)

  /** The exclusive `recover`: `stale` is the transport row read at its start. */
  datatype Repair = Chosen(item: Row, stale: Option<PendingRow>)
                  | Bound(item: Row, stale: Option<PendingRow>, raw: Tx, cancelling: bool)
                  | Restaged(item: Row, raw: Tx, cancelling: bool)
                  | Rejournaled(item: Row, raw: Tx)
                  | Disclosed(item: Row, raw: Tx)

  datatype Mode = Stopped
                | Serving(gate: Gate, calls: map<nat, Call>, reconciliation: Reconciliation)
                | Recovering(repair: Repair)

  /** A payload committed to the request journal on behalf of a request. */
  datatype Issue = Issue(key: Key, tx: Tx)

  /** The durable journals and the volatile mode, followed by history that no step reads: when each row
      last passed the budget, what the store committed, what reached the endpoint, and which requests
      `handle` has submitted. */
  datatype System = System(clock: int, ledger: Ledger, transport: Option<PendingRow>, mode: Mode,
                           admitted: seq<int>, issued: seq<Issue>, published: seq<Tx>, submitted: seq<Key>)

  function Initial(c: Config): System {
    System(c.start, EMPTY, None, Stopped, [], [], [], [])
  }

  datatype Step = Tick(now: int)
                | Start
                | Crash
                | Arrive(id: nat, key: Key)
                | Consider(id: nat, arrival: Arrival, elapsed: int, answer: Cipher)
                | SignRequest(id: nat, entry: Entry, checkedAt: int, now: int, elapsed: int)
                | StageRequest(id: nat, seen: Observation)
                | Submit(id: nat)
                | Succeed(id: nat, answer: Cipher)
                | Fail(id: nat, answer: Cipher)
                | ReconcileBegin
                | ReconcileNext(now: int)
                | ReconcileReceipt(original: bool, succeeded: bool, cost: int, minedAt: int)
                | ReconcileAnswer(answer: Cipher)
                | ReconcileNonce(consumed: bool, minedAt: int)
                | ReconcileSettle
                | ReconcileSkip
                | RecoverBegin(cancel: bool, seen: Observation)
                | RecoverCancel(tx: Tx, now: int)
                | RecoverStage(seen: Observation)
                | RecoverJournal(seen: Observation)
                | RecoverDisclose
                | AcknowledgeLoss(key: Key, cost: int, block: int, reason: string)

  // ---------------------------------------------------------------- helpers

  predicate Holds(call: Call) {
    !call.Arrived?
  }

  /** The catch clause answers for a request whose signed bytes are already journaled. */
  function AnswerKnown(l: Ledger, key: Key, answer: Cipher): Ledger {
    if Get(l, key).Some? && Get(l, key).value.raw.Some? then Respond(l, key, answer) else l
  }

  function Current(row: Row): Option<Tx> {
    if row.cancelRaw.Some? then row.cancelRaw else row.raw
  }

  function Unconfirmed(rows: seq<Row>): seq<Row> {
    if rows == [] then []
    else
      var front := Unconfirmed(rows[..|rows| - 1]);
      var last := rows[|rows| - 1];
      if last.confirmed then front else front + [last]
  }

  /** What `recover cancel` signs: an outbidding 21000-gas self-transfer on the row's own nonce. */
  predicate BuiltCancellation(c: Config, item: Row, tx: Tx) {
    && item.raw.Some? && tx.sender == Some(c.terms.operator) && tx.chainId == 1
    && SelfTransfer(tx, c.terms.operator) && tx.nonce == item.nonce
    && tx.maxFeePerGas.Some? && tx.maxPriorityFeePerGas.Some?
    && FeeCap(tx) > FeeCap(Current(item).value) && TipCap(tx) > TipCap(Current(item).value)
    && 0 < TipCap(tx) <= FeeCap(tx)
  }

  function Proceed(s: System, id: nat, call: Call): System
    requires s.mode.Serving?
  {
    s.(mode := s.mode.(calls := s.mode.calls[id := call]))
  }

  function Leave(s: System, id: nat): System
    requires s.mode.Serving?
  {
    s.(mode := s.mode.(calls := s.mode.calls - {id}))
  }

  // ---------------------------------------------------------------- handle

  function DoConsider(s: System, id: nat, a: Arrival, elapsed: int, answer: Cipher): System
    requires s.mode.Serving? && id in s.mode.calls
  {
    var key := s.mode.calls[id].key;
    var (gate, verdict) := Admit(s.mode.gate, s.ledger, key, a, elapsed);
    var s1 := s.(mode := s.mode.(gate := gate));
    match verdict
    case Dropped => Leave(s1, id)
    case Replay(_) => Leave(s1, id)
    case Refused => Leave(s1, id).(ledger := AnswerKnown(s.ledger, key, answer))
    case Reserved => Proceed(s1, id, Holding(key))
  }

  function DoSign(c: Config, s: System, id: nat, e: Entry, checkedAt: int, now: int, elapsed: int): System
    requires s.mode.Serving? && id in s.mode.calls
  {
    var stamped := s.(mode := s.mode.(gate := RecordSigning(s.mode.gate, elapsed)));
    match Sign(s.ledger, e, c.budget, checkedAt, now)
    case Err(_) => stamped
    case Ok(l) =>
      Proceed(stamped, id, Journaled(e.key, e.raw))
        .(ledger := l, clock := now, admitted := s.admitted + [checkedAt], issued := s.issued + [Issue(e.key, e.raw)])
  }

  function DoStage(c: Config, s: System, id: nat, seen: Observation): System
    requires s.mode.Serving? && id in s.mode.calls && s.mode.calls[id].Journaled?
  {
    var Journaled(key, tx) := s.mode.calls[id];
    if !Accepts(c.terms, tx, false) || !Guarded(c.terms, tx, false) then s
    else
      match JournalStep(s.transport, tx, false, None, seen)
      case Err(_) => s
      case Ok(t) => Proceed(s, id, Staged(key, tx)).(transport := t)
  }

  function DoFinish(s: System, id: nat, answer: Cipher): System
    requires s.mode.Serving? && id in s.mode.calls
  {
    var key := s.mode.calls[id].key;
    Leave(s.(mode := s.mode.(gate := Release(s.mode.gate))), id).(ledger := AnswerKnown(s.ledger, key, answer))
  }

  // ---------------------------------------------------------------- reconcile

  function WithReconciliation(s: System, reconciliation: Reconciliation, l: Ledger): System
    requires s.mode.Serving?
  {
    s.(mode := s.mode.(reconciliation := reconciliation), ledger := l)
  }

  /** A receipt for `tx` charges at most its gas limit times its signed cap. */
  predicate WithinCap(tx: Option<Tx>, cost: int) {
    tx.Some? && 0 <= cost <= CapCost(tx.value)
  }

  function DoReconcile(s: System, step: Step): System
    requires s.mode.Serving?
  {
    var reconciliation := s.mode.reconciliation;
    match (step, reconciliation)
    case (ReconcileBegin, Idle) => WithReconciliation(s, Queue(Pending(s.ledger)), s.ledger)
    case (ReconcileNext(now), Queue(todo)) =>
      if todo == [] then WithReconciliation(s, Idle, s.ledger)
      else if todo[0].hash.None? || now < s.clock then s
      else WithReconciliation(s, Examining(todo[0], todo[1..]), Checked(s.ledger, todo[0].key, now)).(clock := now)
    case (ReconcileReceipt(original, succeeded, cost, minedAt), Examining(item, todo)) =>
      if !WithinCap(if original then item.raw else item.cancelRaw, cost) then s
      else WithReconciliation(s, AfterReceipt(item, original, succeeded, todo),
                              Confirm(s.ledger, item.key, cost, minedAt))
    case (ReconcileNonce(consumed, minedAt), Examining(item, todo)) =>
      WithReconciliation(s, AfterNonce(item, todo),
                if consumed then Confirm(s.ledger, item.key, item.maxCost, minedAt) else s.ledger)
    case (ReconcileAnswer(answer), AfterReceipt(item, true, _, _)) =>
      WithReconciliation(s, reconciliation, Respond(s.ledger, item.key, answer))
    case (ReconcileSettle, AfterReceipt(item, original, succeeded, todo)) =>
      if original && (!succeeded || item.assured) then s
      else
        (match Assure(s.ledger, item.key, original)
         case Err(_) => s
         case Ok(l) => WithReconciliation(s, Queue(todo), l))
    case (ReconcileSettle, AfterNonce(item, todo)) =>
      if !item.confirmed || item.assured then s
      else
        (match Assure(s.ledger, item.key, true)
         case Err(_) => s
         case Ok(l) => WithReconciliation(s, Queue(todo), l))
    case (ReconcileSkip, Examining(_, todo)) => WithReconciliation(s, Queue(todo), s.ledger)
    case (ReconcileSkip, AfterReceipt(_, _, _, todo)) => WithReconciliation(s, Queue(todo), s.ledger)
    case (ReconcileSkip, AfterNonce(_, todo)) => WithReconciliation(s, Queue(todo), s.ledger)
    case _ => s
  }

  // ---------------------------------------------------------------- recover

  function DoRecoverBegin(c: Config, s: System, cancel: bool, seen: Observation): System
    requires s.mode.Stopped?
  {
    var rows := Unconfirmed(s.ledger.rows);
    if |rows| != 1 then s
    else
      var item := rows[0];
      var pending := s.transport;
      if !cancel && c.mainnet && item.cancelRaw.None? then s
      else if item.raw.None? || item.hash != Some(Digest(item.raw.value)) || item.raw.value.nonce != item.nonce then s
      else if seen.latest != item.nonce || seen.confirmed != item.nonce then s
      else if pending.Some? && (Some(pending.value.hash) != item.hash || pending.value.nonce != item.nonce)
        && pending.value.nonce >= seen.confirmed then s
      else if cancel then s.(mode := Recovering(Chosen(item, pending)))
      else s.(mode := Recovering(Bound(item, pending, Current(item).value, item.cancelRaw.Some?)))
  }

  function DoRecoverCancel(c: Config, s: System, tx: Tx, now: int): System
    requires s.mode.Recovering? && s.mode.repair.Chosen?
  {
    var Chosen(item, stale) := s.mode.repair;
    if !BuiltCancellation(c, item, tx) || now < s.clock || |s.admitted| != |s.ledger.rows| || s.ledger.rows == [] then s
    else
      match Cancel(s.ledger, item.key, tx, Digest(tx), CapCost(tx), c.budget, now)
      case Err(_) => s
      case Ok(l) =>
        s.(ledger := l, clock := now, mode := Recovering(Bound(item, stale, tx, true)),
           admitted := s.admitted[|s.admitted| - 1 := now], issued := s.issued + [Issue(item.key, tx)])
  }

  function DoRecoverStage(c: Config, s: System, seen: Observation): System
    requires s.mode.Recovering? && s.mode.repair.Bound? && s.mode.repair.item.raw.Some?
  {
    var Bound(item, stale, raw, cancelling) := s.mode.repair;
    var next := s.(mode := Recovering(Restaged(item, raw, cancelling)));
    if stale.Some? && Some(stale.value.hash) == item.hash then next
    else if !Accepts(c.terms, item.raw.value, false) then s
    else
      match JournalStep(s.transport, item.raw.value, false, None, seen)
      case Err(_) => s
      case Ok(t) => next.(transport := t)
  }

  function DoRecoverJournal(c: Config, s: System, seen: Observation): System
    requires s.mode.Recovering? && s.mode.repair.Restaged?
  {
    var Restaged(item, raw, cancelling) := s.mode.repair;
    if cancelling then
      if !Accepts(c.terms, raw, true) then s
      else
        (match JournalStep(s.transport, raw, true, None, seen)
         case Err(_) => s
         case Ok(t) => s.(transport := t, mode := Recovering(Rejournaled(item, raw))))
    else if s.transport.None? then s
    else
      var row := s.transport.value;
      var bytes := row.cancelRaw.GetOr(row.raw);
      if !Accepts(c.terms, bytes, row.cancelRaw.Some?) || !Guarded(c.terms, bytes, row.cancelRaw.Some?) then s
      else
        match JournalStep(s.transport, bytes, row.cancelRaw.Some?, Some(row.cancelHash.GetOr(row.hash)), seen)
        case Err(_) => s
        case Ok(t) => s.(transport := t, mode := Recovering(Rejournaled(item, bytes)))
  }

  // ---------------------------------------------------------------- the machine

  /** A step that is not enabled leaves the system as it is. */
  function Apply(c: Config, s: System, step: Step): System {
    match step
    case Tick(now) => if now < s.clock then s else s.(clock := now)
    case Start => if s.mode.Stopped? then s.(mode := Serving(IDLE, map[], Idle)) else s
    case Crash => s.(mode := Stopped)
    case Arrive(id, key) => if s.mode.Serving? && id !in s.mode.calls then Proceed(s, id, Arrived(key)) else s
    case Consider(id, a, elapsed, answer) =>
      if s.mode.Serving? && id in s.mode.calls && s.mode.calls[id].Arrived? then DoConsider(s, id, a, elapsed, answer)
          else s
    case SignRequest(id, e, checkedAt, now, elapsed) =>
      if s.mode.Serving? && id in s.mode.calls && s.mode.calls[id] == Holding(e.key)
        && e.hash == Digest(e.raw) && e.nonce == e.raw.nonce && e.cost == CapCost(e.raw) && s.clock <= checkedAt <= now
      then DoSign(c, s, id, e, checkedAt, now, elapsed) else s
    case StageRequest(id, seen) =>
      if s.mode.Serving? && id in s.mode.calls && s.mode.calls[id].Journaled? then DoStage(c, s, id, seen) else s
    case Submit(id) =>
      if s.mode.Serving? && id in s.mode.calls && s.mode.calls[id].Staged? then
        var Staged(key, tx) := s.mode.calls[id];
        Proceed(s, id, Sent(key, tx)).(published := s.published + [tx], submitted := s.submitted + [key])
      else s
    case Succeed(id, answer) =>
      if s.mode.Serving? && id in s.mode.calls && s.mode.calls[id].Sent? then DoFinish(s, id, answer) else s
    case Fail(id, answer) =>
      if s.mode.Serving? && id in s.mode.calls && Holds(s.mode.calls[id]) then DoFinish(s, id, answer) else s
    case RecoverBegin(cancel, seen) => if s.mode.Stopped? then DoRecoverBegin(c, s, cancel, seen) else s
    case RecoverCancel(tx, now) =>
      if s.mode.Recovering? && s.mode.repair.Chosen? then DoRecoverCancel(c, s, tx, now) else s
    case RecoverStage(seen) =>
      if s.mode.Recovering? && s.mode.repair.Bound? && s.mode.repair.item.raw.Some? then DoRecoverStage(c, s, seen)
          else s
    case RecoverJournal(seen) =>
      if s.mode.Recovering? && s.mode.repair.Restaged? then DoRecoverJournal(c, s, seen) else s
    case RecoverDisclose =>
      if s.mode.Recovering? && s.mode.repair.Rejournaled? then
        var Rejournaled(item, raw) := s.mode.repair;
        s.(published := s.published + [raw], mode := Recovering(Disclosed(item, raw)))
      else s
    case AcknowledgeLoss(key, cost, block, reason) =>
      if s.mode.Stopped? && Get(s.ledger, key).Some? && Get(s.ledger, key).value.hash.Some? then
        (match Acknowledge(s.ledger, key, Get(s.ledger, key).value.hash.value, cost, block, reason)
         case Err(_) => s
         case Ok(l) => s.(ledger := l))
      else s
    case _ => if s.mode.Serving? then DoReconcile(s, step) else s
  }

  /** The state after any finite run of steps from a given state, and from an empty installation. */
  function Run(c: Config, s: System, steps: seq<Step>): System {
    if steps == [] then s else Apply(c, Run(c, s, steps[..|steps| - 1]), steps[|steps| - 1])
  }

  function After(c: Config, steps: seq<Step>): System {
    if steps == [] then Initial(c) else Apply(c, After(c, steps[..|steps| - 1]), steps[|steps| - 1])
  }
}

/** The inductive invariant of the two-journal protocol and its preservation by every step. */
module ProtocolSafety {
  import opened Basics
  import opened Transactions
  import opened RequestLedger
  import opened RequestSafety
  import opened Transport
  import opened Admission
  import opened Protocol

  // ---------------------------------------------------------------- the invariant

  /** The transport row repeats some request row, and its cancellation was stored there first. */
  predicate Repeats(t: PendingRow, row: Row) {
    && row.hash == Some(t.hash) && row.raw == Some(t.raw) && row.nonce == t.nonce
    && (t.cancelRaw.Some? ==> row.cancelRaw.Some?)
  }

  ghost predicate Recorded(t: Option<PendingRow>, l: Ledger) {
    t.Some? ==> exists i :: 0 <= i < |l.rows| && Repeats(t.value, l.rows[i])
  }

  ghost predicate WasIssued(issued: seq<Issue>, tx: Tx) {
    exists i :: 0 <= i < |issued| && issued[i].tx == tx
  }

  predicate Supersedes(operator: Address, next: Issue, earlier: Issue) {
    next.key == earlier.key ==> Outbids(next.tx, earlier.tx) && SelfTransfer(next.tx, operator)
  }

  /** Later payloads of a request outbid all earlier ones and are cancellations. */
  ghost predicate Escalates(operator: Address, issued: seq<Issue>) {
    forall i, j :: 0 <= i < j < |issued| ==> Supersedes(operator, issued[j], issued[i])
  }

  /** `row` is up to date with what was issued for it. */
  ghost predicate Tracks(row: Row, issued: seq<Issue>) {
    && row.raw.Some? && Issue(row.key, row.raw.value) in issued
    && Issue(row.key, Current(row).value) in issued
    && forall i :: 0 <= i < |issued| && issued[i].key == row.key ==>
         (issued[i].tx == Current(row).value || Outbids(Current(row).value, issued[i].tx))
  }

  /** A stored cancellation is one that the transport takes, and outbids the original it replaces. */
  predicate CancelsWell(terms: Terms, row: Row) {
    row.raw.Some? && row.cancelRaw.Some? ==>
      && SelfTransfer(row.cancelRaw.value, terms.operator) && Accepts(terms, row.cancelRaw.value, true)
      && Outbids(row.cancelRaw.value, row.raw.value)
  }

  ghost predicate IssuedOk(c: Config, l: Ledger, issued: seq<Issue>) {
    && Escalates(c.terms.operator, issued)
    && (forall i :: 0 <= i < |l.rows| ==> CancelsWell(c.terms, l.rows[i]))
    && (forall i :: 0 <= i < |l.rows| ==> Tracks(l.rows[i], issued))
    && (forall i :: 0 <= i < |issued| ==> IndexOf(l.rows, issued[i].key).Some?)
  }

  ghost predicate PublishedOk(published: seq<Tx>, issued: seq<Issue>) {
    forall i :: 0 <= i < |published| ==> WasIssued(issued, published[i])
  }

  ghost predicate TransportOk(t: Option<PendingRow>, issued: seq<Issue>) {
    t.Some? ==>
      && t.value.cancelHash == (if t.value.cancelRaw.Some? then Some(Digest(t.value.cancelRaw.value)) else None)
      && (t.value.cancelRaw.Some? ==> WasIssued(issued, t.value.cancelRaw.value))
  }

  ghost predicate HasRow(l: Ledger, key: Key, tx: Tx) {
    exists i :: 0 <= i < |l.rows| && l.rows[i].key == key && l.rows[i].raw == Some(tx)
  }

  predicate HasPayload(call: Call) {
    call.Journaled? || call.Staged? || call.Sent?
  }

  /** At most one invocation holds the reservation, and `busy` and `activeKey` say which. */
  ghost predicate CallsOk(l: Ledger, submitted: seq<Key>, gate: Gate, calls: map<nat, Call>) {
    && (forall i, j :: i in calls && j in calls && Holds(calls[i]) && Holds(calls[j]) ==> i == j)
    && (forall i :: i in calls && Holds(calls[i]) ==> gate.busy && gate.activeKey == Some(calls[i].key))
    && (gate.busy ==> exists i :: i in calls && Holds(calls[i]))
    && (!gate.busy ==> gate.activeKey.None?)
    && (forall i :: i in calls && HasPayload(calls[i]) ==> HasRow(l, calls[i].key, calls[i].tx))
    && (forall i :: i in calls && (calls[i].Journaled? || calls[i].Staged?) ==> calls[i].key !in submitted)
  }

  ghost predicate SubmittedOk(l: Ledger, submitted: seq<Key>) {
    && (forall i, j :: 0 <= i < j < |submitted| ==> submitted[i] != submitted[j])
    && (forall i :: 0 <= i < |submitted| ==> IndexOf(l.rows, submitted[i]).Some?)
  }

  /** The snapshot that `reconcile` works on is still the one unresolved row. */
  ghost predicate ReconciliationOk(l: Ledger, reconciliation: Reconciliation) {
    match reconciliation
    case Idle => true
    case Queue(todo) => todo == [] || (Open(l) && |todo| == 1 && SameSettlement(todo[0], Last(l)))
    case Examining(item, todo) => todo == [] && Open(l) && SameSettlement(item, Last(l))
    case AfterReceipt(item, _, _, todo) => todo == [] && Open(l) && Last(l).key == item.key && Last(l).confirmed
    case AfterNonce(item, todo) =>
      todo == [] && Open(l) && Last(l).key == item.key && (item.confirmed ==> Last(l).confirmed)
  }

  ghost predicate Target(l: Ledger, item: Row) {
    && Open(l) && !Last(l).confirmed && Last(l).key == item.key && Last(l).raw == item.raw
    && Last(l).hash == item.hash && Last(l).nonce == item.nonce
  }

  /** An older request whose signed bytes equal those of the newest one. */
  ghost predicate Twin(l: Ledger) {
    exists i :: 0 <= i < |l.rows| - 1 && l.rows[i].hash == Last(l).hash
  }

  /** The transport row equals the one unresolved request. */
  ghost predicate Aligned(t: Option<PendingRow>, l: Ledger) {
    && Open(l) && t.Some? && Last(l).raw.Some?
    && t.value == PendingRow(Digest(Last(l).raw.value), Last(l).nonce, Last(l).raw.value, Last(l).cancelHash,
                             Last(l).cancelRaw)
  }

  ghost predicate Realigned(c: Config, l: Ledger, t: Option<PendingRow>, issued: seq<Issue>, raw: Tx)
    requires l.rows != []
  {
    && WasIssued(issued, raw)
    && ((Aligned(t, l) && Current(Last(l)) == Some(raw) && (c.mainnet ==> Last(l).cancelRaw.Some?))
        || (!c.mainnet && Twin(l)))
  }

  ghost predicate RepairOk(c: Config, l: Ledger, t: Option<PendingRow>, issued: seq<Issue>, published: seq<Tx>,
                           r: Repair) {
    && Target(l, r.item)
    && match r
       case Chosen(item, stale) => stale == t && SameSettlement(item, Last(l))
       case Bound(item, stale, raw, cancelling) =>
         && stale == t && Current(Last(l)) == Some(raw) && cancelling == Last(l).cancelRaw.Some?
         && (c.mainnet ==> cancelling)
       case Restaged(item, raw, cancelling) =>
         && Current(Last(l)) == Some(raw) && cancelling == Last(l).cancelRaw.Some?
         && (c.mainnet ==> cancelling) && t.Some? && Some(t.value.hash) == item.hash
       case Rejournaled(item, raw) => Realigned(c, l, t, issued, raw)
       case Disclosed(item, raw) => Realigned(c, l, t, issued, raw) && raw in published
  }

  ghost predicate ModeOk(c: Config, s: System) {
    match s.mode
    case Stopped => true
    case Serving(gate, calls, reconciliation) => CallsOk(s.ledger, s.submitted, gate, calls)
        && ReconciliationOk(s.ledger, reconciliation)
    case Recovering(repair) => RepairOk(c, s.ledger, s.transport, s.issued, s.published, repair)
  }

  ghost predicate Inv(c: Config, s: System) {
    && Safe(s.ledger, s.admitted, s.clock, c.budget)
    && Recorded(s.transport, s.ledger)
    && IssuedOk(c, s.ledger, s.issued)
    && PublishedOk(s.published, s.issued)
    && TransportOk(s.transport, s.issued)
    && SubmittedOk(s.ledger, s.submitted)
    && ModeOk(c, s)
  }

  // ---------------------------------------------------------------- stability under growth of the journal

  lemma RecordedGrows(t: Option<PendingRow>, l: Ledger, l': Ledger)
    requires Recorded(t, l) && Extends(l, l')
    ensures Recorded(t, l')
  {
    if t.Some? {
      var i :| 0 <= i < |l.rows| && Repeats(t.value, l.rows[i]);
      assert Grows(l.rows[i], l'.rows[i]);
      assert Repeats(t.value, l'.rows[i]);
    }
  }

  lemma HasRowGrows(l: Ledger, l': Ledger, key: Key, tx: Tx)
    requires HasRow(l, key, tx) && Extends(l, l')
    ensures HasRow(l', key, tx)
  {
    var i :| 0 <= i < |l.rows| && l.rows[i].key == key && l.rows[i].raw == Some(tx);
    assert Grows(l.rows[i], l'.rows[i]);
  }

  lemma IndexGrows(l: Ledger, l': Ledger, key: Key)
    requires IndexOf(l.rows, key).Some? && Extends(l, l')
    ensures IndexOf(l'.rows, key).Some?
  {
    var i := IndexOf(l.rows, key).value;
    assert Grows(l.rows[i], l'.rows[i]);
    assert l'.rows[i].key == key;
  }

  lemma SubmittedGrows(l: Ledger, l': Ledger, submitted: seq<Key>)
    requires SubmittedOk(l, submitted) && Extends(l, l')
    ensures SubmittedOk(l', submitted)
  {
    forall i | 0 <= i < |submitted|
      ensures IndexOf(l'.rows, submitted[i]).Some?
    {
      IndexGrows(l, l', submitted[i]);
    }
  }

  lemma CallsGrow(l: Ledger, l': Ledger, submitted: seq<Key>, gate: Gate, calls: map<nat, Call>)
    requires CallsOk(l, submitted, gate, calls) && Extends(l, l')
    ensures CallsOk(l', submitted, gate, calls)
  {
    forall i | i in calls && HasPayload(calls[i])
      ensures HasRow(l', calls[i].key, calls[i].tx)
    {
      HasRowGrows(l, l', calls[i].key, calls[i].tx);
    }
  }

  /** The same requests with the same payloads. */
  ghost predicate SamePayloads(l: Ledger, l': Ledger) {
    && |l'.rows| == |l.rows|
    && forall i :: 0 <= i < |l.rows| ==>
         l'.rows[i].key == l.rows[i].key && l'.rows[i].raw == l.rows[i].raw
             && l'.rows[i].cancelRaw == l.rows[i].cancelRaw
  }

  lemma UpdateSamePayloads(l: Ledger, key: Key, change: Row -> Row)
    requires forall r :: change(r).key == r.key && change(r).raw == r.raw && change(r).cancelRaw == r.cancelRaw
    ensures SamePayloads(l, Update(l, key, change))
  {}

  lemma IssuedStable(c: Config, l: Ledger, l': Ledger, issued: seq<Issue>)
    requires IssuedOk(c, l, issued) && SamePayloads(l, l')
    ensures IssuedOk(c, l', issued)
  {
    forall i | 0 <= i < |l'.rows|
      ensures Tracks(l'.rows[i], issued) && CancelsWell(c.terms, l'.rows[i])
    {
      assert Tracks(l.rows[i], issued) && CancelsWell(c.terms, l.rows[i]);
    }
    forall i | 0 <= i < |issued|
      ensures IndexOf(l'.rows, issued[i].key).Some?
    {
      SameKeysSameIndex(l.rows, l'.rows, issued[i].key);
    }
  }
}

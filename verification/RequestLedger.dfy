/** The request journal as a value: rows in insertion order plus the append-only loss resolutions.
    Each function is one SQL transaction of the operator's store. */
module RequestLedger {
  import opened Basics
  import opened Transactions

  type Key = string
  type Cipher = string

  const DAY_MS := 24 * 60 * 60_000
  const MAX_SAFE_INTEGER := 0x1F_FFFF_FFFF_FFFF
  const PENDING_LIMIT := 20

  datatype Settlement = FeeReceived | Cancelled
  datatype Payment = Payment(token: Address, amount: int)

  datatype Row = Row(key: Key, envelope: string, raw: Option<Tx>, hash: Option<Hash>, response: Option<Cipher>,
                     confirmed: bool, assured: bool, created: int, maxCost: int, actualCost: Option<int>,
                     signedAt: int, minedAt: Option<int>, payment: Option<Payment>,
                     settlement: Option<Settlement>, nonce: int, cancelRaw: Option<Tx>,
                     cancelHash: Option<Hash>, checkedAt: int, feeExpiration: int)

  datatype Resolution = Resolution(hash: Hash, actualCost: int, block: int, reason: string)

  /** `pilot` is the `withdrawalPilot` setting. */
  datatype Ledger = Ledger(rows: seq<Row>, resolutions: map<Key, Resolution>, pilot: Option<Hash>)

  const EMPTY := Ledger([], map[], None)

  datatype StoreError = InvalidNonce | AlreadyJournaled | PilotUsed | BudgetExhausted | Unreconciled
                      | NothingToCancel | CancellationOverBudget | MissingRecord | BadReason | RecordChanged
                      | AlreadyResolved

  /** Everything the caller supplies when it journals a freshly signed request. */
  datatype Entry = Entry(key: Key, envelope: string, raw: Tx, hash: Hash, cost: int, nonce: int,
                         payment: Option<Payment>, expiration: int, withdrawalPilot: bool)

  // ---------------------------------------------------------------- queries

  function IndexOf(rows: seq<Row>, key: Key): (i: Option<nat>)
    ensures i.Some? ==> i.value < |rows| && rows[i.value].key == key
    ensures i.None? ==> forall j :: 0 <= j < |rows| ==> rows[j].key != key
  {
    if rows == [] then None
    else if rows[|rows| - 1].key == key then Some(|rows| - 1)
    else IndexOf(rows[..|rows| - 1], key)
  }

  function Get(l: Ledger, key: Key): (r: Option<Row>) {
    var i := IndexOf(l.rows, key);
    if i.Some? then Some(l.rows[i.value]) else None
  }

  /** What one row contributes to the rolling exposure at time `now`. */
  function Charge(row: Row, now: int): int {
    if row.minedAt.GetOr(row.signedAt) >= now - DAY_MS || !row.confirmed
    then row.actualCost.GetOr(row.maxCost) else 0
  }

  function ExposureOf(rows: seq<Row>, now: int): int {
    if rows == [] then 0 else ExposureOf(rows[..|rows| - 1], now) + Charge(rows[|rows| - 1], now)
  }

  function Exposure(l: Ledger, now: int): int {
    ExposureOf(l.rows, now)
  }

  /** An acknowledged loss: the resolution still matches the confirmed, unpaid row. */
  predicate Acknowledged(row: Row, resolutions: map<Key, Resolution>) {
    && row.key in resolutions && row.confirmed && !row.assured
    && row.hash == Some(resolutions[row.key].hash)
    && row.actualCost == Some(resolutions[row.key].actualCost)
  }

  /** The WHERE clause shared by `pending` and `hasPending`. */
  predicate Unresolved(row: Row, resolutions: map<Key, Resolution>) {
    row.hash.Some? && (!row.confirmed || !row.assured) && !Acknowledged(row, resolutions)
  }

  predicate HasPending(l: Ledger) {
    exists i :: 0 <= i < |l.rows| && Unresolved(l.rows[i], l.resolutions)
  }

  predicate NonceBlocked(l: Ledger, nonce: int) {
    exists i :: 0 <= i < |l.rows| && !l.rows[i].confirmed && l.rows[i].nonce >= nonce
  }

  function UnresolvedRows(rows: seq<Row>, resolutions: map<Key, Resolution>): (out: seq<Row>)
    ensures forall r :: r in out ==> r in rows && Unresolved(r, resolutions)
    ensures forall r :: r in rows && Unresolved(r, resolutions) ==> r in out
  {
    if rows == [] then []
    else
      var front := UnresolvedRows(rows[..|rows| - 1], resolutions);
      var last := rows[|rows| - 1];
      if Unresolved(last, resolutions) then front + [last] else front
  }

  /** ORDER BY confirmed, checked_at, created. */
  predicate Precedes(a: Row, b: Row) {
    || (!a.confirmed && b.confirmed)
    || (a.confirmed == b.confirmed &&
        (a.checkedAt < b.checkedAt || (a.checkedAt == b.checkedAt && a.created < b.created)))
  }

  function InsertOrdered(rows: seq<Row>, row: Row): seq<Row> {
    if rows == [] || !Precedes(row, rows[|rows| - 1]) then rows + [row]
    else InsertOrdered(rows[..|rows| - 1], row) + [rows[|rows| - 1]]
  }

  function Ordered(rows: seq<Row>): seq<Row> {
    if rows == [] then [] else InsertOrdered(Ordered(rows[..|rows| - 1]), rows[|rows| - 1])
  }

  function Pending(l: Ledger): seq<Row> {
    var found := Ordered(UnresolvedRows(l.rows, l.resolutions));
    if |found| <= PENDING_LIMIT then found else found[..PENDING_LIMIT]
  }

  // ---------------------------------------------------------------- commits

  function NewRow(e: Entry, now: int): Row {
    Row(e.key, e.envelope, Some(e.raw), Some(e.hash), None, false, false, now, e.cost, None, now, None,
        e.payment, None, e.nonce, None, None, 0, e.expiration)
  }

  /** `checkedAt` and `now` are the two clock readings that bracket the transaction. */
  function Sign(l: Ledger, e: Entry, budget: int, checkedAt: int, now: int): Result<Ledger, StoreError> {
    if !(0 <= e.nonce <= MAX_SAFE_INTEGER) then Err(InvalidNonce)
    else if Get(l, e.key).Some? then Err(AlreadyJournaled)
    else if e.withdrawalPilot && l.pilot.Some? then Err(PilotUsed)
    else if e.cost <= 0 || Exposure(l, checkedAt) + e.cost > budget then Err(BudgetExhausted)
    else if HasPending(l) then Err(Unreconciled)
    else Ok(Ledger(l.rows + [NewRow(e, now)], l.resolutions, if e.withdrawalPilot then Some(e.hash) else l.pilot))
  }

  /** UPDATE … WHERE key: no row, no change. */
  function Update(l: Ledger, key: Key, change: Row -> Row): Ledger {
    var i := IndexOf(l.rows, key);
    if i.None? then l else l.(rows := l.rows[i.value := change(l.rows[i.value])])
  }

  function Respond(l: Ledger, key: Key, response: Cipher): Ledger {
    Update(l, key, (r: Row) => r.(response := Some(response)))
  }

  function Checked(l: Ledger, key: Key, now: int): Ledger {
    Update(l, key, (r: Row) => r.(checkedAt := now))
  }

  function Confirm(l: Ledger, key: Key, cost: int, minedAt: int): Ledger {
    Update(l, key, (r: Row) => r.(confirmed := true, actualCost := Some(cost), minedAt := Some(minedAt)))
  }

  function Assure(l: Ledger, key: Key, received: bool): Result<Ledger, StoreError> {
    if Get(l, key).None? then Err(MissingRecord)
    else Ok(Update(l, key, (r: Row) =>
      r.(assured := true, settlement := Some(if received then FeeReceived else Cancelled))))
  }

  function Cancel(l: Ledger, key: Key, raw: Tx, hash: Hash, cost: int, budget: int, now: int)
    : Result<Ledger, StoreError>
  {
    var request := Get(l, key);
    if request.None? || request.value.confirmed then Err(NothingToCancel)
    else
      var oldCost := request.value.maxCost;
      var maxCost := Max(oldCost, cost);
      if Exposure(l, now) + maxCost - oldCost > budget then Err(CancellationOverBudget)
      else Ok(Update(l, key, (r: Row) =>
        r.(cancelRaw := Some(raw), cancelHash := Some(hash), maxCost := maxCost)))
  }

  predicate AuditReason(reason: string) {
    10 <= |reason| <= 200 && forall i :: 0 <= i < |reason| ==> ' ' <= reason[i] <= '~'
  }

  function Acknowledge(l: Ledger, key: Key, hash: Hash, cost: int, block: int, reason: string)
    : Result<Ledger, StoreError>
  {
    if !AuditReason(reason) then Err(BadReason)
    else
      var request := Get(l, key);
      if request.None? || !request.value.confirmed || request.value.assured
        || request.value.hash != Some(hash) || request.value.actualCost != Some(cost) || cost <= 0
      then Err(RecordChanged)
      else if key in l.resolutions then Err(AlreadyResolved)
      else Ok(l.(resolutions := l.resolutions[key := Resolution(hash, cost, block, reason)]))
  }
}

/** The operator's request store: an object whose tables the methods update, each method one committed
    transaction that is proved equal to its step on the ledger value. */
module RequestStore {
  import opened Basics
  import opened Transactions
  import opened RequestLedger
  import RequestCommits

  class Store {
    var requests: seq<Row>
    var settlementResolutions: map<Key, Resolution>
    var withdrawalPilot: Option<Hash>

    function Value(): Ledger
      reads this
    {
      Ledger(requests, settlementResolutions, withdrawalPilot)
    }

    constructor ()
      ensures Value() == EMPTY
    {
      requests, settlementResolutions, withdrawalPilot := [], map[], None;
    }

    method ExposureNow(now: int) returns (sum: int)
      ensures sum == Exposure(Value(), now)
    {
      sum := 0;
      for i := 0 to |requests|
        invariant sum == ExposureOf(requests[..i], now)
      {
        var row := requests[i];
        assert requests[..i + 1][..i] == requests[..i];
        if row.minedAt.GetOr(row.signedAt) >= now - DAY_MS || !row.confirmed {
          sum := sum + row.actualCost.GetOr(row.maxCost);
        }
      }
      assert requests[..|requests|] == requests;
    }

    method HasPendingNow() returns (found: bool)
      ensures found == HasPending(Value())
    {
      found := exists i :: 0 <= i < |requests| && Unresolved(requests[i], settlementResolutions);
    }

    /** A refused reservation rolls back to the old value; a granted one appends exactly one row. */
    method Signed(e: Entry, budget: int, checkedAt: int, now: int) returns (r: Result<(), StoreError>)
      modifies this
      ensures match Sign(old(Value()), e, budget, checkedAt, now)
              case Ok(l) => r == Ok(()) && Value() == l
              case Err(error) => r == Err(error) && Value() == old(Value())
      ensures r.Ok? ==>
        && |requests| == |old(requests)| + 1 && requests[..|old(requests)|] == old(requests)
        && Get(Value(), e.key) == Some(requests[|old(requests)|])
        && var row := requests[|old(requests)|];
        && row.key == e.key && row.envelope == e.envelope && row.raw == Some(e.raw) && row.hash == Some(e.hash)
        && row.nonce == e.nonce && row.maxCost == e.cost && row.payment == e.payment
        && row.feeExpiration == e.expiration && row.created == now && row.signedAt == now
        && !row.confirmed && !row.assured && row.actualCost.None? && row.minedAt.None? && row.cancelRaw.None?
    {
      hide Unresolved, IndexOf;
      if Sign(Value(), e, budget, checkedAt, now).Ok? {
        RequestCommits.SignStores(Value(), e, budget, checkedAt, now);
      }
      if !(0 <= e.nonce <= MAX_SAFE_INTEGER) { return Err(InvalidNonce); }
      if Get(Value(), e.key).Some? { return Err(AlreadyJournaled); }
      if e.withdrawalPilot && withdrawalPilot.Some? { return Err(PilotUsed); }
      var exposure := ExposureNow(checkedAt);
      if e.cost <= 0 || exposure + e.cost > budget { return Err(BudgetExhausted); }
      var pending := HasPendingNow();
      if pending { return Err(Unreconciled); }
      requests := requests + [NewRow(e, now)];
      if e.withdrawalPilot { withdrawalPilot := Some(e.hash); }
      return Ok(());
    }

    method Respond(key: Key, response: Cipher)
      modifies this
      ensures Value() == RequestLedger.Respond(old(Value()), key, response)
    {
      var i := IndexOf(requests, key);
      if i.Some? {
        requests := requests[i.value := requests[i.value].(response := Some(response))];
      }
    }

    method Cancel(key: Key, raw: Tx, hash: Hash, cost: int, budget: int, now: int) returns (r: Result<(), StoreError>)
      modifies this
      ensures match RequestLedger.Cancel(old(Value()), key, raw, hash, cost, budget, now)
              case Ok(l) => r == Ok(()) && Value() == l
              case Err(error) => r == Err(error) && Value() == old(Value())
    {
      var i := IndexOf(requests, key);
      if i.None? || requests[i.value].confirmed { return Err(NothingToCancel); }
      var oldCost := requests[i.value].maxCost;
      var maxCost := if oldCost > cost then oldCost else cost;
      var exposure := ExposureNow(now);
      if exposure + maxCost - oldCost > budget { return Err(CancellationOverBudget); }
      requests := requests[i.value := requests[i.value].(cancelRaw := Some(raw), cancelHash := Some(hash),
                                                         maxCost := maxCost)];
      return Ok(());
    }

    method Confirmed(key: Key, cost: int, minedAt: int)
      modifies this
      ensures Value() == Confirm(old(Value()), key, cost, minedAt)
    {
      var i := IndexOf(requests, key);
      if i.Some? {
        requests := requests[i.value := requests[i.value].(confirmed := true, actualCost := Some(cost),
                                                           minedAt := Some(minedAt))];
      }
    }

    method Assured(key: Key, received: bool) returns (r: Result<(), StoreError>)
      modifies this
      ensures match Assure(old(Value()), key, received)
              case Ok(l) => r == Ok(()) && Value() == l
              case Err(error) => r == Err(error) && Value() == old(Value())
      ensures r.Ok? <==> Get(old(Value()), key).Some?
      ensures r.Ok? && received ==> Get(Value(), key).Some? && Get(Value(), key).value.settlement == Some(FeeReceived)
      ensures r.Ok? && !received ==> Get(Value(), key).Some? && Get(Value(), key).value.settlement == Some(Cancelled)
    {
      RequestCommits.AssureStores(Value(), key, received);
      var i := IndexOf(requests, key);
      if i.None? { return Err(MissingRecord); }
      var settlement := if received then FeeReceived else Cancelled;
      requests := requests[i.value := requests[i.value].(assured := true, settlement := Some(settlement))];
      return Ok(());
    }

    method AcknowledgeLoss(key: Key, hash: Hash, cost: int, block: int,
                           reason: string) returns (r: Result<(), StoreError>)
      modifies this
      ensures match Acknowledge(old(Value()), key, hash, cost, block, reason)
              case Ok(l) => r == Ok(()) && Value() == l
              case Err(error) => r == Err(error) && Value() == old(Value())
    {
      if !AuditReason(reason) { return Err(BadReason); }
      var request := Get(Value(), key);
      if request.None? || !request.value.confirmed || request.value.assured || request.value.hash != Some(hash)
        || request.value.actualCost != Some(cost) || cost <= 0 {
        return Err(RecordChanged);
      }
      if key in settlementResolutions { return Err(AlreadyResolved); }
      settlementResolutions := settlementResolutions[key := Resolution(hash, cost, block, reason)];
      return Ok(());
    }

    method CheckedAt(key: Key, now: int)
      modifies this
      ensures Value() == Checked(old(Value()), key, now)
    {
      var i := IndexOf(requests, key);
      if i.Some? {
        requests := requests[i.value := requests[i.value].(checkedAt := now)];
      }
    }
  }
}

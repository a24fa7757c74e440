/** What each commit of the request journal does to its rows, field by field, and exactly when it is granted. */
module RequestCommits {
  import opened Basics
  import opened Transactions
  import opened RequestLedger

  /** Only the row of `key` may differ, and it is `row` afterwards. */
  ghost predicate OnlyRow(l: Ledger, l': Ledger, key: Key, row: Row) {
    && Get(l', key) == Some(row) && (forall k :: k != key ==> Get(l', k) == Get(l, k))
    && |l'.rows| == |l.rows| && l'.resolutions == l.resolutions && l'.pilot == l.pilot
  }

  lemma {:induction false} SameIndex(a: seq<Row>, b: seq<Row>, key: Key)
    requires |a| == |b| && forall i :: 0 <= i < |a| ==> a[i].key == b[i].key
    ensures IndexOf(a, key) == IndexOf(b, key)
  {
    if a != [] { SameIndex(a[..|a| - 1], b[..|b| - 1], key); }
  }

  lemma UpdateOnly(l: Ledger, key: Key, change: Row -> Row)
    requires Get(l, key).Some? && change(Get(l, key).value).key == key
    ensures OnlyRow(l, Update(l, key, change), key, change(Get(l, key).value))
  {
    var i := IndexOf(l.rows, key).value;
    var l' := Update(l, key, change);
    forall k
      ensures IndexOf(l'.rows, k) == IndexOf(l.rows, k)
    {
      SameIndex(l.rows, l'.rows, k);
    }
    forall k | k != key
      ensures Get(l', k) == Get(l, k)
    {
      assert IndexOf(l'.rows, k) == IndexOf(l.rows, k);
    }
  }

  lemma {:induction false} KnownKey(rows: seq<Row>, key: Key)
    ensures IndexOf(rows, key).Some? <==> exists i :: 0 <= i < |rows| && rows[i].key == key
  {
    if rows != [] {
      KnownKey(rows[..|rows| - 1], key);
      if i :| 0 <= i < |rows| && rows[i].key == key {
        assert i < |rows| - 1 ==> rows[..|rows| - 1][i].key == key;
      }
    }
  }

  /** Updating the newest row by its key. */
  lemma LastRow(l: Ledger, row: Row, change: Row -> Row)
    ensures forall pilot :: Update(Ledger(l.rows + [row], l.resolutions, pilot), row.key, change)
                         == Ledger(l.rows + [change(row)], l.resolutions, pilot)
  {
    var rows := l.rows + [row];
    assert rows[|rows| - 1] == row && IndexOf(rows, row.key) == Some(|l.rows|);
    assert rows[|l.rows| := change(row)] == l.rows + [change(row)];
  }

  lemma LastKnown(l: Ledger, row: Row)
    ensures Get(l.(rows := l.rows + [row]), row.key) == Some(row)
  {}

  // ---------------------------------------------------------------- reservations

  /** A reservation is granted exactly for a new key, a valid nonce, an unused pilot and a positive cost within the
      budget, while nothing is unresolved. */
  lemma SignIsGranted(l: Ledger, e: Entry, budget: int, checkedAt: int, now: int)
    ensures Sign(l, e, budget, checkedAt, now).Ok? <==>
              && 0 <= e.nonce <= 9_007_199_254_740_991
              && (forall i :: 0 <= i < |l.rows| ==> l.rows[i].key != e.key)
              && (e.withdrawalPilot ==> l.pilot.None?)
              && 0 < e.cost && Exposure(l, checkedAt) + e.cost <= budget
              && (forall i :: 0 <= i < |l.rows| ==> !Unresolved(l.rows[i], l.resolutions))
  {
    hide Unresolved, ExposureOf;
    KnownKey(l.rows, e.key);
  }

  /** What a reservation appends. */
  lemma SignStores(l: Ledger, e: Entry, budget: int, checkedAt: int, now: int)
    requires Sign(l, e, budget, checkedAt, now).Ok?
    ensures var l' := Sign(l, e, budget, checkedAt, now).value;
            && |l'.rows| == |l.rows| + 1 && l'.rows[..|l.rows|] == l.rows && l'.resolutions == l.resolutions
            && l'.pilot == (if e.withdrawalPilot then Some(e.hash) else l.pilot)
            && Get(l', e.key) == Some(l'.rows[|l.rows|])
            && var row := l'.rows[|l.rows|];
            && row.key == e.key && row.envelope == e.envelope && row.raw == Some(e.raw) && row.hash == Some(e.hash)
            && row.nonce == e.nonce && row.maxCost == e.cost && row.payment == e.payment
            && row.feeExpiration == e.expiration && row.created == now && row.signedAt == now
            && row.response.None? && !row.confirmed && !row.assured && row.actualCost.None? && row.minedAt.None?
            && row.settlement.None? && row.cancelRaw.None? && row.cancelHash.None? && row.checkedAt == 0
  {
    hide Unresolved, ExposureOf;
    var l' := Sign(l, e, budget, checkedAt, now).value;
    assert l'.rows == l.rows + [l'.rows[|l.rows|]];
  }

  // ---------------------------------------------------------------- cancellations

  lemma CancelIsGranted(l: Ledger, key: Key, raw: Tx, hash: Hash, cost: int, budget: int, now: int)
    ensures Cancel(l, key, raw, hash, cost, budget, now).Ok? <==>
              && Get(l, key).Some? && !Get(l, key).value.confirmed
              && var reserved := Get(l, key).value.maxCost;
              Exposure(l, now) + (if cost > reserved then cost - reserved else 0) <= budget
  {
    hide IndexOf, ExposureOf;
  }

  lemma CancelStores(l: Ledger, key: Key, raw: Tx, hash: Hash, cost: int, budget: int, now: int)
    requires Cancel(l, key, raw, hash, cost, budget, now).Ok?
    ensures var l' := Cancel(l, key, raw, hash, cost, budget, now).value;
            var before := Get(l, key).value;
            OnlyRow(l, l', key, before.(cancelRaw := Some(raw), cancelHash := Some(hash),
                                        maxCost := if cost > before.maxCost then cost else before.maxCost))
  {
    hide IndexOf, ExposureOf;
    var maxCost := Max(Get(l, key).value.maxCost, cost);
    UpdateOnly(l, key, (r: Row) => r.(cancelRaw := Some(raw), cancelHash := Some(hash), maxCost := maxCost));
  }

  // ---------------------------------------------------------------- settlement

  /** Answer, check stamp and confirmation each write their own columns of the row of that key. */
  lemma WritesStore(l: Ledger, key: Key, answer: Cipher, now: int, cost: int, minedAt: int)
    ensures Get(l, key).None? ==>
              Respond(l, key, answer) == Checked(l, key, now) == Confirm(l, key, cost, minedAt) == l
    ensures Get(l, key).Some? ==>
              && OnlyRow(l, Respond(l, key, answer), key, Get(l, key).value.(response := Some(answer)))
              && OnlyRow(l, Checked(l, key, now), key, Get(l, key).value.(checkedAt := now))
              && OnlyRow(l, Confirm(l, key, cost, minedAt), key,
                         Get(l, key).value.(confirmed := true, actualCost := Some(cost), minedAt := Some(minedAt)))
  {
    hide IndexOf, OnlyRow;
    if Get(l, key).Some? {
      assert Get(l, key).value.key == key by { KeyOfGet(l, key); }
      UpdateOnly(l, key, (r: Row) => r.(response := Some(answer)));
      UpdateOnly(l, key, (r: Row) => r.(checkedAt := now));
      UpdateOnly(l, key, (r: Row) => r.(confirmed := true, actualCost := Some(cost), minedAt := Some(minedAt)));
    }
  }

  lemma KeyOfGet(l: Ledger, key: Key)
    requires Get(l, key).Some?
    ensures Get(l, key).value.key == key
  {}

  /** A settlement records which kind it was: a received fee, or a cancellation. */
  lemma AssureStores(l: Ledger, key: Key, received: bool)
    ensures Assure(l, key, received).Ok? <==> Get(l, key).Some?
    ensures Get(l, key).Some? && received ==>
              OnlyRow(l, Assure(l, key, received).value, key,
                      Get(l, key).value.(assured := true, settlement := Some(FeeReceived)))
    ensures Get(l, key).Some? && !received ==>
              OnlyRow(l, Assure(l, key, received).value, key,
                      Get(l, key).value.(assured := true, settlement := Some(Cancelled)))
  {
    hide IndexOf, OnlyRow;
    if Get(l, key).Some? {
      KeyOfGet(l, key);
      UpdateOnly(l, key, (r: Row) =>
        r.(assured := true, settlement := Some(if received then FeeReceived else Cancelled)));
    }
  }

  /** A loss is acknowledged exactly for a mined, unpaid row that still has this hash and cost, once, with a printable
      reason of 10 to 200 characters; the resolution keeps all of it. */
  lemma AcknowledgeStores(l: Ledger, key: Key, hash: Hash, cost: int, block: int, reason: string)
    ensures Acknowledge(l, key, hash, cost, block, reason).Ok? <==>
              && 10 <= |reason| <= 200 && (forall i :: 0 <= i < |reason| ==> 32 <= reason[i] as int <= 126)
              && Get(l, key).Some? && Get(l, key).value.confirmed && !Get(l, key).value.assured
              && Get(l, key).value.hash == Some(hash) && Get(l, key).value.actualCost == Some(cost) && 0 < cost
              && key !in l.resolutions
    ensures Acknowledge(l, key, hash, cost, block, reason).Ok? ==>
              var l' := Acknowledge(l, key, hash, cost, block, reason).value;
              && l'.rows == l.rows && l'.pilot == l.pilot && l'.resolutions.Keys == l.resolutions.Keys + {key}
              && l'.resolutions[key] == Resolution(hash, cost, block, reason)
              && (forall k :: k in l.resolutions ==> l'.resolutions[k] == l.resolutions[k])
  {
    hide IndexOf;
  }
}

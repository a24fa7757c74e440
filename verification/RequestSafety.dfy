/** What every commit to the request journal keeps: at most one unresolved row, the rolling budget at
    every later instant, the budget over every past window, and the permanence of settled rows. */
module RequestSafety {
  import opened Basics
  import opened Transactions
  import opened RequestLedger

  // ---------------------------------------------------------------- the journal invariant

  predicate RowOk(r: Row) {
    && r.raw.Some? && r.hash == Some(Digest(r.raw.value)) && r.nonce == r.raw.value.nonce
    && 0 < r.maxCost && CapCost(r.raw.value) <= r.maxCost
    && (r.cancelRaw.Some? ==>
          r.cancelHash == Some(Digest(r.cancelRaw.value)) && CapCost(r.cancelRaw.value) <= r.maxCost)
    && (r.cancelRaw.None? ==> r.cancelHash.None?)
    && r.confirmed == r.actualCost.Some? && r.confirmed == r.minedAt.Some?
    && (r.confirmed ==> 0 <= r.actualCost.value <= r.maxCost)
    && (r.assured ==> r.confirmed)
  }

  ghost predicate UniqueKeys(rows: seq<Row>) {
    forall i, j :: 0 <= i < j < |rows| ==> rows[i].key != rows[j].key
  }

  /** Only the newest row may be unresolved, and a resolution always belongs to a settled row. */
  ghost predicate WellFormed(l: Ledger) {
    && UniqueKeys(l.rows)
    && (forall i :: 0 <= i < |l.rows| ==> RowOk(l.rows[i]))
    && (forall i :: 0 <= i < |l.rows| - 1 ==> !Unresolved(l.rows[i], l.resolutions))
    && (forall k :: k in l.resolutions ==> IndexOf(l.rows, k).Some?)
    && (forall i :: 0 <= i < |l.rows| && Unresolved(l.rows[i], l.resolutions) ==> l.rows[i].key !in l.resolutions)
  }

  predicate Open(l: Ledger) {
    l.rows != [] && Unresolved(l.rows[|l.rows| - 1], l.resolutions)
  }

  function Last(l: Ledger): Row
    requires l.rows != []
  {
    l.rows[|l.rows| - 1]
  }

  // ---------------------------------------------------------------- the rolling budget

  /** Exposure that counts the unresolved row at its maximum, since `confirmed` may be repeated for it
      with another cost and time. */
  function Committed(l: Ledger, now: int): int {
    if l.rows == [] then 0
    else ExposureOf(l.rows[..|l.rows| - 1], now) + (if Open(l) then Last(l).maxCost else Charge(Last(l), now))
  }

  ghost predicate Within(l: Ledger, since: int, budget: int) {
    forall t :: since <= t ==> Committed(l, t) <= budget
  }

  /** `admitted[i]` is the clock reading of the last budget check that row i passed. */
  ghost predicate Admitted(l: Ledger, admitted: seq<int>, budget: int) {
    && |admitted| == |l.rows|
    && forall i :: 0 <= i < |l.rows| ==> ExposureOf(l.rows[..i], admitted[i]) + l.rows[i].maxCost <= budget
  }

  ghost predicate Safe(l: Ledger, admitted: seq<int>, clock: int, budget: int) {
    WellFormed(l) && Within(l, clock, budget) && Admitted(l, admitted, budget)
  }

  // ---------------------------------------------------------------- growth

  predicate SameSettlement(a: Row, b: Row) {
    b == a.(response := b.response, checkedAt := b.checkedAt)
  }

  predicate Grows(a: Row, b: Row) {
    && b.key == a.key && b.envelope == a.envelope && b.raw == a.raw && b.hash == a.hash && b.nonce == a.nonce
    && b.signedAt == a.signedAt && a.maxCost <= b.maxCost
    && (a.cancelRaw.Some? ==> b.cancelRaw.Some?) && (a.confirmed ==> b.confirmed)
       && (a.response.Some? ==> b.response.Some?)
  }

  /** Rows are never removed or rebound, and a settled row stays settled with every figure unchanged. */
  ghost predicate Extends(a: Ledger, b: Ledger) {
    && |a.rows| <= |b.rows|
    && (forall i :: 0 <= i < |a.rows| ==> Grows(a.rows[i], b.rows[i]))
    && (forall i :: 0 <= i < |a.rows| && !Unresolved(a.rows[i], a.resolutions) ==>
          !Unresolved(b.rows[i], b.resolutions) && SameSettlement(a.rows[i], b.rows[i]))
    && (forall k :: k in a.resolutions ==> k in b.resolutions && b.resolutions[k] == a.resolutions[k])
  }

  lemma ExtendsTransitive(a: Ledger, b: Ledger, c: Ledger)
    requires Extends(a, b) && Extends(b, c)
    ensures Extends(a, c)
  {
    forall i | 0 <= i < |a.rows|
      ensures Grows(a.rows[i], c.rows[i])
      ensures !Unresolved(a.rows[i], a.resolutions) ==>
                !Unresolved(c.rows[i], c.resolutions) && SameSettlement(a.rows[i], c.rows[i])
    {
      assert Grows(a.rows[i], b.rows[i]) && Grows(b.rows[i], c.rows[i]);
    }
  }

  // ---------------------------------------------------------------- what counts, and for how long

  /** An unconfirmed row counts at its maximum for as long as it is open; a mined one counts at its cost for exactly
      a day. */
  lemma RowCharge(row: Row, now: int)
    requires RowOk(row)
    ensures !row.confirmed ==> Charge(row, now) == row.maxCost
    ensures row.confirmed ==>
      Charge(row, now) == if now <= row.minedAt.value + 86_400_000 then row.actualCost.value else 0
  {}

  /** A request is open until it is paid for, cancelled, or written off at exactly the hash and cost it was mined
      with. */
  lemma OpenUntilSettled(row: Row, resolutions: map<Key, Resolution>)
    requires RowOk(row)
    ensures Unresolved(row, resolutions) <==>
              && !row.assured
              && (row.confirmed && row.key in resolutions ==>
                    resolutions[row.key].hash != row.hash.value
                        || resolutions[row.key].actualCost != row.actualCost.value)
  {}

  // ---------------------------------------------------------------- small facts

  lemma {:induction false} IndexOfUnique(rows: seq<Row>, i: nat)
    requires UniqueKeys(rows) && i < |rows|
    ensures IndexOf(rows, rows[i].key) == Some(i)
  {
    if i < |rows| - 1 {
      var front := rows[..|rows| - 1];
      IndexOfUnique(front, i);
    }
  }

  lemma HasPendingIsOpen(l: Ledger)
    requires WellFormed(l)
    ensures HasPending(l) == Open(l)
  {
    if Open(l) {
      assert Unresolved(l.rows[|l.rows| - 1], l.resolutions);
    }
  }

  lemma {:induction false} NothingUnresolved(rows: seq<Row>, resolutions: map<Key, Resolution>)
    requires forall i :: 0 <= i < |rows| ==> !Unresolved(rows[i], resolutions)
    ensures UnresolvedRows(rows, resolutions) == []
  {
    if rows != [] {
      NothingUnresolved(rows[..|rows| - 1], resolutions);
    }
  }

  /** LIMIT 20 hides nothing: `pending` is the one unresolved row, and `hasPending` agrees with it. */
  lemma PendingIsComplete(l: Ledger)
    requires WellFormed(l)
    ensures Pending(l) == if Open(l) then [Last(l)] else []
    ensures HasPending(l) == (Pending(l) != [])
  {
    HasPendingIsOpen(l);
    if l.rows != [] {
      var front := l.rows[..|l.rows| - 1];
      NothingUnresolved(front, l.resolutions);
      assert UnresolvedRows(l.rows, l.resolutions) == if Open(l) then [] + [Last(l)] else [];
      assert Ordered([Last(l)]) == InsertOrdered(Ordered([]), Last(l)) == [Last(l)] by {
        assert [Last(l)][..0] == [];
      }
    }
  }

  /** Only the unresolved row can block a nonce, so `nonceBlocked` refuses nothing that `hasPending` lets through. */
  lemma NonceBlockedByTheOpenRow(l: Ledger, nonce: int)
    requires WellFormed(l)
    ensures NonceBlocked(l, nonce) <==> Open(l) && !Last(l).confirmed && nonce <= Last(l).nonce
    ensures !HasPending(l) ==> !NonceBlocked(l, nonce)
  {
    HasPendingIsOpen(l);
    if i :| 0 <= i < |l.rows| && !l.rows[i].confirmed && l.rows[i].nonce >= nonce {
      if i < |l.rows| - 1 || !Open(l) { SettledIsConfirmed(l, i); }
    }
  }

  lemma {:induction false} ExposureAges(rows: seq<Row>, t: int, u: int)
    requires t <= u
    requires forall i :: 0 <= i < |rows| ==> RowOk(rows[i]) && rows[i].confirmed
    ensures ExposureOf(rows, u) <= ExposureOf(rows, t)
  {
    if rows != [] {
      ExposureAges(rows[..|rows| - 1], t, u);
    }
  }

  lemma SettledIsConfirmed(l: Ledger, i: nat)
    requires WellFormed(l) && i < |l.rows|
    requires i < |l.rows| - 1 || !Open(l)
    ensures l.rows[i].confirmed
  {
    assert RowOk(l.rows[i]);
    assert !Unresolved(l.rows[i], l.resolutions);
  }

  /** Recorded exposure never exceeds what is committed. */
  lemma ExposureWithinCommitted(l: Ledger, now: int)
    requires WellFormed(l)
    ensures Exposure(l, now) <= Committed(l, now)
  {
    if l.rows != [] {
      assert RowOk(Last(l));
    }
  }

  // ---------------------------------------------------------------- commits keep the invariant

  lemma EmptySafe(clock: int, budget: int)
    requires 0 <= budget
    ensures Safe(EMPTY, [], clock, budget)
  {}

  lemma TimePasses(l: Ledger, admitted: seq<int>, clock: int, later: int, budget: int)
    requires Safe(l, admitted, clock, budget) && clock <= later
    ensures Safe(l, admitted, later, budget)
  {}

  lemma AppendWellFormed(l: Ledger, row: Row)
    requires WellFormed(l) && !Open(l) && RowOk(row) && IndexOf(l.rows, row.key).None?
    ensures var l' := l.(rows := l.rows + [row]); WellFormed(l') && Extends(l, l')
  {
    hide RowOk, Unresolved;
    forall i | 0 <= i < |l.rows|
      ensures !Unresolved(l.rows[i], l.resolutions)
    {
      assert i < |l.rows| - 1 || !Open(l);
    }
    AppendKeys(l, row);
    AppendExtends(l, row);
  }

  lemma AppendKeys(l: Ledger, row: Row)
    requires UniqueKeys(l.rows) && IndexOf(l.rows, row.key).None?
    requires forall k :: k in l.resolutions ==> IndexOf(l.rows, k).Some?
    ensures UniqueKeys(l.rows + [row]) && row.key !in l.resolutions
    ensures forall k :: k in l.resolutions ==> IndexOf(l.rows + [row], k).Some?
  {
    assert (l.rows + [row])[..|l.rows|] == l.rows;
  }

  lemma AppendExtends(l: Ledger, row: Row)
    ensures Extends(l, l.(rows := l.rows + [row]))
  {
    hide Unresolved;
  }

  lemma AppendAdmitted(l: Ledger, admitted: seq<int>, row: Row, at: int, budget: int)
    requires Admitted(l, admitted, budget) && ExposureOf(l.rows, at) + row.maxCost <= budget
    ensures Admitted(l.(rows := l.rows + [row]), admitted + [at], budget)
  {
    var rows' := l.rows + [row];
    forall i | 0 <= i < |rows'|
      ensures ExposureOf(rows'[..i], (admitted + [at])[i]) + rows'[i].maxCost <= budget
    {
      assert rows'[..i] == l.rows[..i];
      assert l.rows[..|l.rows|] == l.rows;
    }
  }

  lemma AppendWithin(l: Ledger, row: Row, checkedAt: int, since: int, budget: int)
    requires WellFormed(l) && !Open(l) && checkedAt <= since
    requires !row.confirmed && row.hash.Some? && row.actualCost.None?
    requires Exposure(l, checkedAt) + row.maxCost <= budget
    ensures Within(l.(rows := l.rows + [row]), since, budget)
  {
    var l' := l.(rows := l.rows + [row]);
    assert l'.rows[..|l.rows|] == l.rows;
    forall i | 0 <= i < |l.rows|
      ensures RowOk(l.rows[i]) && l.rows[i].confirmed
    {
      SettledIsConfirmed(l, i);
    }
    forall t | since <= t
      ensures Committed(l', t) <= budget
    {
      ExposureAges(l.rows, checkedAt, t);
    }
  }

  lemma SignKeeps(l: Ledger, admitted: seq<int>, clock: int, budget: int, e: Entry, checkedAt: int, now: int)
    requires Safe(l, admitted, clock, budget) && clock <= checkedAt <= now
    requires e.hash == Digest(e.raw) && e.nonce == e.raw.nonce && e.cost == CapCost(e.raw)
    requires Sign(l, e, budget, checkedAt, now).Ok?
    ensures var l' := Sign(l, e, budget, checkedAt, now).value;
            && Safe(l', admitted + [checkedAt], now, budget) && Extends(l, l') && Open(l')
            && !Open(l) && Last(l') == NewRow(e, now)
  {
    hide WellFormed, Within, Admitted, Extends, ExposureOf, HasPending, IndexOf, RowOk;
    var row := NewRow(e, now);
    var l' := Sign(l, e, budget, checkedAt, now).value;
    NewRowIsOk(e, now);
    HasPendingIsOpen(l);
    AppendWellFormed(l, row);
    AppendAdmitted(l, admitted, row, checkedAt, budget);
    AppendWithin(l, row, checkedAt, now, budget);
    assert l'.rows == l.rows + [row];
    WithPilot(l.(rows := l.rows + [row]), l', admitted + [checkedAt], now, budget);
    ExtendsWithPilot(l, l.(rows := l.rows + [row]), l');
  }

  lemma NewRowIsOk(e: Entry, now: int)
    requires e.hash == Digest(e.raw) && e.nonce == e.raw.nonce && e.cost == CapCost(e.raw) && 0 < e.cost
    ensures RowOk(NewRow(e, now))
  {}

  lemma ExtendsWithPilot(l: Ledger, l': Ledger, l'': Ledger)
    requires Extends(l, l') && l''.rows == l'.rows && l''.resolutions == l'.resolutions
    ensures Extends(l, l'')
  {}

  /** The pilot marker plays no part in the invariant. */
  lemma WithPilot(l: Ledger, l': Ledger, admitted: seq<int>, clock: int, budget: int)
    requires l'.rows == l.rows && l'.resolutions == l.resolutions && Safe(l, admitted, clock, budget)
    ensures Safe(l', admitted, clock, budget)
  {
    forall t | clock <= t
      ensures Committed(l', t) <= budget
    {
      assert Committed(l', t) == Committed(l, t);
    }
  }

  /** `l'` differs from `l` only in its newest row, which keeps its identity. */
  ghost predicate LastReplaced(l: Ledger, l': Ledger) {
    && l.rows != [] && |l'.rows| == |l.rows| && l'.resolutions == l.resolutions
    && l'.rows[..|l.rows| - 1] == l.rows[..|l.rows| - 1]
    && Open(l) && RowOk(Last(l')) && Grows(Last(l), Last(l'))
  }

  lemma {:induction false} SameKeysSameIndex(a: seq<Row>, b: seq<Row>, key: Key)
    requires |a| == |b| && forall i :: 0 <= i < |a| ==> a[i].key == b[i].key
    ensures IndexOf(a, key) == IndexOf(b, key)
  {
    if a != [] {
      SameKeysSameIndex(a[..|a| - 1], b[..|b| - 1], key);
    }
  }

  lemma ReplacedRows(l: Ledger, l': Ledger)
    requires LastReplaced(l, l')
    ensures forall i :: 0 <= i < |l.rows| - 1 ==> l'.rows[i] == l.rows[i]
    ensures forall i :: 0 <= i < |l.rows| ==> l'.rows[i].key == l.rows[i].key
    ensures forall i :: 0 <= i < |l.rows| ==> l'.rows[..i] == l.rows[..i]
  {
    forall i | 0 <= i < |l.rows| - 1
      ensures l'.rows[i] == l.rows[i]
    {
      assert l'.rows[i] == l'.rows[..|l.rows| - 1][i] == l.rows[..|l.rows| - 1][i];
    }
  }

  lemma ReplacedWellFormed(l: Ledger, l': Ledger)
    requires WellFormed(l) && LastReplaced(l, l')
    ensures WellFormed(l') && Extends(l, l')
  {
    ReplacedRows(l, l');
    forall k | k in l'.resolutions
      ensures IndexOf(l'.rows, k).Some?
    {
      SameKeysSameIndex(l.rows, l'.rows, k);
    }
  }

  lemma ReplacedAdmitted(l: Ledger, l': Ledger, admitted: seq<int>, admitted': seq<int>, budget: int)
    requires Admitted(l, admitted, budget) && LastReplaced(l, l') && |admitted'| == |admitted|
    requires forall i :: 0 <= i < |l.rows| - 1 ==> admitted'[i] == admitted[i]
    requires ExposureOf(l.rows[..|l.rows| - 1], admitted'[|l.rows| - 1]) + Last(l').maxCost <= budget
    ensures Admitted(l', admitted', budget)
  {
    hide RowOk, Open, Grows;
    ReplacedRows(l, l');
    forall i | 0 <= i < |l'.rows|
      ensures ExposureOf(l'.rows[..i], admitted'[i]) + l'.rows[i].maxCost <= budget
    {
      if i < |l.rows| - 1 {
        assert ExposureOf(l.rows[..i], admitted[i]) + l.rows[i].maxCost <= budget;
      }
    }
  }

  /** The newest row, while unresolved, may be replaced by a grown row that reserves no more. */
  lemma ReplaceKeeps(l: Ledger, l': Ledger, admitted: seq<int>, clock: int, budget: int)
    requires Safe(l, admitted, clock, budget) && LastReplaced(l, l') && Last(l').maxCost == Last(l).maxCost
    ensures Safe(l', admitted, clock, budget) && Extends(l, l')
  {
    ReplacedWellFormed(l, l');
    ReplacedAdmitted(l, l', admitted, admitted, budget);
    forall t | clock <= t
      ensures Committed(l', t) <= budget
    {
      assert Committed(l, t) <= budget;
      assert Charge(Last(l'), t) <= Last(l').maxCost;
    }
  }

  lemma UpdateLast(l: Ledger, change: Row -> Row)
    requires WellFormed(l) && l.rows != []
    ensures Update(l, Last(l).key, change) == l.(rows := l.rows[|l.rows| - 1 := change(Last(l))])
  {
    IndexOfUnique(l.rows, |l.rows| - 1);
  }

  lemma ConfirmKeeps(l: Ledger, admitted: seq<int>, clock: int, budget: int, cost: int, minedAt: int)
    requires Safe(l, admitted, clock, budget) && Open(l) && 0 <= cost <= Last(l).maxCost
    ensures var l' := Confirm(l, Last(l).key, cost, minedAt);
            && Safe(l', admitted, clock, budget) && Extends(l, l') && Open(l')
            && Last(l') == Last(l).(confirmed := true, actualCost := Some(cost), minedAt := Some(minedAt))
  {
    assert RowOk(Last(l));
    UpdateLast(l, (r: Row) => r.(confirmed := true, actualCost := Some(cost), minedAt := Some(minedAt)));
    ReplaceKeeps(l, Confirm(l, Last(l).key, cost, minedAt), admitted, clock, budget);
  }

  lemma AssureKeeps(l: Ledger, admitted: seq<int>, clock: int, budget: int, received: bool)
    requires Safe(l, admitted, clock, budget) && Open(l) && Last(l).confirmed
    ensures var r := Assure(l, Last(l).key, received);
            r.Ok? && Safe(r.value, admitted, clock, budget) && Extends(l, r.value) && !Open(r.value)
  {
    assert RowOk(Last(l));
    IndexOfUnique(l.rows, |l.rows| - 1);
    ReplaceKeeps(l, Assure(l, Last(l).key, received).value, admitted, clock, budget);
  }

  lemma CancelKeeps(l: Ledger, admitted: seq<int>, clock: int, budget: int, raw: Tx, now: int)
    requires Safe(l, admitted, clock, budget) && clock <= now && Open(l) && !Last(l).confirmed
    requires Cancel(l, Last(l).key, raw, Digest(raw), CapCost(raw), budget, now).Ok?
    ensures var l' := Cancel(l, Last(l).key, raw, Digest(raw), CapCost(raw), budget, now).value;
            && Safe(l', admitted[|l.rows| - 1 := now], now, budget) && Extends(l, l') && Open(l')
            && Last(l') == Last(l).(cancelRaw := Some(raw), cancelHash := Some(Digest(raw)),
                                    maxCost := Max(Last(l).maxCost, CapCost(raw)))
  {
    var n := |l.rows| - 1;
    assert RowOk(Last(l));
    IndexOfUnique(l.rows, n);
    var l' := Cancel(l, Last(l).key, raw, Digest(raw), CapCost(raw), budget, now).value;
    assert LastReplaced(l, l');
    ReplacedWellFormed(l, l');
    ReplacedAdmitted(l, l', admitted, admitted[n := now], budget);
    forall t | now <= t
      ensures Committed(l', t) <= budget
    {
      forall i | 0 <= i < n
        ensures RowOk(l.rows[..n][i]) && l.rows[..n][i].confirmed
      {
        SettledIsConfirmed(l, i);
      }
      ExposureAges(l.rows[..n], now, t);
    }
  }

  /** The only row that can be acknowledged is the newest one, and it becomes settled. */
  lemma AcknowledgeSettles(l: Ledger, key: Key, hash: Hash, cost: int, block: int, reason: string)
    requires WellFormed(l) && Acknowledge(l, key, hash, cost, block, reason).Ok?
    ensures var l' := Acknowledge(l, key, hash, cost, block, reason).value;
            && Open(l) && Last(l).key == key && !Open(l') && l'.rows == l.rows
            && (forall i :: 0 <= i < |l.rows| ==> !Unresolved(l.rows[i], l'.resolutions))
  {
    var l' := Acknowledge(l, key, hash, cost, block, reason).value;
    var i := IndexOf(l.rows, key).value;
    assert RowOk(l.rows[i]);
    assert Unresolved(l.rows[i], l.resolutions);
    assert i == |l.rows| - 1;
    assert Acknowledged(Last(l), l'.resolutions);
    forall j | 0 <= j < |l.rows| - 1
      ensures !Unresolved(l.rows[j], l'.resolutions)
    {
      assert l.rows[j].key != key;
      assert !Unresolved(l.rows[j], l.resolutions);
    }
  }

  /** Settling the newest row in place only lowers what is committed. */
  lemma SettleInPlace(l: Ledger, l': Ledger, admitted: seq<int>, clock: int, budget: int)
    requires Safe(l, admitted, clock, budget) && Open(l) && l'.rows == l.rows
    requires forall i :: 0 <= i < |l.rows| ==> !Unresolved(l.rows[i], l'.resolutions)
    requires forall k :: k in l.resolutions ==> k in l'.resolutions && l'.resolutions[k] == l.resolutions[k]
    requires forall k :: k in l'.resolutions ==> k in l.resolutions || k == Last(l).key
    ensures Safe(l', admitted, clock, budget) && Extends(l, l') && !Open(l')
  {
    SettledWellFormed(l, l');
    SettledWithin(l, l', clock, budget);
  }

  lemma SettledWellFormed(l: Ledger, l': Ledger)
    requires WellFormed(l) && Open(l) && l'.rows == l.rows
    requires forall i :: 0 <= i < |l.rows| ==> !Unresolved(l.rows[i], l'.resolutions)
    requires forall k :: k in l.resolutions ==> k in l'.resolutions && l'.resolutions[k] == l.resolutions[k]
    requires forall k :: k in l'.resolutions ==> k in l.resolutions || k == Last(l).key
    ensures WellFormed(l') && Extends(l, l') && !Open(l')
  {
    hide RowOk, Unresolved;
    IndexOfUnique(l.rows, |l.rows| - 1);
  }

  lemma SettledWithin(l: Ledger, l': Ledger, clock: int, budget: int)
    requires WellFormed(l) && Within(l, clock, budget) && Open(l) && !Open(l') && l'.rows == l.rows
    ensures Within(l', clock, budget)
  {
    hide ExposureOf;
    assert RowOk(l.rows[|l.rows| - 1]);
    forall t | clock <= t
      ensures Committed(l', t) <= budget
    {
      assert Committed(l, t) <= budget;
      assert Charge(Last(l), t) <= Last(l).maxCost;
    }
  }

  lemma AcknowledgeKeeps(l: Ledger, admitted: seq<int>, clock: int, budget: int,
                         key: Key, hash: Hash, cost: int, block: int, reason: string)
    requires Safe(l, admitted, clock, budget)
    requires Acknowledge(l, key, hash, cost, block, reason).Ok?
    ensures var l' := Acknowledge(l, key, hash, cost, block, reason).value;
            Safe(l', admitted, clock, budget) && Extends(l, l') && !Open(l') && l'.rows == l.rows
  {
    AcknowledgeSettles(l, key, hash, cost, block, reason);
    SettleInPlace(l, Acknowledge(l, key, hash, cost, block, reason).value, admitted, clock, budget);
  }

  /** `l'` differs from `l` only in answers and check stamps. */
  ghost predicate Touched(l: Ledger, l': Ledger) {
    && l'.resolutions == l.resolutions && |l'.rows| == |l.rows|
    && forall i :: 0 <= i < |l.rows| ==>
         SameSettlement(l.rows[i], l'.rows[i]) && (l.rows[i].response.Some? ==> l'.rows[i].response.Some?)
  }

  lemma RespondTouches(l: Ledger, key: Key, response: Cipher)
    ensures Touched(l, Respond(l, key, response))
  {}

  lemma CheckedTouches(l: Ledger, key: Key, now: int)
    ensures Touched(l, Checked(l, key, now))
  {}

  lemma TouchWellFormed(l: Ledger, l': Ledger)
    requires WellFormed(l) && Touched(l, l')
    ensures WellFormed(l') && Extends(l, l') && Open(l') == Open(l)
    ensures Open(l) ==> SameSettlement(Last(l), Last(l'))
  {
    forall i | 0 <= i < |l.rows|
      ensures RowOk(l'.rows[i]) && l'.rows[i].key == l.rows[i].key && Grows(l.rows[i], l'.rows[i])
      ensures Unresolved(l'.rows[i], l'.resolutions) == Unresolved(l.rows[i], l.resolutions)
    {
      assert RowOk(l.rows[i]) && SameSettlement(l.rows[i], l'.rows[i]);
    }
    forall k | k in l'.resolutions
      ensures IndexOf(l'.rows, k).Some?
    {
      SameKeysSameIndex(l.rows, l'.rows, k);
    }
  }

  lemma TouchBudget(l: Ledger, l': Ledger, admitted: seq<int>, clock: int, budget: int)
    requires Touched(l, l') && Open(l') == Open(l) && Within(l, clock, budget) && Admitted(l, admitted, budget)
    ensures Within(l', clock, budget) && Admitted(l', admitted, budget)
  {
    forall t | clock <= t
      ensures Committed(l', t) <= budget
    {
      assert Committed(l, t) <= budget;
      if l.rows != [] {
        TouchExposure(l.rows[..|l.rows| - 1], l'.rows[..|l.rows| - 1], t);
      }
    }
    forall i | 0 <= i < |l'.rows|
      ensures ExposureOf(l'.rows[..i], admitted[i]) + l'.rows[i].maxCost <= budget
    {
      TouchExposure(l.rows[..i], l'.rows[..i], admitted[i]);
      assert SameSettlement(l.rows[i], l'.rows[i]);
    }
  }

  /** Answering a request and stamping a check touch no settlement figure, whichever row they hit. */
  lemma TouchKeeps(l: Ledger, l': Ledger, admitted: seq<int>, clock: int, budget: int)
    requires Safe(l, admitted, clock, budget) && Touched(l, l')
    ensures Safe(l', admitted, clock, budget) && Extends(l, l') && Open(l') == Open(l)
    ensures Open(l) ==> SameSettlement(Last(l), Last(l'))
  {
    hide WellFormed, Extends, Within, Admitted, Touched;
    TouchWellFormed(l, l');
    TouchBudget(l, l', admitted, clock, budget);
  }

  lemma {:induction false} TouchExposure(a: seq<Row>, b: seq<Row>, t: int)
    requires |a| == |b| && forall i :: 0 <= i < |a| ==> SameSettlement(a[i], b[i])
    ensures ExposureOf(a, t) == ExposureOf(b, t)
  {
    if a != [] {
      TouchExposure(a[..|a| - 1], b[..|b| - 1], t);
      assert SameSettlement(a[|a| - 1], b[|b| - 1]);
    }
  }

  // ---------------------------------------------------------------- what the invariant buys

  /** At this instant and at every later one, recorded exposure is within the budget. */
  lemma ExposureNeverExceedsBudget(l: Ledger, admitted: seq<int>, clock: int, budget: int, now: int)
    requires Safe(l, admitted, clock, budget) && clock <= now
    ensures Exposure(l, now) <= budget
  {
    ExposureWithinCommitted(l, now);
  }

  /** Gas recorded as mined in the closed window [from, to]. */
  function GasMined(rows: seq<Row>, from: int, to: int): int {
    if rows == [] then 0
    else
      var row := rows[|rows| - 1];
      GasMined(rows[..|rows| - 1], from, to) +
      (if row.confirmed && row.minedAt.Some? && from <= row.minedAt.value <= to then row.actualCost.GetOr(0) else 0)
  }

  lemma {:induction false} WindowBelowExposure(rows: seq<Row>, from: int, to: int, now: int)
    requires forall i :: 0 <= i < |rows| ==> RowOk(rows[i])
    requires now - DAY_MS <= from
    ensures GasMined(rows, from, to) <= ExposureOf(rows, now)
  {
    if rows != [] {
      WindowBelowExposure(rows[..|rows| - 1], from, to, now);
      assert RowOk(rows[|rows| - 1]);
    }
  }

  /** Gas recorded as mined in any window of a day, less the allowed clock skew, is within the budget:
      block timestamps may precede the local admission clock by at most `skew`. */
  lemma {:induction false} AnyWindowWithinBudget(l: Ledger, admitted: seq<int>, budget: int, skew: int, from: int,
                                                 to: int, n: nat)
    requires WellFormed(l) && Admitted(l, admitted, budget) && 0 <= budget && n <= |l.rows|
    requires forall i :: 0 <= i < n && l.rows[i].confirmed ==> l.rows[i].minedAt.value >= admitted[i] - skew
    requires to - from <= DAY_MS - skew
    ensures GasMined(l.rows[..n], from, to) <= budget
  {
    hide ExposureOf, UniqueKeys;
    if n > 0 {
      var row := l.rows[n - 1];
      assert RowOk(row);
      WindowSnoc(l.rows, n, from, to);
      if row.confirmed && from <= row.minedAt.value <= to {
        assert ExposureOf(l.rows[..n - 1], admitted[n - 1]) + row.maxCost <= budget;
        WindowBelowExposure(l.rows[..n - 1], from, to, admitted[n - 1]);
      } else {
        AnyWindowWithinBudget(l, admitted, budget, skew, from, to, n - 1);
      }
    }
  }

  lemma WindowSnoc(rows: seq<Row>, n: nat, from: int, to: int)
    requires 0 < n <= |rows|
    ensures var row := rows[n - 1];
            GasMined(rows[..n], from, to)
            == GasMined(rows[..n - 1], from, to)
               + (if row.confirmed && row.minedAt.Some? && from <= row.minedAt.value <= to then row.actualCost.GetOr(0)
                  else 0)
  {
    assert rows[..n][..n - 1] == rows[..n - 1];
  }
}

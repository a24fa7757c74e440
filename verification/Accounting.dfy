/** The operator's accounting report over the request journal. */
module Accounting {
  import opened Basics
  import opened Transactions
  import opened RequestLedger
  import opened RequestSafety
  import opened RequestCommits

  /** `fees` sums received payments by token; `historical` counts settlements that recorded no payment. */
  datatype Report = Report(requests: nat, gas: int, unresolved: int, losses: int, lossCount: nat,
                           historical: nat, fees: map<Address, int>)

  function Expense(row: Row): int {
    row.actualCost.GetOr(0)
  }

  /** The rows whose cost the report calls unresolved. */
  predicate Counted(row: Row, resolutions: map<Key, Resolution>) {
    !row.confirmed || (!row.assured && !Acknowledged(row, resolutions))
  }

  predicate ValidReceipt(row: Row, tokens: set<Address>) {
    row.assured && row.settlement == Some(FeeReceived) && row.payment.Some? ==>
      row.payment.value.token in tokens && 0 < row.payment.value.amount
  }

  predicate PaidIn(row: Row, token: Address) {
    row.assured && row.settlement == Some(FeeReceived) && row.payment.Some? && row.payment.value.token == token
  }

  // ---------------------------------------------------------------- independent totals, one per row kind

  function TotalOf(rows: seq<Row>, f: Row -> int): int {
    if rows == [] then 0 else TotalOf(rows[..|rows| - 1], f) + f(rows[|rows| - 1])
  }

  function AssuredExpense(rows: seq<Row>): int {
    TotalOf(rows, (r: Row) => if r.assured then Expense(r) else 0)
  }

  function LossExpense(rows: seq<Row>, res: map<Key, Resolution>): int {
    TotalOf(rows, (r: Row) => if Acknowledged(r, res) then Expense(r) else 0)
  }

  /** What unresolved rows hold back: the maximum of an unconfirmed one, the cost of a mined one. */
  function HeldBack(rows: seq<Row>, res: map<Key, Resolution>): int {
    TotalOf(rows, (r: Row) => if !Counted(r, res) then 0 else if r.confirmed then Expense(r) else r.maxCost)
  }

  function LossCount(rows: seq<Row>, res: map<Key, Resolution>): int {
    TotalOf(rows, (r: Row) => if Acknowledged(r, res) then 1 else 0)
  }

  predicate Historical(row: Row) {
    row.assured && row.settlement != Some(Cancelled) && (row.settlement != Some(FeeReceived) || row.payment.None?)
  }

  function HistoricalCount(rows: seq<Row>): int {
    TotalOf(rows, (r: Row) => if Historical(r) then 1 else 0)
  }

  function HeldConfirmed(rows: seq<Row>, res: map<Key, Resolution>): int {
    TotalOf(rows, (r: Row) => if Counted(r, res) && r.confirmed then Expense(r) else 0)
  }

  function FeesIn(rows: seq<Row>, token: Address): int {
    TotalOf(rows, (r: Row) => if PaidIn(r, token) then r.payment.value.amount else 0)
  }

  lemma {:induction false} TotalsAdd(rows: seq<Row>, f: Row -> int, g: Row -> int, h: Row -> int)
    requires forall i :: 0 <= i < |rows| ==> h(rows[i]) == f(rows[i]) + g(rows[i])
    ensures TotalOf(rows, h) == TotalOf(rows, f) + TotalOf(rows, g)
  {
    if rows != [] {
      TotalsAdd(rows[..|rows| - 1], f, g, h);
    }
  }

  /** Every total, one row further on. */
  lemma TotalsSnoc(rows: seq<Row>, res: map<Key, Resolution>, i: nat)
    requires i < |rows|
    ensures var row, done, next := rows[i], rows[..i], rows[..i + 1];
            && TotalOf(next, Expense) == TotalOf(done, Expense) + Expense(row)
            && LossExpense(next, res) == LossExpense(done, res) + (if Acknowledged(row, res) then Expense(row) else 0)
            && LossCount(next, res) == LossCount(done, res) + (if Acknowledged(row, res) then 1 else 0)
            && HistoricalCount(next) == HistoricalCount(done) + (if Historical(row) then 1 else 0)
            && HeldBack(next, res) == HeldBack(done, res) + (if Counted(row, res) then Held(row) else 0)
  {
    hide Acknowledged, Counted, Historical;
    assert rows[..i + 1][..i] == rows[..i];
  }

  lemma NothingYet(res: map<Key, Resolution>)
    ensures TotalOf([], Expense) == 0 && LossExpense([], res) == 0 && LossCount([], res) == 0
            && HistoricalCount([]) == 0
    ensures HeldBack([], res) == 0 && FeesAre(map[], [])
  {}

  function FeeOf(fees: map<Address, int>, token: Address): int {
    if token in fees then fees[token] else 0
  }

  ghost predicate FeesAre(fees: map<Address, int>, rows: seq<Row>) {
    forall token :: FeeOf(fees, token) == FeesIn(rows, token)
  }

  /** The fees, one row further on. */
  lemma FeesSnoc(fees: map<Address, int>, rows: seq<Row>, i: nat)
    requires i < |rows| && FeesAre(fees, rows[..i])
    ensures (forall token :: !PaidIn(rows[i], token)) ==> FeesAre(fees, rows[..i + 1])
    ensures rows[i].payment.Some? && PaidIn(rows[i], rows[i].payment.value.token) ==>
      var Payment(token, amount) := rows[i].payment.value;
      FeesAre(fees[token := FeeOf(fees, token) + amount], rows[..i + 1])
  {
    hide FeesIn;
    forall token
      ensures FeesIn(rows[..i + 1], token)
              == FeeOf(fees, token) + if PaidIn(rows[i], token) then rows[i].payment.value.amount else 0
    {
      FeeSnoc(rows, i, token);
      assert FeeOf(fees, token) == FeesIn(rows[..i], token);
    }
    if rows[i].payment.Some? && PaidIn(rows[i], rows[i].payment.value.token) {
      var Payment(paid, amount) := rows[i].payment.value;
      var fees' := fees[paid := FeeOf(fees, paid) + amount];
      assert forall token :: FeeOf(fees', token) == FeeOf(fees, token) + if token == paid then amount else 0;
    }
  }

  lemma FeeSnoc(rows: seq<Row>, i: nat, token: Address)
    requires i < |rows|
    ensures FeesIn(rows[..i + 1], token)
            == FeesIn(rows[..i], token) + if PaidIn(rows[i], token) then rows[i].payment.value.amount else 0
  {
    assert rows[..i + 1][..i] == rows[..i];
  }

  function Held(row: Row): int {
    if row.confirmed then Expense(row) else row.maxCost
  }

  // ---------------------------------------------------------------- one request, end to end

  lemma TotalSnoc(rows: seq<Row>, row: Row, f: Row -> int)
    ensures TotalOf(rows + [row], f) == TotalOf(rows, f) + f(row)
  {
    assert (rows + [row])[..|rows|] == rows;
  }

  lemma SettledRows(l: Ledger, e: Entry, budget: int, checkedAt: int, now: int, cost: int, minedAt: int, received: bool)
    requires Sign(l, e, budget, checkedAt, now).Ok?
    ensures var l1 := Sign(l, e, budget, checkedAt, now).value;
            var settled := Assure(Confirm(l1, e.key, cost, minedAt), e.key, received);
            && settled.Ok? && |settled.value.rows| == |l.rows| + 1 && settled.value.rows[..|l.rows|] == l.rows
            && var row := settled.value.rows[|l.rows|];
            && row.confirmed && row.assured && row.actualCost == Some(cost) && row.minedAt == Some(minedAt)
            && row.payment == e.payment && row.key == e.key && row.hash == Some(e.hash)
            && row.settlement == if received then Some(FeeReceived) else Some(Cancelled)
  {
    hide Sign, IndexOf;
    SignStores(l, e, budget, checkedAt, now);
    var l1 := Sign(l, e, budget, checkedAt, now).value;
    var row := l1.rows[|l.rows|];
    var mined := row.(confirmed := true, actualCost := Some(cost), minedAt := Some(minedAt));
    var base := l1.(rows := l.rows);
    assert l1.rows == l.rows + [row];
    LastRow(base, row, (r: Row) => r.(confirmed := true, actualCost := Some(cost), minedAt := Some(minedAt)));
    LastRow(base, mined, (r: Row) =>
      r.(assured := true, settlement := Some(if received then FeeReceived else Cancelled)));
    assert Confirm(l1, e.key, cost, minedAt) == l1.(rows := l.rows + [mined]);
    AssureStores(l1.(rows := l.rows + [mined]), e.key, received);
    assert l.rows + [mined] == (l.rows + [mined])[..|l.rows|] + [mined];
    LastKnown(base, mined);
  }

  /** A signed, mined and paid request adds exactly its own payment to the report, in its own token, and its cost to the
      expense. A cancelled one adds no fee, and one that recorded no payment is counted as historical. */
  lemma SettledRequestIsBooked(l: Ledger, e: Entry, budget: int, checkedAt: int, now: int, cost: int, minedAt: int,
                               received: bool, token: Address)
    requires Sign(l, e, budget, checkedAt, now).Ok?
    ensures var l1 := Sign(l, e, budget, checkedAt, now).value;
            var rows := Assure(Confirm(l1, e.key, cost, minedAt), e.key, received).value.rows;
            && FeesIn(rows, token) == FeesIn(l.rows, token)
               + (if received && e.payment.Some? && e.payment.value.token == token then e.payment.value.amount else 0)
            && HistoricalCount(rows) == HistoricalCount(l.rows) + (if received && e.payment.None? then 1 else 0)
            && TotalOf(rows, Expense) == TotalOf(l.rows, Expense) + cost
            && AssuredExpense(rows) == AssuredExpense(l.rows) + cost
  {
    hide Sign, Confirm, Assure, TotalOf;
    SettledRows(l, e, budget, checkedAt, now, cost, minedAt, received);
    var rows := Assure(Confirm(Sign(l, e, budget, checkedAt, now).value, e.key, cost, minedAt), e.key,
                       received).value.rows;
    var row := rows[|l.rows|];
    assert rows == l.rows + [row];
    TotalSnoc(l.rows, row, (r: Row) => if PaidIn(r, token) then r.payment.value.amount else 0);
    TotalSnoc(l.rows, row, (r: Row) => if Historical(r) then 1 else 0);
    TotalSnoc(l.rows, row, Expense);
    TotalSnoc(l.rows, row, (r: Row) => if r.assured then Expense(r) else 0);
  }

  // ---------------------------------------------------------------- the report

  /** A received fee in an unknown token or without a positive amount stops the report. */
  method AccountingReport(l: Ledger, tokens: set<Address>) returns (report: Result<Report, ()>)
    ensures report.Ok? <==> forall i :: 0 <= i < |l.rows| ==> ValidReceipt(l.rows[i], tokens)
    ensures report.Ok? ==>
      var r := report.value;
      && r.requests == |l.rows|
      && r.gas == TotalOf(l.rows, Expense)
      && r.losses == LossExpense(l.rows, l.resolutions) && r.lossCount == LossCount(l.rows, l.resolutions)
      && r.historical == HistoricalCount(l.rows)
      && r.unresolved == HeldBack(l.rows, l.resolutions)
      && FeesAre(r.fees, l.rows)
  {
    hide TotalOf, LossExpense, LossCount, HistoricalCount, HeldBack, FeesAre;
    var rows, res := l.rows, l.resolutions;
    NothingYet(res);
    var gas, unresolved, losses := 0, 0, 0;
    var historical: nat, lossCount: nat := 0, 0;
    var fees: map<Address, int> := map[];
    for i := 0 to |rows|
      invariant forall j :: 0 <= j < i ==> ValidReceipt(rows[j], tokens)
      invariant gas == TotalOf(rows[..i], Expense)
      invariant losses == LossExpense(rows[..i], res) && lossCount == LossCount(rows[..i], res)
      invariant historical == HistoricalCount(rows[..i])
      invariant unresolved == HeldBack(rows[..i], res)
      invariant FeesAre(fees, rows[..i])
    {
      var row := rows[i];
      TotalsSnoc(rows, res, i);
      FeesSnoc(fees, rows, i);
      var expense := row.actualCost.GetOr(0);
      gas := gas + expense;
      var acknowledged := Acknowledged(row, res);
      if acknowledged {
        losses := losses + expense;
        lossCount := lossCount + 1;
      }
      if !row.confirmed {
        unresolved := unresolved + row.maxCost;
      } else if !row.assured && !acknowledged {
        unresolved := unresolved + expense;
      }
      if row.assured && row.settlement != Some(Cancelled) {
        if row.settlement != Some(FeeReceived) || row.payment.None? {
          historical := historical + 1;
        } else {
          var Payment(token, amount) := row.payment.value;
          if token !in tokens || amount <= 0 { return Err(()); }
          fees := fees[token := FeeOf(fees, token) + amount];
        }
      }
    }
    assert rows[..|rows|] == rows;
    return Ok(Report(|rows|, gas, unresolved, losses, lossCount, historical, fees));
  }

  /** Gas is conserved: what was spent is exactly what paid requests cost, plus acknowledged losses, plus
      the already mined part of what is held back. */
  lemma GasIsConserved(l: Ledger)
    requires WellFormed(l)
    ensures TotalOf(l.rows, Expense) == AssuredExpense(l.rows) + LossExpense(l.rows, l.resolutions)
            + HeldConfirmed(l.rows, l.resolutions)
  {
    var res := l.resolutions;
    var assured := (r: Row) => if r.assured then Expense(r) else 0;
    var lost := (r: Row) => if Acknowledged(r, res) then Expense(r) else 0;
    var held := (r: Row) => if Counted(r, res) && r.confirmed then Expense(r) else 0;
    var settled := (r: Row) => assured(r) + lost(r);
    forall i | 0 <= i < |l.rows|
      ensures Expense(l.rows[i]) == settled(l.rows[i]) + held(l.rows[i])
    {
      assert RowOk(l.rows[i]);
    }
    TotalsAdd(l.rows, assured, lost, settled);
    TotalsAdd(l.rows, settled, held, Expense);
  }

  /** The rows behind the unresolved figure are exactly those the pending query selects before its limit, row by row
      and in total, for every journal whose rows carry a hash. */
  lemma {:induction false} HeldBackIsPending(rows: seq<Row>, res: map<Key, Resolution>)
    requires forall i :: 0 <= i < |rows| ==> rows[i].hash.Some?
    ensures forall r :: r in rows ==> (Counted(r, res) <==> r in UnresolvedRows(rows, res))
    ensures HeldBack(rows, res) == TotalOf(UnresolvedRows(rows, res), Held)
  {
    hide Counted, Unresolved, Held;
    forall r | r in rows && r.hash.Some?
      ensures Counted(r, res) <==> Unresolved(r, res)
    {
      CountedIsUnresolved(r, res);
    }
    if rows != [] {
      var front, last := rows[..|rows| - 1], rows[|rows| - 1];
      HeldBackIsPending(front, res);
      var found := UnresolvedRows(front, res);
      assert (found + [last])[..|found|] == found;
      HeldBackSnoc(rows, res);
    }
  }

  lemma CountedIsUnresolved(row: Row, res: map<Key, Resolution>)
    requires row.hash.Some?
    ensures Counted(row, res) <==> Unresolved(row, res)
  {}

  lemma HeldBackSnoc(rows: seq<Row>, res: map<Key, Resolution>)
    requires rows != []
    ensures HeldBack(rows, res)
            == HeldBack(rows[..|rows| - 1], res)
                + (if Counted(rows[|rows| - 1], res) then Held(rows[|rows| - 1]) else 0)
  {}
}

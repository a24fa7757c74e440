/** The order and the limit of the `pending` query, on any table. */
module PendingOrder {
  import opened RequestLedger

  /** Unconfirmed before confirmed, then the longest unchecked, then the oldest. */
  predicate NotAfter(a: Row, b: Row) {
    if a.confirmed != b.confirmed then b.confirmed
    else if a.checkedAt != b.checkedAt then a.checkedAt < b.checkedAt
    else a.created <= b.created
  }

  ghost predicate Ascending(rows: seq<Row>) {
    forall i, j :: 0 <= i < j < |rows| ==> NotAfter(rows[i], rows[j])
  }

  ghost predicate AllNotAfter(rows: seq<Row>, row: Row) {
    forall i :: 0 <= i < |rows| ==> NotAfter(rows[i], row)
  }

  lemma AscendingSnoc(rows: seq<Row>, row: Row)
    ensures Ascending(rows + [row]) <==> Ascending(rows) && AllNotAfter(rows, row)
  {
    hide NotAfter;
    var all := rows + [row];
    if Ascending(all) {
      forall i, j | 0 <= i < j < |rows|
        ensures NotAfter(rows[i], rows[j])
      {
        assert NotAfter(all[i], all[j]);
      }
      forall i | 0 <= i < |rows|
        ensures NotAfter(rows[i], row)
      {
        assert NotAfter(all[i], all[|rows|]);
      }
    }
  }

  lemma AllNotAfterSnoc(rows: seq<Row>, last: Row, row: Row)
    ensures AllNotAfter(rows + [last], row) <==> AllNotAfter(rows, row) && NotAfter(last, row)
  {
    hide NotAfter;
    var all := rows + [last];
    assert all[|rows|] == last && forall i :: 0 <= i < |rows| ==> all[i] == rows[i];
  }

  lemma OneWay(a: Row, b: Row, c: Row)
    ensures NotAfter(a, b) || NotAfter(b, a)
    ensures NotAfter(a, b) && NotAfter(b, c) ==> NotAfter(a, c)
    ensures Precedes(a, b) <==> !NotAfter(b, a)
  {}

  lemma {:induction false} AllBefore(rows: seq<Row>, last: Row, row: Row)
    requires AllNotAfter(rows, last) && NotAfter(last, row)
    ensures AllNotAfter(rows, row)
  {
    hide NotAfter;
    forall i | 0 <= i < |rows|
      ensures NotAfter(rows[i], row)
    {
      OneWay(rows[i], last, row);
    }
  }

  lemma {:induction false} Inserted(rows: seq<Row>, row: Row)
    requires Ascending(rows)
    ensures Ascending(InsertOrdered(rows, row)) && multiset(InsertOrdered(rows, row)) == multiset(rows) + multiset{row}
    ensures forall above :: AllNotAfter(rows, above) && NotAfter(row, above) ==>
                              AllNotAfter(InsertOrdered(rows, row), above)
  {
    hide Ascending, AllNotAfter, NotAfter, Precedes;
    if rows == [] {
      AscendingSnoc([], row);
      assert Ascending([]) && AllNotAfter([], row) by { Trivial(row); }
      AddsLast(rows, row);
    } else {
      var front, last := rows[..|rows| - 1], rows[|rows| - 1];
      assert rows == front + [last];
      AscendingSnoc(front, last);
      OneWay(row, last, row);
      OneWay(last, row, row);
      if Precedes(row, last) {
        Inserted(front, row);
        AscendingSnoc(InsertOrdered(front, row), last);
        forall above | AllNotAfter(rows, above) && NotAfter(row, above)
          ensures AllNotAfter(InsertOrdered(front, row) + [last], above)
        {
          AllNotAfterSnoc(front, last, above);
          AllNotAfterSnoc(InsertOrdered(front, row), last, above);
        }
      } else {
        AllBefore(front, last, row);
        AllNotAfterSnoc(front, last, row);
        AscendingSnoc(rows, row);
        AddsLast(rows, row);
      }
    }
  }

  lemma AddsLast(rows: seq<Row>, row: Row)
    ensures forall above :: AllNotAfter(rows, above) && NotAfter(row, above) ==> AllNotAfter(rows + [row], above)
  {
    forall above | AllNotAfter(rows, above) && NotAfter(row, above)
      ensures AllNotAfter(rows + [row], above)
    {
      AllNotAfterSnoc(rows, row, above);
    }
  }

  lemma Trivial(row: Row)
    ensures Ascending([]) && AllNotAfter([], row)
  {}

  lemma {:induction false} Sorted(rows: seq<Row>)
    ensures Ascending(Ordered(rows)) && multiset(Ordered(rows)) == multiset(rows)
  {
    hide Ascending, InsertOrdered;
    if rows == [] {
      assert Ascending([]) by { Empty(); }
    } else {
      Sorted(rows[..|rows| - 1]);
      Inserted(Ordered(rows[..|rows| - 1]), rows[|rows| - 1]);
      assert rows == rows[..|rows| - 1] + [rows[|rows| - 1]];
    }
  }

  lemma Empty()
    ensures Ascending([])
  {}

  lemma {:induction false} Selected(rows: seq<Row>, resolutions: map<Key, Resolution>, row: Row)
    ensures multiset(UnresolvedRows(rows, resolutions))[row]
            == if Unresolved(row, resolutions) then multiset(rows)[row] else 0
  {
    hide Unresolved;
    if rows != [] {
      Selected(rows[..|rows| - 1], resolutions, row);
      assert rows == rows[..|rows| - 1] + [rows[|rows| - 1]];
    }
  }

  /** Whatever the table holds, the query returns the first twenty of all unresolved rows in that order, and loses or
      repeats none. */
  lemma PendingIsOrdered(l: Ledger) returns (rest: seq<Row>)
    ensures Ascending(Pending(l) + rest)
    ensures forall row :: multiset(Pending(l) + rest)[row]
                          == if Unresolved(row, l.resolutions) then multiset(l.rows)[row] else 0
    ensures |Pending(l)| <= 20 && (rest != [] ==> |Pending(l)| == 20)
  {
    hide Ascending, Unresolved, Ordered;
    var found := UnresolvedRows(l.rows, l.resolutions);
    Sorted(found);
    rest := Ordered(found)[|Pending(l)|..];
    assert Pending(l) + rest == Ordered(found);
    forall row
      ensures multiset(found)[row] == if Unresolved(row, l.resolutions) then multiset(l.rows)[row] else 0
    {
      Selected(l.rows, l.resolutions, row);
    }
  }
}

/** The steps of `recover` keep the invariant, from whatever a crash left behind. */
module ProtocolRecovery {
  import opened Basics
  import opened Transactions
  import opened RequestLedger
  import opened RequestSafety
  import opened Transport
  import opened Protocol
  import opened ProtocolSafety
  import opened ProtocolSteps

  lemma {:induction false} NoneUnconfirmed(rows: seq<Row>)
    requires forall i :: 0 <= i < |rows| ==> rows[i].confirmed
    ensures Unconfirmed(rows) == []
  {
    if rows != [] {
      NoneUnconfirmed(rows[..|rows| - 1]);
    }
  }

  /** Recovery's `exactly one unresolved request` can only be the newest row. */
  lemma UnconfirmedIsLast(l: Ledger)
    requires WellFormed(l)
    ensures Unconfirmed(l.rows) == if Open(l) && !Last(l).confirmed then [Last(l)] else []
  {
    if l.rows != [] {
      forall i | 0 <= i < |l.rows| - 1
        ensures l.rows[i].confirmed
      {
        SettledIsConfirmed(l, i);
      }
      NoneUnconfirmed(l.rows[..|l.rows| - 1]);
      assert RowOk(Last(l));
    }
  }

  lemma BeginKeeps(c: Config, s: System, cancel: bool, seen: Observation)
    requires Inv(c, s) && s.mode.Stopped?
    ensures Keeps(c, s, DoRecoverBegin(c, s, cancel, seen))
  {
    hide Within, Admitted, WellFormed, Extends, Recorded, IssuedOk, PublishedOk, TransportOk, SubmittedOk, Unconfirmed;
    Unchanged(s.ledger);
    UnconfirmedIsLast(s.ledger);
  }

  lemma EscalatesBy(operator: Address, issued: seq<Issue>, issue: Issue)
    requires Escalates(operator, issued)
    requires forall i :: 0 <= i < |issued| ==> Supersedes(operator, issue, issued[i])
    ensures Escalates(operator, issued + [issue])
  {
    var issued' := issued + [issue];
    forall i, j | 0 <= i < j < |issued'|
      ensures Supersedes(operator, issued'[j], issued'[i])
    {
      if j < |issued| {
        assert Supersedes(operator, issued[j], issued[i]);
      }
    }
  }

  /** The cancellation outbids everything issued for the request so far. */
  lemma CancelSupersedes(c: Config, row: Row, issued: seq<Issue>, tx: Tx)
    requires Tracks(row, issued) && Current(row).value.nonce == row.nonce && BuiltCancellation(c, row, tx)
    ensures forall i :: 0 <= i < |issued| ==> Supersedes(c.terms.operator, Issue(row.key, tx), issued[i])
  {}

  lemma TracksOther(row: Row, issued: seq<Issue>, issue: Issue)
    requires Tracks(row, issued) && issue.key != row.key
    ensures Tracks(row, issued + [issue])
  {
    assert (issued + [issue])[|issued|] == issue;
  }

  lemma TracksCancelled(c: Config, row: Row, row': Row, issued: seq<Issue>, tx: Tx)
    requires Tracks(row, issued) && Current(row).value.nonce == row.nonce && BuiltCancellation(c, row, tx)
    requires row'.key == row.key && row'.raw == row.raw && row'.cancelRaw == Some(tx)
    requires RowOk(row) && forall i :: 0 <= i < |issued| ==> Supersedes(c.terms.operator, Issue(row.key, tx), issued[i])
    ensures Tracks(row', issued + [Issue(row.key, tx)]) && CancelsWell(c.terms, row')
  {
    var i :| 0 <= i < |issued| && issued[i] == Issue(row.key, row.raw.value);
    assert Supersedes(c.terms.operator, Issue(row.key, tx), issued[i]);
    assert (issued + [Issue(row.key, tx)])[|issued|] == Issue(row.key, tx);
  }

  lemma CancelIssues(c: Config, l: Ledger, l': Ledger, issued: seq<Issue>, tx: Tx)
    requires IssuedOk(c, l, issued) && WellFormed(l) && l.rows != [] && |l'.rows| == |l.rows|
    requires l'.rows[..|l.rows| - 1] == l.rows[..|l.rows| - 1]
    requires Last(l').key == Last(l).key && Last(l').raw == Last(l).raw && Last(l').cancelRaw == Some(tx)
    requires BuiltCancellation(c, Last(l), tx)
    ensures IssuedOk(c, l', issued + [Issue(Last(l).key, tx)])
  {
    hide Escalates, Tracks, RowOk, BuiltCancellation, CancelsWell, Supersedes;
    var issue := Issue(Last(l).key, tx);
    var n := |l.rows| - 1;
    assert Tracks(l.rows[n], issued);
    CurrentNonce(c, l, issued, n);
    CancelSupersedes(c, l.rows[n], issued, tx);
    EscalatesBy(c.terms.operator, issued, issue);
    TracksCancelled(c, l.rows[n], Last(l'), issued, tx);
    forall i | 0 <= i < n
      ensures l'.rows[i] == l.rows[i] && Tracks(l'.rows[i], issued + [issue]) && CancelsWell(c.terms, l'.rows[i])
    {
      assert l'.rows[i] == l'.rows[..n][i] == l.rows[..n][i];
      TracksOther(l.rows[i], issued, issue);
    }
    forall i | 0 <= i <= |issued|
      ensures IndexOf(l'.rows, (issued + [issue])[i].key).Some?
    {
      SameKeysSameIndex(l.rows, l'.rows, (issued + [issue])[i].key);
      IndexOfUnique(l.rows, n);
    }
  }

  /** Everything issued for a request carries the request's nonce. */
  lemma CurrentNonce(c: Config, l: Ledger, issued: seq<Issue>, n: nat)
    requires IssuedOk(c, l, issued) && WellFormed(l) && n < |l.rows|
    ensures Current(l.rows[n]).Some? && Current(l.rows[n]).value.nonce == l.rows[n].nonce
  {
    assert Tracks(l.rows[n], issued) && RowOk(l.rows[n]);
    var i :| 0 <= i < |issued| && issued[i] == Issue(l.rows[n].key, l.rows[n].raw.value);
  }

  lemma CancelKeepsInv(c: Config, s: System, tx: Tx, now: int)
    requires Inv(c, s) && s.mode.Recovering? && s.mode.repair.Chosen?
    ensures Keeps(c, s, DoRecoverCancel(c, s, tx, now))
  {
    hide Within, WellFormed, Extends, Recorded, IssuedOk, PublishedOk, TransportOk, SubmittedOk, BuiltCancellation,
         RequestLedger.Cancel, Unresolved, ExposureOf;
    Unchanged(s.ledger);
    var Chosen(item, stale) := s.mode.repair;
    if BuiltCancellation(c, item, tx) && s.clock <= now
      && Cancel(s.ledger, item.key, tx, Digest(tx), CapCost(tx), c.budget, now).Ok?
    {
      var l' := Cancel(s.ledger, item.key, tx, Digest(tx), CapCost(tx), c.budget, now).value;
      CancelKeeps(s.ledger, s.admitted, s.clock, c.budget, tx, now);
      SamePlan(c, item, Last(s.ledger), tx);
      CancelRows(s.ledger, l', tx, c.budget, now);
      CancelIssues(c, s.ledger, l', s.issued, tx);
      HistoryGrows(s.transport, s.published, s.issued, Issue(item.key, tx));
      RecordedGrows(s.transport, s.ledger, l');
      SubmittedGrows(s.ledger, l', s.submitted);
    }
  }

  lemma SamePlan(c: Config, item: Row, last: Row, tx: Tx)
    requires SameSettlement(item, last) && BuiltCancellation(c, item, tx)
    ensures BuiltCancellation(c, last, tx)
  {}

  lemma CancelRows(l: Ledger, l': Ledger, tx: Tx, budget: int, now: int)
    requires WellFormed(l) && l.rows != []
    requires Cancel(l, Last(l).key, tx, Digest(tx), CapCost(tx), budget, now) == Ok(l')
    ensures |l'.rows| == |l.rows| && l'.rows[..|l.rows| - 1] == l.rows[..|l.rows| - 1]
    ensures Last(l').key == Last(l).key && Last(l').raw == Last(l).raw && Last(l').cancelRaw == Some(tx)
  {
    IndexOfUnique(l.rows, |l.rows| - 1);
  }

  lemma StageKeepsInv(c: Config, s: System, seen: Observation)
    requires Inv(c, s) && s.mode.Recovering? && s.mode.repair.Bound? && s.mode.repair.item.raw.Some?
    ensures Keeps(c, s, DoRecoverStage(c, s, seen))
  {
    hide Within, Admitted, WellFormed, Extends, Recorded, IssuedOk, PublishedOk, TransportOk, SubmittedOk, HasRow;
    Unchanged(s.ledger);
    var Bound(item, stale, raw, cancelling) := s.mode.repair;
    LastIsOk(s.ledger);
    if !(stale.Some? && Some(stale.value.hash) == item.hash) && Accepts(c.terms, item.raw.value, false)
      && JournalStep(s.transport, item.raw.value, false, None, seen).Ok?
    {
      LastHasRow(s.ledger);
      JournaledOriginal(s, item.key, item.raw.value, None, seen);
    }
  }

  lemma LastIsOk(l: Ledger)
    requires WellFormed(l) && l.rows != []
    ensures RowOk(Last(l))
  {}

  /** A transport row with the newest row's hash holds that row's bytes and nonce. */
  lemma SameHashSameRow(t: PendingRow, l: Ledger)
    requires Recorded(Some(t), l) && WellFormed(l) && Open(l) && Last(l).hash == Some(t.hash)
    ensures Last(l).raw == Some(t.raw) && Last(l).nonce == t.nonce
    ensures t.cancelRaw.Some? && Last(l).cancelRaw.None? ==> Twin(l)
  {
    var i :| 0 <= i < |l.rows| && Repeats(t, l.rows[i]);
    assert RowOk(l.rows[i]) && RowOk(Last(l));
  }

  lemma CurrentIssued(c: Config, l: Ledger, issued: seq<Issue>)
    requires IssuedOk(c, l, issued) && l.rows != []
    ensures Current(Last(l)).Some? && WasIssued(issued, Current(Last(l)).value)
  {
    assert Tracks(l.rows[|l.rows| - 1], issued);
    var i :| 0 <= i < |issued| && issued[i] == Issue(Last(l).key, Current(Last(l)).value);
  }

  /** Committing the pending cancellation brings the transport row level with the request. */
  lemma CancellationAligns(c: Config, s: System, raw: Tx, seen: Observation)
    requires WellFormed(s.ledger) && Recorded(s.transport, s.ledger) && IssuedOk(c, s.ledger, s.issued)
    requires Open(s.ledger) && Current(Last(s.ledger)) == Some(raw) && Last(s.ledger).cancelRaw.Some?
    requires s.transport.Some? && Some(s.transport.value.hash) == Last(s.ledger).hash
    requires JournalStep(s.transport, raw, true, None, seen).Ok?
    ensures var t := JournalStep(s.transport, raw, true, None, seen).value;
            && Aligned(t, s.ledger) && Recorded(t, s.ledger) && TransportOk(t, s.issued) && WasIssued(s.issued, raw)
  {
    hide WellFormed, Recorded, IssuedOk, JournalStep, WasIssued;
    CancellationKeepsRow(s.transport, raw, None, seen);
    LastIsOk(s.ledger);
    SameHashSameRow(s.transport.value, s.ledger);
    CurrentIssued(c, s.ledger, s.issued);
    AlignedIsRecorded(JournalStep(s.transport, raw, true, None, seen).value, s.ledger);
  }

  lemma AlignedIsRecorded(t: Option<PendingRow>, l: Ledger)
    requires Aligned(t, l) && RowOk(Last(l))
    ensures Recorded(t, l)
  {
    assert Repeats(t.value, l.rows[|l.rows| - 1]);
  }

  /** A retry recommits the row it read, so the journal does not change hands. */
  lemma RetryKeepsRow(t: PendingRow, seen: Observation)
    requires Consistent(t) && Resent(t, seen).Ok?
    ensures Resent(t, seen).value == Some(t)
  {}

  lemma RetryRealigns(c: Config, s: System, seen: Observation)
    requires WellFormed(s.ledger) && Recorded(s.transport, s.ledger) && IssuedOk(c, s.ledger, s.issued)
             && TransportOk(s.transport, s.issued)
    requires Open(s.ledger) && Last(s.ledger).cancelRaw.None? && !c.mainnet
    requires s.transport.Some? && Some(s.transport.value.hash) == Last(s.ledger).hash
             && Resent(s.transport.value, seen).Ok?
    ensures Resent(s.transport.value, seen).value == s.transport
            && Realigned(c, s.ledger, s.transport, s.issued, Payload(s.transport.value))
  {
    hide WellFormed, Recorded, IssuedOk, Resent;
    LastIsOk(s.ledger);
    SameHashSameRow(s.transport.value, s.ledger);
    CurrentIssued(c, s.ledger, s.issued);
    RecordedConsistent(s.transport, s.ledger, s.issued);
    RetryKeepsRow(s.transport.value, seen);
  }

  lemma RecordedConsistent(t: Option<PendingRow>, l: Ledger, issued: seq<Issue>)
    requires t.Some? && Recorded(t, l) && WellFormed(l) && TransportOk(t, issued)
    ensures Consistent(t.value)
  {
    var i :| 0 <= i < |l.rows| && Repeats(t.value, l.rows[i]);
    assert RowOk(l.rows[i]);
  }

  lemma JournalKeepsInv(c: Config, s: System, seen: Observation)
    requires Inv(c, s) && s.mode.Recovering? && s.mode.repair.Restaged?
    ensures Keeps(c, s, DoRecoverJournal(c, s, seen))
  {
    hide Within, Admitted, WellFormed, Extends, Recorded, IssuedOk, PublishedOk, TransportOk, SubmittedOk, JournalStep,
        Accepts;
    Unchanged(s.ledger);
    var Restaged(item, raw, cancelling) := s.mode.repair;
    if cancelling {
      if Accepts(c.terms, raw, true) && JournalStep(s.transport, raw, true, None, seen).Ok? {
        CancellationAligns(c, s, raw, seen);
      }
    } else if s.transport.Some? {
      var t := s.transport.value;
      if JournalStep(s.transport, t.cancelRaw.GetOr(t.raw), t.cancelRaw.Some?, Some(t.cancelHash.GetOr(t.hash)),
                     seen).Ok? {
        RetryRealigns(c, s, seen);
      }
    }
  }

  lemma DiscloseKeeps(c: Config, s: System)
    requires Inv(c, s) && s.mode.Recovering? && s.mode.repair.Rejournaled?
    ensures Keeps(c, s, Apply(c, s, RecoverDisclose))
  {
    hide Safe, Extends, Recorded, IssuedOk, TransportOk, SubmittedOk, Aligned, Twin;
    Unchanged(s.ledger);
    var raw := s.mode.repair.raw;
    assert WasIssued(s.issued, raw);
    assert (s.published + [raw])[|s.published|] == raw;
  }
}

/** Every step of the protocol keeps the invariant, and only ever extends the request journal. */
module ProtocolSteps {
  import opened Basics
  import opened Transactions
  import opened RequestLedger
  import opened RequestSafety
  import opened Transport
  import opened Admission
  import opened Protocol
  import opened ProtocolSafety

  lemma Unchanged(l: Ledger)
    ensures Extends(l, l)
  {}

  /** What a step must establish. */
  ghost predicate Keeps(c: Config, s: System, s': System) {
    Inv(c, s') && Extends(s.ledger, s'.ledger)
  }

  /** Settlement commits leave the transport, the history and every payload alone. */
  lemma DurableKept(c: Config, s: System, s': System)
    requires Inv(c, s)
    requires s'.transport == s.transport && s'.issued == s.issued && s'.published == s.published
             && s'.submitted == s.submitted
    requires Safe(s'.ledger, s'.admitted, s'.clock, c.budget) && Extends(s.ledger, s'.ledger)
             && SamePayloads(s.ledger, s'.ledger)
    ensures ModeOk(c, s') ==> Keeps(c, s, s')
  {
    hide Safe, Extends, Recorded, IssuedOk, PublishedOk, TransportOk, SubmittedOk, CallsOk, ReconciliationOk, RepairOk;
    RecordedGrows(s.transport, s.ledger, s'.ledger);
    IssuedStable(c, s.ledger, s'.ledger, s.issued);
    SubmittedGrows(s.ledger, s'.ledger, s.submitted);
  }

  /** Answering keeps whatever the mode relied on. */
  lemma TouchMode(c: Config, s: System, l': Ledger)
    requires Inv(c, s) && Touched(s.ledger, l') && s.mode.Serving?
    ensures Safe(l', s.admitted, s.clock, c.budget) && Extends(s.ledger, l') && SamePayloads(s.ledger, l')
    ensures CallsOk(l', s.submitted, s.mode.gate, s.mode.calls) && ReconciliationOk(l', s.mode.reconciliation)
  {
    TouchKeeps(s.ledger, l', s.admitted, s.clock, c.budget);
    CallsGrow(s.ledger, l', s.submitted, s.mode.gate, s.mode.calls);
    forall i | 0 <= i < |s.ledger.rows|
      ensures l'.rows[i].key == s.ledger.rows[i].key && l'.rows[i].raw == s.ledger.rows[i].raw
      ensures l'.rows[i].cancelRaw == s.ledger.rows[i].cancelRaw
    {
      assert SameSettlement(s.ledger.rows[i], l'.rows[i]);
    }
  }

  lemma AnswerTouches(l: Ledger, key: Key, answer: Cipher)
    ensures Touched(l, AnswerKnown(l, key, answer))
  {
    RespondTouches(l, key, answer);
  }

  // ---------------------------------------------------------------- process life cycle

  lemma TickKeeps(c: Config, s: System, now: int)
    requires Inv(c, s)
    ensures Keeps(c, s, Apply(c, s, Tick(now)))
  {
    hide Safe, Extends, Recorded, IssuedOk, PublishedOk, TransportOk, SubmittedOk, CallsOk, ReconciliationOk, RepairOk;
    Unchanged(s.ledger);
    if s.clock <= now {
      TimePasses(s.ledger, s.admitted, s.clock, now, c.budget);
    }
  }

  lemma LifeKeeps(c: Config, s: System)
    requires Inv(c, s)
    ensures Keeps(c, s, Apply(c, s, Start)) && Keeps(c, s, Apply(c, s, Crash))
  {
    hide Safe, Extends, Recorded, IssuedOk, PublishedOk, TransportOk, SubmittedOk, RepairOk;
    Unchanged(s.ledger);
  }

  // ---------------------------------------------------------------- handle

  lemma ArriveKeeps(c: Config, s: System, id: nat, key: Key)
    requires Inv(c, s)
    ensures Keeps(c, s, Apply(c, s, Arrive(id, key)))
  {
    hide Safe, Extends, Recorded, IssuedOk, PublishedOk, TransportOk, SubmittedOk, CallsOk, ReconciliationOk, RepairOk;
    Unchanged(s.ledger);
    if s.mode.Serving? && id !in s.mode.calls {
      var calls' := s.mode.calls[id := Arrived(key)];
      ArrivedCalls(s.ledger, s.submitted, s.mode.gate, s.mode.calls, id, key);
    }
  }

  lemma ArrivedCalls(l: Ledger, submitted: seq<Key>, gate: Gate, calls: map<nat, Call>, id: nat, key: Key)
    requires CallsOk(l, submitted, gate, calls) && id !in calls
    ensures CallsOk(l, submitted, gate, calls[id := Arrived(key)])
  {
    if gate.busy {
      var i :| i in calls && Holds(calls[i]);
      assert i in calls[id := Arrived(key)] && Holds(calls[id := Arrived(key)][i]);
    }
  }

  /** A waiting invocation leaves; the gate may have aged its counters. */
  lemma LeaveCalls(l: Ledger, submitted: seq<Key>, gate: Gate, gate': Gate, calls: map<nat, Call>, id: nat)
    requires CallsOk(l, submitted, gate, calls) && id in calls && !Holds(calls[id])
    requires gate'.busy == gate.busy && gate'.activeKey == gate.activeKey
    ensures CallsOk(l, submitted, gate', calls - {id})
  {
    if gate.busy {
      var i :| i in calls && Holds(calls[i]);
      assert i in calls - {id} && Holds((calls - {id})[i]);
    }
  }

  lemma ReserveCalls(l: Ledger, submitted: seq<Key>, gate: Gate, gate': Gate, calls: map<nat, Call>, id: nat)
    requires CallsOk(l, submitted, gate, calls) && id in calls && !gate.busy
    requires gate'.busy && gate'.activeKey == Some(calls[id].key)
    ensures CallsOk(l, submitted, gate', calls[id := Holding(calls[id].key)])
  {
    var calls' := calls[id := Holding(calls[id].key)];
    assert id in calls' && Holds(calls'[id]);
  }

  lemma ConsiderKeeps(c: Config, s: System, id: nat, a: Arrival, elapsed: int, answer: Cipher)
    requires Inv(c, s) && s.mode.Serving? && id in s.mode.calls && s.mode.calls[id].Arrived?
    ensures Keeps(c, s, DoConsider(s, id, a, elapsed, answer))
  {
    hide Safe, Extends, Recorded, IssuedOk, PublishedOk, TransportOk, SubmittedOk, CallsOk, ReconciliationOk, RepairOk;
    Unchanged(s.ledger);
    var key := s.mode.calls[id].key;
    var (gate', verdict) := Admit(s.mode.gate, s.ledger, key, a, elapsed);
    if verdict.Reserved? {
      ReserveCalls(s.ledger, s.submitted, s.mode.gate, gate', s.mode.calls, id);
    } else {
      LeaveCalls(s.ledger, s.submitted, s.mode.gate, gate', s.mode.calls, id);
      if verdict.Refused? {
        var l' := AnswerKnown(s.ledger, key, answer);
        AnswerTouches(s.ledger, key, answer);
        TouchMode(c, s, l');
        CallsGrow(s.ledger, l', s.submitted, gate', s.mode.calls - {id});
        DurableKept(c, s, DoConsider(s, id, a, elapsed, answer));
      }
    }
  }

  /** The holder moves on to its next commit. */
  lemma AdvanceCalls(l: Ledger, submitted: seq<Key>, gate: Gate, gate': Gate, calls: map<nat, Call>, id: nat,
                     call: Call)
    requires CallsOk(l, submitted, gate, calls) && id in calls && Holds(calls[id]) && Holds(call)
             && call.key == calls[id].key
    requires gate'.busy == gate.busy && gate'.activeKey == gate.activeKey
    requires HasPayload(call) ==> HasRow(l, call.key, call.tx)
    requires call.Journaled? || call.Staged? ==> call.key !in submitted
    ensures CallsOk(l, submitted, gate', calls[id := call])
  {
    var calls' := calls[id := call];
    assert id in calls' && Holds(calls'[id]);
    forall i, j | i in calls' && j in calls' && Holds(calls'[i]) && Holds(calls'[j])
      ensures i == j
    {
      assert Holds(calls[id]);
    }
  }

  lemma SignIssues(c: Config, l: Ledger, l': Ledger, issued: seq<Issue>, row: Row)
    requires IssuedOk(c, l, issued) && l'.rows == l.rows + [row] && IndexOf(l.rows, row.key).None?
    requires row.raw.Some? && row.cancelRaw.None?
    ensures IssuedOk(c, l', issued + [Issue(row.key, row.raw.value)])
  {
    var issue := Issue(row.key, row.raw.value);
    var issued' := issued + [issue];
    assert l'.rows[..|l.rows|] == l.rows;
    forall i | 0 <= i < |issued|
      ensures issued[i].key != row.key
    {
      assert IndexOf(l.rows, issued[i].key).Some?;
    }
    forall i | 0 <= i < |l'.rows|
      ensures Tracks(l'.rows[i], issued') && CancelsWell(c.terms, l'.rows[i])
    {
      if i < |l.rows| {
        assert CancelsWell(c.terms, l.rows[i]);
        assert Tracks(l.rows[i], issued);
        assert issue.key != l.rows[i].key;
      } else {
        assert issued'[|issued|] == issue;
      }
    }
    forall i, j | 0 <= i < j < |issued'|
      ensures Supersedes(c.terms.operator, issued'[j], issued'[i])
    {
      if j < |issued| {
        assert Supersedes(c.terms.operator, issued[j], issued[i]);
      }
    }
  }

  lemma WasIssuedGrows(issued: seq<Issue>, issue: Issue)
    ensures forall tx :: WasIssued(issued, tx) ==> WasIssued(issued + [issue], tx)
    ensures WasIssued(issued + [issue], issue.tx)
  {
    assert (issued + [issue])[|issued|] == issue;
    forall tx | WasIssued(issued, tx)
      ensures WasIssued(issued + [issue], tx)
    {
      var i :| 0 <= i < |issued| && issued[i].tx == tx;
      assert (issued + [issue])[i].tx == tx;
    }
  }

  lemma SignCalls(c: Config, s: System, l': Ledger, id: nat, e: Entry, elapsed: int)
    requires s.mode.Serving? && id in s.mode.calls && s.mode.calls[id] == Holding(e.key)
    requires CallsOk(s.ledger, s.submitted, s.mode.gate, s.mode.calls) && SubmittedOk(s.ledger, s.submitted)
    requires IndexOf(s.ledger.rows, e.key).None? && Extends(s.ledger, l') && HasRow(l', e.key, e.raw)
    ensures CallsOk(l', s.submitted, RecordSigning(s.mode.gate, elapsed), s.mode.calls[id := Journaled(e.key, e.raw)])
  {
    assert forall i :: 0 <= i < |s.submitted| ==> IndexOf(s.ledger.rows, s.submitted[i]).Some?;
    assert e.key !in s.submitted;
    var gate := s.mode.gate;
    CallsGrow(s.ledger, l', s.submitted, gate, s.mode.calls);
    AdvanceCalls(l', s.submitted, gate, RecordSigning(gate, elapsed), s.mode.calls, id, Journaled(e.key, e.raw));
  }

  lemma HistoryGrows(t: Option<PendingRow>, published: seq<Tx>, issued: seq<Issue>, issue: Issue)
    requires PublishedOk(published, issued) && TransportOk(t, issued)
    ensures PublishedOk(published, issued + [issue]) && TransportOk(t, issued + [issue])
  {
    WasIssuedGrows(issued, issue);
    forall i | 0 <= i < |published|
      ensures WasIssued(issued + [issue], published[i])
    {
      assert WasIssued(issued, published[i]);
    }
  }

  lemma SignKeepsInv(c: Config, s: System, id: nat, e: Entry, checkedAt: int, now: int, elapsed: int)
    requires Inv(c, s) && s.mode.Serving? && id in s.mode.calls && s.mode.calls[id] == Holding(e.key)
    requires e.hash == Digest(e.raw) && e.nonce == e.raw.nonce && e.cost == CapCost(e.raw)
             && s.clock <= checkedAt <= now
    ensures Keeps(c, s, DoSign(c, s, id, e, checkedAt, now, elapsed))
  {
    hide Safe, Extends, Recorded, IssuedOk, PublishedOk, TransportOk, SubmittedOk, CallsOk, RepairOk, HasRow;
    Unchanged(s.ledger);
    if Sign(s.ledger, e, c.budget, checkedAt, now).Ok? {
      var l' := Sign(s.ledger, e, c.budget, checkedAt, now).value;
      SignKeeps(s.ledger, s.admitted, s.clock, c.budget, e, checkedAt, now);
      RecordedGrows(s.transport, s.ledger, l');
      SubmittedGrows(s.ledger, l', s.submitted);
      SignIssues(c, s.ledger, l', s.issued, NewRow(e, now));
      HistoryGrows(s.transport, s.published, s.issued, Issue(e.key, e.raw));
      LastHasRow(l');
      SignCalls(c, s, l', id, e, elapsed);
      assert ReconciliationOk(l', s.mode.reconciliation);
    } else {
      StampedCalls(s.ledger, s.submitted, s.mode.gate, RecordSigning(s.mode.gate, elapsed), s.mode.calls);
    }
  }

  /** The rate counters play no part in the reservation. */
  lemma StampedCalls(l: Ledger, submitted: seq<Key>, gate: Gate, gate': Gate, calls: map<nat, Call>)
    requires CallsOk(l, submitted, gate, calls) && gate'.busy == gate.busy && gate'.activeKey == gate.activeKey
    ensures CallsOk(l, submitted, gate', calls)
  {}

  lemma LastHasRow(l: Ledger)
    requires l.rows != [] && Last(l).raw.Some?
    ensures HasRow(l, Last(l).key, Last(l).raw.value)
  {
    assert l.rows[|l.rows| - 1] == Last(l);
  }

  /** A transport commit of an original that some request row holds. */
  lemma JournaledOriginal(s: System, key: Key, tx: Tx, retry: Option<Hash>, seen: Observation)
    requires Recorded(s.transport, s.ledger) && TransportOk(s.transport, s.issued)
    requires WellFormed(s.ledger) && HasRow(s.ledger, key, tx)
    requires JournalStep(s.transport, tx, false, retry, seen).Ok?
    ensures var t := JournalStep(s.transport, tx, false, retry, seen).value;
            && Recorded(t, s.ledger) && t.Some? && t.value.hash == Digest(tx)
            && TransportOk(t, s.issued)
  {
    var i :| 0 <= i < |s.ledger.rows| && s.ledger.rows[i].key == key && s.ledger.rows[i].raw == Some(tx);
    assert RowOk(s.ledger.rows[i]);
    var t := JournalStep(s.transport, tx, false, retry, seen).value;
    if t != s.transport {
      assert Repeats(t.value, s.ledger.rows[i]);
    }
  }

  lemma StageKeeps(c: Config, s: System, id: nat, seen: Observation)
    requires Inv(c, s) && s.mode.Serving? && id in s.mode.calls && s.mode.calls[id].Journaled?
    ensures Keeps(c, s, DoStage(c, s, id, seen))
  {
    hide Within, Admitted, WellFormed, Extends, IssuedOk, PublishedOk, SubmittedOk, ReconciliationOk, Recorded,
        TransportOk, HasRow;
    Unchanged(s.ledger);
    var Journaled(key, tx) := s.mode.calls[id];
    if Accepts(c.terms, tx, false) && JournalStep(s.transport, tx, false, None, seen).Ok? {
      JournaledOriginal(s, key, tx, None, seen);
      AdvanceCalls(s.ledger, s.submitted, s.mode.gate, s.mode.gate, s.mode.calls, id, Staged(key, tx));
    }
  }

  lemma RowIssued(c: Config, s: System, key: Key, tx: Tx)
    requires IssuedOk(c, s.ledger, s.issued) && HasRow(s.ledger, key, tx)
    ensures WasIssued(s.issued, tx) && IndexOf(s.ledger.rows, key).Some?
  {
    var i :| 0 <= i < |s.ledger.rows| && s.ledger.rows[i].key == key && s.ledger.rows[i].raw == Some(tx);
    assert Tracks(s.ledger.rows[i], s.issued);
    var j :| 0 <= j < |s.issued| && s.issued[j] == Issue(key, tx);
  }

  lemma SubmitKeeps(c: Config, s: System, id: nat)
    requires Inv(c, s) && s.mode.Serving? && id in s.mode.calls && s.mode.calls[id].Staged?
    ensures Keeps(c, s, Apply(c, s, Submit(id)))
  {
    hide Safe, Extends, IssuedOk, ReconciliationOk, RepairOk, Recorded, TransportOk;
    Unchanged(s.ledger);
    var Staged(key, tx) := s.mode.calls[id];
    var s' := Apply(c, s, Submit(id));
    RowIssued(c, s, key, tx);
    assert key !in s.submitted;
    var calls' := s.mode.calls[id := Sent(key, tx)];
    AdvanceCalls(s.ledger, s.submitted, s.mode.gate, s.mode.gate, s.mode.calls, id, Sent(key, tx));
    assert forall i :: i in calls' && i != id ==> !Holds(calls'[i]);
  }

  lemma ReleaseCalls(l: Ledger, submitted: seq<Key>, gate: Gate, calls: map<nat, Call>, id: nat)
    requires CallsOk(l, submitted, gate, calls) && id in calls && Holds(calls[id])
    ensures CallsOk(l, submitted, Release(gate), calls - {id})
  {
    forall i | i in calls - {id}
      ensures !Holds(calls[i])
    {}
  }

  lemma FinishKeeps(c: Config, s: System, id: nat, answer: Cipher)
    requires Inv(c, s) && s.mode.Serving? && id in s.mode.calls && Holds(s.mode.calls[id])
    ensures Keeps(c, s, DoFinish(s, id, answer))
  {
    hide Safe, Extends, Recorded, IssuedOk, PublishedOk, TransportOk, SubmittedOk, CallsOk, ReconciliationOk, RepairOk;
    Unchanged(s.ledger);
    var l' := AnswerKnown(s.ledger, s.mode.calls[id].key, answer);
    AnswerTouches(s.ledger, s.mode.calls[id].key, answer);
    TouchMode(c, s, l');
    ReleaseCalls(l', s.submitted, s.mode.gate, s.mode.calls, id);
    DurableKept(c, s, DoFinish(s, id, answer));
  }
}

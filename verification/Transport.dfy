/** The protected transport's single-row journal: one commit of `journalSigned`, the object that performs
    it before publishing, and what every run of attempts keeps whatever the read node answers. */
module Transport {
  import opened Basics
  import opened Transactions

  datatype PendingRow = PendingRow(hash: Hash, nonce: int, raw: Tx, cancelHash: Option<Hash>, cancelRaw: Option<Tx>)

  /** Mined nonce at the head and one block below it, as the trusted node reports them. */
  datatype Observation = Observation(latest: int, confirmed: int)

  datatype TransportError = Rejected | ReadFailed | InconsistentNode | PendingChanged | WrongCancellationNonce
                          | NonceUnresolved | NonceNotMined | NothingToRetry | NotAcknowledged

  /** The transaction between BEGIN IMMEDIATE and COMMIT; an error stands for ROLLBACK. */
  function JournalStep(pending: Option<PendingRow>, tx: Tx, cancellation: bool, retry: Option<Hash>, seen: Observation)
    : Result<Option<PendingRow>, TransportError>
  {
    if seen.confirmed > seen.latest then Err(InconsistentNode)
    else if retry.Some? && (pending.None? || pending.value.cancelHash.GetOr(pending.value.hash) != retry.value) then
      Err(PendingChanged)
    else if cancellation && (pending.None? || pending.value.nonce != tx.nonce) then Err(WrongCancellationNonce)
    else if pending.Some? && seen.confirmed <= pending.value.nonce && !cancellation
      && (pending.value.hash != Digest(tx) || pending.value.cancelHash.Some?) then Err(NonceUnresolved)
    else if seen.latest != tx.nonce then Err(NonceNotMined)
    else
      var kept := if pending.Some? && seen.confirmed > pending.value.nonce then None else pending;
      if cancellation then
        Ok(if kept.None? then None
           else Some(kept.value.(cancelHash := Some(Digest(tx)), cancelRaw := Some(tx))))
      else
        Ok(if kept.None? then Some(PendingRow(Digest(tx), tx.nonce, tx, None, None)) else kept)
  }

  /** A journal write commits exactly when the node is consistent and reports the payload's nonce as the next one, a
      retry still names the row's current payload, a cancellation meets a row on its nonce, and an original meets no
      row, a confirmed one, or its own uncancelled one. */
  lemma JournalCommits(pending: Option<PendingRow>, tx: Tx, cancellation: bool, retry: Option<Hash>, seen: Observation)
    ensures JournalStep(pending, tx, cancellation, retry, seen).Ok? <==>
              && seen.confirmed <= seen.latest && seen.latest == tx.nonce
              && (retry.Some? ==>
                    pending.Some? && retry == Some(if pending.value.cancelHash.Some? then pending.value.cancelHash.value
                                                   else pending.value.hash))
              && (cancellation ==> pending.Some? && pending.value.nonce == tx.nonce)
              && (!cancellation && pending.Some? ==>
                    pending.value.nonce < seen.confirmed
                    || (pending.value.hash == Digest(tx) && pending.value.cancelHash.None?))
    ensures JournalStep(pending, tx, cancellation, retry, seen).Ok? ==>
              var after := JournalStep(pending, tx, cancellation, retry, seen).value;
              && after.Some?
              && (cancellation ==>
                    after.value == PendingRow(pending.value.hash, pending.value.nonce, pending.value.raw,
                                              Some(Digest(tx)), Some(tx)))
              && (!cancellation && pending.Some? && seen.confirmed <= pending.value.nonce ==> after == pending)
              && (!cancellation && (pending.None? || pending.value.nonce < seen.confirmed) ==>
                    after.value == PendingRow(Digest(tx), tx.nonce, tx, None, None))
  {}

  /** The columns of a row agree with the payloads stored in it. */
  predicate Consistent(row: PendingRow) {
    && row.hash == Digest(row.raw) && row.nonce == row.raw.nonce
    && row.cancelHash == if row.cancelRaw.Some? then Some(Digest(row.cancelRaw.value)) else None
  }

  /** An operator with an execution guard publishes type-4 operations only through it. */
  predicate Guarded(terms: Terms, tx: Tx, cancellation: bool) {
    terms.guard.Some? && !cancellation && tx.txType == 4 ==> tx.to == terms.guard
  }

  /** The payload passes every rule and its journal step commits. `seen` is None when a fork, chain, guard-code
      or nonce read fails. */
  predicate Stages(terms: Terms, pending: Option<PendingRow>, tx: Tx, cancellation: bool, retry: Option<Hash>,
                   seen: Option<Observation>)
  {
    Accepts(terms, tx, cancellation) && seen.Some? && JournalStep(pending, tx, cancellation, retry, seen.value).Ok?
  }

  /** What reaches the endpoint. */
  predicate Publishes(terms: Terms, pending: Option<PendingRow>, tx: Tx, cancellation: bool, retry: Option<Hash>,
                      seen: Option<Observation>)
  {
    Guarded(terms, tx, cancellation) && Stages(terms, pending, tx, cancellation, retry, seen)
  }

  function Payload(row: PendingRow): Tx {
    row.cancelRaw.GetOr(row.raw)
  }

  /** The journal step of repeating the row's own payload. */
  function Resent(row: PendingRow, seen: Observation): Result<Option<PendingRow>, TransportError> {
    JournalStep(Some(row), Payload(row), row.cancelRaw.Some?, Some(row.cancelHash.GetOr(row.hash)), seen)
  }

  /** The row's own current payload is published again. */
  predicate Resends(terms: Terms, pending: Option<PendingRow>, seen: Option<Observation>) {
    pending.Some? &&
    Publishes(terms, pending, Payload(pending.value), pending.value.cancelRaw.Some?,
              Some(pending.value.cancelHash.GetOr(pending.value.hash)), seen)
  }

  class ProtectedEthereumProvider {
    const terms: Terms
    var pending: Option<PendingRow>
    ghost var published: seq<Tx>

    predicate Valid()
      reads this
    {
      pending.Some? ==> Consistent(pending.value)
    }

    constructor (terms: Terms)
      ensures Valid()
      ensures this.terms == terms && pending == None && published == []
    {
      this.terms := terms;
      pending := None;
      published := [];
    }

    method JournalSigned(tx: Tx, cancellation: bool, retry: Option<Hash>, seen: Option<Observation>)
      returns (r: Result<Hash, TransportError>)
      requires Valid()
      modifies this`pending
      ensures Valid()
      ensures seen.None? ==> r == Err(ReadFailed) && pending == old(pending)
      ensures seen.Some? ==>
        match JournalStep(old(pending), tx, cancellation, retry, seen.value)
        case Ok(p) => r == Ok(Digest(tx)) && pending == p
        case Err(e) => r == Err(e) && pending == old(pending)
    {
      if seen.None? { return Err(ReadFailed); }
      var Observation(latest, confirmed) := seen.value;
      if confirmed > latest { return Err(InconsistentNode); }
      var saved := pending;
      if retry.Some? && (pending.None? || pending.value.cancelHash.GetOr(pending.value.hash) != retry.value) {
        return Err(PendingChanged);
      }
      if cancellation && (pending.None? || pending.value.nonce != tx.nonce) {
        return Err(WrongCancellationNonce);
      }
      if pending.Some? && confirmed > pending.value.nonce {
        pending := None;
      } else if !cancellation && pending.Some? && (pending.value.hash != Digest(tx) || pending.value.cancelHash.Some?) {
        return Err(NonceUnresolved);
      }
      if latest != tx.nonce {
        pending := saved;
        return Err(NonceNotMined);
      }
      if cancellation {
        if pending.Some? {
          pending := Some(pending.value.(cancelHash := Some(Digest(tx)), cancelRaw := Some(tx)));
        }
      } else if pending.None? {
        pending := Some(PendingRow(Digest(tx), tx.nonce, tx, None, None));
      }
      return Ok(Digest(tx));
    }

    /** Persists an already signed operation without publishing it, exactly when the rules and the journal allow. */
    method StageSigned(raw: Tx, seen: Option<Observation>) returns (r: Result<Hash, TransportError>)
      requires Valid()
      modifies this`pending
      ensures Valid()
      ensures r.Ok? <==> Stages(terms, old(pending), raw, false, None, seen)
      ensures r.Ok? ==> r.value == Digest(raw) && JournalStep(old(pending), raw, false, None, seen.value) == Ok(pending)
      ensures r.Err? ==> pending == old(pending)
    {
      if !Accepts(terms, raw, false) { return Err(Rejected); }
      r := JournalSigned(raw, false, None, seen);
    }

    /** Publishes exactly when the rules, the guard and the journal allow, after the journal commit; a lost reply
        keeps the journal locked. */
    method SendProtected(raw: Tx, cancellation: bool, retry: Option<Hash>, seen: Option<Observation>,
                         acknowledged: bool)
      returns (r: Result<Hash, TransportError>)
      requires Valid()
      modifies this
      ensures Valid()
      ensures if Publishes(terms, old(pending), raw, cancellation, retry, seen) then
                && published == old(published) + [raw]
                && JournalStep(old(pending), raw, cancellation, retry, seen.value) == Ok(pending)
                && r == if acknowledged then Ok(Digest(raw)) else Err(NotAcknowledged)
              else published == old(published) && pending == old(pending) && r.Err?
    {
      if !Accepts(terms, raw, cancellation) { return Err(Rejected); }
      if terms.guard.Some? && !cancellation && raw.txType == 4 && raw.to != terms.guard { return Err(Rejected); }
      r := JournalSigned(raw, cancellation, retry, seen);
      if r.Err? { return; }
      published := published + [raw];
      if !acknowledged { return Err(NotAcknowledged); }
    }

    /** Sends the journaled cancellation when there is one, otherwise the original, never anything else. */
    method RetryPending(seen: Option<Observation>, acknowledged: bool) returns (r: Result<Hash, TransportError>)
      requires Valid()
      modifies this
      ensures Valid()
      ensures pending == old(pending)
      ensures if Resends(terms, old(pending), seen) then
                && published == old(published) + [Payload(old(pending).value)]
                && Resent(old(pending).value, seen.value) == Ok(pending)
                && r == if acknowledged then Ok(Digest(Payload(old(pending).value))) else Err(NotAcknowledged)
              else published == old(published) && r.Err?
    {
      if pending.None? { return Err(NothingToRetry); }
      var row := pending.value;
      r := SendProtected(row.cancelRaw.GetOr(row.raw), row.cancelRaw.Some?, Some(row.cancelHash.GetOr(row.hash)), seen,
                         acknowledged);
    }

    method CancelPending(raw: Tx, seen: Option<Observation>,
                         acknowledged: bool) returns (r: Result<Hash, TransportError>)
      requires Valid()
      modifies this
      ensures Valid()
      ensures if Publishes(terms, old(pending), raw, true, None, seen) then
                && old(pending).Some? && old(pending).value.nonce == raw.nonce
                && JournalStep(old(pending), raw, true, None, seen.value) == Ok(pending)
                && pending == Some(old(pending).value.(cancelHash := Some(Digest(raw)), cancelRaw := Some(raw)))
                && published == old(published) + [raw]
                && r == if acknowledged then Ok(Digest(raw)) else Err(NotAcknowledged)
              else published == old(published) && pending == old(pending) && r.Err?
    {
      r := SendProtected(raw, true, None, seen, acknowledged);
    }
  }

  /** A cancellation that commits never meets a deleted row: `confirmed <= latest` excludes it. */
  lemma CancellationKeepsRow(pending: Option<PendingRow>, tx: Tx, retry: Option<Hash>, seen: Observation)
    requires JournalStep(pending, tx, true, retry, seen).Ok?
    ensures pending.Some? && pending.value.nonce == tx.nonce
    ensures JournalStep(pending, tx, true, retry, seen).value
            == Some(pending.value.(cancelHash := Some(Digest(tx)), cancelRaw := Some(tx)))
  {}

  // ---------------------------------------------------------------- every run of attempts

  datatype Attempt = Attempt(tx: Tx, cancellation: bool, retry: Option<Hash>, seen: Observation)

  /** A committed journal write: the original that holds the row afterwards, and what was written. */
  datatype Commit = Commit(original: Hash, nonce: int, cancellation: bool, tx: Tx)

  datatype Journal = Journal(pending: Option<PendingRow>, log: seq<Commit>)

  /** Plays arbitrary attempts with arbitrary node replies against an empty journal. */
  function Play(attempts: seq<Attempt>): Journal {
    if attempts == [] then Journal(None, [])
    else
      var before := Play(attempts[..|attempts| - 1]);
      var a := attempts[|attempts| - 1];
      match JournalStep(before.pending, a.tx, a.cancellation, a.retry, a.seen)
      case Err(_) => before
      case Ok(after) =>
        Journal(after, before.log + [Commit(if after.Some? then after.value.hash else Digest(a.tx),
                                            a.tx.nonce, a.cancellation, a.tx)])
  }

  /** What the row remembers of the log is enough to admit only fresh nonces. */
  ghost predicate Remembers(j: Journal) {
    && (j.pending.None? ==> j.log == [])
    && (j.pending.Some? ==>
          && j.pending.value.hash == Digest(j.pending.value.raw) && j.pending.value.nonce == j.pending.value.raw.nonce
          && j.pending.value.cancelHash.Some? == j.pending.value.cancelRaw.Some?
          && (forall c :: c in j.log ==>
                (c.nonce < j.pending.value.nonce
                 || (c.nonce == j.pending.value.nonce && c.original == j.pending.value.hash)))
          && (forall c :: c in j.log && c.cancellation && c.nonce == j.pending.value.nonce ==>
                j.pending.value.cancelRaw.Some?))
  }

  lemma {:induction false} RunsRemember(attempts: seq<Attempt>)
    ensures Remembers(Play(attempts))
  {
    if attempts != [] {
      RunsRemember(attempts[..|attempts| - 1]);
    }
  }

  /** At most one original ever commits per nonce, and a different original only on a larger one. */
  lemma {:induction false} OriginalsHaveIncreasingNonces(attempts: seq<Attempt>, i: nat, j: nat)
    requires i < j < |Play(attempts).log|
    ensures var log := Play(attempts).log;
            log[i].nonce < log[j].nonce || (log[i].nonce == log[j].nonce && log[i].original == log[j].original)
  {
    var front := attempts[..|attempts| - 1];
    RunsRemember(front);
    RunsRemember(attempts);
    if j < |Play(front).log| {
      OriginalsHaveIncreasingNonces(front, i, j);
    } else {
      assert Play(front).log[i] in Play(front).log;
    }
  }

  /** Once a cancellation has committed, no later commit admits the original it cancelled: every later
      original sits on a strictly larger nonce. */
  lemma {:induction false} CancelledOriginalsNeverReturn(attempts: seq<Attempt>, i: nat, j: nat)
    requires i < j < |Play(attempts).log|
    requires Play(attempts).log[i].cancellation && !Play(attempts).log[j].cancellation
    ensures var log := Play(attempts).log;
            log[i].nonce < log[j].nonce && log[i].original != log[j].original && log[j].original == Digest(log[j].tx)
  {
    var front := attempts[..|attempts| - 1];
    RunsRemember(front);
    RunsRemember(attempts);
    if j < |Play(front).log| {
      CancelledOriginalsNeverReturn(front, i, j);
    } else {
      assert Play(front).log[i] in Play(front).log;
      OriginalNonces(attempts, i);
      OriginalNonces(attempts, j);
    }
  }

  /** The nonce in the log is the original's own nonce. */
  lemma {:induction false} OriginalNonces(attempts: seq<Attempt>, i: nat)
    requires i < |Play(attempts).log|
    ensures Play(attempts).log[i].original.preimage.nonce == Play(attempts).log[i].nonce
    ensures !Play(attempts).log[i].cancellation ==> Play(attempts).log[i].original == Digest(Play(attempts).log[i].tx)
  {
    var front := attempts[..|attempts| - 1];
    RunsRemember(front);
    if i < |Play(front).log| {
      OriginalNonces(front, i);
    }
  }
}

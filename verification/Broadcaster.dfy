/** The broadcaster object: its volatile reservation, the commit order of `handle` after signing, and the
    loop of `reconcile`, each tied to the protocol's own steps. */
module BroadcasterService {
  import opened Basics
  import opened Transactions
  import opened RequestLedger
  import opened RequestSafety
  import opened RequestCommits
  import opened RequestStore
  import opened Transport
  import opened Admission
  import opened Protocol
  import opened ProtocolReconcile

  /** What the chain and the fee wallet answer about one row: its receipt if any, whether its nonce is
      consumed, whether its fee arrived (`paid`), and the reply to seal for the requester (`sealed`). */
  datatype Finding = Unreadable
                   | NoReceipt(consumedAt: Option<int>, paid: bool)
                   | Receipt(original: bool, deep: bool, cost: int, minedAt: Option<int>, succeeded: bool,
                             sealed: Option<Cipher>, paid: bool)

  function AssureIfKnown(l: Ledger, key: Key, received: bool): Ledger {
    var r := Assure(l, key, received);
    if r.Ok? then r.value else l
  }

  /** One turn of the reconciliation loop. */
  function ReconcileItem(l: Ledger, item: Row, now: int, f: Finding): Ledger {
    if item.hash.None? then l
    else
      var l0 := Checked(l, item.key, now);
      match f
      case Unreadable => l0
      case NoReceipt(consumedAt, paid) =>
        var l1 := if consumedAt.Some? then Confirm(l0, item.key, item.maxCost, consumedAt.value) else l0;
        if item.confirmed && !item.assured && paid then AssureIfKnown(l1, item.key, true) else l1
      case Receipt(original, deep, cost, minedAt, succeeded, sealed, paid) =>
        if !deep || minedAt.None? then l0
        else
          var l1 := Confirm(l0, item.key, cost, minedAt.value);
          if !original then AssureIfKnown(l1, item.key, false)
          else
            var l2 := if sealed.Some? then Respond(l1, item.key, sealed.value) else l1;
            if succeeded && !item.assured && paid then AssureIfKnown(l2, item.key, true) else l2
  }

  function ReconcileAll(l: Ledger, items: seq<Row>, now: int, findings: seq<Finding>): Ledger
    requires |items| == |findings|
  {
    if items == [] then l
    else
      var n := |items| - 1;
      ReconcileItem(ReconcileAll(l, items[..n], now, findings[..n]), items[n], now, findings[n])
  }

  class Broadcaster {
    var busy: bool
    var activeKey: Option<Key>
    var lastRequests: seq<int>
    var attempts: seq<int>
    const store: Store
    const sender: ProtectedEthereumProvider

    function Value(): Gate
      reads this
    {
      Gate(busy, activeKey, lastRequests, attempts)
    }

    constructor (store: Store, sender: ProtectedEthereumProvider)
      ensures Value() == IDLE && this.store == store && this.sender == sender
    {
      this.store, this.sender := store, sender;
      busy, activeKey, lastRequests, attempts := false, None, [], [];
    }

    /** Runs without an await, so no other invocation can slip between the check and the reservation. */
    method Begin(key: Key, a: Arrival, now: int) returns (v: Verdict)
      modifies this
      ensures (Value(), v) == Admit(old(Value()), store.Value(), key, a, now)
      ensures v.Reserved? <==>
                && old(activeKey) != Some(key)
                && (Get(store.Value(), key).Some? ==>
                      Get(store.Value(), key).value.response.None? && Get(store.Value(), key).value.raw.None?)
                && a.armed && a.parses && a.permitted && a.quoteLive && !old(busy) && !HasPending(store.Value())
                && |Recent(old(attempts), now)| < 300 && |Recent(old(lastRequests), now)| < 30
      ensures v.Reserved? ==> busy && activeKey == Some(key)
      ensures !v.Reserved? ==> busy == old(busy) && activeKey == old(activeKey)
    {
      hide Get, HasPending, Recent;
      if activeKey == Some(key) { return Dropped; }
      var existing := Get(store.Value(), key);
      if existing.Some? && existing.value.response.Some? { return Replay(existing.value.response.value); }
      if existing.Some? && existing.value.raw.Some? { return Refused; }
      var pending := store.HasPendingNow();
      if !a.armed || busy || pending { return Refused; }
      lastRequests := Recent(lastRequests, now);
      attempts := Recent(attempts, now);
      if |attempts| >= MAX_ATTEMPTS { return Refused; }
      attempts := attempts + [now];
      if |lastRequests| >= MAX_REQUESTS || !a.parses || !a.permitted || !a.quoteLive { return Refused; }
      busy, activeKey := true, Some(key);
      return Reserved;
    }

    /** From the signature to the reply: the request journal commits before the transport journal, which
        commits before publication, and a request that may have been published keeps its signed bytes. */
    method SignAndSubmit(e: Entry, budget: int, elapsed: int, checkedAt: int, now: int, seen: Option<Observation>,
                         acknowledged: bool, done: Cipher, unknown: Cipher)
      returns (submitted: bool)
      requires sender.Valid()
      modifies this, store, sender
      ensures sender.Valid() && Value() == Release(RecordSigning(old(Value()), elapsed))
      ensures var publishes := Sign(old(store.Value()), e, budget, checkedAt, now).Ok?
                               && Publishes(sender.terms, old(sender.pending), e.raw, false, None, seen);
              && sender.published == old(sender.published) + (if publishes then [e.raw] else [])
              && (if publishes then JournalStep(old(sender.pending), e.raw, false, None, seen.value)
                  == Ok(sender.pending)
                  else sender.pending == old(sender.pending))
              && submitted == (publishes && acknowledged)
      ensures match Sign(old(store.Value()), e, budget, checkedAt, now)
              case Ok(l) => store.Value() == RequestLedger.Respond(l, e.key, if submitted then done else unknown)
              case Err(_) => store.Value() == AnswerKnown(old(store.Value()), e.key, unknown)
      ensures Sign(old(store.Value()), e, budget, checkedAt, now).Err? ==>
        var known := Get(old(store.Value()), e.key);
        if known.Some? && known.value.raw.Some? then
          OnlyRow(old(store.Value()), store.Value(), e.key, known.value.(response := Some(unknown)))
        else store.Value() == old(store.Value())
    {
      hide OnlyRow;
      WritesStore(store.Value(), e.key, unknown, 0, 0, 0);
      lastRequests := lastRequests + [elapsed];
      submitted := false;
      var signed := store.Signed(e, budget, checkedAt, now);
      if signed.Ok? {
        var sent := sender.SendProtected(e.raw, false, None, seen, acknowledged);
        submitted := sent.Ok?;
      }
      if submitted {
        store.Respond(e.key, done);
      } else {
        var journaled := Get(store.Value(), e.key);
        if journaled.Some? && journaled.value.raw.Some? {
          store.Respond(e.key, unknown);
        }
      }
      if signed.Ok? {
        SignedIsKnown(old(store.Value()), e, budget, checkedAt, now);
      }
      busy, activeKey := false, None;
    }

    /** The unresolved rows are read once; each is then settled as far as its finding allows. */
    method Reconcile(now: int, findings: seq<Finding>)
      requires |findings| == |Pending(store.Value())|
      modifies store
      ensures store.Value() == ReconcileAll(old(store.Value()), Pending(old(store.Value())), now, findings)
      ensures WellFormed(old(store.Value())) && !Open(old(store.Value())) ==> store.Value() == old(store.Value())
      ensures WellFormed(old(store.Value())) && Open(old(store.Value())) ==>
        && |findings| == 1 && OthersKept(old(store.Value()), store.Value())
        && Settles(Last(old(store.Value())), Last(store.Value()), now, findings[0])
        && (Concludes(Last(old(store.Value())), findings[0]) <==> !HasPending(store.Value()))
    {
      hide Settles, Concludes, OthersKept, ReconcileItem, WellFormed, Open, Pending, HasPending;
      if WellFormed(store.Value()) { ReconcileSettles(store.Value(), now, findings); }
      var items := Pending(store.Value());
      for i := 0 to |items|
        invariant store.Value() == ReconcileAll(old(store.Value()), items[..i], now, findings[..i])
      {
        assert items[..i + 1][..i] == items[..i] && findings[..i + 1][..i] == findings[..i];
        ReconcileOne(items[i], now, findings[i]);
      }
      assert items[..|items|] == items && findings[..|items|] == findings;
    }

    method ReconcileOne(item: Row, now: int, f: Finding)
      modifies store
      ensures store.Value() == ReconcileItem(old(store.Value()), item, now, f)
    {
      if item.hash.None? { return; }
      store.CheckedAt(item.key, now);
      match f
      case Unreadable =>
      case NoReceipt(consumedAt, paid) =>
        if consumedAt.Some? {
          store.Confirmed(item.key, item.maxCost, consumedAt.value);
        }
        if item.confirmed && !item.assured && paid {
          var _ := store.Assured(item.key, true);
        }
      case Receipt(original, deep, cost, minedAt, succeeded, sealed, paid) =>
        if deep && minedAt.Some? {
          store.Confirmed(item.key, cost, minedAt.value);
          if !original {
            var _ := store.Assured(item.key, false);
          } else {
            if sealed.Some? {
              store.Respond(item.key, sealed.value);
            }
            if succeeded && !item.assured && paid {
              var _ := store.Assured(item.key, true);
            }
          }
        }
    }
  }

  // ---------------------------------------------------------------- what a reconciliation leaves behind

  /** Every row but the newest, the resolutions and the pilot are as they were. */
  ghost predicate OthersKept(l: Ledger, l': Ledger) {
    && l.rows != [] && |l'.rows| == |l.rows| && l'.rows[..|l.rows| - 1] == l.rows[..|l.rows| - 1]
    && l'.resolutions == l.resolutions && l'.pilot == l.pilot
  }

  /** What each finding makes of the open row. */
  predicate Settles(a: Row, b: Row, now: int, f: Finding) {
    match f
    // nothing could be read: only the check stamp
    case Unreadable => b == a.(checkedAt := now)
    // no receipt: a consumed nonce confirms at the reserved maximum, and a fee can still arrive for a confirmed row
    case NoReceipt(consumedAt, paid) =>
      && b == a.(checkedAt := now, confirmed := b.confirmed, actualCost := b.actualCost, minedAt := b.minedAt,
                 assured := b.assured, settlement := b.settlement)
      && (consumedAt.Some? ==> b.confirmed && b.actualCost == Some(a.maxCost) && b.minedAt == consumedAt)
      && (consumedAt.None? ==> b.confirmed == a.confirmed && b.actualCost == a.actualCost && b.minedAt == a.minedAt)
      && (a.confirmed && paid ==> b.assured && b.settlement == Some(FeeReceived))
      && (!(a.confirmed && paid) ==> b.assured == a.assured && b.settlement == a.settlement)
    // a receipt two blocks deep confirms at its cost and time; a mined cancellation settles, and so does an original
    // that succeeded and whose fee arrived, confirmed before or not
    case Receipt(original, deep, cost, minedAt, succeeded, sealed, paid) =>
      if !deep || minedAt.None? then b == a.(checkedAt := now)
      else
        && b == a.(checkedAt := now, confirmed := true, actualCost := Some(cost), minedAt := minedAt,
                   response := b.response, assured := b.assured, settlement := b.settlement)
        && b.response == (if original && sealed.Some? then sealed else a.response)
        && (!original ==> b.assured && b.settlement == Some(Cancelled))
        && (original && succeeded && paid ==> b.assured && b.settlement == Some(FeeReceived))
        && (original && !(succeeded && paid) ==> b.assured == a.assured && b.settlement == a.settlement)
  }

  /** The findings after which nothing is unresolved. */
  predicate Concludes(a: Row, f: Finding) {
    match f
    case Unreadable => false
    case NoReceipt(_, paid) => a.confirmed && paid
    case Receipt(original, deep, _, minedAt, succeeded, _, paid) =>
      deep && minedAt.Some? && (!original || (succeeded && paid))
  }

  lemma ReplacedLast(l: Ledger, row: Row, change: Row -> Row)
    requires l.rows != [] && UniqueKeys(l.rows) && row.key == Last(l).key
    ensures var l' := l.(rows := l.rows[..|l.rows| - 1] + [row]);
            Update(l', row.key, change) == l.(rows := l.rows[..|l.rows| - 1] + [change(row)])
  {
    var base := l.(rows := l.rows[..|l.rows| - 1]);
    LastRow(base, row, change);
  }

  lemma OneReconciled(l: Ledger, item: Row, now: int, f: Finding)
    ensures ReconcileAll(l, [item], now, [f]) == ReconcileItem(l, item, now, f)
  {
    hide ReconcileItem;
    assert [item][..0] == [] && [f][..0] == [];
    assert ReconcileAll(l, [], now, []) == l;
  }

  /** The row that each step of a turn leaves, written out. */
  function Turned(a: Row, now: int, f: Finding): Row {
    var a0 := a.(checkedAt := now);
    match f
    case Unreadable => a0
    case NoReceipt(consumedAt, paid) =>
      var a1 := if consumedAt.Some?
                then a0.(confirmed := true, actualCost := Some(a.maxCost), minedAt := consumedAt) else a0;
      if a.confirmed && !a.assured && paid then a1.(assured := true, settlement := Some(FeeReceived)) else a1
    case Receipt(original, deep, cost, minedAt, succeeded, sealed, paid) =>
      if !deep || minedAt.None? then a0
      else
        var a1 := a0.(confirmed := true, actualCost := Some(cost), minedAt := minedAt);
        if !original then a1.(assured := true, settlement := Some(Cancelled))
        else
          var a2 := if sealed.Some? then a1.(response := sealed) else a1;
          if succeeded && !a.assured && paid then a2.(assured := true, settlement := Some(FeeReceived)) else a2
  }

  /** The ledger with another newest row. */
  function WithLast(l: Ledger, row: Row): Ledger
    requires l.rows != []
  {
    l.(rows := l.rows[..|l.rows| - 1] + [row])
  }

  lemma TurnCommits(l: Ledger, row: Row, now: int, cost: int, minedAt: int, answer: Cipher, received: bool)
    requires l.rows != [] && UniqueKeys(l.rows) && row.key == Last(l).key
    ensures Checked(WithLast(l, row), row.key, now) == WithLast(l, row.(checkedAt := now))
    ensures Confirm(WithLast(l, row), row.key, cost, minedAt)
            == WithLast(l, row.(confirmed := true, actualCost := Some(cost), minedAt := Some(minedAt)))
    ensures Respond(WithLast(l, row), row.key, answer) == WithLast(l, row.(response := Some(answer)))
    ensures AssureIfKnown(WithLast(l, row), row.key, received)
            == WithLast(l, row.(assured := true, settlement := Some(if received then FeeReceived else Cancelled)))
  {
    hide IndexOf;
    ReplacedLast(l, row, (r: Row) => r.(checkedAt := now));
    ReplacedLast(l, row, (r: Row) => r.(confirmed := true, actualCost := Some(cost), minedAt := Some(minedAt)));
    ReplacedLast(l, row, (r: Row) => r.(response := Some(answer)));
    ReplacedLast(l, row, (r: Row) =>
      r.(assured := true, settlement := Some(if received then FeeReceived else Cancelled)));
    LastKnown(l.(rows := l.rows[..|l.rows| - 1]), row);
  }

  lemma TurnIsTurned(l: Ledger, now: int, f: Finding)
    requires l.rows != [] && UniqueKeys(l.rows) && Last(l).hash.Some?
    ensures ReconcileItem(l, Last(l), now, f) == WithLast(l, Turned(Last(l), now, f))
  {
    hide Checked, Confirm, Respond, AssureIfKnown, UniqueKeys;
    var a := Last(l);
    assert WithLast(l, a) == l;
    var a0 := a.(checkedAt := now);
    TurnCommits(l, a, now, 0, 0, "", true);
    match f
    case Unreadable =>
    case NoReceipt(consumedAt, paid) =>
      TurnCommits(l, a0, now, a.maxCost, consumedAt.GetOr(0), "", true);
      TurnCommits(l, if consumedAt.Some? then a0.(confirmed := true, actualCost := Some(a.maxCost),
                                                  minedAt := consumedAt)
                     else a0, now, 0, 0, "", true);
    case Receipt(original, deep, cost, minedAt, succeeded, sealed, paid) =>
      TurnCommits(l, a0, now, cost, minedAt.GetOr(0), "", true);
      var a1 := a0.(confirmed := true, actualCost := Some(cost), minedAt := minedAt);
      TurnCommits(l, a1, now, 0, 0, sealed.GetOr(""), false);
      TurnCommits(l, if sealed.Some? then a1.(response := sealed) else a1, now, 0, 0, "", true);
  }

  lemma TurnedSettles(l: Ledger, now: int, f: Finding)
    requires WellFormed(l) && Open(l)
    ensures var l' := WithLast(l, Turned(Last(l), now, f));
            && OthersKept(l, l') && Settles(Last(l), Last(l'), now, f)
            && (Concludes(Last(l), f) <==> !Unresolved(Last(l'), l'.resolutions))
  {
    assert RowOk(Last(l));
    assert Last(l).key !in l.resolutions;
  }

  /** From a well-formed journal, whatever its open row has been through. */
  lemma ReconcileSettles(l: Ledger, now: int, findings: seq<Finding>)
    requires WellFormed(l) && |findings| == |Pending(l)|
    ensures var l' := ReconcileAll(l, Pending(l), now, findings);
            if !Open(l) then l' == l
            else
              && |findings| == 1 && OthersKept(l, l') && Settles(Last(l), Last(l'), now, findings[0])
              && (Concludes(Last(l), findings[0]) <==> !HasPending(l'))
  {
    hide Settles, Concludes, ReconcileItem, Turned;
    PendingIsComplete(l);
    if Open(l) {
      assert findings == [findings[0]];
      assert RowOk(Last(l));
      OneReconciled(l, Last(l), now, findings[0]);
      TurnIsTurned(l, now, findings[0]);
      TurnedSettles(l, now, findings[0]);
      OnlyLastPending(l, WithLast(l, Turned(Last(l), now, findings[0])));
    }
  }

  lemma OnlyLastPending(l: Ledger, l': Ledger)
    requires WellFormed(l) && OthersKept(l, l')
    ensures HasPending(l') <==> Unresolved(Last(l'), l'.resolutions)
  {
    hide RowOk, Unresolved;
    forall i | 0 <= i < |l.rows| - 1
      ensures !Unresolved(l'.rows[i], l'.resolutions)
    {
      assert l'.rows[i] == l'.rows[..|l.rows| - 1][i] == l.rows[i];
    }
  }

  lemma SignedIsKnown(l: Ledger, e: Entry, budget: int, checkedAt: int, now: int)
    requires Sign(l, e, budget, checkedAt, now).Ok?
    ensures Get(Sign(l, e, budget, checkedAt, now).value, e.key) == Some(NewRow(e, now))
  {}

  // ---------------------------------------------------------------- a turn of the loop is protocol steps

  /** The protocol steps that one finding stands for, in order. */
  function Turn(c: Config, s: System, item: Row, now: int, f: Finding): System {
    var s1 := Apply(c, s, ReconcileNext(now));
    match f
    case Unreadable => Apply(c, s1, ReconcileSkip)
    case NoReceipt(consumedAt, paid) =>
      Apply(c, Apply(c, s1, ReconcileNonce(consumedAt.Some?, consumedAt.GetOr(0))),
            Closing(item.confirmed && !item.assured && paid))
    case Receipt(original, deep, cost, minedAt, succeeded, sealed, paid) =>
      if !deep || minedAt.None? then Apply(c, s1, ReconcileSkip)
      else
        var s2 := Apply(c, s1, ReconcileReceipt(original, succeeded, cost, minedAt.value));
        var s3 := if original && sealed.Some? then Apply(c, s2, ReconcileAnswer(sealed.value)) else s2;
        Apply(c, s3, Closing(!original || (succeeded && !item.assured && paid)))
  }

  function Closing(settles: bool): Step {
    if settles then ReconcileSettle else ReconcileSkip
  }

  /** The receipts that the chain can produce for this row. */
  predicate Plausible(item: Row, f: Finding) {
    f.Receipt? && f.deep && f.minedAt.Some? ==> WithinCap(if f.original then item.raw else item.cancelRaw, f.cost)
  }

  lemma ReconcileDispatch(c: Config, s: System, step: Step)
    requires s.mode.Serving? && IsReconcile(step)
    ensures Apply(c, s, step) == DoReconcile(s, step)
  {
    hide DoReconcile;
  }

  lemma UpdateKeepsKey(l: Ledger, key: Key, change: Row -> Row)
    requires Get(l, key).Some? && forall r :: change(r).key == r.key
    ensures Get(Update(l, key, change), key).Some?
  {
    var i := IndexOf(l.rows, key).value;
    var rows' := Update(l, key, change).rows;
    assert rows'[i].key == key;
  }

  lemma KeysSurvive(l: Ledger, key: Key, now: int, cost: int, minedAt: int, answer: Cipher)
    requires Get(l, key).Some?
    ensures var l0 := Checked(l, key, now);
            var l1 := Confirm(l0, key, cost, minedAt);
            Get(l0, key).Some? && Get(l1, key).Some? && Get(Respond(l1, key, answer), key).Some?
  {
    hide IndexOf;
    var l0 := Checked(l, key, now);
    UpdateKeepsKey(l, key, (r: Row) => r.(checkedAt := now));
    UpdateKeepsKey(l0, key, (r: Row) => r.(confirmed := true, actualCost := Some(cost), minedAt := Some(minedAt)));
    UpdateKeepsKey(Confirm(l0, key, cost, minedAt), key, (r: Row) => r.(response := Some(answer)));
  }

  /** What the four kinds of reconciliation step do to the ledger and to the reconciliation, when they are enabled. */
  lemma NextResult(c: Config, s: System, now: int)
    requires s.mode.Serving? && s.mode.reconciliation.Queue? && s.mode.reconciliation.todo != []
             && s.mode.reconciliation.todo[0].hash.Some? && s.clock <= now
    ensures var item := s.mode.reconciliation.todo[0];
            Apply(c, s, ReconcileNext(now))
            == s.(clock := now, ledger := Checked(s.ledger, item.key, now),
                  mode := s.mode.(reconciliation := Examining(item, s.mode.reconciliation.todo[1..])))
  {
    ReconcileDispatch(c, s, ReconcileNext(now));
  }

  lemma ReceiptResult(c: Config, s: System, original: bool, succeeded: bool, cost: int, minedAt: int)
    requires s.mode.Serving? && s.mode.reconciliation.Examining?
    requires WithinCap(if original then s.mode.reconciliation.item.raw else s.mode.reconciliation.item.cancelRaw, cost)
    ensures var Examining(item, todo) := s.mode.reconciliation;
            Apply(c, s, ReconcileReceipt(original, succeeded, cost, minedAt))
            == s.(ledger := Confirm(s.ledger, item.key, cost, minedAt),
                  mode := s.mode.(reconciliation := AfterReceipt(item, original, succeeded, todo)))
  {
    ReconcileDispatch(c, s, ReconcileReceipt(original, succeeded, cost, minedAt));
  }

  lemma NonceResult(c: Config, s: System, consumed: bool, minedAt: int)
    requires s.mode.Serving? && s.mode.reconciliation.Examining?
    ensures var Examining(item, todo) := s.mode.reconciliation;
            Apply(c, s, ReconcileNonce(consumed, minedAt))
            == s.(ledger := if consumed then Confirm(s.ledger, item.key, item.maxCost, minedAt) else s.ledger,
                  mode := s.mode.(reconciliation := AfterNonce(item, todo)))
  {
    ReconcileDispatch(c, s, ReconcileNonce(consumed, minedAt));
  }

  lemma AnswerResult(c: Config, s: System, answer: Cipher)
    requires s.mode.Serving? && s.mode.reconciliation.AfterReceipt? && s.mode.reconciliation.original
    ensures Apply(c, s, ReconcileAnswer(answer))
            == s.(ledger := Respond(s.ledger, s.mode.reconciliation.item.key, answer))
  {
    ReconcileDispatch(c, s, ReconcileAnswer(answer));
  }

  lemma ClosingResult(c: Config, s: System, settles: bool)
    requires s.mode.Serving? && (s.mode.reconciliation.AfterReceipt? || s.mode.reconciliation.AfterNonce?)
    requires Get(s.ledger, s.mode.reconciliation.item.key).Some?
    requires settles && s.mode.reconciliation.AfterReceipt? && s.mode.reconciliation.original ==>
               s.mode.reconciliation.succeeded && !s.mode.reconciliation.item.assured
    requires settles && s.mode.reconciliation.AfterNonce? ==>
               s.mode.reconciliation.item.confirmed && !s.mode.reconciliation.item.assured
    ensures Apply(c, s, Closing(settles))
            == s.(ledger := if settles
                            then AssureIfKnown(s.ledger, s.mode.reconciliation.item.key,
                                               s.mode.reconciliation.AfterNonce? || s.mode.reconciliation.original)
                            else s.ledger,
                  mode := s.mode.(reconciliation := Queue(s.mode.reconciliation.todo)))
  {
    ReconcileDispatch(c, s, Closing(settles));
  }

  /** Every turn of the loop is those protocol steps, so it inherits what all runs keep. */
  lemma TurnIsProtocolSteps(c: Config, s: System, now: int, f: Finding)
    requires s.mode.Serving? && s.mode.reconciliation.Queue? && s.mode.reconciliation.todo != [] && s.clock <= now
    requires var item := s.mode.reconciliation.todo[0];
             item.hash.Some? && Plausible(item, f) && Get(s.ledger, item.key).Some?
    ensures var item := s.mode.reconciliation.todo[0];
            Turn(c, s, item, now, f)
            == s.(clock := now, ledger := ReconcileItem(s.ledger, item, now, f),
                  mode := s.mode.(reconciliation := Queue(s.mode.reconciliation.todo[1..])))
  {
    hide IndexOf, Exposure, WithinCap, Apply, Checked, Confirm, Respond, Assure;
    var item, todo := s.mode.reconciliation.todo[0], s.mode.reconciliation.todo[1..];
    NextResult(c, s, now);
    var s1 := Apply(c, s, ReconcileNext(now));
    match f
    case Unreadable => SkipResult(c, s1);
    case NoReceipt(consumedAt, paid) =>
      KeysSurvive(s.ledger, item.key, now, item.maxCost, consumedAt.GetOr(0), "");
      NonceResult(c, s1, consumedAt.Some?, consumedAt.GetOr(0));
      ClosingResult(c, Apply(c, s1, ReconcileNonce(consumedAt.Some?, consumedAt.GetOr(0))), item.confirmed
                    && !item.assured && paid);
    case Receipt(original, deep, cost, minedAt, succeeded, sealed, paid) =>
      if !deep || minedAt.None? {
        SkipResult(c, s1);
      } else {
        KeysSurvive(s.ledger, item.key, now, cost, minedAt.value, sealed.GetOr(""));
        ReceiptResult(c, s1, original, succeeded, cost, minedAt.value);
        var s2 := Apply(c, s1, ReconcileReceipt(original, succeeded, cost, minedAt.value));
        var settles := !original || (succeeded && !item.assured && paid);
        if original && sealed.Some? {
          AnswerResult(c, s2, sealed.value);
          ClosingResult(c, Apply(c, s2, ReconcileAnswer(sealed.value)), settles);
        } else {
          ClosingResult(c, s2, settles);
        }
      }
  }

  lemma SkipResult(c: Config, s: System)
    requires s.mode.Serving? && s.mode.reconciliation.Examining?
    ensures Apply(c, s, ReconcileSkip) == s.(mode := s.mode.(reconciliation := Queue(s.mode.reconciliation.todo)))
  {
    ReconcileDispatch(c, s, ReconcileSkip);
  }

  // ---------------------------------------------------------------- a submission is protocol steps

  /** The invocation may be signed for: it holds the reservation of this key, and the entry describes its payload. */
  predicate Ready(s: System, id: nat, e: Entry, checkedAt: int, now: int) {
    && s.mode.Serving? && id in s.mode.calls && s.mode.calls[id] == Holding(e.key)
    && e.hash == Digest(e.raw) && e.nonce == e.raw.nonce && e.cost == CapCost(e.raw) && s.clock <= checkedAt <= now
  }

  lemma SignResult(c: Config, s: System, id: nat, e: Entry, checkedAt: int, now: int, elapsed: int)
    requires Ready(s, id, e, checkedAt, now) && Sign(s.ledger, e, c.budget, checkedAt, now).Ok?
    ensures Apply(c, s, SignRequest(id, e, checkedAt, now, elapsed))
            == s.(ledger := Sign(s.ledger, e, c.budget, checkedAt, now).value, clock := now,
                  admitted := s.admitted + [checkedAt], issued := s.issued + [Issue(e.key, e.raw)],
                  mode := s.mode.(gate := RecordSigning(s.mode.gate, elapsed),
                                  calls := s.mode.calls[id := Journaled(e.key, e.raw)]))
  {
    hide Sign;
  }

  lemma StageResult(c: Config, s: System, id: nat, seen: Observation)
    requires s.mode.Serving? && id in s.mode.calls && s.mode.calls[id].Journaled?
    requires Publishes(c.terms, s.transport, s.mode.calls[id].tx, false, None, Some(seen))
    ensures var Journaled(key, tx) := s.mode.calls[id];
            Apply(c, s, StageRequest(id, seen))
            == s.(transport := JournalStep(s.transport, tx, false, None, seen).value,
                  mode := s.mode.(calls := s.mode.calls[id := Staged(key, tx)]))
  {
    hide Accepts, JournalStep;
  }

  lemma FinishResult(c: Config, s: System, id: nat, answer: Cipher, step: Step)
    requires s.mode.Serving? && id in s.mode.calls && Holds(s.mode.calls[id])
    requires step == Fail(id, answer) || (step == Succeed(id, answer) && s.mode.calls[id].Sent?)
    ensures Apply(c, s, step)
            == s.(ledger := AnswerKnown(s.ledger, s.mode.calls[id].key, answer),
                  mode := s.mode.(gate := Release(s.mode.gate), calls := s.mode.calls - {id}))
  {
    hide AnswerKnown;
  }

  /** What `SignAndSubmit` does when it publishes is four protocol steps, and what it does when it stops after its
      signature is two; both leave the ledger, the reservation and the bytes that its contract states. */
  lemma SubmissionIsProtocolSteps(c: Config, s: System, id: nat, e: Entry, checkedAt: int, now: int, elapsed: int,
                                  seen: Option<Observation>, acknowledged: bool, done: Cipher, unknown: Cipher)
    requires Ready(s, id, e, checkedAt, now) && Sign(s.ledger, e, c.budget, checkedAt, now).Ok?
    ensures var publishes := Publishes(c.terms, s.transport, e.raw, false, None, seen);
            var l := Sign(s.ledger, e, c.budget, checkedAt, now).value;
            var gate := Release(RecordSigning(s.mode.gate, elapsed));
            var s1 := Apply(c, s, SignRequest(id, e, checkedAt, now, elapsed));
            var s2 := if publishes then Apply(c, Apply(c, s1, StageRequest(id, seen.value)), Submit(id)) else s1;
            var answer := if publishes && acknowledged then done else unknown;
            var s3 := Apply(c, s2, if publishes && acknowledged then Succeed(id, answer) else Fail(id, answer));
            && s3.ledger == RequestLedger.Respond(l, e.key, answer)
            && s3.published == s.published + (if publishes then [e.raw] else [])
            && s3.transport == (if publishes then JournalStep(s.transport, e.raw, false, None, seen.value).value
                                else s.transport)
            && s3.clock == now && s3.admitted == s.admitted + [checkedAt]
            && s3.mode == s.mode.(gate := gate, calls := s.mode.calls - {id})
  {
    hide Apply, Sign, Accepts, JournalStep, IndexOf;
    SignResult(c, s, id, e, checkedAt, now, elapsed);
    SignedIsKnown(s.ledger, e, c.budget, checkedAt, now);
    var s1 := Apply(c, s, SignRequest(id, e, checkedAt, now, elapsed));
    assert (s.mode.calls[id := Journaled(e.key, e.raw)] - {id}) == s.mode.calls - {id};
    if Publishes(c.terms, s.transport, e.raw, false, None, seen) {
      StageResult(c, s1, id, seen.value);
      SubmitResult(c, Apply(c, s1, StageRequest(id, seen.value)), id);
      var s2 := Apply(c, Apply(c, s1, StageRequest(id, seen.value)), Submit(id));
      assert s2.mode.calls - {id} == s.mode.calls - {id};
      FinishResult(c, s2, id, done, Succeed(id, done));
      FinishResult(c, s2, id, unknown, Fail(id, unknown));
    } else {
      FinishResult(c, s1, id, unknown, Fail(id, unknown));
    }
  }

  /** A refused signature stamps the rate and ends the invocation: two protocol steps as well. */
  lemma RefusedSigningIsProtocolSteps(c: Config, s: System, id: nat, e: Entry, checkedAt: int, now: int, elapsed: int,
                                      unknown: Cipher)
    requires Ready(s, id, e, checkedAt, now) && Sign(s.ledger, e, c.budget, checkedAt, now).Err?
    ensures Apply(c, Apply(c, s, SignRequest(id, e, checkedAt, now, elapsed)), Fail(id, unknown))
            == s.(ledger := AnswerKnown(s.ledger, e.key, unknown),
                  mode := s.mode.(gate := Release(RecordSigning(s.mode.gate, elapsed)), calls := s.mode.calls - {id}))
  {
    hide Sign, AnswerKnown;
    var s1 := Apply(c, s, SignRequest(id, e, checkedAt, now, elapsed));
    assert s1 == s.(mode := s.mode.(gate := RecordSigning(s.mode.gate, elapsed)));
    FinishResult(c, s1, id, unknown, Fail(id, unknown));
  }

  lemma SubmitResult(c: Config, s: System, id: nat)
    requires s.mode.Serving? && id in s.mode.calls && s.mode.calls[id].Staged?
    ensures var Staged(key, tx) := s.mode.calls[id];
            Apply(c, s, Submit(id))
            == s.(published := s.published + [tx], submitted := s.submitted + [key],
                  mode := s.mode.(calls := s.mode.calls[id := Sent(key, tx)]))
  {
  }
}

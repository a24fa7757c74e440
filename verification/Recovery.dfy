/** `recover` as the operator runs it, on the two journal objects: every refusal leaves both untouched up
    to the last commit, and a success leaves the transport level with the request. */
module Recovery {
  import opened Basics
  import opened Transactions
  import opened RequestLedger
  import opened RequestCommits
  import opened RequestSafety
  import opened RequestStore
  import opened Transport
  import opened Protocol

  datatype Command = RetryCommand | CancelCommand

  /** The fresh block that recovery reads, with the operator's nonces and balance there. */
  datatype Head = Head(baseFee: int, latest: int, confirmed: int, balance: int)

  datatype RecoveryError = NotExactlyOne | RetryBlocked | Incomplete | Inconsistent | StaleNode | NonceConsumed
                         | JournalsDisagree | BadArguments | NotOutbid | OverLimits | OverBudget | Expired
                         | TraceFailed | StoreRefused | TransportRefused

  predicate CheckLimits(gas: int, price: int, tip: int, base: int, balance: int, limits: Limits) {
    && 0 < gas <= MAX_GAS && 0 < tip <= price && base + tip <= price && price <= limits.maxGasPrice
    && gas * price <= limits.maxTransactionCost && gas * price + limits.reserve <= balance && limits.dailyBudget != 0
  }

  function CancellationOf(operator: Address, nonce: nat, maxFee: int, maxTip: int): Tx {
    Tx(Some(operator), Some(operator), 1, 0, nonce, CANCEL_GAS, 2, [], Some(maxFee), Some(maxTip), None, [], None)
  }

  /** Recovery's own limits already imply the transport's rules, so a cancellation that was stored is never
      refused as malformed afterwards. */
  lemma LimitsImplyAcceptance(terms: Terms, nonce: nat, maxFee: int, maxTip: int, base: int, balance: int,
                              limits: Limits)
    requires CheckLimits(CANCEL_GAS, maxFee, maxTip, base, balance, limits)
    ensures Accepts(terms, CancellationOf(terms.operator, nonce, maxFee, maxTip), true)
  {}

  /** The one row that recovery acts on. */
  function ChosenRow(l: Ledger): (item: Option<Row>) {
    var rows := Unconfirmed(l.rows);
    if |rows| == 1 then Get(l, rows[0].key) else None
  }

  predicate OnlyUnconfirmed(rows: seq<Row>, i: nat) {
    i < |rows| && forall k :: 0 <= k < |rows| ==> (k == i <==> !rows[k].confirmed)
  }

  lemma {:induction false} UnconfirmedIs(rows: seq<Row>)
    ensures Unconfirmed(rows) == [] <==> forall k :: 0 <= k < |rows| ==> rows[k].confirmed
    ensures |Unconfirmed(rows)| == 1 <==> exists i: nat :: OnlyUnconfirmed(rows, i)
    ensures forall i: nat :: OnlyUnconfirmed(rows, i) ==> Unconfirmed(rows) == [rows[i]]
  {
    if rows != [] {
      var front, n := rows[..|rows| - 1], |rows| - 1;
      UnconfirmedIs(front);
      forall i: nat
        ensures OnlyUnconfirmed(rows, i) <==>
                  if rows[n].confirmed then OnlyUnconfirmed(front, i) else i == n && Unconfirmed(front) == []
      {
        if OnlyUnconfirmed(rows, i) && i < n { assert rows[n].confirmed && OnlyUnconfirmed(front, i); }
      }
      if !rows[n].confirmed && Unconfirmed(front) == [] { assert OnlyUnconfirmed(rows, n); }
      if rows[n].confirmed && |Unconfirmed(front)| == 1 {
        var i: nat :| OnlyUnconfirmed(front, i);
        assert OnlyUnconfirmed(rows, i);
      }
    }
  }

  /** Recovery acts exactly when one row alone is unconfirmed, and on that row. */
  lemma ChosenIsTheOnly(l: Ledger, i: nat)
    requires UniqueKeys(l.rows)
    ensures ChosenRow(l).Some? <==> exists n: nat :: OnlyUnconfirmed(l.rows, n)
    ensures OnlyUnconfirmed(l.rows, i) ==> ChosenRow(l) == Some(l.rows[i])
  {
    hide Unconfirmed, IndexOf;
    UnconfirmedIs(l.rows);
    if n: nat :| OnlyUnconfirmed(l.rows, n) {
      IndexOfUnique(l.rows, n);
      if OnlyUnconfirmed(l.rows, i) { assert !l.rows[i].confirmed; }
    }
  }

  // ---------------------------------------------------------------- when recovery goes through

  function PayloadOf(operator: Address, item: Row, command: Command, args: Option<(int, int)>): Option<Tx> {
    if command.RetryCommand? then Current(item)
    else if item.raw.Some? && args.Some? then Some(CancellationOf(operator, item.raw.value.nonce, args.value.0,
                                                                  args.value.1))
    else None
  }

  /** The record is complete and signed by the operator, its nonce is the next one and not yet confirmed, and the
      transport holds this request or an older one. */
  predicate Intact(operator: Address, item: Row, head: Head, t: Option<PendingRow>) {
    && item.raw.Some? && item.hash == Some(Digest(item.raw.value))
    && item.raw.value.sender == Some(operator) && item.raw.value.nonce == item.nonce && item.raw.value.chainId == 1
    && head.latest == item.nonce == head.confirmed
    && (t.Some? ==> (Some(t.value.hash) == item.hash && t.value.nonce == item.nonce) || t.value.nonce < item.nonce)
  }

  /** A retry takes no arguments and repeats an original only while its quote lives; its payload still fits the
      price, cost and balance limits, the budget and the execution trace. */
  predicate RetryPermitted(limits: Limits, l: Ledger, item: Row, args: Option<(int, int)>, head: Head, now: int,
                           traced: bool)
    requires item.raw.Some?
  {
    var tx := Current(item).value;
    && args.None? && (item.cancelRaw.Some? || now < item.feeExpiration)
    && CheckLimits(tx.gasLimit, FeeCap(tx), tx.maxPriorityFeePerGas.GetOr(1), head.baseFee, head.balance, limits)
    && Exposure(l, now) <= limits.dailyBudget && traced
  }

  /** A cancel names two prices that beat both signed ones, within the limits and the budget. */
  predicate CancelPermitted(limits: Limits, operator: Address, l: Ledger, item: Row, args: Option<(int, int)>,
                            head: Head, now: int)
    requires item.raw.Some?
  {
    && args.Some? && 0 < args.value.0 && 0 < args.value.1
    && args.value.0 > FeeCap(Current(item).value) && args.value.1 > TipCap(Current(item).value)
    && CheckLimits(CANCEL_GAS, args.value.0, args.value.1, head.baseFee, head.balance, limits)
    && Exposure(l, now) + Max(0, CANCEL_GAS * args.value.0 - item.maxCost) <= limits.dailyBudget
    && Stored(limits, operator, l, item, args.value, now).Ok?
  }

  function Stored(limits: Limits, operator: Address, l: Ledger, item: Row, prices: (int, int),
                  now: int): Result<Ledger, StoreError>
    requires item.raw.Some?
  {
    var tx := CancellationOf(operator, item.raw.value.nonce, prices.0, prices.1);
    Cancel(l, item.key, tx, Digest(tx), CapCost(tx), limits.dailyBudget, now)
  }

  /** The request is already in the transport, or can be staged there. */
  predicate Levels(terms: Terms, item: Row, t: Option<PendingRow>, seen1: Option<Observation>)
    requires item.raw.Some?
  {
    (t.Some? && Some(t.value.hash) == item.hash) || Stages(terms, t, item.raw.value, false, None, seen1)
  }

  /** What the transport then holds. */
  function Level(terms: Terms, item: Row, t: Option<PendingRow>, seen1: Option<Observation>): Option<PendingRow>
    requires item.raw.Some? && Levels(terms, item, t, seen1)
  {
    if t.Some? && Some(t.value.hash) == item.hash then t
    else JournalStep(t, item.raw.value, false, None, seen1.value).value
  }

  /** The transport takes the request and publishes the payload, or its own bytes when the request has no
      cancellation. */
  predicate Sends(terms: Terms, item: Row, t: Option<PendingRow>, cancelling: bool, payload: Tx,
                  seen1: Option<Observation>,
                  seen2: Option<Observation>)
    requires item.raw.Some?
  {
    Levels(terms, item, t, seen1) &&
    if cancelling then Publishes(terms, Level(terms, item, t, seen1), payload, true, None, seen2)
    else Resends(terms, Level(terms, item, t, seen1), seen2)
  }

  function Sent(terms: Terms, item: Row, t: Option<PendingRow>, cancelling: bool, payload: Tx,
                seen1: Option<Observation>,
                seen2: Option<Observation>): Tx
    requires item.raw.Some? && Sends(terms, item, t, cancelling, payload, seen1, seen2)
  {
    if cancelling then payload else Payload(Level(terms, item, t, seen1).value)
  }

  predicate Cancelling(command: Command, item: Row) {
    command.CancelCommand? || item.cancelRaw.Some?
  }

  /** There is exactly one unconfirmed row, it is intact, and on mainnet a retry has a cancellation to repeat. */
  predicate Choosable(mainnet: bool, operator: Address, l: Ledger, t: Option<PendingRow>, command: Command,
                      head: Option<Head>)
    : (choosable: bool)
    ensures choosable ==> ChosenRow(l).Some? && ChosenRow(l).value.raw.Some?
  {
    && ChosenRow(l).Some? && head.Some?
    && var item := ChosenRow(l).value;
    && (command.RetryCommand? && mainnet ==> item.cancelRaw.Some?) && Intact(operator, item, head.value, t)
  }

  /** Every test that `recover` makes before something is published, and nothing else. */
  predicate Permitted(limits: Limits, terms: Terms, l: Ledger, t: Option<PendingRow>, command: Command,
                      args: Option<(int, int)>,
                      head: Option<Head>, now: int, traced: bool, seen1: Option<Observation>,
                          seen2: Option<Observation>)
    : (permitted: bool)
    ensures permitted ==> ChosenRow(l).Some? && ChosenRow(l).value.raw.Some?
                          && PayloadOf(terms.operator, ChosenRow(l).value, command, args).Some?
  {
    && Choosable(limits.mainnet, terms.operator, l, t, command, head)
    && var item := ChosenRow(l).value;
    && (if command.RetryCommand? then RetryPermitted(limits, l, item, args, head.value, now, traced)
        else CancelPermitted(limits, terms.operator, l, item, args, head.value, now))
    && Sends(terms, item, t, Cancelling(command, item), PayloadOf(terms.operator, item, command, args).value, seen1,
             seen2)
  }

  // ---------------------------------------------------------------- what a permitted recovery can afford

  /** The tip that recovery reserves for a payload without one. */
  function Tip(tx: Tx): int {
    if tx.maxPriorityFeePerGas.Some? then tx.maxPriorityFeePerGas.value else 1
  }

  /** Whatever a permitted recovery pays, its balance still holds the reserve afterwards, its price is within the
      operator's and covers the base fee and the tip, and its gas and cost are within their limits. */
  lemma PermittedIsAffordable(limits: Limits, terms: Terms, l: Ledger, t: Option<PendingRow>, command: Command,
                              args: Option<(int, int)>, head: Option<Head>, now: int, traced: bool,
                              seen1: Option<Observation>, seen2: Option<Observation>)
    requires Permitted(limits, terms, l, t, command, args, head, now, traced, seen1, seen2)
    ensures head.Some?
    ensures var item := ChosenRow(l).value;
            var p := PayloadOf(terms.operator, item, command, args).value;
            && CapCost(p) + limits.reserve <= head.value.balance && CapCost(p) <= limits.maxTransactionCost
            && head.value.baseFee + Tip(p) <= FeeCap(p) && 0 < Tip(p) <= FeeCap(p) && FeeCap(p) <= limits.maxGasPrice
            && 0 < p.gasLimit <= 8_000_000
            && (Cancelling(command, item) ==> Sent(terms, item, t, true, p, seen1, seen2) == p)
  {
    hide ChosenRow, Sends, Intact, ExposureOf, RequestLedger.Cancel;
  }

  /** A retry is refused only for one of these reasons. */
  lemma RetryIsPermitted(limits: Limits, terms: Terms, l: Ledger, t: Option<PendingRow>, args: Option<(int, int)>,
                         head: Option<Head>, now: int, traced: bool, seen1: Option<Observation>,
                             seen2: Option<Observation>)
    ensures Permitted(limits, terms, l, t, RetryCommand, args, head, now, traced, seen1, seen2) <==>
              && ChosenRow(l).Some? && head.Some? && args.None? && traced
              && var item := ChosenRow(l).value;
              && item.raw.Some? && item.hash == Some(Digest(item.raw.value))
              && item.raw.value.sender == Some(terms.operator) && item.raw.value.chainId == 1
              && item.raw.value.nonce == item.nonce && head.value.latest == item.nonce
                 && head.value.confirmed == item.nonce
              && (t.None? || (Some(t.value.hash) == item.hash && t.value.nonce == item.nonce)
                  || t.value.nonce < item.nonce)
              && (item.cancelRaw.Some? || (!limits.mainnet && now < item.feeExpiration))
              && Exposure(l, now) <= limits.dailyBudget && limits.dailyBudget != 0
              && var p := if item.cancelRaw.Some? then item.cancelRaw.value else item.raw.value;
              && p.gasLimit * FeeCap(p) + limits.reserve <= head.value.balance
              && p.gasLimit * FeeCap(p) <= limits.maxTransactionCost
              && head.value.baseFee + Tip(p) <= FeeCap(p) && 0 < Tip(p) <= FeeCap(p) && FeeCap(p) <= limits.maxGasPrice
              && 0 < p.gasLimit <= 8_000_000
              && Sends(terms, item, t, item.cancelRaw.Some?, p, seen1, seen2)
  {
    hide ChosenRow, Sends, ExposureOf;
  }

  /** And a cancel for one of these. */
  lemma CancelIsPermitted(limits: Limits, terms: Terms, l: Ledger, t: Option<PendingRow>, args: Option<(int, int)>,
                          head: Option<Head>, now: int, traced: bool, seen1: Option<Observation>,
                              seen2: Option<Observation>)
    ensures Permitted(limits, terms, l, t, CancelCommand, args, head, now, traced, seen1, seen2) <==>
              && ChosenRow(l).Some? && head.Some? && args.Some?
              && var item := ChosenRow(l).value;
              && item.raw.Some? && item.hash == Some(Digest(item.raw.value)) && !item.confirmed
              && item.raw.value.sender == Some(terms.operator) && item.raw.value.chainId == 1
              && item.raw.value.nonce == item.nonce && head.value.latest == item.nonce
                 && head.value.confirmed == item.nonce
              && (t.None? || (Some(t.value.hash) == item.hash && t.value.nonce == item.nonce)
                  || t.value.nonce < item.nonce)
              && var (maxFee, maxTip) := args.value;
              && var previous := if item.cancelRaw.Some? then item.cancelRaw.value else item.raw.value;
              && FeeCap(previous) < maxFee && 0 < maxTip <= maxFee
              && previous.maxPriorityFeePerGas.GetOr(previous.gasPrice.GetOr(0)) < maxTip
              && head.value.baseFee + maxTip <= maxFee && maxFee <= limits.maxGasPrice
              && 21_000 * maxFee <= limits.maxTransactionCost
              && 21_000 * maxFee + limits.reserve <= head.value.balance
              && limits.dailyBudget != 0
              && Exposure(l, now) + (if 21_000 * maxFee > item.maxCost then 21_000 * maxFee - item.maxCost else 0)
                 <= limits.dailyBudget
              && Sends(terms, item, t, true, CancellationOf(terms.operator, item.raw.value.nonce, maxFee, maxTip),
                       seen1, seen2)
  {
    hide Sends, ExposureOf, IndexOf, Unconfirmed;
    if ChosenRow(l).Some? {
      KeyOfGet(l, Unconfirmed(l.rows)[0].key);
      var item := ChosenRow(l).value;
      assert Get(l, item.key) == Some(item);
    }
  }

  /** What `recover cancel` signs: a plain transfer of nothing to itself, on the request's nonce, at the given
      prices. */
  lemma CancellationIs(operator: Address, nonce: nat, maxFee: int, maxTip: int)
    ensures var tx := CancellationOf(operator, nonce, maxFee, maxTip);
            && tx.sender == Some(operator) && tx.to == Some(operator) && tx.value == 0 && tx.data == []
            && tx.gasLimit == 21_000 && tx.txType == 2 && tx.nonce == nonce && tx.chainId == 1
            && FeeCap(tx) == maxFee && TipCap(tx) == Tip(tx) == maxTip && CapCost(tx) == 21_000 * maxFee
  {}

  /** What a recovery that gets through has done: the row it chose, what it stored, and what it disclosed. */
  predicate Performs(c: Config, l: Ledger, t: Option<PendingRow>, command: Command, raw: Tx, now: int,
                     seen1: Option<Observation>, seen2: Option<Observation>, l': Ledger, t': Option<PendingRow>)
    : (performed: bool)
    ensures performed ==> ChosenRow(l).Some?
  {
    && ChosenRow(l).Some?
    && var item := ChosenRow(l).value;
    && item.raw.Some? && item.hash == Some(Digest(item.raw.value)) && item.raw.value.nonce == item.nonce
    && (t.Some? ==> (Some(t.value.hash) == item.hash && t.value.nonce == item.nonce) || t.value.nonce < item.nonce)
    && (if command.RetryCommand? then
          l' == l && (c.mainnet ==> item.cancelRaw.Some?) && (item.cancelRaw.Some? ==> item.cancelRaw == Some(raw))
        else
          BuiltCancellation(c, item, raw) && Cancel(l, item.key, raw, Digest(raw), CapCost(raw), c.budget, now)
              == Ok(l'))
    && Discloses(c.terms, item, t, Cancelling(command, item), raw, seen1, seen2, t')
  }

  predicate Discloses(terms: Terms, item: Row, t: Option<PendingRow>, cancelling: bool, raw: Tx,
                      seen1: Option<Observation>,
                      seen2: Option<Observation>, t': Option<PendingRow>)
    requires item.raw.Some?
  {
    && Sends(terms, item, t, cancelling, raw, seen1, seen2)
       && raw == Sent(terms, item, t, cancelling, raw, seen1, seen2)
    && var level := Level(terms, item, t, seen1);
       if cancelling then JournalStep(level, raw, true, None, seen2.value) == Ok(t')
           else Resent(level.value, seen2.value) == Ok(t')
  }

  /** `seen1` and `seen2` are what the transport reads when staging and when sending; `traced` is the
      execution trace's verdict on a retry and `now` the clock. Something is published exactly when `Permitted`, and
      success is exactly that with the endpoint's acknowledgement. */
  method Recover(command: Command, args: Option<(int, int)>, limits: Limits, store: Store,
                 sender: ProtectedEthereumProvider,
                 head: Option<Head>, now: int, traced: bool, seen1: Option<Observation>, seen2: Option<Observation>,
                     acknowledged: bool)
    returns (r: Result<Hash, RecoveryError>)
    requires sender.Valid()
    modifies store, sender
    ensures sender.Valid()
    ensures var l, t := old(store.Value()), old(sender.pending);
            if Permitted(limits, sender.terms, l, t, command, args, head, now, traced, seen1, seen2) then
              var item := ChosenRow(l).value;
              var raw := Sent(sender.terms, item, t, Cancelling(command, item),
                              PayloadOf(sender.terms.operator, item, command, args).value, seen1, seen2);
              && sender.published == old(sender.published) + [raw]
              && r == (if acknowledged then Ok(Digest(raw)) else Err(TransportRefused))
              && Performs(Config(limits.dailyBudget, sender.terms, limits.mainnet, 0), l, t, command, raw, now, seen1,
                          seen2,
                          store.Value(), sender.pending)
            else r.Err? && sender.published == old(sender.published)
    ensures r.Err? && !r.error.TransportRefused? ==>
              store.Value() == old(store.Value()) && sender.pending == old(sender.pending)
  {
    hide ChosenRow, Choosable, RetryPermitted, CancelPermitted, BuiltCancellation, Stored, Sends, Sent, Discloses;
    var chosen := Choose(command, limits.mainnet, store, sender, head);
    if chosen.Err? { return Err(chosen.error); }
    var item := chosen.value;
    var prepared := Prepare(command, args, limits, store, sender.terms, item, head.value, now, traced);
    if prepared.Err? { return Err(prepared.error); }
    var pending := sender.pending;
    var raw := prepared.value;
    var sent := Disclose(command.CancelCommand? || item.cancelRaw.Some?, item, raw, sender, seen1, seen2, acknowledged);
    SentIsDisclosed(sender.terms, item, pending, Cancelling(command, item), raw, seen1, seen2);
    ghost var disclosed := if Sends(sender.terms, item, pending, Cancelling(command, item), raw, seen1, seen2)
                           then Sent(sender.terms, item, pending, Cancelling(command, item), raw, seen1, seen2)
                               else raw;
    PerformsParts(Config(limits.dailyBudget, sender.terms, limits.mainnet, 0), old(store.Value()), pending, command,
                  args, limits,
                  now, raw, disclosed, head, seen1, seen2, store.Value(), sender.pending);
    return if sent.Ok? then Ok(sent.value) else Err(TransportRefused);
  }

  /** The tests that do not depend on the command's own prices. */
  method Choose(command: Command, mainnet: bool, store: Store, sender: ProtectedEthereumProvider, head: Option<Head>)
    returns (r: Result<Row, RecoveryError>)
    ensures r.Ok? <==> Choosable(mainnet, sender.terms.operator, store.Value(), sender.pending, command, head)
    ensures r.Ok? ==>
      && head.Some? && ChosenRow(store.Value()) == Some(r.value)
      && Intact(sender.terms.operator, r.value, head.value, sender.pending)
    ensures r.Err? ==> !r.error.TransportRefused?
  {
    hide IndexOf, Unconfirmed;
    var rows := Unconfirmed(store.requests);
    if |rows| != 1 { return Err(NotExactlyOne); }
    var found := Get(store.Value(), rows[0].key);
    if found.None? { return Err(NotExactlyOne); }
    var item := found.value;
    if command.RetryCommand? && mainnet && item.cancelRaw.None? { return Err(RetryBlocked); }
    if item.raw.None? || item.hash.None? { return Err(Incomplete); }
    var original := item.raw.value;
    if item.hash != Some(Digest(original)) || original.sender != Some(sender.terms.operator)
      || original.nonce != item.nonce || original.chainId != 1 { return Err(Inconsistent); }
    var pending := sender.pending;
    if head.None? { return Err(StaleNode); }
    var Head(base, latest, confirmed, balance) := head.value;
    if latest != item.nonce || confirmed != item.nonce { return Err(NonceConsumed); }
    if pending.Some? && (Some(pending.value.hash) != item.hash || pending.value.nonce != item.nonce)
        && pending.value.nonce >= confirmed {
      return Err(JournalsDisagree);
    }
    return Ok(item);
  }

  lemma PerformsParts(c: Config, l: Ledger, t: Option<PendingRow>, command: Command, args: Option<(int, int)>,
                      limits: Limits, now: int,
                      payload: Tx, raw: Tx, head: Option<Head>, seen1: Option<Observation>, seen2: Option<Observation>,
                      l': Ledger, t': Option<PendingRow>)
    requires Choosable(c.mainnet, c.terms.operator, l, t, command, head) && limits.dailyBudget == c.budget
    requires var item := ChosenRow(l).value;
             && PayloadOf(c.terms.operator, item, command, args) == Some(payload)
                && (Cancelling(command, item) ==> raw == payload)
             && (command.RetryCommand? ==> l' == l)
             && (command.CancelCommand? ==> Stored(limits, c.terms.operator, l, item, args.value, now) == Ok(l')
                                            && BuiltCancellation(c, item, payload))
    ensures Discloses(c.terms, ChosenRow(l).value, t, Cancelling(command, ChosenRow(l).value), raw, seen1, seen2, t')
            ==> Performs(c, l, t, command, raw, now, seen1, seen2, l', t')
  {
    hide ChosenRow, BuiltCancellation, RequestLedger.Cancel, Discloses, ExposureOf;
  }

  /** The command's own tests. A cancel stores its new payload before anything is sent; a retry stores nothing. */
  method Prepare(command: Command, args: Option<(int, int)>, limits: Limits, store: Store, terms: Terms, item: Row,
                 head: Head,
                 now: int, traced: bool) returns (r: Result<Tx, RecoveryError>)
    requires item.raw.Some? && item.raw.value.nonce == item.nonce
    modifies store
    ensures r.Ok? <==> if command.RetryCommand?
            then RetryPermitted(limits, old(store.Value()), item, args, head, now, traced)
                       else CancelPermitted(limits, terms.operator, old(store.Value()), item, args, head, now)
    ensures r.Ok? ==> Some(r.value) == PayloadOf(terms.operator, item, command, args)
    ensures r.Ok? && command.CancelCommand? ==>
      && Stored(limits, terms.operator, old(store.Value()), item, args.value, now) == Ok(store.Value())
      && BuiltCancellation(Config(limits.dailyBudget, terms, limits.mainnet, 0), item, r.value)
    ensures r.Err? || command.RetryCommand? ==> store.Value() == old(store.Value())
    ensures r.Err? ==> !r.error.TransportRefused?
  {
    hide ExposureOf, RequestLedger.Cancel;
    var original := item.raw.value;
    var Head(base, _, _, balance) := head;
    var raw := item.cancelRaw.GetOr(original);
    var exposure := store.ExposureNow(now);
    if command.CancelCommand? {
      if args.None? || args.value.0 <= 0 || args.value.1 <= 0 { return Err(BadArguments); }
      var (maxFee, maxTip) := args.value;
      if maxFee <= FeeCap(raw) || maxTip <= TipCap(raw) { return Err(NotOutbid); }
      if !CheckLimits(CANCEL_GAS, maxFee, maxTip, base, balance, limits) { return Err(OverLimits); }
      var cost := CANCEL_GAS * maxFee;
      var extra := if cost > item.maxCost then cost - item.maxCost else 0;
      if exposure + extra > limits.dailyBudget { return Err(OverBudget); }
      raw := CancellationOf(terms.operator, original.nonce, maxFee, maxTip);
      assert CapCost(raw) == cost && BuiltCancellation(Config(limits.dailyBudget, terms, limits.mainnet, 0), item, raw);
      var stored := store.Cancel(item.key, raw, Digest(raw), cost, limits.dailyBudget, now);
      if stored.Err? { return Err(StoreRefused); }
    } else {
      if args.Some? { return Err(BadArguments); }
      if item.cancelRaw.None? && item.feeExpiration <= now { return Err(Expired); }
      var tip := raw.maxPriorityFeePerGas.GetOr(1);
      if !CheckLimits(raw.gasLimit, FeeCap(raw), tip, base, balance, limits) { return Err(OverLimits); }
      if exposure > limits.dailyBudget { return Err(OverBudget); }
      if !traced { return Err(TraceFailed); }
    }
    return Ok(raw);
  }

  lemma SentIsDisclosed(terms: Terms, item: Row, t: Option<PendingRow>, cancelling: bool, payload: Tx,
                        seen1: Option<Observation>,
                        seen2: Option<Observation>)
    requires item.raw.Some?
    ensures Sends(terms, item, t, cancelling, payload, seen1, seen2) && cancelling ==>
      Sent(terms, item, t, cancelling, payload, seen1, seen2) == payload
  {}

  /** The last lines of recovery: stage the original where a crash kept it from the transport, then send. */
  method Disclose(cancelling: bool, item: Row, payload: Tx, sender: ProtectedEthereumProvider,
                  seen1: Option<Observation>,
                  seen2: Option<Observation>, acknowledged: bool)
    returns (r: Result<Hash, TransportError>)
    requires sender.Valid() && item.raw.Some? && item.hash == Some(Digest(item.raw.value))
    modifies sender
    ensures sender.Valid()
    ensures var t := old(sender.pending);
            if Sends(sender.terms, item, t, cancelling, payload, seen1, seen2) then
              var raw := Sent(sender.terms, item, t, cancelling, payload, seen1, seen2);
              && sender.published == old(sender.published) + [raw] && (acknowledged ==> r == Ok(Digest(raw)))
                 && (!acknowledged ==> r.Err?)
              && Discloses(sender.terms, item, t, cancelling, raw, seen1, seen2, sender.pending)
            else
              && sender.published == old(sender.published) && r.Err?
              && sender.pending == (if Levels(sender.terms, item, t, seen1) then Level(sender.terms, item, t, seen1)
                                    else t)
  {
    hide Accepts, JournalStep, Publishes, Stages, Resent;
    var pending := sender.pending;
    if pending.None? || Some(pending.value.hash) != item.hash {
      var staged := sender.StageSigned(item.raw.value, seen1);
      if staged.Err? { return Err(staged.error); }
    }
    if cancelling {
      r := sender.CancelPending(payload, seen2, acknowledged);
    } else {
      r := sender.RetryPending(seen2, acknowledged);
    }
  }

  /** However the journals stood, a recovery that gets through leaves the transport holding the chosen request's
      original, with the disclosed cancellation beside it if it disclosed one. A retry of a stored cancellation is
      byte for byte the same, and a new cancellation outbids the payload it replaces in both fee fields. */
  lemma PerformedMeans(c: Config, l: Ledger, t: Option<PendingRow>, command: Command, raw: Tx, now: int,
                       seen1: Option<Observation>, seen2: Option<Observation>, l': Ledger, t': Option<PendingRow>)
    requires Performs(c, l, t, command, raw, now, seen1, seen2, l', t') && (t.Some? ==> Consistent(t.value))
    ensures var item := ChosenRow(l).value;
            && t'.Some? && Some(t'.value.hash) == item.hash
            && (Cancelling(command, item) ==> t'.value.cancelRaw == Some(raw) && t'.value.nonce == raw.nonce)
            && (command.RetryCommand? ==> l' == l && (item.cancelRaw.Some? ==> item.cancelRaw == Some(raw)))
            && (command.CancelCommand? ==>
                  && SelfTransfer(raw, c.terms.operator) && raw.nonce == item.nonce
                  && FeeCap(raw) > FeeCap(Current(item).value) && TipCap(raw) > TipCap(Current(item).value))
  {
    hide IndexOf, Unconfirmed, Accepts, RequestLedger.Cancel;
  }
}

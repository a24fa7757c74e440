/** Signed Ethereum transactions as the operator's two journals see them. */
module Transactions {
  import opened Basics

  type Address = nat

  /** `recovered` is the account that the authorization's signature recovers to. */
  datatype Authorization = Authorization(chainId: int, delegate: Address, recovered: Address)

  /** One canonically encoded signed transaction. `sender` is the recovered signer, `data` the calldata
      (empty for '0x') and `guarded` the account that decoding the calldata as a guarded execution
      yields, if it decodes. `txType` is -1 when the encoding carries none. */
  datatype Tx = Tx(sender: Option<Address>, to: Option<Address>, chainId: int, value: int, nonce: nat,
                   gasLimit: int, txType: int, data: seq<nat>, maxFeePerGas: Option<int>,
                   maxPriorityFeePerGas: Option<int>, gasPrice: Option<int>,
                   authorizations: seq<Authorization>, guarded: Option<Address>)

  /** The operator's configured limits, in wei. */
  datatype Limits = Limits(mainnet: bool, maxGasPrice: int, maxTransactionCost: int, dailyBudget: int, reserve: int)

  /** An idealised hash: injective by construction. */
  datatype Hash = Digest(preimage: Tx)

  /** The fee cap and the tip cap that a replacement must beat. */
  function FeeCap(tx: Tx): int {
    if tx.maxFeePerGas.Some? then tx.maxFeePerGas.value else tx.gasPrice.GetOr(0)
  }

  function TipCap(tx: Tx): int {
    if tx.maxPriorityFeePerGas.Some? then tx.maxPriorityFeePerGas.value else tx.gasPrice.GetOr(0)
  }

  /** The most a mined transaction can charge: gas limit times signed cap. */
  function CapCost(tx: Tx): int {
    tx.gasLimit * FeeCap(tx)
  }

  const CANCEL_GAS := 21_000
  const MAX_TRANSPORT_GAS := 30_000_000
  const MAX_GAS := 8_000_000

  /** A type-2, zero-value self-transfer on the gas of a plain transfer. */
  predicate SelfTransfer(tx: Tx, operator: Address) {
    && tx.txType == 2 && tx.to == Some(operator) && tx.data == [] && tx.value == 0
    && tx.gasLimit == CANCEL_GAS && tx.authorizations == []
  }

  /** `next` may replace `previous` on the same nonce: it outbids both fee fields. */
  predicate Outbids(next: Tx, previous: Tx) {
    next.nonce == previous.nonce && FeeCap(next) > FeeCap(previous) && TipCap(next) > TipCap(previous)
  }

  /** The identities fixed when the transport is constructed. */
  datatype Terms = Terms(operator: Address, guard: Option<Address>, delegate: Address, proxy: Address)

  /** The acceptance rules of `ProtectedEthereumProvider.validate`, branch by branch. */
  predicate Accepts(terms: Terms, tx: Tx, cancellation: bool) {
    && tx.sender == Some(terms.operator) && tx.chainId == 1 && tx.value == 0 && tx.to.Some?
    && 0 < tx.gasLimit <= MAX_TRANSPORT_GAS
    && (if cancellation then
          && tx.txType == 2 && tx.to == Some(terms.operator) && tx.data == []
          && tx.gasLimit == CANCEL_GAS && tx.authorizations == []
        else if tx.data == [] then
          false
        else if tx.txType == 4 then
          var account := if tx.to == terms.guard then tx.guarded else tx.to;
          && account.Some? && account != Some(terms.operator) && |tx.authorizations| == 1
          && var auth := tx.authorizations[0];
          auth.chainId == 1 && auth.delegate == terms.delegate && auth.recovered == account.value
        else
          tx.txType in {0, 1, 2} && tx.authorizations == [] && tx.to == Some(terms.proxy))
    && (if tx.txType == 2 || tx.txType == 4 then
          && tx.maxFeePerGas.Some? && tx.maxPriorityFeePerGas.Some?
          && tx.maxFeePerGas.value != 0 && tx.maxPriorityFeePerGas.value != 0
          && tx.maxPriorityFeePerGas.value <= tx.maxFeePerGas.value
        else
          tx.gasPrice.Some? && tx.gasPrice.value != 0)
  }

  /** No signed payload passes both as a user operation and as a cancellation, so the two columns of
      the transport row can never be confused. */
  lemma OriginalsAreNotCancellations(terms: Terms, original: Tx, cancellation: Tx)
    requires Accepts(terms, original, false) && Accepts(terms, cancellation, true)
    ensures Digest(original) != Digest(cancellation)
    ensures SelfTransfer(cancellation, terms.operator) && !SelfTransfer(original, terms.operator)
  {}

  /** A call of the privacy contract, which needs no authorization. */
  predicate CallsProxy(terms: Terms, tx: Tx) {
    tx.to == Some(terms.proxy) && (tx.txType == 0 || tx.txType == 1 || tx.txType == 2) && tx.authorizations == []
  }

  /** A delegated call of one account, directly or through the operator's guard: that account, which is not the
      operator, has itself signed the one authorization, for this chain and the canonical delegate. */
  predicate CallsDelegated(terms: Terms, tx: Tx, account: Address) {
    && tx.txType == 4 && account != terms.operator
    && (if tx.to == terms.guard then tx.guarded == Some(account) else tx.to == Some(account))
    && tx.authorizations == [Authorization(1, terms.delegate, account)]
  }

  /** Fees are present and positive as far as their type demands, and a tip never exceeds its cap. */
  predicate Priced(tx: Tx) {
    if tx.txType == 2 || tx.txType == 4 then
      (match (tx.maxFeePerGas, tx.maxPriorityFeePerGas)
       case (Some(cap), Some(tip)) => cap != 0 && tip != 0 && tip <= cap
       case _ => false)
    else tx.gasPrice.Some? && tx.gasPrice.value != 0
  }

  /** Every accepted original is the operator's own, moves no value, and addresses the privacy contract or one delegated
      account; an accepted cancellation addresses the operator. Nothing else is accepted. */
  lemma AcceptedAddresses(terms: Terms, tx: Tx)
    ensures Accepts(terms, tx, false) <==>
              && tx.sender == Some(terms.operator) && tx.chainId == 1 && tx.value == 0 && tx.data != []
              && tx.to.Some? && 0 < tx.gasLimit <= 30_000_000 && Priced(tx)
              && (CallsProxy(terms, tx) || exists account :: CallsDelegated(terms, tx, account))
    ensures Accepts(terms, tx, true) <==>
              && tx.sender == Some(terms.operator) && tx.chainId == 1 && SelfTransfer(tx, terms.operator) && Priced(tx)
  {
    if Accepts(terms, tx, false) && tx.txType == 4 {
      var account := if tx.to == terms.guard then tx.guarded else tx.to;
      assert tx.authorizations == [Authorization(1, terms.delegate, account.value)];
      assert CallsDelegated(terms, tx, account.value);
    }
  }
}

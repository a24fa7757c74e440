/** Fee arithmetic of the operator: oracle rates, issued quotes, fee acceptance and execution pricing. */
module FeeMarket {
  import opened Basics
  import opened Transactions

  const WEI := 1_000_000_000_000_000_000
  const BPS := 10_000
  const BAND_LOW := 98_000_000
  const BAND_HIGH := 102_000_000
  const LIFETIME := 5 * 60_000

  /** The least integer not below a quotient. */
  function CeilDiv(a: nat, b: nat): (q: nat)
    requires 0 < b
    ensures a <= q * b
    ensures q * b < a + b
  {
    (a + b - 1) / b
  }

  lemma CeilDivIsLeast(a: nat, b: nat, q: nat)
    requires 0 < b
    ensures CeilDiv(a, b) <= q <==> a <= q * b
  {
    var least := CeilDiv(a, b);
    if least <= q {
      Scale(least, q, b);
    } else {
      Scale(q, least - 1, b);
      assert (least - 1) * b == least * b - b;
    }
  }

  lemma Scale(a: int, b: int, c: nat)
    requires a <= b
    ensures a * c <= b * c
  {
  }

  lemma CeilDivMonotone(a: nat, a': nat, b: nat)
    requires 0 < b && a <= a'
    ensures CeilDiv(a, b) <= CeilDiv(a', b)
  {
    CeilDivIsLeast(a, b, CeilDiv(a', b));
  }

  function Power10(n: nat): (p: nat)
    ensures 0 < p
  {
    if n == 0 then 1 else 10 * Power10(n - 1)
  }

  lemma EtherUnit()
    ensures Power10(18) == WEI
  {
    assert Power10(9) == 1_000_000_000;
    assert Power10(18) == 1_000_000_000 * Power10(9);
  }

  // ---------------------------------------------------------------- oracle

  datatype Token = Token(address: Address, decimals: nat)
  datatype Round = Round(id: int, price: int, updated: int, answered: int)

  /** A price feed answer is used only when positive, complete and recent. */
  function CheckedAnswer(round: Round, timestamp: int, maxAge: nat): (answer: Option<nat>)
    ensures answer.Some? <==>
            && round.id != 0 && 0 < round.price && 0 < round.updated && round.id <= round.answered
            && timestamp - maxAge <= round.updated <= timestamp
    ensures answer.Some? ==> answer.value == round.price > 0
  {
    if round.id == 0 || round.price <= 0 || round.updated <= 0 || round.updated > timestamp
       || timestamp - round.updated > maxAge || round.answered < round.id
    then None else Some(round.price)
  }

  /** Wei of gas to base units of a token, with the operator's margin in basis points. */
  function Rate(ethUsd: nat, unit: nat, tokenUsd: nat, margin: nat): nat
    requires 0 < tokenUsd
  {
    WithMargin(PlainRate(ethUsd, unit, tokenUsd), margin)
  }

  function PlainRate(ethUsd: nat, unit: nat, tokenUsd: nat): nat
    requires 0 < tokenUsd
  {
    CeilDiv(ethUsd * unit, tokenUsd)
  }

  function WithMargin(rate: nat, margin: nat): nat {
    CeilDiv(rate * (BPS + margin), BPS)
  }

  /** Two nested ceilings never lose any of the margin, and add at most two units before scaling. */
  lemma RateCovers(ethUsd: nat, unit: nat, tokenUsd: nat, margin: nat)
    requires 0 < tokenUsd
    ensures ethUsd * unit * (BPS + margin) <= Rate(ethUsd, unit, tokenUsd, margin) * BPS * tokenUsd
    ensures Rate(ethUsd, unit, tokenUsd, margin) * BPS * tokenUsd
            < ethUsd * unit * (BPS + margin) + tokenUsd * (2 * BPS + margin)
  {
    NestedCeilings(ethUsd * unit, tokenUsd, BPS + margin, BPS);
  }

  lemma NestedCeilings(x: nat, p: nat, m: nat, t: nat)
    requires 0 < p && 0 < t && 0 < m
    ensures x * m <= CeilDiv(CeilDiv(x, p) * m, t) * t * p < x * m + p * (t + m)
  {
    var base := CeilDiv(x, p);
    var rate := CeilDiv(base * m, t);
    Scale(x, base * p, m);
    assert base * p * m == base * m * p;
    Scale(base * m, rate * t, p);
    Scale(rate * t, base * m + t - 1, p);
    assert (base * m + t - 1) * p == base * m * p + t * p - p;
    Scale(base * p, x + p - 1, m);
    assert (x + p - 1) * m == x * m + p * m - m;
  }

  predicate InBand(answers: seq<nat>) {
    forall i :: 1 <= i < |answers| ==> BAND_LOW <= answers[i] <= BAND_HIGH
  }

  ghost predicate Listed(tokens: seq<Token>, answers: seq<nat>) {
    && 1 <= |tokens| == |answers| && tokens[0].decimals == 18
    && (forall i, j :: 0 <= i < j < |tokens| ==> tokens[i].address != tokens[j].address)
    && (forall i :: 0 <= i < |answers| ==> 0 < answers[i])
  }

  lemma WrappedEther(ethUsd: nat)
    requires 0 < ethUsd
    ensures PlainRate(ethUsd, WEI, ethUsd) == WEI
  {
    CeilDivIsLeast(ethUsd * WEI, ethUsd, WEI);
    Cancel(WEI, CeilDiv(ethUsd * WEI, ethUsd), ethUsd);
  }

  lemma Cancel(a: int, b: int, c: nat)
    requires 0 < c && a * c <= b * c
    ensures a <= b
  {
    if b < a {
      Scale(b + 1, a, c);
    }
  }

  /** One rate for every token and none besides, each with the margin on the feeds' own prices. */
  ghost predicate RatesOf(tokens: seq<Token>, answers: seq<nat>, margin: nat, rates: map<Address, nat>) {
    && 1 <= |tokens| == |answers|
    && (forall a :: a in rates <==> exists i :: 0 <= i < |tokens| && tokens[i].address == a)
    && (forall i :: 0 <= i < |tokens| ==>
          0 < answers[i] && rates[tokens[i].address]
              == Rate(answers[0], Power10(tokens[i].decimals), answers[i], margin))
  }

  /** The first token is wrapped ether, priced at par; every other price must stay in the accepted band. */
  method Refresh(tokens: seq<Token>, answers: seq<nat>, margin: nat) returns (r: Option<map<Address, nat>>)
    requires Listed(tokens, answers)
    ensures r.Some? <==> InBand(answers)
    ensures r.Some? <==> forall i :: 1 <= i < |answers| ==> 98_000_000 <= answers[i] <= 102_000_000
    ensures r.Some? ==> RatesOf(tokens, answers, margin, r.value)
  {
    hide Power10, PlainRate, WithMargin;
    var rates: map<Address, nat> := map[tokens[0].address := WEI];
    for i := 1 to |tokens|
      invariant forall j :: 1 <= j < i ==> BAND_LOW <= answers[j] <= BAND_HIGH
      invariant forall a :: a in rates <==> exists j :: 0 <= j < i && tokens[j].address == a
      invariant rates[tokens[0].address] == WEI
      invariant forall j :: 1 <= j < i ==>
        rates[tokens[j].address] == PlainRate(answers[0], Power10(tokens[j].decimals), answers[j])
    {
      if answers[i] < BAND_LOW || answers[i] > BAND_HIGH { return None; }
      rates := rates[tokens[i].address := PlainRate(answers[0], Power10(tokens[i].decimals), answers[i])];
    }
    WrappedEther(answers[0]);
    EtherUnit();
    rates := AddMargin(tokens, rates, margin);
    r := Some(rates);
  }

  /** Rewrites every rate in place, one token at a time. */
  method AddMargin(tokens: seq<Token>, base: map<Address, nat>, margin: nat) returns (rates: map<Address, nat>)
    requires forall i :: 0 <= i < |tokens| ==> tokens[i].address in base
    requires forall i, j :: 0 <= i < j < |tokens| ==> tokens[i].address != tokens[j].address
    ensures rates.Keys == base.Keys
    ensures forall i :: 0 <= i < |tokens| ==>
      rates[tokens[i].address] == WithMargin(base[tokens[i].address], margin)
  {
    hide WithMargin;
    rates := base;
    for i := 0 to |tokens|
      invariant rates.Keys == base.Keys
      invariant forall j :: i <= j < |tokens| ==> rates[tokens[j].address] == base[tokens[j].address]
      invariant forall j :: 0 <= j < i ==> rates[tokens[j].address] == WithMargin(base[tokens[j].address], margin)
    {
      var token := tokens[i].address;
      rates := rates[token := WithMargin(rates[token], margin)];
    }
  }

  /** One refresh: when it checked its block and when it finished, in milliseconds, the block's stamp in seconds,
      and what the feeds answered there. */
  datatype Reading = Reading(checkedAt: int, timestamp: int, finishedAt: int, rounds: seq<Round>)

  const BLOCK_SLACK := 45_000
  const CACHE_LIFE := 30_000

  /** The prices of a reading whose block and answers are all usable. */
  function Prices(reading: Reading, ages: seq<nat>): (prices: Option<seq<nat>>)
    requires |reading.rounds| == |ages|
    ensures prices.Some? ==> |prices.value| == |ages|
  {
    if -BLOCK_SLACK <= reading.checkedAt - 1000 * reading.timestamp <= BLOCK_SLACK
       && forall i :: 0 <= i < |ages| ==> CheckedAnswer(reading.rounds[i], reading.timestamp, ages[i]).Some?
    then Some(seq(|ages|, i requires 0 <= i < |ages| => CheckedAnswer(reading.rounds[i], reading.timestamp,
                                                                      ages[i]).value))
    else None
  }

  /** The rates are those of this reading, one for every token. */
  ghost predicate Derived(tokens: seq<Token>, ages: seq<nat>, margin: nat, reading: Reading, rates: map<Address, nat>) {
    && |tokens| == |ages| == |reading.rounds| && Prices(reading, ages).Some?
    && InBand(Prices(reading, ages).value) && RatesOf(tokens, Prices(reading, ages).value, margin, rates)
  }

  datatype Cached = Cached(at: int, rates: map<Address, nat>) {
    predicate Warm(now: int) { now - at < CACHE_LIFE }
  }

  class FeeOracle {
    const tokens: seq<Token>
    const ages: seq<nat>
    const margin: nat
    var cached: Option<Cached>
    ghost var origin: Reading

    predicate Configured() {
      && 1 <= |tokens| == |ages| && tokens[0].decimals == 18
      && forall i, j :: 0 <= i < j < |tokens| ==> tokens[i].address != tokens[j].address
    }

    ghost predicate Valid()
      reads this
    {
      && Configured()
      && (cached.Some? ==>
            Derived(tokens, ages, margin, origin, cached.value.rates) && cached.value.at == origin.finishedAt)
    }

    constructor (tokens: seq<Token>, ages: seq<nat>, margin: nat)
      requires 1 <= |tokens| == |ages| && tokens[0].decimals == 18
      requires forall i, j :: 0 <= i < j < |tokens| ==> tokens[i].address != tokens[j].address
      ensures Valid() && this.tokens == tokens && this.ages == ages && this.margin == margin && cached == None
    {
      this.tokens, this.ages, this.margin := tokens, ages, margin;
      cached := None;
      origin := Reading(0, 0, 0, []);
    }

    /** The rates at `now`, from the cache or from a refresh; `reading` is None when a read fails. A failed refresh
        leaves the cache as it was and yields nothing. */
    method Rates(now: int, reading: Option<Reading>) returns (r: Option<map<Address, nat>>)
      requires Valid() && (reading.Some? ==> |reading.value.rounds| == |ages|)
      modifies this
      ensures Valid()
      ensures match old(cached)
              case Some(entry) =>
                now - entry.at < 30_000 ==> r == Some(entry.rates) && cached == old(cached) && origin == old(origin)
              case None => true
      ensures old(cached).None? || now - old(cached).value.at >= 30_000 ==>
        && (r.Some? <==>
              reading.Some? && Prices(reading.value, ages).Some? && InBand(Prices(reading.value, ages).value))
        && (r.Some? ==> origin == reading.value && cached == Some(Cached(reading.value.finishedAt, r.value)))
        && (r.None? ==> cached == old(cached))
      ensures r.Some? ==> Derived(tokens, ages, margin, origin, r.value)
    {
      hide Prices, InBand, RatesOf;
      if cached.Some? && cached.value.Warm(now) { return Some(cached.value.rates); }
      if reading.None? { return None; }
      var prices := Prices(reading.value, ages);
      if prices.None? { return None; }
      PricesArePositive(reading.value, ages);
      r := Refresh(tokens, prices.value, margin);
      if r.Some? {
        cached := Some(Cached(reading.value.finishedAt, r.value));
        origin := reading.value;
      }
    }
  }

  /** A reading is priced exactly when its block is within 45 seconds and every answer is positive, complete and
      young enough. */
  lemma PricesExist(reading: Reading, ages: seq<nat>)
    requires |reading.rounds| == |ages|
    ensures Prices(reading, ages).Some? <==>
              && 1000 * reading.timestamp - 45_000 <= reading.checkedAt <= 1000 * reading.timestamp + 45_000
              && forall i :: 0 <= i < |ages| ==>
                   var round := reading.rounds[i];
                   && round.id != 0 && 0 < round.price && 0 < round.updated && round.id <= round.answered
                   && reading.timestamp - ages[i] <= round.updated <= reading.timestamp
    ensures Prices(reading, ages).Some? ==>
              forall i :: 0 <= i < |ages| ==> Prices(reading, ages).value[i] == reading.rounds[i].price
  {
    forall i | 0 <= i < |ages|
      ensures var round := reading.rounds[i];
              CheckedAnswer(round, reading.timestamp, ages[i]).Some? <==>
                && round.id != 0 && 0 < round.price && 0 < round.updated && round.id <= round.answered
                && reading.timestamp - ages[i] <= round.updated <= reading.timestamp
    {}
  }

  lemma PricesArePositive(reading: Reading, ages: seq<nat>)
    requires |reading.rounds| == |ages| && Prices(reading, ages).Some?
    ensures forall i :: 0 <= i < |ages| ==> Prices(reading, ages).value[i] == reading.rounds[i].price > 0
  {}

  /** No rate in use rests on an answer older than its feed's limit plus 45 seconds of block slack, 30 of caching
      and the time that its refresh took. */
  lemma PricesAreRecent(tokens: seq<Token>, ages: seq<nat>, margin: nat, reading: Reading, rates: map<Address, nat>,
                        now: int, i: nat)
    requires Derived(tokens, ages, margin, reading, rates) && now - reading.finishedAt < CACHE_LIFE && i < |tokens|
    ensures now - 1000 * reading.rounds[i].updated
            < 1000 * ages[i] + BLOCK_SLACK + CACHE_LIFE + (reading.finishedAt - reading.checkedAt)
    ensures Prices(reading, ages).value[i] == reading.rounds[i].price > 0
  {
    hide Rate, Power10;
    PricesArePositive(reading, ages);
    assert CheckedAnswer(reading.rounds[i], reading.timestamp, ages[i]).Some?;
  }

  /** Whatever is accepted under rates the oracle stands by repays the gas and the whole margin at the feeds' own
      prices. */
  lemma OraclePaymentCoversCost(tokens: seq<Token>, ages: seq<nat>, margin: nat, reading: Reading,
                                rates: map<Address, nat>,
                                quotes: map<string, Quote>, id: string, paid: map<Address, int>, i: nat, budget: int,
                                    now: int)
    requires Derived(tokens, ages, margin, reading, rates) && i < |tokens|
    requires Covers(quotes, id, paid, tokens[i].address, budget, rates, now)
    ensures budget * reading.rounds[0].price * Power10(tokens[i].decimals) * (BPS + margin)
            <= paid[tokens[i].address] * reading.rounds[i].price * WEI * BPS
  {
    hide Rate, Power10, Covers, InBand;
    PricesArePositive(reading, ages);
    AcceptedFeeCoversCost(quotes, id, paid, tokens[i], budget, rates, now, reading.rounds[0].price,
                          reading.rounds[i].price, margin);
  }

  // ---------------------------------------------------------------- quotes

  datatype Quote = Quote(expiration: int, rates: map<Address, nat>)
  datatype Issuance = Issuance(id: string, at: int, rates: map<Address, nat>)

  function Issue(quotes: map<string, Quote>, i: Issuance): map<string, Quote> {
    var more := quotes[i.id := Quote(i.at + LIFETIME, i.rates)];
    map id | id in more && more[id].expiration >= i.at - LIFETIME :: more[id]
  }

  function Book(log: seq<Issuance>): map<string, Quote> {
    if log == [] then map[] else Issue(Book(log[..|log| - 1]), log[|log| - 1])
  }

  ghost predicate Orderly(log: seq<Issuance>) {
    && (forall i, j :: 0 <= i < j < |log| ==> log[i].at <= log[j].at)
    && (forall i, j :: 0 <= i < j < |log| ==> log[i].id != log[j].id)
  }

  /** The pruned table holds exactly the issuances that are not yet a lifetime past their expiration. */
  lemma {:induction false} BookHolds(log: seq<Issuance>, k: nat)
    requires Orderly(log) && k < |log|
    ensures log[k].id in Book(log) <==> log[k].at + 2 * LIFETIME >= log[|log| - 1].at
    ensures log[k].id in Book(log) ==> Book(log)[log[k].id] == Quote(log[k].at + LIFETIME, log[k].rates)
  {
    var n := |log| - 1;
    assert forall i, j :: 0 <= i < j < n ==> log[..n][i].id != log[..n][j].id;
    if k < n {
      BookHolds(log[..n], k);
    }
  }

  lemma {:induction false} BookIsIssued(log: seq<Issuance>, id: string)
    requires id in Book(log)
    ensures exists k :: 0 <= k < |log| && log[k].id == id
  {
    var n := |log| - 1;
    if id == log[n].id {
      assert log[n].id == id;
    } else {
      BookIsIssued(log[..n], id);
      var k :| 0 <= k < n && log[..n][k].id == id;
      assert log[k].id == id;
    }
  }

  predicate Live(quotes: map<string, Quote>, id: string, now: int) {
    id in quotes && now < quotes[id].expiration
  }

  /** A quote is usable for exactly its lifetime: pruning never takes one early, nothing outlives it. */
  lemma {:induction false} LiveMeansRecent(log: seq<Issuance>, id: string, now: int)
    requires Orderly(log) && (forall i :: 0 <= i < |log| ==> log[i].at <= now)
    ensures Live(Book(log), id, now) <==> exists k :: 0 <= k < |log| && log[k].id == id && now < log[k].at + LIFETIME
  {
    if Live(Book(log), id, now) {
      BookIsIssued(log, id);
      var k :| 0 <= k < |log| && log[k].id == id;
      BookHolds(log, k);
    }
    if k :| 0 <= k < |log| && log[k].id == id && now < log[k].at + LIFETIME {
      BookHolds(log, k);
    }
  }

  // ---------------------------------------------------------------- acceptance

  /** A payment is accepted exactly within five minutes of an issuance of its quote that priced its token, when it
      is the only one and is worth the gas budget at the current rate. */
  lemma AcceptedPaymentWasQuoted(log: seq<Issuance>, id: string, paid: map<Address, int>, token: Address, budget: int,
                                 current: map<Address, nat>, now: int)
    requires Orderly(log) && (forall i :: 0 <= i < |log| ==> log[i].at <= now)
    ensures Covers(Book(log), id, paid, token, budget, current, now) <==>
              && (exists k :: 0 <= k < |log| && log[k].id == id && now < log[k].at + 300_000 && token in log[k].rates)
              && paid.Keys == {token} && 0 < paid[token] && 0 < budget
              && token in current && 0 < current[token]
              && budget * current[token] <= paid[token] * 1_000_000_000_000_000_000
  {
    hide Book;
    LiveMeansRecent(log, id, now);
    forall k | 0 <= k < |log| && log[k].id == id
      ensures id in Book(log) ==> Book(log)[id].rates == log[k].rates
    {
      BookHolds(log, k);
    }
  }

  class FeeDesk {
    var quotes: map<string, Quote>

    constructor ()
      ensures quotes == map[]
    {
      quotes := map[];
    }

    method IssueFee(id: string, now: int, rates: map<Address, nat>)
      modifies this
      ensures quotes == Issue(old(quotes), Issuance(id, now, rates))
    {
      quotes := quotes[id := Quote(now + LIFETIME, rates)];
      quotes := map k | k in quotes && quotes[k].expiration >= now - LIFETIME :: quotes[k];
    }

    method ValidateFee(id: string, paid: map<Address, int>, budget: int, current: map<Address, nat>, now: int)
      returns (accepted: bool)
      ensures accepted <==> exists token :: Covers(quotes, id, paid, token, budget, current, now)
    {
      if id !in quotes || quotes[id].expiration <= now { return false; }
      var issued := quotes[id].rates;
      if |paid| != 1 || budget <= 0 {
        if exists token :: paid.Keys == {token} {
          assert |paid.Keys| == |paid|;
        }
        return false;
      }
      var token :| token in paid;
      SingleKey(paid, token);
      var amount := paid[token];
      var refused := token !in issued || token !in current || current[token] == 0 || amount <= 0
                     || amount < CeilDiv(budget * current[token], WEI);
      if !refused {
        assert Covers(quotes, id, paid, token, budget, current, now);
      }
      return !refused;
    }
  }

  lemma SingleKey<K, V>(m: map<K, V>, key: K)
    requires |m| == 1 && key in m
    ensures m.Keys == {key}
  {
    assert |m.Keys| == 1 && |m.Keys - {key}| == 0;
  }

  /** One payment, in a token of a live quote, worth at least the gas budget at the current rate. */
  predicate Covers(quotes: map<string, Quote>, id: string, paid: map<Address, int>, token: Address, budget: int,
                   current: map<Address, nat>, now: int) {
    && Live(quotes, id, now) && token in quotes[id].rates
    && paid.Keys == {token} && 0 < paid[token]
    && 0 < budget && token in current && 0 < current[token]
    && budget * current[token] <= paid[token] * WEI
  }

  /** Whatever is accepted under current rates repays the gas and the whole margin, through three ceilings. */
  lemma AcceptedFeeCoversCost(quotes: map<string, Quote>, id: string, paid: map<Address, int>, token: Token,
                              budget: int,
                              current: map<Address, nat>, now: int, ethUsd: nat, tokenUsd: nat, margin: nat)
    requires 0 < tokenUsd && Covers(quotes, id, paid, token.address, budget, current, now)
    requires current[token.address] == Rate(ethUsd, Power10(token.decimals), tokenUsd, margin)
    ensures budget * ethUsd * Power10(token.decimals) * (BPS + margin) <= paid[token.address] * tokenUsd * WEI * BPS
  {
    hide Power10, Rate;
    RateCovers(ethUsd, Power10(token.decimals), tokenUsd, margin);
    Chain(budget, ethUsd, Power10(token.decimals), BPS + margin, current[token.address], BPS, tokenUsd,
          paid[token.address], WEI);
  }

  lemma Chain(g: nat, e: nat, d: nat, m: nat, rate: nat, t: nat, p: nat, a: nat, w: nat)
    requires e * d * m <= rate * t * p && g * rate <= a * w
    ensures g * e * d * m <= a * p * w * t
  {
    Scale(e * d * m, rate * t * p, g);
    assert e * d * m * g == g * e * d * m;
    Scale(g * rate, a * w, t * p);
    assert g * rate * (t * p) == rate * t * p * g;
    assert a * w * (t * p) == a * p * w * t;
  }

  // ---------------------------------------------------------------- execution pricing

  datatype Request =
    | SignedCap(gasLimit: nat, maxFee: nat, tip: nat)
    | Common(gasPrice: nat, minimums: seq<nat>)
  {
    function Tip(): nat { if SignedCap? then tip else 1 }
  }
  datatype Execution = Execution(gasLimit: nat, price: nat)
  datatype Refusal = Pricing | Allowance | Reserve

  /** What request parsing already guarantees. */
  predicate Parsed(limits: Limits, request: Request) {
    match request
    case SignedCap(gasLimit, maxFee, tip) =>
      gasLimit <= MAX_GAS && maxFee <= limits.maxGasPrice && tip <= maxFee
          && gasLimit * maxFee <= limits.maxTransactionCost
    case Common(gasPrice, _) => gasPrice <= limits.maxGasPrice
  }

  /** The signed price, or the least price meeting every lower bound a common request has. */
  ghost predicate PriceOf(request: Request, baseFee: nat, price: nat) {
    match request
    case SignedCap(_, maxFee, _) => price == maxFee
    case Common(gasPrice, minimums) =>
      && gasPrice <= price && baseFee + 1 <= price && (forall m :: m in minimums ==> m <= price)
      && (price == gasPrice || price == baseFee + 1 || price in minimums)
  }

  /** The one execution the operator may sign: a tenth more gas than estimated, rounded up, within every limit. */
  ghost predicate Executable(limits: Limits, request: Request, estimate: nat, baseFee: nat, balance: nat,
                             e: Execution) {
    && 110 * estimate <= 100 * e.gasLimit < 110 * estimate + 100
    && e.gasLimit <= MAX_GAS && (request.SignedCap? ==> e.gasLimit <= request.gasLimit)
    && PriceOf(request, baseFee, e.price) && baseFee + request.Tip() <= e.price <= limits.maxGasPrice
    && e.gasLimit * e.price <= limits.maxTransactionCost && e.gasLimit * e.price + limits.reserve <= balance
  }

  /** Every figure of an execution, spelled out; whatever the mined price, the balance still holds the reserve
      afterwards. */
  lemma ExecutionFits(limits: Limits, request: Request, estimate: nat, baseFee: nat, balance: nat, e: Execution)
    ensures Executable(limits, request, estimate, baseFee, balance, e) <==>
              && e.gasLimit * e.price + limits.reserve <= balance && e.gasLimit * e.price <= limits.maxTransactionCost
              && 110 * estimate <= 100 * e.gasLimit && 100 * e.gasLimit - 100 < 110 * estimate
                 && e.gasLimit <= 8_000_000
              && e.price <= limits.maxGasPrice
              && match request
                 case SignedCap(gasLimit, maxFee, tip) =>
                   e.gasLimit <= gasLimit && e.price == maxFee && baseFee + tip <= e.price
                 case Common(gasPrice, minimums) =>
                   && gasPrice <= e.price && baseFee + 1 <= e.price && (forall m :: m in minimums ==> m <= e.price)
                   && (e.price == gasPrice || e.price == baseFee + 1 || e.price in minimums)
    ensures Executable(limits, request, estimate, baseFee, balance, e) ==>
              forall gasUsed: nat, price: nat :: gasUsed <= e.gasLimit && price <= e.price ==>
                gasUsed * price + limits.reserve <= balance
  {
    if Executable(limits, request, estimate, baseFee, balance, e) {
      forall gasUsed: nat, price: nat | gasUsed <= e.gasLimit && price <= e.price
        ensures gasUsed * price + limits.reserve <= balance
      {
        Scale(gasUsed, e.gasLimit, price);
        Scale(price, e.price, e.gasLimit);
      }
    }
  }

  /** There is exactly one such price. */
  method FindPrice(request: Request, baseFee: nat) returns (price: nat)
    ensures forall p :: PriceOf(request, baseFee, p) <==> p == price
    ensures request.SignedCap? ==> price == request.maxFee
  {
    match request {
      case SignedCap(_, maxFee, _) =>
        price := maxFee;
      case Common(gasPrice, minimums) =>
        price := gasPrice;
        for i := 0 to |minimums|
          invariant gasPrice <= price && (price == gasPrice || price in minimums)
          invariant forall j :: 0 <= j < i ==> minimums[j] <= price
        {
          if minimums[i] > price { price := minimums[i]; }
        }
        if baseFee + 1 > price { price := baseFee + 1; }
    }
  }

  method PriceExecution(limits: Limits, request: Request, estimate: nat, baseFee: nat, balance: nat)
    returns (r: Result<Execution, Refusal>)
    requires Parsed(limits, request)
    ensures r.Ok? ==> Executable(limits, request, estimate, baseFee, balance, r.value)
    ensures r.Ok? && request.SignedCap? ==> r.value.gasLimit * r.value.price <= request.gasLimit * request.maxFee
    ensures r.Err? ==> forall e :: !Executable(limits, request, estimate, baseFee, balance, e)
  {
    hide PriceOf;
    var price := FindPrice(request, baseFee);
    if request.Common? && price > limits.maxGasPrice { return Err(Pricing); }
    var allowed := if request.SignedCap? then request.gasLimit else MAX_GAS;
    var gasLimit := CeilDiv(estimate * 110, 100);
    if gasLimit > allowed || gasLimit > MAX_GAS { return Err(Allowance); }
    if price < baseFee + request.Tip() { return Err(Pricing); }
    var budget := gasLimit * price;
    if budget > limits.maxTransactionCost || balance < budget + limits.reserve { return Err(Reserve); }
    if request.SignedCap? {
      Scale(gasLimit, request.gasLimit, price);
    }
    r := Ok(Execution(gasLimit, price));
  }
}

/** Gas-price capping of the client, and its agreement with the operator's acceptance rule. */
module GasCap {
  import opened Basics
  import opened Transactions
  import opened FeeMarket

  datatype Gas = Gas(maxFee: nat, tip: nat)

  /** The fee in base units for `limit` gas at `price`, at `rate` base units per ether of gas. */
  function Fee(rate: nat, limit: nat, price: nat): nat {
    CeilDiv(rate * (price * limit), WEI)
  }

  function BroadcasterFee(rate: int, limit: nat, price: nat, expiration: int, now: int): Option<nat> {
    if expiration <= now + 60_000 || rate <= 0 then None else Some(Fee(rate, limit, price))
  }

  lemma DivisionAdjoint(a: nat, b: nat, q: nat)
    requires 0 < b
    ensures q * b <= a <==> q <= a / b
  {
    var d := a / b;
    assert d * b <= a < d * b + b;
    if q <= d {
      Scale(q, d, b);
    } else {
      Scale(d + 1, q, b);
      assert (d + 1) * b == d * b + b;
    }
  }

  lemma AffordableUpToCap(rate: nat, limit: nat, budget: nat, price: nat)
    requires 0 < rate * limit
    ensures Fee(rate, limit, price) <= budget <==> price <= budget * WEI / (rate * limit)
  {
    CeilDivIsLeast(rate * (price * limit), WEI, budget);
    DivisionAdjoint(budget * WEI, rate * limit, price);
    assert rate * (price * limit) == price * (rate * limit);
  }

  lemma Product(a: int, b: int)
    requires 0 < a && 0 < b
    ensures 0 < a * b
  {
  }

  /** The signed price is the highest one, not above the wanted price, whose fee fits the budget. */
  function CapGasPrice(gas: Gas, rate: int, limit: nat, budget: int): (r: Option<Gas>)
    requires 0 < limit
    ensures r.Some? <==> 0 < budget && 0 < rate
    ensures r.Some? ==> r.value.maxFee <= gas.maxFee
    ensures r.Some? ==>
      r.value.tip <= r.value.maxFee && r.value.tip <= gas.tip && r.value.tip in {gas.tip, r.value.maxFee}
    ensures r.Some? ==> forall p: nat :: p <= gas.maxFee ==> (Fee(rate, limit, p) <= budget <==> p <= r.value.maxFee)
  {
    if budget <= 0 || rate <= 0 then None
    else
      Product(rate, limit);
      var cap := budget * WEI / (rate * limit);
      var maxFee := if cap < gas.maxFee then cap else gas.maxFee;
      assert forall p: nat :: Fee(rate, limit, p) <= budget <==> p <= cap by {
        forall p: nat
          ensures Fee(rate, limit, p) <= budget <==> p <= cap
        {
          AffordableUpToCap(rate, limit, budget, p);
        }
      }
      Some(Gas(maxFee, if gas.tip > maxFee then maxFee else gas.tip))
  }

  /** The client's preparation loop. The capped price meets the network's price exactly when the balance pays for
      it; once it does, only a wanted price below the network's can still be refused. A fee that does not fit always
      leaves a lower price for the next attempt, and capping again changes nothing. */
  lemma CapMeetsNetworkPrice(gas: Gas, rate: int, limit: nat, budget: int, networkPrice: nat)
    requires 0 < limit && 0 < budget && 0 < rate
    ensures var capped := CapGasPrice(gas, rate, limit, budget).value;
            && (networkPrice <= gas.maxFee ==>
                  (networkPrice <= capped.maxFee <==> Fee(rate, limit, networkPrice) <= budget))
            && (Fee(rate, limit, networkPrice) <= budget ==>
                  (capped.maxFee < networkPrice <==> gas.maxFee < networkPrice))
            && (capped.maxFee < gas.maxFee <==> budget < Fee(rate, limit, gas.maxFee))
            && CapGasPrice(capped, rate, limit, budget) == Some(capped)
  {
    hide Fee;
  }

  /** The operator prices its own, smaller gas limit at the signed price. It accepts the client's fee exactly when
      its fee is no higher, and so always when its rate has not risen since the quote. */
  lemma OperatorAccepts(quotes: map<string, Quote>, id: string, token: Address, current: map<Address, nat>, now: int,
                        limits: Limits, request: Request, estimate: nat, baseFee: nat, balance: nat, e: Execution)
    requires Live(quotes, id, now) && token in quotes[id].rates && token in current
    requires 0 < quotes[id].rates[token] && 0 < current[token]
    requires request.SignedCap? && 0 < request.maxFee && 0 < estimate
    requires Executable(limits, request, estimate, baseFee, balance, e)
    ensures var paid := Fee(quotes[id].rates[token], request.gasLimit, request.maxFee);
            && (Covers(quotes, id, map[token := paid], token, e.gasLimit * e.price, current, now)
                <==> Fee(current[token], e.gasLimit, e.price) <= paid)
            && (current[token] <= quotes[id].rates[token] ==>
                Covers(quotes, id, map[token := paid], token, e.gasLimit * e.price, current, now))
  {
    hide Fee;
    var issued := quotes[id].rates[token];
    var paid := Fee(issued, request.gasLimit, request.maxFee);
    var budget := e.gasLimit * e.price;
    Product(e.gasLimit, e.price);
    FeePositive(issued, request.gasLimit, request.maxFee);
    FeeWithin(current[token], e.gasLimit, e.price, paid);
    var payment := map[token := paid];
    assert payment.Keys == {token} && payment[token] == paid;
    if current[token] <= issued {
      FeeMonotone(current[token], issued, e.gasLimit, request.gasLimit, e.price);
    }
  }

  lemma FeePositive(rate: nat, limit: nat, price: nat)
    requires 0 < rate && 0 < limit && 0 < price
    ensures 0 < Fee(rate, limit, price)
  {
    Product(price, limit);
    Product(rate, price * limit);
  }

  lemma FeeWithin(rate: nat, limit: nat, price: nat, paid: nat)
    ensures Fee(rate, limit, price) <= paid <==> limit * price * rate <= paid * WEI
  {
    CeilDivIsLeast(rate * (price * limit), WEI, paid);
    assert rate * (price * limit) == limit * price * rate;
  }

  lemma FeeMonotone(rate: nat, rate': nat, limit: nat, limit': nat, price: nat)
    requires rate <= rate' && limit <= limit'
    ensures Fee(rate, limit, price) <= Fee(rate', limit', price)
  {
    Scale(limit, limit', price);
    Scale(rate, rate', price * limit');
    Scale(price * limit, price * limit', rate);
    CeilDivMonotone(rate * (price * limit), rate' * (price * limit'), WEI);
  }

  /** From the user's budget to the operator's margin: a capped request costs the user at most the budget and
      still repays the operator's gas with its whole margin, for a minute after the client's last check, unless
      the rate has risen. */
  lemma CappedRequestSettles(quotes: map<string, Quote>, id: string, token: Token, current: map<Address, nat>,
                             sent: int, now: int, limits: Limits, gas: Gas, limit: nat, budget: int, estimate: nat,
                             baseFee: nat, balance: nat, e: Execution, ethUsd: nat, tokenUsd: nat, margin: nat)
    requires id in quotes && token.address in quotes[id].rates && token.address in current
    requires 0 < limit && 0 < budget && 0 < estimate && 0 < tokenUsd
    requires 0 < current[token.address] <= quotes[id].rates[token.address]
    requires current[token.address] == Rate(ethUsd, Power10(token.decimals), tokenUsd, margin)
    requires var rate := quotes[id].rates[token.address];
             var capped := CapGasPrice(gas, rate, limit, budget).value;
             && 0 < capped.maxFee && BroadcasterFee(rate, limit, capped.maxFee, quotes[id].expiration, sent).Some?
             && Executable(limits, SignedCap(limit, capped.maxFee, capped.tip), estimate, baseFee, balance, e)
    requires now <= sent + 60_000
    ensures var rate := quotes[id].rates[token.address];
            var capped := CapGasPrice(gas, rate, limit, budget).value;
            var paid := BroadcasterFee(rate, limit, capped.maxFee, quotes[id].expiration, sent).value;
            && paid <= budget
            && Covers(quotes, id, map[token.address := paid], token.address, e.gasLimit * e.price, current, now)
            && e.gasLimit * e.price * ethUsd * Power10(token.decimals) * (BPS + margin) <= paid * tokenUsd * WEI * BPS
  {
    hide Fee, Power10, Rate;
    var capped := CapGasPrice(gas, quotes[id].rates[token.address], limit, budget).value;
    var paid := Fee(quotes[id].rates[token.address], limit, capped.maxFee);
    OperatorAccepts(quotes, id, token.address, current, now, limits, SignedCap(limit, capped.maxFee, capped.tip),
                    estimate, baseFee, balance, e);
    AcceptedFeeCoversCost(quotes, id, map[token.address := paid], token, e.gasLimit * e.price, current, now,
                          ethUsd, tokenUsd, margin);
  }
}

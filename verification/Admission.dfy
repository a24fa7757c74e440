/** The broadcaster's volatile reservation: the synchronous prefix of `handle`, up to the point where the
    invocation either answers, is refused, or becomes the only one that may sign. */
module Admission {
  import opened Basics
  import opened RequestLedger

  const MINUTE_MS := 60_000
  const MAX_ATTEMPTS := 300
  const MAX_REQUESTS := 30

  datatype Gate = Gate(busy: bool, activeKey: Option<Key>, lastRequests: seq<int>, attempts: seq<int>)

  const IDLE := Gate(false, None, [], [])

  /** Verdicts of checks that read no journal: service armed and synchronized, request parses,
      pilot and withdrawal policy, and the fee quote is still live. */
  datatype Arrival = Arrival(armed: bool, parses: bool, permitted: bool, quoteLive: bool)

  datatype Verdict = Dropped | Replay(response: Cipher) | Refused | Reserved

  function Recent(times: seq<int>, now: int): (r: seq<int>)
    ensures |r| <= |times| && forall t :: t in r <==> t in times && now - t < MINUTE_MS
  {
    if times == [] then []
    else
      var front := Recent(times[..|times| - 1], now);
      var last := times[|times| - 1];
      if now - last < MINUTE_MS then front + [last] else front
  }

  function Admit(g: Gate, l: Ledger, key: Key, a: Arrival, now: int): (Gate, Verdict) {
    var existing := Get(l, key);
    if g.activeKey == Some(key) then (g, Dropped)
    else if existing.Some? && existing.value.response.Some? then (g, Replay(existing.value.response.value))
    else if existing.Some? && existing.value.raw.Some? then (g, Refused)
    else if !a.armed || g.busy || HasPending(l) then (g, Refused)
    else
      var g1 := g.(lastRequests := Recent(g.lastRequests, now), attempts := Recent(g.attempts, now));
      if |g1.attempts| >= MAX_ATTEMPTS then (g1, Refused)
      else
        var g2 := g1.(attempts := g1.attempts + [now]);
        if |g2.lastRequests| >= MAX_REQUESTS || !a.parses || !a.permitted || !a.quoteLive then (g2, Refused)
        else (g2.(busy := true, activeKey := Some(key)), Reserved)
  }

  /** Exactly which arrivals are dropped, replayed and reserved for; every other one is refused. A reservation names
      its key, and nothing else moves the reservation. */
  lemma AdmitsExactly(g: Gate, l: Ledger, key: Key, a: Arrival, now: int)
    ensures var (g', v) := Admit(g, l, key, a, now);
            && (v.Dropped? <==> g.activeKey == Some(key))
            && (forall c :: v == Replay(c) <==>
                  g.activeKey != Some(key) && Get(l, key).Some? && Get(l, key).value.response == Some(c))
            && (v.Reserved? <==>
                  && g.activeKey != Some(key)
                  && (Get(l, key).Some? ==> Get(l, key).value.response.None? && Get(l, key).value.raw.None?)
                  && a.armed && a.parses && a.permitted && a.quoteLive && !g.busy && !HasPending(l)
                  && |Recent(g.attempts, now)| < 300 && |Recent(g.lastRequests, now)| < 30)
            && (v.Reserved? ==> g'.busy && g'.activeKey == Some(key) && g'.attempts == Recent(g.attempts, now) + [now])
            && (!v.Reserved? ==> g'.busy == g.busy && g'.activeKey == g.activeKey)
  {
    hide Get, HasPending, Recent;
  }

  function Release(g: Gate): Gate {
    g.(busy := false, activeKey := None)
  }

  /** Stamped just before the signature is requested. */
  function RecordSigning(g: Gate, now: int): Gate {
    g.(lastRequests := g.lastRequests + [now])
  }

  // ---------------------------------------------------------------- rate limits against the full history

  lemma RecentSnoc(times: seq<int>, x: int, now: int)
    ensures Recent(times + [x], now) == if now - x < MINUTE_MS then Recent(times, now) + [x] else Recent(times, now)
  {
    assert (times + [x])[..|times|] == times;
  }

  /** Forgetting early loses nothing that a later filter would keep. */
  lemma {:induction false} RecentTwice(times: seq<int>, earlier: int, now: int)
    requires earlier <= now
    ensures Recent(Recent(times, earlier), now) == Recent(times, now)
  {
    if times != [] {
      var front, last := times[..|times| - 1], times[|times| - 1];
      RecentTwice(front, earlier, now);
      RecentSnoc(Recent(front, earlier), last, now);
    }
  }

  /** A duplicate or refusal that stops before the counters leaves them alone; anything else is counted. */
  predicate Counts(g: Gate, l: Ledger, key: Key, a: Arrival, now: int) {
    && g.activeKey != Some(key) && a.armed && !g.busy && !HasPending(l)
    && (Get(l, key).Some? ==> Get(l, key).value.response.None? && Get(l, key).value.raw.None?)
    && |Recent(g.attempts, now)| < MAX_ATTEMPTS
  }

  datatype Event = Knock(ledger: Ledger, key: Key, arrival: Arrival, now: int) | Signature(now: int) | Finish

  /** One life of the process: the gate, whether the holder may still sign, and every attempt and signature. */
  datatype Flow = Flow(gate: Gate, maySign: bool, attempts: seq<int>, signatures: seq<int>)

  function Next(f: Flow, e: Event): Flow {
    match e
    case Knock(l, key, a, now) =>
      var (gate, verdict) := Admit(f.gate, l, key, a, now);
      Flow(gate, f.maySign || verdict.Reserved?,
           if Counts(f.gate, l, key, a, now) then f.attempts + [now] else f.attempts, f.signatures)
    case Signature(now) =>
      if f.maySign then Flow(RecordSigning(f.gate, now), false, f.attempts, f.signatures + [now]) else f
    case Finish => Flow(Release(f.gate), false, f.attempts, f.signatures)
  }

  function Flowing(events: seq<Event>): Flow {
    if events == [] then Flow(IDLE, false, [], []) else Next(Flowing(events[..|events| - 1]), events[|events| - 1])
  }

  /** Every event is among the last `max` of the minute that it ends. */
  ghost predicate Limited(log: seq<int>, max: nat) {
    forall i :: 0 <= i < |log| ==> |Recent(log[..i + 1], log[i])| <= max
  }

  /** The gate's pruned list and the full log agree from now on. */
  ghost predicate Mirrors(list: seq<int>, log: seq<int>, now: int) {
    forall t :: now <= t ==> Recent(list, t) == Recent(log, t)
  }

  ghost predicate RateOk(f: Flow, now: int) {
    && Mirrors(f.gate.attempts, f.attempts, now) && Limited(f.attempts, MAX_ATTEMPTS)
    && Mirrors(f.gate.lastRequests, f.signatures, now) && Limited(f.signatures, MAX_REQUESTS)
    && (f.maySign ==> forall t :: now <= t ==> |Recent(f.signatures, t)| < MAX_REQUESTS)
  }

  lemma {:induction false} MirrorsPruned(list: seq<int>, log: seq<int>, earlier: int, now: int)
    requires Mirrors(list, log, earlier) && earlier <= now
    ensures Mirrors(Recent(list, now), log, now) && Mirrors(list, log, now)
  {
    forall t | now <= t
      ensures Recent(Recent(list, now), t) == Recent(log, t)
    {
      RecentTwice(list, now, t);
      assert Recent(list, t) == Recent(log, t);
    }
  }

  lemma {:induction false} Logged(list: seq<int>, log: seq<int>, now: int, max: nat)
    requires Mirrors(list, log, now) && Limited(log, max) && |Recent(log, now)| < max
    ensures Mirrors(list + [now], log + [now], now) && Limited(log + [now], max)
  {
    forall t | now <= t
      ensures Recent(list + [now], t) == Recent(log + [now], t)
    {
      RecentSnoc(list, now, t);
      RecentSnoc(log, now, t);
      assert Recent(list, t) == Recent(log, t);
    }
    forall i | 0 <= i < |log| + 1
      ensures |Recent((log + [now])[..i + 1], (log + [now])[i])| <= max
    {
      if i < |log| {
        assert (log + [now])[..i + 1] == log[..i + 1];
      } else {
        assert (log + [now])[..i + 1] == log + [now];
        RecentSnoc(log, now, now);
      }
    }
  }

  lemma FewerLater(log: seq<int>, now: int, max: nat)
    requires |Recent(log, now)| < max
    ensures forall t :: now <= t ==> |Recent(log, t)| < max
  {
    forall t | now <= t
      ensures |Recent(log, t)| < max
    {
      RecentTwice(log, now, t);
    }
  }

  function At(e: Event, clock: int): int {
    if e.Finish? then clock else e.now
  }

  lemma RateStep(f: Flow, e: Event, clock: int)
    requires RateOk(f, clock) && clock <= At(e, clock)
    ensures RateOk(Next(f, e), At(e, clock))
  {
    hide Mirrors, Limited, Recent, HasPending, Get;
    var now := At(e, clock);
    MirrorsPruned(f.gate.attempts, f.attempts, clock, now);
    MirrorsPruned(f.gate.lastRequests, f.signatures, clock, now);
    SameNow(f.gate.attempts, f.attempts, now);
    SameNow(f.gate.lastRequests, f.signatures, now);
    if e.Knock? {
      if |Recent(f.attempts, now)| < MAX_ATTEMPTS {
        Logged(Recent(f.gate.attempts, now), f.attempts, now, MAX_ATTEMPTS);
      }
      if |Recent(f.signatures, now)| < MAX_REQUESTS {
        FewerLater(f.signatures, now, MAX_REQUESTS);
      }
    } else if e.Signature? && f.maySign {
      Logged(f.gate.lastRequests, f.signatures, now, MAX_REQUESTS);
    }
  }

  lemma SameNow(list: seq<int>, log: seq<int>, now: int)
    requires Mirrors(list, log, now)
    ensures Recent(list, now) == Recent(log, now)
  {}

  ghost predicate Monotone(events: seq<Event>) {
    forall i, j :: 0 <= i < j < |events| && !events[i].Finish? && !events[j].Finish? ==> events[i].now <= events[j].now
  }

  /** Over a whole life of the process no minute sees more than 300 admitted attempts or 30 signatures, although
      the gate forgets everything older and counts a signature only after its admission. */
  lemma {:induction false} RatesHold(events: seq<Event>, clock: int)
    requires Monotone(events) && forall i :: 0 <= i < |events| && !events[i].Finish? ==> events[i].now <= clock
    ensures RateOk(Flowing(events), clock)
    ensures Limited(Flowing(events).attempts, MAX_ATTEMPTS) && Limited(Flowing(events).signatures, MAX_REQUESTS)
  {
    if events != [] {
      var front, e := events[..|events| - 1], events[|events| - 1];
      RatesHold(front, At(e, clock));
      RateStep(Flowing(front), e, At(e, clock));
      RateLater(Flowing(events), At(e, clock), clock);
    }
  }

  lemma RateLater(f: Flow, clock: int, now: int)
    requires RateOk(f, clock) && clock <= now
    ensures RateOk(f, now)
  {
    hide Recent, Limited;
  }
}

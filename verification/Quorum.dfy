/** Verification of token launches against three racing RPC endpoints: one authoritative, two mirrors. */
module Quorum {
  import opened Basics

  const TRUSTED := 0
  const ENDPOINTS := 3
  const QUORUM := 2
  const FIRST_CHUNK := 5
  const BATCH_SIZE := 20

  /** What an endpoint settles with: the ids it verified, or None for any failure. */
  type Settled = Option<set<nat>>

  datatype Failure = QuorumUnavailable | Malformed | Invalid | Incomplete

  ghost predicate SettlementOrder(order: seq<nat>) {
    |order| == ENDPOINTS && (forall i :: 0 <= i < ENDPOINTS ==> order[i] < ENDPOINTS)
    && (forall i, j :: 0 <= i < j < ENDPOINTS ==> order[i] != order[j])
  }

  /** The order-free meaning of a batch. */
  function Agreed(settled: seq<Settled>): Option<set<nat>>
    requires |settled| == ENDPOINTS
  {
    if settled[0].Some? then settled[0]
    else if settled[1].Some? && settled[2].Some? then Some(settled[1].value * settled[2].value)
    else None
  }

  function Verified<T>(chunk: seq<T>, first: nat, ids: set<nat>): seq<T> {
    if chunk == [] then []
    else
      var n := |chunk| - 1;
      var front := Verified(chunk[..n], first, ids);
      if first + n in ids then front + [chunk[n]] else front
  }

  /** The result is the chunk read at an ascending list of positions: exactly those whose id was verified. */
  ghost predicate Picks<T(!new)>(chunk: seq<T>, first: nat, ids: set<nat>, result: seq<T>) {
    exists at: seq<nat> :: Positions(at, chunk, first, ids) && ReadAt(chunk, at, result)
  }

  ghost predicate Positions<T(!new)>(at: seq<nat>, chunk: seq<T>, first: nat, ids: set<nat>) {
    && (forall i, j :: 0 <= i < j < |at| ==> at[i] < at[j])
    && (forall p: nat :: p in at <==> p < |chunk| && first + p in ids)
  }

  ghost predicate ReadAt<T(!new)>(chunk: seq<T>, at: seq<nat>, result: seq<T>) {
    |result| == |at| && forall i :: 0 <= i < |at| ==> at[i] < |chunk| && result[i] == chunk[at[i]]
  }

  lemma {:induction false} VerifiedPicks<T(!new)>(chunk: seq<T>, first: nat, ids: set<nat>) returns (at: seq<nat>)
    ensures Positions(at, chunk, first, ids) && ReadAt(chunk, at, Verified(chunk, first, ids))
  {
    if chunk == [] {
      at := [];
    } else {
      hide Positions, ReadAt;
      var front, n := chunk[..|chunk| - 1], |chunk| - 1;
      var before := VerifiedPicks(front, first, ids);
      at := if first + n in ids then before + [n] else before;
      NextPosition(chunk, first, ids, front, before, at);
      NextRead(chunk, front, before, Verified(front, first, ids));
    }
  }

  lemma NextPosition<T(!new)>(chunk: seq<T>, first: nat, ids: set<nat>, front: seq<T>, before: seq<nat>, at: seq<nat>)
    requires chunk != [] && front == chunk[..|chunk| - 1] && Positions(before, front, first, ids)
    requires at == if first + |front| in ids then before + [|front|] else before
    ensures Positions(at, chunk, first, ids)
  {
    forall i | 0 <= i < |before|
      ensures before[i] < |front|
    {
      assert before[i] in before;
    }
    forall p: nat
      ensures p in at <==> p < |chunk| && first + p in ids
    {
      if first + |front| in ids { InAppended(before, |front|, p); }
    }
  }

  lemma InAppended(s: seq<nat>, x: nat, p: nat)
    ensures p in s + [x] <==> p in s || p == x
  {
    assert (s + [x])[|s|] == x;
  }

  lemma NextRead<T(!new)>(chunk: seq<T>, front: seq<T>, at: seq<nat>, result: seq<T>)
    requires chunk != [] && front == chunk[..|chunk| - 1] && ReadAt(front, at, result)
    ensures ReadAt(chunk, at, result) && ReadAt(chunk, at + [|front|], result + [chunk[|front|]])
  {}

  function Votes(sets: seq<set<nat>>, id: nat): nat {
    if sets == [] then 0
    else Votes(sets[..|sets| - 1], id) + if id in sets[|sets| - 1] then 1 else 0
  }

  /** The ids with a quorum of votes, by counting. */
  function Counted<T>(chunk: seq<T>, first: nat, sets: seq<set<nat>>): seq<T> {
    if chunk == [] then []
    else
      var n := |chunk| - 1;
      var front := Counted(chunk[..n], first, sets);
      if Votes(sets, first + n) >= QUORUM then front + [chunk[n]] else front
  }

  lemma TwoVotes(a: set<nat>, b: set<nat>, id: nat)
    ensures Votes([a, b], id) == (if id in a then 1 else 0) + (if id in b then 1 else 0)
  {
    assert [a, b][..1] == [a] && [a][..0] == [];
    assert Votes([a], id) == if id in a then 1 else 0;
  }

  lemma {:induction false} CountedIsIntersection<T>(chunk: seq<T>, first: nat, a: set<nat>, b: set<nat>)
    ensures Counted(chunk, first, [a, b]) == Verified(chunk, first, a * b)
  {
    if chunk != [] {
      CountedIsIntersection(chunk[..|chunk| - 1], first, a, b);
      TwoVotes(a, b, first + |chunk| - 1);
    }
  }

  /** The sets of the first `k` endpoints to settle successfully, in that order. */
  function Successes(settled: seq<Settled>, order: seq<nat>, k: nat): seq<set<nat>>
    requires |settled| == ENDPOINTS && k <= |order| && forall i :: 0 <= i < |order| ==> order[i] < ENDPOINTS
  {
    if k == 0 then []
    else
      var front := Successes(settled, order, k - 1);
      if settled[order[k - 1]].Some? then front + [settled[order[k - 1]].value] else front
  }

  /** Settles endpoints in the given order, with the early return on the authoritative endpoint, the early
      failure when a quorum has become impossible, and the shortcut on two equal sets. The result is that
      of `Agreed`, whatever the order. */
  method VerifyChunk<T(!new)>(chunk: seq<T>, first: nat, settled: seq<Settled>, order: seq<nat>)
    returns (r: Result<seq<T>, Failure>)
    requires |settled| == ENDPOINTS && SettlementOrder(order)
    ensures r == match Agreed(settled)
                 case Some(ids) => Ok(Verified(chunk, first, ids))
                 case None => Err(QuorumUnavailable)
    ensures r.Ok? <==> settled[0].Some? || (settled[1].Some? && settled[2].Some?)
    ensures r.Ok? ==>
      Picks(chunk, first, if settled[0].Some? then settled[0].value else settled[1].value * settled[2].value, r.value)
  {
    if Agreed(settled).Some? {
      var _ := VerifiedPicks(chunk, first, Agreed(settled).value);
    }
    var remaining := {0, 1, 2};
    var verifiedSets: seq<set<nat>> := [];
    for k := 0 to ENDPOINTS
      invariant |remaining| == ENDPOINTS - k
      invariant forall i :: 0 <= i < ENDPOINTS ==> (order[i] in remaining <==> k <= i)
      invariant verifiedSets == Successes(settled, order, k)
      invariant forall i :: 0 <= i < k && order[i] == TRUSTED ==> settled[TRUSTED].None?
    {
      var index := order[k];
      remaining := remaining - {index};
      var value := settled[index];
      var earlier := verifiedSets;
      if value.Some? {
        verifiedSets := verifiedSets + [value.value];
      }
      if value.Some? && index == TRUSTED {
        return Ok(Verified(chunk, first, value.value));
      }
      var trustedPending := TRUSTED in remaining;
      if !trustedPending && |verifiedSets| + |remaining| < QUORUM {
        var _ := TrustedPosition(order);
        NoQuorumLeft(settled, order, k + 1);
        return Err(QuorumUnavailable);
      }
      if value.Some? {
        var matching := exists i :: 0 <= i < |earlier| && earlier[i] == value.value;
        if matching && !trustedPending {
          var _ := TrustedPosition(order);
          MirrorsMatch(settled, order, k);
          return Ok(Verified(chunk, first, value.value));
        }
      }
    }
    var _ := TrustedPosition(order);
    BothMirrors(settled, order);
    if |verifiedSets| < QUORUM {
      return Err(QuorumUnavailable);
    }
    assert verifiedSets == [verifiedSets[0], verifiedSets[1]];
    CountedIsIntersection(chunk, first, verifiedSets[0], verifiedSets[1]);
    r := Ok(Counted(chunk, first, verifiedSets));
  }

  lemma SixOrders(order: seq<nat>)
    requires SettlementOrder(order)
    ensures order in {[0, 1, 2], [0, 2, 1], [1, 0, 2], [2, 0, 1], [1, 2, 0], [2, 1, 0]}
  {
    var a, b, c := order[0], order[1], order[2];
    assert a < 3 && b < 3 && c < 3 && a != b && a != c && b != c;
    assert order == [a, b, c];
  }

  lemma TrustedPosition(order: seq<nat>) returns (i: nat)
    requires SettlementOrder(order)
    ensures i < ENDPOINTS && order[i] == TRUSTED
  {
    SixOrders(order);
    i := if order[0] == TRUSTED then 0 else if order[1] == TRUSTED then 1 else 2;
  }

  function Won(settled: seq<Settled>, i: nat): seq<set<nat>>
    requires i < |settled|
  {
    if settled[i].Some? then [settled[i].value] else []
  }

  lemma Unrolled(settled: seq<Settled>, order: seq<nat>)
    requires |settled| == ENDPOINTS && SettlementOrder(order)
    ensures Successes(settled, order, 0) == []
    ensures Successes(settled, order, 1) == Won(settled, order[0])
    ensures Successes(settled, order, 2) == Won(settled, order[0]) + Won(settled, order[1])
    ensures Successes(settled, order, 3) == Won(settled, order[0]) + Won(settled, order[1]) + Won(settled, order[2])
  {
    assert Successes(settled, order, 1) == Successes(settled, order, 0) + Won(settled, order[0]);
    assert Successes(settled, order, 2) == Successes(settled, order, 1) + Won(settled, order[1]);
    assert Successes(settled, order, 3) == Successes(settled, order, 2) + Won(settled, order[2]);
  }

  lemma NoQuorumLeft(settled: seq<Settled>, order: seq<nat>, k: nat)
    requires |settled| == ENDPOINTS && SettlementOrder(order) && 0 < k <= ENDPOINTS && settled[TRUSTED].None?
    requires exists i :: 0 <= i < k && order[i] == TRUSTED
    requires |Successes(settled, order, k)| + ENDPOINTS - k < QUORUM
    ensures Agreed(settled).None?
  {
    hide Successes;
    SixOrders(order);
    Unrolled(settled, order);
    if k == 2 {
      assert order[0] == TRUSTED || order[1] == TRUSTED;
    }
  }

  /** The shortcut fires only on the two mirrors, once the authoritative endpoint has failed. */
  lemma MirrorsMatch(settled: seq<Settled>, order: seq<nat>, k: nat)
    requires |settled| == ENDPOINTS && SettlementOrder(order) && k < ENDPOINTS && settled[TRUSTED].None?
    requires settled[order[k]].Some?
    requires exists i ::
               0 <= i < |Successes(settled, order, k)| && Successes(settled, order, k)[i] == settled[order[k]].value
    ensures Agreed(settled) == settled[order[k]]
  {
    hide Successes;
    SixOrders(order);
    Unrolled(settled, order);
    var value := settled[order[k]].value;
    if k == 2 {
      assert |Won(settled, order[0]) + Won(settled, order[1])| == 1;
    }
    assert settled[1].Some? && settled[2].Some? && settled[1].value == settled[2].value == value;
    assert settled[1].value * settled[2].value == value;
  }

  lemma BothMirrors(settled: seq<Settled>, order: seq<nat>)
    requires |settled| == ENDPOINTS && SettlementOrder(order) && settled[TRUSTED].None?
    ensures var sets := Successes(settled, order, ENDPOINTS);
            if |sets| < QUORUM then Agreed(settled).None?
            else |sets| == 2 && Agreed(settled) == Some(sets[0] * sets[1])
  {
    hide Successes;
    SixOrders(order);
    Unrolled(settled, order);
    if settled[1].Some? && settled[2].Some? {
      assert settled[1].value * settled[2].value == settled[2].value * settled[1].value;
    }
  }

  // ---------------------------------------------------------------- batches

  function Flatten<T>(chunks: seq<seq<T>>): seq<T> {
    if chunks == [] then [] else Flatten(chunks[..|chunks| - 1]) + chunks[|chunks| - 1]
  }

  lemma FlattenSnoc<T>(chunks: seq<seq<T>>, chunk: seq<T>)
    ensures Flatten(chunks + [chunk]) == Flatten(chunks) + chunk
  {
    assert (chunks + [chunk])[..|chunks|] == chunks;
  }

  /** A small first batch, then full ones; nothing is lost, repeated or reordered. */
  method Chunk<T>(candidates: seq<T>) returns (chunks: seq<seq<T>>)
    ensures Flatten(chunks) == candidates
    ensures forall i :: 0 <= i < |chunks| ==> 0 < |chunks[i]| <= if i == 0 then FIRST_CHUNK else BATCH_SIZE
  {
    chunks := [];
    var start := 0;
    while start < |candidates|
      invariant 0 <= start && (start == 0 <==> chunks == [])
      invariant Flatten(chunks) == if start <= |candidates| then candidates[..start] else candidates
      invariant forall i :: 0 <= i < |chunks| ==> 0 < |chunks[i]| <= if i == 0 then FIRST_CHUNK else BATCH_SIZE
      decreases |candidates| - start
    {
      var size := if start == 0 then FIRST_CHUNK else BATCH_SIZE;
      var end := if start + size < |candidates| then start + size else |candidates|;
      FlattenSnoc(chunks, candidates[start..end]);
      assert candidates[..start] + candidates[start..end] == candidates[..end];
      assert candidates[..|candidates|] == candidates;
      chunks := chunks + [candidates[start..end]];
      start := start + size;
    }
    assert candidates[..|candidates|] == candidates;
  }

  /** How many leading batches reach an agreement. */
  function Leading(settled: seq<seq<Settled>>): (n: nat)
    requires forall i :: 0 <= i < |settled| ==> |settled[i]| == ENDPOINTS
    ensures n <= |settled| && (forall i :: 0 <= i < n ==> Agreed(settled[i]).Some?)
    ensures n < |settled| ==> Agreed(settled[n]).None?
  {
    if settled == [] then 0
    else
      var last := |settled| - 1;
      var n := Leading(settled[..last]);
      if n < last then n else if Agreed(settled[last]).Some? then last + 1 else last
  }

  /** What the first `n` batches publish. */
  function Published<T>(chunks: seq<seq<T>>, settled: seq<seq<Settled>>, n: nat): (r: seq<seq<T>>)
    requires |chunks| == |settled| && n <= |chunks|
    requires forall i :: 0 <= i < |settled| ==> |settled[i]| == ENDPOINTS
    requires forall i :: 0 <= i < n ==> Agreed(settled[i]).Some?
    ensures |r| == n
  {
    if n == 0 then []
    else Published(chunks, settled, n - 1) + [Verified(chunks[n - 1], (n - 1) * BATCH_SIZE,
                                                       Agreed(settled[n - 1]).value)]
  }

  /** The batches before the first that finds no agreement, each at the ids of its own place in the sequence. */
  ghost predicate LeadingParts<T(!new)>(chunks: seq<seq<T>>, settled: seq<seq<Settled>>, parts: seq<seq<T>>)
    requires |chunks| == |settled| && forall i :: 0 <= i < |settled| ==> |settled[i]| == ENDPOINTS
  {
    && |parts| <= |chunks|
    && (forall k :: 0 <= k < |parts| ==>
          Agreed(settled[k]).Some? && Picks(chunks[k], 20 * k, Agreed(settled[k]).value, parts[k]))
    && (|parts| < |chunks| ==> Agreed(settled[|parts|]).None?)
  }

  lemma {:induction false} PublishedPicks<T(!new)>(chunks: seq<seq<T>>, settled: seq<seq<Settled>>, n: nat)
    requires |chunks| == |settled| && n <= |chunks| && forall i :: 0 <= i < |settled| ==> |settled[i]| == ENDPOINTS
    requires forall i :: 0 <= i < n ==> Agreed(settled[i]).Some?
    ensures forall k :: 0 <= k < n ==>
      Picks(chunks[k], 20 * k, Agreed(settled[k]).value, Published(chunks, settled, n)[k])
    ensures n == Leading(settled) ==> LeadingParts(chunks, settled, Published(chunks, settled, n))
  {
    hide Verified, Positions, ReadAt, Agreed;
    if n > 0 {
      PublishedPicks(chunks, settled, n - 1);
      var at := VerifiedPicks(chunks[n - 1], (n - 1) * BATCH_SIZE, Agreed(settled[n - 1]).value);
      assert Picks(chunks[n - 1], 20 * (n - 1), Agreed(settled[n - 1]).value,
                   Verified(chunks[n - 1], (n - 1) * BATCH_SIZE, Agreed(settled[n - 1]).value));
    }
  }

  /** Publishes exactly the leading agreed batches, never the failing one, and fails outright when they
      verified nothing or the overall deadline has passed. */
  method VerifyLaunches<T(!new)>(chunks: seq<seq<T>>, settled: seq<seq<Settled>>, orders: seq<seq<nat>>,
                                 aborted: seq<bool>)
    returns (r: Result<seq<T>, Failure>)
    requires |chunks| == |settled| == |orders| == |aborted|
    requires forall i :: 0 <= i < |chunks| ==> |settled[i]| == ENDPOINTS && SettlementOrder(orders[i])
    ensures var n := Leading(settled);
            var published := Published(chunks, settled, n);
            if n == |chunks| || (!aborted[n] && exists i :: 0 <= i < n && published[i] != [])
            then r == Ok(Flatten(published)) else r == Err(QuorumUnavailable)
    ensures r.Ok? ==> exists parts: seq<seq<T>> :: r.value == Flatten(parts) && LeadingParts(chunks, settled, parts)
  {
    hide Verified, Flatten, LeadingParts, Picks;
    PublishedPicks(chunks, settled, Leading(settled));
    assert LeadingParts(chunks, settled, Published(chunks, settled, Leading(settled)));
    var verifiedChunks: seq<seq<T>> := [];
    for i := 0 to |chunks|
      invariant forall j :: 0 <= j < i ==> Agreed(settled[j]).Some?
      invariant verifiedChunks == Published(chunks, settled, i) && |verifiedChunks| == i
    {
      var outcome := VerifyChunk(chunks[i], i * BATCH_SIZE, settled[i], orders[i]);
      if outcome.Err? {
        assert Leading(settled) == i;
        if !aborted[i] && exists j :: 0 <= j < |verifiedChunks| && verifiedChunks[j] != [] {
          return Ok(Flatten(verifiedChunks));
        }
        return Err(outcome.error);
      }
      verifiedChunks := verifiedChunks + [outcome.value];
    }
    r := Ok(Flatten(verifiedChunks));
  }

  // ---------------------------------------------------------------- batch replies

  datatype Reply<R> = Reply(id: Option<int>, result: Option<R>, failed: bool)

  predicate Fine<R(!new)>(x: Reply<R>, expected: seq<int>) {
    x.id.Some? && x.id.value in expected && !x.failed && x.result.Some?
  }

  ghost predicate Answered<R(!new)>(items: seq<Reply<R>>, id: int) {
    exists x :: x in items && x.id == Some(id)
  }

  ghost predicate DistinctIds<R(!new)>(items: seq<Reply<R>>) {
    forall i, j :: 0 <= i < j < |items| ==> items[i].id != items[j].id
  }

  /** Exactly one error-free result for every expected id, and nothing else. */
  ghost predicate Answers<R(!new)>(items: seq<Reply<R>>, expected: seq<int>) {
    && (forall x :: x in items ==> Fine(x, expected))
    && DistinctIds(items)
    && |items| == |expected| && (forall id :: id in expected ==> Answered(items, id))
  }

  ghost predicate Reads<R(!new)>(byId: map<int, R>, items: seq<Reply<R>>) {
    && (forall id :: id in byId <==> Answered(items, id))
    && (forall x :: x in items && x.id.Some? && x.id.value in byId ==> x.result == Some(byId[x.id.value]))
  }

  ghost predicate Loaded<R(!new)>(byId: map<int, R>, items: seq<Reply<R>>, expected: seq<int>) {
    && (forall x :: x in items ==> Fine(x, expected))
    && DistinctIds(items) && Reads(byId, items) && |byId| == |items|
  }

  lemma LoadedNext<R(!new)>(byId: map<int, R>, items: seq<Reply<R>>, x: Reply<R>, expected: seq<int>)
    requires Loaded(byId, items, expected) && Fine(x, expected) && x.id.value !in byId
    ensures Loaded(byId[x.id.value := x.result.value], items + [x], expected)
  {
    var more := byId[x.id.value := x.result.value];
    forall y | y in items
      ensures y.id.Some? && y.id.value in byId && y.id != x.id
    {
      assert Fine(y, expected) && y.id == Some(y.id.value);
      assert Answered(items, y.id.value);
    }
    assert DistinctIds(items + [x]);
    assert x in items + [x];
    assert Reads(more, items + [x]);
  }

  lemma RepeatedId<R(!new)>(byId: map<int, R>, items: seq<Reply<R>>, i: nat, expected: seq<int>)
    requires i < |items| && Loaded(byId, items[..i], expected) && items[i].id.Some? && items[i].id.value in byId
    ensures !DistinctIds(items)
  {
    var id := items[i].id.value;
    var x :| x in items[..i] && x.id == Some(id);
    var j :| 0 <= j < i && items[j] == x;
    assert items[j].id == items[i].id;
  }

  method RpcResultsById<R(!new)>(raw: Option<seq<Reply<R>>>, expected: seq<int>) returns (r: Result<map<int, R>,
                                                                                          Failure>)
    ensures r.Ok? <==> raw.Some? && Answers(raw.value, expected)
    ensures r.Ok? ==> Reads(r.value, raw.value)
  {
    if raw.None? { return Err(Malformed); }
    var items := raw.value;
    var byId: map<int, R> := map[];
    for i := 0 to |items|
      invariant Loaded(byId, items[..i], expected)
    {
      hide Loaded, Reads, DistinctIds;
      var item := items[i];
      assert item in items;
      if item.id.None? || item.id.value !in expected || item.failed { return Err(Invalid); }
      if item.result.None? { return Err(Incomplete); }
      if item.id.value in byId {
        RepeatedId(byId, items, i, expected);
        return Err(Incomplete);
      }
      LoadedNext(byId, items[..i], item, expected);
      assert items[..i] + [item] == items[..i + 1];
      byId := byId[item.id.value := item.result.value];
    }
    assert items[..|items|] == items;
    if |byId| != |expected| || exists id :: id in expected && id !in byId { return Err(Incomplete); }
    return Ok(byId);
  }

  lemma {:induction false} TwiceInSequence<X>(s: seq<X>, x: X)
    requires multiset(s)[x] >= 2
    ensures exists i, j :: 0 <= i < j < |s| && s[i] == x && s[j] == x
  {
    var n := |s| - 1;
    assert s == s[..n] + [s[n]];
    if s[n] == x {
      assert x in multiset(s[..n]);
      var i :| 0 <= i < n && s[..n][i] == x;
      assert s[i] == x && s[n] == x;
    } else {
      TwiceInSequence(s[..n], x);
      var i, j :| 0 <= i < j < n && s[..n][i] == x && s[..n][j] == x;
      assert s[i] == x && s[j] == x;
    }
  }

  /** Replies of a batch may come in any order. */
  lemma ReplyOrderIsIrrelevant<R(!new)>(a: seq<Reply<R>>, b: seq<Reply<R>>, expected: seq<int>, m: map<int, R>,
                                        n: map<int, R>)
    requires multiset(a) == multiset(b) && Answers(a, expected)
    ensures Answers(b, expected)
    ensures Reads(m, a) && Reads(n, b) ==> m == n
  {
    assert forall x :: x in a <==> x in multiset(a);
    assert forall x :: x in b <==> x in multiset(b);
    assert |a| == |multiset(a)| && |b| == |multiset(b)|;
    forall i, j | 0 <= i < j < |b|
      ensures b[i].id != b[j].id
    {
      if b[i] == b[j] {
        assert b == b[..j] + [b[j]] + b[j + 1..];
        assert b[i] in b[..j];
        assert multiset(b)[b[j]] >= 2;
        TwiceInSequence(a, b[j]);
      } else {
        assert b[i] in a && b[j] in a;
      }
    }
    if Reads(m, a) && Reads(n, b) {
      forall id
        ensures id in m <==> id in n
      {
        assert Answered(a, id) <==> Answered(b, id);
      }
      assert m.Keys == n.Keys;
      forall id | id in m
        ensures m[id] == n[id]
      {
        var x :| x in a && x.id == Some(id);
        assert x in b;
      }
    }
  }
}

/** The fail-closed guard over the failsafe policy of the RPC proxy. */
module FailsafeGuard {
  import opened Basics

  // ---------------------------------------------------------------- method patterns

  /** One alternative of a pattern, in which only `*` is special and stands for any characters but a newline. */
  predicate Glob(alt: string, name: string)
    decreases |alt| + |name|
  {
    if alt == "" then name == ""
    else if alt[0] == '*' then
      Glob(alt[1..], name) || (name != "" && name[0] != '\n' && Glob(alt, name[1..]))
    else name != "" && name[0] == alt[0] && Glob(alt[1..], name[1..])
  }

  function Stars(alt: string): nat {
    if alt == "" then 0 else Stars(alt[1..]) + if alt[0] == '*' then 1 else 0
  }

  /** The name obtained by writing the given texts for the stars. */
  function Filled(alt: string, fills: seq<string>): string
    requires |fills| == Stars(alt)
  {
    if alt == "" then ""
    else if alt[0] == '*' then fills[0] + Filled(alt[1..], fills[1..])
    else [alt[0]] + Filled(alt[1..], fills)
  }

  predicate OneLine(s: string) { '\n' !in s }

  ghost predicate Instance(alt: string, name: string) {
    exists fills: seq<string> :: |fills| == Stars(alt) && (forall f :: f in fills ==> OneLine(f))
        && Filled(alt, fills) == name
  }

  /** A glob matches exactly the names obtained by filling its stars. */
  lemma GlobIffInstance(alt: string, name: string)
    ensures Glob(alt, name) <==> Instance(alt, name)
  {
    if Glob(alt, name) {
      var _ := GlobFills(alt, name);
    }
    if Instance(alt, name) {
      var fills: seq<string> :| |fills| == Stars(alt) && (forall f :: f in fills ==> OneLine(f))
          && Filled(alt, fills) == name;
      FillsGlob(alt, name, fills);
    }
  }

  lemma {:induction false} GlobFills(alt: string, name: string) returns (fills: seq<string>)
    requires Glob(alt, name)
    ensures |fills| == Stars(alt) && (forall f :: f in fills ==> OneLine(f)) && Filled(alt, fills) == name
    decreases |alt| + |name|
  {
    if alt == "" {
      fills := [];
    } else if alt[0] != '*' {
      fills := GlobFills(alt[1..], name[1..]);
    } else if Glob(alt[1..], name) {
      var rest := GlobFills(alt[1..], name);
      fills := [""] + rest;
      assert fills[1..] == rest;
    } else {
      var rest := GlobFills(alt, name[1..]);
      fills := [[name[0]] + rest[0]] + rest[1..];
      assert fills[1..] == rest[1..];
      assert rest[0] in rest;
    }
  }

  lemma {:induction false} FillsGlob(alt: string, name: string, fills: seq<string>)
    requires |fills| == Stars(alt) && (forall f :: f in fills ==> OneLine(f)) && Filled(alt, fills) == name
    ensures Glob(alt, name)
    decreases |alt| + |name|
  {
    if alt == "" {
    } else if alt[0] != '*' {
      assert name[1..] == Filled(alt[1..], fills);
      FillsGlob(alt[1..], name[1..], fills);
    } else if fills[0] == "" {
      assert name == Filled(alt[1..], fills[1..]);
      FillsGlob(alt[1..], name, fills[1..]);
    } else {
      var shorter := Shorter(alt, name, fills);
      FillsGlob(alt, name[1..], shorter);
    }
  }

  /** A text for the first star gives its first character to the name. */
  lemma Shorter(alt: string, name: string, fills: seq<string>) returns (shorter: seq<string>)
    requires alt != "" && alt[0] == '*' && |fills| == Stars(alt) && Filled(alt, fills) == name
    requires fills[0] != "" && forall f :: f in fills ==> OneLine(f)
    ensures name != "" && name[0] != '\n' && |shorter| == Stars(alt) && Filled(alt, shorter) == name[1..]
    ensures forall f :: f in shorter ==> OneLine(f)
  {
    assert fills[0] in fills;
    shorter := [fills[0][1..]] + fills[1..];
    assert shorter[1..] == fills[1..];
    assert forall f :: f in shorter ==> f == fills[0][1..] || f in fills[1..];
    assert name == [fills[0][0]] + Filled(alt, shorter);
  }

  /** The pieces between separators; there is always at least one. */
  function Split(s: string, separator: char): (parts: seq<string>)
    ensures parts != []
  {
    if s == "" then [""]
    else
      var rest := Split(s[1..], separator);
      if s[0] == separator then [""] + rest else [[s[0]] + rest[0]] + rest[1..]
  }

  function Strip(s: string): (r: string)
    ensures r != "" ==> !Space(r[0]) && !Space(r[|r| - 1])
  {
    if s == "" then ""
    else if Space(s[0]) then Strip(s[1..])
    else if Space(s[|s| - 1]) then Strip(s[..|s| - 1])
    else s
  }

  type Pattern = Option<string>

  predicate MethodMatches(name: string, pattern: Pattern) {
    pattern.None? || exists a :: a in Split(pattern.value, '|') && Strip(a) != "" && Glob(Strip(a), name)
  }

  predicate CatchAll(pattern: Pattern) {
    pattern.None? || exists a :: a in Split(pattern.value, '|') && Strip(a) == "*"
  }

  // ---------------------------------------------------------------- what a pattern means

  function Join(parts: seq<string>, separator: char): string
    requires parts != []
  {
    if |parts| == 1 then parts[0] else parts[0] + [separator] + Join(parts[1..], separator)
  }

  /** Splitting loses nothing: the pieces have no separator in them, and joined by it they are the text again. */
  lemma {:induction false} SplitJoins(s: string, separator: char)
    ensures Join(Split(s, separator), separator) == s
    ensures forall part :: part in Split(s, separator) ==> separator !in part
  {
    if s != "" {
      hide Join;
      var rest := Split(s[1..], separator);
      SplitJoins(s[1..], separator);
      assert rest[0] in rest;
      JoinsNext(s[0], rest, separator);
    } else {
      assert Join([""], separator) == "";
    }
  }

  lemma JoinsNext(c: char, rest: seq<string>, separator: char)
    requires rest != []
    ensures Join([""] + rest, separator) == [separator] + Join(rest, separator)
    ensures Join([[c] + rest[0]] + rest[1..], separator) == [c] + Join(rest, separator)
  {
    assert ([""] + rest)[1..] == rest && ([[c] + rest[0]] + rest[1..])[1..] == rest[1..];
  }

  /** And it is the only way to do so. */
  lemma {:induction false} SplitIsUnique(parts: seq<string>, separator: char)
    requires parts != [] && forall part :: part in parts ==> separator !in part
    ensures Split(Join(parts, separator), separator) == parts
    decreases |parts|, |parts[0]|
  {
    var s := Join(parts, separator);
    if parts[0] != "" {
      var shorter := [parts[0][1..]] + parts[1..];
      assert parts[0] in parts && separator !in parts[0];
      assert forall part :: part in shorter ==> part == parts[0][1..] || part in parts;
      assert shorter[1..] == parts[1..];
      assert s == [parts[0][0]] + Join(shorter, separator);
      assert s[1..] == Join(shorter, separator);
      SplitIsUnique(shorter, separator);
      assert parts[0] == [s[0]] + shorter[0] && s[0] != separator;
      assert parts == [parts[0]] + parts[1..];
    } else if |parts| > 1 {
      assert s == [separator] + Join(parts[1..], separator);
      assert s[1..] == Join(parts[1..], separator);
      SplitIsUnique(parts[1..], separator);
      assert parts == [""] + parts[1..];
    } else {
      assert parts == [""];
    }
  }

  predicate AllSpace(s: string) { forall k :: 0 <= k < |s| ==> Space(s[k]) }

  predicate Padded(s: string, before: string, r: string, after: string) {
    s == before + r + after && AllSpace(before) && AllSpace(after)
  }

  /** What is stripped is the text between its outer spaces. */
  ghost predicate Stripped(s: string, r: string) {
    (r != "" ==> !Space(r[0]) && !Space(r[|r| - 1])) && exists before, after :: Padded(s, before, r, after)
  }

  lemma PadLeft(s: string, before: string, r: string, after: string)
    requires s != "" && Space(s[0]) && Padded(s[1..], before, r, after)
    ensures Padded(s, [s[0]] + before, r, after)
  {
    assert s == [s[0]] + (before + r + after) == ([s[0]] + before) + r + after;
  }

  lemma PadRight(s: string, before: string, r: string, after: string)
    requires s != "" && Space(s[|s| - 1]) && Padded(s[..|s| - 1], before, r, after)
    ensures Padded(s, before, r, after + [s[|s| - 1]])
  {
    assert s == (before + r + after) + [s[|s| - 1]] == before + r + (after + [s[|s| - 1]]);
  }

  lemma {:induction false} StripPads(s: string) returns (before: string, after: string)
    ensures Padded(s, before, Strip(s), after)
    decreases |s|
  {
    hide Padded;
    before, after := "", "";
    if s != "" && Space(s[0]) {
      before, after := StripPads(s[1..]);
      PadLeft(s, before, Strip(s), after);
      before := [s[0]] + before;
    } else if s != "" && Space(s[|s| - 1]) {
      before, after := StripPads(s[..|s| - 1]);
      PadRight(s, before, Strip(s), after);
      after := after + [s[|s| - 1]];
    } else {
      NotPadded(s);
    }
  }

  lemma NotPadded(s: string)
    ensures Padded(s, "", s, "")
  {}

  lemma StripStrips(s: string)
    ensures Stripped(s, Strip(s))
  {
    var _, _ := StripPads(s);
  }

  lemma {:induction false} PadsStrip(s: string, before: string, r: string, after: string)
    requires Padded(s, before, r, after) && (r != "" ==> !Space(r[0]) && !Space(r[|r| - 1]))
    ensures Strip(s) == r
    decreases |s|
  {
    if before != "" {
      assert s[0] == before[0] && s[1..] == before[1..] + r + after;
      PadsStrip(s[1..], before[1..], r, after);
    } else if after != "" && r == "" {
      assert s == after;
      PadsStrip(s[1..], before, r, after[1..]);
    } else if after != "" {
      assert s[0] == r[0] && s[|s| - 1] == after[|after| - 1];
      assert s[..|s| - 1] == before + r + after[..|after| - 1];
      PadsStrip(s[..|s| - 1], before, r, after[..|after| - 1]);
    } else {
      assert s == r;
    }
  }

  lemma StripIsUnique(s: string, r: string)
    requires Stripped(s, r)
    ensures Strip(s) == r
  {
    var before, after :| Padded(s, before, r, after);
    PadsStrip(s, before, r, after);
  }

  /** A stretch of the text between separators. */
  predicate Stretch(s: string, separator: char, i: nat, j: nat) {
    && i <= j <= |s| && separator !in s[i..j]
    && (i == 0 || s[i - 1] == separator) && (j == |s| || s[j] == separator)
  }

  ghost predicate Between(s: string, separator: char, from: nat, piece: string) {
    exists i: nat, j: nat :: from <= i && Stretch(s, separator, i, j) && s[i..j] == piece
  }

  lemma {:induction false} FirstPiece(s: string, separator: char) returns (j: nat)
    ensures Stretch(s, separator, 0, j) && Split(s, separator)[0] == s[0..j]
  {
    if s == "" || s[0] == separator {
      j := 0;
    } else {
      var k := FirstPiece(s[1..], separator);
      j := k + 1;
      assert s[0..j] == [s[0]] + s[1..][0..k];
    }
  }

  /** The later pieces are the stretches that start after a separator. */
  lemma {:induction false} LaterPieces(s: string, separator: char, piece: string)
    ensures piece in Split(s, separator)[1..] <==> Between(s, separator, 1, piece)
  {
    if s != "" {
      var rest := Split(s[1..], separator);
      LaterPieces(s[1..], separator, piece);
      var j := FirstPiece(s[1..], separator);
      ShiftPieces(s, separator, piece, j);
      assert Split(s, separator)[1..] == if s[0] == separator then rest else rest[1..];
      assert rest == [rest[0]] + rest[1..];
    }
  }

  lemma ShiftPieces(s: string, separator: char, piece: string, j: nat)
    requires s != "" && Stretch(s[1..], separator, 0, j)
    ensures s[0] != separator ==> (Between(s, separator, 1, piece) <==> Between(s[1..], separator, 1, piece))
    ensures s[0] == separator ==>
      (Between(s, separator, 1, piece) <==> piece == s[1..][0..j] || Between(s[1..], separator, 1, piece))
  {
    var t := s[1..];
    if Between(s, separator, 1, piece) {
      var a: nat, b: nat :| 1 <= a && Stretch(s, separator, a, b) && s[a..b] == piece;
      StretchDown(s, separator, a, b);
      if a == 1 { SameStretch(t, separator, b - 1, j); }
    }
    if Between(t, separator, 1, piece) {
      var a: nat, b: nat :| 1 <= a && Stretch(t, separator, a, b) && t[a..b] == piece;
      StretchUp(s, separator, a, b);
    }
    if s[0] == separator { StretchUp(s, separator, 0, j); }
  }

  lemma SameSlice(s: string, i: nat, j: nat)
    requires i <= j < |s|
    ensures s[i + 1..j + 1] == s[1..][i..j]
  {
    forall n | 0 <= n < j - i
      ensures s[i + 1..j + 1][n] == s[1..][i..j][n]
    {
      assert s[1..][i + n] == s[1 + i + n];
    }
  }

  lemma StretchUp(s: string, separator: char, i: nat, j: nat)
    requires s != "" && Stretch(s[1..], separator, i, j) && (i == 0 ==> s[0] == separator)
    ensures Stretch(s, separator, i + 1, j + 1) && s[i + 1..j + 1] == s[1..][i..j]
  {
    SameSlice(s, i, j);
  }

  lemma StretchDown(s: string, separator: char, i: nat, j: nat)
    requires 1 <= i && Stretch(s, separator, i, j)
    ensures Stretch(s[1..], separator, i - 1, j - 1) && s[i..j] == s[1..][i - 1..j - 1]
    ensures i == 1 ==> s[0] == separator
  {
    SameSlice(s, i - 1, j - 1);
  }

  lemma SameStretch(s: string, separator: char, j: nat, k: nat)
    requires Stretch(s, separator, 0, j) && Stretch(s, separator, 0, k)
    ensures j == k
  {
    assert forall n :: 0 <= n < k ==> s[0..k][n] == s[n];
    assert forall n :: 0 <= n < j ==> s[0..j][n] == s[n];
  }

  /** The pieces are exactly the stretches between separators. */
  lemma SplitIsStretches(s: string, separator: char, piece: string)
    ensures piece in Split(s, separator) <==> Between(s, separator, 0, piece)
  {
    var parts := Split(s, separator);
    var j := FirstPiece(s, separator);
    LaterPieces(s, separator, piece);
    assert parts == [parts[0]] + parts[1..];
    if Between(s, separator, 0, piece) {
      var a: nat, b: nat :| Stretch(s, separator, a, b) && s[a..b] == piece;
      if a == 0 { SameStretch(s, separator, b, j); }
    }
  }

  /** A pattern matches a name exactly when some stretch of it between bars, without its outer spaces, is not empty and
      becomes the name by writing one-line texts for its stars. */
  lemma PatternMeans(name: string, pattern: string)
    ensures MethodMatches(name, Some(pattern)) <==>
              exists piece, r :: Between(pattern, '|', 0, piece) && Stripped(piece, r) && r != "" && Instance(r, name)
  {
    hide Split, Strip, Stripped, Between, Instance, Glob;
    if MethodMatches(name, Some(pattern)) {
      var piece :| piece in Split(pattern, '|') && Strip(piece) != "" && Glob(Strip(piece), name);
      SplitIsStretches(pattern, '|', piece);
      StripStrips(piece);
      GlobIffInstance(Strip(piece), name);
    }
    if piece, r :| Between(pattern, '|', 0, piece) && Stripped(piece, r) && r != "" && Instance(r, name) {
      SplitIsStretches(pattern, '|', piece);
      StripIsUnique(piece, r);
      GlobIffInstance(r, name);
    }
  }

  predicate Plain(alt: string) {
    alt != "" && forall k :: 0 <= k < |alt| ==> alt[k] != '*' && alt[k] != '|' && !Space(alt[k])
  }

  lemma {:induction false} PlainGlob(alt: string, name: string)
    requires forall k :: 0 <= k < |alt| ==> alt[k] != '*'
    ensures Glob(alt, name) <==> alt == name
  {
    if alt != "" && name != "" { PlainGlob(alt[1..], name[1..]); }
  }

  /** A list of plain method names joined by bars matches exactly those names. */
  lemma ListedMethods(names: seq<string>, name: string)
    requires names != [] && forall alt :: alt in names ==> Plain(alt)
    ensures MethodMatches(name, Some(Join(names, '|'))) <==> name in names
  {
    hide Glob, Strip, Split, Join;
    SplitIsUnique(names, '|');
    forall alt | alt in names
      ensures Strip(alt) == alt && (Glob(alt, name) <==> alt == name)
    {
      PadsStrip(alt, "", alt, "");
      PlainGlob(alt, name);
    }
  }

  predicate SegmentChar(c: char) {
    'a' <= c <= 'z' || 'A' <= c <= 'Z' || '0' <= c <= '9' || c == '_' || c == '*'
  }

  predicate Modellable(pattern: Pattern) {
    pattern.None? || forall a, c :: a in Split(pattern.value, '|') && c in Strip(a) ==> SegmentChar(c)
  }

  lemma {:induction false} StarMatches(name: string)
    requires OneLine(name)
    ensures Glob("*", name)
  {
    if name != "" {
      StarMatches(name[1..]);
    }
  }

  lemma CatchAllMatches(pattern: Pattern, name: string)
    requires CatchAll(pattern) && OneLine(name)
    ensures MethodMatches(name, pattern)
  {
    if pattern.Some? {
      StarMatches(name);
      var a :| a in Split(pattern.value, '|') && Strip(a) == "*";
      assert Glob(Strip(a), name);
    }
  }

  /** A pattern catches everything exactly when a lone star stands between its bars. */
  lemma CatchAllMeans(pattern: string)
    ensures CatchAll(Some(pattern)) <==> exists piece :: Between(pattern, '|', 0, piece) && Stripped(piece, "*")
  {
    hide Split, Strip, Stripped, Between;
    if CatchAll(Some(pattern)) {
      var piece :| piece in Split(pattern, '|') && Strip(piece) == "*";
      SplitIsStretches(pattern, '|', piece);
      StripStrips(piece);
    }
    if piece :| Between(pattern, '|', 0, piece) && Stripped(piece, "*") {
      SplitIsStretches(pattern, '|', piece);
      StripIsUnique(piece, "*");
    }
  }

  /** The guard can follow a pattern exactly when the stretches between its bars, without their outer spaces, are made
      of letters, digits, underscores and stars. */
  lemma ModellableMeans(pattern: string)
    ensures Modellable(Some(pattern)) <==>
              forall piece, r :: Between(pattern, '|', 0, piece) && Stripped(piece, r) ==> AllNamed(r)
  {
    hide Split, Strip, Stripped, Between;
    if Modellable(Some(pattern)) {
      forall piece, r | Between(pattern, '|', 0, piece) && Stripped(piece, r)
        ensures AllNamed(r)
      {
        SplitIsStretches(pattern, '|', piece);
        StripIsUnique(piece, r);
        assert forall c :: c in r ==> SegmentChar(c);
      }
    }
    if forall piece, r :: Between(pattern, '|', 0, piece) && Stripped(piece, r) ==> AllNamed(r) {
      forall a, c | a in Split(pattern, '|') && c in Strip(a)
        ensures SegmentChar(c)
      {
        SplitIsStretches(pattern, '|', a);
        StripStrips(a);
        assert AllNamed(Strip(a));
      }
    }
  }

  predicate AllNamed(s: string) {
    forall c :: c in s ==>
      'a' <= c <= 'z' || 'A' <= c <= 'Z' || '0' <= c <= '9' || c == '_' || c == '*'
  }

  // ---------------------------------------------------------------- policy

  type Time = t: real | 0.0 <= t

  /** A duration setting. The guard reads plain milliseconds, seconds and minutes; a compound or larger unit, such as
      ninety seconds written "1m30s" or an hour, is in force all the same but unreadable to it. */
  datatype Duration = Absent | Unreadable(actual: Time) | Seconds(value: Time) {
    function InForce(): Time {
      match this
      case Absent => 0.0
      case Unreadable(actual) => actual
      case Seconds(value) => value
    }
  }
  datatype Value = Missing | Number(number: real) | Text(text: string)

  datatype Retry = Retry(maxAttempts: int, delay: Duration, backoffMaxDelay: Duration)
  datatype Hedge = Hedge(delay: Duration, maxCount: Option<int>)
  datatype Consensus = Consensus(maxParticipants: Value, agreementThreshold: Value, disputeBehavior: Value,
                                 lowParticipantsBehavior: Value, maxWaitOnResult: Value, maxWaitOnEmpty: Value)
  datatype Rule = Rule(matchMethod: Pattern, timeout: Duration, retry: Retry, consensus: Option<Consensus>,
                       hedge: Option<Hedge>)
  datatype Upstream = Upstream(failsafe: seq<Rule>)

  datatype Fault =
    | Unmodellable(rule: nat)
    | NotFailClosed(rule: nat)
    | NoNetworkTimeout
    | UnreadableTimeout(upstream: nat, rule: nat)
    | Starves(upstream: nat, rule: nat)
    | Undispatched(upstream: nat, rule: nat)
    | Overruns(upstream: nat, rule: nat)
    | NoCatchAll
    | NoHedge(rule: nat)
    | SlowHedge(rule: nat)
    | IdleHedge(rule: nat)
    | Unprotected(name: string)

  /** The values a consensus rule must have. */
  predicate FailClosed(c: Consensus) {
    && c.maxWaitOnResult == Text("12s") && c.maxWaitOnEmpty == Text("12s")
    && c.maxParticipants == Number(3.0) && c.agreementThreshold == Number(2.0)
    && c.disputeBehavior == Text("returnError") && c.lowParticipantsBehavior == Text("returnError")
  }

  /** First-match dispatch. */
  function Dispatch(rules: seq<Rule>, name: string): (i: Option<nat>)
    ensures i.Some? ==> i.value < |rules| && MethodMatches(name, rules[i.value].matchMethod)
    ensures forall k :: 0 <= k < (if i.Some? then i.value else |rules|) ==> !MethodMatches(name, rules[k].matchMethod)
  {
    if rules == [] then None
    else
      var n := |rules| - 1;
      var earlier := Dispatch(rules[..n], name);
      if earlier.Some? then earlier
      else if MethodMatches(name, rules[n].matchMethod) then Some(n)
      else None
  }

  function Attempts(retry: Retry): int {
    if retry.maxAttempts == 0 then 1 else retry.maxAttempts
  }

  /** The setting that caps the wait between attempts. */
  function Cap(retry: Retry): Duration {
    if retry.backoffMaxDelay.Absent? then retry.delay else retry.backoffMaxDelay
  }

  /** The wait between attempts that the guard budgets for; an unreadable setting counts as none. */
  function Gap(retry: Retry): Time {
    if Cap(retry).Seconds? then Cap(retry).value else 0.0
  }

  function Times(n: int, t: real): real { n as real * t }

  function SerialBudget(rule: Rule): Option<real> {
    if rule.timeout.Seconds?
    then Some(Times(Attempts(rule.retry), rule.timeout.value) + Times(Attempts(rule.retry) - 1, Gap(rule.retry)))
    else None
  }

  function Representative(alt: string): (name: string)
    ensures |name| == |alt|
  {
    seq(|alt|, k requires 0 <= k < |alt| => if alt[k] == '*' then 'x' else alt[k])
  }

  /** The deadline of a concrete method standing for the alternative. */
  function ResolvedTimeout(alt: string, rules: seq<Rule>): Option<real> {
    var i := Dispatch(rules, Representative(alt));
    if i.Some? && rules[i.value].timeout.Seconds? then Some(rules[i.value].timeout.value) else None
  }

  // ---------------------------------------------------------------- what a certified policy satisfies

  predicate BudgetWithin(rule: Rule, rules: seq<Rule>) {
    && rule.timeout.Seconds?
    && if CatchAll(rule.matchMethod)
       then forall i :: 0 <= i < |rules| && rules[i].timeout.Seconds? ==>
             SerialBudget(rule).value < rules[i].timeout.value
       else forall a :: a in Split(rule.matchMethod.value, '|') && Strip(a) != "" ==> PinnedWithin(rule, a, rules)
  }

  predicate PinnedWithin(rule: Rule, a: string, rules: seq<Rule>)
    requires rule.timeout.Seconds?
  {
    ResolvedTimeout(Strip(a), rules).Some? && SerialBudget(rule).value <= ResolvedTimeout(Strip(a), rules).value
  }

  predicate BudgetsHold(upstreams: seq<Upstream>, rules: seq<Rule>) {
    && (exists i :: 0 <= i < |rules| && rules[i].timeout.Seconds?)
    && forall u, j :: 0 <= u < |upstreams| && 0 <= j < |upstreams[u].failsafe| ==>
         BudgetWithin(upstreams[u].failsafe[j], rules)
  }

  predicate Hedged(rule: Rule) {
    && rule.hedge.Some? && rule.hedge.value.delay.Seconds? && rule.hedge.value.delay.value <= 2.0
    && rule.hedge.value.maxCount.Some? && rule.hedge.value.maxCount.value >= 1
  }

  predicate HedgesHold(rules: seq<Rule>) {
    && (exists i :: 0 <= i < |rules| && CatchAll(rules[i].matchMethod))
    && forall i :: 0 <= i < |rules| ==> rules[i].consensus.Some? || Hedged(rules[i])
  }

  predicate RuleHolds(rule: Rule) {
    Modellable(rule.matchMethod) && (rule.consensus.Some? ==> FailClosed(rule.consensus.value))
  }

  predicate ProtectionHolds(rules: seq<Rule>, name: string) {
    var i := Dispatch(rules, name);
    i.Some? && rules[i.value].consensus.Some? && FailClosed(rules[i.value].consensus.value)
  }

  predicate Certified(upstreams: seq<Upstream>, rules: seq<Rule>) {
    && (forall i :: 0 <= i < |rules| ==> RuleHolds(rules[i]))
    && BudgetsHold(upstreams, rules) && HedgesHold(rules)
    && forall name :: name in PROTECTED ==> ProtectionHolds(rules, name)
  }

  const PROTECTED: seq<string> := [
    "eth_call", "eth_getBalance", "eth_getCode", "eth_getStorageAt", "eth_getBlockByHash",
    "eth_getLogs", "eth_getTransactionByHash", "eth_estimateGas", "eth_feeHistory", "eth_getTransactionCount",
    "eth_getTransactionReceipt"]

  // ---------------------------------------------------------------- the checks

  ghost predicate Least(rules: seq<Rule>, bound: real) {
    && (exists i :: 0 <= i < |rules| && rules[i].timeout.Seconds? && rules[i].timeout.value == bound)
    && forall i :: 0 <= i < |rules| && rules[i].timeout.Seconds? ==> bound <= rules[i].timeout.value
  }

  method SmallestTimeout(rules: seq<Rule>) returns (least: Option<real>)
    ensures least.Some? <==> exists i :: 0 <= i < |rules| && rules[i].timeout.Seconds?
    ensures least.Some? ==> Least(rules, least.value)
  {
    least := None;
    for k := 0 to |rules|
      invariant least.None? ==> forall i :: 0 <= i < k ==> !rules[i].timeout.Seconds?
      invariant least.Some? ==>
        exists i :: 0 <= i < k && rules[i].timeout.Seconds? && rules[i].timeout.value == least.value
      invariant least.Some? ==> forall i :: 0 <= i < k && rules[i].timeout.Seconds? ==>
                  least.value <= rules[i].timeout.value
    {
      if rules[k].timeout.Seconds? && (least.None? || rules[k].timeout.value < least.value) {
        least := Some(rules[k].timeout.value);
      }
    }
  }

  method CheckPinned(rule: Rule, rules: seq<Rule>, u: nat, j: nat) returns (errs: seq<Fault>)
    requires rule.timeout.Seconds? && rule.matchMethod.Some?
    ensures errs == [] <==> forall a :: a in Split(rule.matchMethod.value, '|') && Strip(a) != "" ==>
              PinnedWithin(rule, a, rules)
  {
    errs := [];
    var parts := Split(rule.matchMethod.value, '|');
    for k := 0 to |parts|
      invariant errs == [] <==> forall i :: 0 <= i < k && Strip(parts[i]) != "" ==> PinnedWithin(rule, parts[i], rules)
    {
      var alt := Strip(parts[k]);
      if alt != "" {
        var bound := ResolvedTimeout(alt, rules);
        if bound.None? {
          errs := errs + [Undispatched(u, j)];
        } else if SerialBudget(rule).value > bound.value {
          errs := errs + [Overruns(u, j)];
        }
      }
    }
  }

  method CheckUpstreamBudgets(upstreams: seq<Upstream>, rules: seq<Rule>) returns (errs: seq<Fault>)
    ensures errs == [] <==> BudgetsHold(upstreams, rules)
  {
    hide SerialBudget, ResolvedTimeout, CatchAll;
    var bound := SmallestTimeout(rules);
    if bound.None? { return [NoNetworkTimeout]; }
    errs := [];
    for u := 0 to |upstreams|
      invariant errs == [] <==> forall v, j :: 0 <= v < u && 0 <= j < |upstreams[v].failsafe| ==>
        BudgetWithin(upstreams[v].failsafe[j], rules)
    {
      var failsafe := upstreams[u].failsafe;
      var earlier := errs;
      for j := 0 to |failsafe|
        invariant errs == [] <==> earlier == [] && forall k :: 0 <= k < j ==> BudgetWithin(failsafe[k], rules)
      {
        var faults := CheckBudget(failsafe[j], rules, bound.value, u, j);
        errs := errs + faults;
      }
    }
  }

  method CheckBudget(rule: Rule, rules: seq<Rule>, bound: real, u: nat, j: nat) returns (errs: seq<Fault>)
    requires Least(rules, bound)
    ensures errs == [] <==> BudgetWithin(rule, rules)
  {
    var budget := SerialBudget(rule);
    if budget.None? { return [UnreadableTimeout(u, j)]; }
    if CatchAll(rule.matchMethod) {
      return if budget.value >= bound then [Starves(u, j)] else [];
    }
    errs := CheckPinned(rule, rules, u, j);
  }

  method CheckNonconsensusHedges(rules: seq<Rule>) returns (errs: seq<Fault>)
    ensures errs == [] <==> HedgesHold(rules)
  {
    hide CatchAll;
    errs := [];
    if !exists i :: 0 <= i < |rules| && CatchAll(rules[i].matchMethod) {
      errs := errs + [NoCatchAll];
    }
    ghost var catchAll := errs == [];
    for i := 0 to |rules|
      invariant errs == [] <==> catchAll && forall k :: 0 <= k < i ==> rules[k].consensus.Some? || Hedged(rules[k])
    {
      if rules[i].consensus.Some? { continue; }
      var hedge := rules[i].hedge;
      if hedge.None? {
        errs := errs + [NoHedge(i)];
        continue;
      }
      if !hedge.value.delay.Seconds? || hedge.value.delay.value > 2.0 {
        errs := errs + [SlowHedge(i)];
      }
      if hedge.value.maxCount.None? || hedge.value.maxCount.value < 1 {
        errs := errs + [IdleHedge(i)];
      }
    }
  }

  /** The checks of one network, in the order the guard makes them. */
  method ValidateNetwork(upstreams: seq<Upstream>, rules: seq<Rule>) returns (errs: seq<Fault>)
    ensures errs == [] <==> Certified(upstreams, rules)
  {
    hide Modellable, FailClosed, BudgetsHold, HedgesHold;
    errs := [];
    for i := 0 to |rules|
      invariant errs == [] <==> forall k :: 0 <= k < i ==> RuleHolds(rules[k])
    {
      if !Modellable(rules[i].matchMethod) { errs := errs + [Unmodellable(i)]; }
      if rules[i].consensus.Some? && !FailClosed(rules[i].consensus.value) { errs := errs + [NotFailClosed(i)]; }
    }
    var budgets := CheckUpstreamBudgets(upstreams, rules);
    var hedges := CheckNonconsensusHedges(rules);
    errs := errs + budgets + hedges;
    ghost var before := errs;
    for k := 0 to |PROTECTED|
      invariant errs == [] <==> before == [] && forall n :: 0 <= n < k ==> ProtectionHolds(rules, PROTECTED[n])
    {
      var first := Dispatch(rules, PROTECTED[k]);
      if first.None? || rules[first.value].consensus.None? || !FailClosed(rules[first.value].consensus.value) {
        errs := errs + [Unprotected(PROTECTED[k])];
      }
    }
  }

  // ---------------------------------------------------------------- consequences

  /** Every method on one line is dispatched, either to a fail-closed quorum or to a rule that hedges within two
      seconds. */
  lemma EveryMethodIsCovered(upstreams: seq<Upstream>, rules: seq<Rule>, name: string)
    requires Certified(upstreams, rules) && OneLine(name)
    ensures var i := Dispatch(rules, name);
            && i.Some?
            && var rule := rules[i.value];
               if rule.consensus.Some? then FailClosed(rule.consensus.value) else Hedged(rule)
    ensures name in PROTECTED ==>
              rules[Dispatch(rules, name).value].consensus
              == Some(Consensus(Number(3.0), Number(2.0), Text("returnError"), Text("returnError"), Text("12s"),
                                Text("12s")))
  {
    hide CatchAll, MethodMatches;
    var k :| 0 <= k < |rules| && CatchAll(rules[k].matchMethod);
    CatchAllMatches(rules[k].matchMethod, name);
    assert Dispatch(rules, name).Some?;
    assert RuleHolds(rules[Dispatch(rules, name).value]);
  }

  function Total(times: seq<real>): real {
    if times == [] then 0.0 else Total(times[..|times| - 1]) + times[|times| - 1]
  }

  lemma {:induction false} TotalBound(times: seq<real>, each: real)
    requires forall i :: 0 <= i < |times| ==> times[i] <= each
    ensures Total(times) <= Times(|times|, each)
  {
    if times != [] {
      var n := |times| - 1;
      TotalBound(times[..n], each);
      assert (n + 1) as real * each == n as real * each + each;
    }
  }

  /** One request held by one upstream: some attempts, none over the timeout, with waits up to the cap in force
      between them. */
  ghost predicate Holds(rule: Rule, attempts: seq<real>, waits: seq<real>)
    requires rule.timeout.Seconds?
  {
    && 1 <= |attempts| <= (if rule.retry.maxAttempts == 0 then 1 else rule.retry.maxAttempts)
    && |waits| == |attempts| - 1
    && (forall i :: 0 <= i < |attempts| ==> 0.0 <= attempts[i] <= rule.timeout.value)
    && var cap := if rule.retry.backoffMaxDelay.Absent? then rule.retry.delay else rule.retry.backoffMaxDelay;
    forall i :: 0 <= i < |waits| ==> 0.0 <= waits[i] <= cap.InForce()
  }

  /** The hold ends before every network deadline that the guard can read. */
  ghost predicate EndsInTime(rules: seq<Rule>, attempts: seq<real>, waits: seq<real>) {
    forall i :: 0 <= i < |rules| && rules[i].timeout.Seconds? ==>
             Total(attempts) + Total(waits) < rules[i].timeout.value
  }

  /** The guard's arithmetic covers every wait there can be: the cap is readable, or there is no second attempt. */
  predicate WaitsBudgeted(retry: Retry) {
    !Cap(retry).Unreadable? || Attempts(retry) <= 1
  }

  ghost predicate GenericRule(upstreams: seq<Upstream>, rule: Rule) {
    rule.timeout.Seconds? && CatchAll(rule.matchMethod)
    && exists u, j :: 0 <= u < |upstreams| && 0 <= j < |upstreams[u].failsafe| && upstreams[u].failsafe[j] == rule
  }

  /** A single wedged upstream under a catch-all rule gives up before every network deadline, the one that applies
      to the request included, whenever its waits are budgeted for. */
  lemma WedgedUpstreamCannotStarve(upstreams: seq<Upstream>, rules: seq<Rule>, rule: Rule, name: string,
                                   attempts: seq<real>, waits: seq<real>)
    requires Certified(upstreams, rules) && OneLine(name) && GenericRule(upstreams, rule) && WaitsBudgeted(rule.retry)
    requires Holds(rule, attempts, waits)
    ensures EndsInTime(rules, attempts, waits)
    ensures var i := Dispatch(rules, name);
            i.Some? && (rules[i.value].timeout.Seconds? ==>
                          Total(attempts) + Total(waits) < rules[i.value].timeout.value)
  {
    hide CatchAll, MethodMatches, FailClosed, Holds, Total, SerialBudget;
    EveryMethodIsCovered(upstreams, rules, name);
    HeldWithinBudget(rule, attempts, waits);
    var u, j :| 0 <= u < |upstreams| && 0 <= j < |upstreams[u].failsafe| && upstreams[u].failsafe[j] == rule;
    assert BudgetWithin(rule, rules);
  }

  lemma HeldWithinBudget(rule: Rule, attempts: seq<real>, waits: seq<real>)
    requires rule.timeout.Seconds? && Holds(rule, attempts, waits) && WaitsBudgeted(rule.retry)
    ensures Total(attempts) + Total(waits) <= SerialBudget(rule).value
  {
    hide Times, Total;
    TotalBound(attempts, rule.timeout.value);
    TotalBound(waits, Gap(rule.retry));
    MoreOf(|attempts|, Attempts(rule.retry), rule.timeout.value);
    MoreOf(|waits|, Attempts(rule.retry) - 1, Gap(rule.retry));
  }

  /** The rule as configured with another value behind its unreadable cap: the guard reads the same. */
  function Meaning(rule: Rule, actual: Time): Rule {
    if !Cap(rule.retry).Unreadable? then rule
    else if rule.retry.backoffMaxDelay.Absent? then rule.(retry := rule.retry.(delay := Unreadable(actual)))
    else rule.(retry := rule.retry.(backoffMaxDelay := Unreadable(actual)))
  }

  lemma ReadsTheSame(rule: Rule, actual: Time)
    ensures SerialBudget(Meaning(rule, actual)) == SerialBudget(rule)
    ensures Cap(Meaning(rule, actual).retry) == if Cap(rule.retry).Unreadable? then Unreadable(actual)
            else Cap(rule.retry)
    ensures Attempts(Meaning(rule, actual).retry) == Attempts(rule.retry)
            && Meaning(rule, actual).timeout == rule.timeout
  {}

  ghost predicate AlwaysInTime(rules: seq<Rule>, rule: Rule)
    requires rule.timeout.Seconds?
  {
    forall actual: Time, attempts: seq<real>, waits: seq<real> ::
      Holds(Meaning(rule, actual), attempts, waits) ==> EndsInTime(rules, attempts, waits)
  }

  /** Over every value that an unreadable cap may stand for, a certified policy's wedged upstream always gives up in
      time exactly when the cap is absent or readable, or at most one attempt is allowed. */
  lemma InTimeIffWaitsBudgeted(upstreams: seq<Upstream>, rules: seq<Rule>, rule: Rule)
    requires Certified(upstreams, rules) && GenericRule(upstreams, rule)
    ensures AlwaysInTime(rules, rule) <==> WaitsBudgeted(rule.retry)
  {
    hide CatchAll, FailClosed, Holds, Total, SerialBudget, EndsInTime;
    if WaitsBudgeted(rule.retry) {
      forall actual: Time, attempts: seq<real>, waits: seq<real> | Holds(Meaning(rule, actual), attempts, waits)
        ensures EndsInTime(rules, attempts, waits)
      {
        ReadsTheSame(rule, actual);
        SameHolds(rule, actual, attempts, waits);
        WedgedUpstreamCannotStarve(upstreams, rules, rule, "", attempts, waits);
      }
    } else {
      var i :| 0 <= i < |rules| && rules[i].timeout.Seconds?;
      LongWait(rules, rule, i);
    }
  }

  lemma SameHolds(rule: Rule, actual: Time, attempts: seq<real>, waits: seq<real>)
    requires rule.timeout.Seconds? && WaitsBudgeted(rule.retry) && Holds(Meaning(rule, actual), attempts, waits)
    ensures Holds(rule, attempts, waits)
  {
    ReadsTheSame(rule, actual);
  }

  /** Behind an unreadable cap there may be a wait as long as any deadline. */
  lemma LongWait(rules: seq<Rule>, rule: Rule, i: nat)
    requires i < |rules| && rules[i].timeout.Seconds? && rule.timeout.Seconds? && !WaitsBudgeted(rule.retry)
    ensures Holds(Meaning(rule, rules[i].timeout.value), [0.0, 0.0], [rules[i].timeout.value])
    ensures !EndsInTime(rules, [0.0, 0.0], [rules[i].timeout.value])
  {
    ReadsTheSame(rule, rules[i].timeout.value);
    TotalOfOne(rules[i].timeout.value);
    assert [0.0, 0.0][..1] == [0.0];
    TotalOfOne(0.0);
  }

  lemma TotalOfOne(t: real)
    ensures Total([t]) == t
  {
    assert [t][..0] == [];
  }

  // ---------------------------------------------------------------- the budget is the longest hold

  lemma {:induction false} TotalConstant(n: nat, t: real)
    ensures Total(seq(n, _ => t)) == Times(n, t)
  {
    if n > 0 {
      TotalConstant(n - 1, t);
      assert seq(n, _ => t)[..n - 1] == seq(n - 1, _ => t);
    }
  }

  /** An upstream can hold a request for the whole of its budget. */
  lemma BudgetIsAttained(rule: Rule) returns (attempts: seq<real>, waits: seq<real>)
    requires rule.timeout.Seconds? && 1 <= Attempts(rule.retry) && WaitsBudgeted(rule.retry)
    ensures Holds(rule, attempts, waits) && Total(attempts) + Total(waits) == SerialBudget(rule).value
  {
    var n := Attempts(rule.retry);
    attempts, waits := seq(n, _ => rule.timeout.value), seq(n - 1, _ => Gap(rule.retry));
    TotalConstant(n, rule.timeout.value);
    TotalConstant(n - 1, Gap(rule.retry));
  }

  /** So the guard refuses a catch-all rule exactly when some hold outlasts some readable deadline. */
  lemma CatchAllBudgetIsExact(rules: seq<Rule>, rule: Rule)
    requires rule.timeout.Seconds? && CatchAll(rule.matchMethod)
    requires 1 <= Attempts(rule.retry) && WaitsBudgeted(rule.retry)
    ensures BudgetWithin(rule, rules) <==>
              forall attempts: seq<real>, waits: seq<real> :: Holds(rule, attempts, waits) ==>
                       EndsInTime(rules, attempts, waits)
  {
    hide CatchAll, Holds, Total, SerialBudget;
    BudgetIsReadable(rule);
    forall attempts: seq<real>, waits: seq<real> | Holds(rule, attempts, waits)
      ensures Total(attempts) + Total(waits) <= SerialBudget(rule).value
    {
      HeldWithinBudget(rule, attempts, waits);
    }
    var attempts, waits := BudgetIsAttained(rule);
  }

  lemma BudgetIsReadable(rule: Rule)
    ensures SerialBudget(rule).Some? <==> rule.timeout.Seconds?
  {}

  /** A pinned alternative is judged by a method that it matches: the guard passes it exactly when that method is
      dispatched under a readable deadline which no hold exceeds. */
  lemma PinnedBudgetIsExact(rules: seq<Rule>, rule: Rule, a: string)
    requires rule.timeout.Seconds? && 1 <= Attempts(rule.retry) && WaitsBudgeted(rule.retry)
    ensures Instance(Strip(a), Representative(Strip(a)))
    ensures var i := Dispatch(rules, Representative(Strip(a)));
            PinnedWithin(rule, a, rules) <==>
              && i.Some? && rules[i.value].timeout.Seconds?
              && forall attempts: seq<real>, waits: seq<real> ::
                   Holds(rule, attempts, waits) ==> Total(attempts) + Total(waits) <= rules[i.value].timeout.value
  {
    hide Holds, Total, SerialBudget, Dispatch, Strip, Instance;
    RepresentativeIsInstance(Strip(a));
    BudgetIsReadable(rule);
    forall attempts: seq<real>, waits: seq<real> | Holds(rule, attempts, waits)
      ensures Total(attempts) + Total(waits) <= SerialBudget(rule).value
    {
      HeldWithinBudget(rule, attempts, waits);
    }
    var attempts, waits := BudgetIsAttained(rule);
  }

  lemma RepresentativeIsInstance(alt: string)
    ensures Instance(alt, Representative(alt))
  {
    hide Glob;
    RepresentativeMatches(alt);
    GlobIffInstance(alt, Representative(alt));
  }

  lemma {:induction false} RepresentativeMatches(alt: string)
    ensures Glob(alt, Representative(alt))
  {
    if alt != "" {
      var name := Representative(alt);
      RepresentativeMatches(alt[1..]);
      assert name[1..] == Representative(alt[1..]);
      if alt[0] == '*' { OneMore(alt, name); }
    }
  }

  lemma OneMore(alt: string, name: string)
    requires alt != "" && alt[0] == '*' && name != "" && name[0] != '\n' && Glob(alt[1..], name[1..])
    ensures Glob(alt, name)
  {
    assert Glob(alt, name[1..]);
  }

  // ---------------------------------------------------------------- a certified policy that starves

  const SAFE := Consensus(Number(3.0), Number(2.0), Text("returnError"), Text("returnError"), Text("12s"), Text("12s"))

  /** One rule for every method: a fail-closed quorum with a deadline of twelve seconds. */
  const STARVED_RULES: seq<Rule> := [Rule(None, Seconds(12.0), Retry(1, Absent, Absent), Some(SAFE), None)]

  /** Two attempts of four seconds, with a cap of ninety seconds written as "1m30s" between them. */
  const HIDDEN_WAIT := Rule(None, Seconds(4.0), Retry(2, Absent, Unreadable(90.0)), None, None)
  const ONE_ATTEMPT := Rule(None, Seconds(4.0), Retry(1, Absent, Absent), None, None)
  const STARVING: seq<Upstream> := [Upstream([HIDDEN_WAIT]), Upstream([ONE_ATTEMPT]), Upstream([ONE_ATTEMPT])]

  lemma EveryNameIsFirst(name: string)
    ensures Dispatch(STARVED_RULES, name) == Some(0)
  {
    assert STARVED_RULES[..0] == [];
  }

  /** The guard certifies it, and the first upstream, wedged, holds a request for 98 seconds. */
  lemma CertifiedPolicyCanStarve()
    ensures Certified(STARVING, STARVED_RULES) && GenericRule(STARVING, HIDDEN_WAIT)
    ensures Holds(HIDDEN_WAIT, [4.0, 4.0], [90.0]) && Total([4.0, 4.0]) + Total([90.0]) == 98.0
    ensures forall i :: 0 <= i < |STARVED_RULES| ==> STARVED_RULES[i].timeout == Seconds(12.0)
  {
    forall name | name in PROTECTED
      ensures ProtectionHolds(STARVED_RULES, name)
    {
      EveryNameIsFirst(name);
    }
    assert SerialBudget(HIDDEN_WAIT) == Some(8.0) && SerialBudget(ONE_ATTEMPT) == Some(4.0);
    assert STARVED_RULES[0].timeout == Seconds(12.0);
    assert BudgetWithin(HIDDEN_WAIT, STARVED_RULES) && BudgetWithin(ONE_ATTEMPT, STARVED_RULES);
    assert BudgetsHold(STARVING, STARVED_RULES);
    assert [4.0, 4.0][..1] == [4.0];
    TotalOfOne(4.0);
    TotalOfOne(90.0);
    assert STARVING[0].failsafe[0] == HIDDEN_WAIT;
  }

  lemma MoreOf(m: int, n: int, t: Time)
    requires m <= n
    ensures Times(m, t) <= Times(n, t)
  {
    assert (n - m) as real * t >= 0.0;
    assert n as real * t == m as real * t + (n - m) as real * t;
  }

  /** The participants that reported a value. */
  function Votes<V(==)>(replies: seq<Option<V>>, value: V): set<nat> {
    set i: nat | i < |replies| && replies[i] == Some(value)
  }

  function Responders<V>(replies: seq<Option<V>>): set<nat> {
    set i: nat | i < |replies| && replies[i].Some?
  }

  /** The values a consensus rule may return: one that reaches the threshold, and otherwise, when too few responded or
      those who did disagree, any reported value unless the rule returns an error then. */
  ghost predicate MayServe<V(!new)>(c: Consensus, replies: seq<Option<V>>, value: V)
    requires c.agreementThreshold.Number?
  {
    var threshold := c.agreementThreshold.number;
    if |Votes(replies, value)| as real >= threshold then true
    else
      && Votes(replies, value) != {}
      && (forall other :: |Votes(replies, other)| as real < threshold)
      && if |Responders(replies)| as real < threshold then c.lowParticipantsBehavior != Text("returnError")
         else c.disputeBehavior != Text("returnError")
  }

  /** Under the quorum of a protected method, a value returned while at most one participant is faulty was reported
      by a correct one, and no other value can reach the quorum. */
  lemma QuorumValueIsHonest<V(!new)>(upstreams: seq<Upstream>, rules: seq<Rule>, name: string, replies: seq<Option<V>>,
                               faulty: set<nat>, value: V)
    requires Certified(upstreams, rules) && name in PROTECTED && |faulty| <= 1
    requires var c := rules[Dispatch(rules, name).value].consensus.value;
             |replies| as real <= c.maxParticipants.number && MayServe(c, replies, value)
    ensures exists i :: i in Votes(replies, value) && i !in faulty
    ensures forall other :: other != value ==> |Votes(replies, other)| < 2 <= |Votes(replies, value)|
    ensures forall other :: other != value ==>
      !MayServe(rules[Dispatch(rules, name).value].consensus.value, replies, other)
  {
    assert ProtectionHolds(rules, name);
    var votes := Votes(replies, value);
    if votes <= faulty {
      Smaller(votes, faulty);
      assert false;
    }
    forall other | other != value
      ensures |Votes(replies, other)| < 2
    {
      Smaller(votes + Votes(replies, other), Positions(|replies|));
      assert votes !! Votes(replies, other);
      assert |votes + Votes(replies, other)| == |votes| + |Votes(replies, other)|;
    }
  }

  lemma {:induction false} Smaller<T>(a: set<T>, b: set<T>)
    requires a <= b
    ensures |a| <= |b|
  {
    assert b == a + (b - a);
  }

  function Positions(n: nat): (s: set<nat>)
    ensures |s| == n && forall i: nat :: i in s <==> i < n
  {
    if n == 0 then {} else Positions(n - 1) + {n - 1}
  }
}

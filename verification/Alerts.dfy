/** The markup check on alert annotations, against a grammar of what the message service can deliver. */
module AlertMarkup {
  import opened Basics

  const ALLOWED: set<string> := {"b", "strong", "i", "em", "u", "ins", "s", "strike", "del", "span", "tg-spoiler", "a",
                                 "tg-emoji", "code", "pre", "blockquote"}
  const ENTITIES: set<string> := {"lt", "gt", "amp", "quot"}

  predicate Letter(c: char) { 'a' <= c <= 'z' || 'A' <= c <= 'Z' }
  predicate Digit(c: char) { '0' <= c <= '9' }
  predicate HexDigit(c: char) { Digit(c) || 'a' <= c <= 'f' || 'A' <= c <= 'F' }
  predicate NameChar(c: char) { Letter(c) || Digit(c) || c == '_' || c == '-' }
  predicate WordChar(c: char) { Letter(c) || Digit(c) || c == '_' }

  // ---------------------------------------------------------------- template masking

  predicate StartsAt(text: string, i: nat, s: string) {
    i + |s| <= |text| && text[i..i + |s|] == s
  }

  /** The first place at or after `i` where `s` occurs. */
  function Find(text: string, i: nat, s: string): (r: Option<nat>)
    requires i <= |text|
    ensures r.Some? ==> i <= r.value && StartsAt(text, r.value, s)
    ensures forall k :: i <= k < (if r.Some? then r.value else |text|) ==> !StartsAt(text, k, s)
    decreases |text| - i
  {
    if StartsAt(text, i, s) then Some(i)
    else if i == |text| then None
    else Find(text, i + 1, s)
  }

  function Blanks(n: nat): (s: string)
    ensures |s| == n && forall k :: 0 <= k < n ==> s[k] == ' '
  {
    seq(n, _ => ' ')
  }

  /** The template action that the left-to-right search meets at `i`, up to the first closing braces. */
  function Action(text: string, i: nat): (r: Option<nat>)
    requires i <= |text|
    ensures r.Some? ==> i + 4 <= r.value <= |text| && StartsAt(text, i, "{{") && StartsAt(text, r.value - 2, "}}")
  {
    if StartsAt(text, i, "{{") then
      match Find(text, i + 2, "}}")
      case Some(c) => Some(c + 2)
      case None => None
    else None
  }

  function MaskFrom(text: string, i: nat): (r: string)
    requires i <= |text|
    ensures |r| == |text| - i
    ensures forall k :: 0 <= k < |r| ==> r[k] == text[i + k] || r[k] == ' '
    decreases |text| - i
  {
    if i == |text| then ""
    else if Action(text, i).Some? then Blanks(Action(text, i).value - i) + MaskFrom(text, Action(text, i).value)
    else [text[i]] + MaskFrom(text, i + 1)
  }

  /** Blanks template actions; every remaining character keeps its offset. */
  function MaskTemplates(text: string): (r: string)
    ensures |r| == |text| && forall k :: 0 <= k < |r| ==> r[k] == text[k] || r[k] == ' '
  {
    MaskFrom(text, 0)
  }

  /** A position is inside an action met by the search that starts at `i`. */
  ghost predicate Inside(text: string, i: nat, k: nat)
    requires i <= |text|
    decreases |text| - i
  {
    i < |text| &&
    if Action(text, i).Some? then i <= k < Action(text, i).value || Inside(text, Action(text, i).value, k)
    else Inside(text, i + 1, k)
  }

  /** Only characters between an opening and a closing pair of braces are inside. */
  lemma {:induction false} InsideIsAction(text: string, i: nat, k: nat) returns (from: nat, to: nat)
    requires i <= |text| && Inside(text, i, k)
    ensures i <= from <= k < to <= |text| && from + 4 <= to && StartsAt(text, from, "{{")
            && StartsAt(text, to - 2, "}}")
    decreases |text| - i
  {
    if Action(text, i).None? {
      from, to := InsideIsAction(text, i + 1, k);
    } else if i <= k < Action(text, i).value {
      from, to := i, Action(text, i).value;
    } else {
      from, to := InsideIsAction(text, Action(text, i).value, k);
    }
  }

  /** Masking blanks exactly the template actions and leaves none behind. */
  lemma {:induction false} MaskingIsExact(text: string, i: nat, k: nat)
    requires i <= k < |text|
    ensures MaskFrom(text, i)[k - i] == if Inside(text, i, k) then ' ' else text[k]
    decreases |text| - i
  {
    hide MaskFrom, Action;
    MaskedAt(text, i, k);
    if Action(text, i).Some? {
      var e := Action(text, i).value;
      if e <= k { MaskingIsExact(text, e, k); } else { InsideIsAhead(text, e, k); }
    } else {
      if i < k { MaskingIsExact(text, i + 1, k); } else { InsideIsAhead(text, i + 1, k); }
    }
  }

  lemma MaskedAt(text: string, i: nat, k: nat)
    requires i <= k < |text|
    ensures MaskFrom(text, i)[k - i] ==
            match Action(text, i)
            case Some(e) => if k < e then ' ' else MaskFrom(text, e)[k - e]
            case None => if i == k then text[i] else MaskFrom(text, i + 1)[k - (i + 1)]
  {
    hide Action;
  }

  lemma {:induction false} InsideIsAhead(text: string, i: nat, k: nat)
    requires k < i <= |text|
    ensures !Inside(text, i, k)
    decreases |text| - i
  {
    if i < |text| {
      InsideIsAhead(text, if Action(text, i).Some? then Action(text, i).value else i + 1, k);
    }
  }

  lemma {:induction false} ActionIsInside(text: string, i: nat, k: nat, e: nat)
    requires i <= k && k + 4 <= e <= |text| && StartsAt(text, k, "{{") && StartsAt(text, e - 2, "}}")
    ensures Inside(text, i, k)
    decreases |text| - i
  {
    assert Find(text, k + 2, "}}").Some?;
    if Action(text, i).Some? {
      var end := Action(text, i).value;
      if end <= k { ActionIsInside(text, end, k, e); }
    } else {
      ActionIsInside(text, i + 1, k, e);
    }
  }

  lemma NoActionRemains(text: string, k: nat, e: nat)
    requires k + 4 <= e <= |text|
    ensures !(StartsAt(MaskTemplates(text), k, "{{") && StartsAt(MaskTemplates(text), e - 2, "}}"))
  {
    var masked := MaskTemplates(text);
    if StartsAt(masked, k, "{{") && StartsAt(masked, e - 2, "}}") {
      hide MaskTemplates;
      Unmasked(text, k, "{{");
      Unmasked(text, e - 2, "}}");
      ActionIsInside(text, 0, k, e);
      IsBlank(text, k);
    }
  }

  lemma IsBlank(text: string, k: nat)
    requires k < |text| && Inside(text, 0, k)
    ensures MaskTemplates(text)[k] == ' '
  {
    MaskingIsExact(text, 0, k);
  }

  lemma Unmasked(text: string, k: nat, s: string)
    requires StartsAt(MaskTemplates(text), k, s) && ' ' !in s
    ensures StartsAt(text, k, s)
  {
    hide MaskTemplates;
    var masked := MaskTemplates(text);
    forall n | 0 <= n < |s|
      ensures text[k + n] == s[n]
    {
      assert masked[k..k + |s|][n] == s[n];
    }
  }

  // ---------------------------------------------------------------- tags

  datatype Tag = Tag(closing: bool, name: string, attrs: string) {
    function Render(): string { "<" + (if closing then "/" else "") + name + attrs + ">" }
    function Element(): string { Lower(name) }
  }

  function Quotes(s: string): nat {
    if s == "" then 0 else Quotes(s[1..]) + if s[0] == '"' then 1 else 0
  }

  /** Double quotes pair up and every `>` is between a pair; `inside` says that a pair is open at the start. */
  ghost predicate Quoted(s: string, inside: bool) {
    && (Quotes(s) + if inside then 1 else 0) % 2 == 0
    && forall k :: 0 <= k < |s| && s[k] == '>' ==> Covered(s, inside, k)
  }

  ghost predicate WellFormed(t: Tag) {
    && t.name != "" && Letter(t.name[0]) && (forall k :: 0 <= k < |t.name| ==> NameChar(t.name[k]))
    && Quoted(t.attrs, false) && (t.attrs != "" ==> !NameChar(t.attrs[0]))
  }

  /** The end of the longest run of characters of a class. */
  function RunEnd(text: string, i: nat, p: char -> bool): (e: nat)
    requires i <= |text|
    ensures i <= e <= |text| && (forall k :: i <= k < e ==> p(text[k])) && (e < |text| ==> !p(text[e]))
    decreases |text| - i
  {
    if i < |text| && p(text[i]) then RunEnd(text, i + 1, p) else i
  }

  /** The attributes declare `class="tg-spoiler"`, with either kind of quote. */
  predicate Spoiler(attrs: string) {
    exists k :: 0 <= k < |attrs| && SpoilerAt(attrs, k)
  }

  predicate SpoilerAt(attrs: string, k: nat) {
    StartsAt(attrs, k, "class") && (k == 0 || !WordChar(attrs[k - 1])) &&
      var equals := RunEnd(attrs, k + 5, Space);
      equals < |attrs| && attrs[equals] == '=' &&
      var value := RunEnd(attrs, equals + 1, Space);
      StartsAt(attrs, value, Quotation('"')) || StartsAt(attrs, value, Quotation('\''))
  }

  predicate AllSpace(s: string) { forall k :: 0 <= k < |s| ==> Space(s[k]) }

  /** The value between two equal quotes. */
  function Quotation(quote: char): (s: string)
    ensures |s| == 12
  {
    [quote] + "tg-spoiler" + [quote]
  }

  /** The attributes read: anything, the whole word `class`, an equals sign between optional spaces, and the spoiler
      class between two equal quotes. */
  ghost predicate Declares(attrs: string, before: string, gap: string, gap': string, quote: char, after: string) {
    && attrs == before + Declaration(gap, Assigned(gap', quote, after))
    && (before == "" || !WordChar(before[|before| - 1])) && AllSpace(gap) && AllSpace(gap') && quote in {'"', '\''}
  }

  function Declaration(gap: string, value: string): string { "class" + (gap + value) }

  function Assigned(gap: string, quote: char, after: string): string { "=" + (gap + (Quotation(quote) + after)) }

  lemma Peel(s: string, i: nat, head: string, tail: string)
    requires i <= |s| && s[i..] == head + tail
    ensures StartsAt(s, i, head) && s[i + |head|..] == tail
  {
    assert s[i..i + |head|] == s[i..][..|head|];
    assert s[i + |head|..] == s[i..][|head|..];
  }

  lemma Glue(s: string, i: nat, j: nat, head: string, tail: string)
    requires i <= j <= |s| && s[i..j] == head && s[j..] == tail
    ensures s[i..] == head + tail
  {}

  lemma RunOfSpaces(s: string, i: nat, gap: string, rest: string)
    requires i <= |s| && s[i..] == gap + rest && AllSpace(gap) && rest != "" && !Space(rest[0])
    ensures RunEnd(s, i, Space) == i + |gap|
  {
    hide Space;
    var e := RunEnd(s, i, Space);
    assert forall k :: 0 <= k < |gap| ==> s[i + k] == s[i..][k] == gap[k];
    assert s[i + |gap|] == s[i..][|gap|] == rest[0];
    assert !(e < i + |gap|) && !(i + |gap| < e);
  }

  /** The pattern finds exactly such a declaration. */
  lemma SpoilerIsDeclared(attrs: string)
    ensures Spoiler(attrs) <==>
              exists before, gap, gap', quote, after :: Declares(attrs, before, gap, gap', quote, after)
  {
    hide Declares, SpoilerAt;
    if Spoiler(attrs) {
      var k :| 0 <= k < |attrs| && SpoilerAt(attrs, k);
      SpoilerFound(attrs, k);
    }
    if before, gap, gap', quote, after :| Declares(attrs, before, gap, gap', quote, after) {
      DeclaredIsFound(attrs, before, gap, gap', quote, after);
    }
  }

  lemma SpoilerFound(attrs: string, k: nat)
    requires k < |attrs| && SpoilerAt(attrs, k)
    ensures exists before, gap, gap', quote, after :: Declares(attrs, before, gap, gap', quote, after)
  {
    hide RunEnd, Quotation, WordChar, Space, Declaration, Assigned, AllSpace, StartsAt;
    Within(attrs, k, "class");
    var equals := RunEnd(attrs, k + 5, Space);
    var value := RunEnd(attrs, equals + 1, Space);
    var quote := if StartsAt(attrs, value, Quotation('"')) then '"' else '\'';
    Within(attrs, value, Quotation(quote));
    SpacesBetween(attrs, k + 5);
    SpacesBetween(attrs, equals + 1);
    LaidOut(attrs, k, equals, value, quote);
    assert Declares(attrs, attrs[0..k], attrs[k + 5..equals], attrs[equals + 1..value], quote, attrs[value + 12..]);
  }

  lemma LaidOut(s: string, k: nat, equals: nat, value: nat, quote: char)
    requires k + 5 <= equals < value && value + 12 <= |s| && s[equals] == '='
    requires s[k..k + 5] == "class" && s[value..value + 12] == Quotation(quote)
    ensures s == s[0..k] + Declaration(s[k + 5..equals], Assigned(s[equals + 1..value], quote, s[value + 12..]))
    ensures k > 0 ==> s[0..k][k - 1] == s[k - 1]
  {
    hide Quotation, Declaration, Assigned;
    Single(s, equals);
    AssignedAt(s, equals, value, quote);
    DeclarationAt(s, k, equals);
    Before(s, k, s[k..]);
  }

  lemma Within(s: string, i: nat, part: string)
    requires StartsAt(s, i, part)
    ensures i + |part| <= |s| && s[i..i + |part|] == part
  {}

  lemma SpacesBetween(s: string, i: nat)
    requires i <= |s|
    ensures AllSpace(s[i..RunEnd(s, i, Space)])
  {}

  lemma Before(s: string, k: nat, tail: string)
    requires k <= |s| && s[k..] == tail
    ensures s == s[0..k] + tail && (k > 0 ==> s[0..k][k - 1] == s[k - 1])
  {}

  lemma Single(s: string, i: nat)
    requires i < |s|
    ensures s[i..i + 1] == [s[i]]
  {}

  lemma AssignedAt(s: string, equals: nat, value: nat, quote: char)
    requires equals < value && value + 12 <= |s| && s[equals..equals + 1] == "="
    requires s[value..value + 12] == Quotation(quote)
    ensures s[equals..] == Assigned(s[equals + 1..value], quote, s[value + 12..])
  {
    hide Quotation, StartsAt;
    var gap, after := s[equals + 1..value], s[value + 12..];
    Glue(s, value, value + 12, Quotation(quote), after);
    Glue(s, equals + 1, value, gap, Quotation(quote) + after);
    Glue(s, equals, equals + 1, "=", gap + (Quotation(quote) + after));
  }

  lemma DeclarationAt(s: string, k: nat, equals: nat)
    requires k + 5 <= equals <= |s| && s[k..k + 5] == "class"
    ensures s[k..] == Declaration(s[k + 5..equals], s[equals..])
  {
    Glue(s, k + 5, equals, s[k + 5..equals], s[equals..]);
    Glue(s, k, k + 5, "class", s[k + 5..equals] + s[equals..]);
  }

  lemma DeclaredIsFound(attrs: string, before: string, gap: string, gap': string, quote: char, after: string)
    requires Declares(attrs, before, gap, gap', quote, after)
    ensures Spoiler(attrs)
  {
    hide RunEnd, Quotation, WordChar, StartsAt, Declaration, Assigned, AllSpace, Space;
    var k := |before|;
    DeclaredParts(attrs, before, gap, gap', quote, after);
    assert SpoilerAt(attrs, k);
  }

  lemma DeclaredParts(attrs: string, before: string, gap: string, gap': string, quote: char, after: string)
    requires Declares(attrs, before, gap, gap', quote, after)
    ensures var k := |before|;
            var equals := k + 5 + |gap|;
            var value := equals + 1 + |gap'|;
            && k < |attrs| && StartsAt(attrs, k, "class") && (k > 0 ==> attrs[k - 1] == before[k - 1])
            && equals < |attrs| && RunEnd(attrs, k + 5, Space) == equals && attrs[equals] == '='
            && RunEnd(attrs, equals + 1, Space) == value && StartsAt(attrs, value, Quotation(quote))
  {
    hide RunEnd, Quotation, WordChar, StartsAt, Declaration, Assigned, AllSpace, Space;
    var k := |before|;
    Suffix(attrs, before, Declaration(gap, Assigned(gap', quote, after)));
    NameRead(attrs, k, gap, gap', quote, after);
    ValueRead(attrs, k + 5 + |gap|, gap', quote, after);
  }

  lemma NameRead(s: string, k: nat, gap: string, gap': string, quote: char, after: string)
    requires k <= |s| && s[k..] == Declaration(gap, Assigned(gap', quote, after)) && AllSpace(gap)
    requires quote in {'"', '\''}
    ensures k < |s| && StartsAt(s, k, "class") && k + 5 + |gap| <= |s| && RunEnd(s, k + 5, Space) == k + 5 + |gap|
    ensures s[k + 5 + |gap|..] == Assigned(gap', quote, after)
  {
    hide RunEnd, StartsAt, Declaration, Assigned, AllSpace, Space;
    var value := Assigned(gap', quote, after);
    ReadDeclaration(s, k, gap, value);
    NotSpaces(gap', quote, after);
    RunOfSpaces(s, k + 5, gap, value);
  }

  lemma ValueRead(s: string, equals: nat, gap: string, quote: char, after: string)
    requires equals <= |s| && s[equals..] == Assigned(gap, quote, after) && AllSpace(gap) && quote in {'"', '\''}
    ensures equals < |s| && s[equals] == '=' && RunEnd(s, equals + 1, Space) == equals + 1 + |gap|
    ensures StartsAt(s, equals + 1 + |gap|, Quotation(quote))
  {
    hide RunEnd, StartsAt, Quotation, Assigned, AllSpace, Space;
    ReadAssigned(s, equals, gap, quote, after);
    NotSpaces(gap, quote, after);
    RunOfSpaces(s, equals + 1, gap, Quotation(quote) + after);
  }

  lemma Suffix(s: string, before: string, tail: string)
    requires s == before + tail
    ensures |before| <= |s| && s[|before|..] == tail && (before != "" ==> s[|before| - 1] == before[|before| - 1])
  {}

  lemma NotSpaces(gap: string, quote: char, after: string)
    requires quote in {'"', '\''}
    ensures Assigned(gap, quote, after) != "" && !Space(Assigned(gap, quote, after)[0])
    ensures Quotation(quote) + after != "" && !Space((Quotation(quote) + after)[0])
  {}

  lemma ReadDeclaration(s: string, k: nat, gap: string, value: string)
    requires k <= |s| && s[k..] == Declaration(gap, value)
    ensures StartsAt(s, k, "class") && s[k + 5..] == gap + value
    ensures k + 5 + |gap| <= |s| && s[k + 5 + |gap|..] == value
  {
    hide StartsAt;
    Peel(s, k, "class", gap + value);
    Peel(s, k + 5, gap, value);
  }

  lemma ReadAssigned(s: string, equals: nat, gap: string, quote: char, after: string)
    requires equals <= |s| && s[equals..] == Assigned(gap, quote, after)
    ensures equals + 1 + |gap| + 12 <= |s| && s[equals] == '=' && s[equals + 1..] == gap + (Quotation(quote) + after)
    ensures StartsAt(s, equals + 1 + |gap|, Quotation(quote))
  {
    hide Quotation, StartsAt;
    assert s[equals] == s[equals..][0];
    Peel(s, equals, "=", gap + (Quotation(quote) + after));
    Peel(s, equals + 1, gap, Quotation(quote) + after);
    Peel(s, equals + 1 + |gap|, Quotation(quote), after);
  }

  predicate Permitted(t: Tag) {
    t.Element() in ALLOWED && (!t.closing && t.Element() == "span" ==> Spoiler(t.attrs))
  }

  function NameEnd(text: string, i: nat): (e: nat)
    requires i <= |text|
    ensures i <= e <= |text| && (forall k :: i <= k < e ==> NameChar(text[k])) && (e < |text| ==> !NameChar(text[e]))
  {
    RunEnd(text, i, NameChar)
  }

  /** The first `>` outside double quotes. */
  function TagEnd(text: string, i: nat, inside: bool): (e: Option<nat>)
    requires i <= |text|
    ensures e.Some? ==> i <= e.value < |text| && text[e.value] == '>'
    decreases |text| - i
  {
    if i == |text| then None
    else if inside then TagEnd(text, i + 1, text[i] != '"')
    else if text[i] == '>' then Some(i)
    else TagEnd(text, i + 1, text[i] == '"')
  }

  /** Quotes before a position, one character further on. */
  lemma QuotesStep(c: char, s: string)
    ensures Quotes([c] + s) == Quotes(s) + (if c == '"' then 1 else 0)
    ensures forall k :: 0 <= k <= |s| ==> Quotes(([c] + s)[..k + 1]) == Quotes(s[..k]) + if c == '"' then 1 else 0
  {
    assert ([c] + s)[1..] == s;
    forall k | 0 <= k <= |s|
      ensures Quotes(([c] + s)[..k + 1]) == Quotes(s[..k]) + if c == '"' then 1 else 0
    {
      assert ([c] + s)[..k + 1][1..] == s[..k];
    }
  }

  ghost predicate Covered(s: string, inside: bool, k: nat)
    requires k <= |s|
  {
    (Quotes(s[..k]) + if inside then 1 else 0) % 2 == 1
  }

  lemma QuotedStep(c: char, s: string, inside: bool)
    ensures Quoted([c] + s, inside) <==> (inside || c != '>') && Quoted(s, inside != (c == '"'))
  {
    hide Quotes;
    var all, next := [c] + s, inside != (c == '"');
    QuotesStep(c, s);
    assert Covered(all, inside, 0) <==> inside by { NoQuotes(all); }
    forall k | 0 <= k < |s|
      ensures all[k + 1] == s[k] && (Covered(all, inside, k + 1) <==> Covered(s, next, k))
    {
    }
    if Quoted(all, inside) {
      assert all[0] == c;
      forall k | 0 <= k < |s| && s[k] == '>'
        ensures Covered(s, next, k)
      {
        assert all[k + 1] == '>';
      }
    }
    if (inside || c != '>') && Quoted(s, next) {
      forall k | 0 <= k < |all| && all[k] == '>'
        ensures Covered(all, inside, k)
      {
        assert k > 0 ==> s[k - 1] == '>' && Covered(s, next, k - 1);
      }
    }
  }

  lemma NoQuotes(s: string)
    ensures Quotes(s[..0]) == 0
  {}

  /** The scan for the end of a tag stops exactly after a properly quoted attribute text. */
  lemma {:induction false} TagEndIffQuoted(text: string, i: nat, inside: bool, e: nat)
    requires i <= e < |text|
    ensures TagEnd(text, i, inside) == Some(e) <==> text[e] == '>' && Quoted(text[i..e], inside)
    decreases e - i
  {
    if i < e {
      QuotedStep(text[i], text[i + 1..e], inside);
      assert [text[i]] + text[i + 1..e] == text[i..e];
      if inside || text[i] != '>' {
        TagEndIffQuoted(text, i + 1, inside != (text[i] == '"'), e);
      }
    } else {
      assert text[i..e] == "";
      assert inside ==> TagEnd(text, i, inside) != Some(i);
    }
  }

  datatype Match = Match(start: nat, end: nat, tag: Tag)

  function TagAt(text: string, i: nat): (m: Option<Match>)
    requires i < |text|
    ensures m.Some? ==> m.value.start == i < m.value.end <= |text| && text[i] == '<'
  {
    var j := if i + 1 < |text| && text[i + 1] == '/' then i + 2 else i + 1;
    if text[i] != '<' || j >= |text| || !Letter(text[j]) then None
    else
      var k := NameEnd(text, j);
      match TagEnd(text, k, false)
      case None => None
      case Some(e) => Some(Match(i, e + 1, Tag(j == i + 2, text[j..k], text[k..e])))
  }

  function FindTag(text: string, pos: nat): (m: Option<Match>)
    requires pos <= |text|
    ensures m.Some? ==> pos <= m.value.start < m.value.end <= |text| && TagAt(text, m.value.start) == m
    ensures forall k :: pos <= k < (if m.Some? then m.value.start else |text|) ==> TagAt(text, k).None?
    decreases |text| - pos
  {
    if pos == |text| then None
    else if TagAt(text, pos).Some? then TagAt(text, pos)
    else FindTag(text, pos + 1)
  }

  lemma TagFound(text: string, i: nat)
    requires i < |text| && TagAt(text, i).Some?
    ensures var m := TagAt(text, i).value; WellFormed(m.tag) && text[i..m.end] == m.tag.Render()
  {
    var j := if i + 1 < |text| && text[i + 1] == '/' then i + 2 else i + 1;
    var k := NameEnd(text, j);
    var e := TagEnd(text, k, false).value;
    TagEndIffQuoted(text, k, false, e);
    FoundTag(text, i, j, k, e);
  }

  lemma FoundTag(text: string, i: nat, j: nat, k: nat, e: nat)
    requires i < j < k <= e < |text| && text[i] == '<' && text[e] == '>'
    requires j == i + 1 || (j == i + 2 && text[i + 1] == '/')
    requires Letter(text[j]) && (forall n :: j <= n < k ==> NameChar(text[n])) && !NameChar(text[k])
    requires Quoted(text[k..e], false)
    ensures var t := Tag(j == i + 2, text[j..k], text[k..e]); WellFormed(t) && text[i..e + 1] == t.Render()
  {
    hide Quoted;
    assert text[i..e + 1] == text[i..j] + text[j..k] + text[k..e] + text[e..e + 1];
    assert text[i..j] == "<" + if j == i + 2 then "/" else "";
    assert text[e..e + 1] == ">";
  }

  lemma TagIsFound(text: string, i: nat, t: Tag)
    requires WellFormed(t) && StartsAt(text, i, t.Render())
    ensures TagAt(text, i) == Some(Match(i, i + |t.Render()|, t))
  {
    var e := i + |t.Render()| - 1;
    var j := if t.closing then i + 2 else i + 1;
    var k := j + |t.name|;
    TagLaidOut(text, i, t);
    assert text[j] == t.name[0] && (forall n :: 0 <= n < |t.name| ==> text[j + n] == t.name[n]);
    assert k < e ==> text[k] == t.attrs[0];
    NameEndsAt(text, j, k);
    TagEndIffQuoted(text, k, false, e);
    LaidOutTag(text, i, j, k, e);
  }

  lemma TagLaidOut(text: string, i: nat, t: Tag)
    requires t.name != "" && StartsAt(text, i, t.Render())
    ensures var e := i + |t.Render()| - 1;
            var j := if t.closing then i + 2 else i + 1;
            var k := j + |t.name|;
            && j < k <= e < |text| && text[j..k] == t.name && text[k..e] == t.attrs
            && text[i] == '<' && text[e] == '>' && (t.closing ==> text[i + 1] == '/')
  {
    var head := "<" + if t.closing then "/" else "";
    Split(text, i, head + t.name + t.attrs, ">");
    Split(text, i, head + t.name, t.attrs);
    Split(text, i, head, t.name);
    var j := i + |head|;
    assert text[i..j][0] == '<' && (t.closing ==> text[i..j][1] == '/');
    var e := j + |t.name| + |t.attrs|;
    assert |head + t.name + t.attrs| == e - i && StartsAt(text, e, ">");
    assert text[e..e + 1][0] == '>';
  }

  lemma LaidOutTag(text: string, i: nat, j: nat, k: nat, e: nat)
    requires i < j < k <= e < |text| && text[i] == '<'
    requires Letter(text[j]) && (j == i + 1 || (j == i + 2 && text[i + 1] == '/'))
    requires NameEnd(text, j) == k && TagEnd(text, k, false) == Some(e)
    ensures TagAt(text, i) == Some(Match(i, e + 1, Tag(j == i + 2, text[j..k], text[k..e])))
  {
  }

  lemma {:induction false} NameEndsAt(text: string, i: nat, e: nat)
    requires i <= e < |text| && (forall k :: i <= k < e ==> NameChar(text[k])) && !NameChar(text[e])
    ensures NameEnd(text, i) == e
  {
    var end := NameEnd(text, i);
    assert !(end < e) && !(e < end);
  }

  // ---------------------------------------------------------------- the grammar of deliverable messages

  /** Text, or text followed by an element and more markup. */
  datatype Markup =
    | Plain(text: string)
    | Element(text: string, open: Tag, inner: Markup, close: Tag, rest: Markup)

  function Render(h: Markup): string {
    match h
    case Plain(text) => text
    case Element(text, open, inner, close, rest) => text + open.Render() + Render(inner) + close.Render() + Render(rest)
  }

  /** Text has no `<`; elements are opened and closed by permitted tags of the same name. */
  ghost predicate Nested(h: Markup) {
    && (forall k :: 0 <= k < |h.text| ==> h.text[k] != '<')
    && (h.Element? ==>
          && WellFormed(h.open) && Permitted(h.open) && !h.open.closing
          && WellFormed(h.close) && Permitted(h.close) && h.close.closing && h.close.Element() == h.open.Element()
          && Nested(h.inner) && Nested(h.rest))
  }

  /** The same, with what is permitted written out: allowed names, and a span only as a spoiler. */
  ghost predicate Wrapped(h: Markup) {
    && '<' !in h.text
    && (h.Element? ==>
          && WellFormed(h.open) && !h.open.closing && h.open.Element() in ALLOWED
          && (h.open.Element() == "span" ==> Spoiler(h.open.attrs))
          && WellFormed(h.close) && h.close.closing && h.close.Element() == h.open.Element()
          && Wrapped(h.inner) && Wrapped(h.rest))
  }

  lemma {:induction false} NestedIsWrapped(h: Markup)
    ensures Nested(h) <==> Wrapped(h)
  {
    hide WellFormed, Spoiler;
    if h.Element? {
      NestedIsWrapped(h.inner);
      NestedIsWrapped(h.rest);
    }
  }

  ghost predicate Named(text: string, i: nat, e: nat) {
    && i + 1 < e < |text| && text[i] == '&' && Letter(text[i + 1]) && text[e] == ';'
    && forall k :: i < k < e ==> Letter(text[k]) || Digit(text[k])
  }

  ghost predicate EntitiesLegal(text: string) {
    forall i: nat, e: nat :: Named(text, i, e) ==> text[i + 1..e] in ENTITIES
  }

  ghost predicate Grammatical(text: string) {
    exists h :: Nested(h) && Render(h) == text
  }

  ghost predicate Deliverable(text: string) {
    Grammatical(text) && EntitiesLegal(text)
  }

  // ---------------------------------------------------------------- the stack scan

  predicate Free(text: string, i: nat, j: nat)
    requires i <= j <= |text|
  {
    forall k :: i <= k < j ==> text[k] != '<'
  }

  /** The scan from `pos` with these open elements meets no problem. */
  predicate Passes(text: string, pos: nat, stack: seq<string>)
    requires pos <= |text|
    decreases |text| - pos
  {
    match FindTag(text, pos)
    case None => Free(text, pos, |text|) && stack == []
    case Some(m) =>
      && Free(text, pos, m.start) && Permitted(m.tag)
      && if m.tag.closing
         then stack != [] && stack[|stack| - 1] == m.tag.Element() && Passes(text, m.end, stack[..|stack| - 1])
         else Passes(text, m.end, stack + [m.tag.Element()])
  }

  lemma {:induction false} SkipText(text: string, pos: nat, e: nat, stack: seq<string>)
    requires pos <= e <= |text| && Free(text, pos, e)
    ensures Passes(text, pos, stack) == Passes(text, e, stack)
    decreases e - pos
  {
    hide TagAt, Permitted;
    if pos < e {
      assert TagAt(text, pos).None?;
      assert FindTag(text, pos) == FindTag(text, pos + 1);
      SkipText(text, pos + 1, e, stack);
    }
  }

  lemma TagStep(text: string, pos: nat, t: Tag, stack: seq<string>)
    requires WellFormed(t) && Permitted(t) && StartsAt(text, pos, t.Render())
    ensures !t.closing ==> Passes(text, pos, stack) == Passes(text, pos + |t.Render()|, stack + [t.Element()])
    ensures t.closing && stack != [] && stack[|stack| - 1] == t.Element() ==>
      Passes(text, pos, stack) == Passes(text, pos + |t.Render()|, stack[..|stack| - 1])
  {
    hide TagAt, WellFormed, Permitted;
    TagIsFound(text, pos, t);
    assert FindTag(text, pos) == TagAt(text, pos);
  }

  /** Nested markup is transparent to the scan: it leaves the open elements as they were. */
  lemma {:induction false} NestedIsTransparent(text: string, pos: nat, h: Markup, stack: seq<string>)
    requires Nested(h) && StartsAt(text, pos, Render(h))
    ensures Passes(text, pos, stack) == Passes(text, pos + |Render(h)|, stack)
    decreases h
  {
    hide WellFormed, Permitted, Passes;
    if h.Element? { Pieces(text, pos, h); }
    var a := pos + |h.text|;
    assert forall n :: 0 <= n < |h.text| ==> text[pos..a][n] == h.text[n];
    SkipText(text, pos, a, stack);
    if h.Element? {
      var b := a + |h.open.Render()|;
      var c := b + |Render(h.inner)|;
      var d := c + |h.close.Render()|;
      var deeper := stack + [h.open.Element()];
      TagStep(text, a, h.open, stack);
      NestedIsTransparent(text, b, h.inner, deeper);
      TagStep(text, c, h.close, deeper);
      assert deeper[..|deeper| - 1] == stack;
      NestedIsTransparent(text, d, h.rest, stack);
    }
  }

  lemma Pieces(text: string, pos: nat, h: Markup)
    requires h.Element? && StartsAt(text, pos, Render(h))
    ensures StartsAt(text, pos, h.text)
    ensures var a := pos + |h.text|;
            var b := a + |h.open.Render()|;
            var c := b + |Render(h.inner)|;
            var d := c + |h.close.Render()|;
            && StartsAt(text, a, h.open.Render()) && StartsAt(text, b, Render(h.inner))
            && StartsAt(text, c, h.close.Render()) && StartsAt(text, d, Render(h.rest))
            && d + |Render(h.rest)| == pos + |Render(h)|
  {
    Split(text, pos, h.text + h.open.Render() + Render(h.inner) + h.close.Render(), Render(h.rest));
    Split(text, pos, h.text + h.open.Render() + Render(h.inner), h.close.Render());
    Split(text, pos, h.text + h.open.Render(), Render(h.inner));
    Split(text, pos, h.text, h.open.Render());
  }

  lemma Split(text: string, i: nat, s: string, t: string)
    requires StartsAt(text, i, s + t)
    ensures StartsAt(text, i, s) && StartsAt(text, i + |s|, t)
  {
    assert text[i..i + |s|] == text[i..i + |s + t|][..|s|];
    assert text[i + |s|..i + |s| + |t|] == text[i..i + |s + t|][|s|..];
  }

  /** What is left of the text closes the open elements one by one, innermost first, around nested markup. */
  ghost predicate Closes(text: string, pos: nat, stack: seq<string>)
    requires pos <= |text|
    decreases |stack|
  {
    if stack == [] then Grammatical(text[pos..])
    else
      var name, outer := stack[|stack| - 1], stack[..|stack| - 1];
      exists h, close, mid: nat :: Layer(text, pos, name, h, close, mid) && Closes(text, mid, outer)
  }

  ghost predicate Layer(text: string, pos: nat, name: string, h: Markup, close: Tag, mid: nat): (b: bool)
    requires pos <= |text|
    ensures b ==> pos <= mid <= |text|
  {
    && pos <= mid <= |text| && Nested(h) && text[pos..mid] == Render(h) + close.Render()
    && WellFormed(close) && Permitted(close) && close.closing && close.Element() == name
  }

  lemma {:induction false} PassesMeansCloses(text: string, pos: nat, stack: seq<string>)
    requires pos <= |text| && Passes(text, pos, stack)
    ensures Closes(text, pos, stack)
    decreases |text| - pos
  {
    hide Permitted, WellFormed, TagAt, Closes, Layer;
    var found := FindTag(text, pos);
    if found.None? {
      PlainCloses(text, pos);
    } else {
      var m := found.value;
      TagFound(text, m.start);
      assert text[pos..m.end] == text[pos..m.start] + m.tag.Render();
      if m.tag.closing {
        PassesMeansCloses(text, m.end, stack[..|stack| - 1]);
        CloseOne(text, pos, m, stack);
      } else {
        PassesMeansCloses(text, m.end, stack + [m.tag.Element()]);
        OpenOne(text, pos, m, stack);
      }
    }
  }

  lemma PlainCloses(text: string, pos: nat)
    requires pos <= |text| && Free(text, pos, |text|)
    ensures Closes(text, pos, [])
  {
    var h := Plain(text[pos..]);
    assert Nested(h) && Render(h) == text[pos..];
  }

  lemma CloseOne(text: string, pos: nat, m: Match, stack: seq<string>)
    requires pos <= m.start < m.end <= |text| && text[pos..m.end] == text[pos..m.start] + m.tag.Render()
    requires Free(text, pos, m.start) && WellFormed(m.tag) && Permitted(m.tag) && m.tag.closing
    requires stack != [] && stack[|stack| - 1] == m.tag.Element() && Closes(text, m.end, stack[..|stack| - 1])
    ensures Closes(text, pos, stack)
  {
    hide Permitted, WellFormed, Layer;
    var name, outer := stack[|stack| - 1], stack[..|stack| - 1];
    PlainLayer(text, pos, m);
    assert Layer(text, pos, name, Plain(text[pos..m.start]), m.tag, m.end) && Closes(text, m.end, outer);
  }

  lemma PlainLayer(text: string, pos: nat, m: Match)
    requires pos <= m.start < m.end <= |text| && text[pos..m.end] == text[pos..m.start] + m.tag.Render()
    requires Free(text, pos, m.start) && WellFormed(m.tag) && Permitted(m.tag) && m.tag.closing
    ensures Layer(text, pos, m.tag.Element(), Plain(text[pos..m.start]), m.tag, m.end)
  {
    hide Permitted, WellFormed;
    var h := Plain(text[pos..m.start]);
    assert Nested(h) && Render(h) == text[pos..m.start];
  }

  lemma OpenOne(text: string, pos: nat, m: Match, stack: seq<string>)
    requires pos <= m.start < m.end <= |text| && text[pos..m.end] == text[pos..m.start] + m.tag.Render()
    requires Free(text, pos, m.start) && WellFormed(m.tag) && Permitted(m.tag) && !m.tag.closing
    requires Closes(text, m.end, stack + [m.tag.Element()])
    ensures Closes(text, pos, stack)
  {
    hide Permitted, WellFormed, Layer;
    var deeper := stack + [m.tag.Element()];
    assert deeper[..|deeper| - 1] == stack;
    var inner, close, mid: nat :| Layer(text, m.end, m.tag.Element(), inner, close, mid) && Closes(text, mid, stack);
    if stack == [] {
      var rest :| Nested(rest) && Render(rest) == text[mid..];
      WrapRest(text, pos, m, inner, close, mid, rest, text[mid..]);
      assert text[pos..] == text[pos..mid] + text[mid..];
    } else {
      var name, outer := stack[|stack| - 1], stack[..|stack| - 1];
      var rest, last, end: nat :| Layer(text, mid, name, rest, last, end) && Closes(text, end, outer);
      WrapLayer(text, pos, m, inner, close, mid, rest, name, last, end);
    }
  }

  lemma WrapRest(text: string, pos: nat, m: Match, inner: Markup, close: Tag, mid: nat, rest: Markup, after: string)
    requires pos <= m.start < m.end <= |text| && text[pos..m.end] == text[pos..m.start] + m.tag.Render()
    requires Free(text, pos, m.start) && WellFormed(m.tag) && Permitted(m.tag) && !m.tag.closing
    requires Layer(text, m.end, m.tag.Element(), inner, close, mid) && Nested(rest) && Render(rest) == after
    ensures var h := Element(text[pos..m.start], m.tag, inner, close, rest);
            Nested(h) && Render(h) == text[pos..mid] + after
  {
    hide Permitted, WellFormed, Free;
    var before := text[pos..m.start];
    FreePiece(text, pos, m.start);
    assert Nested(Element(before, m.tag, inner, close, rest));
    assert text[pos..mid] == text[pos..m.end] + text[m.end..mid];
    Joined(before, m.tag.Render(), Render(inner), close.Render(), after);
  }

  lemma FreePiece(text: string, i: nat, j: nat)
    requires i <= j <= |text| && Free(text, i, j)
    ensures forall k :: 0 <= k < j - i ==> text[i..j][k] != '<'
  {
  }

  lemma Joined(a: string, b: string, c: string, d: string, e: string)
    ensures a + b + c + d + e == (a + b) + (c + d) + e
  {
    assert (a + b) + c + d == (a + b) + (c + d);
  }

  lemma WrapLayer(text: string, pos: nat, m: Match, inner: Markup, close: Tag, mid: nat, rest: Markup, name: string,
                  last: Tag, end: nat)
    requires pos <= m.start < m.end <= |text| && text[pos..m.end] == text[pos..m.start] + m.tag.Render()
    requires Free(text, pos, m.start) && WellFormed(m.tag) && Permitted(m.tag) && !m.tag.closing
    requires Layer(text, m.end, m.tag.Element(), inner, close, mid) && mid <= |text|
    requires Layer(text, mid, name, rest, last, end)
    ensures Layer(text, pos, name, Element(text[pos..m.start], m.tag, inner, close, rest), last, end)
  {
    hide Permitted, WellFormed, Nested, Render;
    WrapRest(text, pos, m, inner, close, mid, rest, Render(rest));
    assert text[pos..end] == text[pos..mid] + text[mid..end];
  }

  lemma EndPasses(text: string)
    ensures Passes(text, |text|, [])
  {
    hide TagAt, Permitted;
    assert FindTag(text, |text|).None? && Free(text, |text|, |text|);
  }

  /** The stack scan accepts exactly the texts of the grammar. */
  lemma PassesIffNested(text: string)
    ensures Passes(text, 0, []) <==> Grammatical(text)
  {
    hide Passes, Nested, Render;
    assert text[0..] == text[..|text|] == text;
    if Passes(text, 0, []) {
      PassesMeansCloses(text, 0, []);
    }
    if h :| Nested(h) && Render(h) == text {
      NestedIsTransparent(text, 0, h, []);
      EndPasses(text);
    }
  }

  // ---------------------------------------------------------------- the checker

  predicate Alphanumeric(c: char) { Letter(c) || Digit(c) }

  /** The semicolon ending the entity-shaped token at `i`: decimal, hexadecimal or named. */
  function EntityEnd(text: string, i: nat): (e: Option<nat>)
    requires i < |text|
    ensures e.Some? ==> text[i] == '&' && i + 1 < e.value < |text| && text[e.value] == ';'
  {
    if text[i] != '&' || i + 1 == |text| then None
    else if Letter(text[i + 1]) then Terminated(text, i + 1, RunEnd(text, i + 1, Alphanumeric))
    else if text[i + 1] != '#' || i + 2 == |text| then None
    else if Digit(text[i + 2]) then Terminated(text, i + 2, RunEnd(text, i + 2, Digit))
    else if text[i + 2] in {'x', 'X'} then Terminated(text, i + 3, RunEnd(text, i + 3, HexDigit))
    else None
  }

  function Terminated(text: string, i: nat, e: nat): Option<nat> {
    if i < e < |text| && text[e] == ';' then Some(e) else None
  }

  lemma EntityShape(text: string, i: nat)
    requires i < |text|
    ensures forall e: nat :: Named(text, i, e) ==> EntityEnd(text, i) == Some(e)
    ensures EntityEnd(text, i).Some? ==>
      var e := EntityEnd(text, i).value;
      (forall k :: i < k <= e ==> text[k] != '&') && (text[i + 1] != '#' ==> Named(text, i, e))
  {
    forall e: nat | Named(text, i, e)
      ensures EntityEnd(text, i) == Some(e)
    {
      var end := RunEnd(text, i + 1, Alphanumeric);
      assert forall k :: i < k < e ==> Alphanumeric(text[k]);
      assert !Alphanumeric(text[e]);
      assert !(end < e) && !(e < end);
    }
    if EntityEnd(text, i).Some? && text[i + 1] != '#' {
      assert forall k :: i < k < EntityEnd(text, i).value ==> Alphanumeric(text[k]);
    }
  }

  datatype Problem =
    | Unescaped(at: nat)
    | UnsupportedTag(at: nat)
    | UnbalancedClosing(at: nat)
    | SpanWithoutSpoiler(at: nat)
    | UnsupportedEntity(at: nat)
    | Unclosed(name: string)

  /** The offset of a problem is the offset of its character. */
  predicate Located(text: string, p: Problem) {
    p.Unclosed? || (p.at < |text| && text[p.at] == if p.UnsupportedEntity? then '&' else '<')
  }

  method Strays(text: string, i: nat, j: nat) returns (problems: seq<Problem>)
    requires i <= j <= |text|
    ensures forall p :: p in problems <==> p.Unescaped? && i <= p.at < j && text[p.at] == '<'
    ensures problems == [] <==> Free(text, i, j)
  {
    problems := [];
    assert Free(text, i, i);
    for k := i to j
      invariant forall p :: p in problems <==> p.Unescaped? && i <= p.at < k && text[p.at] == '<'
      invariant problems == [] <==> Free(text, i, k)
    {
      if text[k] == '<' { problems := problems + [Unescaped(k)]; }
    }
  }

  method EntityProblems(text: string) returns (problems: seq<Problem>)
    ensures forall p :: p in problems ==> p.UnsupportedEntity? && Located(text, p)
    ensures problems == [] <==> EntitiesLegal(text)
  {
    problems := [];
    var i := 0;
    while i < |text|
      invariant i <= |text|
      invariant forall p :: p in problems ==> p.UnsupportedEntity? && Located(text, p)
      invariant problems == [] <==> forall k: nat, e: nat :: k < i && Named(text, k, e) ==> text[k + 1..e] in ENTITIES
      decreases |text| - i
    {
      EntityShape(text, i);
      match EntityEnd(text, i) {
        case None =>
          i := i + 1;
        case Some(e) =>
          if text[i + 1] != '#' && text[i + 1..e] !in ENTITIES {
            assert Named(text, i, e);
            problems := problems + [UnsupportedEntity(i)];
          }
          i := e + 1;
      }
    }
  }

  method HtmlProblems(raw: string) returns (problems: seq<Problem>)
    ensures problems == [] <==> Deliverable(MaskTemplates(raw))
    ensures forall p :: p in problems ==> Located(raw, p)
  {
    hide TagAt, Spoiler, MaskTemplates, Grammatical, EntitiesLegal;
    var text := MaskTemplates(raw);
    problems := [];
    var stack: seq<string> := [];
    var pos := 0;
    var found := FindTag(text, pos);
    while found.Some?
      invariant pos <= |text| && found == FindTag(text, pos)
      invariant forall p :: p in problems ==> Located(text, p)
      invariant Passes(text, 0, []) == (problems == [] && Passes(text, pos, stack))
      decreases |text| - pos
    {
      var m := found.value;
      var strays := Strays(text, pos, m.start);
      problems := problems + strays;
      pos := m.end;
      var name := m.tag.Element();
      if name !in ALLOWED {
        problems := problems + [UnsupportedTag(m.start)];
      } else if m.tag.closing {
        if stack == [] || stack[|stack| - 1] != name {
          problems := problems + [UnbalancedClosing(m.start)];
        } else {
          stack := stack[..|stack| - 1];
        }
      } else {
        if name == "span" && !Spoiler(m.tag.attrs) {
          problems := problems + [SpanWithoutSpoiler(m.start)];
        }
        stack := stack + [name];
      }
      found := FindTag(text, pos);
    }
    var strays := Strays(text, pos, |text|);
    problems := problems + strays;
    for i := 0 to |stack|
      invariant forall p :: p in problems ==> Located(text, p)
      invariant problems == [] ==> i == 0
      invariant i == 0 ==> Passes(text, 0, []) == (problems == [] && stack == [])
      invariant i > 0 ==> !Passes(text, 0, [])
    {
      problems := problems + [Unclosed(stack[i])];
    }
    PassesIffNested(text);
    var entities := EntityProblems(text);
    problems := problems + entities;
  }
}

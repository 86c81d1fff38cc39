/**
 Replacing known credential shapes within a line.

 Ten rules, each looking at the first occurrence of its prefix; the earliest match wins, ties
 going to the earlier rule.
 */
module TokenRedactor {
  import opened Wrappers
  import opened Segments
  import Utf8

  /** After a prefix: a run of token characters starting `skip` bytes in, or three dotted parts. */
  datatype Shape = Token(skip: nat, minLength: nat) | Jwt

  datatype Pattern = Pattern(prefix: Utf8.AsciiText, alternative: Option<Utf8.AsciiText>, shape: Shape, marker: Utf8.AsciiText)

  predicate PlainPrefix(prefix: string, shape: Shape) {
    prefix != "" && (shape.Token? ==> shape.skip <= |prefix| && shape.minLength > 0 && (shape.skip == 0 || shape.skip == |prefix|))
  }

  predicate RuleOk(rule: Pattern) {
    && PlainPrefix(rule.prefix, rule.shape)
    && (rule.alternative.Some? ==> PlainPrefix(rule.alternative.value, rule.shape))
  }

  /** A rule whose shape looks at what stands at or right after its prefix. */
  type Rule = p: Pattern | RuleOk(p) witness Pattern("-", None, Jwt, "")

  const GOOGLE: Rule := Pattern("AIza", None, Token(0, 39), "[REDACTED_GOOGLE_API_KEY]")
  const ANTHROPIC: Rule := Pattern("sk-ant-", None, Token(0, 20), "[REDACTED_ANTHROPIC_KEY]")
  const OPENAI: Rule := Pattern("sk-", None, Token(0, 20), "[REDACTED_OPENAI_KEY]")
  const GITHUB_PAT: Rule := Pattern("github_pat_", None, Token(0, 20), "[REDACTED_GITHUB_PAT]")
  const GITHUB_CLASSIC: Rule := Pattern("ghp_", None, Token(0, 40), "[REDACTED_GITHUB_TOKEN]")
  const AWS: Rule := Pattern("AKIA", None, Token(0, 20), "[REDACTED_AWS_ACCESS_KEY]")
  const JSON_WEB_TOKEN: Rule := Pattern("eyJ", None, Jwt, "[REDACTED_JWT_TOKEN]")
  const BEARER_MARKER: Utf8.AsciiText := "Bearer [REDACTED_BEARER_TOKEN]"
  const BEARER: Rule := Pattern("Bearer ", None, Token(7, 20), BEARER_MARKER)
  const HUGGING_FACE: Rule := Pattern("hf_", None, Token(0, 30), "[REDACTED_HF_TOKEN]")
  const SLACK: Rule := Pattern("xoxb-", Some("xoxp-"), Token(0, 20), "[REDACTED_SLACK_TOKEN]")

  const RULES: seq<Rule> := [GOOGLE, ANTHROPIC, OPENAI, GITHUB_PAT, GITHUB_CLASSIC, AWS, JSON_WEB_TOKEN, BEARER, HUGGING_FACE, SLACK]

  /** The ten known shapes: what a key begins with, how long it is at least, and what stands in for it. */
  lemma TenShapes()
    ensures RULES == [
      Pattern("AIza", None, Token(0, 39), "[REDACTED_GOOGLE_API_KEY]"),
      Pattern("sk-ant-", None, Token(0, 20), "[REDACTED_ANTHROPIC_KEY]"),
      Pattern("sk-", None, Token(0, 20), "[REDACTED_OPENAI_KEY]"),
      Pattern("github_pat_", None, Token(0, 20), "[REDACTED_GITHUB_PAT]"),
      Pattern("ghp_", None, Token(0, 40), "[REDACTED_GITHUB_TOKEN]"),
      Pattern("AKIA", None, Token(0, 20), "[REDACTED_AWS_ACCESS_KEY]"),
      Pattern("eyJ", None, Jwt, "[REDACTED_JWT_TOKEN]"),
      Pattern("Bearer ", None, Token(7, 20), BEARER_MARKER),
      Pattern("hf_", None, Token(0, 30), "[REDACTED_HF_TOKEN]"),
      Pattern("xoxb-", Some("xoxp-"), Token(0, 20), "[REDACTED_SLACK_TOKEN]")]
    ensures BEARER_MARKER == "Bearer [REDACTED_BEARER_TOKEN]"
  {
  }

  predicate IsTokenChar(c: char) {
    IsAlphanumeric(c) || c == '_' || c == '-'
  }

  /** The number of leading token characters, or of leading token characters and dots. */
  function Lead(s: string, dots: bool): (n: nat)
    ensures n <= |s| && forall i :: 0 <= i < n ==> IsTokenChar(s[i]) || (dots && s[i] == '.')
    ensures n < |s| ==> !(IsTokenChar(s[n]) || (dots && s[n] == '.'))
  {
    if s != "" && (IsTokenChar(s[0]) || (dots && s[0] == '.')) then
      var n := 1 + Lead(s[1..], dots);
      assert forall i :: 1 <= i < n ==> s[i] == s[1..][i - 1];
      n
    else 0
  }

  lemma LeadIs(s: string, dots: bool, n: nat)
    requires n <= |s| && forall i :: 0 <= i < n ==> IsTokenChar(s[i]) || (dots && s[i] == '.')
    requires n < |s| ==> !(IsTokenChar(s[n]) || (dots && s[n] == '.'))
    ensures Lead(s, dots) == n
  {
    var m := Lead(s, dots);
  }

  lemma LeadAtLeast(s: string, dots: bool, n: nat)
    requires n <= |s| && forall i :: 0 <= i < n ==> IsTokenChar(s[i]) || (dots && s[i] == '.')
    ensures Lead(s, dots) >= n
  {
  }

  function Dots(s: string): nat {
    if s == "" then 0
    else
      var last := if s[|s| - 1] == '.' then 1 else 0;
      Dots(s[..|s| - 1]) + last
  }

  lemma {:induction false} DotsOfPrefix(s: string, n: nat)
    requires n <= |s|
    ensures Dots(s[..n]) <= Dots(s)
    decreases |s|
  {
    if n < |s| {
      DotsOfPrefix(s[..|s| - 1], n);
      assert s[..|s| - 1][..n] == s[..n];
    } else {
      assert s[..n] == s;
    }
  }

  /** Where a token run starting at `start` ends, if it is long enough. */
  function TokenEnd(text: string, start: nat, minLength: nat): (r: Option<nat>)
    requires start <= |text|
    ensures r.Some? ==> start + minLength <= r.value <= |text|
  {
    var n := Lead(text[start..], false);
    if n >= minLength then Some(start + n) else None
  }

  /** A long enough run of token characters that cannot be extended, and nothing else. */
  lemma TokenEndIs(text: string, start: nat, minLength: nat, end: nat)
    requires start <= |text|
    ensures TokenEnd(text, start, minLength) == Some(end) <==>
      && start + minLength <= end <= |text| && (forall i :: start <= i < end ==> IsTokenChar(text[i]))
      && (end < |text| ==> !IsTokenChar(text[end]))
  {
    hide Lead, IsTokenChar;
    var s := text[start..];
    assert forall i :: 0 <= i < |s| ==> s[i] == text[start + i];
    assert forall i :: start <= i < |text| ==> text[i] == s[i - start];
    if start <= end <= |text| && (forall i :: start <= i < end ==> IsTokenChar(text[i])) && (end < |text| ==> !IsTokenChar(text[end])) {
      LeadIs(s, false, end - start);
    }
  }

  /** Where three dotted parts starting at `start` end: exactly two dots and at least 30 bytes. */
  function JwtEnd(text: string, start: nat): (r: Option<nat>)
    requires start <= |text|
    ensures r.Some? ==> start + 30 <= r.value <= |text|
  {
    var n := Lead(text[start..], true);
    if Dots(text[start..][..n]) == 2 && n >= 30 then Some(start + n) else None
  }

  lemma JwtEndIs(text: string, start: nat, end: nat)
    requires start <= |text|
    ensures JwtEnd(text, start) == Some(end) <==>
      && start + 30 <= end <= |text| && (forall i :: start <= i < end ==> IsTokenChar(text[i]) || text[i] == '.')
      && (end < |text| ==> !IsTokenChar(text[end]) && text[end] != '.') && Dots(text[start..end]) == 2
  {
    hide Lead, IsTokenChar, Dots;
    var s := text[start..];
    assert forall i :: 0 <= i < |s| ==> s[i] == text[start + i];
    assert forall i :: start <= i < |text| ==> text[i] == s[i - start];
    if start <= end <= |text| {
      assert s[..end - start] == text[start..end];
      if (forall i :: start <= i < end ==> IsTokenChar(text[i]) || text[i] == '.') && (end < |text| ==> !IsTokenChar(text[end]) && text[end] != '.') {
        LeadIs(s, true, end - start);
      }
    }
  }

  function PrefixAt(text: string, rule: Rule): (r: Option<nat>)
    ensures r.Some? ==> OccursAt(text, rule.prefix, r.value) || (rule.alternative.Some? && OccursAt(text, rule.alternative.value, r.value))
  {
    var first := Find(text, rule.prefix);
    if first.None? && rule.alternative.Some? then Find(text, rule.alternative.value) else first
  }

  /** The span a rule would replace: it starts at the prefix. */
  function MatchOf(text: string, rule: Rule): (r: Option<(nat, nat)>)
    ensures r.Some? ==> r.value.0 < r.value.1 <= |text| && PrefixAt(text, rule) == Some(r.value.0)
  {
    match PrefixAt(text, rule)
    case None => None
    case Some(pos) =>
      var end := if rule.shape.Jwt? then JwtEnd(text, pos) else TokenEnd(text, pos + rule.shape.skip, rule.shape.minLength);
      if end.Some? then Some((pos, end.value)) else None
  }

  datatype Match = Match(start: nat, end: nat, rule: nat)

  /** The best match among the first `k` rules. */
  function Best(rules: seq<Rule>, text: string, k: nat): (r: Option<Match>)
    requires k <= |rules|
    ensures r.Some? ==> r.value.rule < k && r.value.start < r.value.end <= |text|
  {
    if k == 0 then None
    else
      var before := Best(rules, text, k - 1);
      match MatchOf(text, rules[k - 1])
      case None => before
      case Some((start, end)) =>
        if before.None? || start < before.value.start then Some(Match(start, end, k - 1)) else before
  }

  /** None of the first `k` rules matches. */
  predicate NoMatch(rules: seq<Rule>, text: string, k: nat)
    requires k <= |rules|
  {
    forall i :: 0 <= i < k ==> MatchOf(text, rules[i]).None?
  }

  lemma NoRuleYet(rules: seq<Rule>, text: string)
    ensures Best(rules, text, 0) == None && NoMatch(rules, text, 0)
  {
  }

  lemma BestStep(rules: seq<Rule>, text: string, k: nat)
    requires 0 < k <= |rules|
    ensures var before, found := Best(rules, text, k - 1), MatchOf(text, rules[k - 1]);
      Best(rules, text, k) == if found.Some? && (before.None? || found.value.0 < before.value.start)
                              then Some(Match(found.value.0, found.value.1, k - 1)) else before
  {
    hide MatchOf;
  }

  /** No rule among the first `k` matches before the chosen match, or at the same place and listed before it. */
  predicate NoneBefore(rules: seq<Rule>, text: string, k: nat, best: Match)
    requires k <= |rules|
  {
    forall i :: 0 <= i < k && MatchOf(text, rules[i]).Some? ==>
      best.start < MatchOf(text, rules[i]).value.0 || (best.start == MatchOf(text, rules[i]).value.0 && best.rule <= i)
  }

  /** The chosen match is a rule's own, starts no later than any other rule's, and ties go to rule order. */
  lemma {:induction false} BestIsEarliest(rules: seq<Rule>, text: string, k: nat)
    requires k <= |rules|
    ensures var r := Best(rules, text, k);
      && (r.None? <==> NoMatch(rules, text, k))
      && (r.Some? ==> MatchOf(text, rules[r.value.rule]) == Some((r.value.start, r.value.end)))
      && (r.Some? ==> NoneBefore(rules, text, k, r.value))
  {
    hide MatchOf, Best, NoneBefore, NoMatch;
    if k == 0 {
      NoRuleYet(rules, text);
    } else {
      BestIsEarliest(rules, text, k - 1);
      BestStep(rules, text, k);
      NoneMatches(rules, text, k);
      var before, found := Best(rules, text, k - 1), MatchOf(text, rules[k - 1]);
      if found.Some? && before.Some? {
        NoneBeforeStep(rules, text, k, before.value, found.value.0, found.value.1);
      } else if found.Some? {
        FirstToMatch(rules, text, k, found.value.0, found.value.1);
      } else if before.Some? {
        OneMoreMisses(rules, text, k, before.value);
      }
    }
  }

  lemma NoneMatches(rules: seq<Rule>, text: string, k: nat)
    requires 0 < k <= |rules|
    ensures NoMatch(rules, text, k) <==> NoMatch(rules, text, k - 1) && MatchOf(text, rules[k - 1]).None?
  {
    hide MatchOf;
  }

  lemma NoneBeforeStep(rules: seq<Rule>, text: string, k: nat, before: Match, start: nat, end: nat)
    requires 0 < k <= |rules| && NoneBefore(rules, text, k - 1, before) && MatchOf(text, rules[k - 1]) == Some((start, end))
    requires before.rule < k - 1
    ensures NoneBefore(rules, text, k, if start < before.start then Match(start, end, k - 1) else before)
  {
    hide MatchOf;
  }

  lemma FirstToMatch(rules: seq<Rule>, text: string, k: nat, start: nat, end: nat)
    requires 0 < k <= |rules| && NoMatch(rules, text, k - 1) && MatchOf(text, rules[k - 1]) == Some((start, end))
    ensures NoneBefore(rules, text, k, Match(start, end, k - 1))
  {
    hide MatchOf;
  }

  lemma OneMoreMisses(rules: seq<Rule>, text: string, k: nat, before: Match)
    requires 0 < k <= |rules| && NoneBefore(rules, text, k - 1, before) && MatchOf(text, rules[k - 1]).None?
    ensures NoneBefore(rules, text, k, before)
  {
    hide MatchOf;
  }

  /** The line cut at the best match of each remaining suffix. */
  function Spans(rules: seq<Rule>, text: string): seq<Segment>
    decreases |text|
  {
    if text == "" then []
    else match Best(rules, text, |rules|)
      case None => [Keep(text)]
      case Some(m) =>
        [Keep(text[..m.start])] + ([Replace(text[m.start..m.end], rules[m.rule].marker)] + Spans(rules, text[m.end..]))
  }

  // The searches, as loops over characters.

  method FindTokenEnd(text: string, start: nat, minLength: nat) returns (r: Option<nat>)
    requires Utf8.Valid(text) && start <= |text| && Utf8.Boundary(text, start)
    ensures r == TokenEnd(text, start, minLength)
  {
    hide Utf8.Valid, Utf8.CharLen, Lead;
    var remainder := Slice(text, start, |text|);
    assert remainder == text[start..];
    var charCount, byteLength, idx := 0, 0, 0;
    while idx < |remainder| && IsTokenChar(remainder[idx])
      invariant 0 <= idx <= |remainder| && Utf8.Boundary(remainder, idx)
      invariant charCount == byteLength == idx
      invariant forall i :: 0 <= i < idx ==> IsTokenChar(remainder[i])
      decreases |remainder| - idx
    {
      Utf8.CharEnd(remainder, idx);
      var width := Utf8.CharLen(remainder[idx..]);
      assert Utf8.ByteIn(remainder[idx..], 0, 0, 0x7F);
      charCount := charCount + 1;
      byteLength := idx + width;
      idx := idx + width;
    }
    LeadIs(remainder, false, idx);
    if charCount >= minLength { return Some(start + byteLength); }
    return None;
  }

  lemma NoDots()
    ensures Dots("") == 0
  {
  }

  lemma DotsSnoc(s: string, n: nat)
    requires n < |s|
    ensures Dots(s[..n + 1]) == Dots(s[..n]) + if s[n] == '.' then 1 else 0
  {
    assert s[..n + 1][..n] == s[..n];
  }

  method FindJwtEnd(text: string, start: nat) returns (r: Option<nat>)
    requires Utf8.Valid(text) && start <= |text| && Utf8.Boundary(text, start)
    ensures r == JwtEnd(text, start)
  {
    hide Utf8.Valid, Utf8.CharLen, Lead, Dots;
    NoDots();
    var remainder := Slice(text, start, |text|);
    assert remainder == text[start..];
    var dotCount, byteLength, idx := 0, 0, 0;
    while idx < |remainder| && (IsTokenChar(remainder[idx]) || remainder[idx] == '.')
      invariant 0 <= idx <= |remainder| && Utf8.Boundary(remainder, idx)
      invariant byteLength == idx && dotCount == Dots(remainder[..idx]) <= 2
      invariant forall i :: 0 <= i < idx ==> IsTokenChar(remainder[i]) || remainder[i] == '.'
      decreases |remainder| - idx
    {
      Utf8.CharEnd(remainder, idx);
      var width := Utf8.CharLen(remainder[idx..]);
      assert Utf8.ByteIn(remainder[idx..], 0, 0, 0x7F);
      DotsSnoc(remainder, idx);
      if remainder[idx] == '.' { dotCount := dotCount + 1; }
      byteLength := idx + width;
      if dotCount > 2 {
        var n := Lead(remainder, true);
        LeadAtLeast(remainder, true, idx + 1);
        DotsOfPrefix(remainder[..n], idx + 1);
        assert remainder[..n][..idx + 1] == remainder[..idx + 1];
        return None;
      }
      idx := idx + width;
    }
    LeadIs(remainder, true, idx);
    if dotCount == 2 && byteLength >= 30 { return Some(start + byteLength); }
    return None;
  }

  lemma RunEndBoundary(text: string, start: nat, end: nat)
    requires Utf8.Valid(text) && start < end <= |text|
    requires text[end - 1] as int < 0x80
    ensures Utf8.Boundary(text, end)
  {
    Utf8.AroundAscii(text, end - 1);
  }

  /** A rule's span lies between character boundaries. */
  lemma MatchBoundaries(text: string, rule: Rule)
    requires Utf8.Valid(text) && MatchOf(text, rule).Some?
    ensures Utf8.Boundary(text, MatchOf(text, rule).value.0) && Utf8.Boundary(text, MatchOf(text, rule).value.1)
  {
    hide Utf8.Valid;
    var (start, end) := MatchOf(text, rule).value;
    if OccursAt(text, rule.prefix, start) {
      OccurrenceBoundaries(text, rule.prefix, start);
    } else {
      OccurrenceBoundaries(text, rule.alternative.value, start);
    }
    var from := if rule.shape.Jwt? then start else start + rule.shape.skip;
    assert text[from..][end - 1 - from] == text[end - 1];
    RunEndBoundary(text, start, end);
  }

  method MatchRule(text: string, rule: Rule) returns (r: Option<(nat, nat)>)
    requires Utf8.Valid(text)
    ensures r == MatchOf(text, rule)
    ensures r.Some? ==> Utf8.Boundary(text, r.value.0) && Utf8.Boundary(text, r.value.1)
  {
    hide Utf8.Valid, TokenEnd, JwtEnd, PrefixAt;
    if MatchOf(text, rule).Some? { MatchBoundaries(text, rule); }
    var pos := PrefixAt(text, rule);
    if pos.None? { return None; }
    PrefixBoundaries(text, rule);
    var end;
    match rule.shape {
      case Jwt => end := FindJwtEnd(text, pos.value);
      case Token(skip, minLength) => end := FindTokenEnd(text, pos.value + skip, minLength);
    }
    return if end.Some? then Some((pos.value, end.value)) else None;
  }

  lemma OneBoundary(text: string, prefix: Utf8.AsciiText, shape: Shape, pos: nat)
    requires Utf8.Valid(text) && PlainPrefix(prefix, shape) && OccursAt(text, prefix, pos)
    ensures pos <= |text| && Utf8.Boundary(text, pos)
    ensures shape.Token? ==> pos + shape.skip <= |text| && Utf8.Boundary(text, pos + shape.skip)
  {
    hide Utf8.Valid, Utf8.Ascii;
    OccurrenceBoundaries(text, prefix, pos);
  }

  lemma PrefixBoundaries(text: string, rule: Rule)
    requires Utf8.Valid(text) && PrefixAt(text, rule).Some?
    ensures var pos := PrefixAt(text, rule).value;
      && pos <= |text| && Utf8.Boundary(text, pos)
      && (rule.shape.Token? ==> pos + rule.shape.skip <= |text| && Utf8.Boundary(text, pos + rule.shape.skip))
  {
    hide Utf8.Valid, Utf8.Ascii, Utf8.Boundary, PlainPrefix, PrefixAt, OccursAt;
    var pos := PrefixAt(text, rule).value;
    if OccursAt(text, rule.prefix, pos) {
      OneBoundary(text, rule.prefix, rule.shape, pos);
    } else {
      OneBoundary(text, rule.alternative.value, rule.shape, pos);
    }
  }

  method EarliestMatch(rules: seq<Rule>, text: string) returns (r: Option<Match>)
    requires Utf8.Valid(text)
    ensures r == Best(rules, text, |rules|)
    ensures r.Some? ==> Utf8.Boundary(text, r.value.start) && Utf8.Boundary(text, r.value.end)
  {
    hide Utf8.Valid, MatchOf;
    r := None;
    var k := 0;
    while k < |rules|
      invariant 0 <= k <= |rules| && r == Best(rules, text, k)
      invariant r.Some? ==> Utf8.Boundary(text, r.value.start) && Utf8.Boundary(text, r.value.end)
    {
      var found := MatchRule(text, rules[k]);
      if found.Some? {
        var (start, end) := found.value;
        if r.None? || start < r.value.start {
          r := Some(Match(start, end, k));
        }
      }
      k := k + 1;
    }
  }

  lemma SpansEnd(rules: seq<Rule>, text: string)
    requires text == "" || Best(rules, text, |rules|).None?
    ensures Original(Spans(rules, text)) == text && Rendered(Spans(rules, text)) == text && Replacements(Spans(rules, text)) == 0
  {
    hide Best;
    if text != "" { One(Keep(text)); }
  }

  lemma SpansStep(rules: seq<Rule>, text: string, m: Match)
    requires Best(rules, text, |rules|) == Some(m)
    ensures m.start < m.end <= |text| && m.rule < |rules|
    ensures Original(Spans(rules, text)) == text[..m.start] + (text[m.start..m.end] + Original(Spans(rules, text[m.end..])))
    ensures Rendered(Spans(rules, text)) == text[..m.start] + (rules[m.rule].marker + Rendered(Spans(rules, text[m.end..])))
    ensures Replacements(Spans(rules, text)) == 1 + Replacements(Spans(rules, text[m.end..]))
  {
    hide MatchOf, Original, Rendered, Replacements;
    var cut, rest := Replace(text[m.start..m.end], rules[m.rule].marker), Spans(rules, text[m.end..]);
    Cons(cut, rest);
    Cons(Keep(text[..m.start]), [cut] + rest);
  }

  /** Redaction replaces disjoint spans, left to right, and keeps everything else in order. */
  lemma {:induction false} SpansPartition(rules: seq<Rule>, text: string)
    ensures Original(Spans(rules, text)) == text
    decreases |text|
  {
    hide Spans, Original, Rendered, Replacements, MatchOf;
    var best := Best(rules, text, |rules|);
    if text == "" || best.None? {
      SpansEnd(rules, text);
    } else {
      var m := best.value;
      SpansStep(rules, text, m);
      SpansPartition(rules, text[m.end..]);
      ThreeParts(text, m.start, m.end);
    }
  }

  lemma ThreeParts(s: string, i: nat, j: nat)
    requires i <= j <= |s|
    ensures s == s[..i] + (s[i..j] + s[j..])
  {
    assert s[i..] == s[i..j] + s[j..];
  }

  lemma Regroup(a: string, b: string, c: string, d: string)
    ensures a + (b + (c + d)) == a + b + c + d
  {
    assert a + (b + (c + d)) == (a + b) + (c + d);
  }

  /** The token pass of one line. */
  method RedactTokens(rules: seq<Rule>, line: string) returns (out: string, count: nat)
    requires Utf8.Valid(line)
    ensures out == Rendered(Spans(rules, line)) && count == Replacements(Spans(rules, line))
    ensures Utf8.Valid(out)
  {
    hide Utf8.Valid, Spans, Rendered, Replacements, Original, MatchOf, Best;
    out, count := "", 0;
    var current := line;
    Utf8.EmptyIsValid();
    assert "" + Rendered(Spans(rules, line)) == Rendered(Spans(rules, line));
    while current != ""
      invariant Utf8.Valid(current) && Utf8.Valid(out)
      invariant out + Rendered(Spans(rules, current)) == Rendered(Spans(rules, line))
      invariant count + Replacements(Spans(rules, current)) == Replacements(Spans(rules, line))
      decreases |current|
    {
      var earliest := EarliestMatch(rules, current);
      if earliest.None? {
        SpansEnd(rules, current);
        Utf8.ConcatValid(out, current);
        out := out + current;
        return;
      }
      var m := earliest.value;
      SpansStep(rules, current, m);
      MarkersValid(rules, m.rule);
      var before, after := Slice(current, 0, m.start), Slice(current, m.end, |current|);
      assert before == current[..m.start] && after == current[m.end..];
      Regroup(out, before, rules[m.rule].marker, Rendered(Spans(rules, after)));
      Utf8.ConcatValid(out, before);
      Utf8.ConcatValid(out + before, rules[m.rule].marker);
      out := out + before + rules[m.rule].marker;
      count := count + 1;
      current := after;
    }
    SpansEnd(rules, "");
    assert out + "" == out;
  }

  lemma MarkersValid(rules: seq<Rule>, k: nat)
    requires k < |rules|
    ensures Utf8.Valid(rules[k].marker)
  {
    hide Utf8.Valid;
    Utf8.AsciiValid(rules[k].marker);
  }

  // What gets past the rules.

  predicate PrefixStands(text: string, rule: Rule, p: nat) {
    OccursAt(text, rule.prefix, p) || (rule.alternative.Some? && OccursAt(text, rule.alternative.value, p))
  }

  /** A rule's prefix stands at `p`, followed by what its shape asks for. */
  predicate ShapedAt(text: string, rule: Rule, p: nat) {
    PrefixStands(text, rule, p) && (if rule.shape.Jwt? then JwtEnd(text, p) else TokenEnd(text, p + rule.shape.skip, rule.shape.minLength)).Some?
  }

  /** A rule replaces nothing that starts at or before `k`. */
  predicate PassesOver(text: string, rule: Rule, k: nat) {
    var first := PrefixAt(text, rule);
    first.None? || !ShapedAt(text, rule, first.value) || k < first.value
  }

  lemma PassesOverIs(text: string, rule: Rule, k: nat)
    ensures PassesOver(text, rule, k) <==> MatchOf(text, rule).None? || k < MatchOf(text, rule).value.0
  {
    hide JwtEnd, TokenEnd;
  }

  /** The prefix the rule looks at is another one: before `k` and not shaped, or, for its second spelling, behind `k`. */
  predicate Shadowed(text: string, rule: Rule, k: nat) {
    var first := PrefixAt(text, rule);
    && first.Some?
    && ((first.value < k && !ShapedAt(text, rule, first.value)) || (k < first.value && !OccursAt(text, rule.prefix, k)))
  }

  lemma ShadowedIs(text: string, rule: Rule, k: nat)
    requires ShapedAt(text, rule, k)
    ensures PassesOver(text, rule, k) <==> Shadowed(text, rule, k)
  {
    hide JwtEnd, TokenEnd;
  }

  lemma OccursInSuffix(text: string, part: string, c: nat, p: nat)
    requires c <= p <= |text|
    ensures OccursAt(text, part, p) <==> OccursAt(text[c..], part, p - c)
  {
    if p + |part| <= |text| { assert text[c..][p - c..p - c + |part|] == text[p..p + |part|]; }
  }

  lemma ShapedInSuffix(text: string, rule: Rule, c: nat, p: nat)
    requires c <= p <= |text|
    ensures ShapedAt(text, rule, p) <==> ShapedAt(text[c..], rule, p - c)
  {
    hide Lead, Dots, OccursAt;
    OccursInSuffix(text, rule.prefix, c, p);
    if rule.alternative.Some? { OccursInSuffix(text, rule.alternative.value, c, p); }
    assert text[c..][p - c..] == text[p..];
    if PrefixStands(text, rule, p) && rule.shape.Token? {
      PrefixFits(text, rule, p);
      assert text[c..][p - c + rule.shape.skip..] == text[p + rule.shape.skip..];
    }
  }

  lemma PrefixFits(text: string, rule: Rule, p: nat)
    requires PrefixStands(text, rule, p) && rule.shape.Token?
    ensures p + rule.shape.skip <= |text|
  {
  }

  /** The loop comes to look at what is left of the text after `c` bytes. */
  predicate Reaches(rules: seq<Rule>, text: string, c: nat)
    decreases |text|
  {
    c == 0 ||
    var m := Best(rules, text, |rules|);
    (m.Some? && m.value.end <= c && Reaches(rules, text[m.value.end..], c - m.value.end))
  }

  /** From `c` on, which the loop comes to look at, no rule replaces anything that starts at or before `p`. */
  predicate UntouchedFrom(rules: seq<Rule>, text: string, p: nat, c: nat) {
    && c <= p && c <= |text| && Reaches(rules, text, c)
    && forall i :: 0 <= i < |rules| ==> PassesOver(text[c..], rules[i], p - c)
  }

  ghost predicate Untouched(rules: seq<Rule>, text: string, p: nat) {
    exists c: nat :: UntouchedFrom(rules, text, p, c)
  }

  lemma UntouchedAtStart(rules: seq<Rule>, text: string, p: nat)
    ensures var best := Best(rules, text, |rules|);
      UntouchedFrom(rules, text, p, 0) <==> best.None? || p < best.value.start
  {
    hide Best, MatchOf, PassesOver;
    var best := Best(rules, text, |rules|);
    assert text[0..] == text;
    BestIsEarliest(rules, text, |rules|);
    forall i | 0 <= i < |rules|
      ensures PassesOver(text, rules[i], p) <==> MatchOf(text, rules[i]).None? || p < MatchOf(text, rules[i]).value.0
    {
      PassesOverIs(text, rules[i], p);
    }
    if best.Some? && p >= best.value.start { assert !PassesOver(text, rules[best.value.rule], p); }
  }

  lemma UntouchedLater(rules: seq<Rule>, text: string, p: nat, end: nat)
    requires Best(rules, text, |rules|).Some? && Best(rules, text, |rules|).value.end == end <= p
    ensures Untouched(rules, text, p) <==> Untouched(rules, text[end..], p - end)
  {
    hide Best, MatchOf, PassesOver;
    if Untouched(rules, text, p) {
      var c: nat :| UntouchedFrom(rules, text, p, c);
      UntouchedAtStart(rules, text, p);
      assert c > 0;
      assert text[end..][c - end..] == text[c..];
      assert UntouchedFrom(rules, text[end..], p - end, c - end);
    }
    if Untouched(rules, text[end..], p - end) {
      var c: nat :| UntouchedFrom(rules, text[end..], p - end, c);
      assert text[end..][c..] == text[c + end..];
      assert UntouchedFrom(rules, text, p, c + end);
    }
  }

  lemma KeptInSpans(rules: seq<Rule>, text: string, p: nat)
    requires p < |text|
    ensures var best := Best(rules, text, |rules|);
      KeptAt(Spans(rules, text), p) <==>
        best.None? || p < best.value.start || (p >= best.value.end && KeptAt(Spans(rules, text[best.value.end..]), p - best.value.end))
  {
    hide Best, KeptAt;
    match Best(rules, text, |rules|)
    case None =>
      KeptAtCons(Keep(text), [], p);
      assert [Keep(text)] + [] == [Keep(text)];
    case Some(m) =>
      var cut, rest := Replace(text[m.start..m.end], rules[m.rule].marker), Spans(rules, text[m.end..]);
      KeptAtCons(Keep(text[..m.start]), [cut] + rest, p);
      if p >= m.start { KeptAtCons(cut, rest, p - m.start); }
  }

  /**
   A byte is kept exactly when, at some point the loop comes to, no rule finds the first occurrence
   of its prefix both shaped and starting at or before that byte.
   */
  lemma {:induction false} KeptExactly(rules: seq<Rule>, text: string, p: nat)
    requires p < |text|
    ensures KeptAt(Spans(rules, text), p) <==> Untouched(rules, text, p)
    decreases |text|
  {
    hide Best, KeptAt, Spans, PassesOver;
    KeptInSpans(rules, text, p);
    UntouchedAtStart(rules, text, p);
    var best := Best(rules, text, |rules|);
    if best.Some? && best.value.start <= p {
      var end := best.value.end;
      if p < end {
        forall c: nat ensures !UntouchedFrom(rules, text, p, c) {
        }
      } else {
        KeptExactly(rules, text[end..], p - end);
        UntouchedLater(rules, text, p, end);
      }
    }
  }

  /** Why a shaped occurrence of rule `r` at `p` is not replaced: its own rule looks elsewhere, and no other acts first. */
  predicate ShadowedFrom(rules: seq<Rule>, r: nat, text: string, p: nat, c: nat)
    requires r < |rules|
  {
    && c <= p && c <= |text| && Reaches(rules, text, c) && Shadowed(text[c..], rules[r], p - c)
    && forall i :: 0 <= i < |rules| && i != r ==> PassesOver(text[c..], rules[i], p - c)
  }

  /**
   A key-shaped occurrence gets past the rules exactly when, in some rest of the line the loop comes
   to, an occurrence of its prefix that is not shaped stands before it (or, for the second spelling
   of a prefix, the first spelling stands behind it), and no other rule replaces what starts at or
   before it.
   */
  lemma ShapedSurvivesExactly(rules: seq<Rule>, r: nat, text: string, p: nat)
    requires r < |rules| && p < |text| && ShapedAt(text, rules[r], p)
    ensures KeptAt(Spans(rules, text), p) <==> exists c: nat :: ShadowedFrom(rules, r, text, p, c)
  {
    hide Best, KeptAt, Spans, PassesOver, Shadowed, ShapedAt, Reaches;
    KeptExactly(rules, text, p);
    forall c: nat ensures UntouchedFrom(rules, text, p, c) <==> ShadowedFrom(rules, r, text, p, c) {
      if c <= p {
        ShapedInSuffix(text, rules[r], c, p);
        ShadowedIs(text[c..], rules[r], p - c);
      }
    }
  }

  // Two lines whose keys get past all ten rules.

  const RUN := "aaaaaaaaaaaaaaaaaaaa"
  const KEY := "sk-" + RUN
  const SHADOWED := "sk- " + KEY
  const KEY_MARK := "[REDACTED_OPENAI_KEY]"

  /** What a rule needs to match at all: all characters of its prefix, or of its alternative. */
  lemma MatchHasChars(text: string, rule: Rule, i: nat)
    requires i < |rule.prefix|
    ensures MatchOf(text, rule).Some? ==> rule.prefix[i] in text || (rule.alternative.Some? && rule.alternative.value[0] in text)
  {
    hide MatchOf, PrefixAt;
    if MatchOf(text, rule).Some? {
      var p := PrefixAt(text, rule).value;
      if OccursAt(text, rule.prefix, p) {
        OccurrenceHasChars(text, rule.prefix, p);
      } else {
        OccurrenceHasChars(text, rule.alternative.value, p);
      }
    }
  }

  /** The characters the two lines are made of. */
  predicate Plain(c: char) {
    c == 's' || c == 'k' || c == '-' || c == ' ' || c == 'a' || c == 'x' || c == 'o' || c == 'p' || c == 'b'
  }

  lemma FirstRulesNeedMore(text: string)
    requires forall c :: c in text ==> Plain(c)
    ensures MatchOf(text, GOOGLE).None? && MatchOf(text, ANTHROPIC).None? && MatchOf(text, GITHUB_PAT).None?
    ensures MatchOf(text, GITHUB_CLASSIC).None? && MatchOf(text, AWS).None?
  {
    hide MatchOf;
    MatchHasChars(text, GOOGLE, 0);
    MatchHasChars(text, ANTHROPIC, 4);
    MatchHasChars(text, GITHUB_PAT, 0);
    MatchHasChars(text, GITHUB_CLASSIC, 0);
    MatchHasChars(text, AWS, 0);
  }

  lemma LastRulesNeedMore(text: string)
    requires forall c :: c in text ==> Plain(c)
    ensures MatchOf(text, JSON_WEB_TOKEN).None? && MatchOf(text, BEARER).None? && MatchOf(text, HUGGING_FACE).None?
    ensures 's' !in text ==> MatchOf(text, OPENAI).None?
    ensures 'x' !in text ==> MatchOf(text, SLACK).None?
  {
    hide MatchOf;
    MatchHasChars(text, JSON_WEB_TOKEN, 0);
    MatchHasChars(text, BEARER, 0);
    MatchHasChars(text, HUGGING_FACE, 0);
    MatchHasChars(text, OPENAI, 0);
    MatchHasChars(text, SLACK, 0);
  }

  /** On these characters, no rule but OpenAI's or Slack's can match. */
  lemma OtherRulesNeedMore(text: string)
    requires forall c :: c in text ==> Plain(c)
    ensures forall i :: 0 <= i < 10 && i != 2 && i != 9 ==> MatchOf(text, RULES[i]).None?
    ensures 's' !in text ==> MatchOf(text, RULES[2]).None?
    ensures 'x' !in text ==> MatchOf(text, RULES[9]).None?
  {
    hide MatchOf;
    FirstRulesNeedMore(text);
    LastRulesNeedMore(text);
  }

  lemma OnlyRule(text: string, r: nat, start: nat, end: nat)
    requires r < 10 && MatchOf(text, RULES[r]) == Some((start, end))
    requires forall i :: 0 <= i < 10 && i != r ==> MatchOf(text, RULES[i]).None?
    ensures Best(RULES, text, |RULES|) == Some(Match(start, end, r))
  {
    hide MatchOf;
    BestIsEarliest(RULES, text, |RULES|);
  }

  lemma KeyShape()
    ensures |RUN| == 20 && (forall i :: 0 <= i < 20 ==> RUN[i] == 'a')
    ensures |KEY| == 23 && KEY[..3] == "sk-" && (forall i :: 0 <= i < 23 ==> IsTokenChar(KEY[i]))
    ensures forall c :: c in KEY ==> Plain(c)
    ensures 'x' !in KEY
  {
  }

  lemma ShadowedShape()
    ensures |SHADOWED| == 27 && SHADOWED[3] == ' ' && SHADOWED[4..] == KEY && SHADOWED[..3] == "sk-"
    ensures forall c :: c in SHADOWED ==> Plain(c)
    ensures 'x' !in SHADOWED
  {
    KeyShape();
  }

  lemma KeyEnd()
    ensures TokenEnd(KEY, 0, 20) == Some(23)
  {
    hide Lead;
    KeyShape();
    LeadIs(KEY, false, 23);
    assert KEY[0..] == KEY;
  }

  lemma KeyAloneMatches()
    ensures MatchOf(KEY, OPENAI) == Some((0, 23))
  {
    hide TokenEnd, JwtEnd;
    KeyEnd();
    KeyShape();
    assert KEY[0..3] == "sk-";
    assert PrefixAt(KEY, OPENAI) == Some(0);
  }

  lemma BarePrefixFails()
    ensures MatchOf(SHADOWED, OPENAI).None?
  {
    ShadowedShape();
    assert SHADOWED[0..3] == "sk-";
    assert Find(SHADOWED, "sk-") == Some(0);
    assert SHADOWED[0..] == SHADOWED;
    assert Lead(SHADOWED, false) <= 3;
  }

  lemma OpenAiIsThird()
    ensures RULES[2] == OPENAI
  {
  }

  lemma NothingMatches(text: string)
    requires forall i :: 0 <= i < 10 ==> MatchOf(text, RULES[i]).None?
    ensures Rendered(Spans(RULES, text)) == text && Replacements(Spans(RULES, text)) == 0
  {
    hide Spans, Rendered, Replacements, Original, MatchOf, Best;
    BestIsEarliest(RULES, text, |RULES|);
    SpansEnd(RULES, text);
  }

  lemma ShadowedIsKept()
    ensures MatchOf(SHADOWED, OPENAI).None?
    ensures Rendered(Spans(RULES, SHADOWED)) == SHADOWED && Replacements(Spans(RULES, SHADOWED)) == 0
  {
    hide *;
    BarePrefixFails();
    ShadowedShape();
    OtherRulesNeedMore(SHADOWED);
    OpenAiIsThird();
    NothingMatches(SHADOWED);
  }

  lemma KeyIsReplaced()
    ensures Rendered(Spans(RULES, KEY)) == KEY_MARK
  {
    hide Spans, Rendered, Replacements, Original, MatchOf, Best;
    KeyAloneMatches();
    KeyShape();
    OtherRulesNeedMore(KEY);
    OnlyRule(KEY, 2, 0, 23);
    SpansStep(RULES, KEY, Match(0, 23, 2));
    SpansEnd(RULES, "");
    assert KEY[23..] == "" && KEY[..0] == "";
    assert "" + (KEY_MARK + "") == KEY_MARK;
  }

  /**
   A rule does not look past the first occurrence of its prefix: a key that is replaced when it
   stands alone is left in the line when a bare prefix stands before it, by all ten rules.
   */
  lemma ShadowedKeySurvives()
    ensures MatchOf(KEY, OPENAI) == Some((0, 23)) && MatchOf(SHADOWED, OPENAI).None?
    ensures Rendered(Spans(RULES, KEY)) == KEY_MARK && Rendered(Spans(RULES, SHADOWED)) == SHADOWED
    ensures Replacements(Spans(RULES, SHADOWED)) == 0
  {
    hide *;
    KeyAloneMatches();
    KeyIsReplaced();
    ShadowedIsKept();
  }

  const TAIL := "aaaaaaaaaaaaaaaaaa"
  const USER_KEY := "xoxp-" + TAIL
  const BOT_KEY := "xoxb-" + TAIL
  const BOTH := USER_KEY + " " + BOT_KEY
  const BOT_MARK := "[REDACTED_SLACK_TOKEN]"

  lemma BothShape()
    ensures |TAIL| == 18 && (forall i :: 0 <= i < 18 ==> TAIL[i] == 'a')
    ensures |BOTH| == 47 && BOTH[..23] == USER_KEY && BOTH[23] == ' ' && BOTH[24..] == BOT_KEY
    ensures BOTH[..5] == "xoxp-" && BOTH[24..29] == "xoxb-"
    ensures forall i :: 0 <= i < 47 && i != 23 ==> IsTokenChar(BOTH[i])
    ensures forall i :: 0 <= i < 47 ==> (BOTH[i] == 'b' <==> i == 27)
    ensures 's' !in BOTH && forall c :: c in BOTH ==> Plain(c)
  {
  }

  lemma BotKeyFirst()
    ensures PrefixAt(BOTH, SLACK) == Some(24)
  {
    BothShape();
    forall j | 0 <= j < 24 ensures !OccursAt(BOTH, "xoxb-", j) {
      assert BOTH[j..j + 5][3] == BOTH[j + 3];
    }
    assert OccursAt(BOTH, "xoxb-", 24);
  }

  lemma BotKeyMatches()
    ensures MatchOf(BOTH, SLACK) == Some((24, 47))
  {
    hide PrefixAt, JwtEnd, TokenEnd;
    BotKeyFirst();
    BothShape();
    TokenEndIs(BOTH, 24, 20, 47);
  }

  lemma UserKeyIsShaped()
    ensures ShapedAt(BOTH, SLACK, 0)
  {
    hide JwtEnd, TokenEnd;
    BothShape();
    TokenEndIs(BOTH, 0, 20, 23);
    assert BOTH[0..5] == "xoxp-";
  }

  /** The Slack rule looks for its second spelling only where its first is nowhere in the rest of the line. */
  lemma UserKeySurvives()
    ensures ShapedAt(BOTH, SLACK, 0) && KeptAt(Spans(RULES, BOTH), 0)
    ensures Rendered(Spans(RULES, BOTH)) == USER_KEY + " " + BOT_MARK
  {
    hide Spans, Rendered, Replacements, Original, MatchOf, Best, KeptAt, ShapedAt;
    UserKeyIsShaped();
    BotKeyMatches();
    BothShape();
    OtherRulesNeedMore(BOTH);
    OnlyRule(BOTH, 9, 24, 47);
    KeptInSpans(RULES, BOTH, 0);
    SpansStep(RULES, BOTH, Match(24, 47, 9));
    SpansEnd(RULES, "");
    assert BOTH[47..] == "" && BOTH[..24] == USER_KEY + " ";
    assert USER_KEY + " " + (BOT_MARK + "") == USER_KEY + " " + BOT_MARK;
  }
}

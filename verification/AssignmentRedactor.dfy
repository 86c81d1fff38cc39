/**
 Replacing the values assigned to sensitive keys.

 The earliest key, the first separator after it and the value behind that; quoted values are
 matched with their escapes.
 */
module AssignmentRedactor {
  import opened Wrappers
  import opened Text
  import opened Segments
  import Utf8

  const KEYS: seq<Key> := ["password", "secret", "api_key", "token", "auth_token", "private_key", "bearer"]
  const QUOTED_MARKER: Utf8.AsciiText := "\"[REDACTED_ASSIGNED_SECRET]\""
  const PLAIN_MARKER: Utf8.AsciiText := "[REDACTED_ASSIGNED_SECRET]"
  const ALREADY := "[REDACTED"

  predicate KeyOk(key: string) {
    key != "" && Utf8.Ascii(key)
  }

  type Key = k: string | KeyOk(k) witness "k"

  /** `eq_ignore_ascii_case` of the key with the bytes at `i`. */
  predicate KeyAt(s: string, key: string, i: nat) {
    i + |key| <= |s| && forall k :: 0 <= k < |key| ==> LowerChar(s[i + k]) == LowerChar(key[k])
  }

  function KeyFrom(s: string, key: string, i: nat): (r: Option<nat>)
    requires i <= |s|
    ensures r.Some? ==> i <= r.value <= |s| && KeyAt(s, key, r.value) && forall j :: i <= j < r.value ==> !KeyAt(s, key, j)
    ensures r.None? ==> forall j :: i <= j <= |s| ==> !KeyAt(s, key, j)
    decreases |s| - i
  {
    if KeyAt(s, key, i) then Some(i) else if i == |s| then None else KeyFrom(s, key, i + 1)
  }

  lemma {:induction false} KeyFromIs(s: string, key: string, i: nat, k: nat)
    requires i <= k <= |s| && (forall j :: i <= j < k ==> !KeyAt(s, key, j))
    ensures KeyAt(s, key, k) ==> KeyFrom(s, key, i) == Some(k)
    ensures k == |s| && key != "" ==> KeyFrom(s, key, i) == None
    decreases k - i
  {
    if i < k { KeyFromIs(s, key, i + 1, k); }
  }

  predicate Delimits(s: string, i: nat) {
    i < |s| && (Utf8.WhiteWidth(s, i) > 0 || s[i] == ',' || s[i] == ';' || s[i] == '}')
  }

  // Values.

  /** The number of backslashes standing directly before position `i`. */
  function BackslashRun(s: string, i: nat): nat
    requires i <= |s|
  {
    if i > 0 && s[i - 1] == '\\' then 1 + BackslashRun(s, i - 1) else 0
  }

  /** A quote that ends a quoted value: an even run of backslashes stands before it. */
  predicate Closes(s: string, q: char, i: nat) {
    i < |s| && s[i] == q && BackslashRun(s, i) % 2 == 0
  }

  /** The length of a quoted value's inside up to and including its closing quote, or to the end. */
  function InsideFrom(s: string, q: char, i: nat): (n: nat)
    requires i <= |s|
    ensures i <= n <= |s|
    ensures (n == |s| && forall j :: i <= j < n ==> !Closes(s, q, j)) || (i < n && Closes(s, q, n - 1) && forall j :: i <= j < n - 1 ==> !Closes(s, q, j))
    decreases |s| - i
  {
    if i == |s| then i else if Closes(s, q, i) then i + 1 else InsideFrom(s, q, i + 1)
  }

  lemma InsideFromIs(s: string, q: char, k: nat)
    requires k <= |s| && (forall j :: 0 <= j < k ==> !Closes(s, q, j))
    ensures Closes(s, q, k) ==> InsideFrom(s, q, 0) == k + 1
    ensures k == |s| ==> InsideFrom(s, q, 0) == |s|
  {
    var n := InsideFrom(s, q, 0);
  }

  function PlainFrom(s: string, i: nat): (n: nat)
    requires i <= |s|
    ensures i <= n <= |s| && (forall j :: i <= j < n ==> !Delimits(s, j)) && (n == |s| || Delimits(s, n))
    decreases |s| - i
  {
    if i == |s| || Delimits(s, i) then i else PlainFrom(s, i + 1)
  }

  lemma PlainFromIs(s: string, k: nat)
    requires k <= |s| && (forall j :: 0 <= j < k ==> !Delimits(s, j)) && (k == |s| || Delimits(s, k))
    ensures PlainFrom(s, 0) == k
  {
    hide Delimits;
    var n := PlainFrom(s, 0);
  }

  predicate IsQuote(c: char) {
    c == '"' || c == '\''
  }

  predicate Quoted(value: string) {
    value != "" && IsQuote(value[0])
  }

  /** How much of the text after the separator is the value. */
  function ValueLength(value: string): (n: nat)
    ensures n <= |value|
  {
    if Quoted(value) then 1 + InsideFrom(value[1..], value[0], 0) else PlainFrom(value, 0)
  }

  // One step on what is left of the line.

  datatype Step = Stop | Pass(keyEnd: nat) | Redact(prefix: nat, length: nat, quoted: bool)

  /** The earliest key among the first `k`, as the span it occupies. */
  function EarliestKey(keys: seq<Key>, s: string, k: nat): (r: Option<(nat, nat)>)
    requires k <= |keys|
    ensures r.Some? ==> r.value.0 < r.value.1 <= |s|
  {
    if k == 0 then None
    else
      var before := EarliestKey(keys, s, k - 1);
      match KeyFrom(s, keys[k - 1], 0)
      case None => before
      case Some(start) =>
        if before.None? || start < before.value.0 then Some((start, start + |keys[k - 1]|)) else before
  }

  ghost predicate NoKeyBefore(keys: seq<Key>, k: nat, s: string, n: nat)
    requires k <= |keys|
  {
    forall i, p: nat :: 0 <= i < k && p < n ==> !KeyAt(s, keys[i], p)
  }

  /** The earliest key stands where no key stands before it; of several there, the first in the list. */
  lemma {:induction false} EarliestKeyIsFirst(keys: seq<Key>, s: string, k: nat)
    requires k <= |keys|
    ensures var r := EarliestKey(keys, s, k);
      && (r.None? <==> NoKeyBefore(keys, k, s, |s| + 1))
      && (r.Some? ==> NoKeyBefore(keys, k, s, r.value.0))
      && (r.Some? ==> exists i :: 0 <= i < k && KeyAt(s, keys[i], r.value.0) && r.value.1 == r.value.0 + |keys[i]|
                                  && NoKeyBefore(keys, i, s, r.value.0 + 1))
  {
    hide KeyAt;
    if k > 0 {
      EarliestKeyIsFirst(keys, s, k - 1);
      var before, found := EarliestKey(keys, s, k - 1), KeyFrom(s, keys[k - 1], 0);
      if found.Some? && (before.None? || found.value < before.value.0) {
        assert KeyAt(s, keys[k - 1], found.value) && NoKeyBefore(keys, k - 1, s, found.value + 1);
      } else if before.Some? {
        var i :| 0 <= i < k - 1 && KeyAt(s, keys[i], before.value.0) && before.value.1 == before.value.0 + |keys[i]|
                 && NoKeyBefore(keys, i, s, before.value.0 + 1);
      }
    }
  }

  function SeparatorFrom(s: string, i: nat): (r: nat)
    requires i <= |s|
    ensures i <= r <= |s| && (r < |s| ==> s[r] == ':' || s[r] == '=')
    ensures forall j :: i <= j < r ==> s[j] != ':' && s[j] != '='
    decreases |s| - i
  {
    if i == |s| || s[i] == ':' || s[i] == '=' then i else SeparatorFrom(s, i + 1)
  }

  function StepOf(keys: seq<Key>, s: string): (r: Step)
    ensures r.Pass? ==> 0 < r.keyEnd <= |s|
    ensures r.Redact? ==> 0 < r.prefix && r.prefix + r.length <= |s|
  {
    match EarliestKey(keys, s, |keys|)
    case None => Stop
    case Some((_, keyEnd)) =>
      var separator := SeparatorFrom(s, keyEnd);
      if separator == |s| then Pass(keyEnd)
      else
        var start := Utf8.SkipWhite(s, separator + 1);
        if start == |s| || ALREADY <= s[start..] then Pass(keyEnd)
        else Redact(start, ValueLength(s[start..]), Quoted(s[start..]))
  }

  // What one step does, stated on the line.

  /** The key a line is cut at: none stands before it, and none listed before it stands at the same place. */
  ghost predicate FirstKey(keys: seq<Key>, s: string, start: nat, end: nat) {
    exists i: nat :: i < |keys| && KeyAt(s, keys[i], start) && end == start + |keys[i]|
                     && NoKeyBefore(keys, |keys|, s, start) && NoKeyBefore(keys, i, s, start + 1)
  }

  /** From `i` to `at` there is white space only, character by character, and at `at` something else. */
  predicate BlankUpTo(s: string, i: nat, at: nat)
    decreases |s| - i
  {
    if i < at then i < |s| && Utf8.WhiteWidth(s, i) > 0 && BlankUpTo(s, i + Utf8.WhiteWidth(s, i), at)
    else i == at && at < |s| && Utf8.WhiteWidth(s, at) == 0
  }

  /** The text assigned behind a key that ends at `keyEnd` begins at `start`: behind the first ':' or '=' and blanks. */
  ghost predicate AssignedAt(s: string, keyEnd: nat, start: nat) {
    exists sep: nat :: keyEnd <= sep < |s| && (s[sep] == ':' || s[sep] == '=')
                       && (forall j :: keyEnd <= j < sep ==> s[j] != ':' && s[j] != '=') && BlankUpTo(s, sep + 1, start)
  }

  /** The whole value at the beginning of a text. */
  predicate WholeValue(value: string, n: nat) {
    if value != "" && (value[0] == '"' || value[0] == '\'') then
      || (n == |value| && forall j :: 0 <= j < |value| - 1 ==> !Closes(value[1..], value[0], j))
      || (2 <= n <= |value| && Closes(value[1..], value[0], n - 2) && forall j :: 0 <= j < n - 2 ==> !Closes(value[1..], value[0], j))
    else n <= |value| && (n == |value| || Delimits(value, n)) && forall j :: 0 <= j < n ==> !Delimits(value, j)
  }

  /** The earliest key and the value assigned behind it, if that is still to be redacted. */
  ghost predicate Exposed(keys: seq<Key>, s: string, start: nat, n: nat) {
    && start < |s| && !("[REDACTED" <= s[start..]) && WholeValue(s[start..], n)
    && exists key: nat, keyEnd: nat :: FirstKey(keys, s, key, keyEnd) && AssignedAt(s, keyEnd, start)
  }

  ghost predicate NothingExposed(keys: seq<Key>, s: string) {
    forall start: nat, n: nat :: !Exposed(keys, s, start, n)
  }

  /** One step: the exposed value is replaced; without one the text through the key is kept; without a key, all of it. */
  ghost predicate StepIs(keys: seq<Key>, s: string, step: Step) {
    match step
    case Stop => forall start: nat, end: nat :: !FirstKey(keys, s, start, end)
    case Pass(keyEnd) => NothingExposed(keys, s) && exists start: nat :: FirstKey(keys, s, start, keyEnd)
    case Redact(start, n, quoted) => Exposed(keys, s, start, n) && (quoted <==> s[start] == '"' || s[start] == '\'')
  }

  lemma FirstKeyIs(keys: seq<Key>, s: string)
    ensures var r := EarliestKey(keys, s, |keys|);
      if r.Some? then FirstKey(keys, s, r.value.0, r.value.1) else forall start: nat, end: nat :: !FirstKey(keys, s, start, end)
  {
    hide KeyAt;
    EarliestKeyIsFirst(keys, s, |keys|);
    var r := EarliestKey(keys, s, |keys|);
    if r.Some? {
      var i :| 0 <= i < |keys| && KeyAt(s, keys[i], r.value.0) && r.value.1 == r.value.0 + |keys[i]| && NoKeyBefore(keys, i, s, r.value.0 + 1);
      assert FirstKey(keys, s, r.value.0, r.value.1);
    } else {
      forall start: nat, end: nat ensures !FirstKey(keys, s, start, end) {
        if FirstKey(keys, s, start, end) { KeyIsInside(keys, s, start, end); }
      }
    }
  }

  lemma KeyIsInside(keys: seq<Key>, s: string, start: nat, end: nat)
    requires FirstKey(keys, s, start, end)
    ensures !NoKeyBefore(keys, |keys|, s, |s| + 1) && start < |s| + 1
  {
    var i: nat :| i < |keys| && KeyAt(s, keys[i], start) && end == start + |keys[i]|
                  && NoKeyBefore(keys, |keys|, s, start) && NoKeyBefore(keys, i, s, start + 1);
    assert start + |keys[i]| <= |s|;
  }

  lemma FirstKeyIsOne(keys: seq<Key>, s: string, a: nat, b: nat, c: nat, d: nat)
    requires FirstKey(keys, s, a, b) && FirstKey(keys, s, c, d)
    ensures a == c && b == d
  {
    hide KeyAt;
    var i: nat :| i < |keys| && KeyAt(s, keys[i], a) && b == a + |keys[i]|
                  && NoKeyBefore(keys, |keys|, s, a) && NoKeyBefore(keys, i, s, a + 1);
    var j: nat :| j < |keys| && KeyAt(s, keys[j], c) && d == c + |keys[j]|
                  && NoKeyBefore(keys, |keys|, s, c) && NoKeyBefore(keys, j, s, c + 1);
    assert !(a < c) && !(c < a);
    assert !(i < j) && !(j < i);
  }

  lemma {:induction false} BlankUpToSkip(s: string, i: nat)
    requires i <= |s|
    ensures Utf8.SkipWhite(s, i) < |s| ==> BlankUpTo(s, i, Utf8.SkipWhite(s, i))
    ensures forall at :: BlankUpTo(s, i, at) ==> at == Utf8.SkipWhite(s, i)
    decreases |s| - i
  {
    hide Utf8.WhiteWidth;
    if i < |s| && Utf8.WhiteWidth(s, i) > 0 {
      BlankUpToSkip(s, i + Utf8.WhiteWidth(s, i));
    } else if i == |s| {
      Utf8.NoWhiteAtEnd(s);
    }
  }

  lemma AssignedAtIs(s: string, keyEnd: nat, start: nat)
    requires keyEnd <= |s|
    ensures var sep := SeparatorFrom(s, keyEnd);
      AssignedAt(s, keyEnd, start) <==> sep < |s| && start < |s| && start == Utf8.SkipWhite(s, sep + 1)
  {
    hide BlankUpTo, AssignedAt, SeparatorFrom, Utf8.SkipWhite, Utf8.WhiteWidth;
    var sep := SeparatorFrom(s, keyEnd);
    if sep < |s| {
      BlankUpToSkip(s, sep + 1);
      if start < |s| && start == Utf8.SkipWhite(s, sep + 1) { AssignedBehind(s, keyEnd, sep, start); }
    }
    if AssignedAt(s, keyEnd, start) {
      var at := BehindSeparator(s, keyEnd, start);
      FirstSeparator(s, keyEnd, at);
      BlankInside(s, at + 1, start);
    }
  }

  lemma AssignedBehind(s: string, keyEnd: nat, sep: nat, start: nat)
    requires keyEnd <= sep < |s| && (s[sep] == ':' || s[sep] == '=') && (forall j :: keyEnd <= j < sep ==> s[j] != ':' && s[j] != '=')
    requires BlankUpTo(s, sep + 1, start)
    ensures AssignedAt(s, keyEnd, start)
  {
    hide BlankUpTo;
  }

  lemma BehindSeparator(s: string, keyEnd: nat, start: nat) returns (at: nat)
    requires AssignedAt(s, keyEnd, start)
    ensures keyEnd <= at < |s| && (s[at] == ':' || s[at] == '=') && (forall j :: keyEnd <= j < at ==> s[j] != ':' && s[j] != '=')
    ensures BlankUpTo(s, at + 1, start)
  {
    hide BlankUpTo;
    at :| keyEnd <= at < |s| && (s[at] == ':' || s[at] == '=')
          && (forall j :: keyEnd <= j < at ==> s[j] != ':' && s[j] != '=') && BlankUpTo(s, at + 1, start);
  }

  lemma FirstSeparator(s: string, i: nat, at: nat)
    requires i <= at < |s| && (s[at] == ':' || s[at] == '=') && forall j :: i <= j < at ==> s[j] != ':' && s[j] != '='
    ensures SeparatorFrom(s, i) == at
  {
    var r := SeparatorFrom(s, i);
    assert !(r < at) && !(at < r);
  }

  lemma {:induction false} BlankInside(s: string, i: nat, at: nat)
    requires BlankUpTo(s, i, at)
    ensures at < |s|
    decreases |s| - i
  {
    hide Utf8.WhiteWidth;
    if i < at { BlankInside(s, i + Utf8.WhiteWidth(s, i), at); }
  }

  lemma WholeValueIs(value: string, n: nat)
    ensures WholeValue(value, n) <==> n == ValueLength(value)
  {
    hide Closes, Delimits;
    ValueEnds(value);
  }

  /** What a step does is exactly what the line says. */
  lemma StepExactly(keys: seq<Key>, s: string)
    ensures StepIs(keys, s, StepOf(keys, s))
    ensures forall start: nat, n: nat :: Exposed(keys, s, start, n) <==> StepOf(keys, s).Redact? && StepOf(keys, s).prefix == start && StepOf(keys, s).length == n
  {
    hide EarliestKey, FirstKey, AssignedAt, WholeValue, ValueLength, SeparatorFrom, Utf8.SkipWhite;
    FirstKeyIs(keys, s);
    var r, step := EarliestKey(keys, s, |keys|), StepOf(keys, s);
    forall start: nat, n: nat
      ensures Exposed(keys, s, start, n) <==> step.Redact? && step.prefix == start && step.length == n
    {
      ExposedIs(keys, s, start, n);
    }
  }

  lemma ExposedIs(keys: seq<Key>, s: string, start: nat, n: nat)
    ensures Exposed(keys, s, start, n) <==> StepOf(keys, s).Redact? && StepOf(keys, s).prefix == start && StepOf(keys, s).length == n
  {
    hide EarliestKey, FirstKey, AssignedAt, WholeValue, ValueLength, SeparatorFrom, Utf8.SkipWhite, Quoted;
    FirstKeyIs(keys, s);
    var r, step := EarliestKey(keys, s, |keys|), StepOf(keys, s);
    if r.Some? {
      var keyEnd := r.value.1;
      AssignedAtIs(s, keyEnd, start);
      if AssignedAt(s, keyEnd, start) { WholeValueIs(s[start..], n); }
    }
    if Exposed(keys, s, start, n) {
      var key: nat, end: nat :| FirstKey(keys, s, key, end) && AssignedAt(s, end, start);
      FirstKeyIsOne(keys, s, key, end, r.value.0, r.value.1);
    }
  }

  /**
   A whole pass, stated on the line: step by step from its beginning, `result` is what the steps leave
   and `count` the number of values they replace.
   */
  ghost predicate Redacts(keys: seq<Key>, s: string, result: string, count: nat)
    decreases |s|
  {
    if s == "" then result == "" && count == 0
    else exists step :: StepIs(keys, s, step) && match step
      case Stop => result == s && count == 0
      case Pass(n) => 0 < n <= |s| && s[..n] <= result && Redacts(keys, s[n..], result[n..], count)
      case Redact(start, n, quoted) =>
        var left := s[..start] + if quoted then "\"[REDACTED_ASSIGNED_SECRET]\"" else "[REDACTED_ASSIGNED_SECRET]";
        && 0 < start && start + n <= |s| && count > 0 && left <= result && Redacts(keys, s[start + n..], result[|left|..], count - 1)
  }

  lemma StepIsTaken(keys: seq<Key>, s: string)
    ensures StepIs(keys, s, StepOf(keys, s))
  {
    hide StepIs, StepOf, Exposed;
    StepExactly(keys, s);
  }

  lemma StopRedacts(keys: seq<Key>, s: string)
    requires s == "" || StepOf(keys, s).Stop?
    ensures Redacts(keys, s, s, 0)
  {
    hide StepOf, StepIs;
    StepExactly(keys, s);
  }

  lemma PassRedacts(keys: seq<Key>, s: string, n: nat, rest: string, count: nat)
    requires s != "" && StepOf(keys, s) == Pass(n) && Redacts(keys, s[n..], rest, count)
    ensures Redacts(keys, s, s[..n] + rest, count)
  {
    hide StepIs, StepOf;
    StepIsTaken(keys, s);
    var step := StepOf(keys, s);
    assert (s[..n] + rest)[n..] == rest;
  }

  lemma RedactRedacts(keys: seq<Key>, s: string, start: nat, n: nat, quoted: bool, rest: string, count: nat)
    requires s != "" && StepOf(keys, s) == Redact(start, n, quoted) && Redacts(keys, s[start + n..], rest, count)
    ensures Redacts(keys, s, s[..start] + (MarkerFor(quoted) + rest), count + 1)
  {
    hide StepIs, StepOf;
    StepIsTaken(keys, s);
    var step := StepOf(keys, s);
    var left := s[..start] + MarkerFor(quoted);
    Assoc(s[..start], MarkerFor(quoted), rest);
    assert (left + rest)[|left|..] == rest;
  }

  function MarkerFor(quoted: bool): Utf8.AsciiText {
    if quoted then QUOTED_MARKER else PLAIN_MARKER
  }

  function Spans(keys: seq<Key>, s: string): seq<Segment>
    decreases |s|
  {
    if s == "" then []
    else match StepOf(keys, s)
      case Stop => [Keep(s)]
      case Pass(n) => [Keep(s[..n])] + Spans(keys, s[n..])
      case Redact(p, n, quoted) => [Keep(s[..p])] + ([Replace(s[p..][..n], MarkerFor(quoted))] + Spans(keys, s[p..][n..]))
  }

  /**
   A quoted value ends right after the first quote of its kind that an even run of backslashes
   precedes, or at the end of the line; an unquoted one at the first delimiter or the end.
   */
  lemma ValueEnds(value: string)
    ensures var n := ValueLength(value);
      if Quoted(value) then
        || (n == |value| && forall j :: 0 <= j < |value| - 1 ==> !Closes(value[1..], value[0], j))
        || (n >= 2 && Closes(value[1..], value[0], n - 2) && forall j :: 0 <= j < n - 2 ==> !Closes(value[1..], value[0], j))
      else (n == |value| || Delimits(value, n)) && forall j :: 0 <= j < n ==> !Delimits(value, j)
  {
  }

  // The searches, as loops over characters.

  lemma NoKeyInsideChar(s: string, key: Key, i: nat, j: nat)
    requires Utf8.Valid(s) && i < |s| && Utf8.Boundary(s, i)
    requires i < j < i + Utf8.CharLen(s[i..]) && j <= |s|
    ensures !KeyAt(s, key, j)
  {
    Utf8.CharEnd(s, i);
    assert Utf8.Tail(s[i..], j - i) && s[i..][j - i] == s[j];
    if j + |key| <= |s| { assert LowerChar(s[j + 0]) != LowerChar(key[0]); }
  }

  lemma KeyBoundaries(s: string, key: Key, i: nat)
    requires Utf8.Valid(s) && KeyAt(s, key, i)
    ensures Utf8.Boundary(s, i) && Utf8.Boundary(s, i + |key|)
  {
    hide Utf8.Valid;
    assert LowerChar(s[i + 0]) == LowerChar(key[0]) && LowerChar(s[i + (|key| - 1)]) == LowerChar(key[|key| - 1]);
    Utf8.AroundAscii(s, i);
    Utf8.AroundAscii(s, i + |key| - 1);
  }

  method FindAsciiCaseInsensitive(s: string, key: Key) returns (r: Option<(nat, nat)>)
    requires Utf8.Valid(s)
    ensures match KeyFrom(s, key, 0)
            case None => r.None?
            case Some(i) => r == Some((i, i + |key|)) && Utf8.Boundary(s, i) && Utf8.Boundary(s, i + |key|)
  {
    hide Utf8.Valid, Utf8.CharLen, KeyFrom, KeyAt;
    var idx := 0;
    while idx < |s|
      invariant 0 <= idx <= |s| && Utf8.Boundary(s, idx)
      invariant forall j :: 0 <= j < idx ==> !KeyAt(s, key, j)
      decreases |s| - idx
    {
      if KeyAt(s, key, idx) {
        KeyFromIs(s, key, 0, idx);
        KeyBoundaries(s, key, idx);
        return Some((idx, idx + |key|));
      }
      Utf8.CharEnd(s, idx);
      forall j | idx < j < idx + Utf8.CharLen(s[idx..]) ensures !KeyAt(s, key, j) {
        NoKeyInsideChar(s, key, idx, j);
      }
      idx := idx + Utf8.CharLen(s[idx..]);
    }
    KeyFromIs(s, key, 0, idx);
    return None;
  }

  method FindEarliestKey(keys: seq<Key>, s: string) returns (r: Option<(nat, nat)>)
    requires Utf8.Valid(s)
    ensures r == EarliestKey(keys, s, |keys|)
    ensures r.Some? ==> Utf8.Boundary(s, r.value.1)
  {
    hide Utf8.Valid, KeyFrom;
    r := None;
    var k := 0;
    while k < |keys|
      invariant 0 <= k <= |keys| && r == EarliestKey(keys, s, k)
      invariant r.Some? ==> Utf8.Boundary(s, r.value.1)
    {
      var found := FindAsciiCaseInsensitive(s, keys[k]);
      if found.Some? && (r.None? || found.value.0 < r.value.0) { r := found; }
      k := k + 1;
    }
  }

  method FindValueStart(s: string, from: nat) returns (start: nat)
    requires Utf8.Valid(s) && from <= |s| && Utf8.Boundary(s, from)
    ensures start == Utf8.SkipWhite(s, from) && Utf8.Boundary(s, start)
  {
    hide Utf8.Valid, Utf8.CharLen, Utf8.WhiteWidth;
    start := from;
    while start < |s| && Utf8.WhiteWidth(s, start) > 0
      invariant from <= start <= |s| && Utf8.Boundary(s, start)
      invariant Utf8.SkipWhite(s, from) == Utf8.SkipWhite(s, start)
      decreases |s| - start
    {
      Utf8.CharEnd(s, start);
      Utf8.WhiteIsChar(s, start);
      start := start + Utf8.CharLen(s[start..]);
    }
    if start == |s| { Utf8.NoWhiteAtEnd(s); }
  }

  lemma NoCloseInsideChar(s: string, q: char, i: nat)
    requires Utf8.Valid(s) && i < |s| && Utf8.Boundary(s, i) && IsQuote(q) && Utf8.CharLen(s[i..]) > 1
    ensures forall j :: i <= j < i + Utf8.CharLen(s[i..]) ==> !Closes(s, q, j)
    ensures i + Utf8.CharLen(s[i..]) <= |s| && BackslashRun(s, i + Utf8.CharLen(s[i..])) == 0
  {
    Utf8.CharEnd(s, i);
    var n := Utf8.CharLen(s[i..]);
    assert forall j :: 0 < j < n ==> Utf8.Tail(s[i..], j) && s[i..][j] == s[i + j];
    assert !Utf8.ByteIn(s[i..], 0, 0, 0x7F) && s[i..][0] == s[i];
    assert Utf8.Tail(s[i..], n - 1);
  }

  /** The escape flag of the scan is the parity of the backslashes before the scan position. */
  method ScanQuoted(inside: string, q: char) returns (end: nat)
    requires Utf8.Valid(inside) && IsQuote(q)
    ensures end == InsideFrom(inside, q, 0) && Utf8.Boundary(inside, end)
  {
    hide Utf8.Valid, Utf8.CharLen, InsideFrom;
    var escaped := false;
    var idx := 0;
    while idx < |inside|
      invariant 0 <= idx <= |inside| && Utf8.Boundary(inside, idx)
      invariant escaped == (BackslashRun(inside, idx) % 2 == 1)
      invariant forall j :: 0 <= j < idx ==> !Closes(inside, q, j)
      decreases |inside| - idx
    {
      Utf8.CharEnd(inside, idx);
      var width := Utf8.CharLen(inside[idx..]);
      assert width == 1 <==> inside[idx] as int < 0x80 by { assert inside[idx..][0] == inside[idx]; }
      if width > 1 { NoCloseInsideChar(inside, q, idx); }
      if inside[idx] == '\\' {
        escaped := !escaped;
      } else if inside[idx] == q && !escaped {
        InsideFromIs(inside, q, idx);
        return idx + 1;
      } else {
        escaped := false;
      }
      idx := idx + width;
    }
    InsideFromIs(inside, q, idx);
    return |inside|;
  }

  lemma NoDelimiterInsideChar(s: string, i: nat, j: nat)
    requires Utf8.Valid(s) && i < |s| && Utf8.Boundary(s, i) && i < j < i + Utf8.CharLen(s[i..])
    ensures !Delimits(s, j)
  {
    Utf8.CharEnd(s, i);
    assert Utf8.Tail(s[i..], j - i) && s[i..][j - i] == s[j];
  }

  method ScanPlain(value: string) returns (end: nat)
    requires Utf8.Valid(value)
    ensures end == PlainFrom(value, 0) && Utf8.Boundary(value, end)
  {
    hide Utf8.Valid, Utf8.CharLen, PlainFrom, Delimits;
    end := 0;
    while end < |value| && !Delimits(value, end)
      invariant 0 <= end <= |value| && Utf8.Boundary(value, end)
      invariant forall j :: 0 <= j < end ==> !Delimits(value, j)
      decreases |value| - end
    {
      Utf8.CharEnd(value, end);
      forall j | end < j < end + Utf8.CharLen(value[end..]) ensures !Delimits(value, j) {
        NoDelimiterInsideChar(value, end, j);
      }
      end := end + Utf8.CharLen(value[end..]);
    }
    PlainFromIs(value, end);
  }

  method MeasureValue(value: string) returns (n: nat, quoted: bool)
    requires Utf8.Valid(value)
    ensures n == ValueLength(value) && quoted == Quoted(value) && Utf8.Boundary(value, n)
  {
    hide Utf8.Valid, InsideFrom, PlainFrom;
    quoted := value != "" && IsQuote(value[0]);
    if quoted {
      Utf8.AroundAscii(value, 0);
      var inside := Slice(value, 1, |value|);
      assert inside == value[1..];
      n := ScanQuoted(inside, value[0]);
      SuffixBoundary(value, 1, 1 + n);
      n := n + 1;
    } else {
      n := ScanPlain(value);
    }
  }

  method FindSeparator(s: string, from: nat) returns (at: nat)
    requires from <= |s|
    ensures at == SeparatorFrom(s, from)
  {
    at := from;
    while at < |s| && s[at] != ':' && s[at] != '='
      invariant from <= at <= |s| && SeparatorFrom(s, from) == SeparatorFrom(s, at)
    {
      at := at + 1;
    }
  }

  method NextStep(keys: seq<Key>, s: string) returns (r: Step)
    requires Utf8.Valid(s)
    ensures r == StepOf(keys, s) && StepIs(keys, s, r)
    ensures r.Pass? ==> Utf8.Boundary(s, r.keyEnd)
    ensures r.Redact? ==> Utf8.Boundary(s, r.prefix) && Utf8.Boundary(s, r.prefix + r.length)
  {
    hide Utf8.Valid, EarliestKey, SeparatorFrom, Utf8.SkipWhite, ValueLength, Quoted, StepIs;
    StepExactly(keys, s);
    var key := FindEarliestKey(keys, s);
    if key.None? { return Stop; }
    var keyEnd := key.value.1;
    var separator := FindSeparator(s, keyEnd);
    if separator == |s| { return Pass(keyEnd); }
    Utf8.AroundAscii(s, separator);
    var start := FindValueStart(s, separator + 1);
    if start == |s| || ALREADY <= s[start..] { return Pass(keyEnd); }
    var value := Slice(s, start, |s|);
    assert value == s[start..];
    var n, quoted := MeasureValue(value);
    SuffixBoundary(s, start, start + n);
    return Redact(start, n, quoted);
  }

  lemma SpansEnd(keys: seq<Key>, s: string)
    requires (s == "" || StepOf(keys, s).Stop?)
    ensures Original(Spans(keys, s)) == s && Rendered(Spans(keys, s)) == s && Replacements(Spans(keys, s)) == 0
  {
    hide StepOf;
    if s != "" { One(Keep(s)); }
  }

  lemma SpansPass(keys: seq<Key>, s: string, n: nat)
    requires s != "" && StepOf(keys, s) == Pass(n)
    ensures n <= |s|
    ensures Original(Spans(keys, s)) == s[..n] + Original(Spans(keys, s[n..]))
    ensures Rendered(Spans(keys, s)) == s[..n] + Rendered(Spans(keys, s[n..]))
    ensures Replacements(Spans(keys, s)) == Replacements(Spans(keys, s[n..]))
  {
    hide Original, Rendered, Replacements;
    var step := StepOf(keys, s);
    Cons(Keep(s[..n]), Spans(keys, s[n..]));
  }

  lemma SpansRedact(keys: seq<Key>, s: string, p: nat, n: nat, quoted: bool)
    requires s != "" && StepOf(keys, s) == Redact(p, n, quoted)
    ensures p + n <= |s|
    ensures Original(Spans(keys, s)) == s[..p] + (s[p..][..n] + Original(Spans(keys, s[p..][n..])))
    ensures Rendered(Spans(keys, s)) == s[..p] + (MarkerFor(quoted) + Rendered(Spans(keys, s[p..][n..])))
    ensures Replacements(Spans(keys, s)) == 1 + Replacements(Spans(keys, s[p..][n..]))
  {
    hide Original, Rendered, Replacements;
    var cut, rest := Replace(s[p..][..n], MarkerFor(quoted)), Spans(keys, s[p..][n..]);
    Cons(cut, rest);
    Cons(Keep(s[..p]), [cut] + rest);
  }

  /** Redaction replaces disjoint values, left to right, and keeps everything else in order. */
  lemma {:induction false} SpansPartition(keys: seq<Key>, s: string)
    ensures Original(Spans(keys, s)) == s
    decreases |s|
  {
    hide Spans, Original, Rendered, Replacements;
    var step := StepOf(keys, s);
    if s == "" || step.Stop? {
      SpansEnd(keys, s);
    } else {
      match step
      case Pass(n) =>
        SpansPass(keys, s, n);
        SpansPartition(keys, s[n..]);
        assert s == s[..n] + s[n..];
      case Redact(p, n, quoted) =>
        SpansRedact(keys, s, p, n, quoted);
        SpansPartition(keys, s[p..][n..]);
        CutTwice(s, p, n);
    }
  }

  /** Redaction does to a line what its steps say. */
  lemma {:induction false} SpansRedacts(keys: seq<Key>, s: string)
    ensures Redacts(keys, s, Rendered(Spans(keys, s)), Replacements(Spans(keys, s)))
    decreases |s|
  {
    hide Spans, Original, Rendered, Replacements, StepOf, Redacts, MarkerFor;
    var step := StepOf(keys, s);
    if s == "" || step.Stop? {
      SpansEnd(keys, s);
      StopRedacts(keys, s);
    } else {
      match step
      case Pass(n) =>
        SpansPass(keys, s, n);
        SpansRedacts(keys, s[n..]);
        PassRedacts(keys, s, n, Rendered(Spans(keys, s[n..])), Replacements(Spans(keys, s[n..])));
      case Redact(p, n, quoted) =>
        SpansRedact(keys, s, p, n, quoted);
        CutTwice(s, p, n);
        SpansRedacts(keys, s[p + n..]);
        RedactRedacts(keys, s, p, n, quoted, Rendered(Spans(keys, s[p + n..])), Replacements(Spans(keys, s[p + n..])));
    }
  }

  /** Without a separator nothing is assigned. */
  lemma {:induction false} NoSeparatorNoValue(keys: seq<Key>, s: string)
    requires ':' !in s && '=' !in s
    ensures Rendered(Spans(keys, s)) == s && Replacements(Spans(keys, s)) == 0
    decreases |s|
  {
    hide Spans, Rendered, Replacements, Original, EarliestKey;
    var step := StepOf(keys, s);
    if s == "" || step.Stop? {
      SpansEnd(keys, s);
    } else {
      SpansPass(keys, s, step.keyEnd);
      NoSeparatorNoValue(keys, s[step.keyEnd..]);
      assert s == s[..step.keyEnd] + s[step.keyEnd..];
    }
  }

  method RedactAssignments(keys: seq<Key>, line: string) returns (result: string, count: nat)
    requires Utf8.Valid(line)
    ensures result == Rendered(Spans(keys, line)) && count == Replacements(Spans(keys, line))
    ensures Redacts(keys, line, result, count)
    ensures Utf8.Valid(result)
  {
    hide Utf8.Valid, Utf8.Boundary, Spans, Rendered, Replacements, Original, StepOf, MarkerFor, Redacts, StepIs;
    SpansRedacts(keys, line);
    result, count := "", 0;
    var current := line;
    Utf8.EmptyIsValid();
    assert "" + Rendered(Spans(keys, line)) == Rendered(Spans(keys, line));
    while current != ""
      invariant Utf8.Valid(current) && Utf8.Valid(result)
      invariant result + Rendered(Spans(keys, current)) == Rendered(Spans(keys, line))
      invariant count + Replacements(Spans(keys, current)) == Replacements(Spans(keys, line))
      decreases |current|
    {
      var step := NextStep(keys, current);
      Utf8.EndsAreBoundaries(current);
      match step {
        case Stop =>
          SpansEnd(keys, current);
          Utf8.ConcatValid(result, current);
          result := result + current;
          return;
        case Pass(n) =>
          SpansPass(keys, current, n);
          var front, after := Slice(current, 0, n), Slice(current, n, |current|);
          assert front == current[..n] && after == current[n..];
          Assoc(result, front, Rendered(Spans(keys, after)));
          Utf8.ConcatValid(result, front);
          result, current := result + front, after;
        case Redact(p, n, quoted) =>
          SpansRedact(keys, current, p, n, quoted);
          var front, after := Slice(current, 0, p), Slice(current, p + n, |current|);
          CutTwice(current, p, n);
          assert front == current[..p] && after == current[p + n..];
          var marker := MarkerFor(quoted);
          Utf8.AsciiValid(marker);
          Assoc(front, marker, Rendered(Spans(keys, after)));
          Assoc(result, front + marker, Rendered(Spans(keys, after)));
          Utf8.ConcatValid(front, marker);
          Utf8.ConcatValid(result, front + marker);
          result, current := result + (front + marker), after;
          count := count + 1;
      }
    }
    SpansEnd(keys, "");
    assert result + "" == result;
  }

  // Assignments that are redacted.

  lemma FirstAtZero(keys: seq<Key>, i: nat, s: string)
    requires i < |keys| && KeyAt(s, keys[i], 0) && forall j :: 0 <= j < i ==> !KeyAt(s, keys[j], 0)
    ensures FirstKey(keys, s, 0, |keys[i]|)
  {
    hide KeyAt;
    assert NoKeyBefore(keys, |keys|, s, 0) && NoKeyBefore(keys, i, s, 1);
  }

  lemma StartsOtherwise(s: string, key: Key, k: nat)
    requires k < |s| && k < |key| && LowerChar(s[k]) != LowerChar(key[k])
    ensures !KeyAt(s, key, 0)
  {
    assert LowerChar(s[0 + k]) != LowerChar(key[k]);
  }

  /** The words whose values are redacted, and that none of them begins like one listed before it. */
  lemma KeysAreListed(i: nat, s: string)
    requires i < 7
    ensures KEYS == ["password", "secret", "api_key", "token", "auth_token", "private_key", "bearer"]
    ensures KEYS[i] <= s ==> KeyAt(s, KEYS[i], 0) && forall j :: 0 <= j < i ==> !KeyAt(s, KEYS[j], 0)
  {
    if KEYS[i] <= s {
      assert forall k :: 0 <= k < |KEYS[i]| ==> s[0 + k] == KEYS[i][k];
      forall j | 0 <= j < i ensures !KeyAt(s, KEYS[j], 0) {
        StartsOtherwise(s, KEYS[j], if KEYS[i][0] != KEYS[j][0] then 0 else 1);
      }
    }
  }

  /** An exposed value that ends the line is replaced, and nothing else is. */
  lemma LastValueIsReplaced(keys: seq<Key>, s: string, start: nat, n: nat)
    requires Exposed(keys, s, start, n) && start + n == |s|
    ensures var quoted := s[start] == '"' || s[start] == '\'';
      && Rendered(Spans(keys, s)) == s[..start] + (if quoted then "\"[REDACTED_ASSIGNED_SECRET]\"" else "[REDACTED_ASSIGNED_SECRET]")
      && Replacements(Spans(keys, s)) == 1
  {
    hide Spans, Rendered, Replacements, Original, StepOf, Exposed;
    StepExactly(keys, s);
    var step := StepOf(keys, s);
    SpansRedact(keys, s, start, n, step.quoted);
    assert s[start..][n..] == "";
    SpansEnd(keys, "");
    var marker := MarkerFor(step.quoted);
    assert marker + "" == marker;
    StartOfExposed(keys, s, start, n);
  }

  lemma StartOfExposed(keys: seq<Key>, s: string, start: nat, n: nat)
    requires Exposed(keys, s, start, n)
    ensures start < |s|
  {
  }

  /** A plain value: no delimiter in it, no quote at its front, and not redacted yet. */
  predicate PlainValue(value: string) {
    && value != "" && value[0] != '"' && value[0] != '\'' && !("[REDACTED" <= value)
    && forall j :: 0 <= j < |value| ==> !Delimits(value, j)
  }

  /** Whatever plain value is assigned to one of the words, it is replaced. */
  lemma AssignedIsReplaced(i: nat, value: string)
    requires i < 7 && PlainValue(value)
    ensures var s := KEYS[i] + "=" + value;
      Rendered(Spans(KEYS, s)) == KEYS[i] + "=" + "[REDACTED_ASSIGNED_SECRET]" && Replacements(Spans(KEYS, s)) == 1
  {
    hide Spans, Rendered, Replacements, Delimits, Utf8.WhiteWidth, FirstKey;
    var key := KEYS[i];
    var s, n := key + "=" + value, |key|;
    KeysAreListed(i, s);
    FirstAtZero(KEYS, i, s);
    assert s[n] == '=' && s[n + 1..] == value && s[..n + 1] == key + "=";
    KeyHasNoSeparator(i);
    Utf8.WhiteInSuffix(s, n + 1);
    NotWhite(value, 0);
    assert BlankUpTo(s, n + 1, n + 1);
    assert AssignedAt(s, n, n + 1);
    assert Exposed(KEYS, s, n + 1, |value|);
    LastValueIsReplaced(KEYS, s, n + 1, |value|);
  }

  lemma NotWhite(s: string, i: nat)
    requires i < |s| && !Delimits(s, i)
    ensures Utf8.WhiteWidth(s, i) == 0
  {
  }

  lemma KeyHasNoSeparator(i: nat)
    requires i < 7
    ensures ':' !in KEYS[i] && '=' !in KEYS[i]
  {
  }

  const PLAIN_LINE := "password=hunter2"
  const QUOTED_LINE := "password: \"a;b\""

  /** A plain value and a quoted one; the quoted one holds a delimiter. */
  lemma SampleLinesAreRedacted()
    ensures Rendered(Spans(KEYS, PLAIN_LINE)) == "password=[REDACTED_ASSIGNED_SECRET]" && Replacements(Spans(KEYS, PLAIN_LINE)) == 1
    ensures Rendered(Spans(KEYS, QUOTED_LINE)) == "password: \"[REDACTED_ASSIGNED_SECRET]\"" && Replacements(Spans(KEYS, QUOTED_LINE)) == 1
  {
    hide *;
    PlainSampleIsRedacted();
    QuotedSampleIsRedacted();
  }

  lemma PlainSampleIsRedacted()
    ensures Rendered(Spans(KEYS, PLAIN_LINE)) == "password=[REDACTED_ASSIGNED_SECRET]" && Replacements(Spans(KEYS, PLAIN_LINE)) == 1
  {
    hide *;
    SampleIsPlain();
    SampleTexts();
    AssignedIsReplaced(0, "hunter2");
  }

  lemma QuotedSampleIsRedacted()
    ensures Rendered(Spans(KEYS, QUOTED_LINE)) == "password: \"[REDACTED_ASSIGNED_SECRET]\"" && Replacements(Spans(KEYS, QUOTED_LINE)) == 1
  {
    hide *;
    SampleTexts();
    QuotedIsExposed();
    LastValueIsReplaced(KEYS, QUOTED_LINE, 10, 5);
  }

  lemma SampleIsPlain()
    ensures PlainValue("hunter2")
  {
  }

  lemma SampleTexts()
    ensures PLAIN_LINE == KEYS[0] + "=" + "hunter2" && KEYS[0] == "password"
    ensures QUOTED_LINE[..10] == "password: " && "password=" + "[REDACTED_ASSIGNED_SECRET]" == "password=[REDACTED_ASSIGNED_SECRET]"
  {
  }

  lemma QuotedIsExposed()
    ensures Exposed(KEYS, QUOTED_LINE, 10, 5) && |QUOTED_LINE| == 15 && QUOTED_LINE[10] == '"'
  {
    hide FirstKey;
    var s := QUOTED_LINE;
    assert s[..8] == KEYS[0];
    KeysAreListed(0, s);
    FirstAtZero(KEYS, 0, s);
    assert s[8] == ':' && Utf8.WhiteWidth(s, 9) == 1 && Utf8.WhiteWidth(s, 10) == 0;
    assert BlankUpTo(s, 10, 10);
    assert BlankUpTo(s, 9, 10);
    assert AssignedAt(s, 8, 10);
    var value := s[10..];
    assert value == "\"a;b\"" && value[1..] == "a;b\"";
    assert Closes(value[1..], '"', 3) by { assert BackslashRun(value[1..], 3) == 0; }
    assert WholeValue(value, 5);
  }
}

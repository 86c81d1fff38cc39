/** Replacing maximal runs of credential-like characters that look random. */
module EntropyRedactor {
  import opened Wrappers
  import opened Text
  import opened Segments
  import Utf8

  const MIN_LENGTH: nat := 24
  const MARKER: Utf8.AsciiText := "[REDACTED_HIGH_ENTROPY]"
  const WORD := "REDACTED_HIGH_ENTROPY"

  predicate IsTokenChar(c: char) {
    IsAlphanumeric(c) || c == '+' || c == '/' || c == '=' || c == '_' || c == '-'
  }

  predicate AllToken(s: string) {
    forall i :: 0 <= i < |s| ==> IsTokenChar(s[i])
  }

  predicate NoToken(s: string) {
    forall i :: 0 <= i < |s| ==> !IsTokenChar(s[i])
  }

  predicate LooksSecretLike(token: string) {
    && (exists i :: 0 <= i < |token| && '0' <= token[i] <= '9')
    && (exists i :: 0 <= i < |token| && ('a' <= token[i] <= 'z' || 'A' <= token[i] <= 'Z'))
  }

  /** `entropy` is the Shannon entropy of a token, in bits per byte. */
  predicate Qualifies(entropy: string -> real, token: string) {
    |token| >= MIN_LENGTH && entropy(token) >= 4.0 && LooksSecretLike(token)
  }

  /** The number of leading characters that are (`token`) or are not token characters. */
  function Lead(s: string, token: bool): (n: nat)
    ensures n <= |s| && (forall i :: 0 <= i < n ==> IsTokenChar(s[i]) == token)
    ensures n < |s| ==> IsTokenChar(s[n]) != token
  {
    if s != "" && IsTokenChar(s[0]) == token then
      var n := 1 + Lead(s[1..], token);
      assert forall i :: 1 <= i < n ==> s[i] == s[1..][i - 1];
      n
    else 0
  }

  lemma LeadIs(s: string, token: bool, n: nat)
    requires n <= |s| && (forall i :: 0 <= i < n ==> IsTokenChar(s[i]) == token)
    requires n < |s| ==> IsTokenChar(s[n]) != token
    ensures Lead(s, token) == n
  {
    var m := Lead(s, token);
  }

  function Judged(entropy: string -> real, token: string): Segment {
    if Qualifies(entropy, token) then Replace(token, MARKER) else Keep(token)
  }

  /** The text cut at its maximal token runs. */
  function Runs(entropy: string -> real, s: string): seq<Segment>
    decreases |s|
  {
    var i := Lead(s, false);
    if i == |s| then [Keep(s)]
    else
      var tail := s[i..];
      var n := Lead(tail, true);
      [Keep(s[..i])] + ([Judged(entropy, tail[..n])] + Runs(entropy, tail[n..]))
  }

  /** Cuts off the text before the first run, and the run. */
  method TakeRun(rest: string) returns (before: string, token: string, after: string)
    requires Utf8.Valid(rest) && Lead(rest, false) < |rest|
    ensures Utf8.Valid(before) && Utf8.Valid(token) && Utf8.Valid(after)
    ensures before == rest[..Lead(rest, false)] && token + after == rest[Lead(rest, false)..]
    ensures |token| == Lead(token + after, true) > 0
  {
    hide Utf8.Valid;
    var i := Lead(rest, false);
    Utf8.AroundAscii(rest, i);
    before := Slice(rest, 0, i);
    var tail := Slice(rest, i, |rest|);
    assert tail == rest[i..];
    var end := Lead(tail, true);
    assert IsTokenChar(tail[0]);
    Utf8.AroundAscii(tail, end - 1);
    token, after := Slice(tail, 0, end), Slice(tail, end, |tail|);
    assert token + after == tail;
  }

  /** The text before the first run, and the run itself or its marker. */
  method RedactFirst(entropy: string -> real, rest: string) returns (shown: string, hits: nat, after: string)
    requires Utf8.Valid(rest) && Lead(rest, false) < |rest|
    ensures Utf8.Valid(shown) && Utf8.Valid(after) && |after| < |rest|
    ensures Rendered(Runs(entropy, rest)) == shown + Rendered(Runs(entropy, after))
    ensures Replacements(Runs(entropy, rest)) == hits + Replacements(Runs(entropy, after))
  {
    hide Utf8.Valid, Runs, Rendered, Replacements, Original, LooksSecretLike, Lead;
    var before, token;
    before, token, after := TakeRun(rest);
    RunsStep(entropy, rest, token + after, |token|);
    assert (token + after)[..|token|] == token && (token + after)[|token|..] == after;
    hits := 0;
    if |token| >= MIN_LENGTH && entropy(token) >= 4.0 && LooksSecretLike(token) {
      Utf8.AsciiValid(MARKER);
      Utf8.ConcatValid(before, MARKER);
      shown := before + MARKER;
      hits := 1;
    } else {
      Utf8.ConcatValid(before, token);
      shown := before + token;
    }
    Assoc(before, Shown(entropy, token), Rendered(Runs(entropy, after)));
  }

  method RedactHighEntropyTokens(entropy: string -> real, text: string) returns (out: string, count: nat)
    requires Utf8.Valid(text)
    ensures out == Rendered(Runs(entropy, text)) && count == Replacements(Runs(entropy, text))
    ensures Utf8.Valid(out)
  {
    hide Utf8.Valid, Runs, Rendered, Replacements;
    out, count := "", 0;
    var rest := text;
    Utf8.EmptyIsValid();
    assert "" + Rendered(Runs(entropy, text)) == Rendered(Runs(entropy, text));
    while Lead(rest, false) < |rest|
      invariant Utf8.Valid(rest) && Utf8.Valid(out)
      invariant out + Rendered(Runs(entropy, rest)) == Rendered(Runs(entropy, text))
      invariant count + Replacements(Runs(entropy, rest)) == Replacements(Runs(entropy, text))
      decreases |rest|
    {
      var shown, hits, after := RedactFirst(entropy, rest);
      Assoc(out, shown, Rendered(Runs(entropy, after)));
      Utf8.ConcatValid(out, shown);
      out, count, rest := out + shown, count + hits, after;
    }
    RunsEnd(entropy, rest);
    Utf8.ConcatValid(out, rest);
    out := out + rest;
  }

  lemma RunsEnd(entropy: string -> real, s: string)
    requires Lead(s, false) == |s|
    ensures Rendered(Runs(entropy, s)) == s && Replacements(Runs(entropy, s)) == 0 && Original(Runs(entropy, s)) == s
  {
    One(Keep(s));
  }

  /** What a run is shown as. */
  function Shown(entropy: string -> real, run: string): string {
    if Qualifies(entropy, run) then MARKER else run
  }

  /** One unfolding: the text before the first run, the run, and what follows it. */
  lemma RunsStep(entropy: string -> real, s: string, tail: string, n: nat)
    requires Lead(s, false) < |s| && tail == s[Lead(s, false)..] && n == Lead(tail, true)
    ensures n > 0
    ensures Rendered(Runs(entropy, s)) == s[..Lead(s, false)] + (Shown(entropy, tail[..n]) + Rendered(Runs(entropy, tail[n..])))
    ensures Replacements(Runs(entropy, s)) == (if Qualifies(entropy, tail[..n]) then 1 else 0) + Replacements(Runs(entropy, tail[n..]))
    ensures Original(Runs(entropy, s)) == s[..Lead(s, false)] + (tail[..n] + Original(Runs(entropy, tail[n..])))
  {
    hide Qualifies, Rendered, Replacements, Original;
    assert IsTokenChar(tail[0]);
    var judged, rest := Judged(entropy, tail[..n]), Runs(entropy, tail[n..]);
    Cons(judged, rest);
    Cons(Keep(s[..Lead(s, false)]), [judged] + rest);
  }

  /** Redaction only replaces: kept and replaced spans together are the input. */
  lemma {:induction false} RunsPartition(entropy: string -> real, s: string)
    ensures Original(Runs(entropy, s)) == s
    decreases |s|
  {
    hide Runs, Original, Rendered, Replacements, Qualifies, Lead, Shown;
    var i := Lead(s, false);
    if i == |s| {
      RunsEnd(entropy, s);
    } else {
      var tail := s[i..];
      var n := Lead(tail, true);
      RunsStep(entropy, s, tail, n);
      RunsPartition(entropy, tail[n..]);
      CutTwice(s, i, n);
    }
  }

  /** A piece is replaced, by the marker, exactly when it is a token run that qualifies. */
  ghost predicate Right(entropy: string -> real, piece: Segment) {
    if piece.Replace? then Worded(piece.original) && SecretLike(entropy, piece.original) && piece.marker == "[REDACTED_HIGH_ENTROPY]"
    else Wordless(piece.text) || (Worded(piece.text) && !SecretLike(entropy, piece.text))
  }

  /** Letters, digits and the five signs that occur in encoded keys. */
  predicate InWord(c: char) {
    || 'a' <= c <= 'z' || 'A' <= c <= 'Z' || '0' <= c <= '9'
    || c == '+' || c == '/' || c == '=' || c == '_' || c == '-'
  }

  predicate Worded(s: string) {
    forall i :: 0 <= i < |s| ==> InWord(s[i])
  }

  predicate Wordless(s: string) {
    forall i :: 0 <= i < |s| ==> !InWord(s[i])
  }

  /** At least 24 characters, four bits of entropy a byte, a digit and a letter. */
  predicate SecretLike(entropy: string -> real, token: string) {
    && |token| >= 24 && entropy(token) >= 4.0
    && (exists i :: 0 <= i < |token| && '0' <= token[i] <= '9')
    && exists i :: 0 <= i < |token| && ('a' <= token[i] <= 'z' || 'A' <= token[i] <= 'Z')
  }

  lemma QualifiesExactly(entropy: string -> real, token: string)
    ensures Qualifies(entropy, token) <==> SecretLike(entropy, token)
    ensures AllToken(token) <==> Worded(token)
    ensures NoToken(token) <==> Wordless(token)
  {
    assert forall c :: IsTokenChar(c) <==> InWord(c);
  }

  predicate AsJudged(entropy: string -> real, piece: Segment) {
    if piece.Replace? then AllToken(piece.original) && Qualifies(entropy, piece.original) && piece.marker == MARKER
    else NoToken(piece.text) || (AllToken(piece.text) && !Qualifies(entropy, piece.text))
  }

  lemma {:induction false} PiecesAreJudged(entropy: string -> real, s: string, k: nat)
    requires k < |Runs(entropy, s)|
    ensures AsJudged(entropy, Runs(entropy, s)[k])
    decreases |s|
  {
    hide Qualifies, Lead;
    var i := Lead(s, false);
    if i < |s| {
      var tail := s[i..];
      var n := Lead(tail, true);
      RunIsToken(s, tail, n);
      if k >= 2 {
        assert IsTokenChar(tail[0]);
        assert n > 0;
        PiecesAreJudged(entropy, tail[n..], k - 2);
        assert Runs(entropy, s)[k] == Runs(entropy, tail[n..])[k - 2];
      }
    }
  }

  lemma PiecesAreRight(entropy: string -> real, s: string, k: nat)
    requires k < |Runs(entropy, s)|
    ensures Right(entropy, Runs(entropy, s)[k])
  {
    hide Qualifies, SecretLike, Worded, Wordless, AllToken, NoToken, Runs;
    PiecesAreJudged(entropy, s, k);
    var piece := Runs(entropy, s)[k];
    QualifiesExactly(entropy, if piece.Replace? then piece.original else piece.text);
  }

  // The fixed point.

  lemma LeadAfter(front: string, s: string)
    requires NoToken(front)
    ensures Lead(front + s, false) == |front| + Lead(s, false)
  {
    var all, i := front + s, Lead(s, false);
    assert forall k :: |front| <= k < |all| ==> all[k] == s[k - |front|];
    LeadIs(all, false, |front| + i);
  }

  /** Leading characters that are not token characters do not matter. */
  lemma LeadSkipped(entropy: string -> real, front: string, s: string)
    requires NoToken(front)
    ensures Replacements(Runs(entropy, front + s)) == Replacements(Runs(entropy, s))
  {
    hide Runs, Replacements, Qualifies, Lead, Rendered, Original;
    var all := front + s;
    var i := Lead(s, false);
    LeadAfter(front, s);
    if i == |s| {
      RunsEnd(entropy, s);
      RunsEnd(entropy, all);
    } else {
      var tail := s[i..];
      assert all[|front| + i..] == tail;
      RunsStep(entropy, s, tail, Lead(tail, true));
      RunsStep(entropy, all, tail, Lead(tail, true));
    }
  }

  /** A token run that does not qualify, followed by something that ends it, does not matter either. */
  lemma RunSkipped(entropy: string -> real, run: string, s: string)
    requires AllToken(run) && !Qualifies(entropy, run) && (s == "" || !IsTokenChar(s[0]))
    ensures Replacements(Runs(entropy, run + s)) == Replacements(Runs(entropy, s))
  {
    hide Runs, Replacements, Qualifies;
    var all := run + s;
    if run == "" {
      assert all == s;
    } else {
      LeadIs(all, false, 0);
      assert all[0..] == all;
      LeadIs(all, true, |run|);
      RunsStep(entropy, all, all, |run|);
      assert all[..|run|] == run && all[|run|..] == s;
    }
  }

  lemma MarkerSkipped(entropy: string -> real, s: string)
    ensures Replacements(Runs(entropy, MARKER + s)) == Replacements(Runs(entropy, s))
  {
    hide Runs, Replacements, LooksSecretLike;
    MarkerShape(s);
    LeadSkipped(entropy, "[", WORD + ("]" + s));
    RunSkipped(entropy, WORD, "]" + s);
    LeadSkipped(entropy, "]", s);
  }

  lemma MarkerShape(s: string)
    ensures MARKER + s == "[" + (WORD + ("]" + s))
    ensures AllToken(WORD) && |WORD| == 21
  {
    assert MARKER == "[" + WORD + "]";
  }

  /** What follows a run starts, if at all, with a character that is not a token character. */
  lemma RenderedStart(entropy: string -> real, s: string)
    requires s == "" || !IsTokenChar(s[0])
    ensures Rendered(Runs(entropy, s)) == "" <==> s == ""
    ensures s != "" ==> !IsTokenChar(Rendered(Runs(entropy, s))[0])
  {
    hide Qualifies, Runs, Rendered;
    var i := Lead(s, false);
    if i == |s| {
      RunsEnd(entropy, s);
    } else {
      var tail := s[i..];
      RunsStep(entropy, s, tail, Lead(tail, true));
    }
  }

  lemma RunIsToken(s: string, tail: string, n: nat)
    requires Lead(s, false) < |s| && tail == s[Lead(s, false)..] && n == Lead(tail, true)
    ensures NoToken(s[..Lead(s, false)]) && AllToken(tail[..n]) && (tail[n..] == "" || !IsTokenChar(tail[n..][0]))
  {
  }

  /** One pass leaves nothing to redact. */
  lemma {:induction false} OnePassSuffices(entropy: string -> real, s: string)
    ensures Replacements(Runs(entropy, Rendered(Runs(entropy, s)))) == 0
    decreases |s|
  {
    hide Runs, Rendered, Replacements, Qualifies, Original;
    var i := Lead(s, false);
    if i == |s| {
      RunsEnd(entropy, s);
    } else {
      var sub := s[i..];
      var n := Lead(sub, true);
      RunsStep(entropy, s, sub, n);
      RunIsToken(s, sub, n);
      var front, run, rest := s[..i], sub[..n], sub[n..];
      var shown, tail := Shown(entropy, run), Rendered(Runs(entropy, rest));
      OnePassSuffices(entropy, rest);
      LeadSkipped(entropy, front, shown + tail);
      if Qualifies(entropy, run) {
        MarkerSkipped(entropy, tail);
      } else {
        RenderedStart(entropy, rest);
        RunSkipped(entropy, run, tail);
      }
    }
  }

  /** A second pass changes nothing and counts nothing. */
  lemma SecondPassIsIdentity(entropy: string -> real, s: string)
    ensures var out := Rendered(Runs(entropy, s));
      Rendered(Runs(entropy, out)) == out && Replacements(Runs(entropy, out)) == 0
  {
    hide Runs, Rendered, Replacements;
    var out := Rendered(Runs(entropy, s));
    OnePassSuffices(entropy, s);
    NothingReplaced(Runs(entropy, out));
    RunsPartition(entropy, out);
  }

  /** `s[a..b]` is a run of token characters that cannot be extended. */
  predicate MaximalRun(s: string, a: nat, b: nat) {
    && a < b <= |s| && AllToken(s[a..b])
    && (a > 0 ==> !IsTokenChar(s[a - 1])) && (b < |s| ==> !IsTokenChar(s[b]))
  }

  ghost predicate NoRunQualifies(entropy: string -> real, s: string) {
    forall a: nat, b: nat :: MaximalRun(s, a, b) ==> !Qualifies(entropy, s[a..b])
  }

  /** Nothing is redacted exactly when no maximal token run qualifies. */
  lemma {:induction false} CleanMeansNoRun(entropy: string -> real, s: string)
    ensures Replacements(Runs(entropy, s)) == 0 <==> NoRunQualifies(entropy, s)
    decreases |s|
  {
    hide Runs, Replacements, Qualifies, Rendered, Original, NoRunQualifies, Lead, Shown;
    var i := Lead(s, false);
    if i == |s| {
      RunsEnd(entropy, s);
      NoRunAtAll(entropy, s);
    } else {
      var tail := s[i..];
      var n := Lead(tail, true);
      RunsStep(entropy, s, tail, n);
      CleanMeansNoRun(entropy, tail[n..]);
      RunsOfRest(entropy, s, i, i + n);
      CutTwice(s, i, n);
    }
  }

  lemma NoRunAtAll(entropy: string -> real, s: string)
    requires Lead(s, false) == |s|
    ensures NoRunQualifies(entropy, s)
  {
    forall a: nat, b: nat ensures !MaximalRun(s, a, b) {
      if a < b <= |s| { assert s[a..b][0] == s[a]; }
    }
  }

  /** The maximal runs of a text are its first one and those of what follows it. */
  lemma RunsOfRest(entropy: string -> real, s: string, i: nat, j: nat)
    requires i == Lead(s, false) < |s| && j == i + Lead(s[i..], true)
    ensures NoRunQualifies(entropy, s) <==> !Qualifies(entropy, s[i..j]) && NoRunQualifies(entropy, s[j..])
  {
    hide Qualifies;
    FirstRun(s, i, j);
    if NoRunQualifies(entropy, s) {
      forall a: nat, b: nat | MaximalRun(s[j..], a, b) ensures !Qualifies(entropy, s[j..][a..b]) {
        ShiftedRun(s, j, a, b);
      }
    }
    if !Qualifies(entropy, s[i..j]) && NoRunQualifies(entropy, s[j..]) {
      forall a: nat, b: nat | MaximalRun(s, a, b) ensures !Qualifies(entropy, s[a..b]) {
        if a == i { OneRunHere(s, i, j, b); } else { LaterRun(s, i, j, a, b); }
      }
    }
  }

  lemma FirstRun(s: string, i: nat, j: nat)
    requires i == Lead(s, false) < |s| && j == i + Lead(s[i..], true)
    ensures MaximalRun(s, i, j)
  {
    hide IsTokenChar, Lead;
    var tail := s[i..];
    var n := Lead(tail, true);
    assert tail[0] == s[i];
    assert i < j <= |s|;
    assert AllToken(s[i..j]) by {
      forall k | 0 <= k < n ensures IsTokenChar(s[i..j][k]) {
        assert s[i..j][k] == tail[k];
      }
    }
    assert i > 0 ==> !IsTokenChar(s[i - 1]);
    if j < |s| { assert tail[n] == s[j]; }
  }

  lemma OneRunHere(s: string, i: nat, j: nat, b: nat)
    requires MaximalRun(s, i, j) && MaximalRun(s, i, b)
    ensures b == j
  {
    assert forall k :: i <= k < j ==> s[i..j][k - i] == s[k];
    assert forall k :: i <= k < b ==> s[i..b][k - i] == s[k];
  }

  lemma RunMember(s: string, a: nat, b: nat, k: nat)
    requires MaximalRun(s, a, b) && a <= k < b
    ensures IsTokenChar(s[k])
  {
    assert s[a..b][k - a] == s[k];
  }

  lemma RunMembers(s: string, a: nat, b: nat)
    requires MaximalRun(s, a, b)
    ensures forall k :: a <= k < b ==> IsTokenChar(s[k])
  {
    hide IsTokenChar;
    forall k | a <= k < b ensures IsTokenChar(s[k]) {
      RunMember(s, a, b, k);
    }
  }

  lemma SubSlice(s: string, j: nat, a: nat, b: nat)
    requires j <= a <= b <= |s|
    ensures s[j..][a - j..b - j] == s[a..b]
  {
  }

  lemma LaterRun(s: string, i: nat, j: nat, a: nat, b: nat)
    requires i == Lead(s, false) < |s| && MaximalRun(s, i, j) && MaximalRun(s, a, b) && a != i
    ensures a >= j && MaximalRun(s[j..], a - j, b - j) && s[j..][a - j..b - j] == s[a..b]
  {
    hide IsTokenChar, AllToken, MaximalRun, Lead;
    LaterStart(s, i, j, a, b);
    RunBehind(s, j, a, b);
  }

  lemma LaterStart(s: string, i: nat, j: nat, a: nat, b: nat)
    requires i == Lead(s, false) < |s| && MaximalRun(s, i, j) && MaximalRun(s, a, b) && a != i
    ensures a >= j
  {
    hide IsTokenChar, AllToken, Lead;
    RunMember(s, a, b, a);
    if i < a < j { RunMember(s, i, j, a - 1); }
  }

  lemma RunBehind(s: string, j: nat, a: nat, b: nat)
    requires j <= a && MaximalRun(s, a, b)
    ensures MaximalRun(s[j..], a - j, b - j) && s[j..][a - j..b - j] == s[a..b]
  {
    hide IsTokenChar, AllToken;
    SubSlice(s, j, a, b);
    if a > j { assert s[j..][a - j - 1] == s[a - 1]; }
    if b < |s| { assert s[j..][b - j] == s[b]; }
  }

  lemma ShiftedRun(s: string, j: nat, a: nat, b: nat)
    requires 0 < j <= |s| && MaximalRun(s[j..], a, b) && (j < |s| ==> !IsTokenChar(s[j]))
    ensures MaximalRun(s, a + j, b + j) && s[a + j..b + j] == s[j..][a..b]
  {
    hide IsTokenChar, AllToken;
    SubSlice(s, j, a + j, b + j);
    if a > 0 {
      assert s[j..][a - 1] == s[a + j - 1];
    } else {
      assert s[j..][0] == s[j];
      RunMember(s[j..], a, b, 0);
    }
    if b + j < |s| { assert s[j..][b] == s[b + j]; }
  }
}

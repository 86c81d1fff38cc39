/** The JSON text of a tool result, as far as its size and its escapes matter. */
module ToolJson {
  import opened Wrappers
  import opened Text
  import opened AgentTypes
  import Utf8

  function EscapeChar(c: char): (s: string)
    ensures 1 <= |s| <= 6
  {
    if c == '"' then "\\\""
    else if c == '\\' then "\\\\"
    else if c == '\n' then "\\n"
    else if c == '\r' then "\\r"
    else if c == '\t' then "\\t"
    else if c as int == 0x8 then "\\b"
    else if c as int == 0xC then "\\f"
    else if c as int < 0x20 then "\\u00" + Hex(c as int, 2)
    else [c]
  }

  function Escaped(s: string): (r: string)
    ensures |r| >= |s|
  {
    if s == "" then "" else EscapeChar(s[0]) + Escaped(s[1..])
  }

  function Quoted(s: string): (r: string)
    ensures |r| >= |s| + 2
  {
    "\"" + Escaped(s) + "\""
  }

  lemma {:induction false} EscapedAppend(a: string, b: string)
    ensures Escaped(a + b) == Escaped(a) + Escaped(b)
  {
    hide EscapeChar;
    if a == "" {
      assert a + b == b;
    } else {
      assert (a + b)[1..] == a[1..] + b;
      EscapedAppend(a[1..], b);
    }
  }

  lemma {:induction false} EscapedKeepsTails(s: string)
    requires forall i :: 0 <= i < |s| ==> s[i] as int >= 0x80
    ensures Escaped(s) == s
  {
    if s != "" {
      EscapedKeepsTails(s[1..]);
      assert s == [s[0]] + s[1..];
    }
  }

  lemma EscapedNothing()
    ensures Escaped("") == ""
  {
  }

  lemma EscapeIsAscii(c: char)
    requires c as int < 0x80
    ensures Utf8.Ascii(EscapeChar(c)) && Escaped([c]) == EscapeChar(c)
  {
    EscapesAreAscii(c);
    EscapedOne(c);
  }

  lemma EscapedOne(c: char)
    ensures Escaped([c]) == EscapeChar(c)
  {
    hide EscapeChar;
    EscapedNothing();
    assert [c][1..] == "" && EscapeChar(c) + "" == EscapeChar(c);
  }

  lemma EscapesAreAscii(c: char)
    requires c as int < 0x80
    ensures Utf8.Ascii(EscapeChar(c))
  {
    hide Hex;
    if c as int < 0x20 { HexIsAscii(c as int); }
  }

  lemma HexIsAscii(n: nat)
    ensures Utf8.Ascii(Hex(n, 2)) && Utf8.Ascii("\\u00" + Hex(n, 2))
  {
    hide Hex;
    var h := Hex(n, 2);
    assert forall i :: 0 <= i < |h| ==> h[i] as int < 0x80;
  }

  /** Escaping keeps text well-formed. */
  lemma {:induction false} EscapedIsValid(s: string)
    requires Utf8.Valid(s)
    ensures Utf8.Valid(Escaped(s))
    decreases |s|
  {
    hide EscapeChar, Utf8.CharLen, Escaped;
    if s == "" {
      EscapedNothing();
    } else {
      var n := Utf8.CharLen(s);
      assert s == s[..n] + s[n..];
      EscapedAppend(s[..n], s[n..]);
      EscapedIsValid(s[n..]);
      if n == 1 {
        assert Utf8.ByteIn(s, 0, 0, 0x7F) && s[..1] == [s[0]];
        EscapeIsAscii(s[0]);
        Utf8.AsciiValid(Escaped(s[..n]));
      } else {
        Utf8.NoAsciiInside(s);
        EscapedKeepsTails(s[..n]);
        assert s[0..] == s;
        Utf8.CharEnd(s, 0);
        Utf8.SplitValid(s, n);
      }
      Utf8.ConcatValid(Escaped(s[..n]), Escaped(s[n..]));
    }
  }

  lemma QuotedIsValid(s: string)
    requires Utf8.Valid(s)
    ensures Utf8.Valid(Quoted(s))
  {
    hide Utf8.Valid, Escaped;
    EscapedIsValid(s);
    Utf8.AsciiValid("\"");
    Utf8.ConcatValid("\"", Escaped(s));
    Utf8.ConcatValid("\"" + Escaped(s), "\"");
  }

  lemma {:induction false} SeparatedIsValid(items: seq<string>)
    requires forall i :: 0 <= i < |items| ==> Utf8.Valid(items[i])
    ensures Utf8.Valid(Separated(items))
  {
    hide Utf8.Valid;
    Utf8.EmptyIsValid();
    Utf8.AsciiValid(",");
    if |items| > 1 {
      SeparatedIsValid(items[1..]);
      Utf8.ConcatValid(items[0], ",");
      Utf8.ConcatValid(items[0] + ",", Separated(items[1..]));
    }
  }

  /** A list of well-formed strings prints as well-formed text. */
  lemma StringsAreValid(items: seq<string>)
    requires forall i :: 0 <= i < |items| ==> Utf8.Valid(items[i])
    ensures Utf8.Valid(Strings(items))
  {
    hide Utf8.Valid, Quoted, List;
    var quoted := seq(|items|, i requires 0 <= i < |items| => Quoted(items[i]));
    forall i | 0 <= i < |quoted| ensures Utf8.Valid(quoted[i]) {
      QuotedIsValid(items[i]);
    }
    ListIsValid(quoted);
  }

  function Separated(items: seq<string>): string {
    if items == [] then "" else if |items| == 1 then items[0] else items[0] + "," + Separated(items[1..])
  }

  function List(items: seq<string>): string {
    "[" + Separated(items) + "]"
  }

  function Strings(items: seq<string>): string {
    List(seq(|items|, i requires 0 <= i < |items| => Quoted(items[i])))
  }

  function Member(key: string, value: string): string {
    Quoted(key) + ":" + value
  }

  /** Text of characters that need no escape. */
  predicate NeedsNoEscape(s: string) {
    forall i :: 0 <= i < |s| ==> s[i] as int >= 0x20 && s[i] != '"' && s[i] != '\\'
  }

  lemma {:induction false} EscapedAsIs(s: string)
    requires NeedsNoEscape(s)
    ensures Escaped(s) == s
  {
    if s != "" {
      EscapedAsIs(s[1..]);
      assert s == [s[0]] + s[1..];
    }
  }

  /** How a quote, a backslash, a line feed and a control character are printed. */
  lemma EscapesAre()
    ensures Escaped("\"") == "\\\"" && Escaped("\\") == "\\\\" && Escaped("\n") == "\\n" && Escaped("\U{1}") == "\\u0001"
  {
    EscapedOne('"');
    EscapedOne('\\');
    EscapedOne('\n');
    EscapedOne('\U{1}');
    assert Hex(1, 2) == Hex(0, 1) + [HexDigit(1)] && Hex(0, 1) == Hex(0, 0) + [HexDigit(0)];
  }

  /** A key that needs no escape is printed as it is. */
  lemma PlainKey(key: string, value: string, shown: string)
    requires NeedsNoEscape(key) && shown == "\"" + key + "\":"
    ensures Member(key, value) == shown + value
  {
    hide Escaped;
    EscapedAsIs(key);
    assert "\"" + key + "\"" + ":" == "\"" + key + "\":";
  }

  lemma SeparatedCons(item: string, rest: seq<string>)
    requires rest != []
    ensures Separated([item] + rest) == item + "," + Separated(rest)
  {
    assert ([item] + rest)[1..] == rest;
  }

  lemma SeparatedTwo(a: string, b: string)
    ensures Separated([a, b]) == a + "," + b
  {
    assert [a, b][1..] == [b];
  }

  lemma SeparatedFour(a: string, b: string, c: string, d: string)
    ensures Separated([a, b, c, d]) == a + "," + (b + "," + (c + "," + d))
  {
    hide Separated;
    SeparatedTwo(c, d);
    SeparatedCons(b, [c, d]);
    SeparatedCons(a, [b, c, d]);
    assert [b] + [c, d] == [b, c, d] && [a] + [b, c, d] == [a, b, c, d];
  }

  /** An object of members in the order given, which for a library value is the order of the keys. */
  function Object(members: seq<string>): string {
    "{" + Separated(members) + "}"
  }

  lemma MemberIsValid(key: string, value: string)
    requires Utf8.Valid(key) && Utf8.Valid(value)
    ensures Utf8.Valid(Member(key, value))
  {
    hide Utf8.Valid, Quoted;
    QuotedIsValid(key);
    Utf8.AsciiValid(":");
    Utf8.ConcatValid(Quoted(key), ":");
    Utf8.ConcatValid(Quoted(key) + ":", value);
  }

  lemma ObjectIsValid(members: seq<string>)
    requires forall i :: 0 <= i < |members| ==> Utf8.Valid(members[i])
    ensures Utf8.Valid(Object(members))
  {
    hide Utf8.Valid, Separated;
    SeparatedIsValid(members);
    Utf8.AsciiValid("{");
    Utf8.AsciiValid("}");
    Utf8.ConcatValid("{", Separated(members));
    Utf8.ConcatValid("{" + Separated(members), "}");
  }

  lemma ListIsValid(items: seq<string>)
    requires forall i :: 0 <= i < |items| ==> Utf8.Valid(items[i])
    ensures Utf8.Valid(List(items))
  {
    hide Utf8.Valid, Separated;
    SeparatedIsValid(items);
    Utf8.AsciiValid("[");
    Utf8.AsciiValid("]");
    Utf8.ConcatValid("[", Separated(items));
    Utf8.ConcatValid("[" + Separated(items), "]");
  }

  lemma DecimalIsValid(n: nat)
    ensures Utf8.Valid(Decimal(n))
  {
    hide Utf8.Valid;
    Utf8.AsciiValid(Decimal(n));
  }

  function RefText(r: SourceRef): string {
    "{\"id\":" + Quoted(UuidText(r.id)) + ",\"snapshot_id\":" + Quoted(UuidText(r.snapshotId))
    + ",\"relative_path\":" + Quoted(r.relativePath) + ",\"line_start\":" + Decimal(r.lineStart) + ",\"line_end\":" + Decimal(r.lineEnd)
    + ",\"content_hash\":" + Quoted(r.contentHash) + ",\"excerpt\":" + Quoted(r.excerpt) + "}"
  }

  function OmissionText(o: Omission): string {
    "{\"reason\":" + Quoted(o.reason) + ",\"relative_path\":" + (if o.relativePath.Some? then Quoted(o.relativePath.value) else "null")
    + ",\"detail_code\":" + Quoted(o.detail) + ",\"omitted_count\":" + Decimal(o.count) + ",\"omitted_bytes\":" + Decimal(o.bytes) + "}"
  }

  function RefTexts(refs: seq<SourceRef>): seq<string> {
    seq(|refs|, i requires 0 <= i < |refs| => RefText(refs[i]))
  }

  function OmissionTexts(omissions: seq<Omission>): seq<string> {
    seq(|omissions|, i requires 0 <= i < |omissions| => OmissionText(omissions[i]))
  }

  /** Everything before the size field. */
  function Head(r: ToolResult): (s: string)
    ensures |s| > |r.content|
  {
    "{\"call_id\":" + Quoted(UuidText(r.callId)) + ",\"snapshot_id\":" + Quoted(UuidText(r.snapshotId))
    + ",\"content\":" + Quoted(r.content)
    + ",\"source_refs\":" + List(RefTexts(r.sourceRefs)) + ",\"omissions\":" + List(OmissionTexts(r.omissions)) + ",\"content_bytes\":"
  }

  function Encode(r: ToolResult): (s: string) {
    Head(r) + Decimal(r.contentBytes) + "}"
  }

  /** Encoding fails on paths that are not UTF-8. */
  predicate Encodable(r: ToolResult) {
    && (forall i :: 0 <= i < |r.sourceRefs| ==> Utf8.Valid(r.sourceRefs[i].relativePath))
    && (forall i :: 0 <= i < |r.omissions| && r.omissions[i].relativePath.Some? ==> Utf8.Valid(r.omissions[i].relativePath.value))
  }

  lemma DigitsOfMax()
    ensures |Decimal(U32_MAX)| == 10
  {
    var d := U32_MAX;
    assert |Decimal(4)| == 1;
    assert |Decimal(42)| == 2;
    assert |Decimal(429)| == 3;
    assert |Decimal(4294)| == 4;
    assert |Decimal(42949)| == 5;
    assert |Decimal(429496)| == 6;
    assert |Decimal(4294967)| == 7;
    assert |Decimal(42949672)| == 8;
    assert |Decimal(429496729)| == 9;
    assert d / 10 == 429496729;
  }

  lemma HeadIgnoresSize(r: ToolResult, n: nat)
    ensures Head(r.(contentBytes := n)) == Head(r)
  {
    hide Quoted, List, UuidText;
  }

  /** The size measured with the ten-digit placeholder is an upper bound on the real one, by at most nine bytes. */
  lemma PlaceholderCovers(r: ToolResult, n: nat)
    requires n <= U32_MAX
    ensures |Encode(r.(contentBytes := n))| == |Encode(r.(contentBytes := U32_MAX))| - (10 - |Decimal(n)|)
    ensures 1 <= |Decimal(n)| <= 10
  {
    hide Head;
    HeadIgnoresSize(r, n);
    HeadIgnoresSize(r, U32_MAX);
    DigitsOfMax();
    DecimalLength(n, 10, 10_000_000_000);
  }
}

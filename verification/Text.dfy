/**
 Strings as the repository's modules use them: cutting and splitting, decimal numerals and hexadecimal identifiers.

 A Rust string of bytes is a Dafny string whose characters are the bytes.
 */
module Text {
  import opened Wrappers

  const U64_LIMIT: nat := 0x1_0000_0000_0000_0000
  const U32_MAX: nat := 0xFFFF_FFFF

  lemma Assoc(a: string, b: string, c: string)
    ensures (a + b) + c == a + (b + c)
  {
  }

  /** A path with its backslashes turned into slashes. */
  function Slashed(path: string): string {
    seq(|path|, i requires 0 <= i < |path| => if path[i] == '\\' then '/' else path[i])
  }

  /** ASCII lower case. */
  function LowerChar(c: char): char {
    if 'A' <= c <= 'Z' then (c as int - 'A' as int + 'a' as int) as char else c
  }

  /** The bytes before the first `c` and the bytes after it. */
  function Cut(s: string, c: char): (r: Option<(string, string)>)
    ensures r.Some? ==> s == r.value.0 + [c] + r.value.1 && c !in r.value.0
    ensures r.None? <==> c !in s
  {
    if s == "" then None
    else if s[0] == c then Some(("", s[1..]))
    else match Cut(s[1..], c)
      case None => None
      case Some((before, after)) => Some(([s[0]] + before, after))
  }

  lemma {:induction false} CutAt(before: string, c: char, after: string)
    requires c !in before
    ensures Cut(before + [c] + after, c) == Some((before, after))
  {
    var s := before + [c] + after;
    if before != "" {
      CutAt(before[1..], c, after);
      assert s[1..] == before[1..] + [c] + after;
      assert [before[0]] + before[1..] == before;
    } else {
      assert s[1..] == after;
    }
  }

  /** `str::split` by one character: always at least one piece. */
  function Split(s: string, c: char): (r: seq<string>)
    ensures |r| >= 1
    decreases |s|
  {
    match Cut(s, c)
    case None => [s]
    case Some((before, after)) => [before] + Split(after, c)
  }

  function StripReturn(line: string): string {
    if line != "" && line[|line| - 1] == '\r' then line[..|line| - 1] else line
  }

  /** `str::lines`: pieces ended by a line feed, which takes a carriage return before it along. */
  function TextLines(s: string): seq<string>
    decreases |s|
  {
    match Cut(s, '\n')
    case None => if s == "" then [] else [s]
    case Some((line, rest)) => [StripReturn(line)] + TextLines(rest)
  }

  lemma LinesStep(line: string, rest: string)
    requires '\n' !in line
    ensures TextLines(line + ['\n'] + rest) == [StripReturn(line)] + TextLines(rest)
  {
    hide StripReturn;
    CutAt(line, '\n', rest);
  }

  lemma LinesEnd(s: string)
    requires '\n' !in s
    ensures TextLines(s) == if s == "" then [] else [s]
  {
  }

  function JoinLines(lines: seq<string>): string {
    if lines == [] then "" else if |lines| == 1 then lines[0] else lines[0] + "\n" + JoinLines(lines[1..])
  }

  lemma SplitFirst(before: string, c: char, after: string)
    requires c !in before
    ensures Split(before + [c] + after, c) == [before] + Split(after, c)
  {
    CutAt(before, c, after);
  }

  /** `trim_end_matches('/')`. */
  function TrimSlashes(s: string): (r: string)
    ensures r <= s && (r != "" ==> r[|r| - 1] != '/') && forall i :: |r| <= i < |s| ==> s[i] == '/'
  {
    if s != "" && s[|s| - 1] == '/' then TrimSlashes(s[..|s| - 1]) else s
  }

  // Decimal numerals.

  function Digit(d: nat): (c: char)
    requires d < 10
  {
    ('0' as int + d) as char
  }

  predicate IsDigit(c: char) {
    '0' <= c <= '9'
  }

  function Decimal(n: nat): (s: string)
    ensures |s| >= 1 && forall i :: 0 <= i < |s| ==> IsDigit(s[i])
  {
    if n < 10 then [Digit(n)] else Decimal(n / 10) + [Digit(n % 10)]
  }

  function DecimalValue(s: string): nat
    requires forall i :: 0 <= i < |s| ==> IsDigit(s[i])
  {
    if s == "" then 0
    else
      assert IsDigit(s[|s| - 1]);
      10 * DecimalValue(s[..|s| - 1]) + (s[|s| - 1] as int - '0' as int)
  }

  /** Printing a number and reading the digits back gives the number. */
  lemma {:induction false} DecimalRoundTrip(n: nat)
    ensures DecimalValue(Decimal(n)) == n
  {
    if n < 10 {
      assert Decimal(n)[..0] == "";
    } else {
      DecimalRoundTrip(n / 10);
      assert Decimal(n)[..|Decimal(n)| - 1] == Decimal(n / 10);
    }
  }

  /** `str::parse::<usize>` on a 64-bit target: an optional plus sign, then at least one digit. */
  function ParseUsize(s: string): (r: Option<nat>) {
    var digits := if s != "" && s[0] == '+' then s[1..] else s;
    if digits != "" && (forall i :: 0 <= i < |digits| ==> IsDigit(digits[i])) && DecimalValue(digits) < U64_LIMIT
    then Some(DecimalValue(digits))
    else None
  }

  lemma ParsePrinted(n: nat)
    requires n < U64_LIMIT
    ensures ParseUsize(Decimal(n)) == Some(n)
  {
    DecimalRoundTrip(n);
    assert IsDigit(Decimal(n)[0]);
  }

  lemma DecimalLength(n: nat, digits: nat, bound: nat)
    requires digits >= 1 && bound == Pow10(digits) && n < bound
    ensures |Decimal(n)| <= digits
  {
    if n >= 10 {
      DecimalLength(n / 10, digits - 1, Pow10(digits - 1));
    }
  }

  function Pow10(k: nat): nat {
    if k == 0 then 1 else 10 * Pow10(k - 1)
  }

  // Identifiers printed in the 8-4-4-4-12 hexadecimal form.

  const UUID_LIMIT: nat := 0x1_0000_0000_0000_0000_0000_0000_0000_0000
  type Uuid = n: nat | n < UUID_LIMIT

  function HexDigit(d: nat): (c: char)
    requires d < 16
  {
    if d < 10 then Digit(d) else ('a' as int + d - 10) as char
  }

  /** The `k` lowest hexadecimal digits of `n`, most significant first. */
  function Hex(n: nat, k: nat): (s: string)
    ensures |s| == k
    ensures forall i :: 0 <= i < |s| ==> IsDigit(s[i]) || 'a' <= s[i] <= 'f'
  {
    if k == 0 then "" else Hex(n / 16, k - 1) + [HexDigit(n % 16)]
  }

  function Pow16(k: nat): nat {
    if k == 0 then 1 else 16 * Pow16(k - 1)
  }

  lemma {:induction false} HexInjective(m: nat, n: nat, k: nat)
    requires m < Pow16(k) && n < Pow16(k)
    requires Hex(m, k) == Hex(n, k)
    ensures m == n
  {
    if k > 0 {
      var a, b := Hex(m, k), Hex(n, k);
      assert a[..k - 1] == Hex(m / 16, k - 1) && b[..k - 1] == Hex(n / 16, k - 1);
      HexInjective(m / 16, n / 16, k - 1);
      assert a[k - 1] == HexDigit(m % 16) && b[k - 1] == HexDigit(n % 16);
    }
  }

  function UuidText(id: Uuid): (s: string)
    ensures |s| == 36
    ensures forall i :: 0 <= i < |s| ==> IsDigit(s[i]) || 'a' <= s[i] <= 'f' || s[i] == '-'
  {
    var h := Hex(id, 32);
    h[..8] + "-" + h[8..12] + "-" + h[12..16] + "-" + h[16..20] + "-" + h[20..]
  }

  lemma UuidTextInjective(a: Uuid, b: Uuid)
    requires UuidText(a) == UuidText(b)
    ensures a == b
  {
    HexOfUuidText(a);
    HexOfUuidText(b);
    assert Pow16(32) == UUID_LIMIT by { Pow16At32(); }
    HexInjective(a, b, 32);
  }

  lemma HexOfUuidText(id: Uuid)
    ensures var s := UuidText(id); Hex(id, 32) == s[..8] + s[9..13] + s[14..18] + s[19..23] + s[24..]
  {
    var s, h := UuidText(id), Hex(id, 32);
    assert s[..8] == h[..8] && s[9..13] == h[8..12] && s[14..18] == h[12..16];
    assert s[19..23] == h[16..20] && s[24..] == h[20..];
  }

  lemma Pow16At32()
    ensures Pow16(32) == UUID_LIMIT
  {
    assert Pow16(8) == 0x1_0000_0000;
    assert Pow16(16) == 0x1_0000_0000_0000_0000;
    assert Pow16(24) == 0x1_0000_0000_0000_0000_0000_0000;
  }
}

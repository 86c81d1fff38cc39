/**
 UTF-8 (section 3 of RFC 3629) over byte strings.

 Well-formedness, the character boundaries of Rust's `str::is_char_boundary`, what slicing at a
 boundary preserves, lossy decoding, and white space as it is spelled in bytes.
 */
module Utf8 {
  predicate ByteIn(s: string, i: nat, lo: int, hi: int) {
    i < |s| && lo <= s[i] as int <= hi
  }

  predicate Tail(s: string, i: nat) {
    ByteIn(s, i, 0x80, 0xBF)
  }

  predicate Ascii(s: string) {
    forall i :: 0 <= i < |s| ==> s[i] as int < 0x80
  }

  type AsciiText = s: string | Ascii(s) witness ""

  /** The number of bytes of the well-formed character at the front, or 0 when there is none. */
  function CharLen(s: string): (n: nat)
    ensures n <= 4 && n <= |s|
    ensures n > 0 ==> !Tail(s, 0) && forall k :: 1 <= k < n ==> Tail(s, k)
    ensures ByteIn(s, 0, 0, 0x7F) <==> n == 1
  {
    if ByteIn(s, 0, 0, 0x7F) then 1
    else if ByteIn(s, 0, 0xC2, 0xDF) && Tail(s, 1) then 2
    else if Tail(s, 2) &&
            (|| (ByteIn(s, 0, 0xE0, 0xE0) && ByteIn(s, 1, 0xA0, 0xBF))
             || (ByteIn(s, 0, 0xE1, 0xEC) && Tail(s, 1))
             || (ByteIn(s, 0, 0xED, 0xED) && ByteIn(s, 1, 0x80, 0x9F))
             || (ByteIn(s, 0, 0xEE, 0xEF) && Tail(s, 1))) then 3
    else if Tail(s, 2) && Tail(s, 3) &&
            (|| (ByteIn(s, 0, 0xF0, 0xF0) && ByteIn(s, 1, 0x90, 0xBF))
             || (ByteIn(s, 0, 0xF1, 0xF3) && Tail(s, 1))
             || (ByteIn(s, 0, 0xF4, 0xF4) && ByteIn(s, 1, 0x80, 0x8F))) then 4
    else 0
  }

  predicate Valid(s: string)
    decreases |s|
  {
    s == "" || (CharLen(s) > 0 && Valid(s[CharLen(s)..]))
  }

  predicate Boundary(s: string, i: nat) {
    i == 0 || i == |s| || (i < |s| && !Tail(s, i))
  }

  lemma EmptyIsValid()
    ensures Valid("")
  {
  }

  lemma EndsAreBoundaries(s: string)
    ensures Boundary(s, 0) && Boundary(s, |s|)
  {
  }

  lemma CharLenLocal(s: string, t: string)
    requires CharLen(s) > 0 && CharLen(s) <= |t|
    requires s[..CharLen(s)] == t[..CharLen(s)]
    ensures CharLen(t) == CharLen(s)
  {
    var n := CharLen(s);
    assert forall k :: 0 <= k < n ==> s[..n][k] == t[..n][k];
    assert forall k :: 0 <= k < n ==> s[k] == t[k];
  }

  /** Slicing well-formed text at a boundary gives well-formed text on both sides. */
  lemma {:induction false} SplitValid(s: string, i: nat)
    requires Valid(s) && i <= |s| && Boundary(s, i)
    ensures Valid(s[..i]) && Valid(s[i..])
    decreases |s|
  {
    hide CharLen;
    if i == 0 {
      assert s[i..] == s;
    } else {
      var n := CharLen(s);
      assert i >= n;
      SplitValid(s[n..], i - n);
      assert s[..i][..n] == s[..n];
      CharLenLocal(s, s[..i]);
      assert s[..i][n..] == s[n..][..i - n];
      assert s[n..][i - n..] == s[i..];
    }
  }

  lemma {:induction false} ConcatValid(a: string, b: string)
    requires Valid(a) && Valid(b)
    ensures Valid(a + b)
    decreases |a|
  {
    hide CharLen;
    if a == "" {
      assert a + b == b;
    } else {
      var n := CharLen(a);
      assert (a + b)[..n] == a[..n];
      CharLenLocal(a, a + b);
      ConcatValid(a[n..], b);
      assert (a + b)[n..] == a[n..] + b;
    }
  }

  lemma {:induction false} AsciiValid(s: string)
    requires Ascii(s)
    ensures Valid(s)
    decreases |s|
  {
    hide CharLen;
    if s != "" {
      assert ByteIn(s, 0, 0, 0x7F);
      AsciiValid(s[1..]);
    }
  }

  /** An ASCII byte of well-formed text is a character of its own: both its sides are boundaries. */
  lemma AroundAscii(s: string, i: nat)
    requires Valid(s) && i < |s| && s[i] as int < 0x80
    ensures Boundary(s, i) && Boundary(s, i + 1)
  {
    hide CharLen;
    SplitValid(s, i);
    var t := s[i..];
    assert CharLen(t) == 1 && Valid(t[1..]);
    if i + 1 < |s| {
      assert t[1..][0] == s[i + 1];
    }
  }

  /** The end of a character that starts at a boundary is a boundary. */
  lemma CharEnd(s: string, i: nat)
    requires Valid(s) && i < |s| && Boundary(s, i)
    ensures 0 < CharLen(s[i..]) && i + CharLen(s[i..]) <= |s|
    ensures Boundary(s, i + CharLen(s[i..]))
  {
    hide CharLen;
    SplitValid(s, i);
    var t := s[i..];
    var n := CharLen(t);
    assert t != "" && Valid(t[n..]);
    if i + n < |s| {
      assert t[n..][0] == s[i + n];
    }
  }

  /** Three tail bytes side by side are always followed by a boundary. */
  lemma {:induction false} AfterThreeTails(s: string, i: nat)
    requires Valid(s) && Tail(s, i) && Tail(s, i + 1) && Tail(s, i + 2)
    ensures Boundary(s, i + 3)
    decreases |s|
  {
    hide CharLen;
    var n := CharLen(s);
    var t := s[n..];
    assert s[0..] == s;
    CharEnd(s, 0);
    if i >= n {
      assert forall k :: 0 <= k < |t| ==> t[k] == s[n + k];
      AfterThreeTails(t, i - n);
    } else {
      assert n != i + 1 && n != i + 2;
    }
  }

  const REPLACEMENT := "\U{EF}\U{BF}\U{BD}"

  /** How many bytes an ill-formed start takes: as many as could have begun a character. */
  function BadLen(s: string): (n: nat)
    requires s != "" && CharLen(s) == 0
    ensures 1 <= n <= |s|
  {
    if || (ByteIn(s, 0, 0xE0, 0xE0) && ByteIn(s, 1, 0xA0, 0xBF))
       || (ByteIn(s, 0, 0xE1, 0xEC) && Tail(s, 1))
       || (ByteIn(s, 0, 0xED, 0xED) && ByteIn(s, 1, 0x80, 0x9F))
       || (ByteIn(s, 0, 0xEE, 0xEF) && Tail(s, 1)) then 2
    else if || (ByteIn(s, 0, 0xF0, 0xF0) && ByteIn(s, 1, 0x90, 0xBF))
            || (ByteIn(s, 0, 0xF1, 0xF3) && Tail(s, 1))
            || (ByteIn(s, 0, 0xF4, 0xF4) && ByteIn(s, 1, 0x80, 0x8F)) then
      if Tail(s, 2) then 3 else 2
    else 1
  }

  /** `String::from_utf8_lossy`: ill-formed bytes become the replacement character. */
  function Lossy(s: string): string
    decreases |s|
  {
    if s == "" then ""
    else if CharLen(s) > 0 then s[..CharLen(s)] + Lossy(s[CharLen(s)..])
    else REPLACEMENT + Lossy(s[BadLen(s)..])
  }

  /**
   Two bytes that cannot begin a character give two replacement characters, and the front of a
   character that breaks off gives one, whatever follows.
   */
  lemma LossyReplaces(rest: string)
    ensures Lossy("\U{FF}\U{FE}" + rest) == REPLACEMENT + (REPLACEMENT + Lossy(rest))
    ensures Lossy("\U{E2}\U{82}" + "(" + rest) == REPLACEMENT + ("(" + Lossy(rest))
  {
    LossyBad("\U{FF}\U{FE}" + rest, 1);
    LossyBad("\U{FE}" + rest, 1);
    assert ("\U{FF}\U{FE}" + rest)[1..] == "\U{FE}" + rest && ("\U{FE}" + rest)[1..] == rest;
    var broken := "\U{E2}\U{82}" + "(" + rest;
    assert broken[0] as int == 0xE2 && broken[1] as int == 0x82 && broken[2] == '(';
    LossyBad(broken, 2);
    assert broken[2..] == "(" + rest && ("(" + rest)[..1] == "(" && ("(" + rest)[1..] == rest;
  }

  lemma LossyBad(s: string, n: nat)
    requires s != "" && CharLen(s) == 0 && BadLen(s) == n <= |s|
    ensures Lossy(s) == REPLACEMENT + Lossy(s[n..])
  {
  }

  /** Well-formed text is left as it is. */
  lemma {:induction false} LossyOfValid(s: string)
    requires Valid(s)
    ensures Lossy(s) == s
    decreases |s|
  {
    hide CharLen;
    if s != "" {
      LossyOfValid(s[CharLen(s)..]);
      assert s == s[..CharLen(s)] + s[CharLen(s)..];
    }
  }

  lemma ReplacementIsChar(rest: string)
    ensures CharLen(REPLACEMENT + rest) == 3
  {
    var s := REPLACEMENT + rest;
    assert s[0] as int == 0xEF && s[1] as int == 0xBF && s[2] as int == 0xBD;
  }

  /** Whatever the bytes, the result is well-formed. */
  lemma {:induction false} LossyIsValid(s: string)
    ensures Valid(Lossy(s))
    decreases |s|
  {
    hide CharLen, BadLen;
    if s != "" {
      var n := CharLen(s);
      if n > 0 {
        LossyIsValid(s[n..]);
        var out := s[..n] + Lossy(s[n..]);
        assert out[..n] == s[..n];
        CharLenLocal(s, out);
        assert out[n..] == Lossy(s[n..]);
      } else {
        LossyIsValid(s[BadLen(s)..]);
        var rest := Lossy(s[BadLen(s)..]);
        ReplacementIsChar(rest);
        assert (REPLACEMENT + rest)[3..] == rest;
      }
    }
  }

  lemma NoAsciiInside(s: string)
    requires CharLen(s) > 1
    ensures forall k :: 0 <= k < CharLen(s) ==> s[k] as int >= 0x80
  {
    hide CharLen;
    assert !ByteIn(s, 0, 0, 0x7F);
    forall k | 0 <= k < CharLen(s) ensures s[k] as int >= 0x80 {
      if k > 0 { assert Tail(s, k); }
    }
  }

  /** Replacing ASCII characters by ASCII characters. */
  lemma {:induction false} SwappedIsValid(s: string, t: string)
    requires Valid(s) && |t| == |s|
    requires forall i :: 0 <= i < |s| ==> t[i] == s[i] || (s[i] as int < 0x80 && t[i] as int < 0x80)
    ensures Valid(t)
    decreases |s|
  {
    hide CharLen;
    if s != "" {
      var n := CharLen(s);
      if n == 1 {
        assert ByteIn(s, 0, 0, 0x7F) && ByteIn(t, 0, 0, 0x7F);
      } else {
        NoAsciiInside(s);
        assert s[..n] == t[..n];
        CharLenLocal(s, t);
      }
      SwappedIsValid(s[n..], t[n..]);
    }
  }

  // White space, on bytes.

  /** The width of the white-space character at `i`, or 0. */
  function WhiteWidth(s: string, i: nat): (n: nat)
    ensures (n <= 3 && i + n <= |s|) || n == 0
  {
    if ByteIn(s, i, 0x09, 0x0D) || ByteIn(s, i, 0x20, 0x20) then 1
    else if ByteIn(s, i, 0xC2, 0xC2) && (ByteIn(s, i + 1, 0x85, 0x85) || ByteIn(s, i + 1, 0xA0, 0xA0)) then 2
    else if ByteIn(s, i, 0xE1, 0xE1) && ByteIn(s, i + 1, 0x9A, 0x9A) && ByteIn(s, i + 2, 0x80, 0x80) then 3
    else if ByteIn(s, i, 0xE2, 0xE2) && ByteIn(s, i + 1, 0x80, 0x80) &&
            (ByteIn(s, i + 2, 0x80, 0x8A) || ByteIn(s, i + 2, 0xA8, 0xA9) || ByteIn(s, i + 2, 0xAF, 0xAF)) then 3
    else if ByteIn(s, i, 0xE2, 0xE2) && ByteIn(s, i + 1, 0x81, 0x81) && ByteIn(s, i + 2, 0x9F, 0x9F) then 3
    else if ByteIn(s, i, 0xE3, 0xE3) && ByteIn(s, i + 1, 0x80, 0x80) && ByteIn(s, i + 2, 0x80, 0x80) then 3
    else 0
  }

  /** In well-formed text a white-space character at a boundary is a whole character. */
  lemma WhiteIsChar(s: string, i: nat)
    requires Valid(s) && i < |s| && Boundary(s, i)
    ensures WhiteWidth(s, i) > 0 ==> CharLen(s[i..]) == WhiteWidth(s, i)
  {
    hide Valid, CharLen, ByteIn;
    CharEnd(s, i);
    WhiteInSuffix(s, i);
    WhiteStart(s[i..]);
  }

  lemma ByteInSuffix(s: string, i: nat, k: nat, lo: int, hi: int)
    requires i <= |s|
    ensures ByteIn(s, i + k, lo, hi) <==> ByteIn(s[i..], k, lo, hi)
  {
  }

  lemma WhiteInSuffix(s: string, i: nat)
    requires i <= |s|
    ensures WhiteWidth(s, i) == WhiteWidth(s[i..], 0)
  {
    hide ByteIn;
    forall k: nat, lo, hi ensures ByteIn(s, i + k, lo, hi) <==> ByteIn(s[i..], k, lo, hi) {
      ByteInSuffix(s, i, k, lo, hi);
    }
  }

  /** A white-space character is a character. */
  lemma WhiteStart(t: string)
    ensures WhiteWidth(t, 0) > 0 ==> CharLen(t) == WhiteWidth(t, 0)
  {
  }

  function SkipWhite(s: string, i: nat): (r: nat)
    requires i <= |s|
    ensures i <= r <= |s| && WhiteWidth(s, r) == 0
    decreases |s| - i
  {
    if WhiteWidth(s, i) > 0 then SkipWhite(s, i + WhiteWidth(s, i)) else i
  }

  lemma NoWhiteAtEnd(s: string)
    ensures WhiteWidth(s, |s|) == 0
  {
  }

  /** `trim().is_empty()`: nothing but white space. */
  predicate Blank(s: string) {
    SkipWhite(s, 0) == |s|
  }
}

/**
 Digest pre-images.

 Fields prefixed by their length as eight big-endian bytes can be read back in one way only.
 Digests are printed in hexadecimal.
 */
module Framing {
  import opened Text

  function Pow256(k: nat): nat {
    if k == 0 then 1 else 256 * Pow256(k - 1)
  }

  function BigEndian(n: nat, k: nat): (s: string)
    ensures |s| == k
  {
    if k == 0 then "" else BigEndian(n / 256, k - 1) + [(n % 256) as char]
  }

  lemma {:induction false} BigEndianInjective(m: nat, n: nat, k: nat)
    requires m < Pow256(k) && n < Pow256(k) && BigEndian(m, k) == BigEndian(n, k)
    ensures m == n
  {
    if k > 0 {
      var a, b := BigEndian(m, k), BigEndian(n, k);
      assert a[..k - 1] == BigEndian(m / 256, k - 1) && b[..k - 1] == BigEndian(n / 256, k - 1);
      BigEndianInjective(m / 256, n / 256, k - 1);
      assert a[k - 1] == (m % 256) as char && b[k - 1] == (n % 256) as char;
    }
  }

  lemma Pow256Values()
    ensures Pow256(8) == U64_LIMIT && Pow256(16) == UUID_LIMIT
  {
    assert Pow256(4) == 0x1_0000_0000;
    assert Pow256(8) == 0x1_0000_0000_0000_0000;
    assert Pow256(12) == 0x1_0000_0000_0000_0000_0000_0000;
  }

  function U64Bytes(n: nat): (s: string)
    ensures |s| == 8
  {
    BigEndian(n, 8)
  }

  lemma U64BytesInjective(m: nat, n: nat)
    requires m < U64_LIMIT && n < U64_LIMIT && U64Bytes(m) == U64Bytes(n)
    ensures m == n
  {
    Pow256Values();
    BigEndianInjective(m, n, 8);
  }

  function UuidBytes(id: Uuid): (s: string)
    ensures |s| == 16
  {
    BigEndian(id, 16)
  }

  lemma UuidBytesInjective(a: Uuid, b: Uuid)
    requires UuidBytes(a) == UuidBytes(b)
    ensures a == b
  {
    Pow256Values();
    BigEndianInjective(a, b, 16);
  }

  function Frame(value: string): (s: string)
    ensures |s| == 8 + |value|
  {
    U64Bytes(|value|) + value
  }

  lemma {:induction false} ZeroBytes(k: nat)
    ensures forall i :: 0 <= i < k ==> BigEndian(0, k)[i] == 0 as char
  {
    if k > 0 { ZeroBytes(k - 1); }
  }

  /** The most significant byte comes first, and a frame is its length and then its bytes. */
  lemma BytesAreBigEndian(value: string)
    requires |value| < 256
    ensures var s := U64Bytes(0x0102); s[6] == 1 as char && s[7] == 2 as char && forall i :: 0 <= i < 6 ==> s[i] == 0 as char
    ensures var s := Frame(value); s[8..] == value && s[7] == |value| as char && forall i :: 0 <= i < 7 ==> s[i] == 0 as char
  {
    ZeroBytes(7);
    ZeroBytes(6);
    BigEndianStep(0x0102, 8);
    BigEndianStep(1, 7);
    BigEndianStep(|value|, 8);
  }

  lemma BigEndianStep(n: nat, k: nat)
    requires k > 0
    ensures BigEndian(n, k) == BigEndian(n / 256, k - 1) + [(n % 256) as char]
  {
  }

  function Frames(values: seq<string>): string {
    if values == [] then "" else Frame(values[0]) + Frames(values[1..])
  }

  /** Every value's length fits the prefix. */
  ghost predicate Fit(values: seq<string>) {
    forall i :: 0 <= i < |values| ==> |values[i]| < U64_LIMIT
  }

  lemma {:induction false} FramesAppend(a: seq<string>, b: seq<string>)
    ensures Frames(a + b) == Frames(a) + Frames(b)
  {
    hide Frames, Frame;
    if a == [] {
      FramesNone();
      assert a + b == b && "" + Frames(b) == Frames(b);
    } else {
      FramesAppend(a[1..], b);
      FramesCons(a[0], a[1..]);
      FramesCons(a[0], a[1..] + b);
      assert a == [a[0]] + a[1..] && a + b == [a[0]] + (a[1..] + b);
      Assoc(Frame(a[0]), Frames(a[1..]), Frames(b));
    }
  }

  lemma FramesNone()
    ensures Frames([]) == ""
  {
  }

  lemma FramesCons(x: string, rest: seq<string>)
    ensures Frames([x] + rest) == Frame(x) + Frames(rest)
  {
    hide Frame;
    assert ([x] + rest)[1..] == rest;
  }

  lemma FramesSnoc(a: seq<string>, x: string)
    ensures Frames(a + [x]) == Frames(a) + Frame(x)
  {
    hide Frame, Frames;
    FramesAppend(a, [x]);
    FramesCons(x, []);
    FramesNone();
    assert [x] + [] == [x] && Frame(x) + "" == Frame(x);
  }

  /** A sequence of framed values can be read back in one way only. */
  lemma {:induction false} FramesInjective(a: seq<string>, b: seq<string>)
    requires Fit(a) && Fit(b) && Frames(a) == Frames(b)
    ensures a == b
  {
    if a != [] && b != [] {
      FirstFrame(a[0], Frames(a[1..]), b[0], Frames(b[1..]));
      FramesInjective(a[1..], b[1..]);
      assert a == [a[0]] + a[1..] && b == [b[0]] + b[1..];
    } else {
      assert |Frames(a)| == |Frames(b)|;
    }
  }

  lemma FirstFrame(x: string, s: string, y: string, t: string)
    requires |x| < U64_LIMIT && |y| < U64_LIMIT && Frame(x) + s == Frame(y) + t
    ensures x == y && s == t
  {
    hide U64Bytes, Frame;
    var w := Frame(x) + s;
    FrameParts(x, s);
    FrameParts(y, t);
    U64BytesInjective(|x|, |y|);
  }

  lemma FrameParts(x: string, s: string)
    ensures var w := Frame(x) + s;
      |w| >= 8 + |x| && w[..8] == U64Bytes(|x|) && w[8..8 + |x|] == x && w[8 + |x|..] == s
  {
  }

  /** A digest as it is printed: two lower-case hexadecimal digits a byte. */
  function HexText(bytes: string): (s: string)
    ensures |s| == 2 * |bytes|
  {
    if bytes == "" then "" else Hex(bytes[0] as int % 256, 2) + HexText(bytes[1..])
  }
}

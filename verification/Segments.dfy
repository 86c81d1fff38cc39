/**
 Redaction as splicing.

 A text is cut into segments that are kept or replaced, left to right. The byte-level searches
 every redactor uses are here too.
 */
module Segments {
  import opened Wrappers
  import Utf8

  datatype Segment = Keep(text: string) | Replace(original: string, marker: string)

  function Original(segments: seq<Segment>): string {
    if segments == [] then ""
    else (if segments[0].Keep? then segments[0].text else segments[0].original) + Original(segments[1..])
  }

  function Rendered(segments: seq<Segment>): string {
    if segments == [] then ""
    else (if segments[0].Keep? then segments[0].text else segments[0].marker) + Rendered(segments[1..])
  }

  /** How many spans were replaced. */
  function Replacements(segments: seq<Segment>): nat {
    if segments == [] then 0 else (if segments[0].Replace? then 1 else 0) + Replacements(segments[1..])
  }

  lemma {:induction false} NothingReplaced(segments: seq<Segment>)
    requires Replacements(segments) == 0
    ensures Rendered(segments) == Original(segments)
  {
    if segments != [] { NothingReplaced(segments[1..]); }
  }

  lemma One(x: Segment)
    ensures Original([x]) == if x.Keep? then x.text else x.original
    ensures Rendered([x]) == if x.Keep? then x.text else x.marker
    ensures Replacements([x]) == if x.Replace? then 1 else 0
  {
    assert [x][1..] == [];
  }

  lemma Cons(x: Segment, rest: seq<Segment>)
    ensures Original([x] + rest) == (if x.Keep? then x.text else x.original) + Original(rest)
    ensures Rendered([x] + rest) == (if x.Keep? then x.text else x.marker) + Rendered(rest)
    ensures Replacements([x] + rest) == (if x.Replace? then 1 else 0) + Replacements(rest)
  {
    assert ([x] + rest)[1..] == rest;
  }

  /** Position `p` of the original lies in a part that is kept. */
  predicate KeptAt(segments: seq<Segment>, p: nat) {
    segments != [] &&
    var n := |if segments[0].Keep? then segments[0].text else segments[0].original|;
    if p < n then segments[0].Keep? else KeptAt(segments[1..], p - n)
  }

  lemma KeptAtCons(x: Segment, rest: seq<Segment>, p: nat)
    ensures var n := |if x.Keep? then x.text else x.original|;
      KeptAt([x] + rest, p) <==> if p < n then x.Keep? else KeptAt(rest, p - n)
  {
    assert ([x] + rest)[1..] == rest;
  }

  lemma SliceIsValid(s: string, from: nat, to: nat)
    requires Utf8.Valid(s) && from <= to <= |s| && Utf8.Boundary(s, from) && Utf8.Boundary(s, to)
    ensures Utf8.Valid(s[from..to])
  {
    hide Utf8.Valid;
    Utf8.SplitValid(s, from);
    SuffixBoundary(s, from, to);
    Utf8.SplitValid(s[from..], to - from);
    assert s[from..][..to - from] == s[from..to];
  }

  /** A slice as Rust takes it: both ends must be character boundaries. */
  function Slice(s: string, from: nat, to: nat): (r: string)
    requires Utf8.Valid(s) && from <= to <= |s| && Utf8.Boundary(s, from) && Utf8.Boundary(s, to)
    ensures r == s[from..to] && Utf8.Valid(r)
  {
    SliceIsValid(s, from, to);
    s[from..to]
  }

  lemma SuffixBoundary(s: string, from: nat, to: nat)
    requires from <= to <= |s|
    ensures Utf8.Boundary(s, to) ==> Utf8.Boundary(s[from..], to - from)
    ensures to > from && Utf8.Boundary(s[from..], to - from) ==> Utf8.Boundary(s, to)
  {
    if to < |s| { assert s[from..][to - from] == s[to]; }
  }

  lemma CutTwice(s: string, i: nat, n: nat)
    requires i + n <= |s|
    ensures s == s[..i] + (s[i..][..n] + s[i..][n..])
    ensures s[i..][..n] == s[i..i + n] && s[i..][n..] == s[i + n..]
  {
    assert s[i..] == s[i..][..n] + s[i..][n..];
  }

  // Searching.

  predicate OccursAt(s: string, part: string, i: nat) {
    i + |part| <= |s| && s[i..i + |part|] == part
  }

  function FindFrom(s: string, part: string, i: nat): (r: Option<nat>)
    requires i <= |s|
    ensures r.Some? ==> i <= r.value && OccursAt(s, part, r.value) && forall j :: i <= j < r.value ==> !OccursAt(s, part, j)
    ensures r.None? ==> forall j :: i <= j <= |s| ==> !OccursAt(s, part, j)
    decreases |s| - i
  {
    if OccursAt(s, part, i) then Some(i)
    else if i == |s| then None
    else FindFrom(s, part, i + 1)
  }

  /** `str::find`: the first occurrence. */
  function Find(s: string, part: string): (r: Option<nat>)
    ensures r.Some? ==> OccursAt(s, part, r.value) && forall j :: 0 <= j < r.value ==> !OccursAt(s, part, j)
    ensures r.None? ==> forall j :: 0 <= j <= |s| ==> !OccursAt(s, part, j)
  {
    FindFrom(s, part, 0)
  }

  lemma OccurrenceHasChars(s: string, part: string, i: nat)
    requires OccursAt(s, part, i)
    ensures forall k :: 0 <= k < |part| ==> part[k] in s
  {
    forall k | 0 <= k < |part| ensures part[k] in s {
      assert s[i..i + |part|][k] == s[i + k];
    }
  }

  lemma FoundWithin(before: string, part: string, after: string)
    ensures Find(before + part + after, part).Some?
  {
    var s, n := before + part + after, |before|;
    assert s[n..n + |part|] == part && OccursAt(s, part, n);
  }

  predicate IsAlphanumeric(c: char) {
    'a' <= c <= 'z' || 'A' <= c <= 'Z' || '0' <= c <= '9'
  }

  /** Where an ASCII part occurs in well-formed text, both its ends are boundaries. */
  lemma OccurrenceBoundaries(s: string, part: string, i: nat)
    requires Utf8.Valid(s) && part != "" && Utf8.Ascii(part) && OccursAt(s, part, i)
    ensures Utf8.Boundary(s, i) && Utf8.Boundary(s, i + |part|)
  {
    var n := |part|;
    assert s[i..i + n][0] == s[i] && s[i..i + n][n - 1] == s[i + n - 1];
    Utf8.AroundAscii(s, i);
    Utf8.AroundAscii(s, i + n - 1);
  }
}

/**
 What the packet digest binds.

 From equal pre-images back to equal fields, to equal groups of fields, and to packets that agree
 on everything sealed.
 */
module PacketSeal {
  import opened Wrappers
  import opened Text
  import opened EgressTypes
  import opened Framing
  import opened Sorting
  import opened PacketDigest
  import Utf8

  /** Lengths and counts are 64-bit numbers. */
  ghost predicate Representable(sha: string -> string, p: EgressPacket, f: Profile) {
    && (forall i :: 0 <= i < |Entries(sha, p, f)| ==> |Entries(sha, p, f)[i].value| < U64_LIMIT)
    && p.redactedSecrets < U64_LIMIT && p.estimatedTokens < U64_LIMIT && f.timeoutSecs < U64_LIMIT
    && forall i :: 0 <= i < |p.includedRefs| ==> RefSmall(p.includedRefs[i])
  }

  predicate RefSmall(r: FileRef) {
    r.lineStart < U64_LIMIT && r.lineEnd < U64_LIMIT && r.lineCount < U64_LIMIT
  }

  predicate AllFaithful(paths: seq<Path>) {
    forall i :: 0 <= i < |paths| ==> Faithful(paths[i])
  }

  /** Every path of the packet is shown as it is. */
  ghost predicate FaithfulPaths(p: EgressPacket) {
    && AllFaithful(p.includedFiles) && AllFaithful(p.excludedFiles)
    && (forall i :: 0 <= i < |p.includedRefs| ==> Faithful(p.includedRefs[i].path))
    && FaithfulKeys(p.includedTexts)
  }

  predicate SameScalars(p: EgressPacket, q: EgressPacket) {
    && p.packetId == q.packetId && p.snapshotId == q.snapshotId && p.promptContext == q.promptContext
    && p.redactedQuestion == q.redactedQuestion && p.redactedSecrets == q.redactedSecrets && p.estimatedTokens == q.estimatedTokens
  }

  /** A profile counts up to its name, its key and trailing slashes of its address. */
  predicate SameTarget(f: Profile, g: Profile) {
    && f.id == g.id && f.provider == g.provider && TrimSlashes(f.baseUrl) == TrimSlashes(g.baseUrl)
    && f.model == g.model && f.timeoutSecs == g.timeoutSecs
  }

  /** Agreement as far as the digest shows paths and texts. */
  ghost predicate ShownAlike(sha: string -> string, p: EgressPacket, f: Profile, q: EgressPacket, g: Profile) {
    && SameScalars(p, q) && SameTarget(f, g)
    && multiset(Names(p.includedFiles)) == multiset(Names(q.includedFiles))
    && multiset(Names(p.excludedFiles)) == multiset(Names(q.excludedFiles))
    && RefFields(Sort(RefLeq, p.includedRefs)) == RefFields(Sort(RefLeq, q.includedRefs))
    && TextFields(sha, p.includedTexts, TextPaths(p.includedTexts)) == TextFields(sha, q.includedTexts, TextPaths(q.includedTexts))
  }

  /** Agreement on everything sealed: lists of files and references in any order, texts by their digests. */
  ghost predicate SealedAlike(sha: string -> string, p: EgressPacket, f: Profile, q: EgressPacket, g: Profile) {
    && SameScalars(p, q) && SameTarget(f, g)
    && multiset(p.includedFiles) == multiset(q.includedFiles)
    && multiset(p.excludedFiles) == multiset(q.excludedFiles)
    && multiset(p.includedRefs) == multiset(q.includedRefs)
    && SameDigests(sha, p.includedTexts, q.includedTexts)
  }

  // From bytes to fields.

  lemma {:induction false} FlatFits(entries: seq<Entry>)
    requires forall i :: 0 <= i < |entries| ==> |entries[i].value| < U64_LIMIT
    ensures Fit(Flat(entries))
  {
    if entries != [] {
      FlatFits(entries[1..]);
      NameIsShort(entries[0].name);
      var s, t := Flat(entries), Flat(entries[1..]);
      assert forall i :: 2 <= i < |s| ==> s[i] == t[i - 2];
    }
  }

  lemma NameIsShort(n: Name)
    ensures |NameText(n)| < U64_LIMIT
  {
  }

  lemma FedInjective(a: seq<Entry>, b: seq<Entry>)
    requires forall i :: 0 <= i < |a| ==> |a[i].value| < U64_LIMIT
    requires forall i :: 0 <= i < |b| ==> |b[i].value| < U64_LIMIT
    requires Fed(a) == Fed(b)
    ensures a == b
  {
    hide Fit, Frames, Flat;
    FlatFits(a);
    FlatFits(b);
    FramesInjective(Flat(a), Flat(b));
    FlatInjective(a, b);
  }

  // From fields to groups.

  lemma PickOne(name: Name, value: string, n: Name)
    ensures Pick(Entry(name, value), n) == if n == name then [value] else []
  {
  }

  lemma {:induction false} EachValues(name: Name, values: seq<string>, n: Name)
    ensures Values(Each(name, values), n) == if n == name then values else []
    decreases |values|
  {
    hide Pick;
    if values != [] {
      EachValues(name, values[1..], n);
      PickOne(name, values[0], n);
      assert Each(name, values)[1..] == Each(name, values[1..]);
      assert values == [values[0]] + values[1..];
    }
  }

  lemma OneRefValues(r: FileRef)
    ensures Values(OneRef(r), IncludedFile) == [] && Values(OneRef(r), ExcludedFile) == []
    ensures |Values(OneRef(r), RefPath)| == 1
  {
    hide Shown, U64Bytes, Values;
    var s := OneRef(r);
    FourValues(s[0], s[1], s[2], s[3], IncludedFile);
    FourValues(s[0], s[1], s[2], s[3], ExcludedFile);
    FourValues(s[0], s[1], s[2], s[3], RefPath);
    assert s == [s[0]] + ([s[1]] + ([s[2]] + ([s[3]] + [])));
  }

  lemma FourValues(a: Entry, b: Entry, c: Entry, d: Entry, n: Name)
    ensures Values([a] + ([b] + ([c] + ([d] + []))), n) == Pick(a, n) + (Pick(b, n) + (Pick(c, n) + (Pick(d, n) + [])))
  {
    hide Pick;
    ConsValues(a, [b] + ([c] + ([d] + [])), n);
    ConsValues(b, [c] + ([d] + []), n);
    ConsValues(c, [d] + [], n);
    ConsValues(d, [], n);
  }

  lemma ConsValues(e: Entry, rest: seq<Entry>, n: Name)
    ensures Values([e] + rest, n) == Pick(e, n) + Values(rest, n)
  {
    hide Pick;
    assert ([e] + rest)[1..] == rest;
  }

  lemma {:induction false} RefValues(refs: seq<FileRef>)
    ensures Values(RefFields(refs), IncludedFile) == [] && Values(RefFields(refs), ExcludedFile) == []
    ensures |Values(RefFields(refs), RefPath)| == |refs|
    decreases |refs|
  {
    hide Values, OneRef;
    if refs == [] {
      NoValues();
    } else {
      var front, last := refs[..|refs| - 1], refs[|refs| - 1];
      RefValues(front);
      OneRefValues(last);
      ValuesAppend(RefFields(front), OneRef(last), IncludedFile);
      ValuesAppend(RefFields(front), OneRef(last), ExcludedFile);
      ValuesAppend(RefFields(front), OneRef(last), RefPath);
    }
  }

  lemma NoValues()
    ensures forall n :: Values([], n) == []
  {
  }

  lemma OneTextValues(sha: string -> string, path: Path, text: string, n: Name)
    requires n == IncludedFile || n == ExcludedFile || n == RefPath
    ensures Values(OneText(sha, path, text), n) == []
  {
    hide Shown, Values;
    var s := OneText(sha, path, text);
    NoValues();
    ConsValues(s[0], [s[1]] + [], n);
    ConsValues(s[1], [], n);
    assert s == [s[0]] + ([s[1]] + []);
  }

  lemma {:induction false} TextValues(sha: string -> string, texts: map<Path, string>, paths: seq<Path>, n: Name)
    requires forall i :: 0 <= i < |paths| ==> paths[i] in texts
    requires n == IncludedFile || n == ExcludedFile || n == RefPath
    ensures Values(TextFields(sha, texts, paths), n) == []
    decreases |paths|
  {
    hide Values, OneText;
    if paths == [] {
      NoValues();
    } else {
      var front, last := paths[..|paths| - 1], paths[|paths| - 1];
      TextValues(sha, texts, front, n);
      OneTextValues(sha, last, texts[last], n);
      ValuesAppend(TextFields(sha, texts, front), OneText(sha, last, texts[last]), n);
    }
  }

  lemma {:induction false} RefFieldsLength(refs: seq<FileRef>)
    ensures |RefFields(refs)| == 4 * |refs|
    decreases |refs|
  {
    if refs != [] { RefFieldsLength(refs[..|refs| - 1]); }
  }

  lemma MiddleValues(inc: seq<string>, exc: seq<string>, refs: seq<Entry>, texts: seq<Entry>, n: Name)
    ensures Values(Middle(inc, exc, refs, texts), n) ==
      (if n == IncludedFile then inc else []) + (if n == ExcludedFile then exc else []) + Values(refs, n) + Values(texts, n)
  {
    hide Values, Each;
    var a, b := Each(IncludedFile, inc), Each(ExcludedFile, exc);
    ValuesAppend(a, b, n);
    ValuesAppend(a + b, refs, n);
    ValuesAppend(a + b + refs, texts, n);
    EachValues(IncludedFile, inc, n);
    EachValues(ExcludedFile, exc, n);
  }

  ghost predicate RefGroup(fields: seq<Entry>) {
    |fields| == 4 * |Values(fields, RefPath)| && Values(fields, IncludedFile) == [] && Values(fields, ExcludedFile) == []
  }

  ghost predicate TextGroup(fields: seq<Entry>) {
    Values(fields, IncludedFile) == [] && Values(fields, ExcludedFile) == [] && Values(fields, RefPath) == []
  }

  /** The four groups between the fixed fields can be told apart. */
  lemma MiddleDecodes(inc: seq<string>, exc: seq<string>, refs: seq<Entry>, texts: seq<Entry>,
                      inc': seq<string>, exc': seq<string>, refs': seq<Entry>, texts': seq<Entry>)
    requires RefGroup(refs) && RefGroup(refs') && TextGroup(texts) && TextGroup(texts')
    requires Middle(inc, exc, refs, texts) == Middle(inc', exc', refs', texts')
    ensures inc == inc' && exc == exc' && refs == refs' && texts == texts'
  {
    hide Values, Middle;
    MiddleValues(inc, exc, refs, texts, IncludedFile);
    MiddleValues(inc', exc', refs', texts', IncludedFile);
    MiddleValues(inc, exc, refs, texts, ExcludedFile);
    MiddleValues(inc', exc', refs', texts', ExcludedFile);
    MiddleValues(inc, exc, refs, texts, RefPath);
    MiddleValues(inc', exc', refs', texts', RefPath);
    NothingAround(inc);
    NothingAround(inc');
    NothingAround(exc);
    NothingAround(exc');
    assert inc == inc' && exc == exc' && |refs| == |refs'|;
    MiddleTail(inc, exc, refs, texts);
    MiddleTail(inc, exc, refs', texts');
  }

  lemma NothingAround(s: seq<string>)
    ensures s + [] + [] + [] == s && [] + s + [] + [] == s
  {
  }

  lemma MiddleTail(inc: seq<string>, exc: seq<string>, refs: seq<Entry>, texts: seq<Entry>)
    ensures var m, k := Middle(inc, exc, refs, texts), |inc| + |exc|;
      k + |refs| <= |m| && m[k..k + |refs|] == refs && m[k + |refs|..] == texts
  {
  }

  lemma GroupsAreGroups(sha: string -> string, p: EgressPacket)
    ensures RefGroup(RefFields(Sort(RefLeq, p.includedRefs)))
    ensures TextGroup(TextFields(sha, p.includedTexts, TextPaths(p.includedTexts)))
  {
    hide Values, TextFields, RefFields, TextPaths;
    RefValues(Sort(RefLeq, p.includedRefs));
    RefFieldsLength(Sort(RefLeq, p.includedRefs));
    var paths := TextPaths(p.includedTexts);
    TextValues(sha, p.includedTexts, paths, IncludedFile);
    TextValues(sha, p.includedTexts, paths, ExcludedFile);
    TextValues(sha, p.includedTexts, paths, RefPath);
  }

  lemma ThreeDecode(a: seq<Entry>, b: seq<Entry>, c: seq<Entry>, a': seq<Entry>, b': seq<Entry>, c': seq<Entry>)
    requires |a| == |a'| && |c| == |c'| && a + b + c == a' + b' + c'
    ensures a == a' && b == b' && c == c'
  {
    var w := a + b + c;
    assert |b| == |b'|;
    assert w[..|a|] == a && w[..|a|] == a';
    assert w[|a|..|a| + |b|] == b && w[|a|..|a| + |b|] == b';
    assert w[|a| + |b|..] == c && w[|a| + |b|..] == c';
  }

  lemma FrontDecodes(p: EgressPacket, q: EgressPacket)
    requires Front(p) == Front(q)
    requires p.redactedSecrets < U64_LIMIT && p.estimatedTokens < U64_LIMIT && q.redactedSecrets < U64_LIMIT && q.estimatedTokens < U64_LIMIT
    ensures SameScalars(p, q)
  {
    hide UuidBytes, U64Bytes;
    var s, t := Front(p), Front(q);
    assert s[1] == t[1] && s[2] == t[2] && s[3] == t[3] && s[4] == t[4] && s[5] == t[5] && s[6] == t[6];
    UuidBytesInjective(p.packetId, q.packetId);
    UuidBytesInjective(p.snapshotId, q.snapshotId);
    U64BytesInjective(p.redactedSecrets, q.redactedSecrets);
    U64BytesInjective(p.estimatedTokens, q.estimatedTokens);
  }

  lemma BackDecodes(f: Profile, g: Profile)
    requires Back(f) == Back(g) && f.timeoutSecs < U64_LIMIT && g.timeoutSecs < U64_LIMIT
    ensures SameTarget(f, g)
  {
    hide UuidBytes, U64Bytes, ProviderName, TrimSlashes;
    var s, t := Back(f), Back(g);
    assert s[0] == t[0] && s[1] == t[1] && s[2] == t[2] && s[3] == t[3] && s[4] == t[4];
    UuidBytesInjective(f.id, g.id);
    ProviderNameInjective(f.provider, g.provider);
    U64BytesInjective(f.timeoutSecs, g.timeoutSecs);
  }

  /** The pre-image says what the digest shows, and nothing else. */
  lemma PreImageShowsExactly(sha: string -> string, p: EgressPacket, f: Profile, q: EgressPacket, g: Profile)
    requires Representable(sha, p, f) && Representable(sha, q, g)
    ensures PreImage(sha, p, f) == PreImage(sha, q, g) <==> ShownAlike(sha, p, f, q, g)
  {
    hide Front, Back, Middle, RefFields, TextFields, TextPaths, Names, TextLeq, RefLeq, Fed, RefGroup, TextGroup;
    TextOrder();
    SortForgetsOrder(TextLeq, Names(p.includedFiles), Names(q.includedFiles));
    SortForgetsOrder(TextLeq, Names(p.excludedFiles), Names(q.excludedFiles));
    if PreImage(sha, p, f) == PreImage(sha, q, g) {
      FedInjective(Entries(sha, p, f), Entries(sha, q, g));
      EndsHaveFixedLength(p, f, q, g);
      ThreeDecode(Front(p), Groups(sha, p), Back(f), Front(q), Groups(sha, q), Back(g));
      FrontDecodes(p, q);
      BackDecodes(f, g);
      GroupsAreGroups(sha, p);
      GroupsAreGroups(sha, q);
      MiddleDecodes(Sort(TextLeq, Names(p.includedFiles)), Sort(TextLeq, Names(p.excludedFiles)),
                    RefFields(Sort(RefLeq, p.includedRefs)), TextFields(sha, p.includedTexts, TextPaths(p.includedTexts)),
                    Sort(TextLeq, Names(q.includedFiles)), Sort(TextLeq, Names(q.excludedFiles)),
                    RefFields(Sort(RefLeq, q.includedRefs)), TextFields(sha, q.includedTexts, TextPaths(q.includedTexts)));
    }
    if ShownAlike(sha, p, f, q, g) {
      SameEnds(p, f, q, g);
      assert Groups(sha, p) == Groups(sha, q);
    }
  }

  lemma EndsHaveFixedLength(p: EgressPacket, f: Profile, q: EgressPacket, g: Profile)
    ensures |Front(p)| == |Front(q)| && |Back(f)| == |Back(g)|
  {
  }

  lemma SameEnds(p: EgressPacket, f: Profile, q: EgressPacket, g: Profile)
    requires SameScalars(p, q) && SameTarget(f, g)
    ensures Front(p) == Front(q) && Back(f) == Back(g)
  {
  }

  // Faithful paths.

  lemma NamesForgetNothing(a: seq<Path>, b: seq<Path>)
    requires AllFaithful(a) && AllFaithful(b)
    ensures multiset(Names(a)) == multiset(Names(b)) <==> multiset(a) == multiset(b)
  {
    hide Shown, PathOf, Faithful;
    NamesReadBack(a);
    NamesReadBack(b);
    if multiset(a) == multiset(b) { MapKeepsMultiset(Shown, a, b); }
    if multiset(Names(a)) == multiset(Names(b)) { MapKeepsMultiset(PathOf, Names(a), Names(b)); }
  }

  lemma NamesReadBack(a: seq<Path>)
    requires AllFaithful(a)
    ensures Map(PathOf, Names(a)) == a && Map(Shown, a) == Names(a)
  {
    hide Shown, PathOf, Faithful;
    forall i | 0 <= i < |a| ensures PathOf(Shown(a[i])) == a[i] {
      ShownReadsBack(a[i]);
    }
  }

  ghost predicate GoodRefs(refs: seq<FileRef>) {
    forall i :: 0 <= i < |refs| ==> Faithful(refs[i].path) && RefSmall(refs[i])
  }

  lemma OneRefInjective(a: FileRef, b: FileRef)
    requires Faithful(a.path) && Faithful(b.path) && RefSmall(a) && RefSmall(b) && OneRef(a) == OneRef(b)
    ensures a == b
  {
    hide Shown, PathOf, Faithful, U64Bytes;
    var s, t := OneRef(a), OneRef(b);
    assert s[0] == t[0] && s[1] == t[1] && s[2] == t[2] && s[3] == t[3];
    ShownReadsBack(a.path);
    ShownReadsBack(b.path);
    U64BytesInjective(a.lineStart, b.lineStart);
    U64BytesInjective(a.lineEnd, b.lineEnd);
    U64BytesInjective(a.lineCount, b.lineCount);
  }

  lemma {:induction false} RefFieldsInjective(a: seq<FileRef>, b: seq<FileRef>)
    requires GoodRefs(a) && GoodRefs(b) && RefFields(a) == RefFields(b)
    ensures a == b
    decreases |a|
  {
    hide OneRef, Faithful;
    RefFieldsLength(a);
    RefFieldsLength(b);
    if a != [] {
      var n := |a| - 1;
      RefFieldsLength(a[..n]);
      RefFieldsLength(b[..n]);
      TwoDecode(RefFields(a[..n]), OneRef(a[n]), RefFields(b[..n]), OneRef(b[n]));
      RefFieldsInjective(a[..n], b[..n]);
      OneRefInjective(a[n], b[n]);
      assert a == a[..n] + [a[n]] && b == b[..n] + [b[n]];
    }
  }

  lemma TwoDecode(a: seq<Entry>, b: seq<Entry>, a': seq<Entry>, b': seq<Entry>)
    requires |a| == |a'| && a + b == a' + b'
    ensures a == a' && b == b'
  {
    var w := a + b;
    assert w[..|a|] == a && w[..|a|] == a' && w[|a|..] == b && w[|a|..] == b';
  }

  lemma RefsForgetOrder(a: seq<FileRef>, b: seq<FileRef>)
    requires GoodRefs(a) && GoodRefs(b)
    ensures RefFields(Sort(RefLeq, a)) == RefFields(Sort(RefLeq, b)) <==> multiset(a) == multiset(b)
  {
    hide RefLeq, RefFields, Faithful, RefSmall;
    RefOrder();
    SortForgetsOrder(RefLeq, a, b);
    SortedGood(a);
    SortedGood(b);
    if RefFields(Sort(RefLeq, a)) == RefFields(Sort(RefLeq, b)) {
      RefFieldsInjective(Sort(RefLeq, a), Sort(RefLeq, b));
    }
  }

  lemma SortedGood(refs: seq<FileRef>)
    requires GoodRefs(refs)
    ensures GoodRefs(Sort(RefLeq, refs))
  {
    hide RefLeq, Faithful, RefSmall;
    RefOrder();
    SortKeeps(RefLeq, refs);
    var s := Sort(RefLeq, refs);
    forall i | 0 <= i < |s| ensures Faithful(s[i].path) && RefSmall(s[i]) {
      assert s[i] in multiset(s);
      assert s[i] in refs;
    }
  }

  lemma {:induction false} TextFieldsInjective(sha: string -> string, s: map<Path, string>, a: seq<Path>, t: map<Path, string>, b: seq<Path>)
    requires (forall i :: 0 <= i < |a| ==> a[i] in s && Faithful(a[i])) && (forall i :: 0 <= i < |b| ==> b[i] in t && Faithful(b[i]))
    requires TextFields(sha, s, a) == TextFields(sha, t, b)
    ensures a == b && forall i :: 0 <= i < |a| ==> sha(s[a[i]]) == sha(t[a[i]])
    decreases |a|
  {
    hide OneText, Faithful;
    TextFieldsLength(sha, s, a);
    TextFieldsLength(sha, t, b);
    if a != [] {
      var n := |a| - 1;
      TextFieldsLength(sha, s, a[..n]);
      TextFieldsLength(sha, t, b[..n]);
      TwoDecode(TextFields(sha, s, a[..n]), OneText(sha, a[n], s[a[n]]), TextFields(sha, t, b[..n]), OneText(sha, b[n], t[b[n]]));
      TextFieldsInjective(sha, s, a[..n], t, b[..n]);
      OneTextInjective(sha, a[n], s[a[n]], b[n], t[b[n]]);
      assert a == a[..n] + [a[n]] && b == b[..n] + [b[n]];
      assert forall i :: 0 <= i < n ==> a[..n][i] == a[i];
    }
  }

  lemma {:induction false} TextFieldsLength(sha: string -> string, texts: map<Path, string>, paths: seq<Path>)
    requires forall i :: 0 <= i < |paths| ==> paths[i] in texts
    ensures |TextFields(sha, texts, paths)| == 2 * |paths|
    decreases |paths|
  {
    if paths != [] { TextFieldsLength(sha, texts, paths[..|paths| - 1]); }
  }

  lemma OneTextInjective(sha: string -> string, a: Path, s: string, b: Path, t: string)
    requires Faithful(a) && Faithful(b) && OneText(sha, a, s) == OneText(sha, b, t)
    ensures a == b && sha(s) == sha(t)
  {
    hide Shown, PathOf, Faithful;
    var x, y := OneText(sha, a, s), OneText(sha, b, t);
    assert x[0] == y[0] && x[1] == y[1];
    ShownReadsBack(a);
    ShownReadsBack(b);
  }

  lemma {:induction false} SameTextFields(sha: string -> string, s: map<Path, string>, t: map<Path, string>, paths: seq<Path>)
    requires forall i :: 0 <= i < |paths| ==> paths[i] in s && paths[i] in t && sha(s[paths[i]]) == sha(t[paths[i]])
    ensures TextFields(sha, s, paths) == TextFields(sha, t, paths)
    decreases |paths|
  {
    if paths != [] { SameTextFields(sha, s, t, paths[..|paths| - 1]); }
  }

  ghost predicate FaithfulKeys(texts: map<Path, string>) {
    forall path :: path in texts ==> Faithful(path)
  }

  ghost predicate SameDigests(sha: string -> string, s: map<Path, string>, t: map<Path, string>) {
    s.Keys == t.Keys && forall path :: path in s ==> sha(s[path]) == sha(t[path])
  }

  lemma TextsDecode(sha: string -> string, s: map<Path, string>, t: map<Path, string>)
    requires FaithfulKeys(s) && FaithfulKeys(t) && TextFields(sha, s, TextPaths(s)) == TextFields(sha, t, TextPaths(t))
    ensures SameDigests(sha, s, t)
  {
    hide Faithful, TextFields, TextPaths;
    var a := TextPaths(s);
    TextFieldsInjective(sha, s, a, t, TextPaths(t));
    assert forall path :: path in s <==> path in a;
    assert forall path :: path in t <==> path in TextPaths(t);
    forall path | path in s ensures sha(s[path]) == sha(t[path]) {
      var i :| 0 <= i < |a| && a[i] == path;
    }
  }

  lemma TextsAlike(sha: string -> string, s: map<Path, string>, t: map<Path, string>)
    requires FaithfulKeys(s) && FaithfulKeys(t)
    ensures TextFields(sha, s, TextPaths(s)) == TextFields(sha, t, TextPaths(t)) <==> SameDigests(sha, s, t)
  {
    hide FaithfulKeys, TextFields, TextPaths, SameDigests;
    if TextFields(sha, s, TextPaths(s)) == TextFields(sha, t, TextPaths(t)) {
      TextsDecode(sha, s, t);
    }
    if SameDigests(sha, s, t) { TextsSame(sha, s, t); }
  }

  lemma SamePaths(s: map<Path, string>, t: map<Path, string>)
    requires s.Keys == t.Keys
    ensures TextPaths(s) == TextPaths(t)
  {
    hide PathLeq, Sort, Walked;
  }

  lemma TextsSame(sha: string -> string, s: map<Path, string>, t: map<Path, string>)
    requires SameDigests(sha, s, t)
    ensures TextFields(sha, s, TextPaths(s)) == TextFields(sha, t, TextPaths(t))
  {
    hide TextFields, TextPaths;
    SamePaths(s, t);
    SameTextFields(sha, s, t, TextPaths(s));
  }

  /**
   When every path is spelled in UTF-8, two packets have the same pre-image exactly when they agree
   on every sealed field, whatever the order of their lists.
   */
  lemma SealsExactly(sha: string -> string, p: EgressPacket, f: Profile, q: EgressPacket, g: Profile)
    requires Representable(sha, p, f) && Representable(sha, q, g) && FaithfulPaths(p) && FaithfulPaths(q)
    ensures PreImage(sha, p, f) == PreImage(sha, q, g) <==> SealedAlike(sha, p, f, q, g)
  {
    hide PreImage, RefFields, TextFields, TextPaths, Names, Faithful, SameScalars, SameTarget, RefSmall, Entries;
    PreImageShowsExactly(sha, p, f, q, g);
    NamesForgetNothing(p.includedFiles, q.includedFiles);
    NamesForgetNothing(p.excludedFiles, q.excludedFiles);
    RefsForgetOrder(p.includedRefs, q.includedRefs);
    TextsAlike(sha, p.includedTexts, q.includedTexts);
  }

  lemma BadBytesLookAlike()
    ensures Shown(["\U{FF}"]) == Shown(["\U{FE}"])
  {
    var s, t := "\U{FF}", "\U{FE}";
    assert Utf8.BadLen(s) == 1 && Utf8.BadLen(t) == 1 && s[1..] == "" && t[1..] == "";
  }

  /** Names that are not UTF-8 can collide: two packets listing different files share a pre-image. */
  lemma NamesOutsideUtf8Collide(sha: string -> string, p: EgressPacket, f: Profile)
    requires p.includedFiles == [["\U{FF}"]]
    ensures var q := p.(includedFiles := [["\U{FE}"]]);
      PreImage(sha, p, f) == PreImage(sha, q, f) && multiset(p.includedFiles) != multiset(q.includedFiles)
  {
    hide Shown, Front, Back, RefFields, TextFields, TextPaths;
    BadBytesLookAlike();
    var q := p.(includedFiles := [["\U{FE}"]]);
    assert Names(p.includedFiles) == Names(q.includedFiles);
    SameEnds(p, f, q, f);
    assert "\U{FF}"[0] != "\U{FE}"[0];
    assert ["\U{FF}"] in multiset(p.includedFiles) && ["\U{FF}"] !in multiset(q.includedFiles) by {
      assert ["\U{FF}"][0] != ["\U{FE}"][0];
    }
  }
}

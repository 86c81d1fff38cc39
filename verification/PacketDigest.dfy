/** The digest an approval binds packet and profile to: named, length-prefixed fields, lists sorted. */
module PacketDigest {
  import opened Wrappers
  import opened Text
  import opened EgressTypes
  import opened Framing
  import opened Sorting
  import Utf8

  datatype Provider = GoogleGemini | OpenRouter | OpenAi | OpenAiCompatible | CustomCompatible | LocalMock

  function ProviderName(p: Provider): string {
    match p
    case GoogleGemini => "GoogleGemini"
    case OpenRouter => "OpenRouter"
    case OpenAi => "OpenAi"
    case OpenAiCompatible => "OpenAICompatible"
    case CustomCompatible => "CustomCompatible"
    case LocalMock => "LocalMock"
  }

  lemma ProviderNameInjective(a: Provider, b: Provider)
    requires ProviderName(a) == ProviderName(b)
    ensures a == b
  {
    var x, y := ProviderName(a), ProviderName(b);
    assert |x| == |y| && x[0] == y[0];
    if |x| == 16 { assert x[0] == y[0]; }
  }

  datatype Profile = Profile(id: Uuid, provider: Provider, baseUrl: string, model: string, timeoutSecs: nat)

  // Paths as text.

  /** `to_string_lossy`. */
  function Shown(p: Path): string {
    Utf8.Lossy(PathText(p))
  }

  /** The components of a path are not empty and hold no separator. */
  predicate Normal(p: Path) {
    forall i :: 0 <= i < |p| ==> p[i] != "" && '/' !in p[i]
  }

  /** A path the digest can show: normal, and spelled in UTF-8. */
  predicate Faithful(p: Path) {
    Normal(p) && Utf8.Valid(PathText(p))
  }

  lemma {:induction false} PathTextSplits(p: Path)
    requires Normal(p) && p != []
    ensures Split(PathText(p), '/') == p && PathText(p) != ""
  {
    if |p| == 1 {
      assert Cut(p[0], '/') == None;
    } else {
      PathTextSplits(p[1..]);
      assert forall i :: 0 <= i < |p[1..]| ==> p[1..][i] == p[i + 1];
      SplitFirst(p[0], '/', PathText(p[1..]));
      assert PathText(p) == p[0] + ['/'] + PathText(p[1..]);
      assert p == [p[0]] + p[1..];
    }
  }

  function PathOf(text: string): Path {
    if text == "" then [] else Split(text, '/')
  }

  /** A faithful path can be read back from what the digest shows of it. */
  lemma ShownReadsBack(p: Path)
    requires Faithful(p)
    ensures PathOf(Shown(p)) == p
  {
    Utf8.LossyOfValid(PathText(p));
    if p != [] { PathTextSplits(p); }
  }

  // The fields.

  datatype Name =
    | SealVersion | PacketId | SnapshotId | PromptContext | RedactedUserQuestion | RedactedSecretOccurrences
    | EstimatedTokens | IncludedFile | ExcludedFile | RefPath | RefLineStart | RefLineEnd | RefLineCount
    | ValidationPath | ValidationTextSha256 | ProfileId | ProviderField | BaseUrl | Model | TimeoutSecs

  function NameText(n: Name): string {
    match n
    case SealVersion => "seal_version"
    case PacketId => "packet_id"
    case SnapshotId => "snapshot_id"
    case PromptContext => "prompt_context"
    case RedactedUserQuestion => "redacted_user_question"
    case RedactedSecretOccurrences => "redacted_secret_occurrences"
    case EstimatedTokens => "estimated_tokens"
    case IncludedFile => "included_file"
    case ExcludedFile => "excluded_file"
    case RefPath => "ref_path"
    case RefLineStart => "ref_line_start"
    case RefLineEnd => "ref_line_end"
    case RefLineCount => "ref_line_count"
    case ValidationPath => "validation_path"
    case ValidationTextSha256 => "validation_text_sha256"
    case ProfileId => "profile_id"
    case ProviderField => "provider"
    case BaseUrl => "base_url"
    case Model => "model"
    case TimeoutSecs => "timeout_secs"
  }

  /** What tells the names apart: their length, first byte and tenth byte. */
  function NameMark(n: Name): (int, char, char) {
    var s := NameText(n);
    (|s|, s[0], if |s| > 9 then s[9] else ' ')
  }

  lemma NameTextInjective(a: Name, b: Name)
    requires NameText(a) == NameText(b)
    ensures a == b
  {
    assert NameMark(a) == NameMark(b);
  }

  datatype Entry = Entry(name: Name, value: string)

  function Flat(entries: seq<Entry>): seq<string> {
    if entries == [] then [] else [NameText(entries[0].name), entries[0].value] + Flat(entries[1..])
  }

  lemma {:induction false} FlatAppend(a: seq<Entry>, b: seq<Entry>)
    ensures Flat(a + b) == Flat(a) + Flat(b)
  {
    hide NameText;
    if a == [] {
      assert a + b == b;
    } else {
      FlatAppend(a[1..], b);
      assert (a + b)[1..] == a[1..] + b;
    }
  }

  lemma {:induction false} FlatInjective(a: seq<Entry>, b: seq<Entry>)
    requires Flat(a) == Flat(b)
    ensures a == b
  {
    hide NameText;
    assert a != [] ==> |Flat(a)| >= 2;
    assert b != [] ==> |Flat(b)| >= 2;
    if a != [] {
      var x, y := Flat(a), Flat(b);
      assert x[0] == NameText(a[0].name) && x[1] == a[0].value && y[0] == NameText(b[0].name) && y[1] == b[0].value;
      assert x[2..] == Flat(a[1..]) && y[2..] == Flat(b[1..]);
      NameTextInjective(a[0].name, b[0].name);
      FlatInjective(a[1..], b[1..]);
      assert a == [a[0]] + a[1..] && b == [b[0]] + b[1..];
    }
  }

  /** What the hasher is fed. */
  function Fed(entries: seq<Entry>): string {
    Frames(Flat(entries))
  }

  lemma FedNothing()
    ensures Fed([]) == ""
  {
  }

  lemma FedSnoc(entries: seq<Entry>, e: Entry)
    ensures Fed(entries + [e]) == Fed(entries) + Frame(NameText(e.name)) + Frame(e.value)
  {
    hide NameText, Frame;
    FlatAppend(entries, [e]);
    assert Flat([e]) == [NameText(e.name)] + [e.value];
    assert Flat(entries) + Flat([e]) == (Flat(entries) + [NameText(e.name)]) + [e.value];
    FramesSnoc(Flat(entries), NameText(e.name));
    FramesSnoc(Flat(entries) + [NameText(e.name)], e.value);
  }

  function Pick(e: Entry, name: Name): seq<string> {
    if e.name == name then [e.value] else []
  }

  /** The values of the fields of one name, in order. */
  function Values(entries: seq<Entry>, name: Name): seq<string> {
    if entries == [] then [] else Pick(entries[0], name) + Values(entries[1..], name)
  }

  lemma {:induction false} ValuesAppend(a: seq<Entry>, b: seq<Entry>, name: Name)
    ensures Values(a + b, name) == Values(a, name) + Values(b, name)
  {
    hide Pick;
    if a == [] {
      assert a + b == b;
    } else {
      ValuesAppend(a[1..], b, name);
      assert (a + b)[1..] == a[1..] + b;
    }
  }

  function Front(p: EgressPacket): seq<Entry> {
    [Entry(SealVersion, "code-mentat-egress-v1"), Entry(PacketId, UuidBytes(p.packetId)), Entry(SnapshotId, UuidBytes(p.snapshotId)),
     Entry(PromptContext, p.promptContext), Entry(RedactedUserQuestion, p.redactedQuestion),
     Entry(RedactedSecretOccurrences, U64Bytes(p.redactedSecrets)), Entry(EstimatedTokens, U64Bytes(p.estimatedTokens))]
  }

  function Back(f: Profile): seq<Entry> {
    [Entry(ProfileId, UuidBytes(f.id)), Entry(ProviderField, ProviderName(f.provider)), Entry(BaseUrl, TrimSlashes(f.baseUrl)),
     Entry(Model, f.model), Entry(TimeoutSecs, U64Bytes(f.timeoutSecs))]
  }

  function Each(name: Name, values: seq<string>): seq<Entry> {
    seq(|values|, i requires 0 <= i < |values| => Entry(name, values[i]))
  }

  function Names(paths: seq<Path>): seq<string> {
    seq(|paths|, i requires 0 <= i < |paths| => Shown(paths[i]))
  }

  predicate RefLeq(a: FileRef, b: FileRef) {
    if a.path != b.path then PathLeq(a.path, b.path)
    else if a.lineStart != b.lineStart then a.lineStart < b.lineStart
    else if a.lineEnd != b.lineEnd then a.lineEnd < b.lineEnd
    else a.lineCount <= b.lineCount
  }

  lemma RefOrder()
    ensures Order(RefLeq)
  {
    hide PathLeq;
    PathOrder();
  }

  function OneRef(r: FileRef): seq<Entry> {
    [Entry(RefPath, Shown(r.path)), Entry(RefLineStart, U64Bytes(r.lineStart)),
     Entry(RefLineEnd, U64Bytes(r.lineEnd)), Entry(RefLineCount, U64Bytes(r.lineCount))]
  }

  function RefFields(refs: seq<FileRef>): seq<Entry> {
    if refs == [] then [] else RefFields(refs[..|refs| - 1]) + OneRef(refs[|refs| - 1])
  }

  /** `sha` is the SHA-256 of its bytes. */
  function OneText(sha: string -> string, path: Path, text: string): seq<Entry> {
    [Entry(ValidationPath, Shown(path)), Entry(ValidationTextSha256, sha(text))]
  }

  function TextFields(sha: string -> string, texts: map<Path, string>, paths: seq<Path>): seq<Entry>
    requires forall i :: 0 <= i < |paths| ==> paths[i] in texts
  {
    if paths == [] then []
    else TextFields(sha, texts, paths[..|paths| - 1]) + OneText(sha, paths[|paths| - 1], texts[paths[|paths| - 1]])
  }

  /** The order a hash map happens to be walked in. */
  ghost function Walked(keys: set<Path>): (r: seq<Path>)
    ensures multiset(r) == multiset(keys)
  {
    if keys == {} then []
    else
      var k :| k in keys;
      var r := Walked(keys - {k});
      assert multiset([k] + r) == multiset{k} + multiset(r);
      [k] + r
  }

  ghost function TextPaths(texts: map<Path, string>): (r: seq<Path>)
    ensures forall p :: p in r <==> p in texts
  {
    PathOrder();
    SortKeeps(PathLeq, Walked(texts.Keys));
    var r := Sort(PathLeq, Walked(texts.Keys));
    assert forall p :: p in r <==> p in multiset(r);
    r
  }

  /** The fields between the fixed ones: one group per list of the packet. */
  function Middle(inc: seq<string>, exc: seq<string>, refs: seq<Entry>, texts: seq<Entry>): seq<Entry> {
    Each(IncludedFile, inc) + Each(ExcludedFile, exc) + refs + texts
  }

  ghost function Groups(sha: string -> string, p: EgressPacket): seq<Entry> {
    Middle(Sort(TextLeq, Names(p.includedFiles)), Sort(TextLeq, Names(p.excludedFiles)),
           RefFields(Sort(RefLeq, p.includedRefs)), TextFields(sha, p.includedTexts, TextPaths(p.includedTexts)))
  }

  ghost function Entries(sha: string -> string, p: EgressPacket, f: Profile): seq<Entry> {
    Front(p) + Groups(sha, p) + Back(f)
  }

  ghost function PreImage(sha: string -> string, p: EgressPacket, f: Profile): string {
    Fed(Entries(sha, p, f))
  }

  lemma FlatOne(a: Entry)
    ensures Flat([a]) == [NameText(a.name), a.value]
  {
    hide NameText;
    assert [a][1..] == [];
  }

  lemma FlatTwo(a: Entry, b: Entry)
    ensures Flat([a, b]) == [NameText(a.name), a.value, NameText(b.name), b.value]
  {
    hide NameText, Flat;
    FlatOne(a);
    FlatOne(b);
    FlatAppend([a], [b]);
    assert [a] + [b] == [a, b];
  }

  lemma FlatFour(a: Entry, b: Entry, c: Entry, d: Entry)
    ensures Flat([a, b, c, d]) == [NameText(a.name), a.value, NameText(b.name), b.value, NameText(c.name), c.value, NameText(d.name), d.value]
  {
    hide NameText, Flat;
    FlatTwo(a, b);
    FlatTwo(c, d);
    FlatAppend([a, b], [c, d]);
    assert [a, b] + [c, d] == [a, b, c, d];
  }

  /** The fixed fields before the lists, under their names. */
  lemma FrontIsFed(p: EgressPacket)
    ensures Flat(Front(p)) == [
      "seal_version", "code-mentat-egress-v1", "packet_id", UuidBytes(p.packetId), "snapshot_id", UuidBytes(p.snapshotId),
      "prompt_context", p.promptContext, "redacted_user_question", p.redactedQuestion,
      "redacted_secret_occurrences", U64Bytes(p.redactedSecrets), "estimated_tokens", U64Bytes(p.estimatedTokens)]
  {
    hide Flat, UuidBytes, U64Bytes;
    var e := Front(p);
    FlatFour(e[0], e[1], e[2], e[3]);
    FlatTwo(e[4], e[5]);
    FlatOne(e[6]);
    FlatAppend([e[4], e[5]], [e[6]]);
    FlatAppend([e[0], e[1], e[2], e[3]], [e[4], e[5]] + [e[6]]);
    assert e == [e[0], e[1], e[2], e[3]] + ([e[4], e[5]] + [e[6]]);
  }

  /** The fixed fields behind the lists: the profile's. */
  lemma BackIsFed(f: Profile)
    ensures Flat(Back(f)) == [
      "profile_id", UuidBytes(f.id), "provider", ProviderName(f.provider), "base_url", TrimSlashes(f.baseUrl),
      "model", f.model, "timeout_secs", U64Bytes(f.timeoutSecs)]
  {
    hide Flat, UuidBytes, U64Bytes, ProviderName, TrimSlashes;
    var e := Back(f);
    FlatFour(e[0], e[1], e[2], e[3]);
    FlatOne(e[4]);
    FlatAppend([e[0], e[1], e[2], e[3]], [e[4]]);
    assert e == [e[0], e[1], e[2], e[3]] + [e[4]];
  }

  /** How one path of each list, one reference and one text are fed. */
  lemma OneOfEachIsFed(sha: string -> string, inc: Path, exc: Path, r: FileRef, path: Path, text: string)
    ensures Flat(Each(IncludedFile, Names([inc]))) == ["included_file", Utf8.Lossy(PathText(inc))]
    ensures Flat(Each(ExcludedFile, Names([exc]))) == ["excluded_file", Utf8.Lossy(PathText(exc))]
    ensures Flat(OneRef(r)) == ["ref_path", Utf8.Lossy(PathText(r.path)), "ref_line_start", U64Bytes(r.lineStart),
                                "ref_line_end", U64Bytes(r.lineEnd), "ref_line_count", U64Bytes(r.lineCount)]
    ensures Flat(OneText(sha, path, text)) == ["validation_path", Utf8.Lossy(PathText(path)), "validation_text_sha256", sha(text)]
  {
    hide Flat, U64Bytes, Utf8.Lossy, PathText;
    var one, two := Entry(IncludedFile, Utf8.Lossy(PathText(inc))), Entry(ExcludedFile, Utf8.Lossy(PathText(exc)));
    assert Each(IncludedFile, Names([inc])) == [one] && Each(ExcludedFile, Names([exc])) == [two];
    FlatOne(one);
    FlatOne(two);
    RefIsFed(r);
    FlatTwo(Entry(ValidationPath, Shown(path)), Entry(ValidationTextSha256, sha(text)));
  }

  lemma RefIsFed(r: FileRef)
    ensures Flat(OneRef(r)) == ["ref_path", Utf8.Lossy(PathText(r.path)), "ref_line_start", U64Bytes(r.lineStart),
                                "ref_line_end", U64Bytes(r.lineEnd), "ref_line_count", U64Bytes(r.lineCount)]
  {
    hide Flat, U64Bytes, Utf8.Lossy, PathText;
    FlatFour(Entry(RefPath, Shown(r.path)), Entry(RefLineStart, U64Bytes(r.lineStart)), Entry(RefLineEnd, U64Bytes(r.lineEnd)), Entry(RefLineCount, U64Bytes(r.lineCount)));
  }

  ghost function Digest(sha: string -> string, p: EgressPacket, f: Profile): string {
    HexText(sha(PreImage(sha, p, f)))
  }

  // The computation.

  function UpdateField(fed: string, name: Name, value: string): string {
    fed + Frame(NameText(name)) + Frame(value)
  }

  /** Feeds one field per value. */
  method FeedEach(fed: string, name: Name, values: seq<string>, ghost done: seq<Entry>) returns (out: string)
    requires fed == Fed(done)
    ensures out == Fed(done + Each(name, values))
  {
    hide Fed, Frame, NameText;
    out := fed;
    var k := 0;
    assert done + Each(name, values[..0]) == done;
    while k < |values|
      invariant 0 <= k <= |values| && out == Fed(done + Each(name, values[..k]))
    {
      assert done + Each(name, values[..k + 1]) == (done + Each(name, values[..k])) + [Entry(name, values[k])];
      FedSnoc(done + Each(name, values[..k]), Entry(name, values[k]));
      out := UpdateField(out, name, values[k]);
      k := k + 1;
    }
    assert values[..k] == values;
  }

  method FeedAll(fed: string, entries: seq<Entry>, ghost done: seq<Entry>) returns (out: string)
    requires fed == Fed(done)
    ensures out == Fed(done + entries)
  {
    hide Fed, Frame, NameText;
    out := fed;
    var k := 0;
    assert done + entries[..0] == done;
    while k < |entries|
      invariant 0 <= k <= |entries| && out == Fed(done + entries[..k])
    {
      assert done + entries[..k + 1] == (done + entries[..k]) + [entries[k]];
      FedSnoc(done + entries[..k], entries[k]);
      out := UpdateField(out, entries[k].name, entries[k].value);
      k := k + 1;
    }
    assert entries[..k] == entries;
  }

  method FeedRefs(fed: string, refs: seq<FileRef>, ghost done: seq<Entry>) returns (out: string)
    requires fed == Fed(done)
    ensures out == Fed(done + RefFields(refs))
  {
    hide Fed, OneRef;
    out := fed;
    var k := 0;
    assert done + RefFields(refs[..0]) == done;
    while k < |refs|
      invariant 0 <= k <= |refs| && out == Fed(done + RefFields(refs[..k]))
    {
      assert refs[..k + 1][..k] == refs[..k];
      out := FeedAll(out, OneRef(refs[k]), done + RefFields(refs[..k]));
      assert done + RefFields(refs[..k + 1]) == (done + RefFields(refs[..k])) + OneRef(refs[k]);
      k := k + 1;
    }
    assert refs[..k] == refs;
  }

  method FeedTexts(sha: string -> string, fed: string, texts: map<Path, string>, paths: seq<Path>, ghost done: seq<Entry>) returns (out: string)
    requires fed == Fed(done) && forall i :: 0 <= i < |paths| ==> paths[i] in texts
    ensures out == Fed(done + TextFields(sha, texts, paths))
  {
    hide Fed, OneText;
    out := fed;
    var k := 0;
    assert done + TextFields(sha, texts, paths[..0]) == done;
    while k < |paths|
      invariant 0 <= k <= |paths| && out == Fed(done + TextFields(sha, texts, paths[..k]))
    {
      assert paths[..k + 1][..k] == paths[..k];
      out := FeedAll(out, OneText(sha, paths[k], texts[paths[k]]), done + TextFields(sha, texts, paths[..k]));
      assert done + TextFields(sha, texts, paths[..k + 1]) == (done + TextFields(sha, texts, paths[..k])) + OneText(sha, paths[k], texts[paths[k]]);
      k := k + 1;
    }
    assert paths[..k] == paths;
  }

  /** `walk` is the order the hash map of texts is iterated in; whatever it is, the digest is the same. */
  method CanonicalDigest(sha: string -> string, p: EgressPacket, f: Profile, walk: seq<Path>) returns (digest: string)
    requires multiset(walk) == multiset(p.includedTexts.Keys)
    ensures digest == Digest(sha, p, f)
  {
    hide Fed, HexText, Front, Back, TextLeq, PathLeq, RefLeq, Names, RefFields, TextFields, TextPaths;
    FedNothing();
    var fed := FeedAll("", Front(p), []);
    ghost var done := Front(p);
    assert [] + done == done;
    var included := Sort(TextLeq, Names(p.includedFiles));
    fed := FeedEach(fed, IncludedFile, included, done);
    var excluded := Sort(TextLeq, Names(p.excludedFiles));
    fed := FeedEach(fed, ExcludedFile, excluded, done + Each(IncludedFile, included));
    var refs := Sort(RefLeq, p.includedRefs);
    fed := FeedRefs(fed, refs, done + Each(IncludedFile, included) + Each(ExcludedFile, excluded));
    var paths := Sort(PathLeq, walk);
    AnyWalk(p.includedTexts, walk);
    fed := FeedTexts(sha, fed, p.includedTexts, paths, done + Each(IncludedFile, included) + Each(ExcludedFile, excluded) + RefFields(refs));
    Reassociate(done, Each(IncludedFile, included), Each(ExcludedFile, excluded), RefFields(refs), TextFields(sha, p.includedTexts, paths));
    fed := FeedAll(fed, Back(f), done + Groups(sha, p));
    return HexText(sha(fed));
  }

  lemma Reassociate(a: seq<Entry>, b: seq<Entry>, c: seq<Entry>, d: seq<Entry>, e: seq<Entry>)
    ensures a + b + c + d + e == a + (b + c + d + e)
  {
  }

  lemma AnyWalk(texts: map<Path, string>, walk: seq<Path>)
    requires multiset(walk) == multiset(texts.Keys)
    ensures Sort(PathLeq, walk) == TextPaths(texts)
  {
    PathOrder();
    SortForgetsOrder(PathLeq, walk, Walked(texts.Keys));
  }
}

/**
 The composed system prompt.

 Four length-prefixed sections behind a magic line, and the parser that takes them apart again,
 whatever the sections contain.
 */
module PromptFrame {
  import opened Wrappers
  import opened Text
  import opened EgressTypes
  import Utf8

  const MAX_EDITABLE: nat := 32 * 1024
  const MAGIC := "CM_PROMPT_V1"
  const INVALID := "PROMPT_FRAME_INVALID"

  datatype RepositoryState = RepositoryState(
    repositoryId: Option<Uuid>,
    snapshotId: Option<Uuid>,
    status: Option<SnapshotStatus>,
    toolsAvailable: bool)

  datatype Input = Input(revision: Uuid, system: string, persona: string, repository: RepositoryState)

  datatype Catalog = Catalog(kernel: string, systems: seq<string>, personas: seq<string>)

  datatype Sections = Sections(kernel: string, system: string, persona: string, repository: string)

  predicate Loads(c: Catalog) {
    && c.kernel != ""
    && (forall i :: 0 <= i < |c.systems| ==> c.systems[i] != "")
    && (forall i :: 0 <= i < |c.personas| ==> c.personas[i] != "")
  }

  function IdText(id: Option<Uuid>): string {
    if id.Some? then UuidText(id.value) else "none"
  }

  function StatusText(status: Option<SnapshotStatus>): string {
    match status
    case None => "none"
    case Some(Ready) => "ready"
    case Some(Stale) => "stale"
    case Some(Indexing) => "indexing"
    case Some(Incomplete) => "incomplete"
  }

  /** Four fields, separated by semicolons. */
  function Fields(a: string, b: string, c: string, d: string): string {
    a + ";" + (b + ";" + (c + ";" + d))
  }

  function CanonicalText(r: RepositoryState): string {
    Fields("repository=" + IdText(r.repositoryId), "snapshot=" + IdText(r.snapshotId),
           "status=" + StatusText(r.status), "tools=" + if r.toolsAvailable then "available" else "unavailable")
  }

  /** The word for each status a repository can be in. */
  predicate StatusWord(status: Option<SnapshotStatus>, word: string) {
    && (status == None ==> word == "none") && (status == Some(Ready) ==> word == "ready") && (status == Some(Stale) ==> word == "stale")
    && (status == Some(Indexing) ==> word == "indexing") && (status == Some(Incomplete) ==> word == "incomplete")
  }

  /** The repository line, word for word. */
  lemma CanonicalTextIs(r: RepositoryState, word: string)
    requires StatusWord(r.status, word)
    ensures CanonicalText(r) ==
      "repository=" + (if r.repositoryId.Some? then UuidText(r.repositoryId.value) else "none") + ";"
      + ("snapshot=" + (if r.snapshotId.Some? then UuidText(r.snapshotId.value) else "none") + ";"
      + ("status=" + word + ";" + ("tools=" + if r.toolsAvailable then "available" else "unavailable")))
  {
    hide UuidText;
  }

  function Section(header: string, body: string): string {
    header + " " + Decimal(|body|) + "\n" + body + "\n"
  }

  method PushSection(target: string, header: string, body: string) returns (out: string)
    ensures out == target + Section(header, body)
  {
    out := target;
    out := out + header;
    out := out + " ";
    out := out + Decimal(|body|);
    out := out + "\n";
    out := out + body;
    out := out + "\n";
    assert out == target + Section(header, body);
  }

  function Composed(kernel: string, x: Input): string {
    MAGIC + "\n" + Section("KERNEL kernel.v1", kernel)
      + Section("SYSTEM " + UuidText(x.revision), x.system)
      + Section("PERSONA " + UuidText(x.revision), x.persona)
      + Section("REPOSITORY", CanonicalText(x.repository))
  }

  /** A section as it is spelled: its header and the number of bytes, then the bytes. */
  predicate Spelled(section: string, header: string, body: string) {
    section == header + " " + Decimal(|body|) + "\n" + body + "\n"
  }

  /** A composed prompt as it is spelled: the magic line and four sections, the last of them the repository line. */
  ghost predicate SpellsOut(kernel: string, x: Input, text: string) {
    exists k, s, p, r :: text == "CM_PROMPT_V1" + "\n" + k + s + p + r
      && Spelled(k, "KERNEL kernel.v1", kernel) && Spelled(s, "SYSTEM " + UuidText(x.revision), x.system)
      && Spelled(p, "PERSONA " + UuidText(x.revision), x.persona) && Spelled(r, "REPOSITORY", CanonicalText(x.repository))
  }

  lemma ComposedSpellsOut(kernel: string, x: Input)
    ensures SpellsOut(kernel, x, Composed(kernel, x))
  {
    hide UuidText, CanonicalText, Decimal;
    var k, s := Section("KERNEL kernel.v1", kernel), Section("SYSTEM " + UuidText(x.revision), x.system);
    var p, r := Section("PERSONA " + UuidText(x.revision), x.persona), Section("REPOSITORY", CanonicalText(x.repository));
    assert Spelled(k, "KERNEL kernel.v1", kernel) && Spelled(s, "SYSTEM " + UuidText(x.revision), x.system);
    assert Spelled(p, "PERSONA " + UuidText(x.revision), x.persona) && Spelled(r, "REPOSITORY", CanonicalText(x.repository));
  }

  /** Composing succeeds exactly for editable texts of at most 32 KiB and a loadable catalog. */
  method Compose(catalog: Catalog, x: Input) returns (r: Result<string>)
    ensures r.Ok? <==>
      && |x.system| <= 32 * 1024 && |x.persona| <= 32 * 1024 && catalog.kernel != ""
      && "" !in catalog.systems && "" !in catalog.personas
    ensures r.Ok? ==> r.value == Composed(catalog.kernel, x) && SpellsOut(catalog.kernel, x, r.value)
    ensures r.Err? ==> r.code == if |x.system| > 32 * 1024 || |x.persona| > 32 * 1024 then "PROMPT_TOO_LARGE" else "FACTORY_PROMPT_EMPTY"
  {
    hide SpellsOut;
    ComposedSpellsOut(catalog.kernel, x);
    if |x.system| > MAX_EDITABLE || |x.persona| > MAX_EDITABLE {
      return Err("PROMPT_TOO_LARGE");
    }
    if !Loads(catalog) {
      return Err("FACTORY_PROMPT_EMPTY");
    }
    var effective := MAGIC + "\n";
    effective := PushSection(effective, "KERNEL kernel.v1", catalog.kernel);
    effective := PushSection(effective, "SYSTEM " + UuidText(x.revision), x.system);
    effective := PushSection(effective, "PERSONA " + UuidText(x.revision), x.persona);
    effective := PushSection(effective, "REPOSITORY", CanonicalText(x.repository));
    return Ok(effective);
  }

  // The parser, as a function of the bytes that are still to be read.

  function ReadLineSpec(s: string): Result<(string, string)> {
    match Cut(s, '\n')
    case None => Err(INVALID)
    case Some((line, rest)) => if Utf8.Valid(line) then Ok((line, rest)) else Err(INVALID)
  }

  /** The body length a section header declares, if the header is of the expected shape. */
  function DeclaredLength(header: string, kind: string, tokenCount: nat): Option<nat> {
    var tokens := Split(header, ' ');
    if |tokens| != tokenCount || tokens[0] != kind then None else ParseUsize(tokens[|tokens| - 1])
  }

  function TakeBody(s: string, n: nat): Result<(string, string)> {
    if n >= |s| || s[n] != '\n' || !Utf8.Valid(s[..n]) then Err(INVALID) else Ok((s[..n], s[n + 1..]))
  }

  function ReadFrameSpec(s: string, kind: string, tokenCount: nat): Result<(string, string)> {
    match ReadLineSpec(s)
    case Err(code) => Err(code)
    case Ok((header, rest)) =>
      match DeclaredLength(header, kind, tokenCount)
      case None => Err(INVALID)
      case Some(n) => TakeBody(rest, n)
  }

  function ParseSpec(s: string): Result<Sections> {
    match ReadLineSpec(s)
    case Err(code) => Err(code)
    case Ok((magic, s0)) =>
      if magic != MAGIC then Err(INVALID)
      else match ReadFrameSpec(s0, "KERNEL", 3)
        case Err(code) => Err(code)
        case Ok((kernel, s1)) => match ReadFrameSpec(s1, "SYSTEM", 3)
          case Err(code) => Err(code)
          case Ok((system, s2)) => match ReadFrameSpec(s2, "PERSONA", 3)
            case Err(code) => Err(code)
            case Ok((persona, s3)) => match ReadFrameSpec(s3, "REPOSITORY", 2)
              case Err(code) => Err(code)
              case Ok((repository, s4)) =>
                if s4 != "" then Err(INVALID) else Ok(Sections(kernel, system, persona, repository))
  }

  // The parser, as the source runs it: a cursor over the whole byte string.

  method ReadLine(bytes: string, cursor: nat) returns (r: Result<string>, next: nat)
    requires cursor <= |bytes|
    ensures next <= |bytes|
    ensures match ReadLineSpec(bytes[cursor..])
            case Err(code) => r == Err(code)
            case Ok((line, rest)) => r == Ok(line) && bytes[next..] == rest
  {
    next := cursor;
    var end := cursor;
    while end < |bytes| && bytes[end] != '\n'
      invariant cursor <= end <= |bytes|
      invariant '\n' !in bytes[cursor..end]
    {
      end := end + 1;
    }
    if end == |bytes| {
      assert bytes[cursor..end] == bytes[cursor..];
      return Err(INVALID), next;
    }
    assert bytes[cursor..] == bytes[cursor..end] + ['\n'] + bytes[end + 1..];
    CutAt(bytes[cursor..end], '\n', bytes[end + 1..]);
    if !Utf8.Valid(bytes[cursor..end]) {
      return Err(INVALID), next;
    }
    return Ok(bytes[cursor..end]), end + 1;
  }

  method ReadFramedSection(bytes: string, cursor: nat, kind: string, tokenCount: nat)
    returns (r: Result<string>, next: nat)
    requires cursor <= |bytes| < U64_LIMIT
    ensures next <= |bytes|
    ensures match ReadFrameSpec(bytes[cursor..], kind, tokenCount)
            case Err(code) => r == Err(code)
            case Ok((body, rest)) => r == Ok(body) && bytes[next..] == rest
  {
    hide Utf8.Valid, Cut, TakeBody, DecimalValue, Split;
    var header;
    header, next := ReadLine(bytes, cursor);
    if header.Err? { return header, next; }
    var tokens := Split(header.value, ' ');
    if |tokens| != tokenCount || tokens[0] != kind {
      return Err(INVALID), next;
    }
    var length := ParseUsize(tokens[|tokens| - 1]);
    if length.None? { return Err(INVALID), next; }
    r, next := ReadBody(bytes, next, length.value);
  }

  method ReadBody(bytes: string, cursor: nat, length: nat) returns (r: Result<string>, next: nat)
    requires cursor <= |bytes| < U64_LIMIT
    ensures next <= |bytes|
    ensures match TakeBody(bytes[cursor..], length)
            case Err(code) => r == Err(code)
            case Ok((body, rest)) => r == Ok(body) && bytes[next..] == rest
  {
    next := cursor;
    var end := next + length;
    if end >= U64_LIMIT || end > |bytes| {
      return Err(INVALID), next;
    }
    var body := bytes[next..end];
    next := end;
    if next == |bytes| || bytes[next] != '\n' {
      return Err(INVALID), next;
    }
    next := next + 1;
    assert body == bytes[cursor..][..length];
    assert bytes[cursor..][length + 1..] == bytes[next..];
    if !Utf8.Valid(body) {
      return Err(INVALID), next;
    }
    return Ok(body), next;
  }

  method ParseComposition(bytes: string) returns (r: Result<Sections>)
    requires |bytes| < U64_LIMIT
    ensures r == ParseSpec(bytes)
  {
    assert bytes[0..] == bytes;
    var magic, cursor := ReadLine(bytes, 0);
    if magic.Err? { return Err(INVALID); }
    if magic.value != MAGIC { return Err(INVALID); }
    var kernel, system, persona, repository;
    kernel, cursor := ReadFramedSection(bytes, cursor, "KERNEL", 3);
    if kernel.Err? { return Err(kernel.code); }
    system, cursor := ReadFramedSection(bytes, cursor, "SYSTEM", 3);
    if system.Err? { return Err(system.code); }
    persona, cursor := ReadFramedSection(bytes, cursor, "PERSONA", 3);
    if persona.Err? { return Err(persona.code); }
    repository, cursor := ReadFramedSection(bytes, cursor, "REPOSITORY", 2);
    if repository.Err? { return Err(repository.code); }
    if cursor != |bytes| { return Err(INVALID); }
    return Ok(Sections(kernel.value, system.value, persona.value, repository.value));
  }

  // What the pair promises.

  /** A header as the composer writes it: a kind, perhaps a label, then the length. */
  predicate Header(header: string, kind: string, tokenCount: nat) {
    && '\n' !in header && Utf8.Ascii(header)
    && |Split(header, ' ')| == tokenCount - 1 && Split(header, ' ')[0] == kind
  }

  lemma {:induction false} SplitSnoc(s: string, c: char, last: string)
    requires c !in last
    ensures Split(s + [c] + last, c) == Split(s, c) + [last]
    decreases |s|
  {
    match Cut(s, c)
    case None =>
      CutAt(s, c, last);
      assert Split(last, c) == [last];
    case Some((before, after)) =>
      assert s + [c] + last == before + [c] + (after + [c] + last);
      CutAt(before, c, after + [c] + last);
      SplitSnoc(after, c, last);
  }

  lemma DeclaredLengthRoundTrip(header: string, kind: string, tokenCount: nat, n: nat)
    requires tokenCount >= 2 && Header(header, kind, tokenCount) && n < U64_LIMIT
    ensures DeclaredLength(header + [' '] + Decimal(n), kind, tokenCount) == Some(n)
  {
    SplitSnoc(header, ' ', Decimal(n));
    ParsePrinted(n);
  }

  lemma SectionShape(header: string, body: string, rest: string)
    ensures Section(header, body) + rest == (header + [' '] + Decimal(|body|)) + ['\n'] + (body + "\n" + rest)
  {
    hide Decimal;
    var line := header + " " + Decimal(|body|) + "\n";
    Assoc(line, body, "\n");
    Assoc(line, body + "\n", rest);
  }

  /** Reading back one section, whatever follows it and whatever its body imitates. */
  lemma FrameRoundTrip(header: string, kind: string, tokenCount: nat, body: string, rest: string)
    requires tokenCount >= 2 && Header(header, kind, tokenCount)
    requires Utf8.Valid(body) && |body| < U64_LIMIT
    ensures ReadFrameSpec(Section(header, body) + rest, kind, tokenCount) == Ok((body, rest))
  {
    hide *;
    var line := header + [' '] + Decimal(|body|);
    SectionShape(header, body, rest);
    HeaderLine(header, kind, tokenCount, |body|);
    CutAt(line, '\n', body + "\n" + rest);
    DeclaredLengthRoundTrip(header, kind, tokenCount, |body|);
    TakeBodyRoundTrip(body, rest);
    ReadFrameParts(Section(header, body) + rest, line, body + "\n" + rest, kind, tokenCount, |body|);
  }

  lemma HeaderLine(header: string, kind: string, tokenCount: nat, n: nat)
    requires Header(header, kind, tokenCount)
    ensures var line := header + [' '] + Decimal(n); '\n' !in line && Utf8.Valid(line)
  {
    hide Utf8.Valid, Split;
    Utf8.AsciiValid(header + [' '] + Decimal(n));
  }

  lemma TakeBodyRoundTrip(body: string, rest: string)
    requires Utf8.Valid(body)
    ensures TakeBody(body + "\n" + rest, |body|) == Ok((body, rest))
  {
    hide Utf8.Valid;
    var s := body + "\n" + rest;
    assert s[..|body|] == body && s[|body| + 1..] == rest;
  }

  lemma ReadFrameParts(s: string, line: string, after: string, kind: string, tokenCount: nat, n: nat)
    ensures Cut(s, '\n') == Some((line, after)) && Utf8.Valid(line) && DeclaredLength(line, kind, tokenCount) == Some(n) ==>
      ReadFrameSpec(s, kind, tokenCount) == TakeBody(after, n)
  {
    hide Cut, Utf8.Valid, DeclaredLength, TakeBody;
  }

  lemma LabelledHeader(kind: string, name: string)
    requires ' ' !in kind && '\n' !in kind && Utf8.Ascii(kind)
    requires ' ' !in name && '\n' !in name && Utf8.Ascii(name)
    ensures Header(kind + " " + name, kind, 3)
  {
    SplitFirst(kind, ' ', name);
    assert Split(name, ' ') == [name];
  }

  lemma SystemAndPersonaHeaders(revision: Uuid)
    ensures Header("SYSTEM " + UuidText(revision), "SYSTEM", 3)
    ensures Header("PERSONA " + UuidText(revision), "PERSONA", 3)
  {
    var id := UuidText(revision);
    assert "SYSTEM " + id == "SYSTEM" + " " + id && "PERSONA " + id == "PERSONA" + " " + id;
    LabelledHeader("SYSTEM", id);
    LabelledHeader("PERSONA", id);
  }

  lemma PlainHeader(kind: string)
    requires ' ' !in kind && '\n' !in kind && Utf8.Ascii(kind)
    ensures Header(kind, kind, 2)
  {
    assert Cut(kind, ' ') == None;
  }

  lemma FixedHeaders()
    ensures Header("KERNEL kernel.v1", "KERNEL", 3)
    ensures Header("REPOSITORY", "REPOSITORY", 2)
  {
    hide Header;
    assert "KERNEL kernel.v1" == "KERNEL" + " " + "kernel.v1";
    LabelledHeader("KERNEL", "kernel.v1");
    PlainHeader("REPOSITORY");
  }

  lemma IdTextIsPlain(id: Option<Uuid>)
    ensures Utf8.Ascii(IdText(id)) && ';' !in IdText(id) && |IdText(id)| <= 36
  {
  }

  lemma StatusTextIsPlain(status: Option<SnapshotStatus>)
    ensures Utf8.Ascii(StatusText(status)) && ';' !in StatusText(status) && |StatusText(status)| <= 10
  {
  }

  lemma FieldsPlain(a: string, b: string, c: string, d: string)
    requires Utf8.Ascii(a) && Utf8.Ascii(b) && Utf8.Ascii(c) && Utf8.Ascii(d)
    ensures Utf8.Ascii(Fields(a, b, c, d)) && |Fields(a, b, c, d)| == |a| + |b| + |c| + |d| + 3
  {
  }

  lemma CanonicalTextIsShortAscii(r: RepositoryState)
    ensures Utf8.Ascii(CanonicalText(r)) && |CanonicalText(r)| < 256
  {
    IdTextIsPlain(r.repositoryId);
    IdTextIsPlain(r.snapshotId);
    StatusTextIsPlain(r.status);
    FieldsPlain("repository=" + IdText(r.repositoryId), "snapshot=" + IdText(r.snapshotId),
                "status=" + StatusText(r.status), "tools=" + if r.toolsAvailable then "available" else "unavailable");
  }

  lemma Regroup(a: string, b: string, c: string, d: string, e: string)
    ensures a + b + c + d + e == a + (b + (c + (d + (e + ""))))
  {
    Assoc(a, b, c);
    Assoc(a, b + c, d);
    Assoc(a, b + c + d, e);
    Assoc(b, c, d);
    Assoc(b, c + d, e);
    Assoc(c, d, e);
    assert e + "" == e;
  }

  lemma ParseOfFrames(s: string, s1: string, s2: string, s3: string, p: Sections)
    ensures
      ReadFrameSpec(s, "KERNEL", 3) == Ok((p.kernel, s1)) && ReadFrameSpec(s1, "SYSTEM", 3) == Ok((p.system, s2))
      && ReadFrameSpec(s2, "PERSONA", 3) == Ok((p.persona, s3)) && ReadFrameSpec(s3, "REPOSITORY", 2) == Ok((p.repository, "")) ==>
      ParseSpec(MAGIC + ['\n'] + s) == Ok(p)
  {
    hide ReadFrameSpec, Cut, Utf8.Valid;
    Utf8.AsciiValid(MAGIC);
    CutAt(MAGIC, '\n', s);
  }

  /** Composing then parsing gives back exactly the four bodies and consumes every byte. */
  lemma ComposeParse(kernel: string, x: Input)
    requires Utf8.Valid(kernel) && |kernel| < U64_LIMIT
    requires Utf8.Valid(x.system) && |x.system| <= MAX_EDITABLE
    requires Utf8.Valid(x.persona) && |x.persona| <= MAX_EDITABLE
    ensures ParseSpec(Composed(kernel, x)) == Ok(Sections(kernel, x.system, x.persona, CanonicalText(x.repository)))
  {
    var repo := CanonicalText(x.repository);
    CanonicalTextIsShortAscii(x.repository);
    Utf8.AsciiValid(repo);
    FixedHeaders();
    SystemAndPersonaHeaders(x.revision);
    var h2, h3 := "SYSTEM " + UuidText(x.revision), "PERSONA " + UuidText(x.revision);
    var f1, f2 := Section("KERNEL kernel.v1", kernel), Section(h2, x.system);
    var f3, f4 := Section(h3, x.persona), Section("REPOSITORY", repo);
    FrameRoundTrip("KERNEL kernel.v1", "KERNEL", 3, kernel, f2 + (f3 + (f4 + "")));
    FrameRoundTrip(h2, "SYSTEM", 3, x.system, f3 + (f4 + ""));
    FrameRoundTrip(h3, "PERSONA", 3, x.persona, f4 + "");
    FrameRoundTrip("REPOSITORY", "REPOSITORY", 2, repo, "");
    Regroup(MAGIC + "\n", f1, f2, f3, f4);
    ParseOfFrames(f1 + (f2 + (f3 + (f4 + ""))), f2 + (f3 + (f4 + "")), f3 + (f4 + ""), f4 + "",
                  Sections(kernel, x.system, x.persona, repo));
  }

  lemma FieldsInjective(a: string, b: string, c: string, d: string, a': string, b': string, c': string, d': string)
    requires ';' !in a && ';' !in b && ';' !in c && ';' !in a' && ';' !in b' && ';' !in c'
    requires Fields(a, b, c, d) == Fields(a', b', c', d')
    ensures a == a' && b == b' && c == c' && d == d'
  {
    CutAt(a, ';', b + ";" + (c + ";" + d));
    CutAt(a', ';', b' + ";" + (c' + ";" + d'));
    CutAt(b, ';', c + ";" + d);
    CutAt(b', ';', c' + ";" + d');
    CutAt(c, ';', d);
    CutAt(c', ';', d');
  }

  /** The repository line names each field: equal lines come from equal states. */
  lemma CanonicalTextInjective(r: RepositoryState, q: RepositoryState)
    requires CanonicalText(r) == CanonicalText(q)
    ensures r == q
  {
    IdTextIsPlain(r.repositoryId);
    IdTextIsPlain(r.snapshotId);
    StatusTextIsPlain(r.status);
    IdTextIsPlain(q.repositoryId);
    IdTextIsPlain(q.snapshotId);
    StatusTextIsPlain(q.status);
    var rt := if r.toolsAvailable then "available" else "unavailable";
    var qt := if q.toolsAvailable then "available" else "unavailable";
    FieldsInjective("repository=" + IdText(r.repositoryId), "snapshot=" + IdText(r.snapshotId),
                    "status=" + StatusText(r.status), "tools=" + rt,
                    "repository=" + IdText(q.repositoryId), "snapshot=" + IdText(q.snapshotId),
                    "status=" + StatusText(q.status), "tools=" + qt);
    SamePrefixed("repository=", IdText(r.repositoryId), IdText(q.repositoryId));
    SamePrefixed("snapshot=", IdText(r.snapshotId), IdText(q.snapshotId));
    SamePrefixed("status=", StatusText(r.status), StatusText(q.status));
    SamePrefixed("tools=", rt, qt);
    IdTextInjective(r.repositoryId, q.repositoryId);
    IdTextInjective(r.snapshotId, q.snapshotId);
    StatusTextInjective(r.status, q.status);
    assert |"available"| != |"unavailable"|;
  }

  lemma SamePrefixed(prefix: string, a: string, b: string)
    requires prefix + a == prefix + b
    ensures a == b
  {
    assert (prefix + a)[|prefix|..] == a && (prefix + b)[|prefix|..] == b;
  }

  lemma IdTextInjective(a: Option<Uuid>, b: Option<Uuid>)
    requires IdText(a) == IdText(b)
    ensures a == b
  {
    assert a.Some? <==> |IdText(a)| == 36;
    assert b.Some? <==> |IdText(b)| == 36;
    if a.Some? {
      UuidTextInjective(a.value, b.value);
    }
  }

  lemma StatusTextInjective(a: Option<SnapshotStatus>, b: Option<SnapshotStatus>)
    requires StatusText(a) == StatusText(b)
    ensures a == b
  {
    var s, t := StatusText(a), StatusText(b);
    assert |s| == |t| && s[0] == t[0] && s[1] == t[1];
  }

  /** Equal composed prompts come from equal inputs, the revision label included. */
  lemma ComposeInjective(kernel: string, x: Input, y: Input)
    requires Utf8.Valid(kernel) && |kernel| < U64_LIMIT
    requires Utf8.Valid(x.system) && |x.system| <= MAX_EDITABLE && Utf8.Valid(x.persona) && |x.persona| <= MAX_EDITABLE
    requires Utf8.Valid(y.system) && |y.system| <= MAX_EDITABLE && Utf8.Valid(y.persona) && |y.persona| <= MAX_EDITABLE
    requires Composed(kernel, x) == Composed(kernel, y)
    ensures x == y
  {
    ComposeParse(kernel, x);
    ComposeParse(kernel, y);
    CanonicalTextInjective(x.repository, y.repository);
    var tx := RevisionPosition(kernel, x);
    var ty := RevisionPosition(kernel, y);
    var front := MAGIC + "\n" + Section("KERNEL kernel.v1", kernel) + "SYSTEM ";
    SamePrefixed(front, UuidText(x.revision) + tx, UuidText(y.revision) + ty);
    assert (UuidText(x.revision) + tx)[..36] == UuidText(x.revision);
    assert (UuidText(y.revision) + ty)[..36] == UuidText(y.revision);
    UuidTextInjective(x.revision, y.revision);
  }

  lemma RevisionPosition(kernel: string, x: Input) returns (tail: string)
    ensures Composed(kernel, x) == MAGIC + "\n" + Section("KERNEL kernel.v1", kernel) + "SYSTEM " + (UuidText(x.revision) + tail)
  {
    var id := UuidText(x.revision);
    var f3, f4 := Section("PERSONA " + id, x.persona), Section("REPOSITORY", CanonicalText(x.repository));
    tail := " " + Decimal(|x.system|) + "\n" + x.system + "\n" + f3 + f4;
    Pulled(MAGIC + "\n" + Section("KERNEL kernel.v1", kernel), "SYSTEM ", id, " " + Decimal(|x.system|) + "\n" + x.system + "\n", f3, f4);
    LabelledSection("SYSTEM ", id, x.system);
  }

  lemma Pulled(front: string, kind: string, id: string, back: string, f3: string, f4: string)
    ensures front + (kind + id + back) + f3 + f4 == front + kind + (id + (back + f3 + f4))
  {
    Assoc(kind, id, back);
    Assoc(front, kind, id + back);
    Assoc(front + kind, id + back, f3);
    Assoc(id, back, f3);
    Assoc(front + kind, id + (back + f3), f4);
    Assoc(id, back + f3, f4);
  }

  lemma LabelledSection(kind: string, id: string, body: string)
    ensures Section(kind + id, body) == kind + id + (" " + Decimal(|body|) + "\n" + body + "\n")
  {
    hide Decimal;
    Assoc(kind + id, " ", Decimal(|body|));
    Assoc(kind + id, " " + Decimal(|body|), "\n");
    Assoc(kind + id, " " + Decimal(|body|) + "\n", body);
    Assoc(kind + id, " " + Decimal(|body|) + "\n" + body, "\n");
  }

  /** A header line of `tokenCount` words, the first its kind, the last the length of its body. */
  predicate Declares(header: string, kind: string, tokenCount: nat, body: string) {
    var words := Split(header, ' ');
    && '\n' !in header && Utf8.Valid(body) && |words| == tokenCount && words[0] == kind
    && ParseUsize(words[|words| - 1]) == Some(|body|)
  }

  /** Whatever the parser accepts is a sequence of well-framed sections and nothing else. */
  lemma FrameSound(s: string, kind: string, tokenCount: nat) returns (header: string)
    requires ReadFrameSpec(s, kind, tokenCount).Ok?
    ensures var (body, rest) := ReadFrameSpec(s, kind, tokenCount).value;
            s == header + "\n" + body + "\n" + rest && Declares(header, kind, tokenCount, body)
  {
    var (line, rest0) := ReadLineSpec(s).value;
    header := line;
    var (body, rest) := ReadFrameSpec(s, kind, tokenCount).value;
    assert rest0 == body + "\n" + rest;
  }

  /** The text is the magic line and four sections: a header line, the body, a line feed. */
  predicate SpelledOut(s: string, p: Sections, h: seq<string>)
    requires |h| == 4
  {
    s == MAGIC + "\n" + (h[0] + "\n" + p.kernel + "\n" + (h[1] + "\n" + p.system + "\n" +
         (h[2] + "\n" + p.persona + "\n" + (h[3] + "\n" + p.repository + "\n"))))
  }

  /** Each header names its section and the length of its body. */
  predicate HeadersDeclare(p: Sections, h: seq<string>)
    requires |h| == 4
  {
    && Declares(h[0], "KERNEL", 3, p.kernel) && Declares(h[1], "SYSTEM", 3, p.system)
    && Declares(h[2], "PERSONA", 3, p.persona) && Declares(h[3], "REPOSITORY", 2, p.repository)
  }

  /** Whatever the composition parser accepts is spelled like a composition, to the last byte. */
  lemma ParseSound(s: string) returns (h: seq<string>)
    ensures ParseSpec(s).Ok? ==>
      |h| == 4 && SpelledOut(s, ParseSpec(s).value, h) && HeadersDeclare(ParseSpec(s).value, h)
  {
    hide Declares;
    if ParseSpec(s).Err? { return []; }
    var p := ParseSpec(s).value;
    var (_, s0) := ReadLineSpec(s).value;
    var (_, s1) := ReadFrameSpec(s0, "KERNEL", 3).value;
    var (_, s2) := ReadFrameSpec(s1, "SYSTEM", 3).value;
    var (_, s3) := ReadFrameSpec(s2, "PERSONA", 3).value;
    var h0 := FrameSound(s0, "KERNEL", 3);
    var h1 := FrameSound(s1, "SYSTEM", 3);
    var h2 := FrameSound(s2, "PERSONA", 3);
    var h3 := FrameSound(s3, "REPOSITORY", 2);
    h := [h0, h1, h2, h3];
    assert s3 == h3 + "\n" + p.repository + "\n";
  }
}

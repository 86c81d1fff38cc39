/** How what a repository tool finds is bounded, redacted and sealed with its size, and the gateway around it. */
module ToolResults {
  import opened Wrappers
  import opened Text
  import opened AgentTypes
  import opened ToolJson
  import opened EgressTypes
  import opened RepositoryTools
  import AgentWire
  import Utf8
  import Redaction
  import EntropyRedactor

  const MAX_OMISSIONS: nat := 128

  // Bounding.

  /** The longest prefix of at most `MAX_RESULT_BYTES` that ends between characters. */
  function CutPoint(content: string, end: nat): (r: nat)
    requires end <= |content|
    ensures r <= end && Utf8.Boundary(content, r) && forall e :: r < e <= end ==> !Utf8.Boundary(content, e)
  {
    if Utf8.Boundary(content, end) then end else CutPoint(content, end - 1)
  }

  function Bounded(content: string, omissions: seq<Omission>): (string, seq<Omission>) {
    if |content| <= MAX_RESULT_BYTES then (content, omissions)
    else
      var end := CutPoint(content, MAX_RESULT_BYTES);
      (content[..end], omissions + [Omission("ByteLimit", None, "TOOL_RESULT_BYTE_LIMIT", 0, |content| - end)])
  }

  method BoundContent(content: string, omissions: seq<Omission>) returns (kept: string, noted: seq<Omission>)
    ensures (kept, noted) == Bounded(content, omissions)
  {
    if |content| <= MAX_RESULT_BYTES { return content, omissions; }
    var end: nat := MAX_RESULT_BYTES;
    while !Utf8.Boundary(content, end)
      invariant end <= MAX_RESULT_BYTES && CutPoint(content, MAX_RESULT_BYTES) == CutPoint(content, end)
      decreases end
    {
      end := end - 1;
    }
    return content[..end], omissions + [Omission("ByteLimit", None, "TOOL_RESULT_BYTE_LIMIT", 0, |content| - end)];
  }

  /**
   Bounding keeps the longest prefix of whole characters that fits, gives up at most three bytes for
   that, and notes exactly how many bytes were dropped.
   */
  lemma BoundKeepsMost(content: string, omissions: seq<Omission>)
    requires Utf8.Valid(content)
    ensures var (kept, noted) := Bounded(content, omissions);
      && kept <= content && Utf8.Valid(kept) && |kept| <= 64 * 1024
      && (|content| <= MAX_RESULT_BYTES ==> kept == content && noted == omissions)
      && (|content| > MAX_RESULT_BYTES ==>
            && |kept| >= MAX_RESULT_BYTES - 3
            && (forall e :: |kept| < e <= MAX_RESULT_BYTES ==> !Utf8.Boundary(content, e))
            && noted == omissions + [Omission("ByteLimit", None, "TOOL_RESULT_BYTE_LIMIT", 0, |content| - |kept|)])
  {
    hide Utf8.Valid;
    if |content| > MAX_RESULT_BYTES {
      var end := CutPoint(content, MAX_RESULT_BYTES);
      Utf8.SplitValid(content, end);
      if end + 4 <= MAX_RESULT_BYTES {
        assert !Utf8.Boundary(content, end + 1) && !Utf8.Boundary(content, end + 2) && !Utf8.Boundary(content, end + 3);
        Utf8.AfterThreeTails(content, end + 1);
      }
    }
  }

  // Sealing.

  ghost function CleanRef(entropy: string -> real, r: SourceRef): SourceRef {
    r.(excerpt := TrimFeeds(Redaction.Redacted(entropy, r.excerpt)))
  }

  ghost function CleanRefs(entropy: string -> real, refs: seq<SourceRef>): seq<SourceRef> {
    seq(|refs|, i requires 0 <= i < |refs| => CleanRef(entropy, refs[i]))
  }

  /** Bounded, redacted, bounded again, and sized with a placeholder before the size is written in. */
  ghost function Sealed(entropy: string -> real, call: ToolCall, found: Found): Result<ToolResult> {
    var (c1, o1) := Bounded(found.content, found.omissions);
    var (c2, o2) := Bounded(Redaction.Redacted(entropy, c1), o1);
    var kept := if |o2| > MAX_OMISSIONS then o2[..MAX_OMISSIONS] else o2;
    var result := ToolResult(call.callId, call.snapshotId, c2, CleanRefs(entropy, found.refs), kept, U32_MAX);
    if !Encodable(result) then Err("TOOL_RESULT_ENCODE_FAILED")
    else if |Encode(result)| > MAX_RESULT_BYTES then Err("TOOL_RESULT_LIMIT_REACHED")
    else Ok(result.(contentBytes := |Encode(result)|))
  }

  /** A sealed result answers its call, and its size field covers its real JSON encoding. */
  lemma SizeCoversEncoding(entropy: string -> real, call: ToolCall, found: Found)
    ensures Sealed(entropy, call, found).Ok? ==>
      var r := Sealed(entropy, call, found).value;
      && r.callId == call.callId && r.snapshotId == call.snapshotId && |r.omissions| <= MAX_OMISSIONS
      && |r.content| < |Encode(r)| <= r.contentBytes <= MAX_RESULT_BYTES
      && |Encode(r)| == r.contentBytes - (10 - |Decimal(r.contentBytes)|)
  {
    hide Bounded, Redaction.Redacted, Encode, CleanRefs, Encodable;
    if Sealed(entropy, call, found).Ok? {
      var r := Sealed(entropy, call, found).value;
      assert r.(contentBytes := U32_MAX).(contentBytes := r.contentBytes) == r;
      PlaceholderCovers(r, r.contentBytes);
      EnvelopeNeedsRoom(r);
    }
  }

  /** Redacted content that had to be cut leaves no room for the rest of the encoding. */
  lemma CutContentIsRefused(entropy: string -> real, call: ToolCall, found: Found)
    ensures Utf8.Valid(Redaction.Redacted(entropy, Bounded(found.content, found.omissions).0)) && Sealed(entropy, call, found).Ok? ==>
      Sealed(entropy, call, found).value.content == Redaction.Redacted(entropy, Bounded(found.content, found.omissions).0)
  {
    hide Utf8.Valid, Bounded, Redaction.Redacted, Encode, CleanRefs, Encodable;
    var (c1, o1) := Bounded(found.content, found.omissions);
    if Utf8.Valid(Redaction.Redacted(entropy, c1)) && Sealed(entropy, call, found).Ok? {
      BoundKeepsMost(Redaction.Redacted(entropy, c1), o1);
      EnvelopeNeedsRoom(Sealed(entropy, call, found).value.(contentBytes := U32_MAX));
    }
  }

  lemma EnvelopeNeedsRoom(r: ToolResult)
    ensures |Encode(r)| > |r.content| + 36
  {
    hide Quoted, List, UuidText;
  }

  /** A reference as it was found, its excerpt redacted and without line feeds at its end. */
  ghost predicate Cleaned(entropy: string -> real, was: SourceRef, now: SourceRef) {
    && now.id == was.id && now.snapshotId == was.snapshotId && now.relativePath == was.relativePath
    && now.lineStart == was.lineStart && now.lineEnd == was.lineEnd && now.contentHash == was.contentHash
    && var redacted := Redaction.Redacted(entropy, was.excerpt);
       && now.excerpt <= redacted && (now.excerpt != "" ==> now.excerpt[|now.excerpt| - 1] != '\n')
       && forall i :: |now.excerpt| <= i < |redacted| ==> redacted[i] == '\n'
  }

  /** What a sealed result says of what was found: at most 128 omissions, 64 KiB in all, every reference cleaned. */
  ghost predicate SealsFound(entropy: string -> real, call: ToolCall, found: Found, r: ToolResult) {
    && r.callId == call.callId && r.snapshotId == call.snapshotId && |r.content| < r.contentBytes <= 64 * 1024 && |r.omissions| <= 128
    && (|found.content| <= 64 * 1024 && |Redaction.Redacted(entropy, found.content)| <= 64 * 1024 ==>
          && r.content == Redaction.Redacted(entropy, found.content)
          && r.omissions == if |found.omissions| <= 128 then found.omissions else found.omissions[..128])
    && |r.sourceRefs| == |found.refs| && forall i :: 0 <= i < |found.refs| ==> Cleaned(entropy, found.refs[i], r.sourceRefs[i])
  }

  lemma SealedSays(entropy: string -> real, call: ToolCall, found: Found)
    ensures Sealed(entropy, call, found).Ok? ==> SealsFound(entropy, call, found, Sealed(entropy, call, found).value)
  {
    hide Redaction.Redacted, Encode, Encodable, CutPoint, TrimFeeds;
    SizeCoversEncoding(entropy, call, found);
  }

  /**
   Seals what a tool found. Content cut after its redaction is never returned, so what is returned
   was redacted whole, and no token run in it qualifies as a secret.
   */
  method Seal(entropy: string -> real, call: ToolCall, found: Found) returns (r: Result<ToolResult>)
    requires IsText(found)
    ensures r == Sealed(entropy, call, found) && (r.Ok? ==> SealsFound(entropy, call, found, r.value))
    ensures r.Ok? ==> r.value.content == Redaction.Redacted(entropy, Bounded(found.content, found.omissions).0)
    ensures r.Ok? ==> EntropyRedactor.NoRunQualifies(entropy, r.value.content)
  {
    hide Utf8.Valid, Bounded, Redaction.Redacted, TextLines, Redaction.Scrubbed, Redaction.ScrubHits, EntropyRedactor.NoRunQualifies, Redaction.NoSecretRun, Redaction.Gives, TrimFeeds, Encode, Encodable, SealsFound, CutPoint;
    SealedSays(entropy, call, found);
    BoundKeepsMost(found.content, found.omissions);
    var content, omissions := BoundContent(found.content, found.omissions);
    var redacted, _ := Redaction.ScanAndRedactSecrets(entropy, content);
    if Sealed(entropy, call, found).Ok? { CutContentIsRefused(entropy, call, found); }
    content, omissions := BoundContent(redacted, omissions);
    var refs: seq<SourceRef> := [];
    var k := 0;
    while k < |found.refs|
      invariant 0 <= k <= |found.refs| && refs == CleanRefs(entropy, found.refs[..k])
    {
      var excerpt, _ := Redaction.ScanAndRedactSecrets(entropy, found.refs[k].excerpt);
      refs := refs + [found.refs[k].(excerpt := TrimFeeds(excerpt))];
      assert CleanRefs(entropy, found.refs[..k + 1]) == CleanRefs(entropy, found.refs[..k]) + [CleanRef(entropy, found.refs[k])];
      k := k + 1;
    }
    assert found.refs[..k] == found.refs;
    if |omissions| > MAX_OMISSIONS { omissions := omissions[..MAX_OMISSIONS]; }
    var result := ToolResult(call.callId, call.snapshotId, content, refs, omissions, U32_MAX);
    if !Encodable(result) { return Err("TOOL_RESULT_ENCODE_FAILED"); }
    var size := |Encode(result)|;
    if size > MAX_RESULT_BYTES { return Err("TOOL_RESULT_LIMIT_REACHED"); }
    return Ok(result.(contentBytes := size));
  }

  /** What the gateway stands for: one snapshot, and whether the repository has changed since. */
  datatype Gateway = Gateway(info: SnapshotInfo, stale: bool)

  /** Why a call is refused before its tool runs. */
  function Refusal(gateway: Gateway, call: ToolCall, cancelled: bool): Option<string> {
    if call.snapshotId != gateway.info.id then Some("TOOL_SNAPSHOT_MISMATCH")
    else if AgentWire.NameOf(call.arguments) != call.name then Some("TOOL_ARGUMENT_VARIANT_MISMATCH")
    else if !call.name.RepoStatus? && (!gateway.info.status.Ready? || gateway.stale) then Some("REPOSITORY_REINDEX_REQUIRED")
    else if cancelled then Some("CANCELLED")
    else None
  }

  /** File bodies are text, and the hashes the scan recorded are printed in ASCII. */
  ghost predicate GivesText(tools: Tools) {
    && (forall path :: tools.lib.read(path).Ok? ==> Utf8.Valid(tools.lib.read(path).value))
    && (forall i :: 0 <= i < |tools.files| ==> Utf8.Ascii(tools.files[i].contentHash))
  }

  /** What the six tools answer; `cancelled(k)` is the flag as a tool finds it at its k-th look. */
  ghost function Answered(gateway: Gateway, tools: Tools, a: Arguments, cancelled: nat -> bool): Result<Found> {
    match a
    case RepoStatusArgs => Ok(StatusFound(gateway.info, gateway.stale))
    case ListTreeArgs(path, depth, limit) => TreeListed(tools.files, path, depth, limit)
    case SearchPathsArgs(query, limit) => PathsFound(tools.files, tools.lower, query, limit)
    case SearchTextArgs(query, filter, limit) => TextFound(tools, gateway.info.id, query, filter, limit, cancelled)
    case ReadFileLinesArgs(path, start, end) => LinesRead(tools.lib, tools.files, gateway.info.id, tools.freshId(0), path, start, end, cancelled(0))
    case FileMetadataArgs(path) => MetadataFound(tools.files, path)
  }

  /** What each tool answers with. */
  ghost predicate Answers(gateway: Gateway, tools: Tools, a: Arguments, cancelled: nat -> bool, found: Found) {
    match a
    case RepoStatusArgs => found == StatusFound(gateway.info, gateway.stale)
    case ListTreeArgs(path, depth, limit) =>
      ListsExactly(tools.files, Below(if path.Some? then path.value else "", if depth < 1 then 1 else if depth > 4 then 4 else depth),
                   if limit < 1 then 1 else if limit > 500 then 500 else limit, "LIST_TREE_LIMIT", found)
    case SearchPathsArgs(query, limit) =>
      ListsExactly(tools.files, Named(tools.lower, query), if limit < 1 then 1 else if limit > 100 then 100 else limit, "SEARCH_PATHS_LIMIT", found)
    case SearchTextArgs(query, filter, limit) => FindsOnly(tools, gateway.info.id, query, filter, limit, found)
    case ReadFileLinesArgs(path, start, end) => NamesLines(tools.lib, tools.files, found, path, start, end) && !cancelled(0)
    case FileMetadataArgs(path) => exists i: nat :: Listing(tools.files, path, i) && found == Found(MetadataText(tools.files[i]), [], [])
  }

  lemma MetadataAnswers(files: seq<FileEntry>, path: string)
    ensures MetadataFound(files, path).Ok? ==>
      exists i: nat :: Listing(files, path, i) && MetadataFound(files, path).value == Found(MetadataText(files[i]), [], [])
  {
    hide MetadataText, Utf8.Valid, Listing;
    FileAtIs(files, path);
  }

  method RunTool(gateway: Gateway, tools: Tools, a: Arguments, cancelled: nat -> bool) returns (r: Result<Found>)
    requires GivesText(tools)
    ensures r == Answered(gateway, tools, a, cancelled) && (r.Ok? ==> IsText(r.value) && Answers(gateway, tools, a, cancelled, r.value))
  {
    hide IsText, StatusFound, TreeListed, PathsFound, TextFound, LinesRead, MetadataFound, NamesLines, Utf8.Valid;
    hide ListsExactly, Below, Named, FindsOnly, Readable, ReadRefused, Listing, MetadataText, Utf8.Blank;
    match a {
      case RepoStatusArgs =>
        StatusIsText(gateway.info, gateway.stale);
        r := Ok(StatusFound(gateway.info, gateway.stale));
      case ListTreeArgs(path, depth, limit) => r := RepositoryTools.ListTree(tools.files, path, depth, limit);
      case SearchPathsArgs(query, limit) => r := RepositoryTools.SearchPaths(tools.files, tools.lower, query, limit);
      case SearchTextArgs(query, filter, limit) =>
        FoundIsEligible(tools, gateway.info.id, query, filter, limit, cancelled);
        r := RepositoryTools.SearchText(tools, gateway.info.id, query, filter, limit, cancelled);
      case ReadFileLinesArgs(path, start, end) =>
        r := RepositoryTools.ReadFileLines(tools.lib, tools.files, gateway.info.id, tools.freshId(0), path, start, end, cancelled(0));
      case FileMetadataArgs(path) =>
        MetadataIsText(tools.files, path);
        MetadataAnswers(tools.files, path);
        r := MetadataFound(tools.files, path);
    }
  }

  /** The arguments are those of the tool called. */
  predicate OwnArguments(call: ToolCall) {
    && (call.arguments.RepoStatusArgs? <==> call.name == RepoStatus) && (call.arguments.ListTreeArgs? <==> call.name == ListTree)
    && (call.arguments.SearchPathsArgs? <==> call.name == SearchPaths) && (call.arguments.SearchTextArgs? <==> call.name == SearchText)
    && (call.arguments.ReadFileLinesArgs? <==> call.name == ReadFileLines) && (call.arguments.FileMetadataArgs? <==> call.name == FileMetadata)
  }

  /**
   One tool call. Nothing but the status is answered from a stale or partial snapshot. The
   cancellation flag is read before the tool runs (`cancelled`), and by the tool (`later`).
   */
  method Execute(gateway: Gateway, tools: Tools, call: ToolCall, cancelled: bool, later: nat -> bool) returns (r: Result<ToolResult>)
    requires GivesText(tools)
    ensures r == match Refusal(gateway, call, cancelled)
                 case Some(code) => Err(code)
                 case None => match Answered(gateway, tools, call.arguments, later)
                   case Err(code) => Err(code)
                   case Ok(found) => Sealed(tools.lib.entropy, call, found)
    ensures r.Ok? ==> r.value.snapshotId == gateway.info.id && r.value.callId == call.callId
    ensures call.snapshotId != gateway.info.id ==> r == Err("TOOL_SNAPSHOT_MISMATCH")
    ensures call.snapshotId == gateway.info.id && !OwnArguments(call) ==> r == Err("TOOL_ARGUMENT_VARIANT_MISMATCH")
    ensures call.snapshotId == gateway.info.id && OwnArguments(call) ==>
      && (call.name != RepoStatus && (gateway.info.status != Ready || gateway.stale) ==> r == Err("REPOSITORY_REINDEX_REQUIRED"))
      && (cancelled && (call.name == RepoStatus || (gateway.info.status == Ready && !gateway.stale)) ==> r == Err("CANCELLED"))
    ensures r.Ok? ==> exists found :: Answers(gateway, tools, call.arguments, later, found) && SealsFound(tools.lib.entropy, call, found, r.value)
    ensures r.Ok? && (gateway.stale || !gateway.info.status.Ready?) ==> call.name.RepoStatus?
    ensures r.Ok? ==> EntropyRedactor.NoRunQualifies(tools.lib.entropy, r.value.content)
  {
    hide Sealed, EntropyRedactor.NoRunQualifies, Utf8.Valid, GivesText, Answered, IsText, Answers, SealsFound;
    if call.snapshotId != gateway.info.id { return Err("TOOL_SNAPSHOT_MISMATCH"); }
    if AgentWire.NameOf(call.arguments) != call.name { return Err("TOOL_ARGUMENT_VARIANT_MISMATCH"); }
    if call.name != RepoStatus && (gateway.info.status != Ready || gateway.stale) { return Err("REPOSITORY_REINDEX_REQUIRED"); }
    if cancelled { return Err("CANCELLED"); }
    var found := RunTool(gateway, tools, call.arguments, later);
    if found.Err? { return Err(found.code); }
    r := Seal(tools.lib.entropy, call, found.value);
    if r.Ok? { SizeCoversEncoding(tools.lib.entropy, call, found.value); }
  }
}

/** The values an agent turn passes around: messages, tool calls and results, events. */
module AgentTypes {
  import opened Wrappers
  import opened Text

  /** The largest tool result, and the largest file a tool searches. */
  const MAX_RESULT_BYTES: nat := 64 * 1024

  datatype ToolName = RepoStatus | ListTree | SearchPaths | SearchText | ReadFileLines | FileMetadata

  datatype Arguments =
    | RepoStatusArgs
    | ListTreeArgs(treePath: Option<string>, depth: nat, treeLimit: nat)
    | SearchPathsArgs(pathQuery: string, pathLimit: nat)
    | SearchTextArgs(textQuery: string, pathFilter: Option<string>, textLimit: nat)
    | ReadFileLinesArgs(readPath: string, startLine: nat, endLine: nat)
    | FileMetadataArgs(metadataPath: string)

  datatype ToolCall = ToolCall(callId: Uuid, snapshotId: Uuid, name: ToolName, arguments: Arguments)

  datatype SourceRef = SourceRef(
    id: Uuid, snapshotId: Uuid, relativePath: string,
    lineStart: nat, lineEnd: nat, contentHash: string, excerpt: string)

  datatype CallRecord = CallRecord(
    callId: Uuid, round: nat, name: ToolName, argumentsDigest: string,
    resultDigest: string, contentBytes: nat, sourceRefIds: seq<Uuid>)

  datatype GroundingTrace = GroundingTrace(
    id: Uuid, conversationId: Uuid, turnId: Uuid, snapshotId: Option<Uuid>,
    toolCalls: seq<CallRecord>, sourceRefs: seq<SourceRef>, receiptIds: seq<Uuid>)

  function IdsOf(refs: seq<SourceRef>): seq<Uuid> {
    seq(|refs|, i requires 0 <= i < |refs| => refs[i].id)
  }

  datatype Omission = Omission(reason: string, relativePath: Option<string>, detail: string, count: nat, bytes: nat)

  datatype ToolResult = ToolResult(
    callId: Uuid, snapshotId: Uuid, content: string,
    sourceRefs: seq<SourceRef>, omissions: seq<Omission>, contentBytes: nat)

  /** JSON values, with numbers seen through `as_u64`. */
  datatype Json =
    | JNull
    | JBool(b: bool)
    | JNumber(unsigned: Option<nat>)
    | JString(text: string)
    | JArray(items: seq<Json>)
    | JObject(fields: map<string, Json>)

  function Field(v: Json, key: string): Option<Json> {
    if v.JObject? && key in v.fields then Some(v.fields[key]) else None
  }

  /** One step of `Value::pointer` with the token `0`: an array's first item or the field named `0`. */
  function First(v: Json): Option<Json> {
    if v.JArray? && |v.items| > 0 then Some(v.items[0]) else Field(v, "0")
  }

  function FieldOf(v: Option<Json>, key: string): Option<Json> {
    if v.Some? then Field(v.value, key) else None
  }

  function StringOf(v: Option<Json>): Option<string> {
    if v.Some? && v.value.JString? then Some(v.value.text) else None
  }

  datatype Role = System | User | Assistant | Tool

  datatype Content = SayText(text: string) | CallTools(calls: seq<ToolCall>) | ToolReply(result: ToolResult)

  datatype Message = Message(role: Role, content: Content, providerParts: Option<seq<Json>>)

  datatype RoundEvent =
    | RoundStarted
    | ProviderToolParts(parts: seq<Json>)
    | RoundThinking(thinking: string)
    | RoundText(delta: string)
    | RoundUsage(promptTokens: nat, completionTokens: nat)
    | ToolCallsRequested(calls: seq<ToolCall>)
    | RawCompleted(fullText: string)
    | RoundFailed(code: string)

  /** The events after which a round says nothing more. */
  predicate EndsRound(e: RoundEvent) {
    e.ToolCallsRequested? || e.RawCompleted? || e.RoundFailed?
  }

  predicate NoneEnds(events: seq<RoundEvent>) {
    forall i :: 0 <= i < |events| ==> !EndsRound(events[i])
  }

  /** All the text a sequence of events has streamed, in order. */
  function StreamedText(events: seq<RoundEvent>): string {
    if events == [] then ""
    else (if events[0].RoundText? then events[0].delta else "") + StreamedText(events[1..])
  }

  lemma {:induction false} StreamedTextAppend(a: seq<RoundEvent>, b: seq<RoundEvent>)
    ensures StreamedText(a + b) == StreamedText(a) + StreamedText(b)
  {
    hide StreamedText;
    if a == [] {
      StreamedNone();
      assert a + b == b && "" + StreamedText(b) == StreamedText(b);
    } else {
      StreamedTextAppend(a[1..], b);
      StreamedCons(a[0], a[1..]);
      StreamedCons(a[0], a[1..] + b);
      assert a == [a[0]] + a[1..] && a + b == [a[0]] + (a[1..] + b);
      var first := if a[0].RoundText? then a[0].delta else "";
      assert (first + StreamedText(a[1..])) + StreamedText(b) == first + (StreamedText(a[1..]) + StreamedText(b));
    }
  }

  lemma StreamedNone()
    ensures StreamedText([]) == ""
  {
  }

  lemma StreamedCons(e: RoundEvent, rest: seq<RoundEvent>)
    ensures StreamedText([e] + rest) == (if e.RoundText? then e.delta else "") + StreamedText(rest)
  {
    assert ([e] + rest)[1..] == rest;
  }

  lemma StreamedTextSnoc(a: seq<RoundEvent>, e: RoundEvent)
    ensures StreamedText(a + [e]) == StreamedText(a) + if e.RoundText? then e.delta else ""
  {
    hide StreamedText;
    StreamedTextAppend(a, [e]);
    StreamedCons(e, []);
    StreamedNone();
    assert [e] + [] == [e];
  }

  /**
   What a backend's round promises the loop: an end event is the last event, and a completed text
   is the concatenation of the deltas streamed before it.
   */
  predicate LawfulRound(events: seq<RoundEvent>) {
    forall i :: 0 <= i < |events| && EndsRound(events[i]) ==>
      i == |events| - 1 && (events[i].RawCompleted? ==> events[i].fullText == StreamedText(events[..i]))
  }

  /** No list of requested calls is longer than `n`. */
  predicate RequestsAtMost(n: nat, events: seq<RoundEvent>) {
    forall i :: 0 <= i < |events| && events[i].ToolCallsRequested? ==> |events[i].calls| <= n
  }

  function WireName(name: ToolName): string {
    match name
    case RepoStatus => "repo_status"
    case ListTree => "list_tree"
    case SearchPaths => "search_paths"
    case SearchText => "search_text"
    case ReadFileLines => "read_file_lines"
    case FileMetadata => "file_metadata"
  }
}

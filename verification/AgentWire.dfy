/** Encoding a message history for a provider, and decoding the tool calls a provider sends. */
module AgentWire {
  import opened Wrappers
  import opened Text
  import opened AgentTypes
  import opened History
  import Whitespace

  const ROLE_INVALID := "AGENT_MESSAGE_ROLE_INVALID"
  const PARTS_INVALID := "PROVIDER_CONTINUATION_INVALID"
  const CALL_MISSING := "AGENT_TOOL_CALL_MISSING"

  datatype WireCall = WireCall(id: string, name: string, arguments: Json)

  datatype WireMessage =
    | WireSystem(text: string)
    | WireUser(text: string)
    | WireAssistant(text: string)
    | WireCalls(calls: seq<WireCall>)
    | WireReply(callId: string, payload: ToolResult)

  datatype GeminiContent =
    | GeminiText(fromModel: bool, text: string)
    | GeminiParts(parts: seq<Json>)
    | GeminiCalls(calls: seq<(string, Json)>)
    | GeminiReply(name: string, nativeId: Option<string>, payload: ToolResult)

  predicate RoleFits(m: Message) {
    match m.content
    case SayText(_) => m.role.User? || m.role.Assistant?
    case CallTools(_) => m.role.Assistant?
    case ToolReply(_) => m.role.Tool?
  }

  function OptionalPath(path: Option<string>): Json {
    if path.Some? then JString(Slashed(path.value)) else JNull
  }

  function Number(n: nat): Json {
    JNumber(Some(n))
  }

  function ArgumentsJson(a: Arguments): Json {
    match a
    case RepoStatusArgs => JObject(map[])
    case ListTreeArgs(path, depth, limit) => JObject(map["relative_path" := OptionalPath(path), "depth" := Number(depth), "limit" := Number(limit)])
    case SearchPathsArgs(query, limit) => JObject(map["query" := JString(query), "limit" := Number(limit)])
    case SearchTextArgs(query, filter, limit) =>
      JObject(map["query" := JString(query), "path_filter" := if filter.Some? then JString(filter.value) else JNull, "limit" := Number(limit)])
    case ReadFileLinesArgs(path, start, end) => JObject(map["relative_path" := JString(Slashed(path)), "start_line" := Number(start), "end_line" := Number(end)])
    case FileMetadataArgs(path) => JObject(map["relative_path" := JString(Slashed(path))])
  }

  function ToWire(m: Message): WireMessage
    requires RoleFits(m)
  {
    match m.content
    case SayText(text) => if m.role.User? then WireUser(text) else WireAssistant(text)
    case CallTools(calls) =>
      WireCalls(seq(|calls|, i requires 0 <= i < |calls| => WireCall(UuidText(calls[i].callId), WireName(calls[i].name), ArgumentsJson(calls[i].arguments))))
    case ToolReply(result) => WireReply(UuidText(result.callId), result)
  }

  // What encoded messages say.

  /** The word a provider knows each tool by. */
  predicate IsToolWord(name: ToolName, word: string) {
    && (name == RepoStatus ==> word == "repo_status") && (name == ListTree ==> word == "list_tree")
    && (name == SearchPaths ==> word == "search_paths") && (name == SearchText ==> word == "search_text")
    && (name == ReadFileLines ==> word == "read_file_lines") && (name == FileMetadata ==> word == "file_metadata")
  }

  predicate SaysText(fields: map<string, Json>, key: string, text: Option<string>) {
    key in fields && fields[key] == if text.Some? then JString(text.value) else JNull
  }

  predicate SaysNumber(fields: map<string, Json>, key: string, n: nat) {
    key in fields && fields[key] == JNumber(Some(n))
  }

  /** Arguments as the model sees them echoed: paths with slashes, each value under its own key. */
  predicate SaysArguments(j: Json, a: Arguments) {
    && j.JObject? && var f := j.fields;
    match a
    case RepoStatusArgs => f == map[]
    case ListTreeArgs(path, depth, limit) =>
      && f.Keys == {"relative_path", "depth", "limit"} && SaysNumber(f, "depth", depth) && SaysNumber(f, "limit", limit)
      && SaysText(f, "relative_path", if path.Some? then Some(Slashed(path.value)) else None)
    case SearchPathsArgs(query, limit) => f.Keys == {"query", "limit"} && SaysText(f, "query", Some(query)) && SaysNumber(f, "limit", limit)
    case SearchTextArgs(query, filter, limit) =>
      && f.Keys == {"query", "path_filter", "limit"} && SaysText(f, "query", Some(query)) && SaysText(f, "path_filter", filter)
      && SaysNumber(f, "limit", limit)
    case ReadFileLinesArgs(path, start, end) =>
      && f.Keys == {"relative_path", "start_line", "end_line"} && SaysText(f, "relative_path", Some(Slashed(path)))
      && SaysNumber(f, "start_line", start) && SaysNumber(f, "end_line", end)
    case FileMetadataArgs(path) => f.Keys == {"relative_path"} && SaysText(f, "relative_path", Some(Slashed(path)))
  }

  lemma ArgumentsAreSaid(a: Arguments)
    ensures SaysArguments(ArgumentsJson(a), a)
  {
  }

  lemma ToolsHaveWords(name: ToolName)
    ensures IsToolWord(name, WireName(name))
  {
  }

  /** A message that goes with its role: text with a user or the assistant, calls with the assistant, results with the tool. */
  predicate InRole(m: Message) {
    || (m.content.SayText? && (m.role == User || m.role == Assistant))
    || (m.content.CallTools? && m.role == Assistant)
    || (m.content.ToolReply? && m.role == Tool)
  }

  /** An OpenAI message and the message it stands for. */
  predicate WiresAs(m: Message, w: WireMessage) {
    && (m.content.SayText? ==> w == if m.role == User then WireUser(m.content.text) else WireAssistant(m.content.text))
    && (m.content.ToolReply? ==> w == WireReply(UuidText(m.content.result.callId), m.content.result))
    && (m.content.CallTools? ==>
          && w.WireCalls? && |w.calls| == |m.content.calls|
          && forall i :: 0 <= i < |w.calls| ==>
               var asked, call := m.content.calls[i], w.calls[i];
               call.id == UuidText(asked.callId) && IsToolWord(asked.name, call.name) && SaysArguments(call.arguments, asked.arguments))
  }

  lemma WiredAs(m: Message)
    requires RoleFits(m)
    ensures InRole(m) && WiresAs(m, ToWire(m))
  {
    hide SaysArguments, IsToolWord, ArgumentsJson, WireName, UuidText;
    if m.content.CallTools? {
      forall i | 0 <= i < |m.content.calls|
        ensures IsToolWord(m.content.calls[i].name, WireName(m.content.calls[i].name))
        ensures SaysArguments(ArgumentsJson(m.content.calls[i].arguments), m.content.calls[i].arguments)
      {
        ToolsHaveWords(m.content.calls[i].name);
        ArgumentsAreSaid(m.content.calls[i].arguments);
      }
    }
  }

  /** The OpenAI body: the system prompt, then one wire message per message, or a role error. */
  method OpenAiMessages(system: string, messages: seq<Message>) returns (r: Result<seq<WireMessage>>)
    ensures r.Ok? <==> forall k :: 0 <= k < |messages| ==> RoleFits(messages[k])
    ensures r.Ok? <==> forall k :: 0 <= k < |messages| ==> InRole(messages[k])
    ensures r.Err? ==> r.code == "AGENT_MESSAGE_ROLE_INVALID"
    ensures r.Ok? ==> |r.value| == |messages| + 1 && r.value[0] == WireSystem(system)
    ensures r.Ok? ==> forall k :: 0 <= k < |messages| ==> r.value[k + 1] == ToWire(messages[k]) && WiresAs(messages[k], r.value[k + 1])
  {
    hide WiresAs, WireName, ArgumentsJson, UuidText;
    var wire := [WireSystem(system)];
    var k := 0;
    while k < |messages|
      invariant 0 <= k <= |messages| && |wire| == k + 1 && wire[0] == WireSystem(system)
      invariant forall i :: 0 <= i < k ==> RoleFits(messages[i]) && wire[i + 1] == ToWire(messages[i]) && WiresAs(messages[i], wire[i + 1])
    {
      if !RoleFits(messages[k]) { return Err(ROLE_INVALID); }
      WiredAs(messages[k]);
      wire := wire + [ToWire(messages[k])];
      k := k + 1;
    }
    return Ok(wire);
  }

  function CallIds(calls: seq<ToolCall>): set<Uuid> {
    set i | 0 <= i < |calls| :: calls[i].callId
  }

  /** The ids of every call made in a history. */
  function KnownIds(ms: seq<Message>): set<Uuid> {
    if ms == [] then {}
    else KnownIds(ms[..|ms| - 1]) + if ms[|ms| - 1].content.CallTools? then CallIds(ms[|ms| - 1].content.calls) else {}
  }

  /** What the Gemini encoding asks of the message at position `k`. */
  predicate GeminiFits(ms: seq<Message>, k: nat)
    requires k < |ms|
  {
    && RoleFits(ms[k])
    && (ms[k].content.CallTools? ==> PartsMatch(ms[k].providerParts, ms[k].content.calls))
    && (ms[k].content.ToolReply? ==> ms[k].content.result.callId in KnownIds(ms[..k]))
  }

  /** The position of the last call with this id. */
  function LastCall(calls: seq<ToolCall>, id: Uuid): (r: Option<nat>)
    ensures r.Some? ==> r.value < |calls| && calls[r.value].callId == id
    ensures r.None? <==> id !in CallIds(calls)
  {
    if calls == [] then None
    else
      var last := |calls| - 1;
      assert CallIds(calls) == CallIds(calls[..last]) + {calls[last].callId} by { CallIdsSnoc(calls[..last], calls[last], calls); }
      if calls[last].callId == id then Some(last) else LastCall(calls[..last], id)
  }

  lemma CallIdsSnoc(front: seq<ToolCall>, call: ToolCall, calls: seq<ToolCall>)
    requires calls == front + [call]
    ensures CallIds(calls) == CallIds(front) + {call.callId}
  {
    assert forall j :: 0 <= j < |front| ==> calls[j] == front[j];
    assert calls[|front|] == call;
  }

  /** The name of the tool that was last called under this id. */
  function CallName(ms: seq<Message>, id: Uuid): (r: Option<string>)
    ensures r.Some? <==> id in KnownIds(ms)
  {
    if ms == [] then None
    else
      var last := ms[|ms| - 1];
      var i := if last.content.CallTools? then LastCall(last.content.calls, id) else None;
      if i.Some? then Some(WireName(last.content.calls[i.value].name)) else CallName(ms[..|ms| - 1], id)
  }

  /** The id the provider itself gave a call, as its continuation part tells. */
  function NativeIdOf(part: Json): Option<string> {
    StringOf(FieldOf(Field(part, "functionCall"), "id"))
  }

  function LastNative(calls: seq<ToolCall>, parts: seq<Json>, id: Uuid): Option<string> {
    var last := |calls| - 1;
    if calls == [] || |parts| != |calls| then None
    else if calls[last].callId == id && NativeIdOf(parts[last]).Some? then NativeIdOf(parts[last])
    else LastNative(calls[..last], parts[..last], id)
  }

  /** The provider's own id last told for calls under this id. */
  function NativeId(ms: seq<Message>, id: Uuid): Option<string> {
    if ms == [] then None
    else
      var last := ms[|ms| - 1];
      var native :=
        if last.content.CallTools? && last.providerParts.Some? then LastNative(last.content.calls, last.providerParts.value, id) else None;
      if native.Some? then native else NativeId(ms[..|ms| - 1], id)
  }

  function CallsWithArguments(calls: seq<ToolCall>): seq<(string, Json)> {
    seq(|calls|, i requires 0 <= i < |calls| => (WireName(calls[i].name), ArgumentsJson(calls[i].arguments)))
  }

  /** What the message at position `k` is encoded as: a result names the call it answers, by what was said before. */
  function ToGemini(ms: seq<Message>, k: nat): GeminiContent
    requires k < |ms| && GeminiFits(ms, k)
  {
    match ms[k].content
    case SayText(text) => GeminiText(ms[k].role.Assistant?, text)
    case CallTools(calls) => if ms[k].providerParts.Some? then GeminiParts(ms[k].providerParts.value) else GeminiCalls(CallsWithArguments(calls))
    case ToolReply(result) => GeminiReply(CallName(ms[..k], result.callId).value, NativeId(ms[..k], result.callId), result)
  }

  function Lookup(entries: map<Uuid, string>, id: Uuid): Option<string> {
    if id in entries then Some(entries[id]) else None
  }

  /** A name under an id: that of the last of these calls, or what was noted before. */
  function NameNoted(calls: seq<ToolCall>, names: map<Uuid, string>, id: Uuid): Option<string> {
    var i := LastCall(calls, id);
    if i.Some? then Some(WireName(calls[i.value].name)) else Lookup(names, id)
  }

  function NativeNoted(calls: seq<ToolCall>, parts: seq<Json>, natives: map<Uuid, string>, id: Uuid): Option<string> {
    var native := LastNative(calls, parts, id);
    if native.Some? then native else Lookup(natives, id)
  }

  lemma NoneNoted(calls: seq<ToolCall>, parts: seq<Json>, noted: map<Uuid, string>)
    requires calls == []
    ensures forall id :: Lookup(noted, id) == NameNoted(calls, noted, id)
    ensures forall id :: Lookup(noted, id) == NativeNoted(calls, parts, noted, id)
  {
  }

  lemma NothingLookedUp()
    ensures forall id :: Lookup(map[], id) == None
  {
  }

  lemma NameNotedSnoc(calls: seq<ToolCall>, k: nat, names: map<Uuid, string>, id: Uuid)
    requires k < |calls|
    ensures NameNoted(calls[..k + 1], names, id)
         == if calls[k].callId == id then Some(WireName(calls[k].name)) else NameNoted(calls[..k], names, id)
  {
    hide WireName;
    assert calls[..k + 1][..k] == calls[..k];
  }

  lemma NativeNotedSnoc(calls: seq<ToolCall>, parts: seq<Json>, k: nat, natives: map<Uuid, string>, id: Uuid)
    requires k < |calls| == |parts|
    ensures NativeNoted(calls[..k + 1], parts[..k + 1], natives, id)
         == if calls[k].callId == id && NativeIdOf(parts[k]).Some? then NativeIdOf(parts[k]) else NativeNoted(calls[..k], parts[..k], natives, id)
  {
    hide NativeIdOf;
    assert calls[..k + 1][..k] == calls[..k] && parts[..k + 1][..k] == parts[..k];
  }

  method NoteCalls(calls: seq<ToolCall>, names0: map<Uuid, string>) returns (names: map<Uuid, string>)
    ensures forall id :: Lookup(names, id) == NameNoted(calls, names0, id)
  {
    hide NameNoted, WireName;
    names := names0;
    var k := 0;
    NoneNoted(calls[..0], [], names0);
    while k < |calls|
      invariant 0 <= k <= |calls|
      invariant forall id :: Lookup(names, id) == NameNoted(calls[..k], names0, id)
    {
      ghost var before := names;
      names := names[calls[k].callId := WireName(calls[k].name)];
      forall id ensures Lookup(names, id) == NameNoted(calls[..k + 1], names0, id) {
        NameNotedSnoc(calls, k, names0, id);
        assert Lookup(before, id) == NameNoted(calls[..k], names0, id);
      }
      k := k + 1;
    }
    assert calls[..k] == calls;
  }

  /** Checks the continuation parts of calls one by one, and notes the provider's ids. */
  method NoteParts(calls: seq<ToolCall>, parts: seq<Json>, natives0: map<Uuid, string>) returns (ok: bool, natives: map<Uuid, string>)
    ensures ok <==> PartsMatch(Some(parts), calls)
    ensures ok ==> forall id :: Lookup(natives, id) == NativeNoted(calls, parts, natives0, id)
  {
    hide WireName, FieldOf, NativeNoted, NativeIdOf;
    natives := natives0;
    if |parts| != |calls| { return false, natives; }
    var k := 0;
    NoneNoted(calls[..0], parts[..0], natives0);
    while k < |calls|
      invariant 0 <= k <= |calls|
      invariant forall j :: 0 <= j < k ==> StringOf(FieldOf(Field(parts[j], "functionCall"), "name")) == Some(WireName(calls[j].name))
      invariant forall id :: Lookup(natives, id) == NativeNoted(calls[..k], parts[..k], natives0, id)
    {
      if StringOf(FieldOf(Field(parts[k], "functionCall"), "name")) != Some(WireName(calls[k].name)) { return false, natives; }
      ghost var before := natives;
      var native := NativeIdOf(parts[k]);
      if native.Some? { natives := natives[calls[k].callId := native.value]; }
      forall id ensures Lookup(natives, id) == NativeNoted(calls[..k + 1], parts[..k + 1], natives0, id) {
        NativeNotedSnoc(calls, parts, k, natives0, id);
        assert Lookup(before, id) == NativeNoted(calls[..k], parts[..k], natives0, id);
      }
      k := k + 1;
    }
    assert calls[..k] == calls && parts[..k] == parts;
    return true, natives;
  }

  // What Gemini contents say.

  /** The last call under an id among the first messages: `j` is its position in message `i`. */
  predicate AskedLast(ms: seq<Message>, id: Uuid, i: nat, j: nat) {
    && i < |ms| && ms[i].content.CallTools? && j < |ms[i].content.calls| && ms[i].content.calls[j].callId == id
    && forall a, b :: 0 <= a < |ms| && ms[a].content.CallTools? && 0 <= b < |ms[a].content.calls| && ms[a].content.calls[b].callId == id ==>
         a < i || (a == i && b <= j)
  }

  lemma {:induction false} LastCallIs(calls: seq<ToolCall>, id: Uuid)
    ensures LastCall(calls, id).Some? ==> forall b :: 0 <= b < |calls| && calls[b].callId == id ==> b <= LastCall(calls, id).value
  {
    if calls != [] { LastCallIs(calls[..|calls| - 1], id); }
  }

  /** A result is named after the last call under its id. */
  lemma {:induction false} CallNameIs(ms: seq<Message>, id: Uuid)
    ensures CallName(ms, id).Some? ==>
      exists i: nat, j: nat :: AskedLast(ms, id, i, j) && IsToolWord(ms[i].content.calls[j].name, CallName(ms, id).value)
    ensures CallName(ms, id).None? ==> forall i: nat, j: nat :: !AskedLast(ms, id, i, j)
  {
    hide WireName, IsToolWord;
    if ms != [] {
      var front, last := ms[..|ms| - 1], ms[|ms| - 1];
      CallNameIs(front, id);
      var at := if last.content.CallTools? then LastCall(last.content.calls, id) else None;
      if at.Some? {
        LastCallIs(last.content.calls, id);
        ToolsHaveWords(last.content.calls[at.value].name);
        assert AskedLast(ms, id, |front|, at.value);
      } else {
        LastHasNone(ms, id);
        if CallName(front, id).Some? {
          var i: nat, j: nat :| AskedLast(front, id, i, j) && IsToolWord(front[i].content.calls[j].name, CallName(front, id).value);
          assert AskedLast(ms, id, i, j);
        } else {
          forall i: nat, j: nat ensures !AskedLast(ms, id, i, j) {
            NoneAskedLast(ms, id, i, j);
          }
        }
      }
    }
  }

  lemma NoneAskedLast(ms: seq<Message>, id: Uuid, i: nat, j: nat)
    requires ms != [] && var last := ms[|ms| - 1]; last.content.CallTools? ==> LastCall(last.content.calls, id).None?
    ensures AskedLast(ms, id, i, j) ==> AskedLast(ms[..|ms| - 1], id, i, j)
  {
    LastHasNone(ms, id);
  }

  /** The part of a call tells the provider's own id for it. */
  predicate TellsId(part: Json, native: string) {
    && part.JObject? && "functionCall" in part.fields && part.fields["functionCall"].JObject?
    && "id" in part.fields["functionCall"].fields && part.fields["functionCall"].fields["id"] == JString(native)
  }

  predicate ToldAt(ms: seq<Message>, id: Uuid, i: nat, j: nat, native: string) {
    && i < |ms| && ms[i].content.CallTools? && ms[i].providerParts.Some?
    && j < |ms[i].content.calls| == |ms[i].providerParts.value|
    && ms[i].content.calls[j].callId == id && TellsId(ms[i].providerParts.value[j], native)
  }

  /** The last of the parts under an id that tells one. */
  ghost predicate ToldLast(ms: seq<Message>, id: Uuid, i: nat, j: nat, native: string) {
    ToldAt(ms, id, i, j, native) && forall a: nat, b: nat, other :: ToldAt(ms, id, a, b, other) ==> a < i || (a == i && b <= j)
  }

  lemma NativeIsTold(part: Json, native: string)
    ensures NativeIdOf(part) == Some(native) <==> TellsId(part, native)
  {
  }

  lemma {:induction false} LastNativeIs(calls: seq<ToolCall>, parts: seq<Json>, id: Uuid) returns (j: nat)
    requires |calls| == |parts|
    ensures LastNative(calls, parts, id).Some? ==>
      j < |calls| && calls[j].callId == id && TellsId(parts[j], LastNative(calls, parts, id).value)
      && forall b, other :: 0 <= b < |calls| && calls[b].callId == id && TellsId(parts[b], other) ==> b <= j
    ensures LastNative(calls, parts, id).None? ==> forall b, other :: 0 <= b < |calls| && calls[b].callId == id ==> !TellsId(parts[b], other)
  {
    hide TellsId, NativeIdOf;
    j := 0;
    if calls != [] {
      var last := |calls| - 1;
      forall other ensures NativeIdOf(parts[last]) == Some(other) <==> TellsId(parts[last], other) { NativeIsTold(parts[last], other); }
      if calls[last].callId == id && NativeIdOf(parts[last]).Some? {
        j := last;
      } else {
        j := LastNativeIs(calls[..last], parts[..last], id);
        if LastNative(calls[..last], parts[..last], id).None? {
          forall b, other | 0 <= b < |calls| && calls[b].callId == id ensures !TellsId(parts[b], other) {
            if b < last { assert calls[..last][b].callId == id; }
          }
        }
      }
    }
  }

  /** A result goes back under the id its provider told last, if it told any. */
  lemma {:induction false} NativeIdIs(ms: seq<Message>, id: Uuid)
    ensures NativeId(ms, id).Some? ==> exists i: nat, j: nat :: ToldLast(ms, id, i, j, NativeId(ms, id).value)
    ensures NativeId(ms, id).None? ==> forall i: nat, j: nat, native :: !ToldAt(ms, id, i, j, native)
  {
    hide TellsId, LastNative;
    if ms != [] {
      var front, last := ms[..|ms| - 1], ms[|ms| - 1];
      NativeIdIs(front, id);
      var here := if last.content.CallTools? && last.providerParts.Some? then LastNative(last.content.calls, last.providerParts.value, id) else None;
      forall a: nat, b: nat, other | a < |front| ensures ToldAt(ms, id, a, b, other) <==> ToldAt(front, id, a, b, other) { }
      if here.Some? {
        var j := HereIsTold(ms, id);
      } else {
        forall b: nat, other ensures !ToldAt(ms, id, |front|, b, other) { NoneToldHere(ms, id, b, other); }
        if NativeId(front, id).Some? {
          var i: nat, j: nat :| ToldLast(front, id, i, j, NativeId(front, id).value);
          assert ToldLast(ms, id, i, j, NativeId(front, id).value);
        }
      }
    }
  }

  lemma HereIsTold(ms: seq<Message>, id: Uuid) returns (j: nat)
    requires ms != [] && var last := ms[|ms| - 1];
      last.content.CallTools? && last.providerParts.Some? && LastNative(last.content.calls, last.providerParts.value, id).Some?
    ensures var last := ms[|ms| - 1];
      ToldLast(ms, id, |ms| - 1, j, LastNative(last.content.calls, last.providerParts.value, id).value)
  {
    hide TellsId;
    var last := ms[|ms| - 1];
    NativesMatch(last.content.calls, last.providerParts.value, id);
    j := LastNativeIs(last.content.calls, last.providerParts.value, id);
    var native := LastNative(last.content.calls, last.providerParts.value, id).value;
    assert ToldAt(ms, id, |ms| - 1, j, native);
    assert ToldLast(ms, id, |ms| - 1, j, native);
  }

  lemma NativesMatch(calls: seq<ToolCall>, parts: seq<Json>, id: Uuid)
    ensures LastNative(calls, parts, id).Some? ==> |parts| == |calls|
  {
  }

  lemma NoneToldHere(ms: seq<Message>, id: Uuid, b: nat, other: string)
    requires ms != [] && var last := ms[|ms| - 1];
      last.content.CallTools? && last.providerParts.Some? ==> LastNative(last.content.calls, last.providerParts.value, id).None?
    ensures !ToldAt(ms, id, |ms| - 1, b, other)
  {
    hide TellsId, LastNative;
    var last := ms[|ms| - 1];
    if last.content.CallTools? && last.providerParts.Some? && |last.providerParts.value| == |last.content.calls| {
      var _ := LastNativeIs(last.content.calls, last.providerParts.value, id);
    }
  }

  lemma LastHasNone(ms: seq<Message>, id: Uuid)
    requires ms != [] && var last := ms[|ms| - 1]; last.content.CallTools? ==> LastCall(last.content.calls, id).None?
    ensures forall i: nat, j: nat :: AskedLast(ms, id, i, j) ==> i < |ms| - 1
    ensures var last := ms[|ms| - 1];
      last.content.CallTools? ==> forall b :: 0 <= b < |last.content.calls| ==> last.content.calls[b].callId != id
  {
    var last := ms[|ms| - 1];
    if last.content.CallTools? {
      forall b | 0 <= b < |last.content.calls| ensures last.content.calls[b].callId != id {
        assert last.content.calls[b].callId in CallIds(last.content.calls);
      }
    }
  }

  /** A Gemini content and the message at position `k` it stands for. */
  ghost predicate GeminiSays(ms: seq<Message>, k: nat, g: GeminiContent)
    requires k < |ms|
  {
    var m := ms[k];
    && (m.content.SayText? ==> g == GeminiText(m.role == Assistant, m.content.text))
    && (m.content.CallTools? && m.providerParts.Some? ==> g == GeminiParts(m.providerParts.value))
    && (m.content.CallTools? && m.providerParts.None? ==>
          && g.GeminiCalls? && |g.calls| == |m.content.calls|
          && forall i :: 0 <= i < |g.calls| ==>
               IsToolWord(m.content.calls[i].name, g.calls[i].0) && SaysArguments(g.calls[i].1, m.content.calls[i].arguments))
    && (m.content.ToolReply? ==>
          && g.GeminiReply? && g.payload == m.content.result
          && (exists i: nat, j: nat :: AskedLast(ms[..k], m.content.result.callId, i, j) && IsToolWord(ms[i].content.calls[j].name, g.name))
          && (if g.nativeId.Some? then exists i: nat, j: nat :: ToldLast(ms[..k], m.content.result.callId, i, j, g.nativeId.value)
              else forall i: nat, j: nat, native :: !ToldAt(ms[..k], m.content.result.callId, i, j, native)))
  }

  lemma GeminiIsSaid(ms: seq<Message>, k: nat)
    requires k < |ms| && GeminiFits(ms, k)
    ensures InRole(ms[k]) && GeminiSays(ms, k, ToGemini(ms, k))
  {
    hide SaysArguments, IsToolWord, ArgumentsJson, WireName, PartsMatch, AskedLast, ToldAt, ToldLast;
    var m := ms[k];
    if m.content.CallTools? {
      forall i | 0 <= i < |m.content.calls|
        ensures IsToolWord(m.content.calls[i].name, WireName(m.content.calls[i].name))
        ensures SaysArguments(ArgumentsJson(m.content.calls[i].arguments), m.content.calls[i].arguments)
      {
        ToolsHaveWords(m.content.calls[i].name);
        ArgumentsAreSaid(m.content.calls[i].arguments);
      }
    }
    if m.content.ToolReply? {
      ReplyIsNamed(ms, k);
      NativeIdIs(ms[..k], m.content.result.callId);
    }
  }

  lemma ReplyIsNamed(ms: seq<Message>, k: nat)
    requires k < |ms| && GeminiFits(ms, k) && ms[k].content.ToolReply?
    ensures exists i: nat, j: nat :: AskedLast(ms[..k], ms[k].content.result.callId, i, j) && IsToolWord(ms[i].content.calls[j].name, ToGemini(ms, k).name)
  {
    hide IsToolWord, WireName;
    var id := ms[k].content.result.callId;
    CallNameIs(ms[..k], id);
    var i: nat, j: nat :| AskedLast(ms[..k], id, i, j) && IsToolWord(ms[..k][i].content.calls[j].name, CallName(ms[..k], id).value);
    assert ms[..k][i] == ms[i];
  }

  /** Why the message at position `k` cannot be encoded. */
  predicate Misfit(ms: seq<Message>, k: nat, code: string)
    requires k < |ms|
  {
    if !InRole(ms[k]) then code == "AGENT_MESSAGE_ROLE_INVALID"
    else if ms[k].content.CallTools? then code == "PROVIDER_CONTINUATION_INVALID" && !PartsMatch(ms[k].providerParts, ms[k].content.calls)
    else
      && ms[k].content.ToolReply? && code == "AGENT_TOOL_CALL_MISSING"
      && forall a, b :: 0 <= a < k && ms[a].content.CallTools? && 0 <= b < |ms[a].content.calls| ==>
           ms[a].content.calls[b].callId != ms[k].content.result.callId
  }

  lemma MisfitIs(ms: seq<Message>, k: nat, code: string)
    requires k < |ms|
    requires if !RoleFits(ms[k]) then code == "AGENT_MESSAGE_ROLE_INVALID"
             else if ms[k].content.CallTools? then code == "PROVIDER_CONTINUATION_INVALID" && !PartsMatch(ms[k].providerParts, ms[k].content.calls)
             else ms[k].content.ToolReply? && code == "AGENT_TOOL_CALL_MISSING" && CallName(ms[..k], ms[k].content.result.callId).None?
    ensures Misfit(ms, k, code) && !GeminiFits(ms, k)
  {
    hide PartsMatch;
    if RoleFits(ms[k]) && ms[k].content.ToolReply? {
      forall a, b | 0 <= a < k && ms[a].content.CallTools? && 0 <= b < |ms[a].content.calls|
        ensures ms[a].content.calls[b].callId != ms[k].content.result.callId
      {
        CallsAreKnown(ms[..k], a, b);
        assert ms[..k][a] == ms[a];
      }
    }
  }

  lemma {:induction false} CallsAreKnown(ms: seq<Message>, a: nat, b: nat)
    requires a < |ms| && ms[a].content.CallTools? && b < |ms[a].content.calls|
    ensures ms[a].content.calls[b].callId in KnownIds(ms)
  {
    if a < |ms| - 1 { CallsAreKnown(ms[..|ms| - 1], a, b); }
  }

  /** Gemini contents: fails exactly where a message does not fit; otherwise one content per message. */
  method GeminiContents(messages: seq<Message>) returns (r: Result<seq<GeminiContent>>)
    ensures r.Ok? <==> forall k :: 0 <= k < |messages| ==> GeminiFits(messages, k)
    ensures r.Ok? ==> |r.value| == |messages|
    ensures r.Ok? ==> forall k :: 0 <= k < |messages| ==> r.value[k] == ToGemini(messages, k)
    ensures r.Err? ==> exists k :: 0 <= k < |messages| && (forall i :: 0 <= i < k ==> GeminiFits(messages, i)) && Misfit(messages, k, r.code)
    ensures r.Ok? ==> forall k :: 0 <= k < |messages| ==> InRole(messages[k]) && GeminiSays(messages, k, r.value[k])
  {
    hide PartsMatch, GeminiSays, Misfit, UuidText, LastCall, LastNative, Lookup, WireName, ArgumentsJson;
    var contents := [];
    var names: map<Uuid, string> := map[];
    var nativeIds: map<Uuid, string> := map[];
    var k := 0;
    assert messages[..0] == [];
    NothingLookedUp();
    while k < |messages|
      invariant 0 <= k <= |messages| && |contents| == k
      invariant forall id :: Lookup(names, id) == CallName(messages[..k], id)
      invariant forall id :: Lookup(nativeIds, id) == NativeId(messages[..k], id)
      invariant forall i :: 0 <= i < k ==> GeminiFits(messages, i) && contents[i] == ToGemini(messages, i)
      invariant forall i :: 0 <= i < k ==> InRole(messages[i]) && GeminiSays(messages, i, contents[i])
    {
      var m := messages[k];
      assert messages[..k + 1][..k] == messages[..k];
      if !RoleFits(m) {
        MisfitIs(messages, k, ROLE_INVALID);
        return Err(ROLE_INVALID);
      }
      match m.content {
        case SayText(text) =>
          contents := contents + [GeminiText(m.role.Assistant?, text)];
        case CallTools(calls) =>
          if m.providerParts.Some? {
            var ok;
            ok, nativeIds := NoteParts(calls, m.providerParts.value, nativeIds);
            if !ok {
              MisfitIs(messages, k, PARTS_INVALID);
              return Err(PARTS_INVALID);
            }
            contents := contents + [GeminiParts(m.providerParts.value)];
          } else {
            NoPartsMatch(calls);
            contents := contents + [GeminiCalls(CallsWithArguments(calls))];
          }
          names := NoteCalls(calls, names);
        case ToolReply(result) =>
          var name, native := Lookup(names, result.callId), Lookup(nativeIds, result.callId);
          if name.None? {
            MisfitIs(messages, k, CALL_MISSING);
            return Err(CALL_MISSING);
          }
          contents := contents + [GeminiReply(name.value, native, result)];
      }
      assert GeminiFits(messages, k) && contents[k] == ToGemini(messages, k);
      GeminiIsSaid(messages, k);
      k := k + 1;
    }
    return Ok(contents);
  }

  lemma NoPartsMatch(calls: seq<ToolCall>)
    ensures PartsMatch(None, calls)
  {
  }

  lemma {:induction false} KnownIdsAppend(a: seq<Message>, b: seq<Message>)
    ensures KnownIds(a + b) == KnownIds(a) + KnownIds(b)
  {
    if b == [] {
      assert a + b == a;
    } else {
      assert (a + b)[..|a + b| - 1] == a + b[..|b| - 1];
      KnownIdsAppend(a, b[..|b| - 1]);
    }
  }

  /** In a well-paired history every message has a fitting role, and every result a call before it. */
  lemma {:induction false} WellPairedFits(ms: seq<Message>, k: nat)
    requires WellPaired(ms) && k < |ms|
    ensures RoleFits(ms[k])
    ensures ms[k].content.ToolReply? ==> ms[k].content.result.callId in KnownIds(ms[..k])
    decreases |ms|
  {
    if Says(ms[0]) {
      if k > 0 {
        WellPairedFits(ms[1..], k - 1);
        assert ms[..k] == ms[..1] + ms[1..][..k - 1];
        KnownIdsAppend(ms[..1], ms[1..][..k - 1]);
      }
    } else {
      var calls := ms[0].content.calls;
      var n := |calls|;
      assert KnownIds(ms[..1]) == CallIds(calls) by { assert ms[..1][..0] == []; }
      if 0 < k <= n {
        assert ms[1..n + 1][k - 1] == ms[k];
        assert ms[..k] == ms[..1] + ms[1..k];
        KnownIdsAppend(ms[..1], ms[1..k]);
        assert calls[k - 1].callId in CallIds(calls);
      } else if k > n {
        WellPairedFits(ms[n + 1..], k - n - 1);
        assert ms[..k] == ms[..n + 1] + ms[n + 1..][..k - n - 1];
        KnownIdsAppend(ms[..n + 1], ms[n + 1..][..k - n - 1]);
      }
    }
  }

  /** None of the encoding errors can be met by a history of the shape the loop keeps. */
  lemma SendableHistoryEncodes(ms: seq<Message>)
    requires WellPaired(ms) && PartsLawful(ms)
    ensures forall k :: 0 <= k < |ms| ==> RoleFits(ms[k]) && GeminiFits(ms, k)
  {
    forall k | 0 <= k < |ms| ensures RoleFits(ms[k]) && GeminiFits(ms, k) {
      WellPairedFits(ms, k);
    }
  }

  // Arguments a provider sends.

  function RequiredString(args: Json, key: string): Option<string> {
    var text := StringOf(Field(args, key));
    if text.None? || Whitespace.Trim(text.value) == "" || Whitespace.Utf8Size(text.value) > 1024 then None else text
  }

  function OptionalString(args: Json, key: string): Option<Option<string>> {
    match Field(args, key)
    case None => Some(None)
    case Some(JNull) => Some(None)
    case Some(JString(text)) => if Whitespace.Utf8Size(text) <= 1024 then Some(Some(text)) else None
    case Some(_) => None
  }

  function BoundedNumber(args: Json, key: string, min: nat, max: nat): Option<nat> {
    match Field(args, key)
    case Some(JNumber(Some(n))) => if min <= n <= max then Some(n) else None
    case _ => None
  }

  /** The argument checks of a tool call whose name has been recognised. */
  function ParseArguments(name: ToolName, args: Json): Option<Arguments> {
    if !args.JObject? then None
    else match name
      case RepoStatus => Some(RepoStatusArgs)
      case ListTree =>
        var path := OptionalString(args, "relative_path");
        var depth := BoundedNumber(args, "depth", 1, 4);
        var limit := BoundedNumber(args, "limit", 1, 500);
        if path.Some? && depth.Some? && limit.Some? then Some(ListTreeArgs(path.value, depth.value, limit.value)) else None
      case SearchPaths =>
        var query := RequiredString(args, "query");
        var limit := BoundedNumber(args, "limit", 1, 100);
        if query.Some? && limit.Some? then Some(SearchPathsArgs(query.value, limit.value)) else None
      case SearchText =>
        var query := RequiredString(args, "query");
        var filter := OptionalString(args, "path_filter");
        var limit := BoundedNumber(args, "limit", 1, 100);
        if query.Some? && filter.Some? && limit.Some? then Some(SearchTextArgs(query.value, filter.value, limit.value)) else None
      case ReadFileLines =>
        var path := RequiredString(args, "relative_path");
        var start := BoundedNumber(args, "start_line", 1, U32_MAX);
        var end := BoundedNumber(args, "end_line", 1, U32_MAX);
        if path.Some? && start.Some? && end.Some? then Some(ReadFileLinesArgs(path.value, start.value, end.value)) else None
      case FileMetadata =>
        var path := RequiredString(args, "relative_path");
        if path.Some? then Some(FileMetadataArgs(path.value)) else None
  }

  function NamedTool(name: string): (r: Option<ToolName>)
    ensures r.Some? ==> WireName(r.value) == name
  {
    if name == "repo_status" then Some(RepoStatus)
    else if name == "list_tree" then Some(ListTree)
    else if name == "search_paths" then Some(SearchPaths)
    else if name == "search_text" then Some(SearchText)
    else if name == "read_file_lines" then Some(ReadFileLines)
    else if name == "file_metadata" then Some(FileMetadata)
    else None
  }

  /** `parseUuid` reads an identifier; `made` is the one made up when there is none to read. */
  function ParseToolCall(parseUuid: string -> Option<Uuid>, made: Uuid, name: string, args: Json, callId: Option<string>, snapshot: Uuid): (r: Option<ToolCall>)
    ensures r.Some? && callId.Some? && parseUuid(callId.value).Some? ==> r.value.callId == parseUuid(callId.value).value
    ensures r.Some? && (callId.None? || parseUuid(callId.value).None?) ==> r.value.callId == made
    ensures r.Some? ==> WireName(r.value.name) == name && r.value.snapshotId == snapshot && NameOf(r.value.arguments) == r.value.name
  {
    var tool := NamedTool(name);
    if tool.None? then None
    else match ParseArguments(tool.value, args)
      case None => None
      case Some(arguments) =>
        ParsedIsWithinBounds(tool.value, args);
        var id := if callId.Some? then parseUuid(callId.value) else None;
        Some(ToolCall(if id.Some? then id.value else made, snapshot, tool.value, arguments))
  }

  predicate Plain(text: string) {
    Whitespace.Trim(text) != "" && Whitespace.Utf8Size(text) <= 1024
  }

  /** Bounds every argument a provider can send is within. */
  predicate WithinBounds(a: Arguments) {
    match a
    case RepoStatusArgs => true
    case ListTreeArgs(path, depth, limit) => (path.Some? ==> Whitespace.Utf8Size(path.value) <= 1024) && 1 <= depth <= 4 && 1 <= limit <= 500
    case SearchPathsArgs(query, limit) => Plain(query) && 1 <= limit <= 100
    case SearchTextArgs(query, filter, limit) => Plain(query) && (filter.Some? ==> Whitespace.Utf8Size(filter.value) <= 1024) && 1 <= limit <= 100
    case ReadFileLinesArgs(path, start, end) => Plain(path) && 1 <= start <= U32_MAX && 1 <= end <= U32_MAX
    case FileMetadataArgs(path) => Plain(path)
  }

  function NameOf(a: Arguments): ToolName {
    match a
    case RepoStatusArgs => RepoStatus
    case ListTreeArgs(_, _, _) => ListTree
    case SearchPathsArgs(_, _) => SearchPaths
    case SearchTextArgs(_, _, _) => SearchText
    case ReadFileLinesArgs(_, _, _) => ReadFileLines
    case FileMetadataArgs(_) => FileMetadata
  }

  function PathOf(a: Arguments): Option<string> {
    match a
    case ListTreeArgs(path, _, _) => path
    case ReadFileLinesArgs(path, _, _) => Some(path)
    case FileMetadataArgs(path) => Some(path)
    case _ => None
  }

  lemma ParsedIsWithinBounds(name: ToolName, args: Json)
    requires ParseArguments(name, args).Some?
    ensures var a := ParseArguments(name, args).value; NameOf(a) == name && WithinBounds(a)
  {
    hide Whitespace.Trim, Whitespace.Utf8Size;
  }

  predicate TakesText(fields: map<string, Json>, key: string, text: string) {
    key in fields && fields[key] == JString(text)
  }

  predicate TakesOptional(fields: map<string, Json>, key: string, text: Option<string>) {
    if text.Some? then TakesText(fields, key, text.value) else key !in fields || fields[key] == JNull
  }

  /** Arguments read off an object: each value under its own key, whatever else the object holds. */
  predicate TakesArguments(j: Json, a: Arguments) {
    && j.JObject? && var f := j.fields;
    match a
    case RepoStatusArgs => true
    case ListTreeArgs(path, depth, limit) =>
      TakesOptional(f, "relative_path", path) && SaysNumber(f, "depth", depth) && SaysNumber(f, "limit", limit)
    case SearchPathsArgs(query, limit) => TakesText(f, "query", query) && SaysNumber(f, "limit", limit)
    case SearchTextArgs(query, filter, limit) => TakesText(f, "query", query) && TakesOptional(f, "path_filter", filter) && SaysNumber(f, "limit", limit)
    case ReadFileLinesArgs(path, start, end) =>
      TakesText(f, "relative_path", path) && SaysNumber(f, "start_line", start) && SaysNumber(f, "end_line", end)
    case FileMetadataArgs(path) => TakesText(f, "relative_path", path)
  }

  /** Parsing gives exactly the arguments of that tool that the object holds, if they are within bounds. */
  lemma ParsedExactly(name: ToolName, args: Json, a: Arguments)
    ensures ParseArguments(name, args) == Some(a) <==> NameOf(a) == name && WithinBounds(a) && TakesArguments(args, a)
  {
    hide Whitespace.Trim, Whitespace.Utf8Size;
  }

  lemma SlashedIsSame(path: string)
    ensures Slashed(path) == path <==> '\\' !in path
  {
    if '\\' in path {
      var i :| 0 <= i < |path| && path[i] == '\\';
      assert Slashed(path)[i] == '/';
    }
  }

  lemma {:induction false} SlashedStart(path: string)
    ensures Whitespace.TrimStart(Slashed(path)) == Slashed(Whitespace.TrimStart(path))
  {
    if path != "" {
      assert Slashed(path)[1..] == Slashed(path[1..]);
      SlashedStart(path[1..]);
    }
  }

  lemma {:induction false} SlashedEnd(path: string)
    ensures Whitespace.TrimEnd(Slashed(path)) == Slashed(Whitespace.TrimEnd(path))
  {
    if path != "" {
      var n := |path| - 1;
      assert Slashed(path)[..n] == Slashed(path[..n]);
      SlashedEnd(path[..n]);
    }
  }

  lemma {:induction false} SlashedSize(path: string)
    ensures Whitespace.Utf8Size(Slashed(path)) == Whitespace.Utf8Size(path)
  {
    if path != "" {
      assert Slashed(path)[1..] == Slashed(path[1..]);
      SlashedSize(path[1..]);
    }
  }

  lemma TrimmedSlashed(path: string)
    requires Whitespace.TrimStart(Slashed(path)) == Slashed(Whitespace.TrimStart(path))
    requires Whitespace.TrimEnd(Slashed(Whitespace.TrimStart(path))) == Slashed(Whitespace.TrimEnd(Whitespace.TrimStart(path)))
    ensures Whitespace.Trim(Slashed(path)) == "" <==> Whitespace.Trim(path) == ""
  {
    hide Whitespace.TrimStart, Whitespace.TrimEnd;
  }

  lemma SlashedPlain(path: string)
    ensures Whitespace.Trim(Slashed(path)) == "" <==> Whitespace.Trim(path) == ""
    ensures Whitespace.Utf8Size(Slashed(path)) == Whitespace.Utf8Size(path)
  {
    hide Whitespace.Trim, Slashed;
    SlashedStart(path);
    SlashedEnd(Whitespace.TrimStart(path));
    SlashedSize(path);
    TrimmedSlashed(path);
  }

  /**
   A call echoed back to the provider carries the arguments the provider sent, exactly when no
   backslash in its path was rewritten.
   */
  lemma ArgumentsRoundTrip(a: Arguments)
    requires WithinBounds(a)
    ensures ParseArguments(NameOf(a), ArgumentsJson(a)) == Some(a) <==> (PathOf(a).Some? ==> '\\' !in PathOf(a).value)
  {
    hide Whitespace.Trim, Whitespace.Utf8Size, Slashed;
    if PathOf(a).Some? {
      var path := PathOf(a).value;
      SlashedIsSame(path);
      SlashedPlain(path);
    }
  }
}

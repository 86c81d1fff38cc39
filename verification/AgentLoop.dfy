/** The agent loop: rounds that end the turn, or request tools whose results the next round sees. */
module AgentLoop {
  import opened Wrappers
  import opened Text
  import opened AgentTypes
  import opened History
  import opened Bundles
  import AuditBundle

  const U16_MAX: nat := 0xFFFF
  const LOOP_LIMIT := "AGENT_LOOP_LIMIT_REACHED"

  datatype Contract = AdvisorMarkdown | AuditAnswerBundle(schema: string)

  /** Limits are 8, 16 and 32 bits wide. */
  datatype Limits = Limits(maxRounds: nat, maxToolCalls: nat, maxResultBytes: nat)

  predicate LimitsFit(l: Limits) {
    l.maxRounds <= 0xFF && l.maxToolCalls <= U16_MAX && l.maxResultBytes <= U32_MAX
  }

  datatype Request = Request(
    requestId: Uuid, conversationId: Uuid, turnId: Uuid,
    messages: seq<Message>, snapshotId: Option<Uuid>, contract: Contract, limits: Limits)

  datatype CompletedPayload = AdvisorText(markdown: string) | ValidatedBundle(bundle: AnswerBundle)

  datatype CancelledPayload = PartialMarkdown(markdown: string) | NoContent

  datatype AgentEvent =
    | Started(requestId: Uuid)
    | ThinkingDelta(thinking: string)
    | TextDelta(delta: string)
    | ToolProgress(round: nat, completedCalls: nat, totalCalls: nat)
    | UsageUpdate(promptTokens: nat, completionTokens: nat)
    | Completed(completed: CompletedPayload, traceId: Option<Uuid>)
    | Cancelled(cancelled: CancelledPayload)
    | Failed(code: string)

  /**
   Everything outside the loop, as functions of where the loop asks: the cancellation flag read at
   a round's start, the backend's stream for a round and history, the gateway, the hash and codecs.
   */
  datatype World = World(
    cancelledAt: nat -> bool,
    backend: (nat, seq<Message>) -> Result<seq<RoundEvent>>,
    hasGateway: bool,
    fingerprint: ToolCall -> Result<string>,
    execute: (nat, nat, ToolCall) -> Result<ToolResult>,
    jsonBytes: ToolResult -> nat,
    digest: string -> string,
    parseBundle: string -> Option<AnswerBundle>,
    showConfidence: Confidence -> string,
    receiptIds: Option<Result<seq<Uuid>>>)

  predicate IsTerminal(e: AgentEvent) {
    e.Completed? || e.Cancelled? || e.Failed?
  }

  predicate NoTerminal(events: seq<AgentEvent>) {
    forall i :: 0 <= i < |events| ==> !IsTerminal(events[i])
  }

  predicate NoText(events: seq<AgentEvent>) {
    forall i :: 0 <= i < |events| ==> !events[i].TextDelta?
  }

  /** The text the user has seen, in order. */
  function VisibleText(events: seq<AgentEvent>): string {
    if events == [] then ""
    else VisibleText(events[..|events| - 1]) + if events[|events| - 1].TextDelta? then events[|events| - 1].delta else ""
  }

  lemma {:induction false} VisibleTextAppend(a: seq<AgentEvent>, b: seq<AgentEvent>)
    ensures VisibleText(a + b) == VisibleText(a) + VisibleText(b)
  {
    if b == [] {
      assert a + b == a;
    } else {
      var last := |b| - 1;
      VisibleTextAppend(a, b[..last]);
      assert (a + b)[..|a + b| - 1] == a + b[..last];
    }
  }

  /** What is shown of the events emitted so far, at a point where `text` has been streamed. */
  predicate Shown(contract: Contract, events: seq<AgentEvent>, text: string) {
    && NoTerminal(events)
    && (contract.AdvisorMarkdown? ==> VisibleText(events) == text)
    && (contract.AuditAnswerBundle? ==> NoText(events))
  }

  lemma ShownAppend(contract: Contract, a: seq<AgentEvent>, s: string, b: seq<AgentEvent>, t: string)
    requires Shown(contract, a, s) && Shown(contract, b, t)
    ensures Shown(contract, a + b, s + t)
  {
    VisibleTextAppend(a, b);
  }

  // One round's stream.

  /** The position of the first end event. */
  function FirstEnd(events: seq<RoundEvent>): (i: nat)
    ensures i <= |events| && NoneEnds(events[..i])
    ensures i < |events| ==> EndsRound(events[i])
  {
    if events == [] then 0
    else if EndsRound(events[0]) then 0
    else
      var i := 1 + FirstEnd(events[1..]);
      assert events[..i] == [events[0]] + events[1..][..i - 1];
      i
  }

  lemma FirstEndIs(events: seq<RoundEvent>, k: nat)
    requires k <= |events| && NoneEnds(events[..k]) && (k < |events| ==> EndsRound(events[k]))
    ensures FirstEnd(events) == k
  {
    var i := FirstEnd(events);
    assert forall j :: 0 <= j < k ==> events[..k][j] == events[j];
    assert forall j :: 0 <= j < i ==> events[..i][j] == events[j];
  }

  lemma PrefixStart(contract: Contract, stream: seq<RoundEvent>)
    ensures Passed(contract, stream[..0]) == []
    ensures stream[..0] == [] && NoneEnds(stream[..0])
    ensures StreamedText(stream[..0]) == "" && LastParts(stream[..0]) == None
  {
  }

  lemma PrefixStep(contract: Contract, stream: seq<RoundEvent>, k: nat)
    requires k < |stream|
    ensures Passed(contract, stream[..k + 1]) == Passed(contract, stream[..k]) + PassedOne(contract, stream[k])
    ensures NoneEnds(stream[..k]) && !EndsRound(stream[k]) ==> NoneEnds(stream[..k + 1])
    ensures StreamedText(stream[..k + 1]) == StreamedText(stream[..k]) + if stream[k].RoundText? then stream[k].delta else ""
    ensures LastParts(stream[..k + 1]) == if stream[k].ProviderToolParts? then Some(stream[k].parts) else LastParts(stream[..k])
  {
    hide PassedOne;
    StreamedTextSnoc(stream[..k], stream[k]);
    assert stream[..k + 1] == stream[..k] + [stream[k]];
    assert stream[..k + 1][..k] == stream[..k];
    assert forall i :: 0 <= i < k ==> stream[..k][i] == stream[i];
  }

  /** What the loop passes on of one round event: audit text is withheld. */
  function PassedOne(contract: Contract, event: RoundEvent): seq<AgentEvent> {
    match event
    case RoundThinking(delta) => [ThinkingDelta(delta)]
    case RoundText(delta) => if contract.AdvisorMarkdown? then [TextDelta(delta)] else []
    case RoundUsage(p, c) => [UsageUpdate(p, c)]
    case _ => []
  }

  function Passed(contract: Contract, events: seq<RoundEvent>): seq<AgentEvent> {
    if events == [] then []
    else Passed(contract, events[..|events| - 1]) + PassedOne(contract, events[|events| - 1])
  }

  lemma {:induction false} PassedAppend(contract: Contract, a: seq<RoundEvent>, b: seq<RoundEvent>)
    ensures Passed(contract, a + b) == Passed(contract, a) + Passed(contract, b)
  {
    hide PassedOne;
    if b == [] {
      assert a + b == a;
    } else {
      var last := |b| - 1;
      PassedAppend(contract, a, b[..last]);
      assert (a + b)[..|a + b| - 1] == a + b[..last];
    }
  }

  /** Thinking, text and usage are passed on as they are, text only to an advisor, and nothing else is. */
  lemma PassedEvents(contract: Contract, thinking: string, text: string, p: nat, c: nat, parts: seq<Json>)
    ensures Passed(contract, [RoundStarted, RoundThinking(thinking), ProviderToolParts(parts), RoundText(text), RoundUsage(p, c)])
         == if contract.AdvisorMarkdown? then [ThinkingDelta(thinking), TextDelta(text), UsageUpdate(p, c)]
            else [ThinkingDelta(thinking), UsageUpdate(p, c)]
  {
    hide Passed;
    var a, b, c', d, e := [RoundStarted], [RoundThinking(thinking)], [ProviderToolParts(parts)], [RoundText(text)], [RoundUsage(p, c)];
    PassedAlone(contract, RoundStarted);
    PassedAlone(contract, RoundThinking(thinking));
    PassedAlone(contract, ProviderToolParts(parts));
    PassedAlone(contract, RoundText(text));
    PassedAlone(contract, RoundUsage(p, c));
    PassedAppend(contract, a, b);
    PassedAppend(contract, a + b, c');
    PassedAppend(contract, a + b + c', d);
    PassedAppend(contract, a + b + c' + d, e);
    assert a + b + c' + d + e == [RoundStarted, RoundThinking(thinking), ProviderToolParts(parts), RoundText(text), RoundUsage(p, c)];
  }

  lemma PassedAlone(contract: Contract, event: RoundEvent)
    ensures Passed(contract, [event]) == PassedOne(contract, event)
  {
    assert [event][..0] == [];
  }

  lemma PassedOneIsShown(contract: Contract, event: RoundEvent)
    ensures Shown(contract, PassedOne(contract, event), if event.RoundText? then event.delta else "")
  {
    var now := PassedOne(contract, event);
    if now != [] {
      assert now[..|now| - 1] == [];
      assert VisibleText(now) == VisibleText([]) + if now[0].TextDelta? then now[0].delta else "";
    }
  }

  lemma {:induction false} PassedIsShown(contract: Contract, events: seq<RoundEvent>)
    ensures Shown(contract, Passed(contract, events), StreamedText(events))
  {
    hide Shown, PassedOne, StreamedText;
    if events == [] {
      NothingIsShown(contract);
    } else {
      var before, last := events[..|events| - 1], events[|events| - 1];
      PassedIsShown(contract, before);
      PassedOneIsShown(contract, last);
      ShownAppend(contract, Passed(contract, before), StreamedText(before), PassedOne(contract, last), if last.RoundText? then last.delta else "");
      StreamedTextSnoc(before, last);
      assert events == before + [last];
    }
  }

  lemma NothingIsShown(contract: Contract)
    ensures Shown(contract, [], StreamedText([]))
  {
  }

  /** Reads a stream up to its first end event, passing deltas on. */
  method ReadRound(contract: Contract, stream: seq<RoundEvent>, events0: seq<AgentEvent>)
    returns (events: seq<AgentEvent>, roundText: string, parts: Option<seq<Json>>, end: Option<RoundEvent>)
    ensures var i := FirstEnd(stream);
            && events == events0 + Passed(contract, stream[..i])
            && roundText == StreamedText(stream[..i]) && parts == LastParts(stream[..i])
            && end == if i < |stream| then Some(stream[i]) else None
  {
    hide StreamedText, LastParts, FirstEnd, NoneEnds, Passed;
    events, roundText, parts, end := events0, "", None, None;
    var k := 0;
    PrefixStart(contract, stream);
    while k < |stream|
      invariant 0 <= k <= |stream| && end.None?
      invariant events == events0 + Passed(contract, stream[..k])
      invariant NoneEnds(stream[..k])
      invariant roundText == StreamedText(stream[..k]) && parts == LastParts(stream[..k])
    {
      var event := stream[k];
      if EndsRound(event) {
        end := Some(event);
        FirstEndIs(stream, k);
        return;
      }
      PrefixStep(contract, stream, k);
      match event {
        case ProviderToolParts(p) => parts := Some(p);
        case RoundStarted =>
        case RoundThinking(delta) => events := events + [ThinkingDelta(delta)];
        case RoundText(delta) =>
          roundText := roundText + delta;
          if contract.AdvisorMarkdown? {
            events := events + [TextDelta(delta)];
          }
        case RoundUsage(p, c) => events := events + [UsageUpdate(p, c)];
      }
      k := k + 1;
    }
    assert stream[..k] == stream;
    FirstEndIs(stream, k);
  }

  // The tool calls of one round.

  /** One executed call whose result was appended to the history. */
  datatype Answer = Answer(round: nat, index: nat, call: ToolCall, fingerprint: string, result: ToolResult)

  predicate Genuine(world: World, a: Answer) {
    world.execute(a.round, a.index, a.call) == Ok(a.result) && world.fingerprint(a.call) == Ok(a.fingerprint)
  }

  /** The counters and records a turn keeps, and (last two fields) a log of what the gateway was asked. */
  datatype Books = Books(
    messages: seq<Message>,
    totalBytes: nat,
    fingerprints: map<string, nat>,
    trace: Option<GroundingTrace>,
    executed: seq<ToolCall>,
    answered: seq<Answer>)

  function Record(world: World, a: Answer): CallRecord {
    CallRecord(a.call.callId, a.round, a.call.name, a.fingerprint, world.digest(a.result.content),
               a.result.contentBytes, IdsOf(a.result.sourceRefs))
  }

  function AllRefs(answered: seq<Answer>): seq<SourceRef> {
    if answered == [] then [] else AllRefs(answered[..|answered| - 1]) + answered[|answered| - 1].result.sourceRefs
  }

  /** The tool results in a history, in order. */
  function Results(ms: seq<Message>): seq<ToolResult> {
    if ms == [] then []
    else Results(ms[..|ms| - 1]) + if ms[|ms| - 1].content.ToolReply? then [ms[|ms| - 1].content.result] else []
  }

  lemma ResultsSnoc(ms: seq<Message>, m: Message)
    ensures Results(ms + [m]) == Results(ms) + if m.content.ToolReply? then [m.content.result] else []
  {
    assert (ms + [m])[..|ms|] == ms;
  }

  lemma {:induction false} NoResultsInText(ms: seq<Message>)
    requires forall k :: 0 <= k < |ms| ==> Says(ms[k])
    ensures Results(ms) == []
  {
    if ms != [] { NoResultsInText(ms[..|ms| - 1]); }
  }

  function ContentBytes(results: seq<ToolResult>): nat {
    if results == [] then 0 else ContentBytes(results[..|results| - 1]) + results[|results| - 1].contentBytes
  }

  /** How often a call with fingerprint `f` has been executed. */
  function Executions(world: World, executed: seq<ToolCall>, f: string): nat {
    if executed == [] then 0
    else
      var last := if world.fingerprint(executed[|executed| - 1]) == Ok(f) then 1 else 0;
      Executions(world, executed[..|executed| - 1], f) + last
  }

  lemma ExecutionsSnoc(world: World, executed: seq<ToolCall>, call: ToolCall, f: string)
    ensures Executions(world, executed + [call], f)
         == Executions(world, executed, f) + if world.fingerprint(call) == Ok(f) then 1 else 0
  {
    assert (executed + [call])[..|executed|] == executed;
  }

  function Counted(fingerprints: map<string, nat>, f: string): nat {
    if f in fingerprints then fingerprints[f] else 0
  }

  /** What the record of an answered call says. */
  predicate Describes(world: World, record: CallRecord, a: Answer) {
    && record.callId == a.call.callId && record.name == a.call.name && record.round == a.round
    && record.argumentsDigest == a.fingerprint && record.resultDigest == world.digest(a.result.content)
    && record.contentBytes == a.result.contentBytes && record.sourceRefIds == IdsOf(a.result.sourceRefs)
  }

  predicate TraceKept(world: World, b: Books) {
    b.trace.Some? ==>
      && |b.trace.value.toolCalls| == |b.answered|
      && (forall i :: 0 <= i < |b.answered| ==> Describes(world, b.trace.value.toolCalls[i], b.answered[i]))
      && b.trace.value.sourceRefs == AllRefs(b.answered)
  }

  predicate ResultsKept(world: World, b: Books) {
    && Results(b.messages) == seq(|b.answered|, i requires 0 <= i < |b.answered| => b.answered[i].result)
    && ContentBytes(Results(b.messages)) == b.totalBytes
    && forall i :: 0 <= i < |b.answered| ==> Genuine(world, b.answered[i])
  }

  ghost predicate AtMostTwice(world: World, executed: seq<ToolCall>) {
    forall f :: Executions(world, executed, f) <= 2
  }

  ghost predicate CallsCounted(world: World, b: Books) {
    forall f :: Executions(world, b.executed, f) == Counted(b.fingerprints, f) <= 2
  }

  ghost predicate BooksBalance(world: World, limits: Limits, b: Books) {
    && TraceKept(world, b) && ResultsKept(world, b) && CallsCounted(world, b)
    && b.totalBytes <= limits.maxResultBytes
  }

  /** The events reporting progress through `done` of `total` calls. */
  function Progress(round: nat, done: nat, total: nat): seq<AgentEvent> {
    if done == 0 then []
    else Progress(round, done - 1, total) + [ToolProgress(round, if done > U16_MAX then U16_MAX else done, total)]
  }

  /** Progress is reported call by call, in 16 bits. */
  lemma {:induction false} ProgressCountsUp(round: nat, done: nat, total: nat)
    ensures |Progress(round, done, total)| == done
    ensures forall i :: 0 <= i < done ==>
      Progress(round, done, total)[i] == ToolProgress(round, if i + 1 > U16_MAX then U16_MAX else i + 1, total)
  {
    if done > 0 { ProgressCountsUp(round, done - 1, total); }
  }

  lemma {:induction false} ProgressIsShown(contract: Contract, round: nat, done: nat, total: nat)
    ensures Shown(contract, Progress(round, done, total), "")
  {
    if done > 0 {
      ProgressIsShown(contract, round, done - 1, total);
      var now := Progress(round, done, total);
      assert now[..|now| - 1] == Progress(round, done - 1, total);
    }
  }

  /** The gateway answers the call it was given, and its size field covers the real encoding. */
  ghost predicate LawfulGateway(world: World) {
    forall round: nat, index: nat, call: ToolCall :: world.execute(round, index, call).Ok? ==>
      var result := world.execute(round, index, call).value;
      result.callId == call.callId && world.jsonBytes(result) <= result.contentBytes <= MAX_RESULT_BYTES
  }

  /** Counts a call's fingerprint; the third use of one is refused. */
  method CountFingerprint(world: World, call: ToolCall, fingerprints0: map<string, nat>)
    returns (r: Result<string>, fingerprints: map<string, nat>)
    ensures r.Ok? ==> world.fingerprint(call) == r && Counted(fingerprints0, r.value) < 2
    ensures r.Ok? ==> fingerprints == fingerprints0[r.value := Counted(fingerprints0, r.value) + 1]
    ensures r.Err? <==> world.fingerprint(call).Err? || Counted(fingerprints0, world.fingerprint(call).value) >= 2
    ensures r.Err? ==> r == if world.fingerprint(call).Err? then world.fingerprint(call) else Err("AGENT_LOOP_REPEATED_CALL")
  {
    fingerprints := fingerprints0;
    r := world.fingerprint(call);
    if r.Err? { return; }
    var repeated := Counted(fingerprints, r.value) + 1;
    fingerprints := fingerprints[r.value := repeated];
    if repeated >= 3 {
      r := Err("AGENT_LOOP_REPEATED_CALL");
    }
  }

  lemma CountedStep(world: World, b: Books, call: ToolCall, f: string)
    requires world.fingerprint(call) == Ok(f) && Counted(b.fingerprints, f) < 2 && CallsCounted(world, b)
    ensures CallsCounted(world, b.(fingerprints := b.fingerprints[f := Counted(b.fingerprints, f) + 1], executed := b.executed + [call]))
  {
    hide Executions;
    forall g ensures Executions(world, b.executed + [call], g) == Counted(b.fingerprints[f := Counted(b.fingerprints, f) + 1], g) <= 2 {
      ExecutionsSnoc(world, b.executed, call, g);
      assert Executions(world, b.executed, g) == Counted(b.fingerprints, g) <= 2;
    }
  }

  function Reply(result: ToolResult): Message {
    Message(Tool, ToolReply(result), None)
  }

  function Appended(world: World, b: Books, a: Answer): Books {
    b.(messages := b.messages + [Reply(a.result)],
       totalBytes := b.totalBytes + a.result.contentBytes,
       answered := b.answered + [a],
       trace := if b.trace.None? then None
                else Some(b.trace.value.(toolCalls := b.trace.value.toolCalls + [Record(world, a)],
                                         sourceRefs := b.trace.value.sourceRefs + a.result.sourceRefs)))
  }

  lemma AppendedKeeps(world: World, b: Books, a: Answer)
    requires TraceKept(world, b) && ResultsKept(world, b) && Genuine(world, a)
    ensures TraceKept(world, Appended(world, b, a)) && ResultsKept(world, Appended(world, b, a))
    ensures CallsCounted(world, b) ==> CallsCounted(world, Appended(world, b, a))
  {
    ResultsSnoc(b.messages, Reply(a.result));
    assert (b.answered + [a])[..|b.answered|] == b.answered;
    assert (Results(b.messages) + [a.result])[..|Results(b.messages)|] == Results(b.messages);
  }

  lemma AppendedFields(world: World, b: Books, a: Answer)
    ensures var c := Appended(world, b, a);
      && c.fingerprints == b.fingerprints && c.executed == b.executed
      && c.totalBytes == b.totalBytes + a.result.contentBytes && c.messages == b.messages + [Reply(a.result)]
      && (c.trace.Some? <==> b.trace.Some?)
      && (c.trace.Some? ==> c.trace.value == b.trace.value.(toolCalls := c.trace.value.toolCalls, sourceRefs := c.trace.value.sourceRefs))
      && c.answered == b.answered + [a]
  {
  }

  /** Enters a result into the trace and the history. */
  method AppendResult(world: World, b0: Books, a: Answer) returns (b: Books)
    ensures b == Appended(world, b0, a)
  {
    b := b0;
    if b.trace.Some? {
      var trace := b.trace.value;
      trace := trace.(sourceRefs := trace.sourceRefs + a.result.sourceRefs);
      trace := trace.(toolCalls := trace.toolCalls + [Record(world, a)]);
      b := b.(trace := Some(trace));
    }
    b := b.(messages := b.messages + [Reply(a.result)], totalBytes := b.totalBytes + a.result.contentBytes, answered := b.answered + [a]);
  }

  /** The log of one round: its first `k` calls, in order, each answered at its own position. */
  ghost predicate Logged(round: nat, calls: seq<ToolCall>, k: nat, before: seq<Answer>, after: seq<Answer>) {
    && k <= |calls| && before <= after && |after| == |before| + k
    && forall j :: |before| <= j < |after| ==>
         after[j].round == round && after[j].index == j - |before| && after[j].call == calls[j - |before|]
  }

  lemma NothingLogged(round: nat, calls: seq<ToolCall>, answered: seq<Answer>)
    ensures Logged(round, calls, 0, answered, answered)
  {
  }

  lemma LoggedStep(calls: seq<ToolCall>, k: nat, before: seq<Answer>, after: seq<Answer>, a: Answer)
    requires k < |calls| && Logged(a.round, calls, k, before, after) && a.index == k && a.call == calls[k]
    ensures Logged(a.round, calls, k + 1, before, after + [a])
  {
  }

  /** What running the tools of a round did to the books, whether or not it succeeded. */
  ghost predicate ToolsRan(round: nat, calls: seq<ToolCall>, done: nat, b0: Books, b: Books) {
    && Logged(round, calls, done, b0.answered, b.answered)
    && (b.executed == b0.executed + calls[..done] || (done < |calls| && b.executed == b0.executed + calls[..done + 1]))
  }

  /** Why the call at position `k` of a round ended the turn, and under which code. */
  ghost predicate CallRefused(world: World, limits: Limits, round: nat, k: nat, call: ToolCall, b: Books, code: string) {
    || world.fingerprint(call) == Err(code)
    || (world.fingerprint(call).Ok? && Executions(world, b.executed, world.fingerprint(call).value) == 2
        && code == "AGENT_LOOP_REPEATED_CALL")
    || world.execute(round, k, call) == Err(code)
    || (world.execute(round, k, call).Ok? && b.totalBytes + world.execute(round, k, call).value.contentBytes > limits.maxResultBytes
        && code == "TOOL_RESULT_LIMIT_REACHED")
  }

  lemma CallStops(world: World, limits: Limits, round: nat, calls: seq<ToolCall>, k: nat, b0: Books, b: Books, code: string)
    requires LimitsFit(limits) && k < |calls| && CallsCounted(world, b) && Logged(round, calls, k, b0.answered, b.answered)
    requires b.executed == b0.executed + calls[..k] || b.executed == b0.executed + calls[..k + 1]
    requires var fingerprint, executed := world.fingerprint(calls[k]), world.execute(round, k, calls[k]);
      || fingerprint == Err(code) || executed == Err(code)
      || (fingerprint.Ok? && Counted(b.fingerprints, fingerprint.value) >= 2 && code == "AGENT_LOOP_REPEATED_CALL")
      || (executed.Ok? && code == "TOOL_RESULT_LIMIT_REACHED"
          && var total := b.totalBytes + executed.value.contentBytes; total > U32_MAX || total > limits.maxResultBytes)
    ensures ToolsRan(round, calls, k, b0, b) && AtMostTwice(world, b.executed) && CallRefused(world, limits, round, k, calls[k], b, code)
  {
    hide Logged, Executions, Counted;
    assert forall f :: Executions(world, b.executed, f) == Counted(b.fingerprints, f);
  }

  lemma CallsRan(world: World, round: nat, calls: seq<ToolCall>, b0: Books, b: Books)
    requires CallsCounted(world, b) && Logged(round, calls, |calls|, b0.answered, b.answered) && b.executed == b0.executed + calls
    ensures ToolsRan(round, calls, |calls|, b0, b) && AtMostTwice(world, b.executed)
  {
    hide Logged, Executions, Counted;
    assert calls[..|calls|] == calls;
    assert forall f :: Executions(world, b.executed, f) == Counted(b.fingerprints, f);
  }

  /**
   Executes the calls of one round in order and appends their results. On success every call has
   been executed once and answered; on failure the books still balance.
   */
  method ExecuteCalls(world: World, limits: Limits, round: nat, calls: seq<ToolCall>, events0: seq<AgentEvent>, b0: Books)
    returns (r: Result<()>, events: seq<AgentEvent>, b: Books, k: nat)
    requires LimitsFit(limits) && BooksBalance(world, limits, b0)
    ensures TraceKept(world, b) && ResultsKept(world, b) && AtMostTwice(world, b.executed)
    ensures b.totalBytes <= limits.maxResultBytes
    ensures k <= |calls| && events == events0 + Progress(round, k, if |calls| > U16_MAX then U16_MAX else |calls|)
    ensures ToolsRan(round, calls, k, b0, b)
    ensures r.Err? ==> k < |calls| && CallRefused(world, limits, round, k, calls[k], b, r.code)
    ensures b.trace.Some? <==> b0.trace.Some?
    ensures b.trace.Some? ==> b.trace.value == b0.trace.value.(toolCalls := b.trace.value.toolCalls, sourceRefs := b.trace.value.sourceRefs)
    ensures r.Ok? ==>
      && BooksBalance(world, limits, b) && b.executed == b0.executed + calls && k == |calls|
      && b0.messages <= b.messages
      && |b.messages| == |b0.messages| + |calls|
      && forall i :: 0 <= i < |calls| ==>
           world.execute(round, i, calls[i]).Ok? && b.messages[|b0.messages| + i] == Reply(world.execute(round, i, calls[i]).value)
  {
    hide *;
    NothingLogged(round, calls, b0.answered);
    r, events, b, k := Ok(()), events0, b0, 0;
    var callCount := if |calls| > U16_MAX then U16_MAX else |calls|;
    BalanceParts(world, limits, b0);
    assert b0.executed + calls[..0] == b0.executed;
    ProgressNone(events0, round, callCount);
    while k < |calls|
      invariant 0 <= k <= |calls|
      invariant TraceKept(world, b) && ResultsKept(world, b) && CallsCounted(world, b) && b.totalBytes <= limits.maxResultBytes
      invariant events == events0 + Progress(round, k, callCount)
      invariant b.executed == b0.executed + calls[..k] && Logged(round, calls, k, b0.answered, b.answered)
      invariant b.trace.Some? <==> b0.trace.Some?
      invariant b.trace.Some? ==> b.trace.value == b0.trace.value.(toolCalls := b.trace.value.toolCalls, sourceRefs := b.trace.value.sourceRefs)
      invariant b0.messages <= b.messages && |b.messages| == |b0.messages| + k
      invariant forall i :: 0 <= i < k ==>
        world.execute(round, i, calls[i]).Ok? && b.messages[|b0.messages| + i] == Reply(world.execute(round, i, calls[i]).value)
    {
      var call := calls[k];
      var fingerprint, fingerprints := CountFingerprint(world, call, b.fingerprints);
      if fingerprint.Err? {
        CallStops(world, limits, round, calls, k, b0, b, fingerprint.code);
        return Err(fingerprint.code), events, b, k;
      }
      CountedStep(world, b, call, fingerprint.value);
      assert b.executed + [call] == b0.executed + calls[..k + 1];
      SameKept(world, b, fingerprints, b.executed + [call]);
      b := b.(fingerprints := fingerprints, executed := b.executed + [call]);
      var executed := world.execute(round, k, call);
      if executed.Err? {
        CallStops(world, limits, round, calls, k, b0, b, executed.code);
        return Err(executed.code), events, b, k;
      }
      var result := executed.value;
      var total := b.totalBytes + result.contentBytes;
      if total > U32_MAX || total > limits.maxResultBytes {
        CallStops(world, limits, round, calls, k, b0, b, "TOOL_RESULT_LIMIT_REACHED");
        return Err("TOOL_RESULT_LIMIT_REACHED"), events, b, k;
      }
      var answer := Answer(round, k, call, fingerprint.value, result);
      AppendedKeeps(world, b, answer);
      AppendedFields(world, b, answer);
      LoggedStep(calls, k, b0.answered, b.answered, answer);
      b := AppendResult(world, b, answer);
      ProgressStep(events0, round, k, callCount);
      events := events + [ToolProgress(round, if k + 1 > U16_MAX then U16_MAX else k + 1, callCount)];
      k := k + 1;
    }
    assert calls[..k] == calls;
    CallsRan(world, round, calls, b0, b);
    BalanceParts(world, limits, b);
  }

  lemma BalanceParts(world: World, limits: Limits, b: Books)
    ensures BooksBalance(world, limits, b) <==>
      TraceKept(world, b) && ResultsKept(world, b) && CallsCounted(world, b) && b.totalBytes <= limits.maxResultBytes
  {
  }

  lemma SameKept(world: World, b: Books, fingerprints: map<string, nat>, executed: seq<ToolCall>)
    requires TraceKept(world, b) && ResultsKept(world, b)
    ensures var c := b.(fingerprints := fingerprints, executed := executed); TraceKept(world, c) && ResultsKept(world, c)
  {
  }

  lemma ProgressNone(events: seq<AgentEvent>, round: nat, total: nat)
    ensures events == events + Progress(round, 0, total)
  {
  }

  lemma ProgressStep(events: seq<AgentEvent>, round: nat, done: nat, total: nat)
    ensures events + Progress(round, done, total) + [ToolProgress(round, if done + 1 > U16_MAX then U16_MAX else done + 1, total)]
         == events + Progress(round, done + 1, total)
  {
  }

  // The whole turn.

  ghost predicate LawfulBackend(world: World) {
    forall round: nat, ms: seq<Message> :: world.backend(round, ms).Ok? ==>
      LawfulRound(world.backend(round, ms).value) && LawfulParts(world.backend(round, ms).value)
  }

  /** No stream of the backend requests more than `n` calls. */
  ghost predicate BackendRequestsAtMost(n: nat, world: World) {
    forall round: nat, ms: seq<Message> :: world.backend(round, ms).Ok? ==> RequestsAtMost(n, world.backend(round, ms).value)
  }

  /** The 16-bit call count can bound the real one: the limit is not the largest, or no list is clipped. */
  ghost predicate Countable(limits: Limits, world: World) {
    limits.maxToolCalls < U16_MAX || BackendRequestsAtMost(U16_MAX, world)
  }

  /** Every request has the shape the provider encodings and the egress gate accept. */
  ghost predicate Sendable(world: World, ms: seq<Message>) {
    && (LawfulGateway(world) ==> WellPaired(ms))
    && (LawfulBackend(world) ==> PartsLawful(ms))
  }

  /** Every history sent begins with the request's and can be sent. */
  ghost predicate AllSendable(world: World, request: Request, requests: seq<seq<Message>>) {
    forall k :: 0 <= k < |requests| ==> Sendable(world, requests[k]) && request.messages <= requests[k]
  }

  function CancellationPayload(contract: Contract, partial: string): CancelledPayload {
    match contract
    case AdvisorMarkdown => PartialMarkdown(partial)
    case AuditAnswerBundle(_) => NoContent
  }

  function TraceId(trace: Option<GroundingTrace>): Option<Uuid> {
    if trace.Some? then Some(trace.value.id) else None
  }

  function AttachReceiptIds(world: World, trace: Option<GroundingTrace>): Result<Option<GroundingTrace>> {
    if trace.None? || world.receiptIds.None? then Ok(trace)
    else match world.receiptIds.value
      case Err(code) => Err(code)
      case Ok(ids) => Ok(Some(trace.value.(receiptIds := ids)))
  }

  function InitialTrace(request: Request, traceId: Uuid): Option<GroundingTrace> {
    if request.snapshotId.None? then None
    else Some(GroundingTrace(traceId, request.conversationId, request.turnId, request.snapshotId, [], [], []))
  }

  /** An audit bundle shown to the user was validated against the turn's own trace. */
  ghost predicate ValidatedHere(world: World, request: Request, trace: Option<GroundingTrace>, bundle: AnswerBundle) {
    exists text :: AuditBundle.Validated(world.showConfidence, world.parseBundle(text), request.requestId, trace) == Ok(bundle)
  }

  /**
   A turn that returned normally: exactly one terminal event, and it is the last. An advisor's
   markdown is the text that was streamed; an audit turn streams no text and keeps no partial text.
   */
  ghost predicate Concluded(world: World, request: Request, events: seq<AgentEvent>, trace: Option<GroundingTrace>) {
    && events != [] && IsTerminal(events[|events| - 1]) && NoTerminal(events[..|events| - 1])
    && var last := events[|events| - 1];
       if request.contract.AdvisorMarkdown? then
         && (last.Cancelled? ==> last.cancelled == PartialMarkdown(VisibleText(events)))
         && (last.Completed? ==> last.completed.AdvisorText? && last.traceId == TraceId(trace))
         && (last.Completed? && LawfulBackend(world) ==> last.completed.markdown == VisibleText(events))
       else
         && NoText(events)
         && (last.Cancelled? ==> last.cancelled == NoContent)
         && (last.Completed? ==> last.completed.ValidatedBundle? && last.traceId == TraceId(trace))
         && (last.Completed? ==> ValidatedHere(world, request, trace, last.completed.bundle))
  }

  ghost predicate AuditEndsWith(validated: Result<AnswerBundle>, id: Option<Uuid>, last: AgentEvent) {
    match validated
    case Ok(bundle) => last == Completed(ValidatedBundle(bundle), id)
    case Err(_) => last == Failed("AUDIT_RESPONSE_INVALID")
  }

  /** The terminal event that the end of a round gives, after `prior` and this round's `roundText`. */
  ghost predicate EventOf(world: World, request: Request, prior: string, roundText: string, end: RoundEvent, trace: Option<GroundingTrace>, last: AgentEvent) {
    var id := if trace.Some? then Some(trace.value.id) else None;
    && (end.RoundFailed? && end.code != "CANCELLED" ==> last == Failed(end.code))
    && (end.RoundFailed? && end.code == "CANCELLED" ==>
          last == Cancelled(if request.contract.AdvisorMarkdown? then PartialMarkdown(prior + roundText) else NoContent))
    && (end.RawCompleted? && request.contract.AdvisorMarkdown? ==> last == Completed(AdvisorText(prior + end.fullText), id))
    && (end.RawCompleted? && request.contract.AuditAnswerBundle? ==>
          AuditEndsWith(AuditBundle.Validated(world.showConfidence, world.parseBundle(end.fullText), request.requestId, trace), id, last))
  }

  /** Emits the terminal event of a round that ended the turn. */
  method Conclude(world: World, request: Request, prior: string, ghost stream: seq<RoundEvent>, roundText: string, end: RoundEvent,
                  trace: Option<GroundingTrace>, events0: seq<AgentEvent>)
    returns (events: seq<AgentEvent>)
    requires end.RawCompleted? || end.RoundFailed?
    requires FirstEnd(stream) < |stream| && end == stream[FirstEnd(stream)] && roundText == StreamedText(stream[..FirstEnd(stream)])
    requires LawfulBackend(world) ==> LawfulRound(stream)
    requires Shown(request.contract, events0, prior + roundText)
    ensures Concluded(world, request, events, trace)
    ensures events0 <= events && |events| == |events0| + 1
    ensures events[..|events0|] == events0 && EventOf(world, request, prior, roundText, end, trace, events[|events0|])
  {
    hide LawfulBackend, LawfulRound, AuditBundle.Validated, StreamedText, Shown, Concluded, FirstEnd;
    var event;
    match end {
      case RawCompleted(fullText) =>
        match request.contract {
          case AdvisorMarkdown =>
            event := Completed(AdvisorText(prior + fullText), TraceId(trace));
          case AuditAnswerBundle(_) =>
            var validated := AuditBundle.ValidateAuditBundle(world.showConfidence, world.parseBundle(fullText), request.requestId, trace);
            event := match validated
              case Ok(bundle) => Completed(ValidatedBundle(bundle), TraceId(trace))
              case Err(_) => Failed("AUDIT_RESPONSE_INVALID");
        }
      case RoundFailed(code) =>
        if code == "CANCELLED" {
          event := Cancelled(CancellationPayload(request.contract, prior + roundText));
        } else {
          event := Failed(code);
        }
    }
    events := events0 + [event];
    assert events[..|events| - 1] == events0;
    EventConcludes(world, request, prior, stream, roundText, end, trace, events0, event);
  }

  lemma EventConcludes(world: World, request: Request, prior: string, stream: seq<RoundEvent>, roundText: string, end: RoundEvent,
                       trace: Option<GroundingTrace>, events: seq<AgentEvent>, last: AgentEvent)
    requires end.RawCompleted? || end.RoundFailed?
    requires FirstEnd(stream) < |stream| && end == stream[FirstEnd(stream)] && roundText == StreamedText(stream[..FirstEnd(stream)])
    requires LawfulBackend(world) ==> LawfulRound(stream)
    requires Shown(request.contract, events, prior + roundText) && EventOf(world, request, prior, roundText, end, trace, last)
    ensures Concluded(world, request, events + [last], trace)
  {
    hide LawfulBackend, AuditBundle.Validated, VisibleText, NoText, NoTerminal, Shown, StreamedText, ValidatedHere, LawfulRound, FirstEnd;
    EndIsShown(request.contract, events, prior + roundText, last);
    if end.RawCompleted? {
      if LawfulBackend(world) { CompletedIsStreamed(stream); }
      if request.contract.AuditAnswerBundle? && last.Completed? {
        BundleIsHere(world, request, trace, end.fullText, last.completed.bundle);
      }
    }
  }

  lemma CompletedIsStreamed(stream: seq<RoundEvent>)
    requires LawfulRound(stream) && FirstEnd(stream) < |stream|
    ensures var end := stream[FirstEnd(stream)]; end.RawCompleted? ==> end.fullText == StreamedText(stream[..FirstEnd(stream)])
  {
  }

  lemma BundleIsHere(world: World, request: Request, trace: Option<GroundingTrace>, text: string, bundle: AnswerBundle)
    requires AuditBundle.Validated(world.showConfidence, world.parseBundle(text), request.requestId, trace) == Ok(bundle)
    ensures ValidatedHere(world, request, trace, bundle)
  {
  }

  lemma EndIsShown(contract: Contract, events: seq<AgentEvent>, text: string, last: AgentEvent)
    requires Shown(contract, events, text) && !last.TextDelta?
    ensures var all := events + [last];
      && all[..|all| - 1] == events && NoTerminal(events)
      && (contract.AdvisorMarkdown? ==> VisibleText(all) == text)
      && (contract.AuditAnswerBundle? ==> NoText(all))
  {
    var all := events + [last];
    assert all[..|all| - 1] == events;
    assert VisibleText(events) + "" == VisibleText(events);
  }

  lemma CancelledConcludes(world: World, request: Request, prior: string, trace: Option<GroundingTrace>, events: seq<AgentEvent>)
    requires Shown(request.contract, events, prior)
    ensures Concluded(world, request, events + [Cancelled(CancellationPayload(request.contract, prior))], trace)
  {
    var all := events + [Cancelled(CancellationPayload(request.contract, prior))];
    assert all[..|all| - 1] == events;
    assert VisibleText(events) + "" == VisibleText(events);
  }

  /** Pushing the assistant's text and tool calls, then the results, keeps the history sendable. */
  lemma RoundKeepsSendable(world: World, before: seq<Message>, roundText: string, calls: seq<ToolCall>, parts: Option<seq<Json>>, round: nat, after: seq<Message>)
    requires Sendable(world, before)
    requires LawfulBackend(world) ==> PartsMatch(parts, calls)
    requires var middle := before + (if roundText == "" then [] else [Message(Assistant, SayText(roundText), None)]) + [Message(Assistant, CallTools(calls), parts)];
      && middle <= after && |after| == |middle| + |calls|
      && forall i :: 0 <= i < |calls| ==>
           world.execute(round, i, calls[i]).Ok? && after[|middle| + i] == Reply(world.execute(round, i, calls[i]).value)
    ensures Sendable(world, after)
  {
    hide LawfulGateway, LawfulBackend, WellPaired, PartsMatch, PartsLawful;
    var said := if roundText == "" then [] else [Message(Assistant, SayText(roundText), None)];
    var call := Message(Assistant, CallTools(calls), parts);
    var replies := after[|before + said + [call]|..];
    assert after == before + (said + ([call] + replies));
    forall i | 0 <= i < |calls|
      ensures world.execute(round, i, calls[i]).Ok? && replies[i] == Reply(world.execute(round, i, calls[i]).value)
    {
      assert after[|before + said + [call]| + i] == replies[i];
    }
    if LawfulGateway(world) {
      AnswersPair(world, calls, round, replies);
      RoundIsWellPaired(call, replies);
      TextIsWellPaired(said);
      WellPairedAppend(said, [call] + replies);
      WellPairedAppend(before, said + ([call] + replies));
    }
    if LawfulBackend(world) {
      RepliesAreLawful(world, calls, round, replies);
      FrontIsLawful(roundText, calls, parts);
      PartsLawfulAppend([call], replies);
      PartsLawfulAppend(said, [call] + replies);
      PartsLawfulAppend(before, said + ([call] + replies));
    }
  }

  lemma FrontIsLawful(roundText: string, calls: seq<ToolCall>, parts: Option<seq<Json>>)
    requires PartsMatch(parts, calls)
    ensures PartsLawful(if roundText == "" then [] else [Message(Assistant, SayText(roundText), None)])
    ensures PartsLawful([Message(Assistant, CallTools(calls), parts)])
  {
    hide PartsMatch;
  }

  lemma PartsLawfulAppend(a: seq<Message>, b: seq<Message>)
    requires PartsLawful(a) && PartsLawful(b)
    ensures PartsLawful(a + b)
  {
    hide PartsMatch;
  }

  lemma RepliesAreLawful(world: World, calls: seq<ToolCall>, round: nat, replies: seq<Message>)
    requires |replies| == |calls|
    requires forall i :: 0 <= i < |calls| ==>
      world.execute(round, i, calls[i]).Ok? && replies[i] == Reply(world.execute(round, i, calls[i]).value)
    ensures PartsLawful(replies)
  {
    hide PartsMatch;
  }

  lemma AnswersPair(world: World, calls: seq<ToolCall>, round: nat, replies: seq<Message>)
    requires LawfulGateway(world) && |replies| == |calls|
    requires forall i :: 0 <= i < |calls| ==>
      world.execute(round, i, calls[i]).Ok? && replies[i] == Reply(world.execute(round, i, calls[i]).value)
    ensures Answers(calls, replies)
  {
  }

  lemma PushedBalance(world: World, limits: Limits, b: Books, m: Message)
    requires BooksBalance(world, limits, b) && !m.content.ToolReply?
    ensures BooksBalance(world, limits, b.(messages := b.messages + [m]))
  {
    ResultsSnoc(b.messages, m);
    assert Results(b.messages) + [] == Results(b.messages);
  }

  lemma InitialBalance(world: World, request: Request, traceId: Uuid)
    requires forall k :: 0 <= k < |request.messages| ==> Says(request.messages[k])
    ensures BooksBalance(world, request.limits, Books(request.messages, 0, map[], InitialTrace(request, traceId), [], []))
    ensures Sendable(world, request.messages)
  {
    NoResultsInText(request.messages);
    TextIsWellPaired(request.messages);
  }

  ghost predicate TraceIdentity(request: Request, traceId: Uuid, trace: Option<GroundingTrace>) {
    && (trace.Some? <==> request.snapshotId.Some?)
    && (trace.Some? ==>
          && trace.value.id == traceId && trace.value.conversationId == request.conversationId
          && trace.value.turnId == request.turnId && trace.value.snapshotId == request.snapshotId
          && trace.value.receiptIds == [])
  }

  /** The trace a turn returns: the one it kept, with the receipts' ids where a gate gives them. */
  ghost predicate Returned(world: World, kept: Option<GroundingTrace>, r: Option<GroundingTrace>) {
    && (r.Some? <==> kept.Some?)
    && (r.Some? ==>
          && r.value.id == kept.value.id && r.value.conversationId == kept.value.conversationId
          && r.value.turnId == kept.value.turnId && r.value.snapshotId == kept.value.snapshotId
          && r.value.toolCalls == kept.value.toolCalls && r.value.sourceRefs == kept.value.sourceRefs
          && (world.receiptIds.None? ==> r.value.receiptIds == kept.value.receiptIds)
          && (world.receiptIds.Some? ==> world.receiptIds.value == Ok(r.value.receiptIds)))
  }

  /** The books at a point where the next round can start. */
  ghost predicate Standing(world: World, request: Request, traceId: Uuid, b: Books) {
    && BooksBalance(world, request.limits, b)
    && Sendable(world, b.messages) && request.messages <= b.messages
    && TraceIdentity(request, traceId, b.trace)
  }

  // What the rounds said, given the history each was sent.

  /** The events of one round before the first that ended it. */
  function Said(world: World, round: nat, ms: seq<Message>): seq<RoundEvent> {
    if world.backend(round, ms).Ok? then world.backend(round, ms).value[..FirstEnd(world.backend(round, ms).value)] else []
  }

  function EndOf(world: World, round: nat, ms: seq<Message>): Option<RoundEvent> {
    if world.backend(round, ms).Ok? && FirstEnd(world.backend(round, ms).value) < |world.backend(round, ms).value|
    then Some(world.backend(round, ms).value[FirstEnd(world.backend(round, ms).value)])
    else None
  }

  /** The calls a round requested. */
  function CallsOf(world: World, round: nat, ms: seq<Message>): seq<ToolCall> {
    var end := EndOf(world, round, ms);
    if end.Some? && end.value.ToolCallsRequested? then end.value.calls else []
  }

  ghost predicate Requests(world: World, round: nat, ms: seq<Message>) {
    var end := EndOf(world, round, ms); end.Some? && end.value.ToolCallsRequested?
  }

  /** A history with one round's text, calls and results behind it. */
  ghost predicate Extends(world: World, round: nat, text: string, parts: Option<seq<Json>>, calls: seq<ToolCall>,
                          before: seq<Message>, after: seq<Message>) {
    var front := before + (if text == "" then [] else [Message(Assistant, SayText(text), None)]) + [Message(Assistant, CallTools(calls), parts)];
    && front <= after && |after| == |front| + |calls|
    && forall i :: 0 <= i < |calls| ==>
         world.execute(round, i, calls[i]).Ok? &&
         after[|front| + i] == Message(Tool, ToolReply(world.execute(round, i, calls[i]).value), None)
  }

  /** A round that requested tools, and the history it left to the next. */
  ghost predicate Continues(world: World, round: nat, before: seq<Message>, after: seq<Message>) {
    && Requests(world, round, before)
    && Extends(world, round, StreamedText(Said(world, round, before)), LastParts(Said(world, round, before)), CallsOf(world, round, before), before, after)
  }

  /** The histories of a turn: the first is the request's, and each round continues the one before. */
  ghost predicate Chained(world: World, request: Request, histories: seq<seq<Message>>) {
    && (histories != [] ==> histories[0] == request.messages)
    && forall k :: 0 <= k < |histories| - 1 ==> Continues(world, k + 1, histories[k], histories[k + 1])
  }

  /** The text of the rounds so far. */
  function SaidText(world: World, requests: seq<seq<Message>>): string {
    if requests == [] then ""
    else SaidText(world, requests[..|requests| - 1]) + StreamedText(Said(world, |requests|, requests[|requests| - 1]))
  }

  /** The calls requested so far. */
  function Called(world: World, requests: seq<seq<Message>>): seq<ToolCall> {
    if requests == [] then [] else Called(world, requests[..|requests| - 1]) + CallsOf(world, |requests|, requests[|requests| - 1])
  }

  /** The calls requested so far, counted in 16 bits a round. */
  function CallCount(world: World, requests: seq<seq<Message>>): nat {
    if requests == [] then 0
    else
      var n := |CallsOf(world, |requests|, requests[|requests| - 1])|;
      CallCount(world, requests[..|requests| - 1]) + if n > U16_MAX then U16_MAX else n
  }

  /** What the rounds so far showed: the events passed on, then progress call by call. */
  function Told(world: World, contract: Contract, requests: seq<seq<Message>>): seq<AgentEvent> {
    if requests == [] then []
    else
      var round, ms := |requests|, requests[|requests| - 1];
      var n := |CallsOf(world, round, ms)|;
      Told(world, contract, requests[..round - 1]) + (Passed(contract, Said(world, round, ms)) + Progress(round, n, if n > U16_MAX then U16_MAX else n))
  }

  /** The k-th executed call, where it was answered, was answered at its own place in its own round. */
  ghost predicate Placed(world: World, requests: seq<seq<Message>>, b: Books) {
    && |b.answered| <= |b.executed|
    && forall i :: 0 <= i < |b.answered| ==>
         var a := b.answered[i];
         && a.call == b.executed[i] && 1 <= a.round <= |requests|
         && a.index < |CallsOf(world, a.round, requests[a.round - 1])| && CallsOf(world, a.round, requests[a.round - 1])[a.index] == a.call
  }

  /** No round was started once the user had cancelled. */
  ghost predicate NeverCancelled(world: World, rounds: nat) {
    forall k :: 1 <= k <= rounds ==> !world.cancelledAt(k)
  }

  /** The event that ends a turn normally, given the histories its rounds were sent. */
  ghost predicate EndsWith(world: World, request: Request, traceId: Uuid, requests: seq<seq<Message>>, trace: Option<GroundingTrace>, last: AgentEvent) {
    var n := |requests|;
    var id := if request.snapshotId.Some? then Some(traceId) else None;
    if n == 0 || Requests(world, n, requests[n - 1]) then
      && n < request.limits.maxRounds && world.cancelledAt(n + 1)
      && last == Cancelled(if request.contract.AdvisorMarkdown? then PartialMarkdown(SaidText(world, requests)) else NoContent)
    else
      match EndOf(world, n, requests[n - 1])
      case Some(RawCompleted(text)) =>
        if request.contract.AdvisorMarkdown? then last == Completed(AdvisorText(SaidText(world, requests[..n - 1]) + text), id)
        else AuditEndsWith(AuditBundle.Validated(world.showConfidence, world.parseBundle(text), request.requestId, trace), id, last)
      case Some(RoundFailed(code)) =>
        if code == "CANCELLED"
        then last == Cancelled(if request.contract.AdvisorMarkdown? then PartialMarkdown(SaidText(world, requests)) else NoContent)
        else last == Failed(code)
      case _ => false
  }

  /** Why the calls of a round ended the turn, and under which code; `total` counts them in. */
  ghost predicate ToolsRefused(world: World, limits: Limits, round: nat, calls: seq<ToolCall>, total: nat, b: Books, code: string) {
    if !world.hasGateway then code == "REPOSITORY_TOOL_UNAVAILABLE"
    else if total > limits.maxToolCalls then code == LOOP_LIMIT
    else exists k :: 0 <= k < |calls| && CallRefused(world, limits, round, k, calls[k], b, code)
  }

  /** Why a turn ended without a terminal event, and under which code. */
  ghost predicate Refused(world: World, request: Request, requests: seq<seq<Message>>, b: Books, code: string) {
    var n := |requests|;
    || (n == request.limits.maxRounds && code == LOOP_LIMIT && (n > 0 ==> Requests(world, n, requests[n - 1])))
    || (n > 0 && world.backend(n, requests[n - 1]) == Err(code))
    || (n > 0 && world.backend(n, requests[n - 1]).Ok? && EndOf(world, n, requests[n - 1]).None? && code == "AGENT_ROUND_TERMINAL_MISSING")
    || (n > 0 && Requests(world, n, requests[n - 1])
        && ToolsRefused(world, request.limits, n, CallsOf(world, n, requests[n - 1]), CallCount(world, requests), b, code))
  }

  /** The whole turn between its rounds, told from the histories the rounds were sent. */
  ghost predicate Retraced(world: World, request: Request, requests: seq<seq<Message>>, prior: string, totalCalls: nat, events: seq<AgentEvent>, b: Books) {
    && Chained(world, request, requests + [b.messages]) && NeverCancelled(world, |requests|)
    && prior == SaidText(world, requests) && totalCalls == CallCount(world, requests)
    && events == [Started(request.requestId)] + Told(world, request.contract, requests)
    && b.executed == Called(world, requests) && Placed(world, requests, b) && |b.answered| == |b.executed|
  }

  /**
   The whole turn, told from the histories its rounds were sent: what was sent, executed and shown,
   and the event or the error it ended with.
   */
  ghost predicate Retold(world: World, request: Request, traceId: Uuid, r: Result<Option<GroundingTrace>>, events: seq<AgentEvent>, b: Books, requests: seq<seq<Message>>) {
    && Chained(world, request, requests) && NeverCancelled(world, |requests|) && Placed(world, requests, b)
    && (r.Ok? ==>
          && events != [] && events[..|events| - 1] == [Started(request.requestId)] + Told(world, request.contract, requests)
          && EndsWith(world, request, traceId, requests, b.trace, events[|events| - 1])
          && b.executed == Called(world, requests) && |b.answered| == |b.executed|
          && Returned(world, b.trace, r.value))
    && (r.Err? ==>
          && b.executed <= Called(world, requests)
          && (Refused(world, request, requests, b, r.code) || world.receiptIds == Some(Err(r.code))))
  }

  lemma RetoldNormally(world: World, request: Request, traceId: Uuid, r: Result<Option<GroundingTrace>>, shown: seq<AgentEvent>, last: AgentEvent, b: Books, requests: seq<seq<Message>>)
    requires Chained(world, request, requests) && NeverCancelled(world, |requests|) && Placed(world, requests, b)
    requires shown == [Started(request.requestId)] + Told(world, request.contract, requests)
    requires EndsWith(world, request, traceId, requests, b.trace, last)
    requires b.executed == Called(world, requests) && |b.answered| == |b.executed|
    requires if r.Ok? then Returned(world, b.trace, r.value) else world.receiptIds == Some(Err(r.code))
    ensures Retold(world, request, traceId, r, shown + [last], b, requests)
  {
    hide Chained, NeverCancelled, Placed, Told, EndsWith, Called, Returned, Refused;
    var events := shown + [last];
    assert events[..|events| - 1] == shown;
  }

  lemma RetracedStart(world: World, request: Request, b: Books)
    requires b.messages == request.messages && b.executed == [] && b.answered == []
    ensures Retraced(world, request, [], "", 0, [Started(request.requestId)], b)
  {
  }

  /** A round has been asked for its answer: one history more, and nothing executed for it yet. */
  ghost predicate Asked(world: World, request: Request, asked: seq<seq<Message>>, prior: string, totalCalls: nat, events: seq<AgentEvent>, b: Books) {
    && asked != [] && b.messages == asked[|asked| - 1]
    && Chained(world, request, asked) && NeverCancelled(world, |asked|) && Placed(world, asked, b) && |b.answered| == |b.executed|
    && var n, ms := |asked|, asked[|asked| - 1];
       var count := |CallsOf(world, n, ms)|;
       var clipped := if count > U16_MAX then U16_MAX else count;
       && SaidText(world, asked) == prior + StreamedText(Said(world, n, ms)) && SaidText(world, asked[..n - 1]) == prior
       && CallCount(world, asked) == totalCalls + clipped
       && [Started(request.requestId)] + Told(world, request.contract, asked)
          == events + Passed(request.contract, Said(world, n, ms)) + Progress(n, count, clipped)
       && Called(world, asked) == b.executed + CallsOf(world, n, ms)
  }

  lemma RoundIsAsked(world: World, request: Request, requests: seq<seq<Message>>, prior: string, totalCalls: nat, events: seq<AgentEvent>, b: Books)
    requires Retraced(world, request, requests, prior, totalCalls, events, b) && !world.cancelledAt(|requests| + 1)
    ensures Asked(world, request, requests + [b.messages], prior, totalCalls, events, b)
  {
    hide Continues, Passed, Progress, CallsOf, Said, StreamedText;
    var asked := requests + [b.messages];
    assert asked[..|asked| - 1] == requests;
  }

  lemma ChainGrows(world: World, request: Request, asked: seq<seq<Message>>, after: seq<Message>)
    requires asked != [] && Chained(world, request, asked) && Continues(world, |asked|, asked[|asked| - 1], after)
    ensures Chained(world, request, asked + [after])
  {
    hide Continues;
  }

  lemma StillPlaced(world: World, asked: seq<seq<Message>>, b0: Books, b: Books, k: nat)
    requires asked != [] && Placed(world, asked, b0) && |b0.answered| == |b0.executed|
    requires var calls := CallsOf(world, |asked|, asked[|asked| - 1]);
      && Logged(|asked|, calls, k, b0.answered, b.answered)
      && (b.executed == b0.executed + calls[..k] || (k < |calls| && b.executed == b0.executed + calls[..k + 1]))
    ensures Placed(world, asked, b)
  {
    hide CallsOf;
    var calls := CallsOf(world, |asked|, asked[|asked| - 1]);
    forall i | 0 <= i < |b.answered|
      ensures var a := b.answered[i];
        && a.call == b.executed[i] && 1 <= a.round <= |asked|
        && a.index < |CallsOf(world, a.round, asked[a.round - 1])| && CallsOf(world, a.round, asked[a.round - 1])[a.index] == a.call
    {
      if i < |b0.answered| {
        assert b.answered[i] == b0.answered[i] && b.executed[i] == b0.executed[i];
      } else {
        var j := i - |b0.answered|;
        assert b.answered[i].call == calls[j] && b.executed[i] == calls[j];
      }
    }
  }

  /** What the books say however the turn ended. */
  ghost predicate Settled(world: World, request: Request, traceId: Uuid, b: Books) {
    && AtMostTwice(world, b.executed)
    && ResultsKept(world, b) && b.totalBytes <= request.limits.maxResultBytes
    && TraceKept(world, b) && TraceIdentity(request, traceId, b.trace)
  }

  lemma StandingIsSettled(world: World, request: Request, traceId: Uuid, b: Books)
    requires Standing(world, request, traceId, b)
    ensures Settled(world, request, traceId, b)
  {
  }

  /** One round that requests tools: remember the text, check the budgets, execute, append. */
  method RunTools(world: World, request: Request, traceId: Uuid, round: nat, roundText: string, parts: Option<seq<Json>>,
                  calls: seq<ToolCall>, totalCalls0: nat, events0: seq<AgentEvent>, b0: Books)
    returns (r: Result<()>, events: seq<AgentEvent>, b: Books, totalCalls: nat, ghost done: nat)
    requires LimitsFit(request.limits) && Standing(world, request, traceId, b0)
    requires LawfulBackend(world) ==> PartsMatch(parts, calls)
    requires totalCalls0 <= request.limits.maxToolCalls
    ensures events == events0 + Progress(round, done, if |calls| > U16_MAX then U16_MAX else |calls|)
    ensures Settled(world, request, traceId, b)
    ensures (request.limits.maxToolCalls < U16_MAX || |calls| <= U16_MAX) && |b0.executed| <= totalCalls0 ==>
      |b.executed| <= request.limits.maxToolCalls && (r.Ok? ==> |b.executed| <= totalCalls)
    ensures r.Ok? ==> Standing(world, request, traceId, b) && totalCalls <= request.limits.maxToolCalls
    ensures done <= |calls| && ToolsRan(round, calls, done, b0, b)
    ensures r.Err? ==>
      ToolsRefused(world, request.limits, round, calls, totalCalls0 + (if |calls| > U16_MAX then U16_MAX else |calls|), b, r.code)
    ensures r.Ok? ==>
      && done == |calls| && b.executed == b0.executed + calls
      && totalCalls == totalCalls0 + (if |calls| > U16_MAX then U16_MAX else |calls|)
      && Extends(world, round, roundText, parts, calls, b0.messages, b.messages)
  {
    hide *;
    StandingParts(world, request, traceId, b0);
    events, b, totalCalls, done := events0, b0, totalCalls0, 0;
    ProgressNone(events0, round, if |calls| > U16_MAX then U16_MAX else |calls|);
    ghost var history := b.messages;
    if roundText != "" {
      PushedBalance(world, request.limits, b, Message(Assistant, SayText(roundText), None));
      b := b.(messages := b.messages + [Message(Assistant, SayText(roundText), None)]);
    }
    BalanceSettles(world, request, traceId, b);
    NothingRan(round, calls, b0, b);
    if !world.hasGateway {
      RefusedAtOnce(world, request.limits, round, calls, totalCalls0 + (if |calls| > U16_MAX then U16_MAX else |calls|), b, "REPOSITORY_TOOL_UNAVAILABLE");
      return Err("REPOSITORY_TOOL_UNAVAILABLE"), events, b, totalCalls, done;
    }
    totalCalls := totalCalls + if |calls| > U16_MAX then U16_MAX else |calls|;
    if totalCalls > U16_MAX || totalCalls > request.limits.maxToolCalls {
      RefusedAtOnce(world, request.limits, round, calls, totalCalls, b, LOOP_LIMIT);
      return Err(LOOP_LIMIT), events, b, totalCalls, done;
    }
    PushedBalance(world, request.limits, b, Message(Assistant, CallTools(calls), parts));
    b := b.(messages := b.messages + [Message(Assistant, CallTools(calls), parts)]);
    ghost var b1 := b;
    r, events, b, done := ExecuteCalls(world, request.limits, round, calls, events, b);
    CallsRanSince(round, calls, done, b0, b1, b);
    if r.Err? { RefusedLater(world, request.limits, round, calls, totalCalls, done, b, r.code); }
    TraceStays(request, traceId, b0.trace, b.trace);
    RunSettles(world, request, traceId, b);
    if r.Ok? {
      assert history + [] == history;
      RoundKeepsSendable(world, history, roundText, calls, parts, round, b.messages);
      RoundExtends(world, round, roundText, parts, calls, history, b.messages);
      StandingAgain(world, request, traceId, b);
    }
  }

  lemma NothingRan(round: nat, calls: seq<ToolCall>, b0: Books, b: Books)
    requires b.executed == b0.executed && b.answered == b0.answered
    ensures ToolsRan(round, calls, 0, b0, b)
  {
  }

  lemma CallsRanSince(round: nat, calls: seq<ToolCall>, done: nat, b0: Books, b1: Books, b: Books)
    requires ToolsRan(round, calls, done, b1, b) && b1.executed == b0.executed && b1.answered == b0.answered
    ensures ToolsRan(round, calls, done, b0, b)
  {
  }

  lemma RefusedAtOnce(world: World, limits: Limits, round: nat, calls: seq<ToolCall>, total: nat, b: Books, code: string)
    requires LimitsFit(limits)
    requires if world.hasGateway then (total > U16_MAX || total > limits.maxToolCalls) && code == LOOP_LIMIT
             else code == "REPOSITORY_TOOL_UNAVAILABLE"
    ensures ToolsRefused(world, limits, round, calls, total, b, code)
  {
  }

  lemma RefusedLater(world: World, limits: Limits, round: nat, calls: seq<ToolCall>, total: nat, k: nat, b: Books, code: string)
    requires world.hasGateway && total <= limits.maxToolCalls && k < |calls| && CallRefused(world, limits, round, k, calls[k], b, code)
    ensures ToolsRefused(world, limits, round, calls, total, b, code)
  {
    hide CallRefused;
  }

  lemma StandingParts(world: World, request: Request, traceId: Uuid, b: Books)
    requires Standing(world, request, traceId, b)
    ensures BooksBalance(world, request.limits, b) && TraceIdentity(request, traceId, b.trace)
    ensures Sendable(world, b.messages) && request.messages <= b.messages
  {
  }

  lemma StandingAgain(world: World, request: Request, traceId: Uuid, b: Books)
    requires BooksBalance(world, request.limits, b) && TraceIdentity(request, traceId, b.trace)
    requires Sendable(world, b.messages) && request.messages <= b.messages
    ensures Standing(world, request, traceId, b)
  {
  }

  lemma TraceStays(request: Request, traceId: Uuid, before: Option<GroundingTrace>, after: Option<GroundingTrace>)
    requires TraceIdentity(request, traceId, before) && (after.Some? <==> before.Some?)
    requires after.Some? ==> after.value == before.value.(toolCalls := after.value.toolCalls, sourceRefs := after.value.sourceRefs)
    ensures TraceIdentity(request, traceId, after)
  {
  }

  lemma RunSettles(world: World, request: Request, traceId: Uuid, b: Books)
    requires TraceKept(world, b) && ResultsKept(world, b) && AtMostTwice(world, b.executed)
    requires b.totalBytes <= request.limits.maxResultBytes && TraceIdentity(request, traceId, b.trace)
    ensures Settled(world, request, traceId, b)
  {
  }

  lemma RoundExtends(world: World, round: nat, roundText: string, parts: Option<seq<Json>>, calls: seq<ToolCall>, before: seq<Message>, after: seq<Message>)
    requires var middle := before + (if roundText == "" then [] else [Message(Assistant, SayText(roundText), None)]) + [Message(Assistant, CallTools(calls), parts)];
      && middle <= after && |after| == |middle| + |calls|
      && forall i :: 0 <= i < |calls| ==>
           world.execute(round, i, calls[i]).Ok? && after[|middle| + i] == Reply(world.execute(round, i, calls[i]).value)
    ensures Extends(world, round, roundText, parts, calls, before, after)
  {
  }

  lemma BalanceSettles(world: World, request: Request, traceId: Uuid, b: Books)
    requires BooksBalance(world, request.limits, b) && TraceIdentity(request, traceId, b.trace)
    ensures Settled(world, request, traceId, b)
  {
  }

  /**
   One bounded turn. Returned besides the result and the events: the books, and the histories
   handed to the backend, round by round.
   */
  method RunBounded(world: World, request: Request, traceId: Uuid)
    returns (r: Result<Option<GroundingTrace>>, events: seq<AgentEvent>, b: Books, requests: seq<seq<Message>>)
    requires LimitsFit(request.limits)
    requires forall k :: 0 <= k < |request.messages| ==> Says(request.messages[k])
    ensures events != [] && events[0] == Started(request.requestId)
    ensures r.Ok? ==> Concluded(world, request, events, b.trace) && r == AttachReceiptIds(world, b.trace)
    ensures r.Err? && world.receiptIds != Some(Err(r.code)) ==> NoTerminal(events)
    ensures |requests| <= request.limits.maxRounds
    ensures AllSendable(world, request, requests)
    ensures Countable(request.limits, world) ==> |b.executed| <= request.limits.maxToolCalls
    ensures Settled(world, request, traceId, b)
    ensures Retold(world, request, traceId, r, events, b, requests)
  {
    hide *;
    events := [Started(request.requestId)];
    requests := [];
    b := Books(request.messages, 0, map[], InitialTrace(request, traceId), [], []);
    var totalCalls: nat := 0;
    var prior := "";
    InitialStanding(world, request, traceId);
    RetracedStart(world, request, b);
    var round: nat := 1;
    while round <= request.limits.maxRounds
      invariant 1 <= round <= request.limits.maxRounds + 1 && |requests| == round - 1
      invariant events != [] && events[0] == Started(request.requestId) && Shown(request.contract, events, prior)
      invariant Standing(world, request, traceId, b)
      invariant totalCalls <= request.limits.maxToolCalls
      invariant Countable(request.limits, world) ==> |b.executed| <= totalCalls
      invariant AllSendable(world, request, requests)
      invariant Retraced(world, request, requests, prior, totalCalls, events, b)
    {
      RetracedSays(world, request, requests, prior, totalCalls, events, b);
      StandingIsSettled(world, request, traceId, b);
      StandingIsSendable(world, request, traceId, b);
      ShownHasNoTerminal(request.contract, events, prior);
      if world.cancelledAt(round) {
        CancelledConcludes(world, request, prior, b.trace, events);
        CancelEnds(world, request, traceId, requests, b.trace, prior);
        ghost var shown := events;
        events := events + [Cancelled(CancellationPayload(request.contract, prior))];
        AttachReports(world, b.trace);
        RetoldNormally(world, request, traceId, AttachReceiptIds(world, b.trace), shown, Cancelled(CancellationPayload(request.contract, prior)), b, requests);
        return AttachReceiptIds(world, b.trace), events, b, requests;
      }
      RoundIsAsked(world, request, requests, prior, totalCalls, events, b);
      OneMoreSendable(world, request, requests, b.messages);
      requests := requests + [b.messages];
      var answer := world.backend(round, b.messages);
      ghost var before := events;
      if answer.Err? {
        RoundHasNoEnd(world, request, traceId, requests, prior, totalCalls, before, events, b, answer.code);
        return Err(answer.code), events, b, requests;
      }
      RoundShown(world, request.contract, events, prior, round, b.messages);
      RoundIs(world, round, b.messages);
      var roundText, parts, end;
      events, roundText, parts, end := ReadRound(request.contract, answer.value, events);
      ShownHasNoTerminal(request.contract, events, prior + roundText);
      if end.None? {
        RoundHasNoEnd(world, request, traceId, requests, prior, totalCalls, before, events, b, "AGENT_ROUND_TERMINAL_MISSING");
        return Err("AGENT_ROUND_TERMINAL_MISSING"), events, b, requests;
      }
      ghost var passed := events;
      if !end.value.ToolCallsRequested? {
        StandingParts(world, request, traceId, b);
        events := Conclude(world, request, prior, answer.value, roundText, end.value, b.trace, events);
        AttachReports(world, b.trace);
        RoundConcludes(world, request, traceId, requests, prior, totalCalls, before, b, end.value, events[|passed|], AttachReceiptIds(world, b.trace));
        assert events == passed + [events[|passed|]];
        return AttachReceiptIds(world, b.trace), events, b, requests;
      }
      ListIsCountable(request.limits, world, round, b.messages, FirstEnd(answer.value));
      ghost var b0, calls, total0, prior0 := b, end.value.calls, totalCalls, prior;
      prior := prior + roundText;
      var executed;
      ghost var done;
      executed, events, b, totalCalls, done := RunTools(world, request, traceId, round, roundText, parts, end.value.calls, totalCalls, events, b);
      ProgressShown(request.contract, passed, prior, round, done, if |calls| > U16_MAX then U16_MAX else |calls|);
      ShownHasNoTerminal(request.contract, events, prior);
      if executed.Err? {
        ToolsStop(world, request, traceId, requests, prior0, total0, before, events, b0, b, done, executed.code);
        return Err(executed.code), events, b, requests;
      }
      ToolsGo(world, request, requests, prior0, total0, before, b0, b, parts, end.value);
      round := round + 1;
    }
    RetracedSays(world, request, requests, prior, totalCalls, events, b);
    StandingIsSettled(world, request, traceId, b);
    ShownHasNoTerminal(request.contract, events, prior);
    RoundsAreUsedUp(world, request, traceId, requests, events, b);
    return Err(LOOP_LIMIT), events, b, requests;
  }

  lemma OneMoreSendable(world: World, request: Request, requests: seq<seq<Message>>, ms: seq<Message>)
    requires AllSendable(world, request, requests) && Sendable(world, ms) && request.messages <= ms
    ensures AllSendable(world, request, requests + [ms])
  {
  }

  lemma RoundIs(world: World, round: nat, ms: seq<Message>)
    requires world.backend(round, ms).Ok?
    ensures var stream := world.backend(round, ms).value;
      && Said(world, round, ms) == stream[..FirstEnd(stream)]
      && EndOf(world, round, ms) == (if FirstEnd(stream) < |stream| then Some(stream[FirstEnd(stream)]) else None)
      && (FirstEnd(stream) < |stream| ==> var end := stream[FirstEnd(stream)];
            end.ToolCallsRequested? || end.RawCompleted? || end.RoundFailed?)
      && (FirstEnd(stream) < |stream| && stream[FirstEnd(stream)].ToolCallsRequested? ==>
            Requests(world, round, ms) && CallsOf(world, round, ms) == stream[FirstEnd(stream)].calls)
  {
  }

  lemma RoundsAreUsedUp(world: World, request: Request, traceId: Uuid, requests: seq<seq<Message>>, events: seq<AgentEvent>, b: Books)
    requires Chained(world, request, requests) && NeverCancelled(world, |requests|) && Placed(world, requests, b)
    requires b.executed == Called(world, requests) && |requests| == request.limits.maxRounds
    requires requests != [] ==> Requests(world, |requests|, requests[|requests| - 1])
    ensures Retold(world, request, traceId, Err(LOOP_LIMIT), events, b, requests)
  {
    hide Chained, NeverCancelled, Placed, Called, Requests;
  }

  lemma ListIsCountable(limits: Limits, world: World, round: nat, ms: seq<Message>, i: nat)
    requires world.backend(round, ms).Ok? && i < |world.backend(round, ms).value| && world.backend(round, ms).value[i].ToolCallsRequested?
    ensures Countable(limits, world) ==> limits.maxToolCalls < U16_MAX || |world.backend(round, ms).value[i].calls| <= U16_MAX
  {
  }

  lemma AttachReports(world: World, trace: Option<GroundingTrace>)
    ensures AttachReceiptIds(world, trace).Err? ==> world.receiptIds == Some(Err(AttachReceiptIds(world, trace).code))
    ensures AttachReceiptIds(world, trace).Ok? ==> Returned(world, trace, AttachReceiptIds(world, trace).value)
  {
  }

  lemma RetracedSays(world: World, request: Request, requests: seq<seq<Message>>, prior: string, totalCalls: nat, events: seq<AgentEvent>, b: Books)
    requires Retraced(world, request, requests, prior, totalCalls, events, b)
    ensures Chained(world, request, requests) && NeverCancelled(world, |requests|) && Placed(world, requests, b)
    ensures b.executed == Called(world, requests) && |b.answered| == |b.executed| && prior == SaidText(world, requests)
    ensures requests != [] ==> Requests(world, |requests|, requests[|requests| - 1])
    ensures events == [Started(request.requestId)] + Told(world, request.contract, requests)
  {
    hide Called, SaidText, Told, Placed, NeverCancelled, Extends, Requests;
    var histories := requests + [b.messages];
    assert requests != [] ==> requests[0] == histories[0] && Continues(world, |requests|, histories[|requests| - 1], histories[|requests|]);
    assert forall k :: 0 <= k < |requests| ==> requests[k] == histories[k];
  }

  lemma CancelEnds(world: World, request: Request, traceId: Uuid, requests: seq<seq<Message>>, trace: Option<GroundingTrace>, prior: string)
    requires |requests| < request.limits.maxRounds && world.cancelledAt(|requests| + 1) && prior == SaidText(world, requests)
    requires requests != [] ==> Requests(world, |requests|, requests[|requests| - 1])
    ensures EndsWith(world, request, traceId, requests, trace, Cancelled(CancellationPayload(request.contract, prior)))
  {
  }

  /** A round that failed to answer, or answered without an end, executed nothing. */
  lemma RoundHasNoEnd(world: World, request: Request, traceId: Uuid, asked: seq<seq<Message>>, prior: string, totalCalls: nat,
                      before: seq<AgentEvent>, events: seq<AgentEvent>, b: Books, code: string)
    requires Asked(world, request, asked, prior, totalCalls, before, b)
    requires var answer := world.backend(|asked|, asked[|asked| - 1]);
      if answer.Err? then answer == Err(code)
      else FirstEnd(answer.value) == |answer.value| && code == "AGENT_ROUND_TERMINAL_MISSING"
    ensures Retold(world, request, traceId, Err(code), events, b, asked)
  {
    hide Called, Chained, NeverCancelled, Placed, SaidText, Told, Passed, Progress, StreamedText, CallCount;
  }

  /** A round that concluded the turn requested nothing. */
  lemma RoundConcludes(world: World, request: Request, traceId: Uuid, asked: seq<seq<Message>>, prior: string, totalCalls: nat,
                       before: seq<AgentEvent>, b: Books, end: RoundEvent, last: AgentEvent, r: Result<Option<GroundingTrace>>)
    requires Asked(world, request, asked, prior, totalCalls, before, b) && TraceIdentity(request, traceId, b.trace)
    requires EndOf(world, |asked|, asked[|asked| - 1]) == Some(end) && (end.RawCompleted? || end.RoundFailed?)
    requires EventOf(world, request, prior, StreamedText(Said(world, |asked|, asked[|asked| - 1])), end, b.trace, last)
    requires if r.Ok? then Returned(world, b.trace, r.value) else world.receiptIds == Some(Err(r.code))
    ensures Retold(world, request, traceId, r, before + Passed(request.contract, Said(world, |asked|, asked[|asked| - 1])) + [last], b, asked)
  {
    hide Called, SaidText, StreamedText, Said, AuditBundle.Validated, Chained, NeverCancelled, Placed, Returned, Told, Retold, Passed, CallCount;
    var passed := before + Passed(request.contract, Said(world, |asked|, asked[|asked| - 1]));
    assert b.executed + [] == b.executed && passed + [] == passed;
    RetoldNormally(world, request, traceId, r, passed, last, b, asked);
  }

  lemma ToolsStop(world: World, request: Request, traceId: Uuid, asked: seq<seq<Message>>, prior: string, totalCalls: nat,
                  before: seq<AgentEvent>, events: seq<AgentEvent>, b0: Books, b: Books, done: nat, code: string)
    requires Asked(world, request, asked, prior, totalCalls, before, b0) && Requests(world, |asked|, asked[|asked| - 1])
    requires var calls := CallsOf(world, |asked|, asked[|asked| - 1]);
      && ToolsRan(|asked|, calls, done, b0, b)
      && ToolsRefused(world, request.limits, |asked|, calls, totalCalls + (if |calls| > U16_MAX then U16_MAX else |calls|), b, code)
    ensures Retold(world, request, traceId, Err(code), events, b, asked)
  {
    hide Chained, NeverCancelled, Placed, Called, CallsOf, ToolsRefused, CallCount, SaidText, Told, Passed, Progress, StreamedText, Said;
    StillPlaced(world, asked, b0, b, done);
  }

  lemma ToolsGo(world: World, request: Request, asked: seq<seq<Message>>, prior: string, totalCalls: nat, before: seq<AgentEvent>,
                b0: Books, b: Books, parts: Option<seq<Json>>, end: RoundEvent)
    requires Asked(world, request, asked, prior, totalCalls, before, b0)
    requires var round := |asked|;
      var said := Said(world, round, b0.messages);
      && EndOf(world, round, b0.messages) == Some(end) && end.ToolCallsRequested?
      && ToolsRan(round, end.calls, |end.calls|, b0, b) && b.executed == b0.executed + end.calls
      && parts == LastParts(said) && Extends(world, round, StreamedText(said), parts, end.calls, b0.messages, b.messages)
    ensures var round, count := |asked|, |end.calls|;
      var said := Said(world, round, b0.messages);
      var clipped := if count > U16_MAX then U16_MAX else count;
      Retraced(world, request, asked, prior + StreamedText(said), totalCalls + clipped,
               before + Passed(request.contract, said) + Progress(round, count, clipped), b)
  {
    hide Extends, Called, SaidText, Told, Placed, NeverCancelled, CallCount, Chained, StreamedText, Passed, Progress, Said, LastParts;
    StillPlaced(world, asked, b0, b, |end.calls|);
    ChainGrows(world, request, asked, b.messages);
  }

  lemma InitialStanding(world: World, request: Request, traceId: Uuid)
    requires forall k :: 0 <= k < |request.messages| ==> Says(request.messages[k])
    ensures Standing(world, request, traceId, Books(request.messages, 0, map[], InitialTrace(request, traceId), [], []))
    ensures Shown(request.contract, [Started(request.requestId)], "") && AllSendable(world, request, [])
  {
    hide BooksBalance, Sendable;
    InitialBalance(world, request, traceId);
    var events := [Started(request.requestId)];
    assert events[..|events| - 1] == [];
    assert VisibleText(events) == VisibleText([]) + "";
  }

  lemma StandingIsSendable(world: World, request: Request, traceId: Uuid, b: Books)
    requires Standing(world, request, traceId, b)
    ensures Sendable(world, b.messages) && request.messages <= b.messages
  {
  }

  lemma ShownHasNoTerminal(contract: Contract, events: seq<AgentEvent>, text: string)
    requires Shown(contract, events, text)
    ensures NoTerminal(events)
  {
  }

  lemma ProgressShown(contract: Contract, events: seq<AgentEvent>, text: string, round: nat, done: nat, total: nat)
    requires Shown(contract, events, text)
    ensures Shown(contract, events + Progress(round, done, total), text)
  {
    ProgressIsShown(contract, round, done, total);
    ShownAppend(contract, events, text, Progress(round, done, total), "");
    assert text + "" == text;
  }

  /** A round's passed-on events show its text, and a lawful backend's parts describe its calls. */
  lemma RoundShown(world: World, contract: Contract, events: seq<AgentEvent>, prior: string, round: nat, ms: seq<Message>)
    requires world.backend(round, ms).Ok? && Shown(contract, events, prior)
    ensures var stream := world.backend(round, ms).value;
      var i := FirstEnd(stream);
      && Shown(contract, events + Passed(contract, stream[..i]), prior + StreamedText(stream[..i]))
      && (LawfulBackend(world) ==> LawfulRound(stream))
      && (LawfulBackend(world) && i < |stream| && stream[i].ToolCallsRequested? ==> PartsMatch(LastParts(stream[..i]), stream[i].calls))
  {
    var stream := world.backend(round, ms).value;
    PassedIsShown(contract, stream[..FirstEnd(stream)]);
    ShownAppend(contract, events, prior, Passed(contract, stream[..FirstEnd(stream)]), StreamedText(stream[..FirstEnd(stream)]));
  }

  // What the settled books mean.

  /** The real JSON size of a list of results. */
  function JsonBytes(world: World, results: seq<ToolResult>): nat {
    if results == [] then 0 else JsonBytes(world, results[..|results| - 1]) + world.jsonBytes(results[|results| - 1])
  }

  lemma {:induction false} JsonWithinContent(world: World, results: seq<ToolResult>)
    requires forall i :: 0 <= i < |results| ==> world.jsonBytes(results[i]) <= results[i].contentBytes
    ensures JsonBytes(world, results) <= ContentBytes(results)
  {
    if results != [] { JsonWithinContent(world, results[..|results| - 1]); }
  }

  /** The real encodings of all results appended to the history stay within the turn's byte budget. */
  lemma ResultBudget(world: World, request: Request, traceId: Uuid, b: Books)
    requires Settled(world, request, traceId, b) && LawfulGateway(world)
    ensures JsonBytes(world, Results(b.messages)) <= request.limits.maxResultBytes
  {
    hide Results, ContentBytes;
    var results := Results(b.messages);
    forall i | 0 <= i < |results| ensures world.jsonBytes(results[i]) <= results[i].contentBytes {
      assert Genuine(world, b.answered[i]);
    }
    JsonWithinContent(world, results);
  }

  function RecordedIds(records: seq<CallRecord>): seq<Uuid> {
    if records == [] then [] else RecordedIds(records[..|records| - 1]) + records[|records| - 1].sourceRefIds
  }

  lemma {:induction false} IdsOfRefs(world: World, answered: seq<Answer>, records: seq<CallRecord>)
    requires |records| == |answered| && forall i :: 0 <= i < |answered| ==> Describes(world, records[i], answered[i])
    ensures IdsOf(AllRefs(answered)) == RecordedIds(records)
  {
    if answered != [] {
      var before, last := answered[..|answered| - 1], answered[|answered| - 1];
      IdsOfRefs(world, before, records[..|records| - 1]);
      assert IdsOf(AllRefs(before) + last.result.sourceRefs) == IdsOf(AllRefs(before)) + IdsOf(last.result.sourceRefs);
    }
  }

  /** The trace lists exactly the source references its call records name, in order. */
  lemma TraceIdsMatchRecords(world: World, request: Request, traceId: Uuid, b: Books)
    requires Settled(world, request, traceId, b) && b.trace.Some?
    ensures IdsOf(b.trace.value.sourceRefs) == RecordedIds(b.trace.value.toolCalls)
  {
    IdsOfRefs(world, b.answered, b.trace.value.toolCalls);
  }

  lemma {:induction false} RefComesFromAnswer(answered: seq<Answer>, source: SourceRef) returns (i: nat)
    requires source in AllRefs(answered)
    ensures i < |answered| && source in answered[i].result.sourceRefs
  {
    var last := |answered| - 1;
    if source in answered[last].result.sourceRefs {
      i := last;
    } else {
      i := RefComesFromAnswer(answered[..last], source);
    }
  }

  /** The trace a turn returns names this turn, and carries the receipts' ids where a gate gives them. */
  lemma TraceNamesTheTurn(world: World, request: Request, traceId: Uuid, r: Result<Option<GroundingTrace>>, events: seq<AgentEvent>, b: Books, requests: seq<seq<Message>>)
    requires Settled(world, request, traceId, b) && Retold(world, request, traceId, r, events, b, requests) && r.Ok?
    ensures r.value.Some? <==> request.snapshotId.Some?
    ensures r.value.Some? ==> var trace := r.value.value;
      && trace.id == traceId && trace.conversationId == request.conversationId && trace.turnId == request.turnId
      && trace.snapshotId == request.snapshotId
      && trace.toolCalls == b.trace.value.toolCalls && trace.sourceRefs == b.trace.value.sourceRefs
      && (if world.receiptIds.None? then trace.receiptIds == [] else world.receiptIds.value == Ok(trace.receiptIds))
  {
    hide Chained, NeverCancelled, Placed, Told, EndsWith, Called, AtMostTwice, ResultsKept, TraceKept;
  }

  /** A completed audit cites only source references the gateway returned in this very turn. */
  lemma AuditCitesThisTurn(world: World, request: Request, traceId: Uuid, events: seq<AgentEvent>, b: Books, k: nat)
    requires Settled(world, request, traceId, b) && Concluded(world, request, events, b.trace)
    requires request.contract.AuditAnswerBundle? && events[|events| - 1].Completed?
    requires k < |events[|events| - 1].completed.bundle.evidenceMap|
    ensures exists i :: 0 <= i < |b.answered| && Genuine(world, b.answered[i]) &&
                        events[|events| - 1].completed.bundle.evidenceMap[k] in b.answered[i].result.sourceRefs
  {
    hide AuditBundle.Validated;
    var bundle := events[|events| - 1].completed.bundle;
    var text :| AuditBundle.Validated(world.showConfidence, world.parseBundle(text), request.requestId, b.trace) == Ok(bundle);
    AuditBundle.AcceptedCitesOnlyTheTrace(world.showConfidence, world.parseBundle(text), request.requestId, b.trace);
    TraceNeeded(world.showConfidence, world.parseBundle(text), request.requestId, b.trace);
    var i := RefComesFromAnswer(b.answered, bundle.evidenceMap[k]);
    assert Genuine(world, b.answered[i]);
  }

  lemma TraceNeeded(show: Confidence -> string, parsed: Option<AnswerBundle>, requestId: Uuid, trace: Option<GroundingTrace>)
    requires AuditBundle.Validated(show, parsed, requestId, trace).Ok?
    ensures trace.Some?
  {
  }
}

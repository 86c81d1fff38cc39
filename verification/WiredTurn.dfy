/** The whole turn: the agent loop over what the adapters and the tool gateway really deliver. */
module WiredTurn {
  import opened Wrappers
  import opened Text
  import opened AgentTypes
  import opened History
  import opened AgentLoop
  import AgentWire
  import GeminiRound
  import SseRound
  import ToolJson
  import ToolResults

  ghost predicate FromOpenAi(events: seq<RoundEvent>) {
    exists codec, snapshot, arrivals :: events == SseRound.Feed(codec, snapshot, SseRound.INITIAL, "", 0, arrivals).events
  }

  /** What the shared tool-call parser makes of one call. */
  ghost predicate WireParses(r: Option<ToolCall>, name: string, args: Json, id: Option<string>, snapshot: Uuid) {
    exists parseUuid: string -> Option<Uuid>, made: Uuid :: r == AgentWire.ParseToolCall(parseUuid, made, name, args, id, snapshot)
  }

  ghost predicate UsesWire(codec: GeminiRound.Codec) {
    forall k, name, args, id, snapshot :: WireParses(codec.parseCall(k, name, args, id, snapshot), name, args, id, snapshot)
  }

  /** The shared parser gives a call the name it was asked for by. */
  lemma WireNamesCalls(codec: GeminiRound.Codec)
    requires UsesWire(codec)
    ensures GeminiRound.NamesCalls(codec)
  {
    hide AgentWire.ParseToolCall, WireName;
    forall k, name, args, id, snapshot | codec.parseCall(k, name, args, id, snapshot).Some?
      ensures WireName(codec.parseCall(k, name, args, id, snapshot).value.name) == name
    {
      assert WireParses(codec.parseCall(k, name, args, id, snapshot), name, args, id, snapshot);
    }
  }

  ghost predicate FromGemini(events: seq<RoundEvent>) {
    exists codec, snapshot, arrivals :: UsesWire(codec) &&
      events == GeminiRound.Feed(codec, snapshot, GeminiRound.INITIAL, "", 0, arrivals).events
  }

  /** Every stream the loop reads is one an adapter can emit, whatever bytes arrive. */
  ghost predicate AdaptersAnswer(world: World) {
    forall round: nat, ms: seq<Message> :: world.backend(round, ms).Ok? ==>
      FromOpenAi(world.backend(round, ms).value) || FromGemini(world.backend(round, ms).value)
  }

  ghost predicate FromGateway(world: World, call: ToolCall, r: ToolResult) {
    exists entropy, found :: ToolResults.Sealed(entropy, call, found) == Ok(r)
  }

  /** Every result the loop gets is one the gateway sealed, and results are measured as they are encoded. */
  ghost predicate GatewaySeals(world: World) {
    && (forall round: nat, index: nat, call: ToolCall :: world.execute(round, index, call).Ok? ==>
          FromGateway(world, call, world.execute(round, index, call).value))
    && forall r :: world.jsonBytes(r) == |ToolJson.Encode(r)|
  }

  lemma NoPartsIsLawful(events: seq<RoundEvent>)
    requires SseRound.NoParts(events)
    ensures LastParts(events) == None && LawfulParts(events)
  {
    NoLastParts(events);
    forall i | 0 <= i < |events| && events[i].ToolCallsRequested? ensures PartsMatch(LastParts(events[..i]), events[i].calls) {
      NoLastParts(events[..i]);
    }
  }

  lemma {:induction false} NoLastParts(events: seq<RoundEvent>)
    requires SseRound.NoParts(events)
    ensures LastParts(events) == None
  {
    if events != [] { NoLastParts(events[..|events| - 1]); }
  }

  /** Every stream an adapter emits keeps the laws the loop relies on, and requests at most 24 calls. */
  lemma AdaptersAreLawful(world: World)
    requires AdaptersAnswer(world)
    ensures LawfulBackend(world) && BackendRequestsAtMost(24, world)
  {
    hide FromOpenAi, FromGemini, LawfulRound, LawfulParts, RequestsAtMost;
    forall round: nat, ms: seq<Message> | world.backend(round, ms).Ok?
      ensures LawfulRound(world.backend(round, ms).value) && LawfulParts(world.backend(round, ms).value)
      ensures RequestsAtMost(24, world.backend(round, ms).value)
    {
      StreamIsLawful(world.backend(round, ms).value);
    }
  }

  lemma StreamIsLawful(events: seq<RoundEvent>)
    requires FromOpenAi(events) || FromGemini(events)
    ensures LawfulRound(events) && LawfulParts(events) && RequestsAtMost(24, events)
  {
    hide SseRound.Feed, GeminiRound.Feed, GeminiRound.NamesCalls, UsesWire, LawfulRound, LawfulParts, SseRound.NoParts, RequestsAtMost;
    if FromOpenAi(events) {
      var codec, snapshot, arrivals :| events == SseRound.Feed(codec, snapshot, SseRound.INITIAL, "", 0, arrivals).events;
      SseRound.RoundIsLawful(codec, snapshot, arrivals);
      SseRound.RequestsAreCapped(codec, snapshot, arrivals);
      NoPartsIsLawful(events);
    } else {
      var codec, snapshot, arrivals :| UsesWire(codec) &&
        events == GeminiRound.Feed(codec, snapshot, GeminiRound.INITIAL, "", 0, arrivals).events;
      WireNamesCalls(codec);
      GeminiRound.RoundIsLawful(codec, snapshot, arrivals);
    }
  }

  lemma GatewayIsLawful(world: World)
    requires GatewaySeals(world)
    ensures LawfulGateway(world)
  {
    hide ToolResults.Sealed, ToolJson.Encode;
    forall round: nat, index: nat, call: ToolCall | world.execute(round, index, call).Ok?
      ensures var result := world.execute(round, index, call).value;
        result.callId == call.callId && world.jsonBytes(result) <= result.contentBytes <= MAX_RESULT_BYTES
    {
      SealedIsLawful(world, call, world.execute(round, index, call).value);
    }
  }

  lemma SealedIsLawful(world: World, call: ToolCall, r: ToolResult)
    ensures FromGateway(world, call, r) ==>
      r.callId == call.callId && |ToolJson.Encode(r)| <= r.contentBytes <= MAX_RESULT_BYTES
  {
    hide ToolResults.Sealed, ToolJson.Encode;
    if FromGateway(world, call, r) {
      var entropy, found :| ToolResults.Sealed(entropy, call, found) == Ok(r);
      ToolResults.SizeCoversEncoding(entropy, call, found);
    }
  }

  /** The loop stands between the adapters and the gateway. */
  ghost predicate Wired(world: World) {
    AdaptersAnswer(world) && GatewaySeals(world)
  }

  lemma WiredIsLawful(world: World)
    requires Wired(world)
    ensures LawfulBackend(world) && LawfulGateway(world) && BackendRequestsAtMost(U16_MAX, world)
  {
    hide AdaptersAnswer, GatewaySeals, LawfulBackend, LawfulGateway;
    AdaptersAreLawful(world);
    GatewayIsLawful(world);
  }

  lemma WiredIsCountable(world: World, limits: Limits)
    requires BackendRequestsAtMost(U16_MAX, world)
    ensures Countable(limits, world)
  {
  }

  function EncodedBytes(results: seq<ToolResult>): nat {
    if results == [] then 0 else EncodedBytes(results[..|results| - 1]) + |ToolJson.Encode(results[|results| - 1])|
  }

  lemma {:induction false} EncodedIsMeasured(world: World, results: seq<ToolResult>)
    requires Wired(world)
    ensures EncodedBytes(results) == JsonBytes(world, results)
  {
    hide ToolJson.Encode;
    if results != [] { EncodedIsMeasured(world, results[..|results| - 1]); }
  }

  /** Every message of a history can be encoded for either provider. */
  ghost predicate Encodes(ms: seq<Message>) {
    forall k :: 0 <= k < |ms| ==> AgentWire.RoleFits(ms[k]) && AgentWire.GeminiFits(ms, k)
  }

  /** The terminal event's text is the text the user saw; an audit shows none. */
  ghost predicate SaysWhatWasSeen(request: Request, events: seq<AgentEvent>) {
    && events != [] && IsTerminal(events[|events| - 1]) && NoTerminal(events[..|events| - 1])
    && var last := events[|events| - 1];
       if request.contract.AdvisorMarkdown? then
         && (last.Completed? ==> last.completed == AdvisorText(VisibleText(events)))
         && (last.Cancelled? ==> last.cancelled == PartialMarkdown(VisibleText(events)))
       else NoText(events) && (last.Cancelled? ==> last.cancelled == NoContent)
  }

  /** A returned trace names this turn; its records and references are those of the books. */
  ghost predicate NamesTheTurn(world: World, request: Request, traceId: Uuid, b: Books, trace: GroundingTrace) {
    && trace.id == traceId && trace.conversationId == request.conversationId && trace.turnId == request.turnId
    && trace.snapshotId == request.snapshotId
    && b.trace.Some? && trace.toolCalls == b.trace.value.toolCalls && trace.sourceRefs == b.trace.value.sourceRefs
    && (if world.receiptIds.None? then trace.receiptIds == [] else world.receiptIds.value == Ok(trace.receiptIds))
  }

  /**
   One turn over real adapters and gateway, whatever bytes and results arrive: at most the limit's
   calls are executed; every history sent encodes for both providers; results stay within the byte
   budget as encoded; a turn that returns normally ends once, saying what was shown; a completed
   audit cites only this turn's results. What was sent, executed, shown and returned is told from the
   histories the rounds were sent (`Retold`), and the trace names the turn it belongs to.
   */
  method Run(world: World, request: Request, traceId: Uuid)
    returns (r: Result<Option<GroundingTrace>>, events: seq<AgentEvent>, b: Books, requests: seq<seq<Message>>)
    requires LimitsFit(request.limits)
    requires forall k :: 0 <= k < |request.messages| ==> Says(request.messages[k])
    ensures |requests| <= request.limits.maxRounds && AtMostTwice(world, b.executed)
    ensures Countable(request.limits, world) ==> |b.executed| <= request.limits.maxToolCalls
    ensures Wired(world) ==> |b.executed| <= request.limits.maxToolCalls
    ensures Retold(world, request, traceId, r, events, b, requests)
    ensures r.Ok? ==> (r.value.Some? <==> request.snapshotId.Some?)
    ensures r.Ok? && r.value.Some? ==> NamesTheTurn(world, request, traceId, b, r.value.value)
    ensures b.trace.Some? ==> IdsOf(b.trace.value.sourceRefs) == RecordedIds(b.trace.value.toolCalls)
    ensures r.Ok? ==> CitesThisTurn(world, b, events)
    ensures Wired(world) ==> forall k :: 0 <= k < |requests| ==> WellPaired(requests[k]) && Encodes(requests[k])
    ensures Wired(world) ==> EncodedBytes(Results(b.messages)) <= request.limits.maxResultBytes
    ensures Wired(world) && r.Ok? ==> SaysWhatWasSeen(request, events)
  {
    hide *;
    r, events, b, requests := RunBounded(world, request, traceId);
    SettledParts(world, request, traceId, b);
    if b.trace.Some? { TraceIdsMatchRecords(world, request, traceId, b); }
    if r.Ok? {
      ConcludedCites(world, request, traceId, events, b);
      TurnIsNamed(world, request, traceId, r, events, b, requests);
    }
    if Wired(world) {
      WiredIsLawful(world);
      WiredIsCountable(world, request.limits);
      AllEncode(world, request, requests);
      ResultBudget(world, request, traceId, b);
      EncodedIsMeasured(world, Results(b.messages));
      if r.Ok? { ConcludedSays(world, request, events, b.trace); }
    }
  }

  /** A source reference some call executed in this turn returned. */
  ghost predicate FoundThisTurn(world: World, b: Books, source: SourceRef) {
    exists i :: 0 <= i < |b.answered| && Genuine(world, b.answered[i]) && source in b.answered[i].result.sourceRefs
  }

  /** What a completed audit bundle cites was found in this turn. */
  ghost predicate CitesThisTurn(world: World, b: Books, events: seq<AgentEvent>) {
    events != [] &&
    var last := events[|events| - 1];
    last.Completed? && last.completed.ValidatedBundle? ==>
      forall source :: source in last.completed.bundle.evidenceMap ==> FoundThisTurn(world, b, source)
  }

  lemma TurnIsNamed(world: World, request: Request, traceId: Uuid, r: Result<Option<GroundingTrace>>, events: seq<AgentEvent>, b: Books, requests: seq<seq<Message>>)
    requires Settled(world, request, traceId, b) && Retold(world, request, traceId, r, events, b, requests) && r.Ok?
    ensures r.value.Some? <==> request.snapshotId.Some?
    ensures r.value.Some? ==> NamesTheTurn(world, request, traceId, b, r.value.value)
  {
    hide Retold, AtMostTwice, ResultsKept, TraceKept;
    TraceNamesTheTurn(world, request, traceId, r, events, b, requests);
  }

  lemma ConcludedCites(world: World, request: Request, traceId: Uuid, events: seq<AgentEvent>, b: Books)
    requires Settled(world, request, traceId, b) && Concluded(world, request, events, b.trace)
    ensures CitesThisTurn(world, b, events)
  {
    hide Settled, ValidatedHere, VisibleText, FoundThisTurn;
    var last := events[|events| - 1];
    if last.Completed? && last.completed.ValidatedBundle? {
      var cited := last.completed.bundle.evidenceMap;
      forall source | source in cited ensures FoundThisTurn(world, b, source) {
        var k :| 0 <= k < |cited| && cited[k] == source;
        CitationIsFound(world, request, traceId, events, b, k);
      }
    }
  }

  lemma CitationIsFound(world: World, request: Request, traceId: Uuid, events: seq<AgentEvent>, b: Books, k: nat)
    requires Settled(world, request, traceId, b) && Concluded(world, request, events, b.trace)
    requires request.contract.AuditAnswerBundle? && events[|events| - 1].Completed?
    requires k < |events[|events| - 1].completed.bundle.evidenceMap|
    ensures FoundThisTurn(world, b, events[|events| - 1].completed.bundle.evidenceMap[k])
  {
    hide Settled, ValidatedHere, VisibleText, Genuine;
    AuditCitesThisTurn(world, request, traceId, events, b, k);
  }

  lemma SendableEncodes(world: World, ms: seq<Message>)
    requires LawfulBackend(world) && LawfulGateway(world) && Sendable(world, ms)
    ensures WellPaired(ms) && Encodes(ms)
  {
    hide LawfulBackend, LawfulGateway, WellPaired, PartsLawful, AgentWire.RoleFits, AgentWire.GeminiFits;
    AgentWire.SendableHistoryEncodes(ms);
  }

  lemma AllEncode(world: World, request: Request, requests: seq<seq<Message>>)
    requires LawfulBackend(world) && LawfulGateway(world) && AllSendable(world, request, requests)
    ensures forall k :: 0 <= k < |requests| ==> WellPaired(requests[k]) && Encodes(requests[k])
  {
    hide LawfulBackend, LawfulGateway, WellPaired, Encodes, Sendable;
    forall k | 0 <= k < |requests| ensures WellPaired(requests[k]) && Encodes(requests[k]) {
      SendableEncodes(world, requests[k]);
    }
  }

  lemma SettledParts(world: World, request: Request, traceId: Uuid, b: Books)
    requires Settled(world, request, traceId, b)
    ensures AtMostTwice(world, b.executed)
  {
    hide AtMostTwice;
  }

  lemma ConcludedSays(world: World, request: Request, events: seq<AgentEvent>, trace: Option<GroundingTrace>)
    requires LawfulBackend(world) && Concluded(world, request, events, trace)
    ensures SaysWhatWasSeen(request, events)
  {
    hide LawfulBackend, ValidatedHere, VisibleText;
  }
}

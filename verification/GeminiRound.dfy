/** One round of the Gemini adapter: the same line buffer, whole function calls, an end mark per buffer. */
module GeminiRound {
  import opened Wrappers
  import opened Text
  import opened AgentTypes
  import opened History
  import Whitespace
  import S = SseRound
  import T = Transcript

  const ARGUMENT_LIMIT: nat := 64 * 1024
  const CALL_LIMIT: nat := 24

  /**
   The library calls of the stream; `jsonSize` is the length of a printed value. Parsing is told the
   call's position, so that identifiers made up for different calls can differ.
   */
  datatype Codec = Codec(
    lossy: string -> string,
    json: string -> Option<Json>,
    jsonSize: Json -> nat,
    parseCall: (nat, string, Json, Option<string>, Uuid) -> Option<ToolCall>)

  /** A parsed call has the name it was asked for by. */
  ghost predicate NamesCalls(codec: Codec) {
    forall k, name, args, id, snapshot :: codec.parseCall(k, name, args, id, snapshot).Some? ==>
      WireName(codec.parseCall(k, name, args, id, snapshot).value.name) == name
  }

  datatype Round = Round(fullText: string, calls: seq<ToolCall>, parts: seq<Json>, events: seq<RoundEvent>, done: bool)

  const INITIAL := Round("", [], [], [RoundStarted], false)

  function Fail(st: Round, code: string): Round {
    st.(events := st.events + [RoundFailed(code)], done := true)
  }

  datatype Line = Ignored | EndMark | Parts(parts: seq<Json>)

  function PartsOf(value: Json): Option<seq<Json>> {
    var candidates := Field(value, "candidates");
    var first := if candidates.Some? then First(candidates.value) else None;
    match FieldOf(FieldOf(first, "content"), "parts")
    case Some(JArray(items)) => Some(items)
    case _ => None
  }

  function Classify(codec: Codec, bytes: string): Line {
    var line := Whitespace.Trim(codec.lossy(bytes));
    if !("data: " <= line) then Ignored
    else
      var data := line[6..];
      if Whitespace.Trim(data) == "[DONE]" then EndMark
      else match codec.json(data)
        case None => Ignored
        case Some(value) => if PartsOf(value).Some? then Parts(PartsOf(value).value) else Ignored
  }

  function IsThought(part: Json): bool {
    Field(part, "thought") == Some(JBool(true))
  }

  function TextOf(part: Json): Option<string> {
    StringOf(Field(part, "text"))
  }

  function ArgsOf(fn: Json): Json {
    match Field(fn, "args")
    case Some(args) => args
    case None => JObject(map[])
  }

  function AddText(st: Round, text: Option<string>): Round {
    if text.Some? then st.(fullText := st.fullText + text.value, events := st.events + [RoundText(text.value)]) else st
  }

  function AddCall(codec: Codec, snapshot: Option<Uuid>, st: Round, part: Json): Round {
    var fn := Field(part, "functionCall");
    var name := StringOf(FieldOf(fn, "name"));
    if name.None? then st
    else if codec.jsonSize(ArgsOf(fn.value)) > ARGUMENT_LIMIT || |st.calls| >= CALL_LIMIT then Fail(st, "TOOL_ARGUMENT_LIMIT")
    else if snapshot.None? then Fail(st, "AGENT_TOOL_CONTEXT_MISSING")
    else match codec.parseCall(|st.calls|, name.value, ArgsOf(fn.value), StringOf(FieldOf(fn, "id")), snapshot.value)
      case None => Fail(st, "AGENT_TOOL_SCHEMA_INVALID")
      case Some(call) => st.(calls := st.calls + [call], parts := st.parts + [part])
  }

  function ApplyPart(codec: Codec, snapshot: Option<Uuid>, st: Round, part: Json): Round {
    if IsThought(part) then st else AddCall(codec, snapshot, AddText(st, TextOf(part)), part)
  }

  function ApplyParts(codec: Codec, snapshot: Option<Uuid>, st: Round, parts: seq<Json>): Round
    decreases |parts|
  {
    if parts == [] || st.done then st else ApplyParts(codec, snapshot, ApplyPart(codec, snapshot, st, parts[0]), parts[1..])
  }

  function StepLine(codec: Codec, snapshot: Option<Uuid>, st: Round, bytes: string): Round {
    if st.done then st
    else
      var line := Classify(codec, bytes);
      if line.Parts? then ApplyParts(codec, snapshot, st, line.parts) else st
  }

  function FoldLines(codec: Codec, snapshot: Option<Uuid>, st: Round, lines: seq<string>): Round
    decreases |lines|
  {
    if lines == [] then st else FoldLines(codec, snapshot, StepLine(codec, snapshot, st, lines[0]), lines[1..])
  }

  /** Draining a buffer: up to its last line break, or through its first end mark. */
  function Drained(codec: Codec, snapshot: Option<Uuid>, st: Round, buffer: string): (Round, string)
    decreases |buffer|
  {
    match Cut(buffer, '\n')
    case None => (st, buffer)
    case Some((line, rest)) =>
      if st.done || Classify(codec, line).EndMark? then (st, rest)
      else Drained(codec, snapshot, StepLine(codec, snapshot, st, line), rest)
  }

  function Close(st: Round): Round {
    if st.done then st
    else if st.calls == [] then st.(events := st.events + [RawCompleted(st.fullText)], done := true)
    else st.(events := st.events + [ProviderToolParts(st.parts), ToolCallsRequested(st.calls)], done := true)
  }

  function Feed(codec: Codec, snapshot: Option<Uuid>, st: Round, buffer: string, received: nat, arrivals: seq<S.Arrival>): Round
    decreases |arrivals|
  {
    if st.done then st
    else if arrivals == [] then Close(st)
    else match arrivals[0]
      case Cancelled => Fail(st, "CANCELLED")
      case ReadError => Fail(st, "STREAM_READ_ERROR")
      case Chunk(bytes) =>
        if S.OverLimit(received + |bytes|, |buffer| + |bytes|) then Fail(st, "STREAM_LIMIT")
        else
          var (next, rest) := Drained(codec, snapshot, st, buffer + bytes);
          Feed(codec, snapshot, next, rest, received + |bytes|, arrivals[1..])
  }

  // The reader.

  method ReadParts(codec: Codec, snapshot: Option<Uuid>, start: Round, parts: seq<Json>) returns (st: Round)
    requires !start.done
    ensures st == ApplyParts(codec, snapshot, start, parts)
  {
    st := start;
    var k := 0;
    while k < |parts|
      invariant 0 <= k <= |parts| && !st.done
      invariant ApplyParts(codec, snapshot, start, parts) == ApplyParts(codec, snapshot, st, parts[k..])
    {
      var part := parts[k];
      assert parts[k..][1..] == parts[k + 1..];
      k := k + 1;
      if IsThought(part) { continue; }
      var text := TextOf(part);
      if text.Some? {
        st := st.(fullText := st.fullText + text.value, events := st.events + [RoundText(text.value)]);
      }
      var fn := Field(part, "functionCall");
      if fn.None? { continue; }
      var name := StringOf(Field(fn.value, "name"));
      if name.None? { continue; }
      var args := ArgsOf(fn.value);
      if codec.jsonSize(args) > ARGUMENT_LIMIT || |st.calls| >= CALL_LIMIT { return Fail(st, "TOOL_ARGUMENT_LIMIT"); }
      if snapshot.None? { return Fail(st, "AGENT_TOOL_CONTEXT_MISSING"); }
      var call := codec.parseCall(|st.calls|, name.value, args, StringOf(Field(fn.value, "id")), snapshot.value);
      if call.None? { return Fail(st, "AGENT_TOOL_SCHEMA_INVALID"); }
      st := st.(calls := st.calls + [call.value], parts := st.parts + [part]);
    }
  }

  method Drain(codec: Codec, snapshot: Option<Uuid>, start: Round, bytes: string) returns (st: Round, buffer: string)
    requires !start.done
    ensures st == Drained(codec, snapshot, start, bytes).0
    ensures !st.done ==> buffer == Drained(codec, snapshot, start, bytes).1
  {
    hide ApplyParts;
    st, buffer := start, bytes;
    var next := Cut(buffer, '\n');
    while next.Some?
      invariant next == Cut(buffer, '\n') && !st.done
      invariant Drained(codec, snapshot, start, bytes) == Drained(codec, snapshot, st, buffer)
      decreases |buffer|
    {
      var (line, rest) := next.value;
      buffer := rest;
      match Classify(codec, line) {
        case Ignored =>
        case EndMark => return;
        case Parts(parts) =>
          st := ReadParts(codec, snapshot, st, parts);
          if st.done {
            DrainedDone(codec, snapshot, st, buffer);
            return;
          }
      }
      next := Cut(buffer, '\n');
    }
  }

  method InferAgentRound(codec: Codec, snapshot: Option<Uuid>, arrivals: seq<S.Arrival>) returns (events: seq<RoundEvent>)
    ensures events == Feed(codec, snapshot, INITIAL, "", 0, arrivals).events
    ensures forall n, s :: IsScript(codec, arrivals, n, s) ==> Plays(codec, snapshot, s, events)
  {
    hide Drained, IsScript, Plays;
    EveryScriptIsPlayed(codec, snapshot, arrivals);
    var st := INITIAL;
    var buffer := "";
    var received: nat := 0;
    var k := 0;
    while k < |arrivals|
      invariant 0 <= k <= |arrivals| && !st.done
      invariant Feed(codec, snapshot, INITIAL, "", 0, arrivals) == Feed(codec, snapshot, st, buffer, received, arrivals[k..])
    {
      match arrivals[k] {
        case Cancelled => return st.events + [RoundFailed("CANCELLED")];
        case ReadError => return st.events + [RoundFailed("STREAM_READ_ERROR")];
        case Chunk(bytes) =>
          assert arrivals[k..][1..] == arrivals[k + 1..];
          received := received + |bytes|;
          if S.OverLimit(received, |buffer| + |bytes|) { return st.events + [RoundFailed("STREAM_LIMIT")]; }
          st, buffer := Drain(codec, snapshot, st, buffer + bytes);
          if st.done { return st.events; }
      }
      k := k + 1;
    }
    if st.calls == [] { return st.events + [RawCompleted(st.fullText)]; }
    return st.events + [ProviderToolParts(st.parts), ToolCallsRequested(st.calls)];
  }

  // What a round's events say.

  /** While a round runs: nothing ended, the text is what was streamed, the parts describe the calls. */
  predicate Running(st: Round) {
    && !st.done && NoneEnds(st.events) && StreamedText(st.events) == st.fullText
    && PartsMatch(Some(st.parts), st.calls) && |st.calls| <= CALL_LIMIT
  }

  predicate Ended(st: Round) {
    && st.done && st.events != [] && EndsRound(st.events[|st.events| - 1])
    && LawfulRound(st.events) && LawfulParts(st.events) && RequestsAtMost(CALL_LIMIT, st.events)
  }

  predicate Faithful(st: Round) {
    Running(st) || Ended(st)
  }

  lemma OneEnds(events: seq<RoundEvent>, e: RoundEvent)
    requires NoneEnds(events) && EndsRound(e) && (e.RawCompleted? ==> e.fullText == StreamedText(events))
    requires e.ToolCallsRequested? ==> PartsMatch(LastParts(events), e.calls) && |e.calls| <= CALL_LIMIT
    ensures LawfulRound(events + [e]) && LawfulParts(events + [e]) && RequestsAtMost(CALL_LIMIT, events + [e])
  {
    hide PartsMatch, LastParts, StreamedText;
    var all := events + [e];
    assert all[..|events|] == events;
    assert forall i :: 0 <= i < |events| ==> all[i] == events[i];
  }

  lemma FailEnds(st: Round, code: string)
    requires Running(st)
    ensures Ended(Fail(st, code))
  {
    hide LawfulRound, LawfulParts, PartsMatch, StreamedText;
    OneEnds(st.events, RoundFailed(code));
  }

  lemma CloseEnds(st: Round)
    requires Running(st)
    ensures Ended(Close(st))
  {
    hide LawfulRound, LawfulParts, PartsMatch, StreamedText;
    if st.calls == [] {
      OneEnds(st.events, RawCompleted(st.fullText));
    } else {
      var e := ProviderToolParts(st.parts);
      var before := st.events + [e];
      assert before[|before| - 1] == e && LastParts(before) == Some(st.parts);
      OneEnds(before, ToolCallsRequested(st.calls));
      assert before + [ToolCallsRequested(st.calls)] == st.events + [e, ToolCallsRequested(st.calls)];
    }
  }

  lemma TextRuns(st: Round, text: Option<string>)
    requires Running(st)
    ensures Running(AddText(st, text))
  {
    hide PartsMatch;
    if text.Some? { StreamedTextSnoc(st.events, RoundText(text.value)); }
  }

  lemma PartsSnoc(parts: seq<Json>, calls: seq<ToolCall>, part: Json, call: ToolCall)
    requires PartsMatch(Some(parts), calls)
    requires StringOf(FieldOf(Field(part, "functionCall"), "name")) == Some(WireName(call.name))
    ensures PartsMatch(Some(parts + [part]), calls + [call])
  {
    hide WireName, Field, FieldOf, StringOf;
  }

  lemma PartFaithful(codec: Codec, snapshot: Option<Uuid>, st: Round, part: Json)
    requires NamesCalls(codec) && Running(st)
    ensures Faithful(ApplyPart(codec, snapshot, st, part))
  {
    hide Running, Ended, AddText, WireName;
    TextRuns(st, TextOf(part));
    CallFaithful(codec, snapshot, AddText(st, TextOf(part)), part);
  }

  lemma CallFaithful(codec: Codec, snapshot: Option<Uuid>, st: Round, part: Json)
    requires NamesCalls(codec) && Running(st)
    ensures Faithful(AddCall(codec, snapshot, st, part))
  {
    hide Ended, PartsMatch, WireName, StreamedText, NoneEnds;
    FailEnds(st, "TOOL_ARGUMENT_LIMIT");
    FailEnds(st, "AGENT_TOOL_CONTEXT_MISSING");
    FailEnds(st, "AGENT_TOOL_SCHEMA_INVALID");
    var fn := Field(part, "functionCall");
    var name := StringOf(FieldOf(fn, "name"));
    if name.Some? && snapshot.Some? {
      var call := codec.parseCall(|st.calls|, name.value, ArgsOf(fn.value), StringOf(FieldOf(fn, "id")), snapshot.value);
      if call.Some? { PartsSnoc(st.parts, st.calls, part, call.value); }
    }
  }

  lemma {:induction false} PartsFaithful(codec: Codec, snapshot: Option<Uuid>, st: Round, parts: seq<Json>)
    requires NamesCalls(codec) && Faithful(st)
    ensures Faithful(ApplyParts(codec, snapshot, st, parts))
    decreases |parts|
  {
    hide NamesCalls, ApplyPart;
    if parts != [] && !st.done {
      PartFaithful(codec, snapshot, st, parts[0]);
      PartsFaithful(codec, snapshot, ApplyPart(codec, snapshot, st, parts[0]), parts[1..]);
    }
  }

  lemma {:induction false} DrainedFaithful(codec: Codec, snapshot: Option<Uuid>, st: Round, buffer: string)
    requires NamesCalls(codec) && Faithful(st)
    ensures Faithful(Drained(codec, snapshot, st, buffer).0)
    decreases |buffer|
  {
    hide NamesCalls, Faithful, ApplyParts, Classify;
    match Cut(buffer, '\n')
    case None =>
    case Some((line, rest)) =>
      if !st.done && !Classify(codec, line).EndMark? {
        if Classify(codec, line).Parts? { PartsFaithful(codec, snapshot, st, Classify(codec, line).parts); }
        DrainedFaithful(codec, snapshot, StepLine(codec, snapshot, st, line), rest);
      }
  }

  lemma {:induction false} FeedFaithful(codec: Codec, snapshot: Option<Uuid>, st: Round, buffer: string, received: nat, arrivals: seq<S.Arrival>)
    requires NamesCalls(codec) && Faithful(st)
    ensures Ended(Feed(codec, snapshot, st, buffer, received, arrivals))
    decreases |arrivals|
  {
    hide NamesCalls, Drained, LawfulRound, LawfulParts, PartsMatch, StreamedText, NoneEnds;
    if !st.done {
      FailEnds(st, "CANCELLED");
      FailEnds(st, "STREAM_READ_ERROR");
      FailEnds(st, "STREAM_LIMIT");
      CloseEnds(st);
      if arrivals != [] && arrivals[0].Chunk? && !S.OverLimit(received + |arrivals[0].bytes|, |buffer| + |arrivals[0].bytes|) {
        var all := buffer + arrivals[0].bytes;
        DrainedFaithful(codec, snapshot, st, all);
        var (next, rest) := Drained(codec, snapshot, st, all);
        FeedFaithful(codec, snapshot, next, rest, received + |arrivals[0].bytes|, arrivals[1..]);
      }
    }
  }

  /**
   Whatever arrives, the round ends with exactly one end event; a completed text is exactly what was
   streamed; requested calls, 24 at most, come with one continuation part each, of the same name, in order.
   */
  lemma RoundIsLawful(codec: Codec, snapshot: Option<Uuid>, arrivals: seq<S.Arrival>)
    requires NamesCalls(codec)
    ensures var events := Feed(codec, snapshot, INITIAL, "", 0, arrivals).events;
      && LawfulRound(events) && LawfulParts(events) && RequestsAtMost(24, events)
      && events != [] && EndsRound(events[|events| - 1])
  {
    hide Feed, NamesCalls, LawfulRound, LawfulParts, RequestsAtMost;
    assert StreamedText([RoundStarted]) == "" by { assert [RoundStarted][1..] == []; }
    FeedFaithful(codec, snapshot, INITIAL, "", 0, arrivals);
  }

  // Chunks.

  lemma {:induction false} DoneStays(codec: Codec, snapshot: Option<Uuid>, st: Round, lines: seq<string>)
    requires st.done
    ensures FoldLines(codec, snapshot, st, lines) == st
    decreases |lines|
  {
    if lines != [] { DoneStays(codec, snapshot, st, lines[1..]); }
  }

  lemma {:induction false} FoldAppend(codec: Codec, snapshot: Option<Uuid>, st: Round, a: seq<string>, b: seq<string>)
    ensures FoldLines(codec, snapshot, st, a + b) == FoldLines(codec, snapshot, FoldLines(codec, snapshot, st, a), b)
    decreases |a|
  {
    hide StepLine;
    if a == [] {
      assert a + b == b;
    } else {
      assert (a + b)[1..] == a[1..] + b;
      FoldAppend(codec, snapshot, StepLine(codec, snapshot, st, a[0]), a[1..], b);
    }
  }

  /** The lines through the first end mark. */
  function Through(codec: Codec, lines: seq<string>): (r: seq<string>)
    ensures r <= lines
  {
    if lines == [] then []
    else [lines[0]] + if Classify(codec, lines[0]).EndMark? then [] else Through(codec, lines[1..])
  }

  /** What a round says that reads exactly these lines. */
  function Read(codec: Codec, snapshot: Option<Uuid>, lines: seq<string>): Round {
    Close(FoldLines(codec, snapshot, INITIAL, lines))
  }

  lemma LinesCons(line: string, rest: string, more: string)
    requires '\n' !in line
    ensures S.Lines(line + ['\n'] + rest + more) == [line] + S.Lines(rest + more)
  {
    assert line + ['\n'] + rest + more == line + ['\n'] + (rest + more);
    CutAt(line, '\n', rest + more);
  }

  lemma FoldCons(codec: Codec, snapshot: Option<Uuid>, st: Round, line: string, lines: seq<string>)
    ensures FoldLines(codec, snapshot, st, [line] + lines) == FoldLines(codec, snapshot, StepLine(codec, snapshot, st, line), lines)
  {
    assert ([line] + lines)[1..] == lines;
  }

  lemma ThroughCons(codec: Codec, line: string, lines: seq<string>)
    ensures Through(codec, [line] + lines) == [line] + if Classify(codec, line).EndMark? then [] else Through(codec, lines)
  {
    assert ([line] + lines)[1..] == lines;
  }

  lemma DrainLast(codec: Codec, snapshot: Option<Uuid>, st: Round, buffer: string)
    requires '\n' !in buffer
    ensures Drained(codec, snapshot, st, buffer) == (st, buffer) && S.Lines(buffer) == []
    ensures Through(codec, []) == [] && FoldLines(codec, snapshot, st, []) == st
  {
  }

  lemma DrainedDone(codec: Codec, snapshot: Option<Uuid>, st: Round, buffer: string)
    requires st.done
    ensures Drained(codec, snapshot, st, buffer).0 == st && |Drained(codec, snapshot, st, buffer).1| <= |buffer|
  {
  }

  /** The first end mark is among the lines read, or was not yet to be seen. */
  predicate MarkRead(codec: Codec, lines: seq<string>, read: nat, rest: string, more: string) {
    || |Through(codec, lines)| == read
    || ('\n' !in rest && |Through(codec, lines)| == read + |Through(codec, S.Lines(rest + more))|)
  }

  lemma NoMarkToRead(codec: Codec, lines: seq<string>, rest: string, more: string)
    requires '\n' !in rest && lines == S.Lines(rest + more)
    ensures MarkRead(codec, lines, 0, rest, more)
  {
  }

  lemma MarkReadAt(codec: Codec, lines: seq<string>, read: nat, rest: string, more: string)
    requires |Through(codec, lines)| == read
    ensures MarkRead(codec, lines, read, rest, more)
  {
    hide Through;
  }

  lemma FoldNothing(codec: Codec, snapshot: Option<Uuid>, st: Round)
    ensures FoldLines(codec, snapshot, st, []) == st
  {
  }

  lemma MarkReadCons(codec: Codec, line: string, lines: seq<string>, read: nat, rest: string, more: string)
    requires MarkRead(codec, lines, read, rest, more) && !Classify(codec, line).EndMark?
    ensures MarkRead(codec, [line] + lines, read + 1, rest, more)
  {
    hide Classify, Through, S.Lines;
    ThroughCons(codec, line, lines);
  }

  /** Draining a buffer reads it through its first end mark, or all its lines when it has none. */
  lemma {:induction false} DrainedReads(codec: Codec, snapshot: Option<Uuid>, st: Round, buffer: string, more: string)
    requires !st.done
    ensures var (next, rest) := Drained(codec, snapshot, st, buffer);
      var read, lines := Through(codec, S.Lines(buffer)), S.Lines(buffer + more);
      && next == FoldLines(codec, snapshot, st, read) && |rest| <= |buffer|
      && (!next.done ==> lines == read + S.Lines(rest + more) && MarkRead(codec, lines, |read|, rest, more))
    decreases |buffer|
  {
    hide *;
    match Cut(buffer, '\n')
    case None =>
      DrainLast(codec, snapshot, st, buffer);
      NoMarkToRead(codec, S.Lines(buffer + more), buffer, more);
    case Some((line, rest)) =>
      LinesCons(line, rest, more);
      LinesCons(line, rest, "");
      assert buffer + "" == buffer && rest + "" == rest && buffer == line + "\n" + rest;
      DrainOneLine(codec, snapshot, st, line, rest);
      ThroughCons(codec, line, S.Lines(rest));
      var next := StepLine(codec, snapshot, st, line);
      if Classify(codec, line).EndMark? {
        MarkChangesNothing(codec, snapshot, st, line);
        FoldCons(codec, snapshot, st, line, []);
        FoldNothing(codec, snapshot, st);
        ThroughCons(codec, line, S.Lines(rest + more));
        MarkReadAt(codec, S.Lines(buffer + more), 1, rest, more);
      } else {
        var read := Through(codec, S.Lines(rest));
        FoldCons(codec, snapshot, st, line, read);
        if next.done {
          DoneStays(codec, snapshot, next, read);
          DrainedDone(codec, snapshot, next, rest);
        } else {
          DrainedReads(codec, snapshot, next, rest, more);
          var left := Drained(codec, snapshot, next, rest).1;
          if !Drained(codec, snapshot, next, rest).0.done {
            MarkReadCons(codec, line, S.Lines(rest + more), |read|, left, more);
            assert [line] + (read + S.Lines(left + more)) == [line] + read + S.Lines(left + more);
          }
        }
      }
  }

  predicate TripsLimit(codec: Codec, snapshot: Option<Uuid>, st: Round, buffer: string, received: nat, arrivals: seq<S.Arrival>)
    requires S.OnlyChunks(arrivals)
    decreases |arrivals|
  {
    !st.done && arrivals != [] &&
    var all := buffer + arrivals[0].bytes;
    var (next, rest) := Drained(codec, snapshot, st, all);
    (S.OverLimit(received + |arrivals[0].bytes|, |all|) || TripsLimit(codec, snapshot, next, rest, received + |arrivals[0].bytes|, arrivals[1..]))
  }

  /** However a response is cut, the round reads some first `k` of its lines: no fewer than through the first end mark. */
  lemma {:induction false} FeedReads(codec: Codec, snapshot: Option<Uuid>, st: Round, buffer: string, received: nat, arrivals: seq<S.Arrival>)
    returns (k: nat)
    requires S.OnlyChunks(arrivals)
    requires !TripsLimit(codec, snapshot, st, buffer, received, arrivals)
    ensures var lines := S.Lines(buffer + S.Bytes(arrivals));
      && k <= |lines| && Feed(codec, snapshot, st, buffer, received, arrivals) == Close(FoldLines(codec, snapshot, st, lines[..k]))
      && (arrivals != [] || '\n' !in buffer ==> |Through(codec, lines)| <= k)
    decreases |arrivals|
  {
    hide FoldLines, Drained, Through, S.Lines, Cut;
    var lines := S.Lines(buffer + S.Bytes(arrivals));
    if st.done {
      k := |lines|;
      DoneStays(codec, snapshot, st, lines[..k]);
    } else if arrivals == [] {
      k := 0;
      assert buffer + "" == buffer;
      NothingRead(codec, snapshot, st, buffer, lines[..0]);
    } else {
      var all, more := buffer + arrivals[0].bytes, S.Bytes(arrivals[1..]);
      assert buffer + S.Bytes(arrivals) == all + more;
      DrainedReads(codec, snapshot, st, all, more);
      var (next, rest) := Drained(codec, snapshot, st, all);
      var read := Through(codec, S.Lines(all));
      if next.done {
        S.LinesAcrossCut(all, more);
        k := |lines|;
        DoneStays(codec, snapshot, next, lines[|read|..]);
        FoldAppend(codec, snapshot, st, read, lines[|read|..]);
        assert lines[..k] == read + lines[|read|..];
      } else {
        var j := FeedReads(codec, snapshot, next, rest, received + |arrivals[0].bytes|, arrivals[1..]);
        k := |read| + j;
        var later := S.Lines(rest + more);
        FoldAppend(codec, snapshot, st, read, later[..j]);
        assert lines[..k] == read + later[..j];
      }
    }
  }

  lemma NothingRead(codec: Codec, snapshot: Option<Uuid>, st: Round, buffer: string, none: seq<string>)
    requires none == []
    ensures FoldLines(codec, snapshot, st, none) == st
    ensures '\n' !in buffer ==> S.Lines(buffer) == []
  {
  }

  // Reading more lines only adds to a round.

  predicate Extends(a: Round, b: Round) {
    a.fullText <= b.fullText && a.calls <= b.calls && a.parts <= b.parts && a.events <= b.events && (a.done ==> a == b)
  }

  /** A round that is over before its stream is, has failed; no failure is the stream limit's. */
  predicate FailedIfDone(st: Round) {
    && (st.done ==> st.events != [] && st.events[|st.events| - 1].RoundFailed?)
    && RoundFailed("STREAM_LIMIT") !in st.events
  }

  lemma {:induction false} PartsExtend(codec: Codec, snapshot: Option<Uuid>, st: Round, parts: seq<Json>)
    requires FailedIfDone(st)
    ensures Extends(st, ApplyParts(codec, snapshot, st, parts)) && FailedIfDone(ApplyParts(codec, snapshot, st, parts))
    decreases |parts|
  {
    hide ArgsOf, TextOf, Field, FieldOf, StringOf;
    if parts != [] && !st.done {
      PartsExtend(codec, snapshot, ApplyPart(codec, snapshot, st, parts[0]), parts[1..]);
    }
  }

  lemma {:induction false} FoldExtends(codec: Codec, snapshot: Option<Uuid>, st: Round, lines: seq<string>)
    requires FailedIfDone(st)
    ensures Extends(st, FoldLines(codec, snapshot, st, lines)) && FailedIfDone(FoldLines(codec, snapshot, st, lines))
    decreases |lines|
  {
    hide Classify, ApplyParts;
    if lines != [] {
      if !st.done && Classify(codec, lines[0]).Parts? { PartsExtend(codec, snapshot, st, Classify(codec, lines[0]).parts); }
      FoldExtends(codec, snapshot, StepLine(codec, snapshot, st, lines[0]), lines[1..]);
    }
  }

  lemma Between<T>(a: seq<T>, b: seq<T>, c: seq<T>)
    requires a <= b <= c
    ensures a == c ==> b == a
  {
  }

  /** A round between two that say the same says the same. */
  lemma BetweenSaysTheSame(a: Round, b: Round, c: Round)
    requires Extends(a, b) && Extends(b, c) && FailedIfDone(c)
    requires Close(a).events == Close(c).events
    ensures Close(b).events == Close(a).events
  {
    if !a.done {
      var last := Close(a).events[|Close(a).events| - 1];
      assert last.RawCompleted? || last.ToolCallsRequested?;
      assert Close(c).events[|Close(c).events| - 1] == last;
      assert !c.done;
      assert a.calls == [] <==> c.calls == [];
      var n := |Close(a).events| - if a.calls == [] then 1 else 2;
      assert a.events == Close(a).events[..n] && c.events == Close(c).events[..n];
      assert Close(a).events[n] == Close(c).events[n];
      Between(a.fullText, b.fullText, c.fullText);
      Between(a.calls, b.calls, c.calls);
      Between(a.parts, b.parts, c.parts);
      Between(a.events, b.events, c.events);
    }
  }

  lemma PrefixesSayTheSame(codec: Codec, snapshot: Option<Uuid>, lines: seq<string>, j: nat, k: nat)
    requires j <= k <= |lines| && Read(codec, snapshot, lines[..j]).events == Read(codec, snapshot, lines).events
    ensures Read(codec, snapshot, lines[..k]).events == Read(codec, snapshot, lines).events
  {
    hide FoldLines, Close, Extends;
    var a, b := FoldLines(codec, snapshot, INITIAL, lines[..j]), FoldLines(codec, snapshot, INITIAL, lines[..k]);
    FoldExtends(codec, snapshot, INITIAL, lines[..j]);
    FoldExtends(codec, snapshot, a, lines[j..k]);
    FoldAppend(codec, snapshot, INITIAL, lines[..j], lines[j..k]);
    assert lines[..k] == lines[..j] + lines[j..k];
    FoldExtends(codec, snapshot, b, lines[k..]);
    FoldAppend(codec, snapshot, INITIAL, lines[..k], lines[k..]);
    assert lines == lines[..k] + lines[k..];
    BetweenSaysTheSame(a, b, FoldLines(codec, snapshot, INITIAL, lines));
  }

  lemma {:induction false} FeedTripped(codec: Codec, snapshot: Option<Uuid>, st: Round, buffer: string, received: nat, arrivals: seq<S.Arrival>)
    requires S.OnlyChunks(arrivals) && TripsLimit(codec, snapshot, st, buffer, received, arrivals)
    ensures RoundFailed("STREAM_LIMIT") in Feed(codec, snapshot, st, buffer, received, arrivals).events
    decreases |arrivals|
  {
    hide Drained;
    var all := buffer + arrivals[0].bytes;
    if !S.OverLimit(received + |arrivals[0].bytes|, |all|) {
      var (next, rest) := Drained(codec, snapshot, st, all);
      FeedTripped(codec, snapshot, next, rest, received + |arrivals[0].bytes|, arrivals[1..]);
    }
  }

  /** Nothing after the first end mark would change what the round says. */
  predicate MarkIsLast(codec: Codec, snapshot: Option<Uuid>, bytes: string) {
    Read(codec, snapshot, Through(codec, S.Lines(bytes))).events == Read(codec, snapshot, S.Lines(bytes)).events
  }

  /**
   When nothing after the first end mark would change what the round says, every cut of the response
   says what all its lines say, exactly when no chunk trips a size guard before the round is over.
   */
  lemma EveryCutReadsAll(codec: Codec, snapshot: Option<Uuid>, arrivals: seq<S.Arrival>)
    requires S.OnlyChunks(arrivals) && MarkIsLast(codec, snapshot, S.Bytes(arrivals))
    ensures Feed(codec, snapshot, INITIAL, "", 0, arrivals).events == Read(codec, snapshot, S.Lines(S.Bytes(arrivals))).events
       <==> !TripsLimit(codec, snapshot, INITIAL, "", 0, arrivals)
  {
    hide FoldLines, S.Lines, Feed, TripsLimit, Through;
    var lines := S.Lines(S.Bytes(arrivals));
    if TripsLimit(codec, snapshot, INITIAL, "", 0, arrivals) {
      FeedTripped(codec, snapshot, INITIAL, "", 0, arrivals);
      FoldExtends(codec, snapshot, INITIAL, lines);
    } else {
      assert "" + S.Bytes(arrivals) == S.Bytes(arrivals);
      var k := FeedReads(codec, snapshot, INITIAL, "", 0, arrivals);
      var j := |Through(codec, lines)|;
      assert lines[..j] == Through(codec, lines);
      PrefixesSayTheSame(codec, snapshot, lines, j, k);
    }
  }

  /** A way to cut a response that trips no size guard. */
  predicate IsCut(codec: Codec, snapshot: Option<Uuid>, bytes: string, arrivals: seq<S.Arrival>) {
    S.OnlyChunks(arrivals) && S.Bytes(arrivals) == bytes && !TripsLimit(codec, snapshot, INITIAL, "", 0, arrivals)
  }

  /** However the response is cut, the round says the same. */
  ghost predicate CutsAgree(codec: Codec, snapshot: Option<Uuid>, bytes: string) {
    forall one, other :: IsCut(codec, snapshot, bytes, one) && IsCut(codec, snapshot, bytes, other) ==>
      Feed(codec, snapshot, INITIAL, "", 0, one).events == Feed(codec, snapshot, INITIAL, "", 0, other).events
  }

  lemma {:induction false} SmallNeverTrips(codec: Codec, snapshot: Option<Uuid>, st: Round, buffer: string, received: nat, arrivals: seq<S.Arrival>)
    requires S.OnlyChunks(arrivals)
    requires |buffer| <= received && received + |S.Bytes(arrivals)| <= S.MEBIBYTE
    ensures !TripsLimit(codec, snapshot, st, buffer, received, arrivals)
    decreases |arrivals|
  {
    hide FoldLines, Drained, Through, S.Lines;
    if !st.done && arrivals != [] {
      var all := buffer + arrivals[0].bytes;
      DrainedReads(codec, snapshot, st, all, "");
      var (next, rest) := Drained(codec, snapshot, st, all);
      SmallNeverTrips(codec, snapshot, next, rest, received + |arrivals[0].bytes|, arrivals[1..]);
    }
  }

  /** One chunk a line. */
  function LineByLine(bytes: string): (r: seq<S.Arrival>)
    ensures S.OnlyChunks(r) && S.Bytes(r) == bytes
    decreases |bytes|
  {
    match Cut(bytes, '\n')
    case None => [S.Chunk(bytes)]
    case Some((line, rest)) =>
      var r := [S.Chunk(line + ['\n'])] + LineByLine(rest);
      assert r[1..] == LineByLine(rest);
      r
  }

  lemma FeedDone(codec: Codec, snapshot: Option<Uuid>, st: Round, received: nat, arrivals: seq<S.Arrival>)
    requires st.done
    ensures Feed(codec, snapshot, st, "", received, arrivals) == st
  {
  }

  lemma LineByLineStep(line: string, rest: string)
    requires '\n' !in line
    ensures LineByLine(line + ['\n'] + rest) == [S.Chunk(line + ['\n'])] + LineByLine(rest)
  {
    CutAt(line, '\n', rest);
  }

  lemma LineByLineEnd(bytes: string)
    requires '\n' !in bytes
    ensures LineByLine(bytes) == [S.Chunk(bytes)]
  {
  }

  /** What a chunk that is one line and its line feed does. */
  lemma FeedLine(codec: Codec, snapshot: Option<Uuid>, st: Round, received: nat, line: string, more: seq<S.Arrival>)
    requires !st.done && '\n' !in line && received + |line| + 1 <= S.MEBIBYTE
    ensures Feed(codec, snapshot, st, "", received, [S.Chunk(line + ['\n'])] + more)
         == Feed(codec, snapshot, StepLine(codec, snapshot, st, line), "", received + |line| + 1, more)
  {
    hide StepLine, Drained, Classify;
    var first := line + ['\n'];
    assert "" + first == first && first == line + "\n" + "";
    assert ([S.Chunk(first)] + more)[1..] == more;
    DrainOneLine(codec, snapshot, st, line, "");
    MarkChangesNothing(codec, snapshot, st, line);
    NothingToDrain(codec, snapshot, StepLine(codec, snapshot, st, line));
  }

  /** Cut line by line, a response is read to its end. */
  lemma {:induction false} LineByLineReadsAll(codec: Codec, snapshot: Option<Uuid>, st: Round, received: nat, bytes: string)
    requires received + |bytes| <= S.MEBIBYTE
    ensures Feed(codec, snapshot, st, "", received, LineByLine(bytes)) == Close(FoldLines(codec, snapshot, st, S.Lines(bytes)))
    decreases |bytes|
  {
    hide StepLine, Drained, FoldLines, S.Lines, Classify, LineByLine, Feed, Cut;
    if st.done {
      DoneStays(codec, snapshot, st, S.Lines(bytes));
      FeedDone(codec, snapshot, st, received, LineByLine(bytes));
    } else {
      match Cut(bytes, '\n')
      case None =>
        LineByLineEnd(bytes);
        DrainLast(codec, snapshot, st, bytes);
        FeedLast(codec, snapshot, st, received, bytes);
      case Some((line, rest)) =>
        LineByLineStep(line, rest);
        LinesCons(line, rest, "");
        assert bytes + "" == bytes && rest + "" == rest;
        FoldCons(codec, snapshot, st, line, S.Lines(rest));
        FeedLine(codec, snapshot, st, received, line, LineByLine(rest));
        LineByLineReadsAll(codec, snapshot, StepLine(codec, snapshot, st, line), received + |line| + 1, rest);
    }
  }

  lemma MarkChangesNothing(codec: Codec, snapshot: Option<Uuid>, st: Round, line: string)
    ensures Classify(codec, line).EndMark? ==> StepLine(codec, snapshot, st, line) == st
  {
  }

  /** In one chunk, a response is read through its first end mark. */
  lemma OneChunkReadsThrough(codec: Codec, snapshot: Option<Uuid>, bytes: string)
    requires |bytes| <= S.MEBIBYTE
    ensures Feed(codec, snapshot, INITIAL, "", 0, [S.Chunk(bytes)]) == Read(codec, snapshot, Through(codec, S.Lines(bytes)))
  {
    hide Drained, Through, FoldLines, S.Lines;
    assert "" + bytes == bytes && [S.Chunk(bytes)][1..] == [];
    DrainedReads(codec, snapshot, INITIAL, bytes, "");
  }

  /**
   However a response of up to one MiB is cut into chunks, the round says the same, exactly when the
   lines through the first end mark say what all its lines say.
   */
  lemma ChunkIndependence(codec: Codec, snapshot: Option<Uuid>, bytes: string)
    requires |bytes| <= S.MEBIBYTE
    ensures CutsAgree(codec, snapshot, bytes) <==> MarkIsLast(codec, snapshot, bytes)
  {
    hide Feed, TripsLimit, Read, Through, S.Lines, LineByLine;
    if MarkIsLast(codec, snapshot, bytes) {
      forall one, other | IsCut(codec, snapshot, bytes, one) && IsCut(codec, snapshot, bytes, other)
        ensures Feed(codec, snapshot, INITIAL, "", 0, one).events == Feed(codec, snapshot, INITIAL, "", 0, other).events
      {
        EveryCutReadsAll(codec, snapshot, one);
        EveryCutReadsAll(codec, snapshot, other);
      }
    } else {
      var one, other := [S.Chunk(bytes)], LineByLine(bytes);
      assert S.Bytes(one) == bytes by { assert one[1..] == [] && bytes + "" == bytes; }
      SmallNeverTrips(codec, snapshot, INITIAL, "", 0, one);
      SmallNeverTrips(codec, snapshot, INITIAL, "", 0, other);
      OneChunkReadsThrough(codec, snapshot, bytes);
      LineByLineReadsAll(codec, snapshot, INITIAL, 0, bytes);
      ReadIs(codec, snapshot, S.Lines(bytes));
      assert IsCut(codec, snapshot, bytes, one) && IsCut(codec, snapshot, bytes, other);
    }
  }

  lemma ReadIs(codec: Codec, snapshot: Option<Uuid>, lines: seq<string>)
    ensures Read(codec, snapshot, lines) == Close(FoldLines(codec, snapshot, INITIAL, lines))
  {
  }

  /** No line but the last is an end mark. */
  predicate EndsLast(codec: Codec, lines: seq<string>) {
    forall i :: 0 <= i < |lines| - 1 ==> !Classify(codec, lines[i]).EndMark?
  }

  lemma {:induction false} ThroughLastMark(codec: Codec, lines: seq<string>)
    requires EndsLast(codec, lines)
    ensures Through(codec, lines) == lines
  {
    hide Classify;
    if lines != [] {
      assert EndsLast(codec, lines[1..]);
      ThroughLastMark(codec, lines[1..]);
    }
  }

  /** In particular a response whose only end mark is its last line reads the same however it is cut. */
  lemma EndMarkLastReadsAll(codec: Codec, snapshot: Option<Uuid>, arrivals: seq<S.Arrival>)
    requires S.OnlyChunks(arrivals) && EndsLast(codec, S.Lines(S.Bytes(arrivals)))
    ensures Feed(codec, snapshot, INITIAL, "", 0, arrivals).events == Read(codec, snapshot, S.Lines(S.Bytes(arrivals))).events
       <==> !TripsLimit(codec, snapshot, INITIAL, "", 0, arrivals)
  {
    hide FoldLines, S.Lines, Feed, TripsLimit, EndsLast, Through;
    ThroughLastMark(codec, S.Lines(S.Bytes(arrivals)));
    EveryCutReadsAll(codec, snapshot, arrivals);
  }

  lemma DrainOneLine(codec: Codec, snapshot: Option<Uuid>, st: Round, line: string, rest: string)
    requires '\n' !in line && !st.done
    ensures Drained(codec, snapshot, st, line + "\n" + rest)
         == if Classify(codec, line).EndMark? then (st, rest) else Drained(codec, snapshot, StepLine(codec, snapshot, st, line), rest)
  {
    hide Classify, StepLine;
    CutAt(line, '\n', rest);
    assert line + ['\n'] + rest == line + "\n" + rest;
  }

  lemma FeedLast(codec: Codec, snapshot: Option<Uuid>, st: Round, received: nat, bytes: string)
    requires !st.done && received + |bytes| <= S.MEBIBYTE
    ensures Feed(codec, snapshot, st, "", received, [S.Chunk(bytes)]) == Close(Drained(codec, snapshot, st, bytes).0)
  {
    hide Drained;
    assert "" + bytes == bytes && [S.Chunk(bytes)][1..] == [];
  }

  lemma FeedFirst(codec: Codec, snapshot: Option<Uuid>, st: Round, bytes: string, more: S.Arrival)
    requires !st.done && |bytes| <= S.MEBIBYTE
    ensures var (next, rest) := Drained(codec, snapshot, st, bytes);
      Feed(codec, snapshot, st, "", 0, [S.Chunk(bytes), more]) == Feed(codec, snapshot, next, rest, |bytes|, [more])
  {
    hide Drained;
    assert "" + bytes == bytes && [S.Chunk(bytes), more][1..] == [more];
  }

  /**
   An end mark before the last line makes the cut matter: what follows it in the same chunk waits
   for another chunk, and is lost when none comes.
   */
  lemma CutAtEndMarkMatters(codec: Codec, snapshot: Option<Uuid>, mark: string, line: string, text: string)
    requires '\n' !in mark && '\n' !in line && Classify(codec, mark).EndMark? && |mark| + |line| < 1000
    requires Classify(codec, line).Parts? && ApplyParts(codec, snapshot, INITIAL, Classify(codec, line).parts) == AddText(INITIAL, Some(text))
    ensures var first, second := mark + "\n", line + "\n";
      && Feed(codec, snapshot, INITIAL, "", 0, [S.Chunk(first + second)]).events == [RoundStarted, RawCompleted("")]
      && Feed(codec, snapshot, INITIAL, "", 0, [S.Chunk(first), S.Chunk(second)]).events == [RoundStarted, RoundText(text), RawCompleted(text)]
  {
    hide Classify, ApplyParts, Drained, Feed;
    var first, second := mark + "\n", line + "\n";
    assert mark + "\n" + "" == first && line + "\n" + "" == second;
    DrainOneLine(codec, snapshot, INITIAL, mark, second);
    DrainOneLine(codec, snapshot, INITIAL, mark, "");
    DrainOneLine(codec, snapshot, INITIAL, line, "");
    var next := AddText(INITIAL, Some(text));
    NothingToDrain(codec, snapshot, next);
    FeedLast(codec, snapshot, INITIAL, 0, first + second);
    FeedFirst(codec, snapshot, INITIAL, first, S.Chunk(second));
    FeedLast(codec, snapshot, INITIAL, |first|, second);
    assert "" + text == text;
  }

  lemma NothingToDrain(codec: Codec, snapshot: Option<Uuid>, st: Round)
    ensures Drained(codec, snapshot, st, "") == (st, "")
  {
  }

  // An input on which the cut decides.

  const MARK := "data: [DONE]"
  const PAYLOAD := "{\"candidates\":[{" + "\"content\":{" + "\"parts\":[{" + "\"text\":\"b\"" + "}]}}]}"
  const LATE := "data: " + PAYLOAD
  const LATE_PART := JObject(map["text" := JString("b")])
  const LATE_VALUE :=
    JObject(map["candidates" := JArray([JObject(map["content" := JObject(map["parts" := JArray([LATE_PART])])])])])

  /** A codec for these lines: the bytes are ASCII, and the one payload is decoded as it reads. */
  const SAMPLE := Codec(bytes => bytes, data => if data == PAYLOAD then Some(LATE_VALUE) else None, _ => 0, (_, _, _, _, _) => None)

  lemma NothingToTrim(s: string)
    requires s != "" && !Whitespace.IsWhite(s[0]) && !Whitespace.IsWhite(s[|s| - 1])
    ensures Whitespace.Trim(s) == s
  {
  }

  lemma SampleLines()
    ensures Classify(SAMPLE, MARK) == EndMark
    ensures Classify(SAMPLE, LATE) == Parts([LATE_PART])
  {
    NothingToTrim(MARK);
    NothingToTrim("[DONE]");
    assert MARK[6..] == "[DONE]";
    assert LATE[6..] == PAYLOAD && PAYLOAD[0] == '{' && PAYLOAD[|PAYLOAD| - 1] == '}';
    NothingToTrim(LATE);
    NothingToTrim(PAYLOAD);
    var candidates := Field(LATE_VALUE, "candidates");
    assert candidates.Some? && First(candidates.value).Some?;
  }

  lemma SamplePart()
    ensures ApplyParts(SAMPLE, None, INITIAL, [LATE_PART]) == AddText(INITIAL, Some("b"))
  {
    assert Field(LATE_PART, "thought") == None && Field(LATE_PART, "functionCall") == None;
    assert [LATE_PART][1..] == [];
  }

  lemma SampleIsSmall()
    ensures '\n' !in MARK && '\n' !in LATE && |MARK| + |LATE| < 100
  {
    assert '\n' !in PAYLOAD;
  }

  lemma BytesOfOneAndTwo(first: string, second: string)
    ensures S.Bytes([S.Chunk(first + second)]) == first + second
    ensures S.Bytes([S.Chunk(first), S.Chunk(second)]) == first + second
  {
    assert [S.Chunk(first + second)][1..] == [] && first + second + "" == first + second;
    var two := [S.Chunk(first), S.Chunk(second)];
    assert two[1..] == [S.Chunk(second)] && two[1..][1..] == [] && second + "" == second;
    assert S.Bytes(two[1..]) == second;
  }

  /** An end mark and then a line of text: in one chunk the text is lost, in two it is shown. */
  lemma TextAfterMarkIsLost()
    ensures Feed(SAMPLE, None, INITIAL, "", 0, [S.Chunk(MARK + "\n" + (LATE + "\n"))]).events == [RoundStarted, RawCompleted("")]
    ensures Feed(SAMPLE, None, INITIAL, "", 0, [S.Chunk(MARK + "\n"), S.Chunk(LATE + "\n")]).events
         == [RoundStarted, RoundText("b"), RawCompleted("b")]
    ensures !MarkIsLast(SAMPLE, None, MARK + "\n" + (LATE + "\n"))
  {
    hide Feed, Classify, ApplyParts, TripsLimit, Read, Through, S.Lines, S.Bytes, MarkIsLast;
    var first, second := MARK + "\n", LATE + "\n";
    SampleLines();
    SamplePart();
    SampleIsSmall();
    CutAtEndMarkMatters(SAMPLE, None, MARK, LATE, "b");
    var bytes, one, two := first + second, [S.Chunk(first + second)], [S.Chunk(first), S.Chunk(second)];
    BytesOfOneAndTwo(first, second);
    SmallNeverTrips(SAMPLE, None, INITIAL, "", 0, one);
    SmallNeverTrips(SAMPLE, None, INITIAL, "", 0, two);
    assert IsCut(SAMPLE, None, bytes, one) && IsCut(SAMPLE, None, bytes, two);
    assert !CutsAgree(SAMPLE, None, bytes);
    ChunkIndependence(SAMPLE, None, bytes);
  }

  // What a response says, in terms of its lines and their JSON.

  datatype Ending = AtMark(line: string, rest: string) | AtClose(rest: string) | AtReadError(rest: string) | AtCancel(rest: string)

  datatype Script = Script(lines: seq<string>, parts: seq<seq<Json>>, said: seq<T.PartSaid>, ending: Ending)

  predicate Scripted(codec: Codec, s: Script) {
    && T.Unbroken(s.lines) && T.AllBring(codec.lossy, codec.json, s.lines, s.parts) && T.AllSayParts(T.Flat(s.parts), s.said)
  }

  /** The bytes of the chunks, and what follows them; the only end mark, if any, is the last line. */
  predicate Arrives(lossy: string -> string, chunks: seq<S.Arrival>, tail: seq<S.Arrival>, s: Script) {
    && S.OnlyChunks(chunks) && |S.Bytes(chunks)| <= 1024 * 1024 && '\n' !in s.ending.rest
    && match s.ending
       case AtMark(line, rest) => T.IsEnd(lossy, line) && '\n' !in line && S.Bytes(chunks) == T.Written(s.lines) + (line + "\n" + rest) && tail == []
       case AtClose(rest) => S.Bytes(chunks) == T.Written(s.lines) + rest && tail == []
       case AtReadError(rest) => S.Bytes(chunks) == T.Written(s.lines) + rest && tail != [] && tail[0] == S.ReadError
       case AtCancel(rest) => S.Bytes(chunks) == T.Written(s.lines) + rest && tail != [] && tail[0] == S.Cancelled
  }

  /** The call at position `k` is within the limits and parses. */
  predicate Works(codec: Codec, snapshot: Option<Uuid>, k: nat, asked: T.Invocation) {
    && k < 24 && codec.jsonSize(asked.args) <= 64 * 1024
    && snapshot.Some? && codec.parseCall(k, asked.name, asked.args, asked.id, snapshot.value).Some?
  }

  predicate AllWork(codec: Codec, snapshot: Option<Uuid>, k: nat, asked: seq<T.Invocation>) {
    forall i :: 0 <= i < |asked| ==> Works(codec, snapshot, k + i, asked[i])
  }

  predicate AreParsed(codec: Codec, snapshot: Option<Uuid>, k: nat, asked: seq<T.Invocation>, calls: seq<ToolCall>) {
    |calls| == |asked| && forall i :: 0 <= i < |asked| ==>
      snapshot.Some? && codec.parseCall(k + i, asked[i].name, asked[i].args, asked[i].id, snapshot.value) == Some(calls[i])
  }

  /** The call of part `q` is the first that does not work. */
  predicate RefusedAt(codec: Codec, snapshot: Option<Uuid>, said: seq<T.PartSaid>, q: nat) {
    && q < |said| && T.Invokes(said[q]) && AllWork(codec, snapshot, 0, T.Invocations(said[..q]))
    && !Works(codec, snapshot, |T.Invocations(said[..q])|, said[q].call.value)
  }

  /** Why the call at position `k` does not work. */
  function Refusal(codec: Codec, snapshot: Option<Uuid>, k: nat, asked: T.Invocation): string {
    if k >= 24 || codec.jsonSize(asked.args) > 64 * 1024 then "TOOL_ARGUMENT_LIMIT"
    else if snapshot.None? then "AGENT_TOOL_CONTEXT_MISSING"
    else "AGENT_TOOL_SCHEMA_INVALID"
  }

  predicate EndsScript(codec: Codec, snapshot: Option<Uuid>, s: Script, last: seq<RoundEvent>) {
    match s.ending
    case AtReadError(_) => last == [RoundFailed("STREAM_READ_ERROR")]
    case AtCancel(_) => last == [RoundFailed("CANCELLED")]
    case _ =>
      var asked := T.Invocations(s.said);
      if asked == [] then last == [RawCompleted(T.AllText(T.ShownTexts(s.said)))]
      else
        && |last| == 2 && |T.Flat(s.parts)| == |s.said| && last[0] == ProviderToolParts(T.Invoking(T.Flat(s.parts), s.said))
        && last[1].ToolCallsRequested? && AreParsed(codec, snapshot, 0, asked, last[1].calls)
  }

  /**
   The events of a scripted response: its texts in order, thoughts aside; then the event or two it
   ends with, or the refusal of the first call that does not work.
   */
  ghost predicate Plays(codec: Codec, snapshot: Option<Uuid>, s: Script, events: seq<RoundEvent>) {
    var told := [RoundStarted] + T.TextEvents(T.ShownTexts(s.said));
    && (AllWork(codec, snapshot, 0, T.Invocations(s.said)) ==> told <= events && EndsScript(codec, snapshot, s, events[|told|..]))
    && forall q: nat :: RefusedAt(codec, snapshot, s.said, q) ==>
         events == [RoundStarted] + T.TextEvents(T.ShownTexts(s.said[..q + 1]))
                   + [RoundFailed(Refusal(codec, snapshot, |T.Invocations(s.said[..q])|, s.said[q].call.value))]
  }

  /** The JSON of a line decides how it is read. */
  lemma LineIsRead(codec: Codec, line: string, parts: seq<Json>)
    requires T.Brings(codec.lossy, codec.json, line, parts)
    ensures var read := Classify(codec, line);
      if read.Parts? then read.parts == parts else read.Ignored? && parts == []
  {
  }

  lemma MarkIsRead(codec: Codec, line: string)
    ensures T.IsEnd(codec.lossy, line) <==> Classify(codec, line).EndMark?
  {
  }

  /** The JSON of a part decides what it does to a round. */
  lemma PartIsRead(codec: Codec, snapshot: Option<Uuid>, st: Round, part: Json, said: T.PartSaid)
    requires !st.done && T.SaysPart(part, said)
    ensures var next := ApplyPart(codec, snapshot, st, part);
      var heard := AddText(st, T.Shown(said));
      if !T.Invokes(said) then next == heard
      else if !Works(codec, snapshot, |st.calls|, said.call.value)
      then next == Fail(heard, Refusal(codec, snapshot, |st.calls|, said.call.value))
      else
        var asked := said.call.value;
        next == heard.(calls := st.calls + [codec.parseCall(|st.calls|, asked.name, asked.args, asked.id, snapshot.value).value], parts := st.parts + [part])
  {
  }

  // Running over parts.

  lemma InvocationsCons(s: T.PartSaid, more: seq<T.PartSaid>)
    ensures T.Invocations([s] + more) == (if T.Invokes(s) then [s.call.value] else []) + T.Invocations(more)
    ensures T.ShownTexts([s] + more) == [T.Shown(s)] + T.ShownTexts(more)
  {
    assert ([s] + more)[1..] == more;
  }

  lemma {:induction false} InvocationsAppend(a: seq<T.PartSaid>, b: seq<T.PartSaid>)
    ensures T.Invocations(a + b) == T.Invocations(a) + T.Invocations(b)
    ensures T.ShownTexts(a + b) == T.ShownTexts(a) + T.ShownTexts(b)
  {
    if a == [] {
      assert a + b == b;
    } else {
      assert (a + b)[1..] == a[1..] + b;
      InvocationsAppend(a[1..], b);
    }
  }

  lemma TextCons(text: Option<string>, more: seq<Option<string>>)
    ensures T.AllText([text] + more) == (if text.Some? then text.value else "") + T.AllText(more)
    ensures T.TextEvents([text] + more) == (if text.Some? then [RoundText(text.value)] else []) + T.TextEvents(more)
  {
    assert ([text] + more)[1..] == more;
  }

  lemma TextNone()
    ensures T.TextEvents([]) == [] && T.AllText([]) == ""
  {
  }

  lemma WorkCons(codec: Codec, snapshot: Option<Uuid>, k: nat, asked: T.Invocation, more: seq<T.Invocation>)
    ensures AllWork(codec, snapshot, k, [asked] + more) <==> Works(codec, snapshot, k, asked) && AllWork(codec, snapshot, k + 1, more)
  {
    hide Works;
    var all := [asked] + more;
    if AllWork(codec, snapshot, k, all) {
      assert Works(codec, snapshot, k + 0, all[0]);
      forall i | 0 <= i < |more| ensures Works(codec, snapshot, k + 1 + i, more[i]) {
        assert Works(codec, snapshot, k + (i + 1), all[i + 1]);
      }
    }
    if Works(codec, snapshot, k, asked) && AllWork(codec, snapshot, k + 1, more) {
      forall i | 0 <= i < |all| ensures Works(codec, snapshot, k + i, all[i]) {
        if i > 0 { assert Works(codec, snapshot, k + 1 + (i - 1), more[i - 1]); }
      }
    }
  }

  lemma ParsedCons(codec: Codec, snapshot: Option<Uuid>, k: nat, asked: T.Invocation, call: ToolCall, more: seq<T.Invocation>, calls: seq<ToolCall>)
    requires snapshot.Some? && codec.parseCall(k, asked.name, asked.args, asked.id, snapshot.value) == Some(call)
    requires AreParsed(codec, snapshot, k + 1, more, calls)
    ensures AreParsed(codec, snapshot, k, [asked] + more, [call] + calls)
  {
    forall i | 1 <= i < |[asked] + more|
      ensures var a := ([asked] + more)[i];
        codec.parseCall(k + i, a.name, a.args, a.id, snapshot.value) == Some(([call] + calls)[i])
    {
      assert codec.parseCall(k + 1 + (i - 1), more[i - 1].name, more[i - 1].args, more[i - 1].id, snapshot.value) == Some(calls[i - 1]);
    }
  }

  /** What a running round has made of parts whose calls all work. */
  ghost predicate HasHeard(codec: Codec, snapshot: Option<Uuid>, st: Round, parts: seq<Json>, said: seq<T.PartSaid>, next: Round)
    requires |parts| == |said|
  {
    && !next.done && next.fullText == st.fullText + T.AllText(T.ShownTexts(said))
    && next.events == st.events + T.TextEvents(T.ShownTexts(said)) && next.parts == st.parts + T.Invoking(parts, said)
    && st.calls <= next.calls && AreParsed(codec, snapshot, |st.calls|, T.Invocations(said), next.calls[|st.calls|..])
  }

  lemma NothingHeard(codec: Codec, snapshot: Option<Uuid>, st: Round, parts: seq<Json>, said: seq<T.PartSaid>)
    requires !st.done && parts == [] && said == []
    ensures HasHeard(codec, snapshot, st, parts, said, st)
  {
    assert st.calls[|st.calls|..] == [] && st.fullText + "" == st.fullText && st.events + [] == st.events && st.parts + [] == st.parts;
  }

  lemma OneMoreHeard(codec: Codec, snapshot: Option<Uuid>, st: Round, part: Json, s: T.PartSaid, parts: seq<Json>, said: seq<T.PartSaid>, next: Round)
    requires !st.done && T.SaysPart(part, s) && |parts| == |said|
    requires T.Invokes(s) ==> Works(codec, snapshot, |st.calls|, s.call.value)
    requires HasHeard(codec, snapshot, ApplyPart(codec, snapshot, st, part), parts, said, next)
    ensures HasHeard(codec, snapshot, st, [part] + parts, [s] + said, next)
  {
    hide ApplyPart, T.SaysPart, T.Invocations, T.ShownTexts, T.AllText, T.TextEvents, AreParsed, T.Shown;
    PartIsRead(codec, snapshot, st, part, s);
    InvocationsCons(s, said);
    TextCons(T.Shown(s), T.ShownTexts(said));
    assert ([part] + parts)[1..] == parts && ([s] + said)[1..] == said;
    var one := ApplyPart(codec, snapshot, st, part);
    Assoc(st.fullText, if T.Shown(s).Some? then T.Shown(s).value else "", T.AllText(T.ShownTexts(said)));
    assert st.fullText + "" == st.fullText;
    assert next.events == st.events + T.TextEvents(T.ShownTexts([s] + said));
    if T.Invokes(s) {
      ParsedCons(codec, snapshot, |st.calls|, s.call.value, one.calls[|st.calls|], T.Invocations(said), next.calls[|one.calls|..]);
      assert next.calls[|st.calls|..] == [one.calls[|st.calls|]] + next.calls[|one.calls|..];
      assert st.parts + [part] + T.Invoking(parts, said) == st.parts + ([part] + T.Invoking(parts, said));
    } else {
      assert [] + T.Invocations(said) == T.Invocations(said) && [] + T.Invoking(parts, said) == T.Invoking(parts, said);
    }
  }

  lemma {:induction false} PartsAreHeard(codec: Codec, snapshot: Option<Uuid>, st: Round, parts: seq<Json>, said: seq<T.PartSaid>)
    requires !st.done && T.AllSayParts(parts, said) && AllWork(codec, snapshot, |st.calls|, T.Invocations(said))
    ensures HasHeard(codec, snapshot, st, parts, said, ApplyParts(codec, snapshot, st, parts))
    decreases |parts|
  {
    hide ApplyPart, T.SaysPart, T.Invocations, HasHeard, AllWork, Works, T.Shown;
    if parts == [] {
      NothingHeard(codec, snapshot, st, parts, said);
    } else {
      var s, more := said[0], said[1..];
      assert said == [s] + more && parts == [parts[0]] + parts[1..];
      InvocationsCons(s, more);
      PartIsRead(codec, snapshot, st, parts[0], s);
      if T.Invokes(s) {
        WorkCons(codec, snapshot, |st.calls|, s.call.value, T.Invocations(more));
      } else {
        assert [] + T.Invocations(more) == T.Invocations(more);
      }
      PartsAreHeard(codec, snapshot, ApplyPart(codec, snapshot, st, parts[0]), parts[1..], more);
      OneMoreHeard(codec, snapshot, st, parts[0], s, parts[1..], more, ApplyParts(codec, snapshot, st, parts));
    }
  }

  lemma {:induction false} ApplyAppend(codec: Codec, snapshot: Option<Uuid>, st: Round, a: seq<Json>, b: seq<Json>)
    ensures ApplyParts(codec, snapshot, st, a + b) == ApplyParts(codec, snapshot, ApplyParts(codec, snapshot, st, a), b)
    decreases |a|
  {
    hide ApplyPart;
    if a == [] || st.done {
      assert a == [] ==> a + b == b;
    } else {
      assert (a + b)[1..] == a[1..] + b;
      ApplyAppend(codec, snapshot, ApplyPart(codec, snapshot, st, a[0]), a[1..], b);
    }
  }

  lemma {:induction false} LinesApplyParts(codec: Codec, snapshot: Option<Uuid>, st: Round, lines: seq<string>, parts: seq<seq<Json>>)
    requires T.AllBring(codec.lossy, codec.json, lines, parts)
    ensures FoldLines(codec, snapshot, st, lines) == ApplyParts(codec, snapshot, st, T.Flat(parts))
    decreases |lines|
  {
    hide ApplyPart, T.Brings, Classify;
    if lines != [] {
      LineIsRead(codec, lines[0], parts[0]);
      ApplyAppend(codec, snapshot, st, parts[0], T.Flat(parts[1..]));
      LinesApplyParts(codec, snapshot, StepLine(codec, snapshot, st, lines[0]), lines[1..], parts[1..]);
    }
  }

  /** The first call that does not work fails the round there and then. */
  lemma FirstIsRefused(codec: Codec, snapshot: Option<Uuid>, parts: seq<Json>, said: seq<T.PartSaid>, q: nat)
    requires T.AllSayParts(parts, said) && RefusedAt(codec, snapshot, said, q)
    ensures var next := ApplyParts(codec, snapshot, INITIAL, parts);
      && next.done
      && next.events == [RoundStarted] + T.TextEvents(T.ShownTexts(said[..q + 1]))
                        + [RoundFailed(Refusal(codec, snapshot, |T.Invocations(said[..q])|, said[q].call.value))]
  {
    hide ApplyPart, T.SaysPart, T.Invocations, AllWork, Works, T.Shown, T.AllText, T.TextEvents, Refusal;
    var heard := ApplyParts(codec, snapshot, INITIAL, parts[..q]);
    PartsAreHeard(codec, snapshot, INITIAL, parts[..q], said[..q]);
    assert |heard.calls| == |T.Invocations(said[..q])|;
    ApplyAppend(codec, snapshot, INITIAL, parts[..q], parts[q..]);
    assert parts == parts[..q] + parts[q..];
    PartIsRead(codec, snapshot, heard, parts[q], said[q]);
    assert parts[q..][0] == parts[q];
    InvocationsAppend(said[..q], [said[q]]);
    InvocationsCons(said[q], []);
    assert said[..q + 1] == said[..q] + [said[q]] && [said[q]] + [] == [said[q]];
    T.TextsAppend(T.ShownTexts(said[..q]), [T.Shown(said[q])]);
    TextCons(T.Shown(said[q]), []);
    assert T.ShownTexts([]) == [] && [T.Shown(said[q])] + [] == [T.Shown(said[q])];
    var told := T.TextEvents(T.ShownTexts(said[..q + 1]));
    assert T.TextEvents([]) == [] by { TextNone(); }
    var text := T.Shown(said[q]);
    assert AddText(heard, text).events == [RoundStarted] + told;
  }

  // From the arrivals to the parts.

  predicate Markless(codec: Codec, lines: seq<string>) {
    forall k :: 0 <= k < |lines| ==> !Classify(codec, lines[k]).EndMark?
  }

  /** A buffer without an end mark is drained to its last line feed. */
  lemma {:induction false} MarklessDrains(codec: Codec, snapshot: Option<Uuid>, st: Round, buffer: string)
    requires !st.done && Markless(codec, S.Lines(buffer))
    ensures var (next, rest) := Drained(codec, snapshot, st, buffer);
      next == FoldLines(codec, snapshot, st, S.Lines(buffer)) && (!next.done ==> rest == S.Remainder(buffer))
    decreases |buffer|
  {
    hide *;
    match Cut(buffer, '\n')
    case None =>
      DrainLast(codec, snapshot, st, buffer);
      S.OpenIsRemainder(buffer);
    case Some((line, rest)) =>
      assert buffer == line + "\n" + rest;
      S.LinesCons(line, rest);
      DrainOneLine(codec, snapshot, st, line, rest);
      MarklessCons(codec, line, S.Lines(rest));
      var next := StepLine(codec, snapshot, st, line);
      FoldCons(codec, snapshot, st, line, S.Lines(rest));
      if next.done {
        DoneStays(codec, snapshot, next, S.Lines(rest));
        DrainedDone(codec, snapshot, next, rest);
      } else {
        MarklessDrains(codec, snapshot, next, rest);
      }
  }

  lemma MarklessCons(codec: Codec, line: string, lines: seq<string>)
    ensures Markless(codec, [line] + lines) <==> !Classify(codec, line).EndMark? && Markless(codec, lines)
  {
    hide Classify;
    assert forall k :: 0 <= k < |lines| ==> ([line] + lines)[k + 1] == lines[k];
    assert ([line] + lines)[0] == line;
  }

  lemma {:induction false} MarklessAppend(codec: Codec, a: seq<string>, b: seq<string>)
    ensures Markless(codec, a + b) <==> Markless(codec, a) && Markless(codec, b)
  {
    hide Markless;
    if a == [] {
      MarklessNone(codec);
      assert a + b == b;
    } else {
      MarklessCons(codec, a[0], a[1..]);
      MarklessCons(codec, a[0], a[1..] + b);
      assert a == [a[0]] + a[1..] && a + b == [a[0]] + (a[1..] + b);
      MarklessAppend(codec, a[1..], b);
    }
  }

  lemma MarklessNone(codec: Codec)
    ensures Markless(codec, [])
  {
  }

  lemma {:induction false} FeedChunks(codec: Codec, snapshot: Option<Uuid>, st: Round, buffer: string, received: nat, chunks: seq<S.Arrival>, tail: seq<S.Arrival>)
    requires S.OnlyChunks(chunks) && '\n' !in buffer && !st.done
    requires |buffer| <= received && received + |S.Bytes(chunks)| <= S.MEBIBYTE
    requires Markless(codec, S.Lines(buffer + S.Bytes(chunks)))
    ensures var bytes := buffer + S.Bytes(chunks);
      Feed(codec, snapshot, st, buffer, received, chunks + tail)
      == Feed(codec, snapshot, FoldLines(codec, snapshot, st, S.Lines(bytes)), S.Remainder(bytes), received + |S.Bytes(chunks)|, tail)
    decreases |chunks|
  {
    hide FoldLines, S.Lines, S.Remainder, Cut, Markless, Drained;
    if chunks == [] {
      assert chunks + tail == tail && buffer + "" == buffer;
      S.OpenIsRemainder(buffer);
      FoldNothing(codec, snapshot, st);
    } else {
      var all, rest := buffer + chunks[0].bytes, S.Bytes(chunks[1..]);
      assert buffer + S.Bytes(chunks) == all + rest && (chunks + tail)[1..] == chunks[1..] + tail;
      S.LinesAcrossCut(all, rest);
      S.LinesAcrossCut(all, "");
      S.RemainderIsOpen(all);
      MarklessAppend(codec, S.Lines(all), S.Lines(S.Remainder(all) + rest));
      MarklessDrains(codec, snapshot, st, all);
      var next := FoldLines(codec, snapshot, st, S.Lines(all));
      FoldAppend(codec, snapshot, st, S.Lines(all), S.Lines(S.Remainder(all) + rest));
      if next.done {
        DoneStays(codec, snapshot, next, S.Lines(S.Remainder(all) + rest));
      } else {
        FeedChunks(codec, snapshot, next, S.Remainder(all), received + |chunks[0].bytes|, chunks[1..], tail);
      }
    }
  }

  lemma LinesHaveNoMark(codec: Codec, lines: seq<string>, parts: seq<seq<Json>>)
    requires T.AllBring(codec.lossy, codec.json, lines, parts)
    ensures Markless(codec, lines)
  {
    hide T.Brings, Classify;
    forall k | 0 <= k < |lines| ensures !Classify(codec, lines[k]).EndMark? {
      LineIsRead(codec, lines[k], parts[k]);
    }
  }

  /** The parts of a script, applied from the start and then ended. */
  lemma PartsPlay(codec: Codec, snapshot: Option<Uuid>, s: Script, heard: Round, end: Round)
    requires T.AllSayParts(T.Flat(s.parts), s.said) && heard == ApplyParts(codec, snapshot, INITIAL, T.Flat(s.parts))
    requires if heard.done then end == heard else match s.ending
      case AtReadError(_) => end == Fail(heard, "STREAM_READ_ERROR")
      case AtCancel(_) => end == Fail(heard, "CANCELLED")
      case _ => end == Close(heard)
    ensures Plays(codec, snapshot, s, end.events)
  {
    hide T.SaysPart, T.Invocations, T.Invoking, T.ShownTexts, T.AllText, T.TextEvents, ApplyParts, AllWork, Works, Refusal;
    forall q: nat | RefusedAt(codec, snapshot, s.said, q)
      ensures end.events == [RoundStarted] + T.TextEvents(T.ShownTexts(s.said[..q + 1]))
                   + [RoundFailed(Refusal(codec, snapshot, |T.Invocations(s.said[..q])|, s.said[q].call.value))]
    {
      FirstIsRefused(codec, snapshot, T.Flat(s.parts), s.said, q);
    }
    if AllWork(codec, snapshot, 0, T.Invocations(s.said)) {
      PartsAreHeard(codec, snapshot, INITIAL, T.Flat(s.parts), s.said);
      HeardEnds(codec, snapshot, s, heard, end);
    }
  }

  lemma HeardEnds(codec: Codec, snapshot: Option<Uuid>, s: Script, heard: Round, end: Round)
    requires |T.Flat(s.parts)| == |s.said| && HasHeard(codec, snapshot, INITIAL, T.Flat(s.parts), s.said, heard)
    requires match s.ending
      case AtReadError(_) => end == Fail(heard, "STREAM_READ_ERROR")
      case AtCancel(_) => end == Fail(heard, "CANCELLED")
      case _ => end == Close(heard)
    ensures var told := [RoundStarted] + T.TextEvents(T.ShownTexts(s.said));
      told <= end.events && EndsScript(codec, snapshot, s, end.events[|told|..])
  {
    hide T.Invocations, T.Invoking, T.ShownTexts, T.AllText, T.TextEvents, AreParsed;
    var text := T.AllText(T.ShownTexts(s.said));
    assert "" + text == text && [] + T.Invoking(T.Flat(s.parts), s.said) == T.Invoking(T.Flat(s.parts), s.said);
    assert heard.calls[0..] == heard.calls;
    ParsedCount(codec, snapshot, T.Invocations(s.said), heard.calls);
  }

  lemma ParsedCount(codec: Codec, snapshot: Option<Uuid>, asked: seq<T.Invocation>, calls: seq<ToolCall>)
    requires AreParsed(codec, snapshot, 0, asked, calls)
    ensures asked == [] <==> calls == []
  {
  }

  /** A scripted response is read as it says, however it is cut into chunks. */
  lemma ScriptIsPlayed(codec: Codec, snapshot: Option<Uuid>, chunks: seq<S.Arrival>, tail: seq<S.Arrival>, s: Script)
    requires Scripted(codec, s) && Arrives(codec.lossy, chunks, tail, s)
    ensures Plays(codec, snapshot, s, Feed(codec, snapshot, INITIAL, "", 0, chunks + tail).events)
  {
    hide *;
    ScriptParts(codec, s);
    ArrivalParts(codec, chunks, tail, s);
    LinesHaveNoMark(codec, s.lines, s.parts);
    LinesApplyParts(codec, snapshot, INITIAL, s.lines, s.parts);
    var bytes := S.Bytes(chunks);
    assert "" + bytes == bytes;
    var heard := FoldLines(codec, snapshot, INITIAL, s.lines);
    if s.ending.AtMark? {
      MarkAtTheEnd(codec, snapshot, chunks, s.lines, s.ending.line, s.ending.rest);
      assert chunks + [] == chunks;
      CloseOf(heard);
      PartsPlay(codec, snapshot, s, heard, Close(heard));
    } else {
      LinesBefore(s.lines, s.ending.rest);
      FeedChunks(codec, snapshot, INITIAL, "", 0, chunks, tail);
      FeedEnds(codec, snapshot, heard, S.Remainder(bytes), |bytes|, tail);
      PartsPlay(codec, snapshot, s, heard, Feed(codec, snapshot, heard, S.Remainder(bytes), |bytes|, tail));
    }
  }

  lemma ScriptParts(codec: Codec, s: Script)
    requires Scripted(codec, s)
    ensures T.Unbroken(s.lines) && T.AllBring(codec.lossy, codec.json, s.lines, s.parts) && T.AllSayParts(T.Flat(s.parts), s.said)
    ensures !INITIAL.done
  {
  }

  lemma ArrivalParts(codec: Codec, chunks: seq<S.Arrival>, tail: seq<S.Arrival>, s: Script)
    requires Arrives(codec.lossy, chunks, tail, s)
    ensures S.OnlyChunks(chunks) && |S.Bytes(chunks)| <= S.MEBIBYTE && '\n' !in s.ending.rest
    ensures s.ending.AtMark? ==> T.IsEnd(codec.lossy, s.ending.line) && '\n' !in s.ending.line && tail == []
    ensures s.ending.AtMark? ==> S.Bytes(chunks) == T.Written(s.lines) + (s.ending.line + "\n" + s.ending.rest)
    ensures !s.ending.AtMark? ==> S.Bytes(chunks) == T.Written(s.lines) + s.ending.rest
    ensures s.ending.AtClose? ==> tail == []
    ensures s.ending.AtReadError? ==> tail != [] && tail[0] == S.ReadError
    ensures s.ending.AtCancel? ==> tail != [] && tail[0] == S.Cancelled
  {
    hide T.IsEnd, T.Written, S.Bytes, S.OnlyChunks;
  }

  lemma CloseOf(st: Round)
    ensures st.done ==> Close(st) == st
  {
  }

  lemma LinesBefore(lines: seq<string>, rest: string)
    requires T.Unbroken(lines) && '\n' !in rest
    ensures S.Lines(T.Written(lines) + rest) == lines && '\n' !in ""
  {
    hide T.Unbroken, T.Written, S.Lines, S.Remainder;
    S.WrittenLines(lines, rest);
    S.OpenIsRemainder(rest);
    assert lines + [] == lines;
  }

  lemma FeedEnds(codec: Codec, snapshot: Option<Uuid>, st: Round, buffer: string, received: nat, tail: seq<S.Arrival>)
    ensures var end := Feed(codec, snapshot, st, buffer, received, tail);
      && (st.done ==> end == st)
      && (!st.done && tail == [] ==> end == Close(st))
      && (!st.done && tail != [] && tail[0] == S.ReadError ==> end == Fail(st, "STREAM_READ_ERROR"))
      && (!st.done && tail != [] && tail[0] == S.Cancelled ==> end == Fail(st, "CANCELLED"))
  {
    hide Close;
  }

  /** An end mark behind everything else changes nothing, wherever the chunks are cut. */
  lemma MarkAtTheEnd(codec: Codec, snapshot: Option<Uuid>, chunks: seq<S.Arrival>, lines: seq<string>, line: string, rest: string)
    requires S.OnlyChunks(chunks) && |S.Bytes(chunks)| <= S.MEBIBYTE && T.Unbroken(lines) && Markless(codec, lines)
    requires T.IsEnd(codec.lossy, line) && '\n' !in line && '\n' !in rest
    requires S.Bytes(chunks) == T.Written(lines) + (line + "\n" + rest)
    ensures Feed(codec, snapshot, INITIAL, "", 0, chunks).events == Close(FoldLines(codec, snapshot, INITIAL, lines)).events
  {
    hide *;
    S.WrittenLines(lines, line + "\n" + rest);
    S.LinesCons(line, rest);
    S.OpenIsRemainder(rest);
    assert [line] + [] == [line];
    MarkIsRead(codec, line);
    LastMark(codec, lines, line);
    EndMarkLastReadsAll(codec, snapshot, chunks);
    SmallNeverTrips(codec, snapshot, INITIAL, "", 0, chunks);
    ReadIs(codec, snapshot, lines + [line]);
    FoldAppend(codec, snapshot, INITIAL, lines, [line]);
    var heard := FoldLines(codec, snapshot, INITIAL, lines);
    MarkChangesNothing(codec, snapshot, heard, line);
    FoldCons(codec, snapshot, heard, line, []);
    FoldNothing(codec, snapshot, heard);
  }

  lemma LastMark(codec: Codec, lines: seq<string>, line: string)
    requires Markless(codec, lines)
    ensures EndsLast(codec, lines + [line])
  {
    hide Classify;
  }

  /** The first `n` arrivals bring a scripted response, and the rest ends it as scripted. */
  predicate IsScript(codec: Codec, arrivals: seq<S.Arrival>, n: nat, s: Script) {
    n <= |arrivals| && Scripted(codec, s) && Arrives(codec.lossy, arrivals[..n], arrivals[n..], s)
  }

  lemma EveryScriptIsPlayed(codec: Codec, snapshot: Option<Uuid>, arrivals: seq<S.Arrival>)
    ensures forall n, s :: IsScript(codec, arrivals, n, s) ==> Plays(codec, snapshot, s, Feed(codec, snapshot, INITIAL, "", 0, arrivals).events)
  {
    hide Scripted, Arrives, Plays, Feed;
    forall n: nat, s | IsScript(codec, arrivals, n, s)
      ensures Plays(codec, snapshot, s, Feed(codec, snapshot, INITIAL, "", 0, arrivals).events)
    {
      ScriptIsPlayed(codec, snapshot, arrivals[..n], arrivals[n..], s);
      assert arrivals[..n] + arrivals[n..] == arrivals;
    }
  }
}

/** One round of the OpenAI-compatible adapter: from chunks of bytes to lines, text deltas and tool calls. */
module SseRound {
  import opened Wrappers
  import opened Text
  import opened AgentTypes
  import Whitespace
  import T = Transcript

  const MEBIBYTE: nat := 1024 * 1024
  const ARGUMENT_LIMIT: nat := 64 * 1024
  const PENDING_LIMIT: nat := 24

  /**
   The library calls of the stream: lossy UTF-8 decoding, JSON parsing, tool-call validation. Parsing
   is told the call's position, so that identifiers made up for different calls can differ.
   */
  datatype Codec = Codec(
    lossy: string -> string,
    json: string -> Option<Json>,
    parseCall: (nat, string, Json, string, Uuid) -> Option<ToolCall>)

  datatype PendingCall = PendingCall(id: string, name: string, arguments: string)

  datatype Round = Round(fullText: string, pending: map<nat, PendingCall>, events: seq<RoundEvent>, done: bool)

  const INITIAL := Round("", map[], [RoundStarted], false)

  function Emit(st: Round, e: RoundEvent): Round {
    st.(events := st.events + [e])
  }

  function Finish(st: Round, e: RoundEvent): Round {
    st.(events := st.events + [e], done := true)
  }

  datatype Line = Ignored | EndMark | Choice(choice: Json)

  function Classify(codec: Codec, bytes: string): Line {
    var line := Whitespace.Trim(codec.lossy(bytes));
    if !("data: " <= line) then Ignored
    else
      var data := line[6..];
      if Whitespace.Trim(data) == "[DONE]" then EndMark
      else match codec.json(data)
        case None => Ignored
        case Some(value) =>
          var choices := Field(value, "choices");
          match (if choices.Some? then First(choices.value) else None)
          case None => Ignored
          case Some(choice) => Choice(choice)
  }

  // Tool-call fragments.

  function DeltaIndex(delta: Json): nat {
    match Field(delta, "index")
    case Some(JNumber(Some(n))) => n
    case _ => 0
  }

  function TextOr(v: Option<string>): string {
    if v.Some? then v.value else ""
  }

  /** What one fragment contributes to the call it belongs to. */
  function Fragment(delta: Json): PendingCall {
    var fn := Field(delta, "function");
    PendingCall(TextOr(StringOf(Field(delta, "id"))),
                TextOr(StringOf(FieldOf(fn, "name"))),
                TextOr(StringOf(FieldOf(fn, "arguments"))))
  }

  function Joined(a: PendingCall, b: PendingCall): PendingCall {
    PendingCall(a.id + b.id, a.name + b.name, a.arguments + b.arguments)
  }

  const BLANK := PendingCall("", "", "")

  function Entry(pending: map<nat, PendingCall>, index: nat): PendingCall {
    if index in pending then pending[index] else BLANK
  }

  function ApplyFragment(st: Round, delta: Json): Round {
    var i := DeltaIndex(delta);
    var entry := Joined(Entry(st.pending, i), Fragment(delta));
    var next := st.(pending := st.pending[i := entry]);
    if Whitespace.Utf8Size(entry.arguments) > ARGUMENT_LIMIT || |next.pending| > PENDING_LIMIT
    then Finish(next, RoundFailed("TOOL_ARGUMENT_LIMIT"))
    else next
  }

  function ApplyFragments(st: Round, deltas: seq<Json>): Round
    decreases |deltas|
  {
    if deltas == [] || st.done then st else ApplyFragments(ApplyFragment(st, deltas[0]), deltas[1..])
  }

  function ContentOf(choice: Json): Option<string> {
    StringOf(FieldOf(Field(choice, "delta"), "content"))
  }

  function FragmentsOf(choice: Json): seq<Json> {
    match FieldOf(Field(choice, "delta"), "tool_calls")
    case Some(JArray(items)) => items
    case _ => []
  }

  function ApplyText(st: Round, content: Option<string>): Round {
    if content.Some? then Emit(st, RoundText(content.value)).(fullText := st.fullText + content.value) else st
  }

  // The end mark.

  function Least(s: set<nat>): (m: nat)
    requires s != {}
    ensures m in s && forall x :: x in s ==> m <= x
  {
    LeastExists(s);
    var m :| IsLeast(s, m);
    m
  }

  predicate IsLeast(s: set<nat>, m: nat) {
    m in s && forall x :: x in s ==> m <= x
  }

  lemma {:induction false} LeastExists(s: set<nat>)
    requires s != {}
    ensures exists m :: IsLeast(s, m)
  {
    var y :| y in s;
    var below := set x | x in s && x < y;
    assert forall x :: x in s && x < y ==> x in below;
    if below == {} {
      assert IsLeast(s, y);
    } else {
      assert below < s;
      LeastExists(below);
      var m :| IsLeast(below, m);
      LeastOfAll(s, below, y, m);
    }
  }

  lemma LeastOfAll(s: set<nat>, below: set<nat>, y: nat, m: nat)
    requires IsLeast(below, m) && below <= s && m < y && forall x :: x in s && x < y ==> x in below
    ensures IsLeast(s, m)
  {
  }

  function Without(pending: map<nat, PendingCall>, k: nat): (rest: map<nat, PendingCall>)
    ensures rest.Keys == pending.Keys - {k} && forall i :: i in rest ==> rest[i] == pending[i]
  {
    map i | i in pending && i != k :: pending[i]
  }

  /** The values of the map in ascending order of their keys. */
  function InOrder(pending: map<nat, PendingCall>): seq<PendingCall>
    decreases |pending.Keys|
  {
    if pending.Keys == {} then []
    else
      var k := Least(pending.Keys);
      [pending[k]] + InOrder(Without(pending, k))
  }

  /** Parses calls in order; `k` is the position of the first. */
  function ParseCalls(codec: Codec, items: seq<PendingCall>, snapshot: Uuid, k: nat): Option<seq<ToolCall>>
    decreases |items|
  {
    if items == [] then Some([])
    else match codec.json(items[0].arguments)
      case None => None
      case Some(args) =>
        var head := codec.parseCall(k, items[0].name, args, items[0].id, snapshot);
        var tail := ParseCalls(codec, items[1..], snapshot, k + 1);
        if head.None? || tail.None? then None else Some([head.value] + tail.value)
  }

  function EndEvent(codec: Codec, snapshot: Option<Uuid>, st: Round): RoundEvent {
    if st.pending == map[] then RawCompleted(st.fullText)
    else if snapshot.None? then RoundFailed("AGENT_TOOL_CONTEXT_MISSING")
    else match ParseCalls(codec, InOrder(st.pending), snapshot.value, 0)
      case Some(calls) => ToolCallsRequested(calls)
      case None => RoundFailed("AGENT_TOOL_SCHEMA_INVALID")
  }

  // Whole lines.

  function StepLine(codec: Codec, snapshot: Option<Uuid>, st: Round, bytes: string): Round {
    if st.done then st
    else match Classify(codec, bytes)
      case Ignored => st
      case EndMark => Finish(st, EndEvent(codec, snapshot, st))
      case Choice(choice) => ApplyFragments(ApplyText(st, ContentOf(choice)), FragmentsOf(choice))
  }

  function FoldLines(codec: Codec, snapshot: Option<Uuid>, st: Round, lines: seq<string>): Round
    decreases |lines|
  {
    if lines == [] then st else FoldLines(codec, snapshot, StepLine(codec, snapshot, st, lines[0]), lines[1..])
  }

  /** The lines of `s` that end in a line break. */
  function Lines(s: string): seq<string>
    decreases |s|
  {
    match Cut(s, '\n')
    case None => []
    case Some((line, rest)) => [line] + Lines(rest)
  }

  /** What follows the last line break. */
  function Remainder(s: string): string
    decreases |s|
  {
    match Cut(s, '\n')
    case None => s
    case Some((_, rest)) => Remainder(rest)
  }

  /** The stream ended without an end mark. */
  function Close(st: Round): Round {
    if st.done then st
    else if st.pending == map[] then Finish(st, RawCompleted(st.fullText))
    else Finish(st, RoundFailed("AGENT_TOOL_STREAM_INCOMPLETE"))
  }

  /** The uncut response: fold over its whole lines, then close. */
  function Uncut(codec: Codec, snapshot: Option<Uuid>, bytes: string): Round {
    Close(FoldLines(codec, snapshot, INITIAL, Lines(bytes)))
  }

  // The incremental reader.

  datatype Arrival = Chunk(bytes: string) | ReadError | Cancelled

  predicate OverLimit(received: nat, buffered: nat) {
    received > 4 * MEBIBYTE || buffered > MEBIBYTE
  }

  /** The incremental reader, with `buffer` left over and `received` bytes counted so far. */
  function Feed(codec: Codec, snapshot: Option<Uuid>, st: Round, buffer: string, received: nat, arrivals: seq<Arrival>): Round
    decreases |arrivals|
  {
    if st.done then st
    else if arrivals == [] then Close(st)
    else match arrivals[0]
      case Cancelled => Finish(st, RoundFailed("CANCELLED"))
      case ReadError => Finish(st, RoundFailed("STREAM_READ_ERROR"))
      case Chunk(bytes) =>
        if OverLimit(received + |bytes|, |buffer| + |bytes|) then Finish(st, RoundFailed("STREAM_LIMIT"))
        else
          var all := buffer + bytes;
          Feed(codec, snapshot, FoldLines(codec, snapshot, st, Lines(all)), Remainder(all), received + |bytes|, arrivals[1..])
  }

  method ApplyToolDeltas(start: Round, deltas: seq<Json>) returns (st: Round)
    requires !start.done
    ensures st == ApplyFragments(start, deltas)
  {
    hide Fragment, DeltaIndex, Whitespace.Utf8Size;
    st := start;
    var k := 0;
    while k < |deltas|
      invariant 0 <= k <= |deltas| && !st.done
      invariant ApplyFragments(start, deltas) == ApplyFragments(st, deltas[k..])
    {
      var delta := deltas[k];
      var index := DeltaIndex(delta);
      var fragment := Fragment(delta);
      var entry := if index in st.pending then st.pending[index] else BLANK;
      entry := entry.(id := entry.id + fragment.id);
      entry := entry.(name := entry.name + fragment.name);
      entry := entry.(arguments := entry.arguments + fragment.arguments);
      assert deltas[k..][1..] == deltas[k + 1..];
      st := st.(pending := st.pending[index := entry]);
      if Whitespace.Utf8Size(entry.arguments) > ARGUMENT_LIMIT || |st.pending| > PENDING_LIMIT {
        st := Finish(st, RoundFailed("TOOL_ARGUMENT_LIMIT"));
        return;
      }
      k := k + 1;
    }
  }

  /** The drain loop: take complete lines off the front of the buffer until none is left. */
  method Drain(codec: Codec, snapshot: Option<Uuid>, start: Round, bytes: string) returns (st: Round, buffer: string)
    requires !start.done
    ensures st == FoldLines(codec, snapshot, start, Lines(bytes))
    ensures !st.done ==> buffer == Remainder(bytes)
  {
    st, buffer := start, bytes;
    var next := Cut(buffer, '\n');
    while next.Some?
      invariant next == Cut(buffer, '\n') && !st.done
      invariant FoldLines(codec, snapshot, start, Lines(bytes)) == FoldLines(codec, snapshot, st, Lines(buffer))
      invariant Remainder(bytes) == Remainder(buffer)
      decreases |buffer|
    {
      var line := next.value.0;
      assert Lines(buffer)[1..] == Lines(next.value.1);
      buffer := next.value.1;
      match Classify(codec, line) {
        case Ignored =>
        case EndMark =>
          st := Finish(st, EndEvent(codec, snapshot, st));
          DoneStays(codec, snapshot, st, Lines(buffer));
          return;
        case Choice(choice) =>
          var content := ContentOf(choice);
          if content.Some? {
            st := Emit(st, RoundText(content.value)).(fullText := st.fullText + content.value);
          }
          st := ApplyToolDeltas(st, FragmentsOf(choice));
          if st.done {
            DoneStays(codec, snapshot, st, Lines(buffer));
            return;
          }
      }
      next := Cut(buffer, '\n');
    }
  }

  /** The stream of one round, chunk by chunk. */
  method InferAgentRound(codec: Codec, snapshot: Option<Uuid>, arrivals: seq<Arrival>) returns (events: seq<RoundEvent>)
    ensures events == Feed(codec, snapshot, INITIAL, "", 0, arrivals).events
    ensures forall n, s :: IsScript(codec, arrivals, n, s) ==> Plays(codec, snapshot, s, events)
  {
    hide FoldLines, Lines, Remainder, Cut, IsScript, Plays;
    EveryScriptIsPlayed(codec, snapshot, arrivals);
    var st := INITIAL;
    var buffer := "";
    var received: nat := 0;
    var k := 0;
    while k < |arrivals|
      invariant 0 <= k <= |arrivals| && !st.done
      invariant Feed(codec, snapshot, INITIAL, "", 0, arrivals) == Feed(codec, snapshot, st, buffer, received, arrivals[k..])
    {
      match arrivals[k] {
        case Cancelled =>
          return st.events + [RoundFailed("CANCELLED")];
        case ReadError =>
          return st.events + [RoundFailed("STREAM_READ_ERROR")];
        case Chunk(bytes) =>
          assert arrivals[k..][1..] == arrivals[k + 1..];
          received := received + |bytes|;
          if OverLimit(received, |buffer| + |bytes|) {
            return st.events + [RoundFailed("STREAM_LIMIT")];
          }
          buffer := buffer + bytes;
          st, buffer := Drain(codec, snapshot, st, buffer);
          if st.done {
            return st.events;
          }
      }
      k := k + 1;
    }
    return Close(st).events;
  }

  lemma {:induction false} DoneStays(codec: Codec, snapshot: Option<Uuid>, st: Round, lines: seq<string>)
    requires st.done
    ensures FoldLines(codec, snapshot, st, lines) == st
    decreases |lines|
  {
    if lines != [] {
      DoneStays(codec, snapshot, st, lines[1..]);
    }
  }

  // Chunk independence.

  lemma {:induction false} FoldAppend(codec: Codec, snapshot: Option<Uuid>, st: Round, a: seq<string>, b: seq<string>)
    ensures FoldLines(codec, snapshot, st, a + b) == FoldLines(codec, snapshot, FoldLines(codec, snapshot, st, a), b)
    decreases |a|
  {
    if a == [] {
      assert a + b == b;
    } else {
      assert (a + b)[1..] == a[1..] + b;
      FoldAppend(codec, snapshot, StepLine(codec, snapshot, st, a[0]), a[1..], b);
    }
  }

  /** Cutting a byte string anywhere leaves its lines alone once the remainder is carried over. */
  lemma {:induction false} LinesAcrossCut(a: string, b: string)
    ensures Lines(a + b) == Lines(a) + Lines(Remainder(a) + b)
    ensures Remainder(a + b) == Remainder(Remainder(a) + b)
    ensures |Remainder(a)| <= |a|
    decreases |a|
  {
    match Cut(a, '\n')
    case None =>
    case Some((line, rest)) =>
      assert a + b == line + ['\n'] + (rest + b);
      CutAt(line, '\n', rest + b);
      LinesAcrossCut(rest, b);
      assert [line] + (Lines(rest) + Lines(Remainder(rest) + b)) == [line] + Lines(rest) + Lines(Remainder(rest) + b);
  }

  function Bytes(arrivals: seq<Arrival>): string {
    if arrivals == [] then ""
    else (if arrivals[0].Chunk? then arrivals[0].bytes else "") + Bytes(arrivals[1..])
  }

  predicate OnlyChunks(arrivals: seq<Arrival>) {
    forall i :: 0 <= i < |arrivals| ==> arrivals[i].Chunk?
  }

  /** Some chunk arrives, before the round is over, that trips a size guard. */
  predicate TripsLimit(codec: Codec, snapshot: Option<Uuid>, st: Round, buffer: string, received: nat, arrivals: seq<Arrival>)
    requires OnlyChunks(arrivals)
    decreases |arrivals|
  {
    !st.done && arrivals != [] &&
    var bytes := arrivals[0].bytes;
    var all := buffer + bytes;
    (|| OverLimit(received + |bytes|, |all|)
     || TripsLimit(codec, snapshot, FoldLines(codec, snapshot, st, Lines(all)), Remainder(all), received + |bytes|, arrivals[1..]))
  }

  lemma {:induction false} FeedIsFold(codec: Codec, snapshot: Option<Uuid>, st: Round, buffer: string, received: nat, arrivals: seq<Arrival>)
    requires OnlyChunks(arrivals) && '\n' !in buffer
    requires !TripsLimit(codec, snapshot, st, buffer, received, arrivals)
    ensures Feed(codec, snapshot, st, buffer, received, arrivals)
         == Close(FoldLines(codec, snapshot, st, Lines(buffer + Bytes(arrivals))))
    decreases |arrivals|
  {
    hide FoldLines, Lines, Remainder, Cut;
    if st.done {
      DoneStays(codec, snapshot, st, Lines(buffer + Bytes(arrivals)));
    } else if arrivals == [] {
      assert buffer + "" == buffer;
      OpenHasNoLines(codec, snapshot, st, buffer);
    } else {
      var all, rest := buffer + arrivals[0].bytes, Bytes(arrivals[1..]);
      assert buffer + Bytes(arrivals) == all + rest;
      LinesAcrossCut(all, rest);
      RemainderIsOpen(all);
      var next := FoldLines(codec, snapshot, st, Lines(all));
      FoldAppend(codec, snapshot, st, Lines(all), Lines(Remainder(all) + rest));
      FeedIsFold(codec, snapshot, next, Remainder(all), received + |arrivals[0].bytes|, arrivals[1..]);
    }
  }

  lemma OpenHasNoLines(codec: Codec, snapshot: Option<Uuid>, st: Round, s: string)
    requires '\n' !in s
    ensures Lines(s) == [] && Remainder(s) == s
    ensures FoldLines(codec, snapshot, st, Lines(s)) == st
  {
  }

  lemma OpenIsRemainder(s: string)
    requires '\n' !in s
    ensures Lines(s) == [] && Remainder(s) == s
  {
  }

  lemma {:induction false} RemainderIsOpen(s: string)
    ensures '\n' !in Remainder(s)
    decreases |s|
  {
    match Cut(s, '\n')
    case None =>
    case Some((_, rest)) => RemainderIsOpen(rest);
  }

  predicate NeverLimited(st: Round) {
    forall i :: 0 <= i < |st.events| ==> st.events[i] != RoundFailed("STREAM_LIMIT")
  }

  lemma {:induction false} FragmentsNeverLimited(st: Round, deltas: seq<Json>)
    requires NeverLimited(st)
    ensures NeverLimited(ApplyFragments(st, deltas))
    decreases |deltas|
  {
    hide Whitespace.Utf8Size, Fragment, DeltaIndex;
    if deltas != [] && !st.done {
      FragmentsNeverLimited(ApplyFragment(st, deltas[0]), deltas[1..]);
    }
  }

  lemma {:induction false} FoldNeverLimited(codec: Codec, snapshot: Option<Uuid>, st: Round, lines: seq<string>)
    requires NeverLimited(st)
    ensures NeverLimited(FoldLines(codec, snapshot, st, lines))
    decreases |lines|
  {
    if lines != [] {
      if !st.done {
        match Classify(codec, lines[0])
        case Ignored =>
        case EndMark =>
        case Choice(choice) =>
          FragmentsNeverLimited(ApplyText(st, ContentOf(choice)), FragmentsOf(choice));
      }
      FoldNeverLimited(codec, snapshot, StepLine(codec, snapshot, st, lines[0]), lines[1..]);
    }
  }

  lemma {:induction false} FeedTripped(codec: Codec, snapshot: Option<Uuid>, st: Round, buffer: string, received: nat, arrivals: seq<Arrival>)
    requires OnlyChunks(arrivals)
    requires TripsLimit(codec, snapshot, st, buffer, received, arrivals)
    ensures RoundFailed("STREAM_LIMIT") in Feed(codec, snapshot, st, buffer, received, arrivals).events
    decreases |arrivals|
  {
    hide FoldLines, Lines, Remainder;
    var all := buffer + arrivals[0].bytes;
    if !OverLimit(received + |arrivals[0].bytes|, |all|) {
      FeedTripped(codec, snapshot, FoldLines(codec, snapshot, st, Lines(all)), Remainder(all), received + |arrivals[0].bytes|, arrivals[1..]);
    }
  }

  /**
   However the response is cut into chunks, the round emits the events of the uncut response
   exactly when no chunk trips a size guard before the round is over.
   */
  lemma ChunkIndependence(codec: Codec, snapshot: Option<Uuid>, arrivals: seq<Arrival>)
    requires OnlyChunks(arrivals)
    ensures Feed(codec, snapshot, INITIAL, "", 0, arrivals).events == Uncut(codec, snapshot, Bytes(arrivals)).events
       <==> !TripsLimit(codec, snapshot, INITIAL, "", 0, arrivals)
  {
    hide FoldLines, Lines, Feed, TripsLimit;
    if TripsLimit(codec, snapshot, INITIAL, "", 0, arrivals) {
      FeedTripped(codec, snapshot, INITIAL, "", 0, arrivals);
      FoldNeverLimited(codec, snapshot, INITIAL, Lines(Bytes(arrivals)));
      assert NeverLimited(Uncut(codec, snapshot, Bytes(arrivals)));
    } else {
      assert "" + Bytes(arrivals) == Bytes(arrivals);
      FeedIsFold(codec, snapshot, INITIAL, "", 0, arrivals);
    }
  }

  lemma {:induction false} SmallNeverTrips(codec: Codec, snapshot: Option<Uuid>, st: Round, buffer: string, received: nat, arrivals: seq<Arrival>)
    requires OnlyChunks(arrivals)
    requires |buffer| <= received && received + |Bytes(arrivals)| <= MEBIBYTE
    ensures !TripsLimit(codec, snapshot, st, buffer, received, arrivals)
    decreases |arrivals|
  {
    hide FoldLines, Lines, Remainder;
    if !st.done && arrivals != [] {
      var all := buffer + arrivals[0].bytes;
      LinesAcrossCut(all, "");
      SmallNeverTrips(codec, snapshot, FoldLines(codec, snapshot, st, Lines(all)), Remainder(all), received + |arrivals[0].bytes|, arrivals[1..]);
    }
  }

  /** Up to one MiB in total, the events depend on the bytes alone. */
  lemma ChunkIndependenceUpToOneMebibyte(codec: Codec, snapshot: Option<Uuid>, one: seq<Arrival>, other: seq<Arrival>)
    requires OnlyChunks(one) && OnlyChunks(other)
    requires Bytes(one) == Bytes(other) && |Bytes(one)| <= MEBIBYTE
    ensures Feed(codec, snapshot, INITIAL, "", 0, one).events == Feed(codec, snapshot, INITIAL, "", 0, other).events
  {
    hide Feed, Uncut, TripsLimit;
    SmallNeverTrips(codec, snapshot, INITIAL, "", 0, one);
    SmallNeverTrips(codec, snapshot, INITIAL, "", 0, other);
    ChunkIndependence(codec, snapshot, one);
    ChunkIndependence(codec, snapshot, other);
  }

  function LineBreaks(n: nat): string {
    if n == 0 then "" else "\n" + LineBreaks(n - 1)
  }

  lemma {:induction false} LineBreaksLeaveNothing(n: nat)
    ensures |LineBreaks(n)| == n && Remainder(LineBreaks(n)) == ""
  {
    if n > 0 {
      LineBreaksLeaveNothing(n - 1);
      CutAt("", '\n', LineBreaks(n - 1));
      assert "" + ['\n'] + LineBreaks(n - 1) == LineBreaks(n);
    }
  }

  /** Past one MiB the guards do look at the cut: the same bytes fail in one chunk and pass in two. */
  lemma CutMattersPastOneMebibyte(codec: Codec, snapshot: Option<Uuid>) returns (one: seq<Arrival>, two: seq<Arrival>)
    ensures OnlyChunks(one) && OnlyChunks(two) && Bytes(one) == Bytes(two) && |Bytes(one)| == 1024 * 1024 + 1
    ensures TripsLimit(codec, snapshot, INITIAL, "", 0, one)
    ensures !TripsLimit(codec, snapshot, INITIAL, "", 0, two)
    ensures Feed(codec, snapshot, INITIAL, "", 0, one).events != Feed(codec, snapshot, INITIAL, "", 0, two).events
  {
    hide FoldLines, Lines, Remainder, LineBreaks, Feed, Uncut;
    var a, b := LineBreaks(MEBIBYTE), LineBreaks(1);
    LineBreaksLeaveNothing(MEBIBYTE);
    LineBreaksLeaveNothing(1);
    one, two := [Chunk(a + b)], [Chunk(a), Chunk(b)];
    assert one[1..] == [] && two[1..] == [Chunk(b)] && two[1..][1..] == [];
    assert "" + a == a;
    var st := FoldLines(codec, snapshot, INITIAL, Lines(a));
    assert !TripsLimit(codec, snapshot, FoldLines(codec, snapshot, st, Lines(b)), Remainder(b), MEBIBYTE + 1, []);
    assert !TripsLimit(codec, snapshot, st, "", MEBIBYTE, [Chunk(b)]) by { assert "" + b == b; }
    assert Bytes(two) == a + Bytes([Chunk(b)]) && Bytes([Chunk(b)]) == b + Bytes([]);
    assert Bytes(one) == a + b + Bytes([]);
    ChunkIndependence(codec, snapshot, one);
    ChunkIndependence(codec, snapshot, two);
  }

  lemma FeedLineBreaks(codec: Codec, snapshot: Option<Uuid>, st: Round, received: nat, bytes: string, more: seq<Arrival>)
    requires !st.done && |bytes| <= 1024 * 1024 && received + |bytes| <= 4 * 1024 * 1024 && Remainder(bytes) == ""
    ensures Feed(codec, snapshot, st, "", received, [Chunk(bytes)] + more)
         == Feed(codec, snapshot, FoldLines(codec, snapshot, st, Lines(bytes)), "", received + |bytes|, more)
  {
    hide FoldLines, Lines, Remainder;
    assert "" + bytes == bytes && ([Chunk(bytes)] + more)[1..] == more;
  }

  lemma {:induction false} LineBreaksSayNothing(codec: Codec, snapshot: Option<Uuid>, st: Round, n: nat)
    requires codec.lossy("") == ""
    ensures FoldLines(codec, snapshot, st, Lines(LineBreaks(n))) == st
  {
    hide Lines, Remainder, StepLine;
    if n == 0 {
      OpenHasNoLines(codec, snapshot, st, "");
    } else {
      var rest := LineBreaks(n - 1);
      LineBreaksSayNothing(codec, snapshot, st, n - 1);
      LinesCons("", rest);
      assert "" + "\n" + rest == LineBreaks(n);
      EmptyLineSaysNothing(codec, snapshot, st);
      assert ([""] + Lines(rest))[1..] == Lines(rest);
    }
  }

  lemma EmptyLineSaysNothing(codec: Codec, snapshot: Option<Uuid>, st: Round)
    requires codec.lossy("") == ""
    ensures StepLine(codec, snapshot, st, "") == st
  {
    assert Classify(codec, "") == Ignored;
  }

  /** Four MiB in all are read, and not one byte more. */
  lemma FourMebibytesAreRead(codec: Codec, snapshot: Option<Uuid>)
    requires codec.lossy("") == ""
    ensures var chunk := Chunk(LineBreaks(1024 * 1024));
      && |chunk.bytes| == 1024 * 1024
      && Feed(codec, snapshot, INITIAL, "", 0, [chunk, chunk, chunk, chunk]).events == [RoundStarted, RawCompleted("")]
      && Feed(codec, snapshot, INITIAL, "", 0, [chunk, chunk, chunk, chunk, Chunk("\n")]).events == [RoundStarted, RoundFailed("STREAM_LIMIT")]
  {
    hide FoldLines, Lines, Remainder, LineBreaks;
    var bytes := LineBreaks(1024 * 1024);
    var chunk := Chunk(bytes);
    LineBreaksLeaveNothing(1024 * 1024);
    LineBreaksSayNothing(codec, snapshot, INITIAL, 1024 * 1024);
    forall last: seq<Arrival>
      ensures Feed(codec, snapshot, INITIAL, "", 0, [chunk, chunk, chunk, chunk] + last) == Feed(codec, snapshot, INITIAL, "", 4 * 1024 * 1024, last)
    {
      FeedFour(codec, snapshot, bytes, last);
    }
    assert [chunk, chunk, chunk, chunk] + [] == [chunk, chunk, chunk, chunk];
    assert [chunk, chunk, chunk, chunk] + [Chunk("\n")] == [chunk, chunk, chunk, chunk, Chunk("\n")];
  }

  lemma FeedFour(codec: Codec, snapshot: Option<Uuid>, bytes: string, last: seq<Arrival>)
    requires |bytes| == 1024 * 1024 && Remainder(bytes) == "" && FoldLines(codec, snapshot, INITIAL, Lines(bytes)) == INITIAL
    ensures var chunk := Chunk(bytes);
      Feed(codec, snapshot, INITIAL, "", 0, [chunk, chunk, chunk, chunk] + last) == Feed(codec, snapshot, INITIAL, "", 4 * 1024 * 1024, last)
  {
    hide FoldLines, Lines, Remainder, Feed;
    var chunk := Chunk(bytes);
    FeedLineBreaks(codec, snapshot, INITIAL, 0, bytes, [chunk, chunk, chunk] + last);
    FeedLineBreaks(codec, snapshot, INITIAL, 1024 * 1024, bytes, [chunk, chunk] + last);
    FeedLineBreaks(codec, snapshot, INITIAL, 2 * 1024 * 1024, bytes, [chunk] + last);
    FeedLineBreaks(codec, snapshot, INITIAL, 3 * 1024 * 1024, bytes, last);
    assert [chunk] + ([chunk, chunk, chunk] + last) == [chunk, chunk, chunk, chunk] + last;
    assert [chunk] + ([chunk, chunk] + last) == [chunk, chunk, chunk] + last;
    assert [chunk] + ([chunk] + last) == [chunk, chunk] + last;
  }

  // What a round's events say.

  /** Events of a round that is running, or that has just ended lawfully. */
  predicate Faithful(st: Round) {
    if st.done then
      && st.events != [] && EndsRound(st.events[|st.events| - 1]) && LawfulRound(st.events) && NoParts(st.events)
    else NoneEnds(st.events) && StreamedText(st.events) == st.fullText && NoParts(st.events)
  }

  predicate NoParts(events: seq<RoundEvent>) {
    forall i :: 0 <= i < |events| ==> !events[i].ProviderToolParts?
  }

  lemma FinishFaithful(st: Round, e: RoundEvent)
    requires Faithful(st) && !st.done && EndsRound(e)
    requires e.RawCompleted? ==> e.fullText == st.fullText
    ensures Faithful(Finish(st, e))
  {
    var all := Finish(st, e).events;
    assert all[..|st.events|] == st.events;
    assert forall i :: 0 <= i < |st.events| ==> all[i] == st.events[i];
  }

  lemma {:induction false} FragmentsFaithful(st: Round, deltas: seq<Json>)
    requires Faithful(st)
    ensures Faithful(ApplyFragments(st, deltas))
    decreases |deltas|
  {
    hide Whitespace.Utf8Size, Fragment, DeltaIndex, Faithful;
    if deltas != [] && !st.done {
      var i := DeltaIndex(deltas[0]);
      var next := st.(pending := st.pending[i := Joined(Entry(st.pending, i), Fragment(deltas[0]))]);
      SameEventsFaithful(st, next);
      FinishFaithful(next, RoundFailed("TOOL_ARGUMENT_LIMIT"));
      FragmentsFaithful(ApplyFragment(st, deltas[0]), deltas[1..]);
    }
  }

  lemma SameEventsFaithful(st: Round, next: Round)
    requires Faithful(st) && next.events == st.events && next.fullText == st.fullText && next.done == st.done
    ensures Faithful(next)
  {
  }

  lemma TextFaithful(st: Round, content: Option<string>)
    requires Faithful(st) && !st.done
    ensures Faithful(ApplyText(st, content)) && !ApplyText(st, content).done
  {
    if content.Some? {
      StreamedTextSnoc(st.events, RoundText(content.value));
    }
  }

  lemma {:induction false} FoldFaithful(codec: Codec, snapshot: Option<Uuid>, st: Round, lines: seq<string>)
    requires Faithful(st)
    ensures Faithful(FoldLines(codec, snapshot, st, lines))
    decreases |lines|
  {
    hide Faithful, Classify, ApplyFragments, ApplyText, EndEvent;
    if lines != [] {
      if !st.done {
        match Classify(codec, lines[0])
        case Ignored =>
        case EndMark =>
          EndEventEnds(codec, snapshot, st);
          FinishFaithful(st, EndEvent(codec, snapshot, st));
        case Choice(choice) =>
          TextFaithful(st, ContentOf(choice));
          FragmentsFaithful(ApplyText(st, ContentOf(choice)), FragmentsOf(choice));
      }
      FoldFaithful(codec, snapshot, StepLine(codec, snapshot, st, lines[0]), lines[1..]);
    }
  }

  lemma EndEventEnds(codec: Codec, snapshot: Option<Uuid>, st: Round)
    ensures var e := EndEvent(codec, snapshot, st); EndsRound(e) && (e.RawCompleted? ==> e.fullText == st.fullText)
  {
  }

  lemma {:induction false} FeedFaithful(codec: Codec, snapshot: Option<Uuid>, st: Round, buffer: string, received: nat, arrivals: seq<Arrival>)
    requires Faithful(st)
    ensures Faithful(Feed(codec, snapshot, st, buffer, received, arrivals))
    ensures Feed(codec, snapshot, st, buffer, received, arrivals).done
    decreases |arrivals|
  {
    hide Faithful, FoldLines, Lines, Remainder;
    if !st.done {
      if arrivals == [] {
        if st.pending == map[] {
          FinishFaithful(st, RawCompleted(st.fullText));
        } else {
          FinishFaithful(st, RoundFailed("AGENT_TOOL_STREAM_INCOMPLETE"));
        }
      } else {
        match arrivals[0]
        case Cancelled => FinishFaithful(st, RoundFailed("CANCELLED"));
        case ReadError => FinishFaithful(st, RoundFailed("STREAM_READ_ERROR"));
        case Chunk(bytes) =>
          var all := buffer + bytes;
          if OverLimit(received + |bytes|, |all|) {
            FinishFaithful(st, RoundFailed("STREAM_LIMIT"));
          } else {
            FoldFaithful(codec, snapshot, st, Lines(all));
            FeedFaithful(codec, snapshot, FoldLines(codec, snapshot, st, Lines(all)), Remainder(all), received + |bytes|, arrivals[1..]);
          }
      }
    }
  }

  /**
   Whatever arrives, the round ends with exactly one end event, and a completed text is exactly
   what was streamed.
   */
  lemma RoundIsLawful(codec: Codec, snapshot: Option<Uuid>, arrivals: seq<Arrival>)
    ensures var events := Feed(codec, snapshot, INITIAL, "", 0, arrivals).events;
            && LawfulRound(events) && events != [] && EndsRound(events[|events| - 1]) && NoParts(events)
  {
    hide Feed;
    assert StreamedText([RoundStarted]) == "" by { assert [RoundStarted][1..] == []; }
    FeedFaithful(codec, snapshot, INITIAL, "", 0, arrivals);
  }

  /** The indices of a map in ascending order. */
  ghost function Indices(pending: map<nat, PendingCall>): seq<nat>
    decreases |pending.Keys|
  {
    if pending.Keys == {} then [] else [Least(pending.Keys)] + Indices(Without(pending, Least(pending.Keys)))
  }

  ghost predicate Ascending(ks: seq<nat>, pending: map<nat, PendingCall>) {
    && (forall i, j :: 0 <= i < j < |ks| ==> ks[i] < ks[j])
    && (forall i :: 0 <= i < |ks| ==> ks[i] in pending) && (forall k :: k in pending ==> k in ks)
  }

  lemma {:induction false} IndicesAscend(pending: map<nat, PendingCall>)
    ensures Ascending(Indices(pending), pending)
    decreases |pending.Keys|
  {
    if pending.Keys != {} {
      var k := Least(pending.Keys);
      var rest := Without(pending, k);
      IndicesAscend(rest);
      ConsAscends(k, Indices(rest), pending);
    }
  }

  lemma ConsAscends(k: nat, tail: seq<nat>, pending: map<nat, PendingCall>)
    requires pending.Keys != {} && k == Least(pending.Keys) && Ascending(tail, Without(pending, k))
    ensures Ascending([k] + tail, pending)
  {
    hide Least;
    var ks := [k] + tail;
    forall i, j | 0 <= i < j < |ks| ensures ks[i] < ks[j] {
      assert tail[j - 1] in Without(pending, k);
    }
    forall x | x in pending ensures x in ks {
      if x != k { assert x in Without(pending, k); }
    }
  }

  ghost predicate Follows(items: seq<PendingCall>, ks: seq<nat>, pending: map<nat, PendingCall>) {
    |items| == |ks| && forall i :: 0 <= i < |ks| ==> ks[i] in pending && items[i] == pending[ks[i]]
  }

  lemma ConsFollows(k: nat, items: seq<PendingCall>, ks: seq<nat>, pending: map<nat, PendingCall>)
    requires k in pending && Follows(items, ks, Without(pending, k))
    ensures Follows([pending[k]] + items, [k] + ks, pending)
  {
    hide Without;
    assert forall i :: 0 <= i < |ks| ==> ks[i] in Without(pending, k).Keys;
  }

  /** The pending calls are taken up once each, by ascending index. */
  lemma {:induction false} InOrderFollowsIndices(pending: map<nat, PendingCall>)
    ensures Follows(InOrder(pending), Indices(pending), pending)
    decreases |pending.Keys|
  {
    hide Least, Without, Follows;
    if pending.Keys == {} {
      NothingFollows(pending);
    } else {
      var k := Least(pending.Keys);
      InOrderFollowsIndices(Without(pending, k));
      ConsFollows(k, InOrder(Without(pending, k)), Indices(Without(pending, k)), pending);
    }
  }

  lemma NothingFollows(pending: map<nat, PendingCall>)
    ensures Follows([], [], pending)
  {
  }

  predicate ParsedAs(codec: Codec, k: nat, item: PendingCall, snapshot: Uuid, call: ToolCall) {
    var args := codec.json(item.arguments);
    args.Some? && codec.parseCall(k, item.name, args.value, item.id, snapshot) == Some(call)
  }

  lemma {:induction false} CallsAreParsed(codec: Codec, items: seq<PendingCall>, snapshot: Uuid, k: nat)
    requires ParseCalls(codec, items, snapshot, k).Some?
    ensures var calls := ParseCalls(codec, items, snapshot, k).value;
      |calls| == |items| && forall i :: 0 <= i < |items| ==> ParsedAs(codec, k + i, items[i], snapshot, calls[i])
    decreases |items|
  {
    hide ParsedAs;
    if items != [] {
      CallsAreParsed(codec, items[1..], snapshot, k + 1);
      var calls, later := ParseCalls(codec, items, snapshot, k).value, ParseCalls(codec, items[1..], snapshot, k + 1).value;
      FirstIsParsed(codec, items, snapshot, k);
      forall i | 0 <= i < |items| ensures ParsedAs(codec, k + i, items[i], snapshot, calls[i]) {
        if i > 0 { assert ParsedAs(codec, k + 1 + (i - 1), items[1..][i - 1], snapshot, later[i - 1]); }
      }
    }
  }

  lemma FirstIsParsed(codec: Codec, items: seq<PendingCall>, snapshot: Uuid, k: nat)
    requires items != [] && ParseCalls(codec, items, snapshot, k).Some?
    ensures ParseCalls(codec, items[1..], snapshot, k + 1).Some?
    ensures var calls := ParseCalls(codec, items, snapshot, k).value;
      calls == [calls[0]] + ParseCalls(codec, items[1..], snapshot, k + 1).value && ParsedAs(codec, k, items[0], snapshot, calls[0])
  {
  }

  ghost predicate Requested(codec: Codec, pending: map<nat, PendingCall>, ks: seq<nat>, snapshot: Uuid, calls: seq<ToolCall>) {
    && Ascending(ks, pending) && |calls| == |ks|
    && forall i :: 0 <= i < |ks| ==> ParsedAs(codec, i, pending[ks[i]], snapshot, calls[i])
  }

  /** The calls a round requests are its pending calls, parsed, one per index and by ascending index. */
  lemma RequestedCallsFollowIndices(codec: Codec, snapshot: Option<Uuid>, st: Round)
    ensures var e := EndEvent(codec, snapshot, st);
      e.ToolCallsRequested? ==> snapshot.Some? && Requested(codec, st.pending, Indices(st.pending), snapshot.value, e.calls)
  {
    hide InOrder, Indices, ParseCalls, ParsedAs;
    IndicesAscend(st.pending);
    InOrderFollowsIndices(st.pending);
    if snapshot.Some? && ParseCalls(codec, InOrder(st.pending), snapshot.value, 0).Some? {
      CallsAreParsed(codec, InOrder(st.pending), snapshot.value, 0);
    }
  }

  // How many calls a round can request.

  predicate Capped(st: Round) {
    RequestsAtMost(PENDING_LIMIT, st.events) && (!st.done ==> |st.pending| <= PENDING_LIMIT)
  }

  lemma {:induction false} FragmentsCapped(st: Round, deltas: seq<Json>)
    requires Capped(st)
    ensures Capped(ApplyFragments(st, deltas))
    decreases |deltas|
  {
    hide Whitespace.Utf8Size, Fragment, DeltaIndex;
    if deltas != [] && !st.done {
      FragmentsCapped(ApplyFragment(st, deltas[0]), deltas[1..]);
    }
  }

  lemma {:induction false} InOrderCounts(pending: map<nat, PendingCall>)
    ensures |InOrder(pending)| == |pending|
    decreases |pending.Keys|
  {
    hide Least;
    if pending.Keys != {} {
      var k := Least(pending.Keys);
      InOrderCounts(Without(pending, k));
      assert |pending.Keys - {k}| == |pending.Keys| - 1;
      assert |pending| == |pending.Keys| && |Without(pending, k)| == |Without(pending, k).Keys|;
    }
  }

  lemma EndEventCapped(codec: Codec, snapshot: Option<Uuid>, st: Round)
    requires |st.pending| <= PENDING_LIMIT
    ensures var e := EndEvent(codec, snapshot, st); e.ToolCallsRequested? ==> |e.calls| <= PENDING_LIMIT
  {
    hide InOrder, ParseCalls;
    InOrderCounts(st.pending);
    if snapshot.Some? && ParseCalls(codec, InOrder(st.pending), snapshot.value, 0).Some? {
      CallsAreParsed(codec, InOrder(st.pending), snapshot.value, 0);
    }
  }

  lemma {:induction false} FoldCapped(codec: Codec, snapshot: Option<Uuid>, st: Round, lines: seq<string>)
    requires Capped(st)
    ensures Capped(FoldLines(codec, snapshot, st, lines))
    decreases |lines|
  {
    hide Classify, ApplyFragments, EndEvent;
    if lines != [] {
      if !st.done {
        match Classify(codec, lines[0])
        case Ignored =>
        case EndMark => EndEventCapped(codec, snapshot, st);
        case Choice(choice) => FragmentsCapped(ApplyText(st, ContentOf(choice)), FragmentsOf(choice));
      }
      FoldCapped(codec, snapshot, StepLine(codec, snapshot, st, lines[0]), lines[1..]);
    }
  }

  lemma {:induction false} FeedCapped(codec: Codec, snapshot: Option<Uuid>, st: Round, buffer: string, received: nat, arrivals: seq<Arrival>)
    requires Capped(st)
    ensures RequestsAtMost(PENDING_LIMIT, Feed(codec, snapshot, st, buffer, received, arrivals).events)
    decreases |arrivals|
  {
    hide FoldLines, Lines, Remainder;
    if !st.done && arrivals != [] && arrivals[0].Chunk? {
      var all := buffer + arrivals[0].bytes;
      FoldCapped(codec, snapshot, st, Lines(all));
      FeedCapped(codec, snapshot, FoldLines(codec, snapshot, st, Lines(all)), Remainder(all), received + |arrivals[0].bytes|, arrivals[1..]);
    }
  }

  /** Whatever arrives, a round never requests more than 24 calls. */
  lemma RequestsAreCapped(codec: Codec, snapshot: Option<Uuid>, arrivals: seq<Arrival>)
    ensures RequestsAtMost(24, Feed(codec, snapshot, INITIAL, "", 0, arrivals).events)
  {
    hide Feed;
    FeedCapped(codec, snapshot, INITIAL, "", 0, arrivals);
  }

  // Tool-call fragments, over a whole response.

  function AllFragments(codec: Codec, lines: seq<string>): seq<Json>
    decreases |lines|
  {
    if lines == [] then []
    else
      var line := Classify(codec, lines[0]);
      (if line.Choice? then FragmentsOf(line.choice) else []) + AllFragments(codec, lines[1..])
  }

  /** The fragments of one index, concatenated in the order they arrived. */
  function Assembled(deltas: seq<Json>, index: nat): PendingCall {
    if deltas == [] then BLANK
    else Joined(if DeltaIndex(deltas[0]) == index then Fragment(deltas[0]) else BLANK, Assembled(deltas[1..], index))
  }

  predicate Mentions(deltas: seq<Json>, index: nat) {
    exists k :: 0 <= k < |deltas| && DeltaIndex(deltas[k]) == index
  }

  lemma JoinedLaws(a: PendingCall, b: PendingCall, c: PendingCall)
    ensures Joined(Joined(a, b), c) == Joined(a, Joined(b, c))
    ensures Joined(a, BLANK) == a && Joined(BLANK, a) == a
  {
    assert a.id + b.id + c.id == a.id + (b.id + c.id);
    assert a.name + b.name + c.name == a.name + (b.name + c.name);
    assert a.arguments + b.arguments + c.arguments == a.arguments + (b.arguments + c.arguments);
    assert a.id + "" == a.id && a.name + "" == a.name && a.arguments + "" == a.arguments;
    assert "" + a.id == a.id && "" + a.name == a.name && "" + a.arguments == a.arguments;
  }

  lemma {:induction false} FragmentsAssemble(st: Round, deltas: seq<Json>, index: nat)
    requires !ApplyFragments(st, deltas).done
    ensures var after := ApplyFragments(st, deltas).pending;
            && (index in after <==> index in st.pending || Mentions(deltas, index))
            && Entry(after, index) == Joined(Entry(st.pending, index), Assembled(deltas, index))
    decreases |deltas|
  {
    hide Whitespace.Utf8Size, Fragment, DeltaIndex;
    if deltas == [] {
      JoinedLaws(Entry(st.pending, index), BLANK, BLANK);
    } else {
      var next := ApplyFragment(st, deltas[0]);
      FragmentsDone(next, deltas[1..]);
      FragmentsAssemble(next, deltas[1..], index);
      var own := if DeltaIndex(deltas[0]) == index then Fragment(deltas[0]) else BLANK;
      JoinedLaws(Entry(st.pending, index), own, Assembled(deltas[1..], index));
      MentionsCons(deltas, index);
    }
  }

  lemma MentionsCons(deltas: seq<Json>, index: nat)
    requires deltas != []
    ensures Mentions(deltas, index) <==> DeltaIndex(deltas[0]) == index || Mentions(deltas[1..], index)
  {
    if Mentions(deltas, index) && DeltaIndex(deltas[0]) != index {
      var k :| 0 <= k < |deltas| && DeltaIndex(deltas[k]) == index;
      assert DeltaIndex(deltas[1..][k - 1]) == index;
    }
    if Mentions(deltas[1..], index) {
      var k :| 0 <= k < |deltas[1..]| && DeltaIndex(deltas[1..][k]) == index;
      assert DeltaIndex(deltas[k + 1]) == index;
    }
  }

  lemma FragmentsDone(st: Round, deltas: seq<Json>)
    ensures st.done ==> ApplyFragments(st, deltas) == st
  {
  }

  lemma {:induction false} MentionsAppend(a: seq<Json>, b: seq<Json>, index: nat)
    ensures Mentions(a + b, index) <==> Mentions(a, index) || Mentions(b, index)
    ensures Assembled(a + b, index) == Joined(Assembled(a, index), Assembled(b, index))
  {
    hide Fragment, DeltaIndex;
    if a == [] {
      assert a + b == b;
      JoinedLaws(Assembled(b, index), BLANK, BLANK);
    } else {
      assert (a + b)[1..] == a[1..] + b;
      MentionsAppend(a[1..], b, index);
      MentionsCons(a, index);
      MentionsCons(a + b, index);
      var own := if DeltaIndex(a[0]) == index then Fragment(a[0]) else BLANK;
      JoinedLaws(own, Assembled(a[1..], index), Assembled(b, index));
    }
  }

  /** The fragments one line sends. */
  function LineFragments(codec: Codec, line: string): seq<Json> {
    var read := Classify(codec, line);
    if read.Choice? then FragmentsOf(read.choice) else []
  }

  lemma AllFragmentsCons(codec: Codec, lines: seq<string>)
    ensures lines == [] ==> AllFragments(codec, lines) == []
    ensures lines != [] ==> AllFragments(codec, lines) == LineFragments(codec, lines[0]) + AllFragments(codec, lines[1..])
  {
    hide Classify, FragmentsOf;
  }

  lemma LineAssembles(codec: Codec, snapshot: Option<Uuid>, st: Round, line: string, index: nat)
    requires !StepLine(codec, snapshot, st, line).done
    ensures var after, here := StepLine(codec, snapshot, st, line).pending, LineFragments(codec, line);
            && (index in after <==> index in st.pending || Mentions(here, index))
            && Entry(after, index) == Joined(Entry(st.pending, index), Assembled(here, index))
  {
    hide Classify, FragmentsOf, ApplyFragments, ContentOf, Assembled, Mentions, EndEvent;
    FragmentsAssembleNone(index);
    JoinedLaws(Entry(st.pending, index), BLANK, BLANK);
    var read := Classify(codec, line);
    if read.Choice? { FragmentsAssemble(ApplyText(st, ContentOf(read.choice)), FragmentsOf(read.choice), index); }
  }

  /**
   While a round is running, the call pending under an index is the concatenation, in order, of
   every fragment sent under that index, and no other index is pending.
   */
  lemma {:induction false} PendingIsConcatenation(codec: Codec, snapshot: Option<Uuid>, st: Round, lines: seq<string>, index: nat)
    requires !FoldLines(codec, snapshot, st, lines).done
    ensures var after := FoldLines(codec, snapshot, st, lines).pending;
            var sent := AllFragments(codec, lines);
            && (index in after <==> index in st.pending || Mentions(sent, index))
            && Entry(after, index) == Joined(Entry(st.pending, index), Assembled(sent, index))
    decreases |lines|
  {
    hide StepLine, LineFragments, AllFragments, Assembled, Mentions, Entry, Joined;
    AllFragmentsCons(codec, lines);
    if lines == [] {
      FragmentsAssembleNone(index);
      JoinedLaws(Entry(st.pending, index), BLANK, BLANK);
    } else {
      var next, later := StepLine(codec, snapshot, st, lines[0]), AllFragments(codec, lines[1..]);
      if next.done { DoneStays(codec, snapshot, next, lines[1..]); }
      LineAssembles(codec, snapshot, st, lines[0], index);
      PendingIsConcatenation(codec, snapshot, next, lines[1..], index);
      var here := LineFragments(codec, lines[0]);
      MentionsAppend(here, later, index);
      JoinedLaws(Entry(st.pending, index), Assembled(here, index), Assembled(later, index));
    }
  }

  lemma FragmentsAssembleNone(index: nat)
    ensures Assembled([], index) == BLANK && !Mentions([], index)
  {
  }

  // What a response says, in terms of its lines and their JSON.

  /** How a response ends: at the end line, whatever follows; or behind an unfinished line. */
  datatype Ending = AtEndLine(line: string, rest: string) | AtClose(rest: string) | AtReadError(rest: string) | AtCancel(rest: string)

  datatype Script = Script(lines: seq<string>, spoken: seq<T.Spoken>, indices: seq<nat>, ending: Ending)

  /** The bytes of the chunks, and what follows them. */
  predicate Arrives(lossy: string -> string, chunks: seq<Arrival>, tail: seq<Arrival>, s: Script) {
    && OnlyChunks(chunks) && |Bytes(chunks)| <= 1024 * 1024
    && match s.ending
       case AtEndLine(line, rest) => T.IsEnd(lossy, line) && '\n' !in line && Bytes(chunks) == T.Written(s.lines) + (line + "\n" + rest)
       case AtClose(rest) => '\n' !in rest && Bytes(chunks) == T.Written(s.lines) + rest && tail == []
       case AtReadError(rest) => '\n' !in rest && Bytes(chunks) == T.Written(s.lines) + rest && tail != [] && tail[0] == ReadError
       case AtCancel(rest) => '\n' !in rest && Bytes(chunks) == T.Written(s.lines) + rest && tail != [] && tail[0] == Cancelled
  }

  predicate Scripted(codec: Codec, s: Script) {
    && T.Unbroken(s.lines) && T.AllSay(codec.lossy, codec.json, s.lines, s.spoken)
    && T.Enumerates(s.indices, T.Pieces(s.spoken)) && T.WithinLimits(T.Pieces(s.spoken), s.indices)
  }

  predicate ParsedPiece(codec: Codec, k: nat, p: T.Piece, snapshot: Uuid, call: ToolCall) {
    && codec.json(p.arguments).Some?
    && codec.parseCall(k, p.name, codec.json(p.arguments).value, p.id, snapshot) == Some(call)
  }

  predicate Parses(codec: Codec, k: nat, p: T.Piece, snapshot: Uuid) {
    && codec.json(p.arguments).Some?
    && codec.parseCall(k, p.name, codec.json(p.arguments).value, p.id, snapshot).Some?
  }

  /** The event a scripted response ends with. */
  predicate EndsScript(codec: Codec, snapshot: Option<Uuid>, s: Script, e: RoundEvent) {
    var pieces := T.Pieces(s.spoken);
    match s.ending
    case AtReadError(_) => e == RoundFailed("STREAM_READ_ERROR")
    case AtCancel(_) => e == RoundFailed("CANCELLED")
    case AtClose(_) => e == if pieces == [] then RawCompleted(T.AllText(T.Texts(s.spoken))) else RoundFailed("AGENT_TOOL_STREAM_INCOMPLETE")
    case AtEndLine(_, _) =>
      if pieces == [] then e == RawCompleted(T.AllText(T.Texts(s.spoken)))
      else if snapshot.None? then e == RoundFailed("AGENT_TOOL_CONTEXT_MISSING")
      else EndsWithCalls(codec, snapshot.value, T.GatheredAll(pieces, s.indices), e)
  }

  /** Every call put together from its fragments is parsed at its own position, or the round fails. */
  predicate EndsWithCalls(codec: Codec, snapshot: Uuid, asked: seq<T.Piece>, e: RoundEvent) {
    if exists k :: 0 <= k < |asked| && !Parses(codec, k, asked[k], snapshot) then e == RoundFailed("AGENT_TOOL_SCHEMA_INVALID")
    else
      && e.ToolCallsRequested? && |e.calls| == |asked|
      && forall k :: 0 <= k < |asked| ==> ParsedPiece(codec, k, asked[k], snapshot, e.calls[k])
  }

  /** The JSON of a line decides how it is read. */
  lemma LineIsRead(codec: Codec, line: string, s: T.Spoken)
    requires T.Says(codec.lossy, codec.json, line, s)
    ensures var read := Classify(codec, line);
      if read.Choice? then ContentOf(read.choice) == s.text && Fragmented(FragmentsOf(read.choice), s.pieces)
      else read.Ignored? && s == T.Spoken(None, [])
  {
    hide T.SaysChunk, ContentOf, FragmentsOf, Fragmented, Field, First;
    var shown := Whitespace.Trim(codec.lossy(line));
    if "data: " <= shown && codec.json(shown[6..]).Some? { ChunkIsRead(codec.json(shown[6..]).value, s); }
  }

  /** The choice a chunk is read for. */
  function ChoiceOf(chunk: Json): Option<Json> {
    var choices := Field(chunk, "choices");
    if choices.Some? then First(choices.value) else None
  }

  lemma ChunkIsRead(chunk: Json, s: T.Spoken)
    requires T.SaysChunk(chunk, s)
    ensures var choice := ChoiceOf(chunk);
      if choice.Some? then ContentOf(choice.value) == s.text && Fragmented(FragmentsOf(choice.value), s.pieces)
      else s == T.Spoken(None, [])
  {
    hide T.SaysDelta, ContentOf, FragmentsOf, Fragmented;
    var choice := ChoiceOf(chunk);
    if choice.Some? { DeltaIsRead(choice.value, s); }
  }

  lemma DeltaIsRead(choice: Json, s: T.Spoken)
    requires choice.JObject? && "delta" in choice.fields && choice.fields["delta"].JObject? && T.SaysDelta(choice.fields["delta"].fields, s)
    ensures ContentOf(choice) == s.text && Fragmented(FragmentsOf(choice), s.pieces)
  {
    hide T.SaysPiece, Fragment, DeltaIndex;
    var deltas := FragmentsOf(choice);
    assert |deltas| == |s.pieces|;
    forall k | 0 <= k < |deltas|
      ensures DeltaIndex(deltas[k]) == s.pieces[k].index
      ensures Fragment(deltas[k]) == PendingCall(s.pieces[k].id, s.pieces[k].name, s.pieces[k].arguments)
    {
      PieceIsRead(deltas[k], s.pieces[k]);
    }
  }

  lemma PieceIsRead(item: Json, p: T.Piece)
    requires T.SaysPiece(item, p)
    ensures DeltaIndex(item) == p.index && Fragment(item) == PendingCall(p.id, p.name, p.arguments)
  {
  }

  predicate Fragmented(deltas: seq<Json>, pieces: seq<T.Piece>) {
    && |deltas| == |pieces|
    && forall k :: 0 <= k < |deltas| ==>
         DeltaIndex(deltas[k]) == pieces[k].index && Fragment(deltas[k]) == PendingCall(pieces[k].id, pieces[k].name, pieces[k].arguments)
  }

  lemma EndIsRead(codec: Codec, line: string)
    ensures T.IsEnd(codec.lossy, line) <==> Classify(codec, line).EndMark?
  {
  }

  function AsCall(p: T.Piece): PendingCall {
    PendingCall(p.id, p.name, p.arguments)
  }

  ghost predicate PendingIs(pending: map<nat, PendingCall>, pieces: seq<T.Piece>) {
    && (forall i :: i in pending <==> i >= 0 && T.Sent(pieces, i))
    && forall i :: i in pending ==> pending[i] == AsCall(T.Gathered(pieces, i))
  }

  lemma EntryIs(pending: map<nat, PendingCall>, pieces: seq<T.Piece>, i: nat)
    requires PendingIs(pending, pieces)
    ensures Entry(pending, i) == AsCall(T.Gathered(pieces, i))
  {
    if i !in pending { NotSentIsBlank(pieces, i); }
  }

  lemma {:induction false} NotSentIsBlank(pieces: seq<T.Piece>, i: nat)
    requires !T.Sent(pieces, i)
    ensures T.Gathered(pieces, i) == T.Piece(i, "", "", "")
  {
    if pieces != [] {
      assert forall k :: 0 <= k < |pieces[1..]| ==> pieces[1..][k] == pieces[k + 1];
      NotSentIsBlank(pieces[1..], i);
      assert pieces[0].index != i;
    }
  }

  lemma PieceJoins(st: Round, delta: Json, before: seq<T.Piece>, p: T.Piece)
    requires PendingIs(st.pending, before) && Fragmented([delta], [p])
    ensures PendingIs(st.pending[p.index := Joined(Entry(st.pending, p.index), Fragment(delta))], before + [p])
  {
    hide T.Gathered, T.Sent, Fragment, DeltaIndex;
    assert DeltaIndex([delta][0]) == [p][0].index && Fragment([delta][0]) == AsCall([p][0]);
    var next := st.pending[p.index := Joined(Entry(st.pending, p.index), Fragment(delta))];
    forall i: nat
      ensures i in next <==> T.Sent(before + [p], i)
      ensures i in next ==> next[i] == AsCall(T.Gathered(before + [p], i))
    {
      T.SentAppend(before, [p], i);
      T.SentOne(p, i);
      T.GatheredAppend(before, [p], i);
      T.GatheredCons(p, [], i);
      T.GatheredNone(i);
      assert [p] + [] == [p];
      EntryIs(st.pending, before, i);
      var x := T.Gathered(before, i);
      assert x.id + "" == x.id && x.name + "" == x.name && x.arguments + "" == x.arguments;
      assert p.id + "" == p.id && p.name + "" == p.name && p.arguments + "" == p.arguments;
    }
  }

  lemma IndicesBound(pending: map<nat, PendingCall>, before: seq<T.Piece>, after: seq<T.Piece>, indices: seq<nat>)
    requires PendingIs(pending, before) && T.Enumerates(indices, before + after)
    ensures |pending| <= |indices|
  {
    hide T.Gathered;
    forall i | i in pending ensures i in indices {
      T.SentAppend(before, after, i);
      var k :| 0 <= k < |before + after| && (before + after)[k].index == i;
    }
    AmongAtMost(pending.Keys, indices);
    assert |pending| == |pending.Keys|;
  }

  lemma {:induction false} AmongAtMost(keys: set<nat>, indices: seq<nat>)
    requires forall i :: i in keys ==> i in indices
    ensures |keys| <= |indices|
  {
    if indices != [] {
      var rest := keys - {indices[0]};
      forall i | i in rest ensures i in indices[1..] {
        assert i in indices && indices == [indices[0]] + indices[1..];
      }
      AmongAtMost(rest, indices[1..]);
      assert keys <= rest + {indices[0]};
      SubsetSize(keys, rest, indices[0]);
    } else {
      assert keys == {};
    }
  }

  lemma SubsetSize(keys: set<nat>, rest: set<nat>, x: nat)
    requires rest == keys - {x}
    ensures |keys| <= |rest| + 1
  {
    if x in keys { assert keys == rest + {x}; } else { assert keys == rest; }
  }

  /** Fragments within the limits join the calls of their indices and change nothing else. */
  lemma {:induction false} FragmentsJoin(st: Round, deltas: seq<Json>, before: seq<T.Piece>, pieces: seq<T.Piece>, after: seq<T.Piece>, indices: seq<nat>)
    requires !st.done && PendingIs(st.pending, before) && Fragmented(deltas, pieces)
    requires T.Enumerates(indices, before + pieces + after) && T.WithinLimits(before + pieces + after, indices)
    ensures var next := ApplyFragments(st, deltas);
      !next.done && next.events == st.events && next.fullText == st.fullText && PendingIs(next.pending, before + pieces)
    decreases |deltas|
  {
    hide T.Enumerates, T.WithinLimits, PendingIs, T.Gathered, T.Sent, Fragment, DeltaIndex, Whitespace.Utf8Size, Joined;
    if deltas == [] {
      assert before + pieces == before;
    } else {
      var p, more := pieces[0], pieces[1..];
      assert before + pieces + after == (before + [p]) + (more + after) && before + pieces + after == (before + [p]) + more + after;
      assert before + pieces == (before + [p]) + more;
      PieceJoins(st, deltas[0], before, p);
      OneJoins(st, deltas[0], before, p, more + after, indices);
      FragmentsJoin(ApplyFragment(st, deltas[0]), deltas[1..], before + [p], more, after, indices);
    }
  }

  lemma OneJoins(st: Round, delta: Json, before: seq<T.Piece>, p: T.Piece, after: seq<T.Piece>, indices: seq<nat>)
    requires !st.done && PendingIs(st.pending, before) && Fragmented([delta], [p])
    requires T.Enumerates(indices, (before + [p]) + after) && T.WithinLimits((before + [p]) + after, indices)
    ensures ApplyFragment(st, delta) == st.(pending := st.pending[p.index := Joined(Entry(st.pending, p.index), Fragment(delta))])
  {
    hide T.Enumerates, T.Gathered, T.Sent, Fragment, DeltaIndex, Whitespace.Utf8Size, Joined;
    assert DeltaIndex([delta][0]) == [p][0].index;
    PieceJoins(st, delta, before, p);
    var next := st.pending[p.index := Joined(Entry(st.pending, p.index), Fragment(delta))];
    IndicesBound(next, before + [p], after, indices);
    assert p.index in next;
    T.PrefixWithinLimits(before + [p], after, indices, p.index);
  }

  lemma LineIsHeard(codec: Codec, snapshot: Option<Uuid>, st: Round, line: string, said: T.Spoken, before: seq<T.Piece>, after: seq<T.Piece>, indices: seq<nat>)
    requires !st.done && PendingIs(st.pending, before) && T.Says(codec.lossy, codec.json, line, said)
    requires T.Enumerates(indices, before + said.pieces + after) && T.WithinLimits(before + said.pieces + after, indices)
    ensures var next := StepLine(codec, snapshot, st, line);
      && !next.done && PendingIs(next.pending, before + said.pieces)
      && next.fullText == st.fullText + (if said.text.Some? then said.text.value else "")
      && next.events == st.events + (if said.text.Some? then [RoundText(said.text.value)] else [])
  {
    hide T.Says, T.Enumerates, T.WithinLimits, PendingIs, ContentOf, FragmentsOf, Classify, ApplyFragments, Fragmented;
    LineIsRead(codec, line, said);
    var read := Classify(codec, line);
    if read.Choice? {
      FragmentsJoin(ApplyText(st, said.text), FragmentsOf(read.choice), before, said.pieces, after, indices);
    } else {
      assert before + [] == before;
    }
    assert st.fullText + "" == st.fullText && st.events + [] == st.events;
  }

  /** What a running round has heard: the text in order, and the calls of every index put together. */
  lemma {:induction false} LinesAreHeard(codec: Codec, snapshot: Option<Uuid>, st: Round, lines: seq<string>, spoken: seq<T.Spoken>, before: seq<T.Piece>, indices: seq<nat>)
    requires !st.done && PendingIs(st.pending, before) && T.AllSay(codec.lossy, codec.json, lines, spoken)
    requires T.Enumerates(indices, before + T.Pieces(spoken)) && T.WithinLimits(before + T.Pieces(spoken), indices)
    ensures var next := FoldLines(codec, snapshot, st, lines);
      && !next.done && PendingIs(next.pending, before + T.Pieces(spoken))
      && next.fullText == st.fullText + T.AllText(T.Texts(spoken))
      && next.events == st.events + T.TextEvents(T.Texts(spoken))
    decreases |lines|
  {
    hide T.Says, T.Enumerates, T.WithinLimits, PendingIs, StepLine;
    if lines == [] {
      assert before + [] == before && st.fullText + "" == st.fullText && st.events + [] == st.events;
    } else {
      var said, more := spoken[0], spoken[1..];
      var later := T.Pieces(more);
      assert before + T.Pieces(spoken) == before + said.pieces + later;
      LineIsHeard(codec, snapshot, st, lines[0], said, before, later, indices);
      var next := StepLine(codec, snapshot, st, lines[0]);
      assert T.Texts(spoken)[1..] == T.Texts(more);
      LinesAreHeard(codec, snapshot, next, lines[1..], more, before + said.pieces, indices);
      Assoc(st.fullText, if said.text.Some? then said.text.value else "", T.AllText(T.Texts(more)));
      assert st.events + (if said.text.Some? then [RoundText(said.text.value)] else []) + T.TextEvents(T.Texts(more))
          == st.events + T.TextEvents(T.Texts(spoken));
    }
  }

  // The end line of a scripted response.

  lemma InOrderStep(pending: map<nat, PendingCall>)
    ensures pending.Keys == {} ==> InOrder(pending) == []
    ensures pending.Keys != {} ==>
      var k := Least(pending.Keys); InOrder(pending) == [pending[k]] + InOrder(Without(pending, k))
  {
    hide Least, Without;
  }

  lemma {:induction false} InOrderIs(pending: map<nat, PendingCall>, ks: seq<nat>)
    requires Ascending(ks, pending)
    ensures Follows(InOrder(pending), ks, pending)
    decreases |pending.Keys|
  {
    hide Without, Follows, Ascending, Least, InOrder;
    InOrderStep(pending);
    if pending.Keys == {} {
      AscendingNone(ks, pending);
      NothingFollows(pending);
    } else {
      var k := Least(pending.Keys);
      AscendingHead(ks, pending);
      InOrderIs(Without(pending, k), ks[1..]);
      ConsFollows(k, InOrder(Without(pending, k)), ks[1..], pending);
      assert ks == [k] + ks[1..];
    }
  }

  lemma AscendingNone(ks: seq<nat>, pending: map<nat, PendingCall>)
    requires Ascending(ks, pending)
    ensures ks != [] ==> pending.Keys != {}
  {
    assert ks != [] ==> ks[0] in pending;
  }

  lemma AscendingHead(ks: seq<nat>, pending: map<nat, PendingCall>)
    requires Ascending(ks, pending) && pending.Keys != {}
    ensures ks != [] && ks[0] == Least(pending.Keys) && Ascending(ks[1..], Without(pending, ks[0]))
  {
    var k := Least(pending.Keys);
    assert k in pending;
    var i :| 0 <= i < |ks| && ks[i] == k;
    assert ks[0] in pending.Keys;
    assert k <= ks[0];
    forall x | x in Without(pending, k) ensures x in ks[1..] {
      var j :| 0 <= j < |ks| && ks[j] == x;
      assert ks[1..][j - 1] == x;
    }
  }

  lemma {:induction false} AllParse(codec: Codec, items: seq<PendingCall>, snapshot: Uuid, k: nat)
    ensures ParseCalls(codec, items, snapshot, k).None? <==> exists i :: 0 <= i < |items| && !CallParses(codec, k + i, items[i], snapshot)
    decreases |items|
  {
    hide CallParses;
    if items != [] {
      AllParse(codec, items[1..], snapshot, k + 1);
      HeadParses(codec, items, snapshot, k);
      if i :| 0 <= i < |items| && !CallParses(codec, k + i, items[i], snapshot) {
        if i > 0 { assert !CallParses(codec, k + 1 + (i - 1), items[1..][i - 1], snapshot); }
      }
      if !CallParses(codec, k, items[0], snapshot) { assert !CallParses(codec, k + 0, items[0], snapshot); }
      if i :| 0 <= i < |items[1..]| && !CallParses(codec, k + 1 + i, items[1..][i], snapshot) {
        assert !CallParses(codec, k + (i + 1), items[i + 1], snapshot);
      }
    }
  }

  predicate CallParses(codec: Codec, k: nat, item: PendingCall, snapshot: Uuid) {
    codec.json(item.arguments).Some? && codec.parseCall(k, item.name, codec.json(item.arguments).value, item.id, snapshot).Some?
  }

  lemma HeadParses(codec: Codec, items: seq<PendingCall>, snapshot: Uuid, k: nat)
    requires items != []
    ensures ParseCalls(codec, items, snapshot, k).None? <==>
      !CallParses(codec, k, items[0], snapshot) || ParseCalls(codec, items[1..], snapshot, k + 1).None?
  {
  }

  lemma PendingAscends(pending: map<nat, PendingCall>, pieces: seq<T.Piece>, indices: seq<nat>)
    requires PendingIs(pending, pieces) && T.Enumerates(indices, pieces)
    ensures Ascending(indices, pending)
  {
    hide T.Gathered;
    forall k | k in pending ensures k in indices {
      var j :| 0 <= j < |pieces| && pieces[j].index == k;
    }
  }

  lemma PendingIsEmpty(pending: map<nat, PendingCall>, pieces: seq<T.Piece>)
    requires PendingIs(pending, pieces)
    ensures pending == map[] <==> pieces == []
  {
    hide T.Gathered;
    if pieces != [] { assert T.Sent(pieces, pieces[0].index); }
  }

  lemma EndOfCalls(codec: Codec, snapshot: Uuid, items: seq<PendingCall>, asked: seq<T.Piece>)
    requires |items| == |asked| && forall k :: 0 <= k < |items| ==> items[k] == AsCall(asked[k])
    ensures EndsWithCalls(codec, snapshot, asked,
                          if ParseCalls(codec, items, snapshot, 0).Some? then ToolCallsRequested(ParseCalls(codec, items, snapshot, 0).value)
                          else RoundFailed("AGENT_TOOL_SCHEMA_INVALID"))
  {
    hide ParseCalls;
    AllParse(codec, items, snapshot, 0);
    forall k | 0 <= k < |items| ensures CallParses(codec, 0 + k, items[k], snapshot) <==> Parses(codec, k, asked[k], snapshot) { }
    if ParseCalls(codec, items, snapshot, 0).Some? {
      CallsAreParsed(codec, items, snapshot, 0);
      var calls := ParseCalls(codec, items, snapshot, 0).value;
      forall k | 0 <= k < |items| ensures ParsedPiece(codec, k, asked[k], snapshot, calls[k]) {
        assert ParsedAs(codec, 0 + k, items[k], snapshot, calls[k]);
      }
    }
  }

  lemma ItemsAre(pending: map<nat, PendingCall>, pieces: seq<T.Piece>, indices: seq<nat>)
    requires PendingIs(pending, pieces) && T.Enumerates(indices, pieces)
    ensures var items, asked := InOrder(pending), T.GatheredAll(pieces, indices);
      |items| == |asked| && forall k :: 0 <= k < |items| ==> items[k] == AsCall(asked[k])
  {
    hide T.Gathered, T.Sent, T.Enumerates, InOrder;
    PendingAscends(pending, pieces, indices);
    InOrderIs(pending, indices);
  }

  lemma EndOfScript(codec: Codec, snapshot: Option<Uuid>, st: Round, s: Script)
    requires PendingIs(st.pending, T.Pieces(s.spoken)) && T.Enumerates(s.indices, T.Pieces(s.spoken))
    requires s.ending.AtEndLine? && st.fullText == T.AllText(T.Texts(s.spoken))
    ensures EndsScript(codec, snapshot, s, EndEvent(codec, snapshot, st))
  {
    hide PendingIs, T.Enumerates, InOrder, ParseCalls, T.AllText, T.Texts, T.Pieces, T.GatheredAll, EndsWithCalls;
    var pieces := T.Pieces(s.spoken);
    PendingIsEmpty(st.pending, pieces);
    if pieces != [] && snapshot.Some? {
      ItemsAre(st.pending, pieces, s.indices);
      EndOfCalls(codec, snapshot.value, InOrder(st.pending), T.GatheredAll(pieces, s.indices));
    }
  }

  // From the arrivals to the lines.

  lemma {:induction false} WrittenLines(lines: seq<string>, more: string)
    requires T.Unbroken(lines)
    ensures Lines(T.Written(lines) + more) == lines + Lines(more) && Remainder(T.Written(lines) + more) == Remainder(more)
  {
    hide Lines, Remainder, Cut;
    if lines == [] {
      assert "" + more == more && [] + Lines(more) == Lines(more);
    } else {
      var rest := T.Written(lines[1..]) + more;
      WrittenLines(lines[1..], more);
      Assoc(lines[0] + "\n", T.Written(lines[1..]), more);
      LinesCons(lines[0], rest);
      assert lines + Lines(more) == [lines[0]] + (lines[1..] + Lines(more));
    }
  }

  lemma LinesCons(line: string, rest: string)
    requires '\n' !in line
    ensures Lines(line + "\n" + rest) == [line] + Lines(rest) && Remainder(line + "\n" + rest) == Remainder(rest)
  {
    CutAt(line, '\n', rest);
    assert line + "\n" + rest == line + ['\n'] + rest;
  }

  /** Chunks within the limit are read up to the last line feed, whatever arrives behind them. */
  lemma {:induction false} FeedChunks(codec: Codec, snapshot: Option<Uuid>, st: Round, buffer: string, received: nat, chunks: seq<Arrival>, tail: seq<Arrival>)
    requires OnlyChunks(chunks) && '\n' !in buffer
    requires |buffer| <= received && received + |Bytes(chunks)| <= MEBIBYTE
    ensures var bytes := buffer + Bytes(chunks);
      Feed(codec, snapshot, st, buffer, received, chunks + tail)
      == Feed(codec, snapshot, FoldLines(codec, snapshot, st, Lines(bytes)), Remainder(bytes), received + |Bytes(chunks)|, tail)
    decreases |chunks|
  {
    hide FoldLines, Lines, Remainder, Cut, Feed;
    if chunks == [] {
      assert chunks + tail == tail && buffer + "" == buffer;
      OpenHasNoLines(codec, snapshot, st, buffer);
    } else {
      ChunkIsFed(codec, snapshot, st, buffer, received, chunks + tail);
      var all, rest := buffer + chunks[0].bytes, Bytes(chunks[1..]);
      assert buffer + Bytes(chunks) == all + rest && (chunks + tail)[1..] == chunks[1..] + tail;
      LinesAcrossCut(all, rest);
      LinesAcrossCut(all, "");
      RemainderIsOpen(all);
      var next := FoldLines(codec, snapshot, st, Lines(all));
      FoldAppend(codec, snapshot, st, Lines(all), Lines(Remainder(all) + rest));
      FeedChunks(codec, snapshot, next, Remainder(all), received + |chunks[0].bytes|, chunks[1..], tail);
      if st.done {
        DoneStays(codec, snapshot, st, Lines(buffer + Bytes(chunks)));
        DoneIsFed(codec, snapshot, st, Remainder(buffer + Bytes(chunks)), received + |Bytes(chunks)|, tail);
      }
    }
  }

  lemma ChunkIsFed(codec: Codec, snapshot: Option<Uuid>, st: Round, buffer: string, received: nat, arrivals: seq<Arrival>)
    requires arrivals != [] && arrivals[0].Chunk? && |buffer| <= received && received + |arrivals[0].bytes| <= MEBIBYTE
    ensures var bytes := arrivals[0].bytes;
      Feed(codec, snapshot, st, buffer, received, arrivals) ==
        if st.done then st
        else Feed(codec, snapshot, FoldLines(codec, snapshot, st, Lines(buffer + bytes)), Remainder(buffer + bytes), received + |bytes|, arrivals[1..])
  {
    hide FoldLines, Lines, Remainder;
  }

  lemma PendingNothing()
    ensures PendingIs(INITIAL.pending, [])
  {
  }

  /** A running round that meets its end line. */
  lemma EndLineEnds(codec: Codec, snapshot: Option<Uuid>, st: Round, lines: seq<string>, line: string, rest: string)
    requires !FoldLines(codec, snapshot, st, lines).done && Classify(codec, line).EndMark? && '\n' !in line
    ensures var heard := FoldLines(codec, snapshot, st, lines);
      FoldLines(codec, snapshot, st, lines + Lines(line + "\n" + rest)) == Finish(heard, EndEvent(codec, snapshot, heard))
  {
    hide Classify, EndEvent;
    var heard := FoldLines(codec, snapshot, st, lines);
    CutAt(line, '\n', rest);
    assert line + "\n" + rest == line + ['\n'] + rest;
    assert ([line] + Lines(rest))[1..] == Lines(rest);
    FoldAppend(codec, snapshot, st, lines, [line] + Lines(rest));
    DoneStays(codec, snapshot, Finish(heard, EndEvent(codec, snapshot, heard)), Lines(rest));
  }

  /** The events of a scripted response: its texts in order between the start and the event it ends with. */
  predicate Plays(codec: Codec, snapshot: Option<Uuid>, s: Script, events: seq<RoundEvent>) {
    var said := [RoundStarted] + T.TextEvents(T.Texts(s.spoken));
    && |events| == |said| + 1 && events[..|said|] == said && EndsScript(codec, snapshot, s, events[|said|])
  }

  lemma LastIsPlayed(codec: Codec, snapshot: Option<Uuid>, s: Script, st: Round, e: RoundEvent)
    requires st.events == [RoundStarted] + T.TextEvents(T.Texts(s.spoken)) && EndsScript(codec, snapshot, s, e)
    ensures Plays(codec, snapshot, s, Finish(st, e).events)
  {
    hide EndsScript;
  }

  /** A scripted response is read as it says, however it is cut into chunks. */
  lemma ScriptIsPlayed(codec: Codec, snapshot: Option<Uuid>, chunks: seq<Arrival>, tail: seq<Arrival>, s: Script)
    requires Scripted(codec, s) && Arrives(codec.lossy, chunks, tail, s)
    ensures Plays(codec, snapshot, s, Feed(codec, snapshot, INITIAL, "", 0, chunks + tail).events)
  {
    hide T.Unbroken, T.AllSay, T.Enumerates, T.WithinLimits, T.Pieces, T.Texts, T.AllText, T.TextEvents, T.IsEnd, T.Written, Plays;
    hide FoldLines, Lines, Remainder, PendingIs, EndEvent, EndsWithCalls, EndsScript, T.GatheredAll, Feed, Bytes, OnlyChunks, Classify;
    var bytes, pieces := Bytes(chunks), T.Pieces(s.spoken);
    assert "" + bytes == bytes && [] + pieces == pieces && "" + T.AllText(T.Texts(s.spoken)) == T.AllText(T.Texts(s.spoken));
    FeedChunks(codec, snapshot, INITIAL, "", 0, chunks, tail);
    PendingNothing();
    LinesAreHeard(codec, snapshot, INITIAL, s.lines, s.spoken, [], s.indices);
    var heard := FoldLines(codec, snapshot, INITIAL, s.lines);
    PendingIsEmpty(heard.pending, pieces);
    match s.ending
    case AtEndLine(line, rest) =>
      WrittenLines(s.lines, line + "\n" + rest);
      EndIsRead(codec, line);
      EndLineEnds(codec, snapshot, INITIAL, s.lines, line, rest);
      EndOfScript(codec, snapshot, heard, s);
      DoneIsFed(codec, snapshot, Finish(heard, EndEvent(codec, snapshot, heard)), Remainder(bytes), |bytes|, tail);
      LastIsPlayed(codec, snapshot, s, heard, EndEvent(codec, snapshot, heard));
    case AtClose(rest) =>
      OpenBehind(codec, snapshot, s.lines, rest);
      OpenEnds(codec, snapshot, s, heard, Remainder(bytes), |bytes|, tail);
      LastIsPlayed(codec, snapshot, s, heard, if pieces == [] then RawCompleted(heard.fullText) else RoundFailed("AGENT_TOOL_STREAM_INCOMPLETE"));
    case AtReadError(rest) =>
      OpenBehind(codec, snapshot, s.lines, rest);
      OpenEnds(codec, snapshot, s, heard, Remainder(bytes), |bytes|, tail);
      LastIsPlayed(codec, snapshot, s, heard, RoundFailed("STREAM_READ_ERROR"));
    case AtCancel(rest) =>
      OpenBehind(codec, snapshot, s.lines, rest);
      OpenEnds(codec, snapshot, s, heard, Remainder(bytes), |bytes|, tail);
      LastIsPlayed(codec, snapshot, s, heard, RoundFailed("CANCELLED"));
  }

  lemma DoneIsFed(codec: Codec, snapshot: Option<Uuid>, st: Round, buffer: string, received: nat, tail: seq<Arrival>)
    requires st.done
    ensures Feed(codec, snapshot, st, buffer, received, tail) == st
  {
  }

  /** How a round that is still running ends when nothing more is read, and the event that fits the script. */
  lemma OpenEnds(codec: Codec, snapshot: Option<Uuid>, s: Script, st: Round, buffer: string, received: nat, tail: seq<Arrival>)
    requires !st.done && st.fullText == T.AllText(T.Texts(s.spoken)) && (st.pending == map[] <==> T.Pieces(s.spoken) == [])
    ensures var end := Feed(codec, snapshot, st, buffer, received, tail);
      && (s.ending.AtClose? && tail == [] ==>
            var e := if T.Pieces(s.spoken) == [] then RawCompleted(st.fullText) else RoundFailed("AGENT_TOOL_STREAM_INCOMPLETE");
            end == Finish(st, e) && EndsScript(codec, snapshot, s, e))
      && (s.ending.AtReadError? && tail != [] && tail[0] == ReadError ==>
            end == Finish(st, RoundFailed("STREAM_READ_ERROR")) && EndsScript(codec, snapshot, s, RoundFailed("STREAM_READ_ERROR")))
      && (s.ending.AtCancel? && tail != [] && tail[0] == Cancelled ==>
            end == Finish(st, RoundFailed("CANCELLED")) && EndsScript(codec, snapshot, s, RoundFailed("CANCELLED")))
  {
    hide T.Pieces, T.Texts, T.AllText;
  }

  lemma OpenBehind(codec: Codec, snapshot: Option<Uuid>, lines: seq<string>, rest: string)
    requires T.Unbroken(lines) && '\n' !in rest
    ensures Lines(T.Written(lines) + rest) == lines
  {
    hide T.Unbroken, T.Written;
    WrittenLines(lines, rest);
    OpenHasNoLines(codec, snapshot, INITIAL, rest);
    assert lines + [] == lines;
  }

  /** The first `n` arrivals bring a scripted response, and the rest ends it as scripted. */
  predicate IsScript(codec: Codec, arrivals: seq<Arrival>, n: nat, s: Script) {
    n <= |arrivals| && Scripted(codec, s) && Arrives(codec.lossy, arrivals[..n], arrivals[n..], s)
  }

  lemma EveryScriptIsPlayed(codec: Codec, snapshot: Option<Uuid>, arrivals: seq<Arrival>)
    ensures forall n, s :: IsScript(codec, arrivals, n, s) ==> Plays(codec, snapshot, s, Feed(codec, snapshot, INITIAL, "", 0, arrivals).events)
  {
    hide Scripted, Arrives, Plays, Feed;
    forall n: nat, s | IsScript(codec, arrivals, n, s)
      ensures Plays(codec, snapshot, s, Feed(codec, snapshot, INITIAL, "", 0, arrivals).events)
    {
      ScriptIsPlayed(codec, snapshot, arrivals[..n], arrivals[n..], s);
      assert arrivals[..n] + arrivals[n..] == arrivals;
    }
  }

  // Past the limits.

  /** A running round holds the pieces sent so far and is within the limits; a round that is over broke one. */
  ghost predicate HoldsOrRefused(st: Round, pieces: seq<T.Piece>) {
    if st.done then st.events != [] && st.events[|st.events| - 1] == RoundFailed("TOOL_ARGUMENT_LIMIT")
    else
      && PendingIs(st.pending, pieces) && |st.pending| <= PENDING_LIMIT
      && forall i :: i in st.pending ==> Whitespace.Utf8Size(st.pending[i].arguments) <= ARGUMENT_LIMIT
  }

  lemma OneHolds(st: Round, delta: Json, before: seq<T.Piece>, p: T.Piece)
    requires !st.done && HoldsOrRefused(st, before) && Fragmented([delta], [p])
    ensures HoldsOrRefused(ApplyFragment(st, delta), before + [p])
  {
    hide PendingIs, Fragment, DeltaIndex, Whitespace.Utf8Size, Joined;
    assert DeltaIndex([delta][0]) == [p][0].index;
    PieceJoins(st, delta, before, p);
  }

  lemma {:induction false} FragmentsHold(st: Round, deltas: seq<Json>, before: seq<T.Piece>, pieces: seq<T.Piece>)
    requires HoldsOrRefused(st, before) && Fragmented(deltas, pieces)
    ensures HoldsOrRefused(ApplyFragments(st, deltas), before + pieces)
    decreases |deltas|
  {
    hide PendingIs, Fragment, DeltaIndex, Whitespace.Utf8Size, ApplyFragment;
    if deltas == [] {
      assert before + pieces == before;
    } else if !st.done {
      assert before + pieces == (before + [pieces[0]]) + pieces[1..];
      OneHolds(st, deltas[0], before, pieces[0]);
      FragmentsHold(ApplyFragment(st, deltas[0]), deltas[1..], before + [pieces[0]], pieces[1..]);
    }
  }

  lemma LineHolds(codec: Codec, snapshot: Option<Uuid>, st: Round, line: string, said: T.Spoken, before: seq<T.Piece>)
    requires HoldsOrRefused(st, before) && T.Says(codec.lossy, codec.json, line, said)
    ensures HoldsOrRefused(StepLine(codec, snapshot, st, line), before + said.pieces)
  {
    hide T.Says, PendingIs, ContentOf, FragmentsOf, Classify, ApplyFragments, Fragmented, Whitespace.Utf8Size;
    LineIsRead(codec, line, said);
    var read := Classify(codec, line);
    if !st.done {
      if read.Choice? {
        FragmentsHold(ApplyText(st, said.text), FragmentsOf(read.choice), before, said.pieces);
      } else {
        assert before + [] == before;
      }
    }
  }

  lemma {:induction false} LinesHold(codec: Codec, snapshot: Option<Uuid>, st: Round, lines: seq<string>, spoken: seq<T.Spoken>, before: seq<T.Piece>)
    requires HoldsOrRefused(st, before) && T.AllSay(codec.lossy, codec.json, lines, spoken)
    ensures HoldsOrRefused(FoldLines(codec, snapshot, st, lines), before + T.Pieces(spoken))
    decreases |lines|
  {
    hide T.Says, StepLine, HoldsOrRefused;
    if lines == [] {
      assert before + [] == before;
    } else {
      assert before + T.Pieces(spoken) == (before + spoken[0].pieces) + T.Pieces(spoken[1..]);
      LineHolds(codec, snapshot, st, lines[0], spoken[0], before);
      LinesHold(codec, snapshot, StepLine(codec, snapshot, st, lines[0]), lines[1..], spoken[1..], before + spoken[0].pieces);
    }
  }

  lemma HeldIsWithinLimits(st: Round, pieces: seq<T.Piece>, indices: seq<nat>)
    requires !st.done && HoldsOrRefused(st, pieces) && T.Enumerates(indices, pieces)
    ensures T.WithinLimits(pieces, indices)
  {
    hide T.Gathered, T.Sent, T.Enumerates, Whitespace.Utf8Size;
    PendingAscends(st.pending, pieces, indices);
    InOrderIs(st.pending, indices);
    InOrderCounts(st.pending);
  }

  /** Pieces past the limits end the round, whatever else arrives and however it is cut. */
  lemma ExcessIsRefused(codec: Codec, snapshot: Option<Uuid>, chunks: seq<Arrival>, tail: seq<Arrival>, lines: seq<string>, spoken: seq<T.Spoken>, indices: seq<nat>, rest: string)
    requires OnlyChunks(chunks) && |Bytes(chunks)| <= 1024 * 1024 && Bytes(chunks) == T.Written(lines) + rest
    requires T.Unbroken(lines) && T.AllSay(codec.lossy, codec.json, lines, spoken)
    requires T.Enumerates(indices, T.Pieces(spoken)) && !T.WithinLimits(T.Pieces(spoken), indices)
    ensures var events := Feed(codec, snapshot, INITIAL, "", 0, chunks + tail).events;
      events != [] && events[|events| - 1] == RoundFailed("TOOL_ARGUMENT_LIMIT")
  {
    hide T.Unbroken, T.AllSay, T.Enumerates, T.WithinLimits, T.Pieces, FoldLines, Lines, Remainder, PendingIs;
    assert "" + Bytes(chunks) == Bytes(chunks) && [] + T.Pieces(spoken) == T.Pieces(spoken);
    FeedChunks(codec, snapshot, INITIAL, "", 0, chunks, tail);
    WrittenLines(lines, rest);
    FoldAppend(codec, snapshot, INITIAL, lines, Lines(rest));
    PendingNothing();
    LinesHold(codec, snapshot, INITIAL, lines, spoken, []);
    var heard := FoldLines(codec, snapshot, INITIAL, lines);
    if !heard.done { HeldIsWithinLimits(heard, T.Pieces(spoken), indices); }
    DoneStays(codec, snapshot, heard, Lines(rest));
  }
}

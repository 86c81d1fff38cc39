/** The shape of a message history that every provider encoding accepts. */
module History {
  import opened Wrappers
  import opened Text
  import opened AgentTypes

  predicate Says(m: Message) {
    m.content.SayText? && (m.role.User? || m.role.Assistant?)
  }

  /** `replies` are the tool messages answering `calls`, one each, in call order. */
  predicate Answers(calls: seq<ToolCall>, replies: seq<Message>) {
    && |replies| == |calls|
    && forall k :: 0 <= k < |calls| ==>
         replies[k].role.Tool? && replies[k].content.ToolReply? && replies[k].content.result.callId == calls[k].callId
  }

  /** Text, and tool calls each followed at once by exactly its results. */
  predicate WellPaired(ms: seq<Message>)
    decreases |ms|
  {
    ms == []
    || (Says(ms[0]) && WellPaired(ms[1..]))
    || (ms[0].role.Assistant? && ms[0].content.CallTools?
        && var n := |ms[0].content.calls|;
           n < |ms| && Answers(ms[0].content.calls, ms[1..n + 1]) && WellPaired(ms[n + 1..]))
  }

  lemma {:induction false} WellPairedAppend(a: seq<Message>, b: seq<Message>)
    requires WellPaired(a) && WellPaired(b)
    ensures WellPaired(a + b)
    decreases |a|
  {
    if a == [] {
      assert a + b == b;
    } else if Says(a[0]) {
      WellPairedAppend(a[1..], b);
      assert (a + b)[1..] == a[1..] + b;
    } else {
      var n := |a[0].content.calls|;
      WellPairedAppend(a[n + 1..], b);
      assert (a + b)[n + 1..] == a[n + 1..] + b;
      assert (a + b)[1..n + 1] == a[1..n + 1];
    }
  }

  lemma {:induction false} TextIsWellPaired(ms: seq<Message>)
    requires forall k :: 0 <= k < |ms| ==> Says(ms[k])
    ensures WellPaired(ms)
  {
    if ms != [] { TextIsWellPaired(ms[1..]); }
  }

  lemma RoundIsWellPaired(call: Message, replies: seq<Message>)
    requires call.role.Assistant? && call.content.CallTools? && Answers(call.content.calls, replies)
    ensures WellPaired([call] + replies)
  {
    var ms := [call] + replies;
    assert ms[1..|replies| + 1] == replies && ms[|replies| + 1..] == [];
  }

  /** The continuation parts a provider sent along with its calls describe those calls. */
  predicate PartsMatch(parts: Option<seq<Json>>, calls: seq<ToolCall>) {
    parts.Some? ==>
      && |parts.value| == |calls|
      && forall k :: 0 <= k < |calls| ==>
           StringOf(FieldOf(Field(parts.value[k], "functionCall"), "name")) == Some(WireName(calls[k].name))
  }

  predicate PartsLawful(ms: seq<Message>) {
    forall k :: 0 <= k < |ms| && ms[k].content.CallTools? ==> PartsMatch(ms[k].providerParts, ms[k].content.calls)
  }

  /** The parts a round has announced last. */
  function LastParts(events: seq<RoundEvent>): Option<seq<Json>> {
    if events == [] then None
    else
      var e := events[|events| - 1];
      if e.ProviderToolParts? then Some(e.parts) else LastParts(events[..|events| - 1])
  }

  /** A round that requests tool calls has announced either no parts or the parts of those calls. */
  predicate LawfulParts(events: seq<RoundEvent>) {
    forall i :: 0 <= i < |events| && events[i].ToolCallsRequested? ==> PartsMatch(LastParts(events[..i]), events[i].calls)
  }
}

/** What a provider's response says, read off its lines and their JSON and off nothing else. */
module Transcript {
  import opened Wrappers
  import opened Text
  import opened AgentTypes
  import Whitespace

  /** A string field; what is missing or no string is empty. */
  predicate SaysString(fields: map<string, Json>, key: string, s: string) {
    if key in fields && fields[key].JString? then s == fields[key].text else s == ""
  }

  predicate SaysOptional(fields: map<string, Json>, key: string, s: Option<string>) {
    if key in fields && fields[key].JString? then s == Some(fields[key].text) else s == None
  }

  /** The line after which a response says nothing more. */
  predicate IsEnd(lossy: string -> string, line: string) {
    var shown := Whitespace.Trim(lossy(line));
    "data: " <= shown && Whitespace.Trim(shown[6..]) == "[DONE]"
  }

  /** Lines as they arrive, each with its line feed. */
  function Written(lines: seq<string>): string {
    if lines == [] then "" else lines[0] + "\n" + Written(lines[1..])
  }

  predicate Unbroken(lines: seq<string>) {
    forall k :: 0 <= k < |lines| ==> '\n' !in lines[k]
  }

  // Chat completions: text, and fragments of calls under their indices.

  datatype Piece = Piece(index: nat, id: string, name: string, arguments: string)

  datatype Spoken = Spoken(text: Option<string>, pieces: seq<Piece>)

  predicate SaysFunction(fields: map<string, Json>, p: Piece) {
    if "function" in fields && fields["function"].JObject?
    then SaysString(fields["function"].fields, "name", p.name) && SaysString(fields["function"].fields, "arguments", p.arguments)
    else p.name == "" && p.arguments == ""
  }

  predicate SaysPiece(item: Json, p: Piece) {
    && item.JObject?
    && (if "index" in item.fields && item.fields["index"].JNumber? && item.fields["index"].unsigned.Some?
        then p.index == item.fields["index"].unsigned.value else p.index == 0)
    && SaysString(item.fields, "id", p.id) && SaysFunction(item.fields, p)
  }

  predicate SaysDelta(delta: map<string, Json>, s: Spoken) {
    && SaysOptional(delta, "content", s.text)
    && if "tool_calls" in delta && delta["tool_calls"].JArray? then
         && |delta["tool_calls"].items| == |s.pieces|
         && forall k :: 0 <= k < |s.pieces| ==> SaysPiece(delta["tool_calls"].items[k], s.pieces[k])
       else s.pieces == []
  }

  /** A chunk: its first choice's delta, where it has a choice. */
  predicate SaysChunk(chunk: Json, s: Spoken) {
    && chunk.JObject? && "choices" in chunk.fields && chunk.fields["choices"].JArray?
    && if chunk.fields["choices"].items == [] then s == Spoken(None, [])
       else
         var choice := chunk.fields["choices"].items[0];
         choice.JObject? && "delta" in choice.fields && choice.fields["delta"].JObject? && SaysDelta(choice.fields["delta"].fields, s)
  }

  /** A line other than the end: a chunk behind `data: `, or nothing. */
  predicate Says(lossy: string -> string, json: string -> Option<Json>, line: string, s: Spoken) {
    var shown := Whitespace.Trim(lossy(line));
    if !("data: " <= shown) then s == Spoken(None, [])
    else
      && Whitespace.Trim(shown[6..]) != "[DONE]"
      && if json(shown[6..]).None? then s == Spoken(None, []) else SaysChunk(json(shown[6..]).value, s)
  }

  predicate AllSay(lossy: string -> string, json: string -> Option<Json>, lines: seq<string>, spoken: seq<Spoken>) {
    |lines| == |spoken| && forall k :: 0 <= k < |lines| ==> Says(lossy, json, lines[k], spoken[k])
  }

  function AllText(texts: seq<Option<string>>): string {
    if texts == [] then "" else (if texts[0].Some? then texts[0].value else "") + AllText(texts[1..])
  }

  function TextEvents(texts: seq<Option<string>>): seq<RoundEvent> {
    if texts == [] then [] else (if texts[0].Some? then [RoundText(texts[0].value)] else []) + TextEvents(texts[1..])
  }

  function Texts(spoken: seq<Spoken>): seq<Option<string>> {
    seq(|spoken|, k requires 0 <= k < |spoken| => spoken[k].text)
  }

  function Pieces(spoken: seq<Spoken>): seq<Piece> {
    if spoken == [] then [] else spoken[0].pieces + Pieces(spoken[1..])
  }

  /** The pieces of one index put together, in the order they came. */
  function Gathered(pieces: seq<Piece>, index: nat): Piece {
    if pieces == [] then Piece(index, "", "", "")
    else
      var p, rest := pieces[0], Gathered(pieces[1..], index);
      if p.index == index then Piece(index, p.id + rest.id, p.name + rest.name, p.arguments + rest.arguments) else rest
  }

  function GatheredAll(pieces: seq<Piece>, indices: seq<nat>): seq<Piece> {
    seq(|indices|, k requires 0 <= k < |indices| => Gathered(pieces, indices[k]))
  }

  predicate Sent(pieces: seq<Piece>, index: nat) {
    exists k :: 0 <= k < |pieces| && pieces[k].index == index
  }

  /** `indices` are the indices of the pieces, ascending. */
  predicate Enumerates(indices: seq<nat>, pieces: seq<Piece>) {
    && (forall i, j :: 0 <= i < j < |indices| ==> indices[i] < indices[j])
    && (forall i :: 0 <= i < |indices| ==> Sent(pieces, indices[i]))
    && (forall k :: 0 <= k < |pieces| ==> pieces[k].index in indices)
  }

  /** At most 24 calls, of at most 64 KiB of arguments each. */
  predicate WithinLimits(pieces: seq<Piece>, indices: seq<nat>) {
    |indices| <= 24 && forall i :: 0 <= i < |indices| ==> Whitespace.Utf8Size(Gathered(pieces, indices[i]).arguments) <= 64 * 1024
  }

  // Generated content: whole parts, each of them text, a thought or a call.

  datatype Invocation = Invocation(name: string, args: Json, id: Option<string>)

  datatype PartSaid = Thought | Heard(text: Option<string>, call: Option<Invocation>)

  predicate SaysCall(fields: map<string, Json>, call: Option<Invocation>) {
    if "functionCall" in fields && fields["functionCall"].JObject?
       && "name" in fields["functionCall"].fields && fields["functionCall"].fields["name"].JString? then
      var asked := fields["functionCall"].fields;
      && call.Some? && call.value.name == asked["name"].text && SaysOptional(asked, "id", call.value.id)
      && call.value.args == if "args" in asked then asked["args"] else JObject(map[])
    else call.None?
  }

  /** A part marked as a thought says nothing else. */
  predicate SaysPart(part: Json, s: PartSaid) {
    && part.JObject?
    && if "thought" in part.fields && part.fields["thought"] == JBool(true) then s == Thought
       else s.Heard? && SaysOptional(part.fields, "text", s.text) && SaysCall(part.fields, s.call)
  }

  predicate AllSayParts(parts: seq<Json>, said: seq<PartSaid>) {
    |parts| == |said| && forall k :: 0 <= k < |parts| ==> SaysPart(parts[k], said[k])
  }

  /** A chunk: the parts of its first candidate, where it has a candidate. */
  predicate HasParts(chunk: Json, parts: seq<Json>) {
    && chunk.JObject?
    && if "candidates" !in chunk.fields then parts == []
       else
         && chunk.fields["candidates"].JArray? && chunk.fields["candidates"].items != []
         && chunk.fields["candidates"].items[0].JObject?
         && var candidate := chunk.fields["candidates"].items[0].fields;
            if "content" in candidate && candidate["content"].JObject? && "parts" in candidate["content"].fields
               && candidate["content"].fields["parts"].JArray?
            then parts == candidate["content"].fields["parts"].items else parts == []
  }

  /** A line other than an end mark: a chunk behind `data: `, or nothing. */
  predicate Brings(lossy: string -> string, json: string -> Option<Json>, line: string, parts: seq<Json>) {
    var shown := Whitespace.Trim(lossy(line));
    if !("data: " <= shown) then parts == []
    else
      && Whitespace.Trim(shown[6..]) != "[DONE]"
      && if json(shown[6..]).None? then parts == [] else HasParts(json(shown[6..]).value, parts)
  }

  predicate AllBring(lossy: string -> string, json: string -> Option<Json>, lines: seq<string>, parts: seq<seq<Json>>) {
    |lines| == |parts| && forall k :: 0 <= k < |lines| ==> Brings(lossy, json, lines[k], parts[k])
  }

  function Flat(parts: seq<seq<Json>>): seq<Json> {
    if parts == [] then [] else parts[0] + Flat(parts[1..])
  }

  function Shown(said: PartSaid): Option<string> {
    if said.Heard? then said.text else None
  }

  function ShownTexts(said: seq<PartSaid>): seq<Option<string>> {
    seq(|said|, k requires 0 <= k < |said| => Shown(said[k]))
  }

  predicate Invokes(s: PartSaid) {
    s.Heard? && s.call.Some?
  }

  function Invocations(said: seq<PartSaid>): seq<Invocation> {
    if said == [] then [] else (if Invokes(said[0]) then [said[0].call.value] else []) + Invocations(said[1..])
  }

  /** The parts that are calls, as they arrived. */
  function Invoking(parts: seq<Json>, said: seq<PartSaid>): seq<Json>
    requires |parts| == |said|
  {
    if said == [] then [] else (if Invokes(said[0]) then [parts[0]] else []) + Invoking(parts[1..], said[1..])
  }

  // How they grow.

  lemma GatheredNone(index: nat)
    ensures Gathered([], index) == Piece(index, "", "", "") && !Sent([], index)
  {
  }

  lemma GatheredCons(p: Piece, rest: seq<Piece>, index: nat)
    ensures var later := Gathered(rest, index);
      Gathered([p] + rest, index) ==
        if p.index == index then Piece(index, p.id + later.id, p.name + later.name, p.arguments + later.arguments) else later
  {
    assert ([p] + rest)[1..] == rest;
  }

  lemma {:induction false} GatheredAppend(a: seq<Piece>, b: seq<Piece>, index: nat)
    ensures var x, y := Gathered(a, index), Gathered(b, index);
      Gathered(a + b, index) == Piece(index, x.id + y.id, x.name + y.name, x.arguments + y.arguments)
  {
    var y := Gathered(b, index);
    if a == [] {
      assert a + b == b;
      GatheredIndex(b, index);
      assert "" + y.id == y.id && "" + y.name == y.name && "" + y.arguments == y.arguments;
    } else {
      var p, later := a[0], Gathered(a[1..], index);
      GatheredAppend(a[1..], b, index);
      assert a + b == [p] + (a[1..] + b);
      GatheredCons(p, a[1..] + b, index);
      Assoc(p.id, later.id, y.id);
      Assoc(p.name, later.name, y.name);
      Assoc(p.arguments, later.arguments, y.arguments);
    }
  }

  lemma GatheredIndex(pieces: seq<Piece>, index: nat)
    ensures Gathered(pieces, index).index == index
  {
  }

  lemma SentAppend(a: seq<Piece>, b: seq<Piece>, index: nat)
    ensures Sent(a + b, index) <==> Sent(a, index) || Sent(b, index)
  {
    if Sent(a, index) {
      var k :| 0 <= k < |a| && a[k].index == index;
      assert (a + b)[k].index == index;
    }
    if Sent(b, index) {
      var k :| 0 <= k < |b| && b[k].index == index;
      assert (a + b)[|a| + k].index == index;
    }
  }

  lemma SentOne(p: Piece, index: nat)
    ensures Sent([p], index) <==> p.index == index
  {
    assert [p][0] == p;
  }

  lemma {:induction false} TextsAppend(a: seq<Option<string>>, b: seq<Option<string>>)
    ensures AllText(a + b) == AllText(a) + AllText(b)
    ensures TextEvents(a + b) == TextEvents(a) + TextEvents(b)
  {
    if a == [] {
      assert a + b == b;
    } else {
      assert (a + b)[1..] == a[1..] + b;
      TextsAppend(a[1..], b);
      Assoc(if a[0].Some? then a[0].value else "", AllText(a[1..]), AllText(b));
    }
  }

  lemma SizeAppend(a: string, b: string)
    ensures Whitespace.Utf8Size(a + b) == Whitespace.Utf8Size(a) + Whitespace.Utf8Size(b)
  {
    if a == "" {
      assert a + b == b;
    } else {
      SizeAppend(a[1..], b);
      assert (a + b)[1..] == a[1..] + b;
    }
  }

  /** What is within the limits as a whole was within them all along. */
  lemma PrefixWithinLimits(a: seq<Piece>, b: seq<Piece>, indices: seq<nat>, index: nat)
    requires Enumerates(indices, a + b) && WithinLimits(a + b, indices) && Sent(a, index)
    ensures Whitespace.Utf8Size(Gathered(a, index).arguments) <= 64 * 1024
  {
    SentAppend(a, b, index);
    var k :| 0 <= k < |a + b| && (a + b)[k].index == index;
    assert (a + b)[k].index in indices;
    GatheredAppend(a, b, index);
    SizeAppend(Gathered(a, index).arguments, Gathered(b, index).arguments);
  }
}

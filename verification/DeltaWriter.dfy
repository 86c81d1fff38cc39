/** The worker that batches streamed text into the assistant message of a turn. */
module DeltaWriter {
  import opened Wrappers
  import opened Text
  import opened TurnStore
  import Whitespace

  const FLUSH_BYTES: nat := 4096

  /**
   What the worker's select loop sees: a delta, or a timer tick; the end of the list is the channel
   closing. `Meanwhile` is what it does not see: another task's transaction on the same store.
   */
  datatype Arrival = Delta(text: string) | Tick | Meanwhile(op: Op)

  function AllText(arrivals: seq<Arrival>): string {
    if arrivals == [] then "" else (if arrivals[0].Delta? then arrivals[0].text else "") + AllText(arrivals[1..])
  }

  predicate Alone(arrivals: seq<Arrival>) {
    forall i :: 0 <= i < |arrivals| ==> !arrivals[i].Meanwhile?
  }

  predicate Accepts(t: Tables, messageId: Uuid) {
    messageId in t.messages && IsOpen(t.messages[messageId])
  }

  /** The tables after `text` has been appended to a message; nothing happens for no text. */
  function Written(t: Tables, messageId: Uuid, text: string): Tables
    requires messageId in t.messages
  {
    if text == "" then t else t.(messages := t.messages[messageId := Extended(t.messages[messageId], text)])
  }

  lemma WrittenTwice(t: Tables, messageId: Uuid, a: string, b: string)
    requires Accepts(t, messageId)
    ensures Accepts(Written(t, messageId, a), messageId)
    ensures Written(Written(t, messageId, a), messageId, b) == Written(t, messageId, a + b)
  {
    assert t.messages[messageId].markdown + a + b == t.messages[messageId].markdown + (a + b);
    assert a == "" ==> a + b == b;
    assert b == "" ==> a + b == a;
  }

  /** One flush: no text is always written, other text as far as the message accepts any. */
  function Flushed(t: Tables, messageId: Uuid, text: string): (Result<()>, Tables) {
    if text == "" then (Ok(()), t)
    else match Append(t, messageId, text)
      case Ok(next) => (Ok(()), next)
      case Err(code) => (Err(code), t)
  }

  lemma FlushedIs(t: Tables, messageId: Uuid, text: string)
    ensures var (r, next) := Flushed(t, messageId, text);
      && (r.Ok? <==> text == "" || Accepts(t, messageId)) && (r.Ok? ==> r == Ok(()))
      && (r.Err? || text == "" ==> next == t) && (Accepts(t, messageId) ==> next == Written(t, messageId, text))
  {
  }

  lemma FlushedOpen(t: Tables, messageId: Uuid, text: string)
    requires Accepts(t, messageId)
    ensures Flushed(t, messageId, text) == (Ok(()), Written(t, messageId, text))
    ensures Accepts(Written(t, messageId, text), messageId)
  {
  }

  lemma FlushedClosed(t: Tables, messageId: Uuid, text: string)
    requires !Accepts(t, messageId)
    ensures Flushed(t, messageId, text) == (if text == "" then Ok(()) else Err("CHAT_DELTA_TERMINAL_CONFLICT"), t)
  {
  }

  lemma NothingFlushed(t: Tables, messageId: Uuid)
    ensures Flushed(t, messageId, "") == (Ok(()), t)
  {
  }

  predicate Due(a: Arrival, buffer: string) {
    a.Tick? || (a.Delta? && Whitespace.Utf8Size(buffer) >= FLUSH_BYTES)
  }

  /** The text in the buffer once the next arrival is taken. */
  function Taken(buffer: string, a: Arrival): string {
    if a.Delta? then buffer + a.text else buffer
  }

  /** The loop up to the closing of the channel: how it stands, the tables, and the text still in the buffer. */
  function Pumped(t: Tables, messageId: Uuid, buffer: string, arrivals: seq<Arrival>): (Result<()>, Tables, string)
    decreases |arrivals|
  {
    if arrivals == [] then (Ok(()), t, buffer)
    else
      var a := arrivals[0];
      if a.Meanwhile? then Pumped(Step(t, a.op), messageId, buffer, arrivals[1..])
      else
        var text := Taken(buffer, a);
        if !Due(a, text) then Pumped(t, messageId, text, arrivals[1..])
        else
          var (r, next) := Flushed(t, messageId, text);
          if r.Err? then (r, next, "") else Pumped(next, messageId, "", arrivals[1..])
  }

  /** The whole worker: the loop, and a last flush. */
  function Persisted(t: Tables, messageId: Uuid, arrivals: seq<Arrival>): (Result<()>, Tables) {
    var (r, next, left) := Pumped(t, messageId, "", arrivals);
    if r.Err? then (r, next) else Flushed(next, messageId, left)
  }

  /** One step of the worker's own. */
  lemma PumpedStep(t: Tables, messageId: Uuid, buffer: string, arrivals: seq<Arrival>)
    requires arrivals != [] && !arrivals[0].Meanwhile?
    ensures var text := Taken(buffer, arrivals[0]);
      var (r, next) := Flushed(t, messageId, text);
      Pumped(t, messageId, buffer, arrivals) ==
        if !Due(arrivals[0], text) then Pumped(t, messageId, text, arrivals[1..])
        else if r.Err? then (r, next, "") else Pumped(next, messageId, "", arrivals[1..])
  {
    hide Due, Flushed;
  }

  lemma PumpedNone(t: Tables, messageId: Uuid, buffer: string)
    ensures Pumped(t, messageId, buffer, []) == (Ok(()), t, buffer) && buffer + AllText([]) == buffer
    ensures messageId in t.messages ==> Written(t, messageId, "") == t
  {
  }

  lemma PumpedMeanwhile(t: Tables, messageId: Uuid, buffer: string, arrivals: seq<Arrival>)
    requires arrivals != [] && arrivals[0].Meanwhile?
    ensures Pumped(t, messageId, buffer, arrivals) == Pumped(Step(t, arrivals[0].op), messageId, buffer, arrivals[1..])
  {
    hide Step;
  }

  method Flush(storage: SqliteStorage?, messageId: Uuid, buffer0: string) returns (r: Result<()>, buffer: string)
    modifies storage
    ensures buffer == ""
    ensures storage == null ==> r.Ok?
    ensures storage != null ==> (r, storage.tables) == Flushed(old(storage.tables), messageId, buffer0)
  {
    if buffer0 == "" { return Ok(()), ""; }
    var delta := buffer0;
    buffer := "";
    r := Ok(());
    if storage != null {
      r := storage.AppendAssistantDelta(messageId, delta);
    }
  }

  /** Another task's transaction, between two steps of the worker. */
  method Interfere(storage: SqliteStorage?, op: Op)
    modifies storage
    ensures storage != null ==> storage.tables == Step(old(storage.tables), op)
  {
    if storage != null { storage.tables := Step(storage.tables, op); }
  }

  /** However deltas, ticks and other transactions interleave, the worker leaves what `Persisted` says. */
  method PersistDeltas(storage: SqliteStorage?, messageId: Uuid, arrivals: seq<Arrival>) returns (r: Result<()>)
    modifies storage
    ensures storage == null ==> r.Ok?
    ensures storage != null ==> (r, storage.tables) == Persisted(old(storage.tables), messageId, arrivals)
  {
    hide Flushed, Step, Whitespace.Utf8Size, Pumped;
    var buffer := "";
    var k := 0;
    assert arrivals[0..] == arrivals;
    while k < |arrivals|
      invariant 0 <= k <= |arrivals|
      invariant storage != null ==>
        Pumped(old(storage.tables), messageId, "", arrivals) == Pumped(storage.tables, messageId, buffer, arrivals[k..])
    {
      assert arrivals[k..][1..] == arrivals[k + 1..] && arrivals[k..][0] == arrivals[k];
      if storage != null {
        if arrivals[k].Meanwhile? {
          PumpedMeanwhile(storage.tables, messageId, buffer, arrivals[k..]);
        } else {
          PumpedStep(storage.tables, messageId, buffer, arrivals[k..]);
        }
      }
      match arrivals[k] {
        case Meanwhile(op) =>
          Interfere(storage, op);
        case Delta(text) =>
          buffer := buffer + text;
          if Whitespace.Utf8Size(buffer) >= FLUSH_BYTES {
            r, buffer := Flush(storage, messageId, buffer);
            if r.Err? { return; }
          }
        case Tick =>
          r, buffer := Flush(storage, messageId, buffer);
          if r.Err? { return; }
      }
      k := k + 1;
    }
    assert arrivals[k..] == [];
    if storage != null { PumpedNone(storage.tables, messageId, buffer); }
    r, buffer := Flush(storage, messageId, buffer);
  }

  /** Deltas only, and none of the text they come to reaches 4096 bytes. */
  predicate Below4Kib(buffer: string, arrivals: seq<Arrival>)
    decreases |arrivals|
  {
    arrivals != [] ==>
      && arrivals[0].Delta? && Whitespace.Utf8Size(buffer + arrivals[0].text) < 4096
      && Below4Kib(buffer + arrivals[0].text, arrivals[1..])
  }

  /** Without a tick, text stays in the buffer until it comes to 4096 bytes; then all of it is written. */
  lemma {:induction false} WrittenAt4Kib(t: Tables, messageId: Uuid, buffer: string, arrivals: seq<Arrival>, last: string)
    requires Below4Kib(buffer, arrivals)
    ensures Pumped(t, messageId, buffer, arrivals) == (Ok(()), t, buffer + AllText(arrivals))
    ensures var text := buffer + AllText(arrivals) + last;
      Whitespace.Utf8Size(text) >= 4096 && Accepts(t, messageId) ==>
        Pumped(t, messageId, buffer, arrivals + [Delta(last)]) == (Ok(()), Written(t, messageId, text), "")
    decreases |arrivals|
  {
    hide Whitespace.Utf8Size, Flushed, AllText, Written, Step;
    PumpedNone(t, messageId, buffer);
    if arrivals == [] {
      var text := buffer + last;
      assert [Delta(last)][1..] == [] && arrivals + [Delta(last)] == [Delta(last)];
      FlushedIs(t, messageId, text);
      PumpedNone(Flushed(t, messageId, text).1, messageId, "");
    } else {
      var text := buffer + arrivals[0].text;
      TakenText(buffer, arrivals);
      assert (arrivals + [Delta(last)])[1..] == arrivals[1..] + [Delta(last)];
      WrittenAt4Kib(t, messageId, text, arrivals[1..], last);
    }
  }

  /** A tick writes whatever is buffered. */
  lemma TickWrites(t: Tables, messageId: Uuid, buffer: string)
    requires Accepts(t, messageId)
    ensures Pumped(t, messageId, buffer, [Tick]) == (Ok(()), Written(t, messageId, buffer), "")
  {
    hide Flushed, Written;
    assert [Tick][1..] == [];
    FlushedIs(t, messageId, buffer);
    NothingFlushed(t, messageId);
    PumpedNone(Flushed(t, messageId, buffer).1, messageId, "");
  }

  // What that comes to.

  lemma {:induction false} PumpedAppend(t: Tables, messageId: Uuid, buffer: string, a: seq<Arrival>, b: seq<Arrival>)
    ensures var (r, next, left) := Pumped(t, messageId, buffer, a);
      Pumped(t, messageId, buffer, a + b) == if r.Err? then (r, next, left) else Pumped(next, messageId, left, b)
    decreases |a|
  {
    hide Step, Flushed, Due;
    if a == [] {
      assert a + b == b;
    } else {
      assert (a + b)[1..] == a[1..] + b;
      if a[0].Meanwhile? {
        PumpedAppend(Step(t, a[0].op), messageId, buffer, a[1..], b);
      } else {
        var text := Taken(buffer, a[0]);
        PumpedAppend(t, messageId, text, a[1..], b);
        PumpedAppend(Flushed(t, messageId, text).1, messageId, "", a[1..], b);
      }
    }
  }

  lemma AloneStep(arrivals: seq<Arrival>)
    requires Alone(arrivals) && arrivals != []
    ensures !arrivals[0].Meanwhile? && Alone(arrivals[1..])
  {
  }

  lemma TakenText(buffer: string, arrivals: seq<Arrival>)
    requires arrivals != []
    ensures Taken(buffer, arrivals[0]) + AllText(arrivals[1..]) == buffer + AllText(arrivals)
    ensures arrivals[0].Meanwhile? ==> AllText(arrivals[1..]) == AllText(arrivals)
  {
    hide AllText;
    AllTextCons(arrivals);
    var text, later := if arrivals[0].Delta? then arrivals[0].text else "", AllText(arrivals[1..]);
    Assoc(buffer, text, later);
    assert "" + later == later && buffer + "" == buffer;
  }

  lemma AllTextCons(arrivals: seq<Arrival>)
    requires arrivals != []
    ensures AllText(arrivals) == (if arrivals[0].Delta? then arrivals[0].text else "") + AllText(arrivals[1..])
  {
  }

  /** Left alone with an open message, the loop has written the front of the text and holds the rest. */
  lemma {:induction false} PumpedAlone(t: Tables, messageId: Uuid, buffer: string, arrivals: seq<Arrival>) returns (w: string)
    requires Accepts(t, messageId) && Alone(arrivals)
    ensures var (r, next, left) := Pumped(t, messageId, buffer, arrivals);
      r.Ok? && next == Written(t, messageId, w) && w + left == buffer + AllText(arrivals) && Accepts(next, messageId)
    decreases |arrivals|
  {
    hide Due, Flushed, IsOpen, Pumped, Written, AllText, Taken, Alone;
    if arrivals == [] {
      w := "";
      PumpedNone(t, messageId, buffer);
    } else {
      var text := Taken(buffer, arrivals[0]);
      AloneStep(arrivals);
      PumpedStep(t, messageId, buffer, arrivals);
      TakenText(buffer, arrivals);
      if Due(arrivals[0], text) {
        FlushedOpen(t, messageId, text);
        var v := PumpedAlone(Written(t, messageId, text), messageId, "", arrivals[1..]);
        WrittenTwice(t, messageId, text, v);
        w := text + v;
        Assoc(text, v, Pumped(t, messageId, buffer, arrivals).2);
        assert "" + AllText(arrivals[1..]) == AllText(arrivals[1..]);
      } else {
        w := PumpedAlone(t, messageId, text, arrivals[1..]);
      }
    }
  }

  /** On a message that accepts nothing, the loop fails at the first text it would write, and changes nothing. */
  lemma {:induction false} PumpedClosed(t: Tables, messageId: Uuid, buffer: string, arrivals: seq<Arrival>)
    requires messageId in t.messages && !IsOpen(t.messages[messageId])
    ensures var (r, next, left) := Pumped(t, messageId, buffer, arrivals);
      && messageId in next.messages && next.messages[messageId] == t.messages[messageId]
      && (r.Ok? ==> left == buffer + AllText(arrivals)) && (r.Err? ==> buffer + AllText(arrivals) != "")
    decreases |arrivals|
  {
    hide Due, Flushed, IsOpen, Step, Pumped, Written, AllText, Taken;
    if arrivals == [] {
      PumpedNone(t, messageId, buffer);
    } else if arrivals[0].Meanwhile? {
      var op := arrivals[0].op;
      StepKeepsFinal(t, op, messageId);
      PumpedClosed(Step(t, op), messageId, buffer, arrivals[1..]);
      PumpedMeanwhile(t, messageId, buffer, arrivals);
      TakenText(buffer, arrivals);
    } else {
      var text := Taken(buffer, arrivals[0]);
      PumpedStep(t, messageId, buffer, arrivals);
      FlushedClosed(t, messageId, text);
      TakenText(buffer, arrivals);
      if !Due(arrivals[0], text) || text == "" { PumpedClosed(t, messageId, text, arrivals[1..]); }
    }
  }

  /**
   Left alone, the worker's batching does not show: an open message ends up extended by exactly the
   concatenation of all deltas, in order.
   */
  lemma BatchingIsInvisible(t: Tables, messageId: Uuid, arrivals: seq<Arrival>)
    requires Accepts(t, messageId) && Alone(arrivals)
    ensures Persisted(t, messageId, arrivals) == (Ok(()), Written(t, messageId, AllText(arrivals)))
    ensures var (r, after) := Persisted(t, messageId, arrivals);
      && r == Ok(()) && (AllText(arrivals) == "" ==> after == t)
      && (AllText(arrivals) != "" ==> Adds(t, after, messageId, AllText(arrivals)))
  {
    WrittenAdds(t, messageId, AllText(arrivals));
    hide Pumped, Flushed, IsOpen;
    var w := PumpedAlone(t, messageId, "", arrivals);
    var (_, next, left) := Pumped(t, messageId, "", arrivals);
    FlushedIs(next, messageId, left);
    WrittenTwice(t, messageId, w, left);
    assert "" + AllText(arrivals) == AllText(arrivals);
  }

  lemma WrittenAdds(t: Tables, messageId: Uuid, text: string)
    requires Accepts(t, messageId)
    ensures if text == "" then Written(t, messageId, text) == t else Adds(t, Written(t, messageId, text), messageId, text)
  {
  }

  /** On a final message the worker fails exactly when there is text, and the message stays as it is, whatever else happens. */
  lemma FinalMessageIsKept(t: Tables, messageId: Uuid, buffer: string, arrivals: seq<Arrival>)
    requires messageId in t.messages && !IsOpen(t.messages[messageId])
    ensures var (r, next, left) := Pumped(t, messageId, buffer, arrivals);
      var (last, after) := if r.Err? then (r, next) else Flushed(next, messageId, left);
      && (last.Ok? <==> buffer + AllText(arrivals) == "")
      && messageId in after.messages && after.messages[messageId] == t.messages[messageId]
  {
    hide Pumped, Flushed, IsOpen;
    PumpedClosed(t, messageId, buffer, arrivals);
    var (_, next, left) := Pumped(t, messageId, buffer, arrivals);
    FlushedIs(next, messageId, left);
    NothingFlushed(next, messageId);
    assert Flushed(next, messageId, left).1 == next;
  }

  /**
   A transaction of another task that closes the message between two flushes: the message stays what
   that transaction made of it, and the worker fails exactly when text was buffered or is still to come.
   */
  lemma EndedMidway(t: Tables, messageId: Uuid, before: seq<Arrival>, op: Op, later: seq<Arrival>) returns (w: string, left: string)
    requires Accepts(t, messageId) && Alone(before)
    ensures w + left == AllText(before)
    ensures var closed := Step(Written(t, messageId, w), op);
      var (r, after) := Persisted(t, messageId, before + [Meanwhile(op)] + later);
      messageId in closed.messages && !IsOpen(closed.messages[messageId]) ==>
        && messageId in after.messages && after.messages[messageId] == closed.messages[messageId]
        && (r.Ok? <==> left + AllText(later) == "")
  {
    hide Flushed, IsOpen, Step, AllText;
    w := PumpedAlone(t, messageId, "", before);
    left := Pumped(t, messageId, "", before).2;
    var next := Written(t, messageId, w);
    var closed := Step(next, op);
    assert "" + AllText(before) == AllText(before);
    var tail := [Meanwhile(op)] + later;
    assert before + [Meanwhile(op)] + later == before + tail && tail[1..] == later;
    PumpedAppend(t, messageId, "", before, tail);
    assert Pumped(next, messageId, left, tail) == Pumped(closed, messageId, left, later);
    if messageId in closed.messages && !IsOpen(closed.messages[messageId]) {
      FinalMessageIsKept(closed, messageId, left, later);
    }
  }
}

/** The tables of turns and messages, their transactions, and what every run of those keeps. */
module TurnStore {
  import opened Wrappers
  import opened Text

  const I64_MAX: nat := 0x7FFF_FFFF_FFFF_FFFF
  const CONFLICT := "TURN_TERMINAL_CONFLICT"
  const INTERRUPTED := "INTERRUPTED_BY_RESTART"
  const INTERRUPTED_TEXT := "이전 실행이 종료되어 요청을 완료하지 못했습니다."

  datatype ChatRole = User | Assistant

  datatype MessageStatus = Pending | Streaming | Completed | Cancelled | Failed(errorCode: string)

  datatype Contract = AdvisorMarkdown | AuditAnswerBundle(schemaVersion: string)

  datatype ChatMessage = ChatMessage(
    id: Uuid, conversationId: Uuid, turnId: Uuid, role: ChatRole, ordinal: nat, markdown: string, status: MessageStatus)

  datatype Turn = Turn(id: Uuid, conversationId: Uuid, sequence: nat, contract: Contract, snapshotId: Option<Uuid>)

  datatype TurnStart = TurnStart(turn: Turn, userMessage: ChatMessage, assistantPlaceholder: ChatMessage)

  datatype AuditResult = AuditResult(snapshotId: Uuid, bundle: string, hasRawResponse: bool)

  datatype TerminalUpdate =
    | AdvisorCompleted(turnId: Uuid, messageId: Uuid, markdown: string, traceId: Option<Uuid>, freshness: Option<string>, at: nat)
    | AuditCompleted(turnId: Uuid, messageId: Uuid, result: AuditResult, auditTraceId: Uuid, auditFreshness: string, at: nat)
    | AdvisorCancelled(turnId: Uuid, messageId: Uuid, partial: string, at: nat)
    | AuditCancelled(turnId: Uuid, messageId: Uuid, at: nat)
    | FailedUpdate(turnId: Uuid, messageId: Uuid, errorCode: string, safeMessage: string, at: nat)

  datatype Trace = Trace(id: Uuid, conversationId: Uuid, turnId: Uuid, snapshotId: Option<Uuid>, freshness: string)

  // The rows, with statuses and roles as the text the tables hold.

  datatype TurnRow = TurnRow(
    conversationId: Uuid, sequence: nat, contract: Contract, snapshotId: Option<Uuid>,
    auditResultId: Option<Uuid>, completedAt: Option<nat>)

  datatype MessageRow = MessageRow(
    conversationId: Uuid, turnId: Uuid, role: string, ordinal: nat, markdown: string,
    status: string, errorCode: Option<string>, traceId: Option<Uuid>, freshness: Option<string>)

  datatype Tables = Tables(
    conversations: set<Uuid>,
    turns: map<Uuid, TurnRow>,
    messages: map<Uuid, MessageRow>,
    audits: map<Uuid, (Uuid, string)>,
    traces: map<Uuid, Trace>)

  function EncodeStatus(status: MessageStatus): (string, Option<string>) {
    match status
    case Pending => ("Pending", None)
    case Streaming => ("Streaming", None)
    case Completed => ("Completed", None)
    case Cancelled => ("Cancelled", None)
    case Failed(code) => ("Failed", Some(code))
  }

  /** Reading a status back: unknown text, or an error code that does not belong, is an error. */
  function DecodeStatus(row: MessageRow): Result<MessageStatus> {
    var status :=
      if row.status == "Pending" then Ok(Pending)
      else if row.status == "Streaming" then Ok(Streaming)
      else if row.status == "Completed" then Ok(Completed)
      else if row.status == "Cancelled" then Ok(Cancelled)
      else if row.status == "Failed" then
        (if row.errorCode.None? then Err("STORAGE_DECODE_STATUS") else Ok(Failed(row.errorCode.value)))
      else Err("STORAGE_DECODE_ENUM");
    if status.Ok? && !status.value.Failed? && row.errorCode.Some? then Err("STORAGE_DECODE_STATUS") else status
  }

  predicate IsOpen(row: MessageRow) {
    row.role == "Assistant" && (row.status == "Pending" || row.status == "Streaming")
  }

  predicate StartValid(s: TurnStart) {
    var turn, user, assistant := s.turn, s.userMessage, s.assistantPlaceholder;
    && user.conversationId == turn.conversationId && assistant.conversationId == turn.conversationId
    && user.turnId == turn.id && assistant.turnId == turn.id
    && user.role.User? && assistant.role.Assistant?
    && user.status.Completed? && assistant.status.Pending?
    && user.ordinal < assistant.ordinal
  }

  predicate TurnInsertable(t: Tables, turn: Turn) {
    && turn.sequence <= I64_MAX && turn.id !in t.turns && turn.conversationId in t.conversations && turn.sequence > 0
    && forall id :: id in t.turns ==> !(t.turns[id].conversationId == turn.conversationId && t.turns[id].sequence == turn.sequence)
  }

  function InsertTurn(t: Tables, turn: Turn): Tables {
    t.(turns := t.turns[turn.id := TurnRow(turn.conversationId, turn.sequence, turn.contract, turn.snapshotId, None, None)])
  }

  predicate MessageInsertable(t: Tables, m: ChatMessage) {
    && m.ordinal <= I64_MAX && m.id !in t.messages && m.conversationId in t.conversations && m.turnId in t.turns
    && forall id :: id in t.messages ==> !(t.messages[id].conversationId == m.conversationId && t.messages[id].ordinal == m.ordinal)
  }

  function RoleText(role: ChatRole): string {
    if role.User? then "User" else "Assistant"
  }

  function InsertMessage(t: Tables, m: ChatMessage): Tables {
    var (status, errorCode) := EncodeStatus(m.status);
    t.(messages := t.messages[m.id := MessageRow(m.conversationId, m.turnId, RoleText(m.role), m.ordinal, m.markdown, status, errorCode, None, None)])
  }

  // Each transaction as a function from the tables it finds to the tables it commits.

  function Begin(t: Tables, s: TurnStart): Result<Tables> {
    if !StartValid(s) then Err("TURN_START_INVALID")
    else if !TurnInsertable(t, s.turn) then Err("TURN_INSERT_FAILED")
    else
      var t1 := InsertTurn(t, s.turn);
      if !MessageInsertable(t1, s.userMessage) then Err("CHAT_MESSAGE_INSERT_FAILED")
      else
        var t2 := InsertMessage(t1, s.userMessage);
        if !MessageInsertable(t2, s.assistantPlaceholder) then Err("CHAT_MESSAGE_INSERT_FAILED")
        else Ok(InsertMessage(t2, s.assistantPlaceholder))
  }

  function Extended(row: MessageRow, delta: string): MessageRow {
    row.(markdown := row.markdown + delta, status := "Streaming")
  }

  function Append(t: Tables, messageId: Uuid, delta: string): Result<Tables> {
    if messageId in t.messages && IsOpen(t.messages[messageId]) then
      Ok(t.(messages := t.messages[messageId := Extended(t.messages[messageId], delta)]))
    else Err("CHAT_DELTA_TERMINAL_CONFLICT")
  }

  /** A message row with the fields no append and no terminal update touches. */
  predicate SamePlace(a: MessageRow, b: MessageRow) {
    a.conversationId == b.conversationId && a.turnId == b.turnId && a.role == b.role && a.ordinal == b.ordinal
  }

  /** Everything but one message is as before. */
  predicate OnlyMessageDiffers(t: Tables, after: Tables, messageId: Uuid) {
    && after.conversations == t.conversations && after.turns == t.turns && after.audits == t.audits && after.traces == t.traces
    && after.messages.Keys == t.messages.Keys
    && forall id :: id in t.messages && id != messageId ==> after.messages[id] == t.messages[id]
  }

  /** `after` has `text` behind the message's markdown, the message is streaming now, and nothing else differs. */
  predicate Adds(t: Tables, after: Tables, messageId: Uuid, text: string) {
    && OnlyMessageDiffers(t, after, messageId) && messageId in t.messages
    && var row, next := t.messages[messageId], after.messages[messageId];
       && next.markdown == row.markdown + text && next.status == "Streaming" && SamePlace(row, next)
       && next.errorCode == row.errorCode && next.traceId == row.traceId && next.freshness == row.freshness
  }

  lemma AppendAdds(t: Tables, messageId: Uuid, delta: string)
    ensures Append(t, messageId, delta).Ok? <==>
      messageId in t.messages && t.messages[messageId].role == "Assistant" && t.messages[messageId].status in {"Pending", "Streaming"}
    ensures Append(t, messageId, delta).Ok? ==> Adds(t, Append(t, messageId, delta).value, messageId, delta)
    ensures Append(t, messageId, delta).Err? ==> Append(t, messageId, delta).code == "CHAT_DELTA_TERMINAL_CONFLICT"
  {
  }

  /** The column values of a terminal update that is not an audit completion. */
  function TerminalRow(row: MessageRow, u: TerminalUpdate): MessageRow {
    match u
    case AdvisorCompleted(_, _, markdown, traceId, freshness, _) =>
      row.(markdown := markdown, status := "Completed", errorCode := None, traceId := traceId, freshness := freshness)
    case AdvisorCancelled(_, _, partial, _) =>
      row.(markdown := partial, status := "Cancelled", errorCode := None, traceId := None, freshness := None)
    case AuditCancelled(_, _, _) =>
      row.(markdown := "", status := "Cancelled", errorCode := None, traceId := None, freshness := None)
    case FailedUpdate(_, _, errorCode, safeMessage, _) =>
      row.(markdown := safeMessage, status := "Failed", errorCode := Some(errorCode), traceId := None, freshness := None)
    case AuditCompleted(_, _, _, traceId, freshness, _) =>
      row.(markdown := "", status := "Completed", errorCode := None, traceId := Some(traceId), freshness := Some(freshness))
  }

  /** A terminal update hits one open assistant message of the turn and the turn itself, still open. */
  predicate TerminalHits(t: Tables, u: TerminalUpdate) {
    && u.messageId in t.messages && t.messages[u.messageId].turnId == u.turnId && IsOpen(t.messages[u.messageId])
    && u.turnId in t.turns && t.turns[u.turnId].completedAt.None?
  }

  function AuditRefusal(t: Tables, u: TerminalUpdate): Option<string>
    requires u.AuditCompleted?
  {
    if u.result.hasRawResponse then Some("AUDIT_RAW_RESPONSE_FORBIDDEN")
    else if u.turnId !in t.turns then Some("AUDIT_CONTRACT_READ_FAILED")
    else if t.turns[u.turnId].contract != AuditAnswerBundle("answer_bundle.v1") then Some("AUDIT_TURN_CONTRACT_MISMATCH")
    else if u.turnId in t.audits then Some("AUDIT_RESULT_INSERT_FAILED")
    else None
  }

  function Terminate(t: Tables, u: TerminalUpdate, resultId: Uuid): Result<Tables> {
    if u.AuditCompleted? && AuditRefusal(t, u).Some? then Err(AuditRefusal(t, u).value)
    else if !TerminalHits(t, u) then Err(CONFLICT)
    else
      var message := TerminalRow(t.messages[u.messageId], u);
      var turn := t.turns[u.turnId].(completedAt := Some(u.at), auditResultId := if u.AuditCompleted? then Some(resultId) else t.turns[u.turnId].auditResultId);
      Ok(t.(messages := t.messages[u.messageId := message],
            turns := t.turns[u.turnId := turn],
            audits := if u.AuditCompleted? then t.audits[u.turnId := (resultId, u.result.bundle)] else t.audits))
  }

  predicate GroundingBound(trace: Trace, u: TerminalUpdate) {
    match u
    case AdvisorCompleted(turnId, _, _, traceId, freshness, _) =>
      turnId == trace.turnId && traceId == Some(trace.id) && freshness == Some(trace.freshness)
    case AuditCompleted(turnId, _, result, traceId, freshness, _) =>
      turnId == trace.turnId && traceId == trace.id && freshness == trace.freshness && trace.snapshotId == Some(result.snapshotId)
    case _ => false
  }

  /** `writable` stands for the remaining constraints of the trace tables. */
  function TerminateGrounded(t: Tables, trace: Trace, u: TerminalUpdate, resultId: Uuid, writable: bool): Result<Tables> {
    if !GroundingBound(trace, u) then Err("TURN_GROUNDING_BINDING_INVALID")
    else if trace.turnId !in t.turns then Err("TURN_GROUNDING_BINDING_READ_FAILED")
    else if t.turns[trace.turnId].conversationId != trace.conversationId || t.turns[trace.turnId].snapshotId != trace.snapshotId then Err("TURN_GROUNDING_BINDING_INVALID")
    else if !writable then Err("GROUNDING_TRACE_INSERT_FAILED")
    else Terminate(t.(traces := t.traces[trace.id := trace]), u, resultId)
  }

  /** Startup recovery: open assistant messages fail, and turns they belong to are closed. */
  function Recovered(row: MessageRow): MessageRow {
    if IsOpen(row) then row.(markdown := INTERRUPTED_TEXT, status := "Failed", errorCode := Some(INTERRUPTED)) else row
  }

  predicate WasInterrupted(messages: map<Uuid, MessageRow>, turnId: Uuid) {
    exists id :: id in messages && messages[id].turnId == turnId && messages[id].role == "Assistant"
              && messages[id].status == "Failed" && messages[id].errorCode == Some(INTERRUPTED)
  }

  function Recover(t: Tables, at: nat): Tables {
    var messages := map id | id in t.messages :: Recovered(t.messages[id]);
    t.(messages := messages,
       turns := map id | id in t.turns ::
         if t.turns[id].completedAt.None? && WasInterrupted(messages, id) then t.turns[id].(completedAt := Some(at)) else t.turns[id])
  }

  /** The storage object: every method is one transaction over the tables. */
  class SqliteStorage {
    var tables: Tables

    constructor (conversations: set<Uuid>)
      ensures tables == Tables(conversations, map[], map[], map[], map[])
    {
      tables := Tables(conversations, map[], map[], map[], map[]);
    }

    method BeginTurn(start: TurnStart) returns (r: Result<()>)
      modifies this
      ensures match Begin(old(tables), start)
              case Ok(after) => r == Ok(()) && tables == after
              case Err(code) => r == Err(code) && tables == old(tables)
    {
      if !StartValid(start) { return Err("TURN_START_INVALID"); }
      var transaction := tables;
      if !TurnInsertable(transaction, start.turn) { return Err("TURN_INSERT_FAILED"); }
      transaction := InsertTurn(transaction, start.turn);
      if !MessageInsertable(transaction, start.userMessage) { return Err("CHAT_MESSAGE_INSERT_FAILED"); }
      transaction := InsertMessage(transaction, start.userMessage);
      if !MessageInsertable(transaction, start.assistantPlaceholder) { return Err("CHAT_MESSAGE_INSERT_FAILED"); }
      transaction := InsertMessage(transaction, start.assistantPlaceholder);
      tables := transaction;
      return Ok(());
    }

    method AppendAssistantDelta(messageId: Uuid, delta: string) returns (r: Result<()>)
      modifies this
      ensures match Append(old(tables), messageId, delta)
              case Ok(after) => r == Ok(()) && tables == after
              case Err(code) => r == Err(code) && tables == old(tables)
      ensures r.Ok? <==>
        messageId in old(tables.messages) && old(tables.messages)[messageId].role == "Assistant"
        && old(tables.messages)[messageId].status in {"Pending", "Streaming"}
      ensures r.Ok? ==> Adds(old(tables), tables, messageId, delta)
      ensures r.Err? ==> r.code == "CHAT_DELTA_TERMINAL_CONFLICT" && tables == old(tables)
    {
      AppendAdds(tables, messageId, delta);
      var changed := 0;
      if messageId in tables.messages && IsOpen(tables.messages[messageId]) {
        var row := tables.messages[messageId];
        tables := tables.(messages := tables.messages[messageId := row.(markdown := row.markdown + delta, status := "Streaming")]);
        changed := 1;
      }
      if changed != 1 { return Err("CHAT_DELTA_TERMINAL_CONFLICT"); }
      return Ok(());
    }

    /** The statements of a terminal update, run one after the other on the transaction's tables. */
    static method ApplyTerminal(start: Tables, u: TerminalUpdate, resultId: Uuid) returns (r: Result<Tables>)
      ensures r == Terminate(start, u, resultId)
    {
      var t := start;
      if u.AuditCompleted? {
        if u.result.hasRawResponse { return Err("AUDIT_RAW_RESPONSE_FORBIDDEN"); }
        if u.turnId !in t.turns { return Err("AUDIT_CONTRACT_READ_FAILED"); }
        if t.turns[u.turnId].contract != AuditAnswerBundle("answer_bundle.v1") { return Err("AUDIT_TURN_CONTRACT_MISMATCH"); }
        if u.turnId in t.audits { return Err("AUDIT_RESULT_INSERT_FAILED"); }
        t := t.(audits := t.audits[u.turnId := (resultId, u.result.bundle)]);
      }
      var changedMessage, changedTurn := 0, 0;
      if u.messageId in t.messages && t.messages[u.messageId].turnId == u.turnId && IsOpen(t.messages[u.messageId]) {
        t := t.(messages := t.messages[u.messageId := TerminalRow(t.messages[u.messageId], u)]);
        changedMessage := 1;
      }
      if u.turnId in t.turns && t.turns[u.turnId].completedAt.None? {
        var turn := t.turns[u.turnId];
        if u.AuditCompleted? { turn := turn.(auditResultId := Some(resultId)); }
        t := t.(turns := t.turns[u.turnId := turn.(completedAt := Some(u.at))]);
        changedTurn := 1;
      }
      if changedMessage != 1 || changedTurn != 1 { return Err(CONFLICT); }
      return Ok(t);
    }

    method FinishTurn(u: TerminalUpdate, resultId: Uuid) returns (r: Result<()>)
      modifies this
      ensures match Terminate(old(tables), u, resultId)
              case Ok(after) => r == Ok(()) && tables == after
              case Err(code) => r == Err(code) && tables == old(tables)
    {
      var applied := ApplyTerminal(tables, u, resultId);
      if applied.Err? { return Err(applied.code); }
      tables := applied.value;
      return Ok(());
    }

    method FinishTurnWithGrounding(trace: Trace, u: TerminalUpdate, resultId: Uuid, writable: bool, killBeforeCommit: bool) returns (r: Result<()>)
      modifies this
      ensures match TerminateGrounded(old(tables), trace, u, resultId, writable)
              case Ok(after) => if killBeforeCommit then r.Err? && tables == old(tables) else r == Ok(()) && tables == after
              case Err(code) => r == Err(code) && tables == old(tables)
    {
      if !GroundingBound(trace, u) { return Err("TURN_GROUNDING_BINDING_INVALID"); }
      if trace.turnId !in tables.turns { return Err("TURN_GROUNDING_BINDING_READ_FAILED"); }
      var row := tables.turns[trace.turnId];
      if row.conversationId != trace.conversationId || row.snapshotId != trace.snapshotId {
        return Err("TURN_GROUNDING_BINDING_INVALID");
      }
      if !writable { return Err("GROUNDING_TRACE_INSERT_FAILED"); }
      var transaction := tables.(traces := tables.traces[trace.id := trace]);
      var applied := ApplyTerminal(transaction, u, resultId);
      if applied.Err? { return Err(applied.code); }
      if killBeforeCommit { return Err("TURN_GROUNDING_KILLPOINT"); }
      tables := applied.value;
      return Ok(());
    }
  }

  /** The text and status a terminal update leaves in its message, as a reader gets them back. */
  function Outcome(u: TerminalUpdate): (string, MessageStatus) {
    match u
    case AdvisorCompleted(_, _, markdown, _, _, _) => (markdown, Completed)
    case AuditCompleted(_, _, _, _, _, _) => ("", Completed)
    case AdvisorCancelled(_, _, partial, _) => (partial, Cancelled)
    case AuditCancelled(_, _, _) => ("", Cancelled)
    case FailedUpdate(_, _, errorCode, safeMessage, _) => (safeMessage, Failed(errorCode))
  }

  /** The trace and freshness a terminal update leaves in its message. */
  predicate TracedAs(row: MessageRow, u: TerminalUpdate) {
    && (u.AdvisorCompleted? ==> row.traceId == u.traceId && row.freshness == u.freshness)
    && (u.AuditCompleted? ==> row.traceId == Some(u.auditTraceId) && row.freshness == Some(u.auditFreshness))
    && (!u.AdvisorCompleted? && !u.AuditCompleted? ==> row.traceId == None && row.freshness == None)
  }

  /** What a terminal update asks of the tables: an open assistant message of its turn, the turn open, and for an audit a first clean result. */
  predicate MayEnd(t: Tables, u: TerminalUpdate) {
    && u.messageId in t.messages && t.messages[u.messageId].turnId == u.turnId
    && t.messages[u.messageId].role == "Assistant" && t.messages[u.messageId].status in {"Pending", "Streaming"}
    && u.turnId in t.turns && t.turns[u.turnId].completedAt == None
    && (u.AuditCompleted? ==>
          !u.result.hasRawResponse && t.turns[u.turnId].contract == AuditAnswerBundle("answer_bundle.v1") && u.turnId !in t.audits)
  }

  /** A terminal update that succeeds reads back as it was given, closes its turn, and touches nothing else. */
  lemma TerminalReadsBack(t: Tables, u: TerminalUpdate, resultId: Uuid)
    ensures Terminate(t, u, resultId).Ok? <==> MayEnd(t, u)
    ensures Terminate(t, u, resultId).Ok? ==>
      var after := Terminate(t, u, resultId).value;
      && TracedAs(after.messages[u.messageId], u) && SamePlace(t.messages[u.messageId], after.messages[u.messageId])
      && after.turns[u.turnId].(completedAt := None, auditResultId := None) == t.turns[u.turnId].(completedAt := None, auditResultId := None)
      && after.audits.Keys <= t.audits.Keys + {u.turnId} && after.traces == t.traces
      && (forall id :: id in t.audits ==> id in after.audits && after.audits[id] == t.audits[id])
      && u.messageId in after.messages && u.turnId in after.turns && u.turnId in t.turns
      && DecodeStatus(after.messages[u.messageId]) == Ok(Outcome(u).1) && after.messages[u.messageId].markdown == Outcome(u).0
      && after.turns[u.turnId].completedAt == Some(u.at)
      && (u.AuditCompleted? ==> u.turnId in after.audits && after.audits[u.turnId] == (resultId, u.result.bundle)
                                && after.turns[u.turnId].auditResultId == Some(resultId))
      && (!u.AuditCompleted? ==> after.audits == t.audits)
      && (forall id :: id in t.messages && id != u.messageId ==> id in after.messages && after.messages[id] == t.messages[id])
      && (forall id :: id in t.turns && id != u.turnId ==> id in after.turns && after.turns[id] == t.turns[id])
      && after.messages.Keys == t.messages.Keys && after.turns.Keys == t.turns.Keys && after.conversations == t.conversations
  {
  }

  /** The error of a terminal update that is refused: what is wrong with an audit comes first. */
  lemma TerminalRefused(t: Tables, u: TerminalUpdate, resultId: Uuid)
    requires Terminate(t, u, resultId).Err?
    ensures Terminate(t, u, resultId).code ==
      if u.AuditCompleted? && u.result.hasRawResponse then "AUDIT_RAW_RESPONSE_FORBIDDEN"
      else if u.AuditCompleted? && u.turnId !in t.turns then "AUDIT_CONTRACT_READ_FAILED"
      else if u.AuditCompleted? && t.turns[u.turnId].contract != AuditAnswerBundle("answer_bundle.v1") then "AUDIT_TURN_CONTRACT_MISMATCH"
      else if u.AuditCompleted? && u.turnId in t.audits then "AUDIT_RESULT_INSERT_FAILED"
      else "TURN_TERMINAL_CONFLICT"
  {
  }

  /**
   A terminal update with a grounding trace succeeds exactly when it may end its turn and the trace is
   the turn's own and the one the update names; then the trace is kept and the message names it.
   */
  lemma GroundedReadsBack(t: Tables, trace: Trace, u: TerminalUpdate, resultId: Uuid, writable: bool)
    ensures TerminateGrounded(t, trace, u, resultId, writable).Ok? <==>
      && writable && MayEnd(t, u) && trace.turnId == u.turnId
      && t.turns[u.turnId].conversationId == trace.conversationId && t.turns[u.turnId].snapshotId == trace.snapshotId
      && (u.AdvisorCompleted? || u.AuditCompleted?)
      && (u.AdvisorCompleted? ==> u.traceId == Some(trace.id) && u.freshness == Some(trace.freshness))
      && (u.AuditCompleted? ==> u.auditTraceId == trace.id && u.auditFreshness == trace.freshness && trace.snapshotId == Some(u.result.snapshotId))
    ensures TerminateGrounded(t, trace, u, resultId, writable).Ok? ==>
      var after := TerminateGrounded(t, trace, u, resultId, writable).value;
      && after.traces == t.traces[trace.id := trace]
      && after.messages[u.messageId].traceId == Some(trace.id) && after.messages[u.messageId].freshness == Some(trace.freshness)
      && Ok(after.(traces := t.traces)) == Terminate(t, u, resultId)
  {
    hide IsOpen, AuditRefusal;
    OnlyTracesDiffer(t, trace, u, resultId);
    TerminalReadsBack(t, u, resultId);
  }

  lemma OnlyTracesDiffer(t: Tables, trace: Trace, u: TerminalUpdate, resultId: Uuid)
    ensures var traced := t.(traces := t.traces[trace.id := trace]);
      match Terminate(t, u, resultId)
      case Ok(after) => Terminate(traced, u, resultId) == Ok(after.(traces := traced.traces))
      case Err(code) => Terminate(traced, u, resultId) == Err(code)
  {
  }

  /** Recovery fails every open assistant message with the restart's text and code, and closes its turn; nothing else changes. */
  lemma RecoverReads(t: Tables, at: nat)
    ensures var after := Recover(t, at);
      && after.messages.Keys == t.messages.Keys && after.turns.Keys == t.turns.Keys
      && after.conversations == t.conversations && after.audits == t.audits && after.traces == t.traces
      && (forall id :: id in t.messages ==>
            var row, next := t.messages[id], after.messages[id];
            if row.role == "Assistant" && row.status in {"Pending", "Streaming"} then
              next == row.(markdown := "이전 실행이 종료되어 요청을 완료하지 못했습니다.", status := "Failed", errorCode := Some("INTERRUPTED_BY_RESTART"))
            else next == row)
      && (forall turnId :: turnId in t.turns ==>
            after.turns[turnId] ==
              if t.turns[turnId].completedAt.None? && WasInterrupted(after.messages, turnId) then t.turns[turnId].(completedAt := Some(at))
              else t.turns[turnId])
  {
    hide WasInterrupted;
  }

  // Runs of transactions.

  datatype Op =
    | OpBegin(start: TurnStart)
    | OpAppend(messageId: Uuid, delta: string)
    | OpFinish(update: TerminalUpdate, resultId: Uuid)
    | OpFinishGrounded(trace: Trace, update: TerminalUpdate, resultId: Uuid, writable: bool)
    | OpRecover(at: nat)

  function Attempt(t: Tables, op: Op): Result<Tables> {
    match op
    case OpBegin(start) => Begin(t, start)
    case OpAppend(messageId, delta) => Append(t, messageId, delta)
    case OpFinish(u, resultId) => Terminate(t, u, resultId)
    case OpFinishGrounded(trace, u, resultId, writable) => TerminateGrounded(t, trace, u, resultId, writable)
    case OpRecover(at) => Ok(Recover(t, at))
  }

  function Step(t: Tables, op: Op): Tables {
    var r := Attempt(t, op);
    if r.Ok? then r.value else t
  }

  function Run(t: Tables, ops: seq<Op>): Tables
    decreases |ops|
  {
    if ops == [] then t else Run(Step(t, ops[0]), ops[1..])
  }

  predicate StatusKnown(row: MessageRow) {
    && (row.status == "Pending" || row.status == "Streaming" || row.status == "Completed" || row.status == "Cancelled" || row.status == "Failed")
    && (row.status == "Failed" <==> row.errorCode.Some?)
  }

  predicate Speaks(row: MessageRow, turnId: Uuid) {
    row.role == "Assistant" && row.turnId == turnId
  }

  ghost predicate HasAssistant(t: Tables, turnId: Uuid) {
    exists id :: id in t.messages && Speaks(t.messages[id], turnId)
  }

  ghost predicate OneAssistant(t: Tables) {
    forall a, b | a in t.messages && b in t.messages ::
      t.messages[a].role == "Assistant" && Speaks(t.messages[b], t.messages[a].turnId) ==> a == b
  }

  predicate MessageOk(t: Tables, row: MessageRow) {
    && StatusKnown(row) && row.turnId in t.turns
    && (row.role == "Assistant" || (row.role == "User" && row.status == "Completed"))
    && (row.role == "Assistant" ==> (IsOpen(row) <==> t.turns[row.turnId].completedAt.None?))
  }

  predicate AuditOk(t: Tables, turnId: Uuid) {
    turnId in t.audits ==>
      && turnId in t.turns && t.turns[turnId].completedAt.Some?
      && t.turns[turnId].contract == AuditAnswerBundle("answer_bundle.v1")
      && t.turns[turnId].auditResultId == Some(t.audits[turnId].0)
  }

  /** What every reachable state of the tables satisfies. */
  ghost predicate Consistent(t: Tables) {
    && (forall id :: id in t.messages ==> MessageOk(t, t.messages[id]))
    && (forall turnId :: turnId in t.turns ==> HasAssistant(t, turnId))
    && OneAssistant(t)
    && (forall turnId :: AuditOk(t, turnId))
  }

  lemma BeginRows(t: Tables, s: TurnStart)
    requires Begin(t, s).Ok?
    ensures var after := Begin(t, s).value;
      && s.turn.id !in t.turns
      && after.turns == t.turns[s.turn.id := TurnRow(s.turn.conversationId, s.turn.sequence, s.turn.contract, s.turn.snapshotId, None, None)]
      && after.audits == t.audits
      && s.userMessage.id !in t.messages && s.assistantPlaceholder.id !in t.messages && s.userMessage.id != s.assistantPlaceholder.id
      && after.messages == t.messages[s.userMessage.id := after.messages[s.userMessage.id]][s.assistantPlaceholder.id := after.messages[s.assistantPlaceholder.id]]
      && var user, assistant := after.messages[s.userMessage.id], after.messages[s.assistantPlaceholder.id];
         && user.turnId == s.turn.id && user.role == "User" && user.status == "Completed" && user.errorCode == None
         && assistant.turnId == s.turn.id && assistant.role == "Assistant" && assistant.status == "Pending" && assistant.errorCode == None
         && user.conversationId == assistant.conversationId == s.turn.conversationId
         && user.markdown == s.userMessage.markdown && assistant.markdown == s.assistantPlaceholder.markdown
         && user.ordinal == s.userMessage.ordinal < assistant.ordinal == s.assistantPlaceholder.ordinal <= I64_MAX
         && user.traceId == assistant.traceId == None && user.freshness == assistant.freshness == None
    ensures Begin(t, s).value.conversations == t.conversations && Begin(t, s).value.traces == t.traces
  {
  }

  /** What a new turn asks of its three rows and of the tables. */
  predicate Startable(t: Tables, s: TurnStart) {
    var turn, user, assistant := s.turn, s.userMessage, s.assistantPlaceholder;
    && {user.conversationId, assistant.conversationId} == {turn.conversationId} && {user.turnId, assistant.turnId} == {turn.id}
    && user.role == User && user.status == Completed && assistant.role == Assistant && assistant.status == Pending
    && user.ordinal < assistant.ordinal <= 0x7FFF_FFFF_FFFF_FFFF && 0 < turn.sequence <= 0x7FFF_FFFF_FFFF_FFFF
    && turn.conversationId in t.conversations && turn.id !in t.turns
    && user.id !in t.messages && assistant.id !in t.messages && user.id != assistant.id
    && (forall id :: id in t.turns && t.turns[id].conversationId == turn.conversationId ==> t.turns[id].sequence != turn.sequence)
    && (forall id :: id in t.messages && t.messages[id].conversationId == turn.conversationId ==>
          t.messages[id].ordinal != user.ordinal && t.messages[id].ordinal != assistant.ordinal)
  }

  /** A turn begins exactly when its rows fit together and take no number another row has. */
  lemma BeginExactly(t: Tables, s: TurnStart)
    ensures Begin(t, s).Ok? <==> Startable(t, s)
  {
    if Begin(t, s).Ok? {
      BeginRows(t, s);
      BeginIsUnique(t, s);
      assert s.turn.conversationId in {s.turn.conversationId};
    }
    if Startable(t, s) {
      PlacesAgree(s);
      var t1 := InsertTurn(t, s.turn);
      var t2 := InsertMessage(t1, s.userMessage);
      forall id | id in t2.messages && t2.messages[id].conversationId == s.turn.conversationId
        ensures t2.messages[id].ordinal != s.assistantPlaceholder.ordinal
      {
        assert id in t.messages || id == s.userMessage.id;
      }
    }
  }

  lemma PlacesAgree(s: TurnStart)
    requires {s.userMessage.conversationId, s.assistantPlaceholder.conversationId} == {s.turn.conversationId}
    requires {s.userMessage.turnId, s.assistantPlaceholder.turnId} == {s.turn.id}
    ensures s.userMessage.conversationId == s.assistantPlaceholder.conversationId == s.turn.conversationId
    ensures s.userMessage.turnId == s.assistantPlaceholder.turnId == s.turn.id
  {
    assert s.userMessage.conversationId in {s.turn.conversationId} && s.assistantPlaceholder.conversationId in {s.turn.conversationId};
    assert s.userMessage.turnId in {s.turn.id} && s.assistantPlaceholder.turnId in {s.turn.id};
  }

  /** A new turn takes a sequence number and two ordinals no other row of its conversation has. */
  lemma BeginIsUnique(t: Tables, s: TurnStart)
    requires Begin(t, s).Ok?
    ensures s.turn.conversationId in t.conversations && 0 < s.turn.sequence <= I64_MAX
    ensures forall id :: id in t.turns && t.turns[id].conversationId == s.turn.conversationId ==> t.turns[id].sequence != s.turn.sequence
    ensures forall id :: id in t.messages && t.messages[id].conversationId == s.turn.conversationId ==>
      t.messages[id].ordinal != s.userMessage.ordinal && t.messages[id].ordinal != s.assistantPlaceholder.ordinal
  {
    var t1 := InsertTurn(t, s.turn);
    var t2 := InsertMessage(t1, s.userMessage);
    forall id | id in t.messages && t.messages[id].conversationId == s.turn.conversationId
      ensures t.messages[id].ordinal != s.userMessage.ordinal && t.messages[id].ordinal != s.assistantPlaceholder.ordinal
    {
      assert id in t2.messages && t2.messages[id] == t.messages[id];
    }
  }

  lemma RowFacts(row: MessageRow, u: TerminalUpdate, delta: string)
    ensures IsOpen(row) ==> row.role == "Assistant"
    ensures var next := TerminalRow(row, u); !IsOpen(next) && StatusKnown(next) && next.turnId == row.turnId && next.role == row.role
    ensures var next := Extended(row, delta); (StatusKnown(row) && IsOpen(row) ==> StatusKnown(next) && IsOpen(next)) && next.turnId == row.turnId && next.role == row.role
    ensures row.role == "Assistant" && row.status == "Pending" && row.errorCode == None ==> IsOpen(row) && StatusKnown(row)
    ensures row.role == "User" && row.status == "Completed" && row.errorCode == None ==> !IsOpen(row) && StatusKnown(row) && row.role != "Assistant"
  {
  }

  lemma NewRowOk(after: Tables, row: MessageRow)
    requires row.turnId in after.turns && after.turns[row.turnId].completedAt.None?
    requires StatusKnown(row)
    requires (row.role == "User" && row.status == "Completed") || (row.role == "Assistant" && IsOpen(row))
    ensures MessageOk(after, row)
  {
  }

  lemma BeginConsistent(t: Tables, s: TurnStart)
    requires Consistent(t) && Begin(t, s).Ok?
    ensures Consistent(Begin(t, s).value)
  {
    hide Begin, StatusKnown, IsOpen, MessageOk, AuditOk;
    BeginRows(t, s);
    var after := Begin(t, s).value;
    var user, assistant, turnId := s.userMessage.id, s.assistantPlaceholder.id, s.turn.id;
    RowFacts(after.messages[user], AuditCancelled(0, 0, 0), "");
    RowFacts(after.messages[assistant], AuditCancelled(0, 0, 0), "");
    NewRowOk(after, after.messages[user]);
    NewRowOk(after, after.messages[assistant]);
    forall id | id in after.messages ensures MessageOk(after, after.messages[id]) {
      if id in t.messages {
        TurnKnown(t, t.messages[id]);
        SameTurnOk(t, after, t.messages[id]);
      }
    }
    forall other | other in after.turns ensures HasAssistant(after, other) {
      if other == turnId {
        assert Speaks(after.messages[assistant], turnId);
      } else {
        assert HasAssistant(t, other);
        var id :| id in t.messages && Speaks(t.messages[id], other);
        assert after.messages[id] == t.messages[id];
      }
    }
    forall a, b | a in after.messages && b in after.messages && after.messages[a].role == "Assistant" && Speaks(after.messages[b], after.messages[a].turnId)
      ensures a == b
    {
      if a in t.messages { TurnKnown(t, t.messages[a]); }
      if b in t.messages { TurnKnown(t, t.messages[b]); }
    }
    forall other ensures AuditOk(after, other) {
      assert AuditOk(t, other);
      SameAuditOk(t, after, other, turnId);
    }
  }

  lemma SameAuditOk(t: Tables, after: Tables, turnId: Uuid, fresh': Uuid)
    requires AuditOk(t, turnId) && after.audits == t.audits && fresh' !in t.turns
    requires turnId != fresh' && turnId in t.turns ==> turnId in after.turns && after.turns[turnId] == t.turns[turnId]
    ensures AuditOk(after, turnId)
  {
  }

  /** Rewriting messages in place, turn and role kept, keeps who is the assistant of which turn. */
  lemma SameAssistants(t: Tables, after: Tables)
    requires after.messages.Keys == t.messages.Keys && after.turns.Keys == t.turns.Keys
    requires forall id :: id in t.messages ==> after.messages[id].turnId == t.messages[id].turnId && after.messages[id].role == t.messages[id].role
    requires OneAssistant(t) && forall turnId :: turnId in t.turns ==> HasAssistant(t, turnId)
    ensures OneAssistant(after) && forall turnId :: turnId in after.turns ==> HasAssistant(after, turnId)
  {
    forall turnId | turnId in after.turns ensures HasAssistant(after, turnId) {
      var id :| id in t.messages && Speaks(t.messages[id], turnId);
      assert Speaks(after.messages[id], turnId);
    }
    forall a, b | a in after.messages && b in after.messages && after.messages[a].role == "Assistant" && Speaks(after.messages[b], after.messages[a].turnId)
      ensures a == b
    {
      assert Speaks(t.messages[b], t.messages[a].turnId);
    }
  }

  lemma SameTurnOk(t: Tables, after: Tables, row: MessageRow)
    requires MessageOk(t, row) && row.turnId in after.turns && after.turns[row.turnId] == t.turns[row.turnId]
    ensures MessageOk(after, row)
  {
  }

  /** Rewriting one message, and nothing of any other message's turn, keeps the tables consistent. */
  lemma OneMessageRewritten(t: Tables, after: Tables, k: Uuid)
    requires Consistent(t) && k in t.messages && k in after.messages
    requires after.messages == t.messages[k := after.messages[k]]
    requires after.messages[k].turnId == t.messages[k].turnId && after.messages[k].role == t.messages[k].role
    requires after.turns.Keys == t.turns.Keys
    requires forall turnId :: turnId in t.turns && turnId != t.messages[k].turnId ==> after.turns[turnId] == t.turns[turnId]
    requires t.messages[k].role == "Assistant" && MessageOk(after, after.messages[k])
    requires forall turnId :: AuditOk(after, turnId)
    ensures Consistent(after)
  {
    hide HasAssistant, MessageOk, AuditOk;
    SameAssistants(t, after);
    forall id | id in after.messages ensures MessageOk(after, after.messages[id]) {
      if id != k {
        var row := t.messages[id];
        if row.role == "Assistant" {
          assert !Speaks(row, t.messages[k].turnId);
          TurnKnown(t, row);
          SameTurnOk(t, after, row);
        } else {
          UserRowOk(t, after, row);
        }
      }
    }
  }

  lemma TurnKnown(t: Tables, row: MessageRow)
    requires MessageOk(t, row)
    ensures row.turnId in t.turns
  {
  }

  lemma UserRowOk(t: Tables, after: Tables, row: MessageRow)
    requires MessageOk(t, row) && row.role != "Assistant" && after.turns.Keys == t.turns.Keys
    ensures MessageOk(after, row)
  {
  }

  lemma AppendConsistent(t: Tables, messageId: Uuid, delta: string)
    requires Consistent(t) && Append(t, messageId, delta).Ok?
    ensures Consistent(Append(t, messageId, delta).value)
  {
    hide Consistent, StatusKnown, IsOpen, Extended;
    var after := Append(t, messageId, delta).value;
    ConsistentParts(t, messageId);
    RowFacts(t.messages[messageId], AuditCancelled(0, 0, 0), delta);
    forall turnId ensures AuditOk(after, turnId) {
      ConsistentAudit(t, turnId);
    }
    OneMessageRewritten(t, after, messageId);
  }

  lemma ConsistentParts(t: Tables, id: Uuid)
    requires Consistent(t) && id in t.messages
    ensures MessageOk(t, t.messages[id])
  {
  }

  lemma ConsistentAudit(t: Tables, turnId: Uuid)
    requires Consistent(t)
    ensures AuditOk(t, turnId)
  {
  }

  lemma TerminateConsistent(t: Tables, u: TerminalUpdate, resultId: Uuid)
    requires Consistent(t) && Terminate(t, u, resultId).Ok?
    ensures Consistent(Terminate(t, u, resultId).value)
  {
    hide Consistent, StatusKnown, IsOpen, TerminalRow;
    var after := Terminate(t, u, resultId).value;
    ConsistentParts(t, u.messageId);
    RowFacts(t.messages[u.messageId], u, "");
    forall turnId ensures AuditOk(after, turnId) {
      ConsistentAudit(t, turnId);
    }
    OneMessageRewritten(t, after, u.messageId);
  }

  lemma RecoverConsistent(t: Tables, at: nat)
    requires Consistent(t)
    ensures Consistent(Recover(t, at))
  {
    var after := Recover(t, at);
    hide HasAssistant, WasInterrupted;
    SameAssistants(t, after);
    forall id | id in after.messages ensures MessageOk(after, after.messages[id]) {
      assert MessageOk(t, t.messages[id]);
      if IsOpen(t.messages[id]) { OpenWasInterrupted(t, after.messages, id); }
    }
    forall other ensures AuditOk(after, other) {
      assert AuditOk(t, other);
    }
  }

  lemma OpenWasInterrupted(t: Tables, messages: map<Uuid, MessageRow>, id: Uuid)
    requires id in t.messages && IsOpen(t.messages[id])
    requires id in messages && messages[id] == Recovered(t.messages[id])
    ensures WasInterrupted(messages, t.messages[id].turnId)
  {
  }

  lemma StepConsistent(t: Tables, op: Op)
    requires Consistent(t)
    ensures Consistent(Step(t, op))
  {
    hide Consistent, Begin, Append, Terminate, Recover;
    if Attempt(t, op).Ok? {
      match op
      case OpBegin(start) => BeginConsistent(t, start);
      case OpAppend(messageId, delta) => AppendConsistent(t, messageId, delta);
      case OpFinish(u, resultId) => TerminateConsistent(t, u, resultId);
      case OpFinishGrounded(trace, u, resultId, writable) =>
        TracesDoNotMatter(t, t.(traces := t.traces[trace.id := trace]));
        TerminateConsistent(t.(traces := t.traces[trace.id := trace]), u, resultId);
      case OpRecover(at) => RecoverConsistent(t, at);
    }
  }

  lemma TracesDoNotMatter(t: Tables, after: Tables)
    requires Consistent(t) && after == t.(traces := after.traces)
    ensures Consistent(after)
  {
    hide HasAssistant, OneAssistant;
    SameAssistants(t, after);
    forall id | id in after.messages ensures MessageOk(after, after.messages[id]) {
      assert MessageOk(t, t.messages[id]);
    }
    forall other ensures AuditOk(after, other) {
      assert AuditOk(t, other);
    }
  }

  /** In every state any run of transactions reaches from empty tables, the tables are consistent. */
  lemma {:induction false} ReachableConsistent(t: Tables, ops: seq<Op>)
    requires Consistent(t)
    ensures Consistent(Run(t, ops))
    decreases |ops|
  {
    hide Consistent, Step;
    if ops != [] {
      StepConsistent(t, ops[0]);
      ReachableConsistent(Step(t, ops[0]), ops[1..]);
    }
  }

  lemma EmptyConsistent(conversations: set<Uuid>)
    ensures Consistent(Tables(conversations, map[], map[], map[], map[]))
  {
  }

  /** A turn is completed exactly when its assistant message is no longer open; statuses always decode. */
  lemma ReachableReads(conversations: set<Uuid>, ops: seq<Op>, id: Uuid)
    ensures var t := Run(Tables(conversations, map[], map[], map[], map[]), ops);
      id in t.messages ==>
        && DecodeStatus(t.messages[id]).Ok?
        && EncodeStatus(DecodeStatus(t.messages[id]).value) == (t.messages[id].status, t.messages[id].errorCode)
        && t.messages[id].turnId in t.turns
        && (t.messages[id].role == "Assistant" ==>
              (t.turns[t.messages[id].turnId].completedAt.Some? <==>
                var s := DecodeStatus(t.messages[id]).value; s.Completed? || s.Cancelled? || s.Failed?))
  {
    var t := Run(Tables(conversations, map[], map[], map[], map[]), ops);
    hide Run;
    EmptyConsistent(conversations);
    ReachableConsistent(Tables(conversations, map[], map[], map[], map[]), ops);
    if id in t.messages { assert MessageOk(t, t.messages[id]); }
  }

  // At most one terminal update.

  predicate EndsTurn(op: Op, turnId: Uuid) {
    (op.OpFinish? || op.OpFinishGrounded?) && op.update.turnId == turnId
  }

  predicate IsCompleted(t: Tables, turnId: Uuid) {
    turnId in t.turns && t.turns[turnId].completedAt.Some?
  }

  /** How many of the operations are terminal updates of the turn that succeed. */
  function Endings(t: Tables, ops: seq<Op>, turnId: Uuid): nat
    decreases |ops|
  {
    if ops == [] then 0
    else
      var first := if EndsTurn(ops[0], turnId) && Attempt(t, ops[0]).Ok? then 1 else 0;
      first + Endings(Step(t, ops[0]), ops[1..], turnId)
  }

  lemma StepKeepsCompletion(t: Tables, op: Op, turnId: Uuid)
    ensures IsCompleted(t, turnId) ==> IsCompleted(Step(t, op), turnId) && Step(t, op).turns[turnId] == t.turns[turnId]
    ensures EndsTurn(op, turnId) && Attempt(t, op).Ok? ==> !IsCompleted(t, turnId) && IsCompleted(Step(t, op), turnId)
  {
    hide WasInterrupted, MessageInsertable;
  }

  /** In every run, at most one terminal update of a turn succeeds, and none once it is completed. */
  lemma {:induction false} AtMostOneEnding(t: Tables, ops: seq<Op>, turnId: Uuid)
    ensures Endings(t, ops, turnId) <= if IsCompleted(t, turnId) then 0 else 1
    decreases |ops|
  {
    hide Step, Attempt;
    if ops != [] {
      StepKeepsCompletion(t, ops[0], turnId);
      AtMostOneEnding(Step(t, ops[0]), ops[1..], turnId);
    }
  }

  lemma StepKeepsFinal(t: Tables, op: Op, id: Uuid)
    requires id in t.messages && !IsOpen(t.messages[id])
    ensures id in Step(t, op).messages && Step(t, op).messages[id] == t.messages[id]
  {
    hide WasInterrupted;
  }

  /** Once a message is final, no later transaction changes it. */
  lemma {:induction false} FinalMessagesStay(t: Tables, ops: seq<Op>, id: Uuid)
    requires id in t.messages && !IsOpen(t.messages[id])
    ensures id in Run(t, ops).messages && Run(t, ops).messages[id] == t.messages[id]
    decreases |ops|
  {
    hide Step;
    if ops != [] {
      StepKeepsFinal(t, ops[0], id);
      FinalMessagesStay(Step(t, ops[0]), ops[1..], id);
    }
  }
}

/** The life of a tool-egress receipt: prepared before a body may be sent, settled once on every way out. */
module ReceiptProtocol {
  import opened Wrappers
  import opened Text
  import opened AgentTypes
  import opened EgressTypes
  import opened History
  import AgentWire

  /** Identifiers as they are generated: fresh, which a counter models. */
  type Id = nat

  datatype Row = Row(status: ReceiptStatus, bodyDigest: string)

  type Log = seq<(Id, ReceiptStatus)>

  function Times(log: Log, id: Id): nat {
    if log == [] then 0
    else
      var last := if log[|log| - 1].0 == id then 1 else 0;
      Times(log[..|log| - 1], id) + last
  }

  lemma {:induction false} TimesAppend(a: Log, b: Log, id: Id)
    ensures Times(a + b, id) == Times(a, id) + Times(b, id)
  {
    if b == [] {
      assert a + b == a;
    } else {
      assert (a + b)[..|a + b| - 1] == a + b[..|b| - 1];
      TimesAppend(a, b[..|b| - 1], id);
    }
  }

  function Batch(ids: seq<Id>, next: ReceiptStatus): Log {
    seq(|ids|, i requires 0 <= i < |ids| => (ids[i], next))
  }

  lemma {:induction false} TimesInBatch(ids: seq<Id>, next: ReceiptStatus, id: Id)
    requires Distinct(ids)
    ensures Times(Batch(ids, next), id) == if id in ids then 1 else 0
  {
    if ids != [] {
      var before := ids[..|ids| - 1];
      TimesInBatch(before, next, id);
      assert Batch(ids, next)[..|ids| - 1] == Batch(before, next);
      assert ids == before + [ids[|ids| - 1]];
    }
  }

  /** A row is Prepared as long as no change of it is logged; otherwise one change is, to its status. */
  ghost predicate LogAgrees(rows: map<Id, Row>, log: Log) {
    && (forall id :: id !in rows ==> Times(log, id) == 0)
    && (forall id :: id in rows ==>
          if rows[id].status.Prepared? then Times(log, id) == 0
          else Times(log, id) == 1 && (id, rows[id].status) in log)
  }

  predicate BatchAllowed(rows: map<Id, Row>, ids: seq<Id>, expected: ReceiptStatus, next: ReceiptStatus) {
    && expected.Prepared? && !next.Prepared? && ids != [] && Distinct(ids)
    && ids[0] in rows
    && forall i :: 0 <= i < |ids| ==>
         ids[i] in rows && rows[ids[i]].status == expected && rows[ids[i]].bodyDigest == rows[ids[0]].bodyDigest
  }

  function SetAll(rows: map<Id, Row>, ids: seq<Id>, next: ReceiptStatus): map<Id, Row> {
    map id | id in rows :: if id in ids then rows[id].(status := next) else rows[id]
  }

  lemma SetAllAgrees(rows: map<Id, Row>, log: Log, ids: seq<Id>, next: ReceiptStatus)
    requires LogAgrees(rows, log) && BatchAllowed(rows, ids, Prepared, next)
    ensures LogAgrees(SetAll(rows, ids, next), log + Batch(ids, next))
  {
    var after := SetAll(rows, ids, next);
    forall id ensures Times(log + Batch(ids, next), id) == Times(log, id) + if id in ids then 1 else 0 {
      TimesAppend(log, Batch(ids, next), id);
      TimesInBatch(ids, next, id);
    }
    forall id | id in after && !after[id].status.Prepared? ensures (id, after[id].status) in log + Batch(ids, next) {
      if id in ids {
        var i :| 0 <= i < |ids| && ids[i] == id;
        assert Batch(ids, next)[i] == (id, next);
      }
    }
  }

  class ReceiptStore {
    var rows: map<Id, Row>
    var log: Log
    var nextId: nat
    var consentRevoked: bool

    ghost predicate Valid()
      reads this
    {
      LogAgrees(rows, log) && forall id :: id in rows ==> id < nextId
    }

    constructor ()
      ensures Valid() && rows == map[] && log == []
    {
      rows, log, nextId, consentRevoked := map[], [], 0, false;
    }

    method FreshId() returns (id: Id)
      requires Valid()
      modifies this`nextId
      ensures Valid() && id !in rows && id == old(nextId) && nextId == id + 1
    {
      id := nextId;
      nextId := nextId + 1;
    }

    /** Inserts a receipt; `admitted` stands for the table's remaining constraints. */
    method Prepare(id: Id, status: ReceiptStatus, bodyDigest: string, admitted: bool) returns (ok: bool)
      requires Valid() && id < nextId
      modifies this`rows
      ensures Valid()
      ensures ok <==> status.Prepared? && old(id !in rows) && admitted
      ensures rows == if ok then old(rows)[id := Row(Prepared, bodyDigest)] else old(rows)
    {
      ok := status.Prepared? && id !in rows && admitted;
      if ok { rows := rows[id := Row(Prepared, bodyDigest)]; }
    }

    method RevokeConsent()
      requires Valid()
      modifies this`consentRevoked
      ensures Valid() && consentRevoked
    {
      consentRevoked := true;
    }

    /** The checks of the transaction: distinct receipts, all in the expected status, all for one body. */
    method CheckBatch(ids: seq<Id>, expected: ReceiptStatus, next: ReceiptStatus) returns (ok: bool)
      ensures ok == BatchAllowed(rows, ids, expected, next)
    {
      if !expected.Prepared? || next.Prepared? || ids == [] { return false; }
      var unique: set<Id> := {};
      var k := 0;
      while k < |ids|
        invariant 0 <= k <= |ids| && Distinct(ids[..k])
        invariant unique == set i | 0 <= i < k :: ids[i]
      {
        if ids[k] in unique { return false; }
        unique := unique + {ids[k]};
        k := k + 1;
      }
      assert ids[..k] == ids;
      k := 0;
      while k < |ids|
        invariant 0 <= k <= |ids| && (k > 0 ==> ids[0] in rows)
        invariant forall i :: 0 <= i < k ==>
          ids[i] in rows && rows[ids[i]].status == expected && rows[ids[i]].bodyDigest == rows[ids[0]].bodyDigest
      {
        if ids[k] !in rows || rows[ids[k]].status != expected { return false; }
        if rows[ids[k]].bodyDigest != rows[ids[0]].bodyDigest { return false; }
        k := k + 1;
      }
      return true;
    }

    /** One transaction: either every receipt of the batch changes status, or none does. */
    method CompareAndSetBatch(ids: seq<Id>, expected: ReceiptStatus, next: ReceiptStatus) returns (ok: bool)
      requires Valid()
      modifies this`rows, this`log
      ensures Valid()
      ensures ok <==> old(BatchAllowed(rows, ids, expected, next))
      ensures rows == if ok then SetAll(old(rows), ids, next) else old(rows)
      ensures log == if ok then old(log) + Batch(ids, next) else old(log)
      ensures ok <==>
        && expected.Prepared? && !next.Prepared? && ids != [] && Distinct(ids)
        && (forall i :: 0 <= i < |ids| ==> ids[i] in old(rows) && old(rows)[ids[i]].status.Prepared?)
        && forall i, j :: 0 <= i < |ids| && 0 <= j < |ids| && ids[i] in old(rows) && ids[j] in old(rows) ==>
             old(rows)[ids[i]].bodyDigest == old(rows)[ids[j]].bodyDigest
      ensures ok ==> rows.Keys == old(rows).Keys
      ensures ok ==> forall id :: id in rows ==> rows[id] == Row(if id in ids then next else old(rows)[id].status, old(rows)[id].bodyDigest)
    {
      ok := CheckBatch(ids, expected, next);
      if !ok { return; }
      var updated := rows;
      var changes: Log := [];
      var k := 0;
      while k < |ids|
        invariant 0 <= k <= |ids|
        invariant updated == SetAll(rows, ids[..k], next) && changes == Batch(ids[..k], next)
      {
        assert ids[..k + 1] == ids[..k] + [ids[k]];
        updated := updated[ids[k] := updated[ids[k]].(status := next)];
        changes := changes + [(ids[k], next)];
        k := k + 1;
      }
      assert ids[..k] == ids;
      SetAllAgrees(rows, log, ids, next);
      rows, log := updated, log + changes;
    }
  }

  /** The rows that appeared since `before`. */
  function NewIds(before: map<Id, Row>, after: map<Id, Row>): set<Id> {
    set id | id in after && id !in before
  }

  /** Nothing that existed before has changed. */
  predicate OldRowsKept(before: map<Id, Row>, after: map<Id, Row>) {
    forall id :: id in before ==> id in after && after[id] == before[id]
  }

  predicate AllNew(before: map<Id, Row>, after: map<Id, Row>, status: ReceiptStatus) {
    forall id :: id in after && id !in before ==> after[id].status == status
  }

  /** Prepared receipts of this authorization: fresh, distinct, for one body. */
  ghost predicate Batched(before: map<Id, Row>, rows: map<Id, Row>, ids: seq<Id>, body: string) {
    && Distinct(ids) && OldRowsKept(before, rows)
    && (forall id :: id in ids <==> id in rows && id !in before)
    && forall i :: 0 <= i < |ids| ==> rows[ids[i]] == Row(Prepared, body)
  }

  lemma BatchedIsAllowed(before: map<Id, Row>, rows: map<Id, Row>, ids: seq<Id>, body: string, next: ReceiptStatus)
    requires Batched(before, rows, ids, body) && ids != [] && !next.Prepared?
    ensures BatchAllowed(rows, ids, Prepared, next)
    ensures OldRowsKept(before, SetAll(rows, ids, next)) && AllNew(before, SetAll(rows, ids, next), next)
    ensures NewIds(before, SetAll(rows, ids, next)) == set i | 0 <= i < |ids| :: ids[i]
  {
    assert forall i :: 0 <= i < |ids| ==> ids[i] in ids;
    assert forall id :: id in ids ==> id !in before;
  }

  lemma NothingBatched(rows: map<Id, Row>, body: string)
    ensures Batched(rows, rows, [], body)
  {
  }

  lemma BatchedGrows(before: map<Id, Row>, rows: map<Id, Row>, ids: seq<Id>, id: Id, body: string)
    requires Batched(before, rows, ids, body) && id !in rows
    ensures Batched(before, rows[id := Row(Prepared, body)], ids + [id], body)
  {
    assert id !in ids;
    assert forall x :: x in ids + [id] <==> x in ids || x == id;
  }

  lemma BatchedKeeps(before: map<Id, Row>, rows: map<Id, Row>, ids: seq<Id>, body: string)
    requires Batched(before, rows, ids, body)
    ensures OldRowsKept(before, rows) && (ids == [] ==> AllNew(before, rows, Failed))
  {
  }

  /** Outside answers to one authorization: does sealing and inserting the k-th result succeed? */
  datatype Clerk = Clerk(encodes: nat -> bool, seals: nat -> bool, admits: nat -> bool)

  /** A message that carries a tool result out. */
  predicate IsToolResult(m: Message) {
    m.role.Tool? && m.content.ToolReply?
  }

  /** How many tool results a history carries. */
  function ResultCount(messages: seq<Message>): nat {
    if messages == [] then 0
    else ResultCount(messages[..|messages| - 1]) + if IsToolResult(messages[|messages| - 1]) then 1 else 0
  }

  /** Some assistant message asked for the call. */
  predicate IsAsked(messages: seq<Message>, callId: Uuid) {
    exists i, j :: 0 <= i < |messages| && messages[i].role.Assistant? && messages[i].content.CallTools?
                   && 0 <= j < |messages[i].content.calls| && messages[i].content.calls[j].callId == callId
  }

  /** Message `k` gets its receipt, if it needs one: of this snapshot, for a call asked for, with the clerk's help. */
  predicate Admissible(messages: seq<Message>, snapshot: Uuid, clerk: Clerk, k: nat)
    requires k < |messages|
  {
    IsToolResult(messages[k]) ==>
      && messages[k].content.result.snapshotId == snapshot && IsAsked(messages, messages[k].content.result.callId)
      && clerk.encodes(k) && clerk.seals(k) && clerk.admits(k)
  }

  predicate AllAdmissible(messages: seq<Message>, snapshot: Uuid, clerk: Clerk, n: nat)
    requires n <= |messages|
  {
    forall k :: 0 <= k < n ==> Admissible(messages, snapshot, clerk, k)
  }

  /** Message `k` is the first that gets no receipt, and this is why. */
  predicate FirstRefused(messages: seq<Message>, snapshot: Uuid, clerk: Clerk, k: nat, code: string) {
    && k < |messages| && AllAdmissible(messages, snapshot, clerk, k) && IsToolResult(messages[k])
    && var result := messages[k].content.result;
       if result.snapshotId != snapshot then code == "TOOL_EGRESS_SNAPSHOT_MISMATCH"
       else if !IsAsked(messages, result.callId) then code == "TOOL_EGRESS_CALL_MISSING"
       else if !clerk.encodes(k) then code == "TOOL_EGRESS_PAYLOAD_ENCODE_FAILED"
       else if !clerk.seals(k) then code == "TOOL_EGRESS_SCOPE_MISMATCH"
       else !clerk.admits(k) && code == "TOOL_EGRESS_RECEIPT_INSERT_FAILED"
  }

  /** Why no authorization is given: the first message without a receipt, no result at all, or the lock. */
  ghost predicate AuthorizationFails(messages: seq<Message>, snapshot: Uuid, clerk: Clerk, lockPoisoned: bool, code: string) {
    || (exists k :: FirstRefused(messages, snapshot, clerk, k, code))
    || (AllAdmissible(messages, snapshot, clerk, |messages|)
        && if ResultCount(messages) == 0 then code == "TOOL_EGRESS_RESULT_REQUIRED"
           else lockPoisoned && code == "TOOL_EGRESS_LOCK_FAILED")
  }

  lemma AdmissibleStep(messages: seq<Message>, snapshot: Uuid, clerk: Clerk, k: nat)
    requires k < |messages| && AllAdmissible(messages, snapshot, clerk, k)
    requires IsToolResult(messages[k]) ==>
      && messages[k].content.result.snapshotId == snapshot && IsAsked(messages, messages[k].content.result.callId)
      && clerk.encodes(k) && clerk.seals(k) && clerk.admits(k)
    ensures AllAdmissible(messages, snapshot, clerk, k + 1)
  {
    hide IsAsked;
  }

  lemma FailsAsAWhole(messages: seq<Message>, snapshot: Uuid, clerk: Clerk, lockPoisoned: bool, code: string)
    requires AllAdmissible(messages, snapshot, clerk, |messages|)
    requires if ResultCount(messages) == 0 then code == "TOOL_EGRESS_RESULT_REQUIRED" else lockPoisoned && code == "TOOL_EGRESS_LOCK_FAILED"
    ensures AuthorizationFails(messages, snapshot, clerk, lockPoisoned, code)
  {
    hide AllAdmissible, ResultCount;
  }

  lemma RefusedFails(messages: seq<Message>, snapshot: Uuid, clerk: Clerk, lockPoisoned: bool, k: nat, code: string)
    requires FirstRefused(messages, snapshot, clerk, k, code)
    ensures AuthorizationFails(messages, snapshot, clerk, lockPoisoned, code)
    ensures !AllAdmissible(messages, snapshot, clerk, |messages|)
  {
    assert !Admissible(messages, snapshot, clerk, k);
  }

  /** The ids of the calls assistant messages asked for. */
  function AskedIds(messages: seq<Message>): set<Uuid> {
    if messages == [] then {}
    else
      var last := messages[|messages| - 1];
      AskedIds(messages[..|messages| - 1]) +
      if last.role.Assistant? && last.content.CallTools? then set j | 0 <= j < |last.content.calls| :: last.content.calls[j].callId else {}
  }

  lemma {:induction false} AskedIdsAre(messages: seq<Message>, id: Uuid)
    ensures id in AskedIds(messages) <==> IsAsked(messages, id)
  {
    if messages != [] {
      var before := messages[..|messages| - 1];
      AskedIdsAre(before, id);
      if IsAsked(before, id) {
        var i, j :| 0 <= i < |before| && before[i].role.Assistant? && before[i].content.CallTools?
                    && 0 <= j < |before[i].content.calls| && before[i].content.calls[j].callId == id;
        assert messages[i] == before[i];
      }
    }
  }

  lemma NoResultsYet(messages: seq<Message>, snapshot: Uuid, clerk: Clerk)
    ensures ResultCount(messages[..0]) == 0 && AllAdmissible(messages, snapshot, clerk, 0)
  {
  }

  lemma ResultCountStep(messages: seq<Message>, k: nat)
    requires k < |messages|
    ensures ResultCount(messages[..k + 1]) == ResultCount(messages[..k]) + if IsToolResult(messages[k]) then 1 else 0
  {
    assert messages[..k + 1][..k] == messages[..k];
  }

  lemma {:induction false} KnownIsCalled(messages: seq<Message>, id: Uuid) returns (i: nat)
    requires id in AgentWire.KnownIds(messages)
    ensures i < |messages| && messages[i].content.CallTools? && id in AgentWire.CallIds(messages[i].content.calls)
  {
    var last := |messages| - 1;
    if messages[last].content.CallTools? && id in AgentWire.CallIds(messages[last].content.calls) {
      i := last;
    } else {
      i := KnownIsCalled(messages[..last], id);
    }
  }

  /** In a well-paired history every result answers a call that was asked for. */
  lemma WellPairedIsAsked(messages: seq<Message>, k: nat)
    requires WellPaired(messages) && k < |messages| && messages[k].content.ToolReply?
    ensures IsAsked(messages, messages[k].content.result.callId)
  {
    hide WellPaired;
    AgentWire.WellPairedFits(messages, k);
    var i := KnownIsCalled(messages[..k], messages[k].content.result.callId);
    AgentWire.WellPairedFits(messages, i);
    assert messages[i] == messages[..k][i];
  }

  class Gate {
    const store: ReceiptStore
    var receiptIds: seq<Id>
    var revoked: bool
    var lockPoisoned: bool

    constructor (store: ReceiptStore)
      ensures this.store == store && receiptIds == [] && !revoked && !lockPoisoned
    {
      this.store := store;
      receiptIds, revoked, lockPoisoned := [], false, false;
    }

    method CheckAuthorized() returns (ok: bool)
      requires store.Valid()
      modifies store`consentRevoked
      ensures store.Valid() && ok == !revoked
      ensures revoked ==> store.consentRevoked
    {
      if revoked { store.RevokeConsent(); }
      ok := !revoked;
    }

    method FailPrepared(ids: seq<Id>)
      requires store.Valid()
      modifies store`rows, store`log
      ensures store.Valid()
      ensures ids != [] && old(BatchAllowed(store.rows, ids, Prepared, Failed)) ==> store.rows == SetAll(old(store.rows), ids, Failed)
      ensures ids == [] ==> store.rows == old(store.rows)
    {
      if ids != [] { var _ := store.CompareAndSetBatch(ids, Prepared, Failed); }
    }

    /** Settles a partial authorization: everything it prepared becomes Failed. */
    method Abandon(ids: seq<Id>, ghost before: map<Id, Row>, body: string)
      requires store.Valid() && Batched(before, store.rows, ids, body)
      modifies store`rows, store`log
      ensures store.Valid() && OldRowsKept(before, store.rows) && AllNew(before, store.rows, Failed)
    {
      if ids != [] { BatchedIsAllowed(before, store.rows, ids, body, Failed); }
      FailPrepared(ids);
    }

    /**
     Prepares one receipt per tool result of the request. On success all of them are Prepared and
     noted; on any failure midway, those already prepared have become Failed.
     */
    method AuthorizeExactBody(messages: seq<Message>, snapshot: Uuid, body: string, clerk: Clerk) returns (r: Result<seq<Id>>)
      requires store.Valid()
      modifies this`receiptIds, store`rows, store`log, store`nextId
      ensures store.Valid() && OldRowsKept(old(store.rows), store.rows)
      ensures r.Ok? ==> Batched(old(store.rows), store.rows, r.value, body) && r.value != []
      ensures r.Ok? ==> receiptIds == old(receiptIds) + r.value
      ensures r.Err? ==> AllNew(old(store.rows), store.rows, Failed) && receiptIds == old(receiptIds)
      ensures r.Ok? <==> AllAdmissible(messages, snapshot, clerk, |messages|) && ResultCount(messages) > 0 && !lockPoisoned
      ensures r.Ok? ==> |r.value| == ResultCount(messages)
      ensures r.Err? ==> AuthorizationFails(messages, snapshot, clerk, lockPoisoned, r.code)
      ensures WellPaired(messages) ==> r != Err("TOOL_EGRESS_CALL_MISSING")
    {
      hide WellPaired, IsAsked, ResultCount, Admissible, AllAdmissible, AuthorizationFails, Batched, OldRowsKept, AllNew, LogAgrees;
      ghost var before := store.rows;
      var known := AskedIds(messages);
      NoResultsYet(messages, snapshot, clerk);
      NothingBatched(before, body);
      var prepared: seq<Id> := [];
      var k := 0;
      while k < |messages|
        invariant 0 <= k <= |messages| && store.Valid() && receiptIds == old(receiptIds)
        invariant Batched(before, store.rows, prepared, body)
        invariant AllAdmissible(messages, snapshot, clerk, k) && |prepared| == ResultCount(messages[..k])
      {
        var m := messages[k];
        ResultCountStep(messages, k);
        if m.role.Tool? && m.content.ToolReply? {
          AskedIdsAre(messages, m.content.result.callId);
          if m.content.result.snapshotId != snapshot {
            RefusedFails(messages, snapshot, clerk, lockPoisoned, k, "TOOL_EGRESS_SNAPSHOT_MISMATCH");
            Abandon(prepared, before, body);
            return Err("TOOL_EGRESS_SNAPSHOT_MISMATCH");
          }
          if m.content.result.callId !in known {
            if WellPaired(messages) { WellPairedIsAsked(messages, k); }
            RefusedFails(messages, snapshot, clerk, lockPoisoned, k, "TOOL_EGRESS_CALL_MISSING");
            Abandon(prepared, before, body);
            return Err("TOOL_EGRESS_CALL_MISSING");
          }
          if !clerk.encodes(k) {
            RefusedFails(messages, snapshot, clerk, lockPoisoned, k, "TOOL_EGRESS_PAYLOAD_ENCODE_FAILED");
            Abandon(prepared, before, body);
            return Err("TOOL_EGRESS_PAYLOAD_ENCODE_FAILED");
          }
          if !clerk.seals(k) {
            RefusedFails(messages, snapshot, clerk, lockPoisoned, k, "TOOL_EGRESS_SCOPE_MISMATCH");
            Abandon(prepared, before, body);
            return Err("TOOL_EGRESS_SCOPE_MISMATCH");
          }
          ghost var rows := store.rows;
          var id := store.FreshId();
          var stored := store.Prepare(id, Prepared, body, clerk.admits(k));
          if !stored {
            RefusedFails(messages, snapshot, clerk, lockPoisoned, k, "TOOL_EGRESS_RECEIPT_INSERT_FAILED");
            Abandon(prepared, before, body);
            return Err("TOOL_EGRESS_RECEIPT_INSERT_FAILED");
          }
          BatchedGrows(before, rows, prepared, id, body);
          prepared := prepared + [id];
        }
        AdmissibleStep(messages, snapshot, clerk, k);
        k := k + 1;
      }
      assert messages[..k] == messages;
      BatchedKeeps(before, store.rows, prepared, body);
      if prepared == [] {
        FailsAsAWhole(messages, snapshot, clerk, lockPoisoned, "TOOL_EGRESS_RESULT_REQUIRED");
        return Err("TOOL_EGRESS_RESULT_REQUIRED");
      }
      if lockPoisoned {
        FailsAsAWhole(messages, snapshot, clerk, lockPoisoned, "TOOL_EGRESS_LOCK_FAILED");
        Abandon(prepared, before, body);
        return Err("TOOL_EGRESS_LOCK_FAILED");
      }
      receiptIds := receiptIds + prepared;
      return Ok(prepared);
    }

    method Finish(ids: seq<Id>, status: ReceiptStatus) returns (ok: bool)
      requires store.Valid()
      modifies store`rows, store`log, store`consentRevoked
      ensures store.Valid()
      ensures revoked ==> store.consentRevoked
      ensures ok <==> ids == [] || old(BatchAllowed(store.rows, ids, Prepared, status))
      ensures store.rows == if ok && ids != [] then SetAll(old(store.rows), ids, status) else old(store.rows)
      ensures store.log == if ok && ids != [] then old(store.log) + Batch(ids, status) else old(store.log)
    {
      if revoked { store.RevokeConsent(); }
      if ids == [] { return true; }
      ok := store.CompareAndSetBatch(ids, Prepared, status);
    }
  }

  /** The receipts between authorization and outcome; dropping it settles what is still open. */
  class PendingEgress {
    const gate: Gate?
    var ids: seq<Id>

    constructor (gate: Gate?, ids: seq<Id>)
      ensures this.gate == gate && this.ids == ids
    {
      this.gate := gate;
      this.ids := ids;
    }

    method Finish(status: ReceiptStatus) returns (ok: bool)
      requires gate != null ==> gate.store.Valid()
      modifies this`ids, if gate == null then {} else {gate.store}
      ensures gate != null ==> gate.store.Valid() && gate.store.nextId == old(gate.store.nextId)
      ensures ok <==> gate == null || old(ids) == [] || old(BatchAllowed(gate.store.rows, ids, Prepared, status))
      ensures ids == if ok then [] else old(ids)
      ensures gate != null ==>
        gate.store.rows == if ok && old(ids) != [] then SetAll(old(gate.store.rows), old(ids), status) else old(gate.store.rows)
      ensures gate != null ==>
        gate.store.log == if ok && old(ids) != [] then old(gate.store.log) + Batch(old(ids), status) else old(gate.store.log)
    {
      ok := true;
      if ids != [] {
        if gate != null {
          ok := gate.Finish(ids, status);
          if !ok { return; }
        }
        ids := [];
      }
    }

    method Drop()
      requires gate != null ==> gate.store.Valid()
      modifies this`ids, if gate == null then {} else {gate.store}
      ensures gate != null ==> gate.store.Valid() && gate.store.nextId == old(gate.store.nextId)
      ensures gate != null && old(ids) == [] ==> gate.store.rows == old(gate.store.rows) && gate.store.log == old(gate.store.log)
      ensures gate != null && old(ids) != [] && old(BatchAllowed(gate.store.rows, ids, Prepared, OutcomeUnknown)) ==>
        gate.store.rows == SetAll(old(gate.store.rows), old(ids), OutcomeUnknown)
    {
      var _ := Finish(OutcomeUnknown);
    }
  }

  datatype Network = Responded(success: bool) | NetworkError | CancelledInFlight | DroppedInFlight

  /** What happens around one send, in the order the adapter looks. Consent can be revoked before the last check, or in flight. */
  datatype Fate = Fate(
    cancelledEarly: bool, headersValid: bool, revokedMeanwhile: bool, cancelledBeforeSend: bool, revokedInFlight: bool, network: Network)

  datatype Outcome = Outcome(result: Result<()>, sendStarted: bool, responseArrived: bool)

  predicate HasToolResults(messages: seq<Message>) {
    exists k :: 0 <= k < |messages| && messages[k].content.ToolReply?
  }

  /** Where a receipt of an authorized body ends up; `revoked` before this send. Revoking in flight changes nothing about it. */
  function SettledAs(fate: Fate, revoked: bool): ReceiptStatus {
    if !fate.headersValid then OutcomeUnknown
    else if revoked || fate.revokedMeanwhile || fate.cancelledBeforeSend then Failed
    else if fate.network.Responded? then Sent
    else OutcomeUnknown
  }

  /** The status a receipt deserves by what became of the send: a header fault is only noticed when the batch is dropped. */
  predicate Deserves(fate: Fate, outcome: Outcome, status: ReceiptStatus) {
    && (outcome.responseArrived ==> status.Sent?)
    && (outcome.sendStarted && !outcome.responseArrived ==> status.OutcomeUnknown?)
    && (!outcome.sendStarted && fate.headersValid ==> status.Failed?)
    && (!outcome.sendStarted && !fate.headersValid ==> status.OutcomeUnknown?)
  }

  /** From authorization to response: on every way out the pending receipts are settled. */
  method SendAndSettle(pending: PendingEgress, fate: Fate) returns (outcome: Outcome)
    requires pending.gate != null ==> pending.gate.store.Valid()
    requires pending.gate != null && pending.ids != [] ==> BatchAllowed(pending.gate.store.rows, pending.ids, Prepared, Sent)
    modifies pending`ids, if pending.gate == null then {} else {pending.gate, pending.gate.store}
    ensures pending.gate != null ==> pending.gate.store.Valid() && pending.gate.receiptIds == old(pending.gate.receiptIds)
    ensures pending.gate != null ==>
      pending.gate.revoked == (old(pending.gate.revoked) || fate.revokedMeanwhile || (outcome.sendStarted && fate.revokedInFlight))
    ensures pending.gate != null ==>
      pending.gate.store.rows == if old(pending.ids) == [] then old(pending.gate.store.rows)
                                 else SetAll(old(pending.gate.store.rows), old(pending.ids), SettledAs(fate, old(pending.gate.revoked)))
    ensures pending.gate != null && (old(pending.gate.revoked) || fate.revokedMeanwhile) ==> !outcome.sendStarted
    ensures outcome.responseArrived ==> outcome.sendStarted && fate.network.Responded?
    ensures outcome.result.Ok? <==> outcome.responseArrived && fate.network == Responded(true)
    ensures outcome.sendStarted <==>
      && fate.headersValid && !fate.cancelledBeforeSend
      && (pending.gate != null ==> !old(pending.gate.revoked) && !fate.revokedMeanwhile)
    ensures outcome.responseArrived <==> outcome.sendStarted && fate.network.Responded?
    ensures pending.gate != null ==> Deserves(fate, outcome, SettledAs(fate, old(pending.gate.revoked)))
    ensures pending.gate != null && SettledAs(fate, old(pending.gate.revoked)).Sent? ==> outcome.responseArrived
    ensures pending.gate != null && SettledAs(fate, old(pending.gate.revoked)).Failed? ==> !outcome.sendStarted
  {
    var gate := pending.gate;
    if gate != null && fate.revokedMeanwhile { gate.revoked := true; }
    if !fate.headersValid {
      pending.Drop();
      return Outcome(Err("HEADER_INVALID"), false, false);
    }
    if gate != null {
      var allowed := gate.CheckAuthorized();
      if !allowed {
        var _ := pending.Finish(Failed);
        pending.Drop();
        return Outcome(Err("TOOL_EGRESS_CONSENT_REVOKED"), false, false);
      }
    }
    if fate.cancelledBeforeSend {
      var _ := pending.Finish(Failed);
      pending.Drop();
      return Outcome(Err("CANCELLED"), false, false);
    }
    if gate != null && fate.revokedInFlight { gate.revoked := true; }
    match fate.network {
      case CancelledInFlight =>
        var _ := pending.Finish(OutcomeUnknown);
        pending.Drop();
        outcome := Outcome(Err("CANCELLED"), true, false);
      case NetworkError =>
        var _ := pending.Finish(OutcomeUnknown);
        pending.Drop();
        outcome := Outcome(Err("HTTP_SEND_ERROR"), true, false);
      case DroppedInFlight =>
        pending.Drop();
        outcome := Outcome(Err("DROPPED"), true, false);
      case Responded(success) =>
        var _ := pending.Finish(Sent);
        pending.Drop();
        outcome := Outcome(if success then Ok(()) else Err("HTTP_STATUS"), true, true);
    }
  }

  lemma SettledOnce(before: map<Id, Row>, rows: map<Id, Row>, log: Log, status: ReceiptStatus, id: Id)
    requires LogAgrees(rows, log) && AllNew(before, rows, status) && !status.Prepared?
    requires id in NewIds(before, rows)
    ensures rows[id].status == status && Times(log, id) == 1
  {
  }

  /** One new receipt for every tool result: noted, new in the store, and in this state. */
  ghost predicate EachHasReceipt(messages: seq<Message>, before: map<Id, Row>, after: map<Id, Row>, noted0: seq<Id>, noted: seq<Id>, row: Row) {
    && noted0 <= noted && |noted| - |noted0| == ResultCount(messages) && Distinct(noted[|noted0|..])
    && (forall id :: id in noted[|noted0|..] <==> id in after && id !in before)
    && forall id :: id in after && id !in before ==> after[id] == row
  }

  lemma SettledTogether(messages: seq<Message>, before: map<Id, Row>, rows: map<Id, Row>, noted0: seq<Id>, ids: seq<Id>, body: string, status: ReceiptStatus)
    requires Batched(before, rows, ids, body) && |ids| == ResultCount(messages)
    ensures EachHasReceipt(messages, before, SetAll(rows, ids, status), noted0, noted0 + ids, Row(status, body))
  {
    assert (noted0 + ids)[|noted0|..] == ids;
    forall id | id in ids ensures rows[id] == Row(Prepared, body) {
      var i :| 0 <= i < |ids| && ids[i] == id;
    }
  }

  /**
   The adapter from encoded body to response. Every receipt it prepares leaves Prepared exactly
   once; Sent implies a response arrived, Failed implies nothing was sent, and no earlier receipt
   is touched. A request with tool results is never sent without authorized receipts, nor after
   consent was revoked; revoking it in flight leaves the outcome what the network makes it.
   */
  method GuardedSend(gate: Gate?, messages: seq<Message>, snapshot: Uuid, body: string, clerk: Clerk, fate: Fate)
    returns (outcome: Outcome, ghost settled: ReceiptStatus)
    requires gate != null ==> gate.store.Valid()
    modifies if gate == null then {} else {gate, gate.store}
    ensures gate != null ==> gate.store.Valid() && OldRowsKept(old(gate.store.rows), gate.store.rows)
    ensures gate != null ==> AllNew(old(gate.store.rows), gate.store.rows, settled)
    ensures gate != null ==> forall id :: id in NewIds(old(gate.store.rows), gate.store.rows) ==> Times(gate.store.log, id) == 1
    ensures !settled.Prepared?
    ensures settled.Sent? ==> outcome.responseArrived
    ensures settled.Failed? ==> !outcome.sendStarted
    ensures outcome.result.Ok? <==> outcome.responseArrived && fate.network == Responded(true)
    ensures outcome.responseArrived <==> outcome.sendStarted && fate.network.Responded?
    ensures HasToolResults(messages) && outcome.sendStarted ==>
      && gate != null && AllAdmissible(messages, snapshot, clerk, |messages|)
      && EachHasReceipt(messages, old(gate.store.rows), gate.store.rows, old(gate.receiptIds), gate.receiptIds, Row(settled, body))
    ensures outcome.sendStarted <==>
      && !fate.cancelledEarly && fate.headersValid && !fate.cancelledBeforeSend
      && (gate != null ==> !old(gate.revoked) && !fate.revokedMeanwhile)
      && (HasToolResults(messages) ==>
            gate != null && AllAdmissible(messages, snapshot, clerk, |messages|) && ResultCount(messages) > 0 && !old(gate.lockPoisoned))
    ensures gate != null && outcome.sendStarted ==> Deserves(fate, outcome, settled)
    ensures gate != null && NewIds(old(gate.store.rows), gate.store.rows) != {} && settled.OutcomeUnknown? ==>
      !fate.headersValid || (outcome.sendStarted && !outcome.responseArrived)
    ensures gate != null && (old(gate.revoked) || fate.revokedMeanwhile) ==> !outcome.sendStarted
  {
    hide LogAgrees, Times, SetAll, EachHasReceipt, Batched, AllAdmissible, ResultCount;
    settled := Failed;
    if fate.cancelledEarly { return Outcome(Err("CANCELLED"), false, false), Failed; }
    var ids: seq<Id> := [];
    if HasToolResults(messages) {
      if gate == null { return Outcome(Err("TOOL_EGRESS_GATE_REQUIRED"), false, false), Failed; }
      var granted := gate.AuthorizeExactBody(messages, snapshot, body, clerk);
      if granted.Err? {
        forall id | id in NewIds(old(gate.store.rows), gate.store.rows) ensures Times(gate.store.log, id) == 1 {
          SettledOnce(old(gate.store.rows), gate.store.rows, gate.store.log, Failed, id);
        }
        return Outcome(Err(granted.code), false, false), Failed;
      }
      ids := granted.value;
      BatchedIsAllowed(old(gate.store.rows), gate.store.rows, ids, body, Sent);
      BatchedIsAllowed(old(gate.store.rows), gate.store.rows, ids, body, SettledAs(fate, gate.revoked));
      SettledTogether(messages, old(gate.store.rows), gate.store.rows, old(gate.receiptIds), ids, body, SettledAs(fate, gate.revoked));
    }
    var pending := new PendingEgress(gate, ids);
    outcome := SendAndSettle(pending, fate);
    if gate != null {
      settled := SettledAs(fate, old(gate.revoked));
      forall id | id in NewIds(old(gate.store.rows), gate.store.rows) ensures Times(gate.store.log, id) == 1 {
        SettledOnce(old(gate.store.rows), gate.store.rows, gate.store.log, settled, id);
      }
    } else {
      settled := OutcomeUnknown;
    }
  }
}

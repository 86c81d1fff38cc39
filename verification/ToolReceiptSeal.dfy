/** The seal of a tool-egress receipt: a digest over seventeen fixed fields and five per reference. */
module ToolReceiptSeal {
  import opened Wrappers
  import opened Text
  import opened Framing
  import opened Sorting
  import opened AgentTypes
  import opened EgressTypes
  import opened Paths
  import opened ProviderBinding
  import Utf8

  const SEAL_VERSION := "CM_TOOL_EGRESS_V1"

  datatype CanonicalRef = CanonicalRef(path: string, lineStart: nat, lineEnd: nat, contentHash: string, payloadDigest: string)

  /** The order the references are sorted in; the payload digest does not take part. */
  predicate RefLeq(a: CanonicalRef, b: CanonicalRef) {
    if Components(a.path) != Components(b.path) then Lex(ComponentLeq, Components(a.path), Components(b.path))
    else if a.lineStart != b.lineStart then a.lineStart < b.lineStart
    else if a.lineEnd != b.lineEnd then a.lineEnd < b.lineEnd
    else TextLeq(a.contentHash, b.contentHash)
  }

  lemma RefPreorder()
    ensures Preorder(RefLeq)
  {
    hide ComponentLeq, TextLeq, Lex, Components;
    TextOrder();
    forall a, b ensures RefLeq(a, b) || RefLeq(b, a) {
      ComponentsOrder(Components(a.path), Components(b.path), []);
    }
    forall a, b, c | RefLeq(a, b) && RefLeq(b, c) ensures RefLeq(a, c) {
      var x, y, z := Components(a.path), Components(b.path), Components(c.path);
      ComponentsOrder(x, y, z);
      ComponentsOrder(y, z, x);
    }
  }

  // Receipts.

  datatype Receipt = Receipt(
    id: Uuid, sealVersion: string, traceId: Uuid, scopeId: Uuid, conversationId: Uuid, turnId: Uuid, callId: Uuid,
    repositoryId: Uuid, snapshotId: Uuid, toolName: ToolName, refs: seq<CanonicalRef>, binding: Binding,
    payloadDigest: string, bodyDigest: string, canonicalDigest: string, status: ReceiptStatus, preparedAt: int, updatedAt: int)

  function OneRef(r: CanonicalRef): seq<string> {
    [Slashed(Utf8.Lossy(r.path)), Decimal(r.lineStart), Decimal(r.lineEnd), r.contentHash, r.payloadDigest]
  }

  function RefFields(refs: seq<CanonicalRef>): seq<string> {
    if refs == [] then [] else RefFields(refs[..|refs| - 1]) + OneRef(refs[|refs| - 1])
  }

  function FixedFields(r: Receipt): seq<string> {
    [r.sealVersion, UuidText(r.id), UuidText(r.traceId), UuidText(r.scopeId), UuidText(r.conversationId), UuidText(r.turnId),
     UuidText(r.callId), UuidText(r.repositoryId), UuidText(r.snapshotId), WireName(r.toolName), UuidText(r.binding.profileId),
     r.binding.provider, r.binding.endpointIdentity, r.binding.modelId, r.binding.targetDigest, r.payloadDigest, r.bodyDigest]
  }

  function Fields(r: Receipt): seq<string> {
    FixedFields(r) + RefFields(Sort(RefLeq, r.refs))
  }

  function PreImage(r: Receipt): string {
    Frames(Fields(r))
  }

  function Digest(sha: string -> string, r: Receipt): string {
    HexText(sha(PreImage(r)))
  }

  method CanonicalDigest(sha: string -> string, r: Receipt) returns (digest: string)
    ensures digest == Digest(sha, r)
  {
    hide RefLeq, FixedFields, OneRef, HexText;
    var fields := FixedFields(r);
    var refs := Sort(RefLeq, r.refs);
    var k := 0;
    while k < |refs|
      invariant 0 <= k <= |refs| && fields == FixedFields(r) + RefFields(refs[..k])
    {
      assert refs[..k + 1][..k] == refs[..k];
      fields := fields + OneRef(refs[k]);
      k := k + 1;
    }
    assert refs[..k] == refs;
    var canonical := "";
    k := 0;
    while k < |fields|
      invariant 0 <= k <= |fields| && canonical == Frames(fields[..k])
    {
      assert fields[..k + 1] == fields[..k] + [fields[k]];
      FramesSnoc(fields[..k], fields[k]);
      canonical := canonical + Frame(fields[k]);
      k := k + 1;
    }
    assert fields[..k] == fields;
    return HexText(sha(canonical));
  }

  /** A reference leads nowhere outside the repository and says which lines it stands for. */
  predicate RefIsValid(r: CanonicalRef) {
    && Inside(r.path)
    && 0 < r.lineStart <= r.lineEnd && r.contentHash != "" && r.payloadDigest != ""
  }

  predicate RefsAreValid(refs: seq<CanonicalRef>) {
    forall i :: 0 <= i < |refs| ==> RefIsValid(refs[i])
  }

  // Consent.

  datatype ConsentKind = RequestOnce(turnId: Uuid) | RepositorySession

  datatype Scope = Scope(
    id: Uuid, conversationId: Uuid, repositoryId: Uuid, snapshotId: Uuid, binding: Binding, kind: ConsentKind, revokedAt: Option<int>)

  /** `zeroNonce`: the nonce came out as all zero bytes. */
  datatype Capability = Capability(scope: Scope, zeroNonce: bool, revoked: bool)

  datatype Envelope = Envelope(
    traceId: Uuid, conversationId: Uuid, turnId: Uuid, callId: Uuid, repositoryId: Uuid, snapshotId: Uuid,
    toolName: ToolName, refs: seq<CanonicalRef>, binding: Binding, payload: string, body: string)

  /** SHA-256 and the URL library. */
  datatype Library = Library(sha: string -> string, parse: UrlParser)

  function Unsealed(lib: Library, c: Capability, e: Envelope, id: Uuid, now: int): Receipt {
    Receipt(id, SEAL_VERSION, e.traceId, c.scope.id, e.conversationId, e.turnId, e.callId, e.repositoryId, e.snapshotId, e.toolName,
            Sort(RefLeq, e.refs), e.binding, HexText(lib.sha(e.payload)), HexText(lib.sha(e.body)), "", Prepared, now, now)
  }

  function Prepare(lib: Library, c: Capability, e: Envelope, id: Uuid, now: int): Result<Receipt> {
    if c.revoked || c.scope.revokedAt.Some? then Err("TOOL_EGRESS_CONSENT_REVOKED")
    else if c.zeroNonce then Err("TOOL_EGRESS_CAPABILITY_INVALID")
    else if c.scope.conversationId != e.conversationId || c.scope.repositoryId != e.repositoryId
            || c.scope.snapshotId != e.snapshotId || c.scope.binding != e.binding then Err("TOOL_EGRESS_SCOPE_MISMATCH")
    else if c.scope.kind.RequestOnce? && c.scope.kind.turnId != e.turnId then Err("TOOL_EGRESS_TURN_MISMATCH")
    else if !Verifies(lib.sha, lib.parse, e.binding) then Err("EGRESS_VIOLATION")
    else if !RefsAreValid(e.refs) then Err("TOOL_EGRESS_REF_INVALID")
    else
      var receipt := Unsealed(lib, c, e, id, now);
      Ok(receipt.(canonicalDigest := Digest(lib.sha, receipt)))
  }

  function Verify(lib: Library, r: Receipt): Result<()> {
    if r.sealVersion != SEAL_VERSION then Err("TOOL_EGRESS_SEAL_VERSION_INVALID")
    else if !Verifies(lib.sha, lib.parse, r.binding) then Err("EGRESS_VIOLATION")
    else if !RefsAreValid(r.refs) then Err("TOOL_EGRESS_REF_INVALID")
    else if Digest(lib.sha, r) != r.canonicalDigest then Err("TOOL_EGRESS_CANONICAL_DIGEST_MISMATCH")
    else Ok(())
  }

  function VerifyExactBody(lib: Library, r: Receipt, body: string): Result<()> {
    match Verify(lib, r)
    case Err(code) => Err(code)
    case Ok(_) => if HexText(lib.sha(body)) != r.bodyDigest then Err("TOOL_EGRESS_BODY_DIGEST_MISMATCH") else Ok(())
  }

  lemma SameRefsValid(a: seq<CanonicalRef>, b: seq<CanonicalRef>)
    requires multiset(a) == multiset(b) && RefsAreValid(a)
    ensures RefsAreValid(b)
  {
    hide RefIsValid;
    forall i | 0 <= i < |b| ensures RefIsValid(b[i]) {
      assert b[i] in multiset(a);
      var k :| 0 <= k < |a| && a[k] == b[i];
    }
  }

  lemma SortedAreValid(refs: seq<CanonicalRef>)
    requires RefsAreValid(refs)
    ensures RefsAreValid(Sort(RefLeq, refs))
  {
    hide RefIsValid, RefLeq, RefsAreValid;
    RefPreorder();
    SortKeeps(RefLeq, refs);
    SameRefsValid(refs, Sort(RefLeq, refs));
  }

  /** The seal does not cover its own digest, the status or the times. */
  lemma LifeIsNotSealed(sha: string -> string, r: Receipt, digest: string, status: ReceiptStatus, preparedAt: int, updatedAt: int)
    ensures Digest(sha, r.(canonicalDigest := digest, status := status, preparedAt := preparedAt, updatedAt := updatedAt)) == Digest(sha, r)
  {
    hide RefLeq, RefFields, HexText, UuidText, Frames;
  }

  /**
   What was prepared verifies, for its own body, at any later status and time; for a body with another
   digest it does not. Its references are the envelope's, sorted.
   */
  lemma PreparedVerifies(lib: Library, c: Capability, e: Envelope, id: Uuid, now: int, status: ReceiptStatus, prepared: int, updated: int, other: string)
    requires Prepare(lib, c, e, id, now).Ok?
    ensures var r := Prepare(lib, c, e, id, now).value;
      var later := r.(status := status, preparedAt := prepared, updatedAt := updated);
      && r.status.Prepared? && r.bodyDigest == HexText(lib.sha(e.body))
      && Sorted(RefLeq, r.refs) && multiset(r.refs) == multiset(e.refs)
      && Verify(lib, later) == Ok(()) && VerifyExactBody(lib, later, e.body) == Ok(())
      && (HexText(lib.sha(other)) != HexText(lib.sha(e.body)) ==> VerifyExactBody(lib, later, other) == Err("TOOL_EGRESS_BODY_DIGEST_MISMATCH"))
  {
    hide RefLeq, Digest, HexText, Verifies, RefsAreValid;
    RefPreorder();
    SortKeeps(RefLeq, e.refs);
    SortedAreValid(e.refs);
    var u := Unsealed(lib, c, e, id, now);
    LifeIsNotSealed(lib.sha, u, Digest(lib.sha, u), status, prepared, updated);
  }

  /** A live capability whose scope covers the envelope. */
  predicate Covers(c: Capability, e: Envelope) {
    && !c.revoked && c.scope.revokedAt.None? && !c.zeroNonce
    && c.scope.conversationId == e.conversationId && c.scope.repositoryId == e.repositoryId
    && c.scope.snapshotId == e.snapshotId && c.scope.binding == e.binding
    && (c.scope.kind.RequestOnce? ==> c.scope.kind.turnId == e.turnId)
  }

  /** What a receipt is prepared for, and what it says then. */
  lemma PreparedExactly(lib: Library, c: Capability, e: Envelope, id: Uuid, now: int)
    ensures Prepare(lib, c, e, id, now).Ok? <==>
      && !c.revoked && c.scope.revokedAt == None && !c.zeroNonce
      && c.scope.conversationId == e.conversationId && c.scope.repositoryId == e.repositoryId
      && c.scope.snapshotId == e.snapshotId && c.scope.binding == e.binding
      && (c.scope.kind.RequestOnce? ==> c.scope.kind.turnId == e.turnId) && Verifies(lib.sha, lib.parse, e.binding)
      && forall i :: 0 <= i < |e.refs| ==>
           Inside(e.refs[i].path) && 1 <= e.refs[i].lineStart <= e.refs[i].lineEnd && e.refs[i].contentHash != "" && e.refs[i].payloadDigest != ""
    ensures Prepare(lib, c, e, id, now).Ok? ==>
      var r := Prepare(lib, c, e, id, now).value;
      && r.id == id && r.sealVersion == "CM_TOOL_EGRESS_V1" && r.traceId == e.traceId && r.scopeId == c.scope.id
      && r.conversationId == e.conversationId && r.turnId == e.turnId && r.callId == e.callId
      && r.repositoryId == e.repositoryId && r.snapshotId == e.snapshotId && r.toolName == e.toolName && r.binding == e.binding
      && r.payloadDigest == HexText(lib.sha(e.payload)) && r.bodyDigest == HexText(lib.sha(e.body))
      && r.status == Prepared && r.preparedAt == r.updatedAt == now
  {
    hide Verifies, RefLeq, Digest, HexText, Inside;
  }

  /** The checks on preparing are those on verifying: under consent, what is prepared is just what would verify. */
  lemma PreparesWhatVerifies(lib: Library, c: Capability, e: Envelope, id: Uuid, now: int)
    ensures var u := Unsealed(lib, c, e, id, now);
      Prepare(lib, c, e, id, now).Ok? <==> Covers(c, e) && Verify(lib, u.(canonicalDigest := Digest(lib.sha, u))).Ok?
  {
    hide RefLeq, Digest, HexText, Verifies, RefsAreValid;
    var u := Unsealed(lib, c, e, id, now);
    RefPreorder();
    SortKeeps(RefLeq, e.refs);
    if RefsAreValid(e.refs) { SortedAreValid(e.refs); }
    if RefsAreValid(u.refs) { SameRefsValid(u.refs, e.refs); }
    LifeIsNotSealed(lib.sha, u, Digest(lib.sha, u), u.status, u.preparedAt, u.updatedAt);
  }

  // What the seal binds.

  /** A reference as the seal shows it. */
  function ShownRef(r: CanonicalRef): (string, nat, nat, string, string) {
    (Slashed(Utf8.Lossy(r.path)), r.lineStart, r.lineEnd, r.contentHash, r.payloadDigest)
  }

  function ShownRefs(refs: seq<CanonicalRef>): seq<(string, nat, nat, string, string)> {
    seq(|refs|, i requires 0 <= i < |refs| => ShownRef(refs[i]))
  }

  predicate SealedAlike(r: Receipt, s: Receipt) {
    && r.sealVersion == s.sealVersion && r.id == s.id && r.traceId == s.traceId && r.scopeId == s.scopeId
    && r.conversationId == s.conversationId && r.turnId == s.turnId && r.callId == s.callId
    && r.repositoryId == s.repositoryId && r.snapshotId == s.snapshotId && r.toolName == s.toolName
    && r.binding == s.binding && r.payloadDigest == s.payloadDigest && r.bodyDigest == s.bodyDigest
    && ShownRefs(Sort(RefLeq, r.refs)) == ShownRefs(Sort(RefLeq, s.refs))
  }

  lemma WireNameInjective(a: ToolName, b: ToolName)
    requires WireName(a) == WireName(b)
    ensures a == b
  {
    var x, y := WireName(a), WireName(b);
    assert |x| == |y| && x[0] == y[0] && x[7] == y[7];
  }

  lemma FixedFieldsDecode(r: Receipt, s: Receipt)
    requires FixedFields(r) == FixedFields(s)
    ensures SealedAlike(r, s.(refs := r.refs))
  {
    hide UuidText, WireName, RefLeq, ShownRefs;
    var a, b := FixedFields(r), FixedFields(s);
    assert a[0] == b[0] && a[1] == b[1] && a[2] == b[2] && a[3] == b[3] && a[4] == b[4] && a[5] == b[5];
    assert a[6] == b[6] && a[7] == b[7] && a[8] == b[8] && a[9] == b[9] && a[10] == b[10] && a[11] == b[11];
    assert a[12] == b[12] && a[13] == b[13] && a[14] == b[14] && a[15] == b[15] && a[16] == b[16];
    UuidTextInjective(r.id, s.id);
    UuidTextInjective(r.traceId, s.traceId);
    UuidTextInjective(r.scopeId, s.scopeId);
    UuidTextInjective(r.conversationId, s.conversationId);
    UuidTextInjective(r.turnId, s.turnId);
    UuidTextInjective(r.callId, s.callId);
    UuidTextInjective(r.repositoryId, s.repositoryId);
    UuidTextInjective(r.snapshotId, s.snapshotId);
    UuidTextInjective(r.binding.profileId, s.binding.profileId);
    WireNameInjective(r.toolName, s.toolName);
  }

  lemma FixedFieldsSame(r: Receipt, s: Receipt)
    requires SealedAlike(r, s)
    ensures FixedFields(r) == FixedFields(s)
  {
    hide UuidText, WireName, RefLeq, ShownRefs;
  }

  lemma {:induction false} RefFieldsLength(refs: seq<CanonicalRef>)
    ensures |RefFields(refs)| == 5 * |refs|
    decreases |refs|
  {
    if refs != [] { RefFieldsLength(refs[..|refs| - 1]); }
  }

  lemma OneRefDecodes(a: CanonicalRef, b: CanonicalRef)
    ensures OneRef(a) == OneRef(b) <==> ShownRef(a) == ShownRef(b)
  {
    hide Slashed, Utf8.Lossy, Decimal, DecimalValue;
    if OneRef(a) == OneRef(b) {
      var x, y := OneRef(a), OneRef(b);
      assert x[0] == y[0] && x[1] == y[1] && x[2] == y[2] && x[3] == y[3] && x[4] == y[4];
      DecimalRoundTrip(a.lineStart);
      DecimalRoundTrip(b.lineStart);
      DecimalRoundTrip(a.lineEnd);
      DecimalRoundTrip(b.lineEnd);
    }
  }

  /** Groups of five decode uniquely. */
  lemma {:induction false} RefFieldsDecode(a: seq<CanonicalRef>, b: seq<CanonicalRef>)
    ensures RefFields(a) == RefFields(b) <==> ShownRefs(a) == ShownRefs(b)
    decreases |a|
  {
    hide OneRef, ShownRef;
    RefFieldsLength(a);
    RefFieldsLength(b);
    if |a| == |b| && a != [] {
      var n := |a| - 1;
      RefFieldsLength(a[..n]);
      RefFieldsLength(b[..n]);
      RefFieldsDecode(a[..n], b[..n]);
      OneRefDecodes(a[n], b[n]);
      ShownSnoc(a);
      ShownSnoc(b);
      SplitEqual(RefFields(a[..n]), OneRef(a[n]), RefFields(b[..n]), OneRef(b[n]));
      SplitEqual(ShownRefs(a[..n]), [ShownRef(a[n])], ShownRefs(b[..n]), [ShownRef(b[n])]);
    }
  }

  lemma ShownSnoc(a: seq<CanonicalRef>)
    requires a != []
    ensures ShownRefs(a) == ShownRefs(a[..|a| - 1]) + [ShownRef(a[|a| - 1])]
  {
    hide ShownRef;
  }

  lemma SplitEqual<T>(a: seq<T>, b: seq<T>, a': seq<T>, b': seq<T>)
    requires |a| == |a'|
    ensures a + b == a' + b' <==> a == a' && b == b'
  {
    var w, w' := a + b, a' + b';
    assert w[..|a|] == a && w'[..|a|] == a' && w[|a|..] == b && w'[|a|..] == b';
  }

  /** The pre-image decodes uniquely: equal pre-images come from receipts that agree on every sealed field. */
  lemma SealsExactly(r: Receipt, s: Receipt)
    requires Fit(Fields(r)) && Fit(Fields(s))
    ensures PreImage(r) == PreImage(s) <==> SealedAlike(r, s)
  {
    hide FixedFields, RefFields, RefLeq, ShownRefs, Fit;
    RefFieldsDecode(Sort(RefLeq, r.refs), Sort(RefLeq, s.refs));
    FixedLength(r, s);
    SplitEqual(FixedFields(r), RefFields(Sort(RefLeq, r.refs)), FixedFields(s), RefFields(Sort(RefLeq, s.refs)));
    if PreImage(r) == PreImage(s) {
      FramesInjective(Fields(r), Fields(s));
      FixedFieldsDecode(r, s);
    }
    if SealedAlike(r, s) { FixedFieldsSame(r, s); }
  }

  lemma FixedLength(r: Receipt, s: Receipt)
    ensures |FixedFields(r)| == |FixedFields(s)|
  {
    hide UuidText, WireName;
  }

  /** A receipt altered in anything sealed no longer verifies under the same digest, short of a collision. */
  lemma AlterationIsCaught(lib: Library, r: Receipt, s: Receipt)
    ensures
      Fit(Fields(r)) && Fit(Fields(s)) && (Digest(lib.sha, r) == Digest(lib.sha, s) ==> PreImage(r) == PreImage(s))
      && Verify(lib, r).Ok? && s.canonicalDigest == r.canonicalDigest && !SealedAlike(r, s) ==>
      Verify(lib, s).Err?
  {
    hide PreImage, SealedAlike, RefsAreValid, Verifies, HexText, Fit;
    if Fit(Fields(r)) && Fit(Fields(s)) { SealsExactly(r, s); }
  }

  /** The order of the references does not matter, except among those the sort key cannot tell apart. */
  lemma OrderDoesNotMatter(r: Receipt, refs: seq<CanonicalRef>)
    requires TiesAgree(RefLeq, r.refs, refs)
    ensures PreImage(r.(refs := refs)) == PreImage(r)
  {
    hide FixedFields, RefFields, RefLeq, Ties;
    RefPreorder();
    SortsAgreeExactly(RefLeq, r.refs, refs);
    FixedFieldsSame(r, r.(refs := refs));
  }

  /** Two references that differ only in the payload digest keep their order, and the seal shows it. */
  lemma TiedReferencesKeepTheirOrder(r: Receipt, a: CanonicalRef, digest: string)
    requires a.payloadDigest != digest
    requires Fit(Fields(r.(refs := [a, a.(payloadDigest := digest)]))) && Fit(Fields(r.(refs := [a.(payloadDigest := digest), a])))
    ensures PreImage(r.(refs := [a, a.(payloadDigest := digest)])) != PreImage(r.(refs := [a.(payloadDigest := digest), a]))
  {
    hide PreImage, RefLeq, Fields, Fit;
    var b := a.(payloadDigest := digest);
    var x, y := [a, b], [b, a];
    TieSorts(a, b);
    TieSorts(b, a);
    SealsExactly(r.(refs := x), r.(refs := y));
    assert ShownRefs(x)[0] != ShownRefs(y)[0];
  }

  lemma TieSorts(a: CanonicalRef, b: CanonicalRef)
    requires b == a.(payloadDigest := b.payloadDigest)
    ensures Sort(RefLeq, [a, b]) == [a, b]
  {
    hide ComponentLeq, TextLeq, Components;
    TextOrder();
    assert RefLeq(a, b);
    assert [a, b][1..] == [b] && [b][1..] == [];
    assert Sort(RefLeq, [b]) == Insert(RefLeq, b, []) == [b];
  }
}

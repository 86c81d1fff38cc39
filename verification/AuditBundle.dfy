/** Acceptance of a model's audit answer: it may cite only what the tool gateway returned this turn. */
module AuditBundle {
  import opened Wrappers
  import opened Text
  import opened AgentTypes
  import opened Bundles
  import Whitespace

  const INVALID := "AUDIT_RESPONSE_INVALID"

  /** The catalog keyed by id: of several source references with one id, the last one. */
  function Catalog(refs: seq<SourceRef>): map<Uuid, SourceRef> {
    if refs == [] then map[] else Catalog(refs[..|refs| - 1])[refs[|refs| - 1].id := refs[|refs| - 1]]
  }

  predicate ClaimOk(claim: Claim, seen: set<Uuid>) {
    && Whitespace.Trim(claim.statement) != ""
    && InUnitRange(claim.confidence)
    && (claim.classification.Unknown? || claim.evidenceIds != [])
    && forall k :: 0 <= k < |claim.evidenceIds| ==> claim.evidenceIds[k] in seen
  }

  predicate ConflictOk(conflict: Conflict, seen: set<Uuid>) {
    && conflict.evidenceIds != [] && Distinct(conflict.evidenceIds)
    && forall k :: 0 <= k < |conflict.evidenceIds| ==> conflict.evidenceIds[k] in seen
  }

  predicate EvidenceOk(bundle: AnswerBundle, refs: seq<SourceRef>) {
    && Distinct(IdsOf(bundle.evidenceMap))
    && forall k :: 0 <= k < |bundle.evidenceMap| ==>
         var ev := bundle.evidenceMap[k]; ev.id in Catalog(refs) && Catalog(refs)[ev.id] == ev
  }

  function CitableIds(bundle: AnswerBundle): set<Uuid> {
    set k | 0 <= k < |bundle.evidenceMap| :: bundle.evidenceMap[k].id
  }

  predicate Acceptable(bundle: AnswerBundle, trace: GroundingTrace) {
    && trace.snapshotId == Some(bundle.snapshotId)
    && Whitespace.Trim(bundle.directAnswer) != ""
    && EvidenceOk(bundle, trace.sourceRefs)
    && (forall k :: 0 <= k < |bundle.claims| ==> ClaimOk(bundle.claims[k], CitableIds(bundle)))
    && (forall k :: 0 <= k < |bundle.conflicts| ==> ConflictOk(bundle.conflicts[k], CitableIds(bundle)))
  }

  function Sealed(show: Confidence -> string, bundle: AnswerBundle, requestId: Uuid): AnswerBundle {
    bundle.(requestId := requestId, rawResponse := None, directAnswer := ComposeVerifiedAnswer(show, bundle.claims))
  }

  /** The decision, as one expression. */
  function Validated(show: Confidence -> string, parsed: Option<AnswerBundle>, requestId: Uuid, trace: Option<GroundingTrace>): Result<AnswerBundle> {
    if trace.Some? && parsed.Some? && Acceptable(parsed.value, trace.value)
    then Ok(Sealed(show, parsed.value, requestId))
    else Err(INVALID)
  }

  method AllDistinct(ids: seq<Uuid>) returns (ok: bool)
    ensures ok <==> Distinct(ids)
  {
    var unique: set<Uuid> := {};
    var k := 0;
    while k < |ids|
      invariant 0 <= k <= |ids| && Distinct(ids[..k])
      invariant unique == set i | 0 <= i < k :: ids[i]
    {
      if ids[k] in unique { return false; }
      unique := unique + {ids[k]};
      k := k + 1;
    }
    assert ids[..k] == ids;
    return true;
  }

  method ValidateAuditBundle(show: Confidence -> string, parsed: Option<AnswerBundle>, requestId: Uuid, trace: Option<GroundingTrace>)
    returns (r: Result<AnswerBundle>)
    ensures r == Validated(show, parsed, requestId, trace)
  {
    if trace.None? || trace.value.snapshotId.None? || parsed.None? { return Err(INVALID); }
    var bundle := parsed.value;
    if bundle.snapshotId != trace.value.snapshotId.value || Whitespace.Trim(bundle.directAnswer) == "" {
      return Err(INVALID);
    }
    var catalog := Catalog(trace.value.sourceRefs);
    var seen: set<Uuid> := {};
    var k := 0;
    while k < |bundle.evidenceMap|
      invariant 0 <= k <= |bundle.evidenceMap|
      invariant seen == set i | 0 <= i < k :: bundle.evidenceMap[i].id
      invariant forall i, j :: 0 <= i < j < k ==> bundle.evidenceMap[i].id != bundle.evidenceMap[j].id
      invariant forall i :: 0 <= i < k ==>
        var ev := bundle.evidenceMap[i]; ev.id in catalog && catalog[ev.id] == ev
    {
      var evidence := bundle.evidenceMap[k];
      if evidence.id in seen {
        var i :| 0 <= i < k && bundle.evidenceMap[i].id == evidence.id;
        assert IdsOf(bundle.evidenceMap)[i] == IdsOf(bundle.evidenceMap)[k];
        return Err(INVALID);
      }
      seen := seen + {evidence.id};
      if evidence.id !in catalog || catalog[evidence.id] != evidence {
        return Err(INVALID);
      }
      k := k + 1;
    }
    assert seen == CitableIds(bundle);
    k := 0;
    while k < |bundle.claims|
      invariant 0 <= k <= |bundle.claims|
      invariant forall i :: 0 <= i < k ==> ClaimOk(bundle.claims[i], seen)
    {
      if !ClaimOk(bundle.claims[k], seen) { return Err(INVALID); }
      k := k + 1;
    }
    k := 0;
    while k < |bundle.conflicts|
      invariant 0 <= k <= |bundle.conflicts|
      invariant forall i :: 0 <= i < k ==> ConflictOk(bundle.conflicts[i], seen)
    {
      var conflict := bundle.conflicts[k];
      var unique := AllDistinct(conflict.evidenceIds);
      if conflict.evidenceIds == [] || !unique || exists i :: 0 <= i < |conflict.evidenceIds| && conflict.evidenceIds[i] !in seen {
        return Err(INVALID);
      }
      k := k + 1;
    }
    return Ok(Sealed(show, bundle, requestId));
  }

  lemma {:induction false} CatalogSound(refs: seq<SourceRef>, id: Uuid)
    ensures id in Catalog(refs) ==> Catalog(refs)[id] in refs && Catalog(refs)[id].id == id
  {
    if refs != [] {
      CatalogSound(refs[..|refs| - 1], id);
    }
  }

  /**
   An accepted bundle cites only what the trace holds: every evidence entry equals a source
   reference of the trace, and every claim that is not Unknown cites at least one of them.
   */
  lemma AcceptedCitesOnlyTheTrace(show: Confidence -> string, parsed: Option<AnswerBundle>, requestId: Uuid, trace: Option<GroundingTrace>)
    requires Validated(show, parsed, requestId, trace).Ok?
    ensures var b := Validated(show, parsed, requestId, trace).value;
      && b.requestId == requestId && b.rawResponse == None
      && trace.value.snapshotId == Some(b.snapshotId)
      && (forall k :: 0 <= k < |b.evidenceMap| ==> b.evidenceMap[k] in trace.value.sourceRefs)
      && (forall c :: 0 <= c < |b.claims| && !b.claims[c].classification.Unknown? ==> b.claims[c].evidenceIds != [])
      && (forall c, k :: 0 <= c < |b.claims| && 0 <= k < |b.claims[c].evidenceIds| ==>
            HasEvidence(b.evidenceMap, b.claims[c].evidenceIds[k]))
  {
    var b := Validated(show, parsed, requestId, trace).value;
    forall k | 0 <= k < |b.evidenceMap| ensures b.evidenceMap[k] in trace.value.sourceRefs {
      CatalogSound(trace.value.sourceRefs, b.evidenceMap[k].id);
      assert parsed.value.evidenceMap[k] == b.evidenceMap[k];
    }
    forall c, k | 0 <= c < |b.claims| && 0 <= k < |b.claims[c].evidenceIds|
      ensures HasEvidence(b.evidenceMap, b.claims[c].evidenceIds[k])
    {
      assert ClaimOk(parsed.value.claims[c], CitableIds(parsed.value));
    }
  }

  /** Position `j` holds the last source reference with its id. */
  predicate LastOfItsId(refs: seq<SourceRef>, j: nat) {
    j < |refs| && forall i :: j < i < |refs| ==> refs[i].id != refs[j].id
  }

  lemma {:induction false} CatalogHoldsTheLast(refs: seq<SourceRef>, id: Uuid)
    ensures forall j :: 0 <= j < |refs| && refs[j].id == id && LastOfItsId(refs, j) ==> id in Catalog(refs) && Catalog(refs)[id] == refs[j]
    ensures id in Catalog(refs) ==> exists j :: 0 <= j < |refs| && refs[j].id == id && LastOfItsId(refs, j) && Catalog(refs)[id] == refs[j]
  {
    if refs != [] {
      var last := |refs| - 1;
      CatalogHoldsTheLast(refs[..last], id);
      if refs[last].id == id {
        assert LastOfItsId(refs, last);
      } else {
        forall j | 0 <= j < last && refs[j].id == id ensures LastOfItsId(refs, j) <==> LastOfItsId(refs[..last], j) {
          assert LastOfItsId(refs[..last], j) ==> forall i :: j < i < last ==> refs[..last][i].id != refs[j].id;
        }
        if id in Catalog(refs[..last]) {
          var j :| 0 <= j < |refs[..last]| && refs[..last][j].id == id && LastOfItsId(refs[..last], j) && Catalog(refs[..last])[id] == refs[..last][j];
          assert LastOfItsId(refs, j);
        }
      }
    }
  }

  ghost predicate IsFound(refs: seq<SourceRef>, ev: SourceRef) {
    exists j :: 0 <= j < |refs| && LastOfItsId(refs, j) && refs[j] == ev
  }

  predicate InCatalog(refs: seq<SourceRef>, ev: SourceRef) {
    ev.id in Catalog(refs) && Catalog(refs)[ev.id] == ev
  }

  /** The evidence map repeats no id and holds source references of the turn, each the last of its id. */
  ghost predicate EvidenceIsFound(evidence: seq<Evidence>, refs: seq<SourceRef>) {
    && (forall i, j :: 0 <= i < j < |evidence| ==> evidence[i].id != evidence[j].id)
    && forall k :: 0 <= k < |evidence| ==> IsFound(refs, evidence[k])
  }

  predicate Cites(bundle: AnswerBundle, ids: seq<Uuid>) {
    forall k :: 0 <= k < |ids| ==> HasEvidence(bundle.evidenceMap, ids[k])
  }

  predicate ClaimStands(bundle: AnswerBundle, claim: Claim) {
    && Whitespace.Trim(claim.statement) != "" && claim.confidence.Finite? && 0.0 <= claim.confidence.value <= 1.0
    && (claim.evidenceIds == [] ==> claim.classification.Unknown?) && Cites(bundle, claim.evidenceIds)
  }

  predicate ConflictStands(bundle: AnswerBundle, conflict: Conflict) {
    && conflict.evidenceIds != [] && Cites(bundle, conflict.evidenceIds)
    && forall i, j :: 0 <= i < j < |conflict.evidenceIds| ==> conflict.evidenceIds[i] != conflict.evidenceIds[j]
  }

  lemma EvidenceFound(bundle: AnswerBundle, refs: seq<SourceRef>)
    ensures EvidenceOk(bundle, refs) <==> EvidenceIsFound(bundle.evidenceMap, refs)
  {
    hide Catalog, LastOfItsId;
    var evidence := bundle.evidenceMap;
    assert forall i :: 0 <= i < |evidence| ==> IdsOf(evidence)[i] == evidence[i].id;
    forall k | 0 <= k < |evidence| ensures InCatalog(refs, evidence[k]) <==> IsFound(refs, evidence[k]) {
      CatalogHoldsTheLast(refs, evidence[k].id);
    }
    assert EvidenceOk(bundle, refs) <==> Distinct(IdsOf(evidence)) && forall k :: 0 <= k < |evidence| ==> InCatalog(refs, evidence[k]);
  }

  lemma IdsAreCited(bundle: AnswerBundle, ids: seq<Uuid>)
    ensures (forall k :: 0 <= k < |ids| ==> ids[k] in CitableIds(bundle)) <==> Cites(bundle, ids)
  {
  }

  lemma ClaimsStand(bundle: AnswerBundle, k: nat)
    requires k < |bundle.claims|
    ensures ClaimOk(bundle.claims[k], CitableIds(bundle)) <==> ClaimStands(bundle, bundle.claims[k])
  {
    hide Cites, CitableIds;
    IdsAreCited(bundle, bundle.claims[k].evidenceIds);
  }

  lemma ConflictsStand(bundle: AnswerBundle, k: nat)
    requires k < |bundle.conflicts|
    ensures ConflictOk(bundle.conflicts[k], CitableIds(bundle)) <==> ConflictStands(bundle, bundle.conflicts[k])
  {
    hide Cites, CitableIds;
    IdsAreCited(bundle, bundle.conflicts[k].evidenceIds);
  }

  /**
   A bundle is accepted exactly when it is of the trace's snapshot, answers something, and everything
   it cites was found in this turn; accepted, only its request id, raw text and answer are replaced.
   */
  lemma AcceptedExactly(show: Confidence -> string, parsed: Option<AnswerBundle>, requestId: Uuid, trace: Option<GroundingTrace>)
    ensures Validated(show, parsed, requestId, trace).Ok? <==> trace.Some? && parsed.Some? && var b := parsed.value;
      && trace.value.snapshotId == Some(b.snapshotId) && Whitespace.Trim(b.directAnswer) != ""
      && EvidenceIsFound(b.evidenceMap, trace.value.sourceRefs)
      && (forall k :: 0 <= k < |b.claims| ==> ClaimStands(b, b.claims[k]))
      && (forall k :: 0 <= k < |b.conflicts| ==> ConflictStands(b, b.conflicts[k]))
    ensures Validated(show, parsed, requestId, trace).Err? ==> Validated(show, parsed, requestId, trace).code == "AUDIT_RESPONSE_INVALID"
    ensures Validated(show, parsed, requestId, trace).Ok? ==>
      var b, r := parsed.value, Validated(show, parsed, requestId, trace).value;
      && r.requestId == requestId && r.rawResponse == None && r.directAnswer == ComposeVerifiedAnswer(show, b.claims)
      && r.snapshotId == b.snapshotId && r.claims == b.claims && r.evidenceMap == b.evidenceMap && r.conflicts == b.conflicts
  {
    hide EvidenceOk, EvidenceIsFound, ClaimOk, ClaimStands, ConflictOk, ConflictStands, CitableIds, ComposeVerifiedAnswer;
    if parsed.Some? && trace.Some? {
      var b := parsed.value;
      EvidenceFound(b, trace.value.sourceRefs);
      forall k | 0 <= k < |b.claims| ensures ClaimOk(b.claims[k], CitableIds(b)) <==> ClaimStands(b, b.claims[k]) { ClaimsStand(b, k); }
      forall k | 0 <= k < |b.conflicts| ensures ConflictOk(b.conflicts[k], CitableIds(b)) <==> ConflictStands(b, b.conflicts[k]) { ConflictsStand(b, k); }
    }
  }
}

/** Answer bundles: claims with citations into an evidence map, and the answer composed from them. */
module Bundles {
  import opened Wrappers
  import opened Text
  import opened AgentTypes

  datatype Classification = Observed | Inferred | Proposed | Conflicting | Unknown

  /** A 32-bit float confidence: a finite value, or one of NaN and the infinities. */
  datatype Confidence = NotFinite | Finite(value: real)

  datatype Claim = Claim(
    id: Uuid, classification: Classification, statement: string,
    confidence: Confidence, evidenceIds: seq<Uuid>, rationale: Option<string>)

  datatype Conflict = Conflict(id: Uuid, sideA: string, sideB: string, evidenceIds: seq<Uuid>)

  /** An evidence entry carries the fields of a source reference. */
  type Evidence = SourceRef

  datatype AnswerBundle = AnswerBundle(
    requestId: Uuid, snapshotId: Uuid, directAnswer: string,
    claims: seq<Claim>, evidenceMap: seq<Evidence>, conflicts: seq<Conflict>, rawResponse: Option<string>)

  predicate InUnitRange(c: Confidence) {
    c.Finite? && 0.0 <= c.value <= 1.0
  }

  predicate HasEvidence(evidence: seq<Evidence>, id: Uuid) {
    exists k :: 0 <= k < |evidence| && evidence[k].id == id
  }

  const NO_VERIFIED_ANSWER := "검증된 근거 기반 답변을 생성할 수 없습니다. 모델 원문은 검증되지 않은 진단 데이터로만 보존되었습니다."

  function Tag(c: Classification): string {
    match c
    case Observed => "OBSERVED"
    case Inferred => "INFERRED"
    case Proposed => "PROPOSED"
    case Conflicting => "CONFLICT"
    case Unknown => ""
  }

  /** The lines of the composed answer: one per claim that is not Unknown. */
  function AnswerLines(show: Confidence -> string, claims: seq<Claim>): seq<string> {
    if claims == [] then []
    else
      var c := claims[0];
      (if c.classification.Unknown? then []
       else ["- [" + Tag(c.classification) + "] " + c.statement + " (신뢰도 " + show(c.confidence) + ", 근거 " + Decimal(|c.evidenceIds|) + "건)"])
      + AnswerLines(show, claims[1..])
  }

  function ComposeVerifiedAnswer(show: Confidence -> string, claims: seq<Claim>): string {
    var lines := AnswerLines(show, claims);
    if lines == [] then NO_VERIFIED_ANSWER else "검증된 주장 기반 답변:\n" + JoinLines(lines)
  }

  lemma {:induction false} AnswerLinesAppend(show: Confidence -> string, a: seq<Claim>, b: seq<Claim>)
    ensures AnswerLines(show, a + b) == AnswerLines(show, a) + AnswerLines(show, b)
  {
    if a == [] {
      assert a + b == b;
    } else {
      assert (a + b)[1..] == a[1..] + b;
      AnswerLinesAppend(show, a[1..], b);
    }
  }

  /** The line of one claim, word for word; an unknown claim has none. */
  lemma AnswerLineOf(show: Confidence -> string, claim: Claim, word: string)
    requires (word == "OBSERVED" && claim.classification.Observed?) || (word == "INFERRED" && claim.classification.Inferred?)
          || (word == "PROPOSED" && claim.classification.Proposed?) || (word == "CONFLICT" && claim.classification.Conflicting?)
          || claim.classification.Unknown?
    ensures AnswerLines(show, [claim]) ==
      if claim.classification.Unknown? then []
      else ["- [" + word + "] " + claim.statement + " (신뢰도 " + show(claim.confidence) + ", 근거 " + Decimal(|claim.evidenceIds|) + "건)"]
  {
    hide Decimal;
    assert AnswerLines(show, [claim][1..]) == [];
  }

  /** The composed answer: a heading and one line per claim that is not unknown, or the sentence for none. */
  lemma AnswerIs(show: Confidence -> string, claims: seq<Claim>)
    ensures (forall k :: 0 <= k < |claims| ==> claims[k].classification.Unknown?) ==>
      ComposeVerifiedAnswer(show, claims) == "검증된 근거 기반 답변을 생성할 수 없습니다. 모델 원문은 검증되지 않은 진단 데이터로만 보존되었습니다."
    ensures (exists k :: 0 <= k < |claims| && !claims[k].classification.Unknown?) ==>
      ComposeVerifiedAnswer(show, claims) == "검증된 주장 기반 답변:\n" + JoinLines(AnswerLines(show, claims))
  {
    LinesOfKnown(show, claims);
  }

  lemma {:induction false} LinesOfKnown(show: Confidence -> string, claims: seq<Claim>)
    ensures AnswerLines(show, claims) == [] <==> forall k :: 0 <= k < |claims| ==> claims[k].classification.Unknown?
  {
    hide Decimal, Tag;
    if claims != [] {
      LinesOfKnown(show, claims[1..]);
      assert claims == [claims[0]] + claims[1..];
    }
  }
}

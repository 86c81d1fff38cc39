/** A user's approval: a receipt for one packet and profile, checked again before anything is sent. */
module Approval {
  import opened Wrappers
  import opened Text
  import opened EgressTypes
  import opened Sorting
  import opened PacketDigest
  import PacketSeal
  import Redaction
  import EntropyRedactor

  datatype Receipt = Receipt(receiptId: Uuid, packetHash: string, snapshotId: Uuid, tokenCount: nat, fileCount: nat, grantedAt: string)

  datatype Approved = Approved(
    receipt: Receipt, packet: EgressPacket, userQuestion: string, snapshotId: Uuid, profile: Profile, digest: string)

  datatype InferenceRequest = InferenceRequest(requestId: Uuid, snapshotId: Uuid, context: string, question: string, profile: Profile)

  /** SHA-256 and Shannon entropy, whose values play no part here. */
  datatype Measures = Measures(sha: string -> string, entropy: string -> real)

  ghost function Seal(m: Measures, p: EgressPacket, f: Profile): EgressPacket {
    p.(packetHash := Digest(m.sha, p, f))
  }

  ghost function Issue(m: Measures, p: EgressPacket, f: Profile, id: Uuid, at: string): Receipt {
    Receipt(id, Digest(m.sha, p, f), p.snapshotId, p.estimatedTokens, |p.includedFiles|, at)
  }

  function PathsOf(refs: seq<FileRef>): seq<Path> {
    seq(|refs|, i requires 0 <= i < |refs| => refs[i].path)
  }

  /** The three lists of paths, sorted and without repetitions, are the same list. */
  ghost predicate SourcesAgree(p: EgressPacket) {
    var files := Dedup(Sort(PathLeq, p.includedFiles));
    files == Dedup(Sort(PathLeq, PathsOf(p.includedRefs))) && files == Dedup(Sort(PathLeq, Walked(p.includedTexts.Keys)))
  }

  lemma ListsAsSets(paths: seq<Path>, set1: set<Path>)
    requires Elements(paths) == set1
    ensures forall x :: x in paths <==> x in set1
  {
    assert forall x :: x in paths ==> exists k :: 0 <= k < |paths| && paths[k] == x;
  }

  /** Comparing the lists compares the sets of paths. */
  lemma SourcesAgreeIsConsistent(p: EgressPacket)
    ensures SourcesAgree(p) <==> ConsistentSources(p)
  {
    hide PathLeq, Sort, Dedup;
    PathOrder();
    var refs, keys := PathsOf(p.includedRefs), Walked(p.includedTexts.Keys);
    SortDedupIsSet(PathLeq, p.includedFiles, refs);
    SortDedupIsSet(PathLeq, p.includedFiles, keys);
    SetsDecide(p.includedFiles, refs);
    SetsDecide(p.includedFiles, keys);
    ElementsOfRefs(p.includedRefs);
    ElementsOfWalk(p.includedTexts.Keys);
  }

  lemma SetsDecide(a: seq<Path>, b: seq<Path>)
    ensures (forall x :: x in a <==> x in b) <==> Elements(a) == Elements(b)
  {
    hide Elements;
    ListsAsSets(a, Elements(a));
    ListsAsSets(b, Elements(b));
    if forall x :: x in a <==> x in b { assert forall x :: x in Elements(a) <==> x in Elements(b); }
  }

  lemma ElementsOfRefs(refs: seq<FileRef>)
    ensures Elements(PathsOf(refs)) == RefPaths(refs)
  {
    var paths := PathsOf(refs);
    assert forall k :: 0 <= k < |refs| ==> paths[k] == refs[k].path;
  }

  lemma ElementsOfWalk(keys: set<Path>)
    ensures Elements(Walked(keys)) == keys
  {
    hide Elements;
    var walked := Walked(keys);
    ListsAsSets(walked, Elements(walked));
    assert forall x :: x in walked <==> x in multiset(walked);
  }

  /** `ApprovedInferenceRequest::new`, check by check. */
  ghost function Approve(m: Measures, receipt: Receipt, p: EgressPacket, question: string, snapshot: Uuid, f: Profile): Result<Approved> {
    var redacted := Redaction.Redacted(m.entropy, question);
    var digest := Digest(m.sha, p, f);
    if redacted != p.redactedQuestion then Err("QUESTION_MISMATCH")
    else if p.snapshotId != snapshot || receipt.snapshotId != p.snapshotId then Err("SNAPSHOT_MISMATCH")
    else if !SourcesAgree(p) then Err("SOURCES_DISAGREE")
    else if digest != p.packetHash then Err("PACKET_ALTERED")
    else if receipt.packetHash != digest then Err("RECEIPT_FOR_ANOTHER_PACKET")
    else if receipt.fileCount != |p.includedFiles| then Err("FILE_COUNT_MISMATCH")
    else if receipt.tokenCount != p.estimatedTokens then Err("TOKEN_COUNT_MISMATCH")
    else Ok(Approved(receipt, p, redacted, snapshot, f, digest))
  }

  ghost predicate Intact(m: Measures, a: Approved) {
    var digest := Digest(m.sha, a.packet, a.profile);
    && a.digest == digest && a.receipt.packetHash == digest && a.packet.packetHash == digest
    && a.packet.snapshotId == a.snapshotId && a.receipt.snapshotId == a.snapshotId
    && a.packet.redactedQuestion == a.userQuestion && SourcesAgree(a.packet)
  }

  ghost function IntoRequest(m: Measures, a: Approved): Result<InferenceRequest> {
    if !Intact(m, a) then Err("INTEGRITY")
    else
      var question := if a.packet.redactedQuestion == "" then Redaction.Redacted(m.entropy, a.userQuestion) else a.packet.redactedQuestion;
      Ok(InferenceRequest(a.receipt.receiptId, a.snapshotId, a.packet.promptContext, question, a.profile))
  }

  /**
   What was approved can be sent, to the approved profile; it carries the packet's own context and
   its redacted question, in which no token run qualifies as a secret.
   */
  lemma ApprovedIsSent(m: Measures, receipt: Receipt, p: EgressPacket, question: string, snapshot: Uuid, f: Profile)
    ensures Approve(m, receipt, p, question, snapshot, f).Ok? ==>
      var a := Approve(m, receipt, p, question, snapshot, f).value;
      && Intact(m, a) && ConsistentSources(p) && EntropyRedactor.NoRunQualifies(m.entropy, p.redactedQuestion)
      && IntoRequest(m, a) == Ok(InferenceRequest(receipt.receiptId, snapshot, p.promptContext, p.redactedQuestion, f))
  {
    hide SourcesAgree, Digest, Redaction.Redacted, EntropyRedactor.NoRunQualifies;
    SourcesAgreeIsConsistent(p);
    Redaction.RedactedIsClean(m.entropy, question);
    Redaction.NothingToRedact(m.entropy);
  }

  /** What approving asks for, and what it keeps of it. */
  lemma ApprovedExactly(m: Measures, receipt: Receipt, p: EgressPacket, question: string, snapshot: Uuid, f: Profile)
    ensures Approve(m, receipt, p, question, snapshot, f).Ok? <==>
      && p.redactedQuestion == Redaction.Redacted(m.entropy, question) && p.snapshotId == receipt.snapshotId == snapshot
      && ConsistentSources(p) && p.packetHash == receipt.packetHash == Digest(m.sha, p, f)
      && receipt.fileCount == |p.includedFiles| && receipt.tokenCount == p.estimatedTokens
    ensures Approve(m, receipt, p, question, snapshot, f).Ok? ==>
      var a := Approve(m, receipt, p, question, snapshot, f).value;
      && a.receipt == receipt && a.packet == p && a.snapshotId == snapshot && a.profile == f
      && a.userQuestion == p.redactedQuestion && a.digest == p.packetHash
  {
    hide SourcesAgree, Digest, Redaction.Redacted, ConsistentSources;
    SourcesAgreeIsConsistent(p);
  }

  /** What was approved is sent exactly when, at that moment, it is still all of one piece. */
  lemma SentExactly(m: Measures, a: Approved)
    ensures IntoRequest(m, a).Ok? <==>
      && a.digest == a.receipt.packetHash == a.packet.packetHash == Digest(m.sha, a.packet, a.profile)
      && a.packet.snapshotId == a.receipt.snapshotId == a.snapshotId
      && a.packet.redactedQuestion == a.userQuestion && ConsistentSources(a.packet)
    ensures IntoRequest(m, a).Ok? ==>
      var r := IntoRequest(m, a).value;
      && r.requestId == a.receipt.receiptId && r.snapshotId == a.snapshotId && r.context == a.packet.promptContext && r.profile == a.profile
      && (a.userQuestion != "" ==> r.question == a.userQuestion)
  {
    hide SourcesAgree, Digest, Redaction.Redacted, ConsistentSources;
    SourcesAgreeIsConsistent(a.packet);
  }

  lemma SealedDigest(m: Measures, p: EgressPacket, f: Profile)
    ensures Digest(m.sha, Seal(m, p, f), f) == Digest(m.sha, p, f)
  {
    hide RefFields, TextFields, TextPaths, Names, Back;
  }

  /** The receipt issued for a sealed packet is accepted exactly when question, snapshot and sources fit. */
  lemma IssuedIsAcceptedExactly(m: Measures, p: EgressPacket, f: Profile, id: Uuid, at: string, question: string, snapshot: Uuid)
    ensures var sealed := Seal(m, p, f);
      Approve(m, Issue(m, sealed, f, id, at), sealed, question, snapshot, f).Ok? <==>
        Redaction.Redacted(m.entropy, question) == p.redactedQuestion && p.snapshotId == snapshot && ConsistentSources(p)
  {
    hide SourcesAgree, Digest, Redaction.Redacted;
    var sealed := Seal(m, p, f);
    SealedDigest(m, p, f);
    SourcesAgreeIsConsistent(sealed);
  }

  /** One receipt approves one packet and one target, up to the order of lists. */
  lemma OneReceiptOnePacket(m: Measures, receipt: Receipt, p: EgressPacket, f: Profile, q: EgressPacket, g: Profile,
                            question: string, question': string, snapshot: Uuid, snapshot': Uuid)
    ensures
      Approve(m, receipt, p, question, snapshot, f).Ok? && Approve(m, receipt, q, question', snapshot', g).Ok?
      && PacketSeal.Representable(m.sha, p, f) && PacketSeal.Representable(m.sha, q, g)
      && PacketSeal.FaithfulPaths(p) && PacketSeal.FaithfulPaths(q)
      && (Digest(m.sha, p, f) == Digest(m.sha, q, g) ==> PreImage(m.sha, p, f) == PreImage(m.sha, q, g)) ==>
      PacketSeal.SealedAlike(m.sha, p, f, q, g)
  {
    hide SourcesAgree, Digest, PreImage, Redaction.Redacted, PacketSeal.Representable, PacketSeal.FaithfulPaths, PacketSeal.SealedAlike;
    if PacketSeal.Representable(m.sha, p, f) && PacketSeal.Representable(m.sha, q, g)
       && PacketSeal.FaithfulPaths(p) && PacketSeal.FaithfulPaths(q) {
      PacketSeal.SealsExactly(m.sha, p, f, q, g);
    }
  }
}

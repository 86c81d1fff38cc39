/** The citation normaliser: rewrites a model's answer bundle until it claims only what it can cite. */
module Citations {
  import opened Wrappers
  import opened Text
  import opened AgentTypes
  import opened Bundles
  import Whitespace

  const MARKER := "[INVALID_CITATION]"
  const NIL: Uuid := 0

  datatype FileRecord = FileRecord(relativePath: string, contentHash: string, lineCount: Option<nat>, textPreview: Option<string>)

  datatype Snapshot = Snapshot(id: Uuid, files: seq<FileRecord>, texts: map<string, string>)

  // Excerpts.

  /** `replace("\r\n", "\n")`. */
  function UnixBreaks(s: string): string {
    if |s| >= 2 && s[0] == '\r' && s[1] == '\n' then "\n" + UnixBreaks(s[2..])
    else if s == "" then ""
    else [s[0]] + UnixBreaks(s[1..])
  }

  lemma UnixBreaksPair(rest: string)
    ensures UnixBreaks("\r\n" + rest) == "\n" + UnixBreaks(rest)
  {
    assert ("\r\n" + rest)[2..] == rest;
  }

  lemma UnixBreaksCons(c: char, rest: string)
    requires c == '\r' && rest != "" ==> rest[0] != '\n'
    ensures UnixBreaks([c] + rest) == [c] + UnixBreaks(rest)
  {
    assert ([c] + rest)[1..] == rest;
  }

  /** A carriage return and line feed become a line feed, wherever they stand. */
  lemma {:induction false} UnixBreaksIs(a: string, b: string)
    ensures UnixBreaks(a + ("\r\n" + b)) == UnixBreaks(a) + ("\n" + UnixBreaks(b))
    decreases |a|
  {
    hide UnixBreaks;
    var rest := "\r\n" + b;
    UnixBreaksPair(b);
    if a == "" {
      NoBreaks();
      assert a + rest == rest && "" + ("\n" + UnixBreaks(b)) == "\n" + UnixBreaks(b);
    } else if |a| >= 2 && a[0] == '\r' && a[1] == '\n' {
      var more := a[2..];
      UnixBreaksIs(more, b);
      UnixBreaksPair(more);
      UnixBreaksPair(more + rest);
      assert a == "\r\n" + more && a + rest == "\r\n" + (more + rest);
      Assoc("\n", UnixBreaks(more), "\n" + UnixBreaks(b));
    } else {
      var more := a[1..];
      UnixBreaksIs(more, b);
      UnixBreaksCons(a[0], more);
      UnixBreaksCons(a[0], more + rest);
      assert a == [a[0]] + more && a + rest == [a[0]] + (more + rest);
      Assoc([a[0]], UnixBreaks(more), "\n" + UnixBreaks(b));
    }
  }

  lemma NoBreaks()
    ensures UnixBreaks("") == ""
  {
  }

  predicate Contains(s: string, part: string) {
    exists i :: 0 <= i <= |s| && part <= s[i..]
  }

  function FirstFile(files: seq<FileRecord>, path: string): Option<FileRecord> {
    if files == [] then None else if files[0].relativePath == path then Some(files[0]) else FirstFile(files[1..], path)
  }

  predicate ExcerptMatches(source: string, lineStart: nat, lineEnd: nat, excerpt: string) {
    var lines := TextLines(source);
    var end := if lineEnd < |lines| then lineEnd else |lines|;
    && Whitespace.Trim(excerpt) != ""
    && 0 < lineStart <= |lines| && lineStart - 1 < end
    && var ranged := UnixBreaks(JoinLines(lines[lineStart - 1..end]));
       var wanted := Whitespace.Trim(UnixBreaks(excerpt));
       Whitespace.Trim(ranged) == wanted || Contains(ranged, wanted)
  }

  predicate CitationValid(ev: Evidence, snap: Snapshot) {
    && (ev.snapshotId == NIL || ev.snapshotId == snap.id)
    && var file := FirstFile(snap.files, ev.relativePath);
       && file.Some? && ev.contentHash == file.value.contentHash
       && ev.lineStart != 0 && ev.lineStart <= ev.lineEnd
       && (file.value.lineCount.Some? ==> ev.lineEnd <= file.value.lineCount.value)
       && var source := if ev.relativePath in snap.texts then Some(snap.texts[ev.relativePath]) else file.value.textPreview;
          source.Some? && ExcerptMatches(source.value, ev.lineStart, ev.lineEnd, ev.excerpt)
  }

  // The pass, as functions.

  function IdCount(evidence: seq<Evidence>, id: Uuid): nat {
    if evidence == [] then 0
    else
      var last := if evidence[|evidence| - 1].id == id then 1 else 0;
      IdCount(evidence[..|evidence| - 1], id) + last
  }

  predicate Sound(evidence: seq<Evidence>, ev: Evidence, snap: Snapshot) {
    IdCount(evidence, ev.id) == 1 && CitationValid(ev, snap)
  }

  function InvalidIds(evidence: seq<Evidence>, snap: Snapshot): set<Uuid> {
    set k | 0 <= k < |evidence| && !Sound(evidence, evidence[k], snap) :: evidence[k].id
  }

  function Marked(excerpt: string): string {
    if MARKER <= excerpt then excerpt else MARKER + " " + excerpt
  }

  function CheckedEvidence(evidence: seq<Evidence>, ev: Evidence, snap: Snapshot): Evidence {
    ev.(snapshotId := snap.id, excerpt := if Sound(evidence, ev, snap) then ev.excerpt else Marked(ev.excerpt))
  }

  function Checked(evidence: seq<Evidence>, snap: Snapshot): seq<Evidence> {
    seq(|evidence|, k requires 0 <= k < |evidence| => CheckedEvidence(evidence, evidence[k], snap))
  }

  /** An id the bundle may cite: it has an entry, and no entry of it was found invalid. */
  predicate Citable(id: Uuid, invalid: set<Uuid>, evidence: seq<Evidence>) {
    id !in invalid && HasEvidence(evidence, id)
  }

  function Kept(ids: seq<Uuid>, invalid: set<Uuid>, evidence: seq<Evidence>): seq<Uuid> {
    if ids == [] then []
    else (if Citable(ids[0], invalid, evidence) then [ids[0]] else []) + Kept(ids[1..], invalid, evidence)
  }

  predicate Increasing(ids: seq<Uuid>) {
    forall i, j :: 0 <= i < j < |ids| ==> ids[i] < ids[j]
  }

  function Inserted(ids: seq<Uuid>, id: Uuid): seq<Uuid> {
    if ids == [] || id < ids[0] then [id] + ids
    else if id == ids[0] then ids
    else [ids[0]] + Inserted(ids[1..], id)
  }

  /** Sorted, with duplicates dropped. */
  function SortedUnique(ids: seq<Uuid>): seq<Uuid> {
    if ids == [] then [] else Inserted(SortedUnique(ids[1..]), ids[0])
  }

  function Reason(invalidConfidence: bool, hasDuplicate: bool, missing: bool): string {
    if invalidConfidence then "INVALID_CONFIDENCE"
    else if hasDuplicate then "DUPLICATE_EVIDENCE"
    else if missing then "EVIDENCE_REQUIRED"
    else "INVALID_CITATION"
  }

  function CheckedClaim(claim: Claim, invalid: set<Uuid>, evidence: seq<Evidence>): Claim {
    var ids := SortedUnique(Kept(claim.evidenceIds, invalid, evidence));
    var hasDuplicate := !Distinct(claim.evidenceIds);
    var hasInvalid := exists k :: 0 <= k < |claim.evidenceIds| && !Citable(claim.evidenceIds[k], invalid, evidence);
    var missing := !claim.classification.Unknown? && ids == [];
    var invalidConfidence := !InUnitRange(claim.confidence);
    if hasInvalid || hasDuplicate || missing || invalidConfidence
    then claim.(evidenceIds := ids, classification := Unknown, confidence := Finite(0.0), rationale := Some(Reason(invalidConfidence, hasDuplicate, missing)))
    else claim.(evidenceIds := ids)
  }

  function CheckedClaims(claims: seq<Claim>, invalid: set<Uuid>, evidence: seq<Evidence>): seq<Claim> {
    seq(|claims|, k requires 0 <= k < |claims| => CheckedClaim(claims[k], invalid, evidence))
  }

  predicate ConflictSound(conflict: Conflict, invalid: set<Uuid>, evidence: seq<Evidence>) {
    && conflict.evidenceIds != [] && Distinct(conflict.evidenceIds)
    && forall k :: 0 <= k < |conflict.evidenceIds| ==> Citable(conflict.evidenceIds[k], invalid, evidence)
  }

  function Retained(conflicts: seq<Conflict>, invalid: set<Uuid>, evidence: seq<Evidence>): seq<Conflict> {
    if conflicts == [] then []
    else
      var last := conflicts[|conflicts| - 1];
      Retained(conflicts[..|conflicts| - 1], invalid, evidence) + if ConflictSound(last, invalid, evidence) then [last] else []
  }

  function Normalized(bundle: AnswerBundle, snap: Snapshot): AnswerBundle {
    var invalid := InvalidIds(bundle.evidenceMap, snap);
    var evidence := Checked(bundle.evidenceMap, snap);
    bundle.(snapshotId := snap.id,
            evidenceMap := evidence,
            claims := CheckedClaims(bundle.claims, invalid, evidence),
            conflicts := Retained(bundle.conflicts, invalid, evidence))
  }

  // The pass, as the source runs it.

  method CountIds(evidence: seq<Evidence>) returns (counts: map<Uuid, nat>)
    ensures forall id :: (if id in counts then counts[id] else 0) == IdCount(evidence, id)
  {
    counts := map[];
    var k := 0;
    while k < |evidence|
      invariant 0 <= k <= |evidence|
      invariant forall id :: (if id in counts then counts[id] else 0) == IdCount(evidence[..k], id)
    {
      var id := evidence[k].id;
      counts := counts[id := (if id in counts then counts[id] else 0) + 1];
      assert evidence[..k + 1][..k] == evidence[..k];
      k := k + 1;
    }
    assert evidence[..k] == evidence;
  }

  predicate AllCitable(ids: seq<Uuid>, invalid: set<Uuid>, evidence: seq<Evidence>) {
    forall k :: 0 <= k < |ids| ==> Citable(ids[k], invalid, evidence)
  }

  lemma AllCitableIs(ids: seq<Uuid>, invalid: set<Uuid>, evidence: seq<Evidence>)
    ensures AllCitable(ids, invalid, evidence) <==> !exists k :: 0 <= k < |ids| && !Citable(ids[k], invalid, evidence)
  {
    hide Citable;
  }

  lemma NothingToCite(ids: seq<Uuid>, invalid: set<Uuid>, evidence: seq<Evidence>)
    requires ids == []
    ensures AllCitable(ids, invalid, evidence) && Kept(ids, invalid, evidence) == []
  {
  }

  lemma AllCitableStep(ids: seq<Uuid>, invalid: set<Uuid>, evidence: seq<Evidence>, k: nat)
    requires k < |ids|
    ensures AllCitable(ids[..k + 1], invalid, evidence) <==> AllCitable(ids[..k], invalid, evidence) && Citable(ids[k], invalid, evidence)
  {
    hide Citable;
    assert ids[..k + 1] == ids[..k] + [ids[k]];
  }

  method ScanIds(ids: seq<Uuid>, invalid: set<Uuid>, evidence: seq<Evidence>)
    returns (kept: seq<Uuid>, hasDuplicate: bool, hasInvalid: bool)
    ensures kept == Kept(ids, invalid, evidence)
    ensures hasDuplicate <==> !Distinct(ids)
    ensures hasInvalid <==> exists k :: 0 <= k < |ids| && !Citable(ids[k], invalid, evidence)
  {
    hide Citable, Distinct, Kept, AllCitable;
    var seen: set<Uuid> := {};
    kept, hasDuplicate, hasInvalid := [], false, false;
    var k := 0;
    NoneDistinct(ids);
    NothingToCite(ids[..0], invalid, evidence);
    assert [] + Kept(ids, invalid, evidence) == Kept(ids, invalid, evidence);
    while k < |ids|
      invariant 0 <= k <= |ids|
      invariant forall x :: x in seen <==> x in ids[..k]
      invariant hasDuplicate <==> !Distinct(ids[..k])
      invariant hasInvalid <==> !AllCitable(ids[..k], invalid, evidence)
      invariant kept + Kept(ids[k..], invalid, evidence) == Kept(ids, invalid, evidence)
    {
      DistinctStep(ids, k);
      AllCitableStep(ids, invalid, evidence, k);
      KeptStep(kept, ids, invalid, evidence, k);
      MemberStep(ids, k);
      if ids[k] in seen { hasDuplicate := true; }
      seen := seen + {ids[k]};
      if Citable(ids[k], invalid, evidence) {
        kept := kept + [ids[k]];
      } else {
        hasInvalid := true;
      }
      k := k + 1;
    }
    assert ids[..k] == ids && ids[k..] == [];
    NothingToCite([], invalid, evidence);
    AllCitableIs(ids, invalid, evidence);
  }

  lemma MemberStep(ids: seq<Uuid>, k: nat)
    requires k < |ids|
    ensures forall x :: x in ids[..k + 1] <==> x in ids[..k] || x == ids[k]
  {
    assert ids[..k + 1] == ids[..k] + [ids[k]];
  }

  lemma KeptStep(kept: seq<Uuid>, ids: seq<Uuid>, invalid: set<Uuid>, evidence: seq<Evidence>, k: nat)
    requires k < |ids|
    ensures kept + Kept(ids[k..], invalid, evidence)
         == (if Citable(ids[k], invalid, evidence) then kept + [ids[k]] else kept) + Kept(ids[k + 1..], invalid, evidence)
  {
    hide Citable;
    assert ids[k..][1..] == ids[k + 1..];
    var later := Kept(ids[k + 1..], invalid, evidence);
    assert kept + ([ids[k]] + later) == kept + [ids[k]] + later && kept + ([] + later) == kept + later;
  }

  lemma NoneDistinct(ids: seq<Uuid>)
    ensures Distinct(ids[..0]) && ids[0..] == ids
  {
  }

  method CheckClaim(claim0: Claim, invalid: set<Uuid>, evidence: seq<Evidence>) returns (claim: Claim)
    ensures claim == CheckedClaim(claim0, invalid, evidence)
  {
    hide Citable, Distinct, InUnitRange, SortedUnique, Kept;
    claim := claim0;
    var kept, hasDuplicate, hasInvalid := ScanIds(claim.evidenceIds, invalid, evidence);
    claim := claim.(evidenceIds := SortedUnique(kept));
    var missing := !claim.classification.Unknown? && claim.evidenceIds == [];
    var invalidConfidence := !InUnitRange(claim.confidence);
    if hasInvalid || hasDuplicate || missing || invalidConfidence {
      claim := claim.(classification := Unknown);
      claim := claim.(confidence := Finite(0.0));
      claim := claim.(rationale := Some(Reason(invalidConfidence, hasDuplicate, missing)));
    }
  }

  lemma DistinctStep(ids: seq<Uuid>, k: nat)
    requires k < |ids|
    ensures Distinct(ids[..k + 1]) <==> Distinct(ids[..k]) && ids[k] !in ids[..k]
  {
    assert forall i :: 0 <= i < k ==> ids[..k + 1][i] == ids[..k][i] == ids[i];
    assert ids[..k + 1][k] == ids[k];
  }

  method ValidateCitations(bundle0: AnswerBundle, snap: Snapshot) returns (bundle: AnswerBundle)
    ensures bundle == Normalized(bundle0, snap) && NormalizesTo(bundle0, snap, bundle)
  {
    hide CitationValid, CheckedClaim, ConflictSound, NormalizesTo;
    NormalizedExactly(bundle0, snap);
    bundle := bundle0.(snapshotId := snap.id);
    var original := bundle0.evidenceMap;
    var counts := CountIds(original);
    var invalid: set<Uuid> := {};
    var k := 0;
    while k < |original|
      invariant 0 <= k <= |original| && bundle == bundle0.(snapshotId := snap.id, evidenceMap := bundle.evidenceMap)
      invariant |bundle.evidenceMap| == |original|
      invariant forall i :: 0 <= i < k ==> bundle.evidenceMap[i] == CheckedEvidence(original, original[i], snap)
      invariant forall i :: k <= i < |original| ==> bundle.evidenceMap[i] == original[i]
      invariant invalid == set i | 0 <= i < k && !Sound(original, original[i], snap) :: original[i].id
    {
      var ev := bundle.evidenceMap[k];
      if (if ev.id in counts then counts[ev.id] else 0) != 1 || !CitationValid(ev, snap) {
        invalid := invalid + {ev.id};
        if !(MARKER <= ev.excerpt) {
          ev := ev.(excerpt := MARKER + " " + ev.excerpt);
        }
      }
      ev := ev.(snapshotId := snap.id);
      bundle := bundle.(evidenceMap := bundle.evidenceMap[k := ev]);
      k := k + 1;
    }
    assert bundle.evidenceMap == Checked(original, snap);
    assert invalid == InvalidIds(original, snap);
    k := 0;
    while k < |bundle.claims|
      invariant 0 <= k <= |bundle.claims| == |bundle0.claims|
      invariant bundle == bundle0.(snapshotId := snap.id, evidenceMap := Checked(original, snap), claims := bundle.claims)
      invariant forall i :: 0 <= i < k ==> bundle.claims[i] == CheckedClaim(bundle0.claims[i], invalid, bundle.evidenceMap)
      invariant forall i :: k <= i < |bundle.claims| ==> bundle.claims[i] == bundle0.claims[i]
    {
      var claim := CheckClaim(bundle.claims[k], invalid, bundle.evidenceMap);
      bundle := bundle.(claims := bundle.claims[k := claim]);
      k := k + 1;
    }
    assert bundle.claims == CheckedClaims(bundle0.claims, invalid, bundle.evidenceMap);
    var retained: seq<Conflict> := [];
    k := 0;
    while k < |bundle.conflicts|
      invariant 0 <= k <= |bundle.conflicts|
      invariant retained == Retained(bundle.conflicts[..k], invalid, bundle.evidenceMap)
    {
      assert bundle.conflicts[..k + 1][..k] == bundle.conflicts[..k];
      if ConflictSound(bundle.conflicts[k], invalid, bundle.evidenceMap) {
        retained := retained + [bundle.conflicts[k]];
      }
      k := k + 1;
    }
    assert bundle.conflicts[..k] == bundle.conflicts;
    bundle := bundle.(conflicts := retained);
  }

  /** Comparing the trimmed range as a whole adds nothing to searching the range. */
  lemma TrimmedIsContained(ranged: string)
    ensures Contains(ranged, Whitespace.Trim(ranged))
  {
    var i := StartOffset(ranged);
    var n := EndPrefix(ranged[i..]);
    assert Whitespace.Trim(ranged) <= ranged[i..];
  }

  lemma {:induction false} StartOffset(s: string) returns (i: nat)
    ensures i <= |s| && Whitespace.TrimStart(s) == s[i..]
  {
    if s != "" && Whitespace.IsWhite(s[0]) {
      var k := StartOffset(s[1..]);
      i := k + 1;
      assert s[1..][k..] == s[i..];
    } else {
      i := 0;
    }
  }

  lemma {:induction false} EndPrefix(s: string) returns (n: nat)
    ensures n <= |s| && Whitespace.TrimEnd(s) == s[..n]
  {
    if s != "" && Whitespace.IsWhite(s[|s| - 1]) {
      n := EndPrefix(s[..|s| - 1]);
      assert s[..|s| - 1][..n] == s[..n];
    } else {
      n := |s|;
    }
  }

  /** A matching excerpt occurs, up to line-break style and outer blanks, within the cited lines. */
  lemma MatchIsVerbatim(source: string, lineStart: nat, lineEnd: nat, excerpt: string)
    requires ExcerptMatches(source, lineStart, lineEnd, excerpt)
    ensures var lines := TextLines(source);
      var end := if lineEnd < |lines| then lineEnd else |lines|;
      && 0 < lineStart <= end
      && Contains(UnixBreaks(JoinLines(lines[lineStart - 1..end])), Whitespace.Trim(UnixBreaks(excerpt)))
  {
    hide TextLines, JoinLines, UnixBreaks, Whitespace.Trim, Contains;
    var lines := TextLines(source);
    var end := if lineEnd < |lines| then lineEnd else |lines|;
    TrimmedIsContained(UnixBreaks(JoinLines(lines[lineStart - 1..end])));
  }

  /** Position `i` holds the first record of a path. */
  predicate FirstRecord(files: seq<FileRecord>, path: string, i: nat) {
    i < |files| && files[i].relativePath == path && forall j :: 0 <= j < i ==> files[j].relativePath != path
  }

  lemma {:induction false} FirstFileIs(files: seq<FileRecord>, path: string)
    ensures forall i: nat :: FirstRecord(files, path, i) ==> FirstFile(files, path) == Some(files[i])
    ensures FirstFile(files, path).Some? ==> exists i: nat :: FirstRecord(files, path, i)
  {
    if files != [] {
      FirstFileIs(files[1..], path);
      if files[0].relativePath == path {
        assert FirstRecord(files, path, 0);
        assert forall i: nat :: i > 0 ==> !FirstRecord(files, path, i);
      } else {
        forall i: nat | FirstRecord(files, path, i) ensures FirstFile(files, path) == Some(files[i]) {
          assert FirstRecord(files[1..], path, i - 1);
        }
        if FirstFile(files, path).Some? {
          var i: nat :| FirstRecord(files[1..], path, i);
          assert forall j :: 0 < j < i + 1 ==> files[j] == files[1..][j - 1];
          assert FirstRecord(files, path, i + 1);
        }
      }
    }
  }

  /** The excerpt is no blank and stands in the cited lines, up to line-break style and outer blanks. */
  predicate Quotes(source: string, lineStart: nat, lineEnd: nat, excerpt: string) {
    var lines := TextLines(source);
    && Whitespace.Trim(excerpt) != "" && 1 <= lineStart <= |lines| && lineStart <= lineEnd
    && Contains(UnixBreaks(JoinLines(lines[lineStart - 1..if lineEnd < |lines| then lineEnd else |lines|])), Whitespace.Trim(UnixBreaks(excerpt)))
  }

  /** An entry that may be cited: of this snapshot, with the file's hash, lines the file has, and words that stand there. */
  ghost predicate ChecksOut(ev: Evidence, snap: Snapshot) {
    && (ev.snapshotId == 0 || ev.snapshotId == snap.id)
    && exists i: nat :: FirstRecord(snap.files, ev.relativePath, i) &&
         var file := snap.files[i];
         && ev.contentHash == file.contentHash && 1 <= ev.lineStart <= ev.lineEnd
         && (file.lineCount.Some? ==> ev.lineEnd <= file.lineCount.value)
         && (if ev.relativePath in snap.texts then Quotes(snap.texts[ev.relativePath], ev.lineStart, ev.lineEnd, ev.excerpt)
             else file.textPreview.Some? && Quotes(file.textPreview.value, ev.lineStart, ev.lineEnd, ev.excerpt))
  }

  lemma QuotesExactly(source: string, lineStart: nat, lineEnd: nat, excerpt: string)
    ensures lineStart <= lineEnd ==> (ExcerptMatches(source, lineStart, lineEnd, excerpt) <==> Quotes(source, lineStart, lineEnd, excerpt))
  {
    hide TextLines, JoinLines, UnixBreaks, Whitespace.Trim, Contains;
    if ExcerptMatches(source, lineStart, lineEnd, excerpt) { MatchIsVerbatim(source, lineStart, lineEnd, excerpt); }
  }

  /** The check passes exactly what checks out. */
  lemma CitationExactly(ev: Evidence, snap: Snapshot)
    ensures CitationValid(ev, snap) <==> ChecksOut(ev, snap)
  {
    hide FirstFile, FirstRecord, Quotes, ExcerptMatches;
    FirstFileIs(snap.files, ev.relativePath);
    forall source: string ensures ev.lineStart <= ev.lineEnd ==>
      (ExcerptMatches(source, ev.lineStart, ev.lineEnd, ev.excerpt) <==> Quotes(source, ev.lineStart, ev.lineEnd, ev.excerpt))
    {
      QuotesExactly(source, ev.lineStart, ev.lineEnd, ev.excerpt);
    }
  }

  /** The only entry of its id, and one that checks out. */
  ghost predicate SoleAndSound(evidence: seq<Evidence>, snap: Snapshot, id: Uuid) {
    exists k :: 0 <= k < |evidence| && evidence[k].id == id && ChecksOut(evidence[k], snap)
                && forall j :: 0 <= j < |evidence| && evidence[j].id == id ==> j == k
  }

  lemma {:induction false} CountedOnce(evidence: seq<Evidence>, id: Uuid)
    ensures IdCount(evidence, id) == 0 <==> !HasEvidence(evidence, id)
    ensures IdCount(evidence, id) == 1 <==>
      HasEvidence(evidence, id) && forall i, j :: 0 <= i < |evidence| && 0 <= j < |evidence| && evidence[i].id == id && evidence[j].id == id ==> i == j
  {
    if evidence != [] {
      var front, last := evidence[..|evidence| - 1], |evidence| - 1;
      CountedOnce(front, id);
      if HasEvidence(front, id) {
        var k :| 0 <= k < |front| && front[k].id == id;
        assert evidence[k].id == id && k != last;
      }
      if HasEvidence(evidence, id) && !HasEvidence(front, id) {
        assert forall k :: 0 <= k < last ==> front[k].id != id;
      }
      assert forall k :: 0 <= k < last ==> front[k] == evidence[k];
    }
  }

  /** An id may be cited exactly when it has one entry, and that one checks out as it was sent. */
  lemma CitableExactly(evidence: seq<Evidence>, snap: Snapshot, id: Uuid)
    ensures Citable(id, InvalidIds(evidence, snap), Checked(evidence, snap)) <==> SoleAndSound(evidence, snap, id)
  {
    hide CitationValid, ChecksOut, IdCount, CheckedEvidence;
    CountedOnce(evidence, id);
    forall k | 0 <= k < |evidence| ensures CitationValid(evidence[k], snap) <==> ChecksOut(evidence[k], snap) {
      CitationExactly(evidence[k], snap);
    }
    CheckedHas(evidence, snap, id);
    if Citable(id, InvalidIds(evidence, snap), Checked(evidence, snap)) {
      var k :| 0 <= k < |evidence| && evidence[k].id == id;
      NotInvalidIsSound(evidence, snap, k);
    }
  }

  lemma CheckedHas(evidence: seq<Evidence>, snap: Snapshot, id: Uuid)
    ensures HasEvidence(Checked(evidence, snap), id) <==> HasEvidence(evidence, id)
  {
    hide Sound;
    assert forall k :: 0 <= k < |evidence| ==> Checked(evidence, snap)[k].id == evidence[k].id;
  }

  /** What normalising leaves of an entry: its place in the snapshot, and a mark on what may not be cited. */
  lemma EntryIsMarked(evidence: seq<Evidence>, snap: Snapshot, k: nat)
    requires k < |evidence|
    ensures var ev, kept := evidence[k], Checked(evidence, snap)[k];
      && |Checked(evidence, snap)| == |evidence| && kept.snapshotId == snap.id
      && kept.id == ev.id && kept.relativePath == ev.relativePath && kept.contentHash == ev.contentHash
      && kept.lineStart == ev.lineStart && kept.lineEnd == ev.lineEnd
      && kept.excerpt ==
           if SoleAndSound(evidence, snap, ev.id) || "[INVALID_CITATION]" <= ev.excerpt then ev.excerpt
           else "[INVALID_CITATION]" + " " + ev.excerpt
  {
    hide CitationValid, ChecksOut, IdCount;
    CountedOnce(evidence, evidence[k].id);
    CitationExactly(evidence[k], snap);
  }

  // Soundness.

  lemma ConsMembers(x: Uuid, xs: seq<Uuid>)
    ensures forall y :: y in [x] + xs <==> y == x || y in xs
  {
  }

  lemma ConsIncreasing(x: Uuid, xs: seq<Uuid>)
    requires Increasing(xs) && forall y :: y in xs ==> x < y
    ensures Increasing([x] + xs)
  {
    assert forall k :: 0 <= k < |xs| ==> xs[k] in xs;
  }

  lemma HeadIsLeast(ids: seq<Uuid>)
    requires Increasing(ids) && ids != []
    ensures Increasing(ids[1..]) && (forall y :: y in ids[1..] ==> ids[0] < y) && ids == [ids[0]] + ids[1..]
  {
  }

  lemma {:induction false} InsertedIncreasing(ids: seq<Uuid>, id: Uuid)
    requires Increasing(ids)
    ensures Increasing(Inserted(ids, id))
    ensures forall x :: x in Inserted(ids, id) <==> x == id || x in ids
  {
    hide Increasing;
    if ids == [] {
      ConsIncreasing(id, ids);
      ConsMembers(id, ids);
    } else {
      HeadIsLeast(ids);
      ConsMembers(ids[0], ids[1..]);
      if id < ids[0] {
        ConsIncreasing(id, ids);
        ConsMembers(id, ids);
      } else if id > ids[0] {
        var r := Inserted(ids[1..], id);
        InsertedIncreasing(ids[1..], id);
        ConsIncreasing(ids[0], r);
        ConsMembers(ids[0], r);
      }
    }
  }

  lemma {:induction false} SortedUniqueIncreasing(ids: seq<Uuid>)
    ensures Increasing(SortedUnique(ids))
    ensures forall x :: x in SortedUnique(ids) <==> x in ids
  {
    if ids != [] {
      SortedUniqueIncreasing(ids[1..]);
      InsertedIncreasing(SortedUnique(ids[1..]), ids[0]);
    }
  }

  lemma {:induction false} SortedUniqueFixed(ids: seq<Uuid>)
    requires Increasing(ids)
    ensures SortedUnique(ids) == ids
  {
    if ids != [] {
      SortedUniqueFixed(ids[1..]);
      assert |ids| > 1 ==> ids[0] < ids[1..][0];
    }
  }

  lemma {:induction false} KeptMembers(ids: seq<Uuid>, invalid: set<Uuid>, evidence: seq<Evidence>)
    ensures forall x :: x in Kept(ids, invalid, evidence) <==> x in ids && Citable(x, invalid, evidence)
    ensures (forall k :: 0 <= k < |ids| ==> Citable(ids[k], invalid, evidence)) ==> Kept(ids, invalid, evidence) == ids
  {
    hide Citable;
    if ids != [] { KeptMembers(ids[1..], invalid, evidence); }
  }

  /** What a checked claim cites: increasing, hence duplicate-free, and citable ids only. */
  lemma ClaimCites(claim: Claim, invalid: set<Uuid>, evidence: seq<Evidence>)
    ensures var c := CheckedClaim(claim, invalid, evidence);
      && Increasing(c.evidenceIds) && (forall k :: 0 <= k < |c.evidenceIds| ==> Citable(c.evidenceIds[k], invalid, evidence))
      && (forall x :: x in c.evidenceIds <==> x in claim.evidenceIds && Citable(x, invalid, evidence))
      && InUnitRange(c.confidence)
      && (!c.classification.Unknown? ==> c.evidenceIds != [])
  {
    hide Citable;
    KeptMembers(claim.evidenceIds, invalid, evidence);
    SortedUniqueIncreasing(Kept(claim.evidenceIds, invalid, evidence));
    var c := CheckedClaim(claim, invalid, evidence);
    assert forall k :: 0 <= k < |c.evidenceIds| ==> c.evidenceIds[k] in c.evidenceIds;
  }

  /** A claim keeps its classification exactly when all it says was in order to begin with. */
  lemma ClaimKeptExactly(claim: Claim, invalid: set<Uuid>, evidence: seq<Evidence>)
    requires !claim.classification.Unknown?
    ensures CheckedClaim(claim, invalid, evidence).classification == claim.classification <==>
      && claim.evidenceIds != [] && Distinct(claim.evidenceIds) && InUnitRange(claim.confidence)
      && forall k :: 0 <= k < |claim.evidenceIds| ==> Citable(claim.evidenceIds[k], invalid, evidence)
  {
    hide Citable;
    ClaimCites(claim, invalid, evidence);
    KeptMembers(claim.evidenceIds, invalid, evidence);
    assert claim.evidenceIds != [] ==> claim.evidenceIds[0] in claim.evidenceIds;
  }

  /** What becomes of a claim: nothing but its citations changes, or it is downgraded under the first reason that holds. */
  lemma ClaimBecomes(claim: Claim, invalid: set<Uuid>, evidence: seq<Evidence>)
    ensures var c := CheckedClaim(claim, invalid, evidence);
      var allCitable := forall k :: 0 <= k < |claim.evidenceIds| ==> Citable(claim.evidenceIds[k], invalid, evidence);
      && c.id == claim.id && c.statement == claim.statement
      && if allCitable && Distinct(claim.evidenceIds) && InUnitRange(claim.confidence) && (claim.evidenceIds == [] ==> claim.classification.Unknown?) then
           c.classification == claim.classification && c.confidence == claim.confidence && c.rationale == claim.rationale
         else
           && c.classification == Unknown && c.confidence == Finite(0.0)
           && c.rationale == Some(if !InUnitRange(claim.confidence) then "INVALID_CONFIDENCE"
                                  else if !Distinct(claim.evidenceIds) then "DUPLICATE_EVIDENCE"
                                  else if !claim.classification.Unknown? && c.evidenceIds == [] then "EVIDENCE_REQUIRED"
                                  else "INVALID_CITATION")
  {
    hide Citable;
    ClaimCites(claim, invalid, evidence);
    KeptMembers(claim.evidenceIds, invalid, evidence);
    assert claim.evidenceIds != [] ==> claim.evidenceIds[0] in claim.evidenceIds;
  }

  lemma {:induction false} CheckedCounts(evidence: seq<Evidence>, checked: seq<Evidence>, id: Uuid)
    requires |checked| == |evidence| && forall k :: 0 <= k < |evidence| ==> checked[k].id == evidence[k].id
    ensures IdCount(checked, id) == IdCount(evidence, id)
  {
    if evidence != [] {
      CheckedCounts(evidence[..|evidence| - 1], checked[..|checked| - 1], id);
    }
  }

  lemma NotInvalidIsSound(evidence: seq<Evidence>, snap: Snapshot, k: nat)
    requires k < |evidence| && evidence[k].id !in InvalidIds(evidence, snap)
    ensures Sound(evidence, evidence[k], snap)
  {
  }

  /** A citable id names exactly one entry; that entry was valid as sent and is valid as kept. */
  lemma CitableIsSound(evidence: seq<Evidence>, snap: Snapshot, id: Uuid) returns (k: nat)
    requires Citable(id, InvalidIds(evidence, snap), Checked(evidence, snap))
    ensures k < |evidence| && evidence[k].id == id && IdCount(Checked(evidence, snap), id) == 1
    ensures CitationValid(evidence[k], snap)
    ensures Checked(evidence, snap)[k] == evidence[k].(snapshotId := snap.id) && CitationValid(Checked(evidence, snap)[k], snap)
  {
    hide ExcerptMatches, FirstFile;
    k :| 0 <= k < |evidence| && Checked(evidence, snap)[k].id == id;
    NotInvalidIsSound(evidence, snap, k);
    CheckedCounts(evidence, Checked(evidence, snap), id);
  }

  ghost predicate AllSound(evidence: seq<Evidence>, snap: Snapshot, ids: seq<Uuid>) {
    forall k :: 0 <= k < |ids| ==> SoleAndSound(evidence, snap, ids[k])
  }

  /** A claim before and after: it cites what it may cite of what it cited, and is kept or downgraded. */
  ghost predicate ClaimNormalized(evidence: seq<Evidence>, snap: Snapshot, was: Claim, now: Claim) {
    && now.id == was.id && now.statement == was.statement && Increasing(now.evidenceIds)
    && (forall x :: x in now.evidenceIds <==> x in was.evidenceIds && SoleAndSound(evidence, snap, x))
    && if AllSound(evidence, snap, was.evidenceIds) && Distinct(was.evidenceIds) && InUnitRange(was.confidence)
          && (was.evidenceIds == [] ==> was.classification.Unknown?)
       then now.classification == was.classification && now.confidence == was.confidence && now.rationale == was.rationale
       else now.classification == Unknown && now.confidence == Finite(0.0) && now.rationale.Some? && now.rationale.value in
              {"INVALID_CONFIDENCE", "DUPLICATE_EVIDENCE", "EVIDENCE_REQUIRED", "INVALID_CITATION"}
  }

  /** A bundle before and after, in terms of which entries of the one sent are sound. */
  ghost predicate NormalizesTo(bundle: AnswerBundle, snap: Snapshot, b: AnswerBundle) {
    var evidence := bundle.evidenceMap;
    && b.requestId == bundle.requestId && b.snapshotId == snap.id && b.directAnswer == bundle.directAnswer && b.rawResponse == bundle.rawResponse
    && |b.evidenceMap| == |evidence| && |b.claims| == |bundle.claims|
    && (forall c :: 0 <= c < |b.claims| ==> ClaimNormalized(evidence, snap, bundle.claims[c], b.claims[c]))
    && (forall x :: x in b.conflicts <==>
          x in bundle.conflicts && x.evidenceIds != [] && Distinct(x.evidenceIds) && AllSound(evidence, snap, x.evidenceIds))
  }

  lemma AllSoundIs(evidence: seq<Evidence>, snap: Snapshot, ids: seq<Uuid>)
    ensures AllSound(evidence, snap, ids) <==> forall k :: 0 <= k < |ids| ==> Citable(ids[k], InvalidIds(evidence, snap), Checked(evidence, snap))
  {
    hide SoleAndSound, Citable;
    forall k | 0 <= k < |ids|
      ensures SoleAndSound(evidence, snap, ids[k]) <==> Citable(ids[k], InvalidIds(evidence, snap), Checked(evidence, snap))
    {
      CitableExactly(evidence, snap, ids[k]);
    }
  }

  lemma ClaimIsNormalized(evidence: seq<Evidence>, snap: Snapshot, claim: Claim)
    ensures ClaimNormalized(evidence, snap, claim, CheckedClaim(claim, InvalidIds(evidence, snap), Checked(evidence, snap)))
  {
    hide SoleAndSound, Citable, CheckedClaim, AllSound, Distinct, InUnitRange;
    var invalid, checked := InvalidIds(evidence, snap), Checked(evidence, snap);
    ClaimCites(claim, invalid, checked);
    ClaimBecomes(claim, invalid, checked);
    AllSoundIs(evidence, snap, claim.evidenceIds);
    forall x ensures Citable(x, invalid, checked) <==> SoleAndSound(evidence, snap, x) {
      CitableExactly(evidence, snap, x);
    }
  }

  lemma {:induction false} RetainedMembers(conflicts: seq<Conflict>, invalid: set<Uuid>, evidence: seq<Evidence>)
    ensures forall x :: x in Retained(conflicts, invalid, evidence) <==> x in conflicts && ConflictSound(x, invalid, evidence)
  {
    hide ConflictSound;
    if conflicts != [] { RetainedMembers(conflicts[..|conflicts| - 1], invalid, evidence); }
  }

  /** What normalising does to a bundle. */
  lemma NormalizedExactly(bundle: AnswerBundle, snap: Snapshot)
    ensures NormalizesTo(bundle, snap, Normalized(bundle, snap))
  {
    hide SoleAndSound, Citable, CheckedClaim, AllSound, ClaimNormalized, Sound, CheckedEvidence, Distinct;
    var invalid, checked := InvalidIds(bundle.evidenceMap, snap), Checked(bundle.evidenceMap, snap);
    forall c | 0 <= c < |bundle.claims|
      ensures ClaimNormalized(bundle.evidenceMap, snap, bundle.claims[c], CheckedClaim(bundle.claims[c], invalid, checked))
    {
      ClaimIsNormalized(bundle.evidenceMap, snap, bundle.claims[c]);
    }
    RetainedMembers(bundle.conflicts, invalid, checked);
    forall x: Conflict
      ensures ConflictSound(x, invalid, checked) <==> x.evidenceIds != [] && Distinct(x.evidenceIds) && AllSound(bundle.evidenceMap, snap, x.evidenceIds)
    {
      AllSoundIs(bundle.evidenceMap, snap, x.evidenceIds);
    }
  }

  lemma KeptIsSound(evidence: seq<Evidence>, snap: Snapshot, id: Uuid)
    requires Citable(id, InvalidIds(evidence, snap), Checked(evidence, snap))
    ensures SoleAndSound(Checked(evidence, snap), snap, id)
  {
    hide CitationValid, ChecksOut, IdCount, Sound;
    var k := CitableIsSound(evidence, snap, id);
    CountedOnce(Checked(evidence, snap), id);
    CitationExactly(Checked(evidence, snap)[k], snap);
  }

  /**
   After normalisation every claim that is not Unknown cites, without duplicates, entries that are
   unique in the evidence map and pass the citation check, with a confidence between 0 and 1; every
   remaining conflict cites such entries too.
   */
  lemma NormalizedIsSound(bundle: AnswerBundle, snap: Snapshot)
    ensures var b := Normalized(bundle, snap);
      && (forall c :: 0 <= c < |b.claims| ==> Distinct(b.claims[c].evidenceIds) && InUnitRange(b.claims[c].confidence))
      && (forall c :: 0 <= c < |b.claims| && !b.claims[c].classification.Unknown? ==> b.claims[c].evidenceIds != [])
      && (forall c, i :: 0 <= c < |b.claims| && 0 <= i < |b.claims[c].evidenceIds| ==> SoundlyCited(b, snap, b.claims[c].evidenceIds[i]))
      && (forall c, i :: 0 <= c < |b.conflicts| && 0 <= i < |b.conflicts[c].evidenceIds| ==> SoundlyCited(b, snap, b.conflicts[c].evidenceIds[i]))
  {
    hide CitationValid, CheckedClaim, SoleAndSound;
    var b := Normalized(bundle, snap);
    var invalid := InvalidIds(bundle.evidenceMap, snap);
    forall c | 0 <= c < |b.claims|
      ensures Distinct(b.claims[c].evidenceIds) && InUnitRange(b.claims[c].confidence)
      ensures !b.claims[c].classification.Unknown? ==> b.claims[c].evidenceIds != []
      ensures forall i :: 0 <= i < |b.claims[c].evidenceIds| ==> SoundlyCited(b, snap, b.claims[c].evidenceIds[i])
    {
      ClaimCites(bundle.claims[c], invalid, b.evidenceMap);
      forall i | 0 <= i < |b.claims[c].evidenceIds| ensures SoundlyCited(b, snap, b.claims[c].evidenceIds[i]) {
        KeptIsSound(bundle.evidenceMap, snap, b.claims[c].evidenceIds[i]);
      }
    }
    forall c, i | 0 <= c < |b.conflicts| && 0 <= i < |b.conflicts[c].evidenceIds|
      ensures SoundlyCited(b, snap, b.conflicts[c].evidenceIds[i])
    {
      RetainedAreSound(bundle.conflicts, invalid, b.evidenceMap);
      assert ConflictSound(b.conflicts[c], invalid, b.evidenceMap);
      KeptIsSound(bundle.evidenceMap, snap, b.conflicts[c].evidenceIds[i]);
    }
  }

  ghost predicate SoundlyCited(b: AnswerBundle, snap: Snapshot, id: Uuid) {
    SoleAndSound(b.evidenceMap, snap, id)
  }

  /** A conflict stays exactly when it cites, without repetition, something, and only what may be cited; the order is kept. */
  lemma {:induction false} RetainedExactly(conflicts: seq<Conflict>, more: Conflict, invalid: set<Uuid>, evidence: seq<Evidence>)
    ensures Retained([], invalid, evidence) == []
    ensures Retained(conflicts + [more], invalid, evidence) == Retained(conflicts, invalid, evidence)
      + if more.evidenceIds != [] && (forall i, j :: 0 <= i < j < |more.evidenceIds| ==> more.evidenceIds[i] != more.evidenceIds[j])
           && (forall k :: 0 <= k < |more.evidenceIds| ==> Citable(more.evidenceIds[k], invalid, evidence))
        then [more] else []
  {
    hide Citable;
    assert (conflicts + [more])[..|conflicts|] == conflicts;
  }

  lemma {:induction false} RetainedAreSound(conflicts: seq<Conflict>, invalid: set<Uuid>, evidence: seq<Evidence>)
    ensures forall c :: 0 <= c < |Retained(conflicts, invalid, evidence)| ==> ConflictSound(Retained(conflicts, invalid, evidence)[c], invalid, evidence)
  {
    hide ConflictSound;
    if conflicts != [] { RetainedAreSound(conflicts[..|conflicts| - 1], invalid, evidence); }
  }

  // Idempotence.

  lemma {:induction false} AllSoundRetained(conflicts: seq<Conflict>, invalid: set<Uuid>, evidence: seq<Evidence>)
    requires forall c :: 0 <= c < |conflicts| ==> ConflictSound(conflicts[c], invalid, evidence)
    ensures Retained(conflicts, invalid, evidence) == conflicts
  {
    hide ConflictSound;
    if conflicts != [] { AllSoundRetained(conflicts[..|conflicts| - 1], invalid, evidence); }
  }

  lemma EvidenceSettled(evidence: seq<Evidence>, snap: Snapshot)
    ensures var once := Checked(evidence, snap);
      && Checked(once, snap) == once
      && InvalidIds(once, snap) <= InvalidIds(evidence, snap)
  {
    var once := Checked(evidence, snap);
    forall k | 0 <= k < |once|
      ensures CheckedEvidence(once, once[k], snap) == once[k]
      ensures !Sound(once, once[k], snap) ==> !Sound(evidence, evidence[k], snap)
    {
      CheckedCounts(evidence, once, evidence[k].id);
      assert MARKER <= MARKER + " " + evidence[k].excerpt;
    }
    forall id | id in InvalidIds(once, snap) ensures id in InvalidIds(evidence, snap) {
      var k :| 0 <= k < |once| && !Sound(once, once[k], snap) && once[k].id == id;
      assert !Sound(evidence, evidence[k], snap);
    }
  }

  lemma FewerInvalid(id: Uuid, invalid: set<Uuid>, fewer: set<Uuid>, evidence: seq<Evidence>)
    requires fewer <= invalid && Citable(id, invalid, evidence)
    ensures Citable(id, fewer, evidence)
  {
  }

  lemma ClaimSettled(claim: Claim, invalid: set<Uuid>, fewer: set<Uuid>, evidence: seq<Evidence>)
    requires fewer <= invalid
    ensures var once := CheckedClaim(claim, invalid, evidence); CheckedClaim(once, fewer, evidence) == once
  {
    hide Citable;
    var once := CheckedClaim(claim, invalid, evidence);
    ClaimCites(claim, invalid, evidence);
    forall k | 0 <= k < |once.evidenceIds| ensures Citable(once.evidenceIds[k], fewer, evidence) {
      FewerInvalid(once.evidenceIds[k], invalid, fewer, evidence);
    }
    KeptMembers(once.evidenceIds, fewer, evidence);
    SortedUniqueFixed(once.evidenceIds);
  }

  /** A second normalisation changes nothing. */
  lemma NormalizedIsIdempotent(bundle: AnswerBundle, snap: Snapshot)
    ensures Normalized(Normalized(bundle, snap), snap) == Normalized(bundle, snap)
  {
    hide CitationValid, Sound, CheckedClaim, ConflictSound, CheckedEvidence;
    var b := Normalized(bundle, snap);
    EvidenceSettled(bundle.evidenceMap, snap);
    var invalid, fewer := InvalidIds(bundle.evidenceMap, snap), InvalidIds(b.evidenceMap, snap);
    forall c | 0 <= c < |b.claims| ensures CheckedClaim(b.claims[c], fewer, b.evidenceMap) == b.claims[c] {
      ClaimSettled(bundle.claims[c], invalid, fewer, b.evidenceMap);
    }
    RetainedAreSound(bundle.conflicts, invalid, b.evidenceMap);
    forall c | 0 <= c < |b.conflicts| ensures ConflictSound(b.conflicts[c], fewer, b.evidenceMap) {
      ConflictSettled(b.conflicts[c], invalid, fewer, b.evidenceMap);
    }
    AllSoundRetained(b.conflicts, fewer, b.evidenceMap);
  }

  lemma ConflictSettled(conflict: Conflict, invalid: set<Uuid>, fewer: set<Uuid>, evidence: seq<Evidence>)
    requires fewer <= invalid && ConflictSound(conflict, invalid, evidence)
    ensures ConflictSound(conflict, fewer, evidence)
  {
  }
}

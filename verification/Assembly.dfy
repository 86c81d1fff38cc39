/** Filling a packet from scored files: who is excluded, who is included, in step with refs and texts. */
module Assembly {
  import opened Wrappers
  import opened Text
  import opened EgressTypes

  const MIN_SCORE: nat := 3
  const MAX_FILES: nat := 8

  /** A file in descending order of score; `body` is its re-read, hash-checked and redacted text. */
  datatype Scored = Scored(path: Path, score: nat, isDocument: bool, isEntryPoint: bool, isSensitive: bool, body: Result<(string, nat)>)

  predicate Refused(f: Scored, userExcluded: seq<Path>) {
    f.path in userExcluded || f.isSensitive || f.score < MIN_SCORE
  }

  predicate Wanted(f: Scored, userExcluded: seq<Path>) {
    !Refused(f, userExcluded) && (f.isDocument || f.isEntryPoint)
  }

  function RefusedPaths(files: seq<Scored>, userExcluded: seq<Path>): seq<Path> {
    if files == [] then []
    else
      var last := files[|files| - 1];
      RefusedPaths(files[..|files| - 1], userExcluded) + if Refused(last, userExcluded) then [last.path] else []
  }

  /** The wanted paths, in order, up to the file limit. */
  function WantedPaths(files: seq<Scored>, userExcluded: seq<Path>): seq<Path> {
    if files == [] then []
    else
      var before := WantedPaths(files[..|files| - 1], userExcluded);
      var last := files[|files| - 1];
      if Wanted(last, userExcluded) && |before| < MAX_FILES then before + [last.path] else before
  }

  /** A file a packet may include: not excluded, not sensitive, scored 3 or more, a document or an entry point. */
  predicate MayInclude(f: Scored, userExcluded: seq<Path>) {
    f.path !in userExcluded && !f.isSensitive && f.score >= 3 && (f.isDocument || f.isEntryPoint)
  }

  /** What is included of a file: a reference to all its lines. */
  predicate ReferredTo(f: Scored, userExcluded: seq<Path>, path: Path, r: FileRef) {
    && f.path == path && MayInclude(f, userExcluded) && f.body.Ok?
    && r == FileRef(path, 1, f.body.value.1, f.body.value.1)
  }

  /** A text is that of some file included under its path. */
  ghost predicate TextIsOf(files: seq<Scored>, userExcluded: seq<Path>, path: Path, text: string) {
    exists k :: 0 <= k < |files| && files[k].path == path && MayInclude(files[k], userExcluded) && files[k].body.Ok? && files[k].body.value.0 == text
  }

  ghost predicate RefIsOf(files: seq<Scored>, userExcluded: seq<Path>, path: Path, r: FileRef) {
    exists k :: 0 <= k < |files| && ReferredTo(files[k], userExcluded, path, r)
  }

  /** What a packet holds of the first files: up to eight of those it may include, and the names of those it must not. */
  ghost predicate Holds(files: seq<Scored>, userExcluded: seq<Path>, included: seq<Path>, refs: seq<FileRef>, texts: map<Path, string>, excluded: seq<Path>) {
    && |refs| == |included| <= 8
    && (forall i :: 0 <= i < |included| ==> RefIsOf(files, userExcluded, included[i], refs[i]))
    && (forall path :: path in texts ==> TextIsOf(files, userExcluded, path, texts[path]))
    && (|included| < 8 ==> forall k :: 0 <= k < |files| && MayInclude(files[k], userExcluded) ==> files[k].path in included)
    && (forall x :: x in excluded <==> exists k :: 0 <= k < |files| && files[k].path == x && (x in userExcluded || files[k].isSensitive || files[k].score < 3))
  }

  lemma HoldsNothing(userExcluded: seq<Path>)
    ensures Holds([], userExcluded, [], [], map[], [])
  {
  }

  lemma Grows(files: seq<Scored>, f: Scored, userExcluded: seq<Path>)
    ensures forall path, r :: RefIsOf(files, userExcluded, path, r) ==> RefIsOf(files + [f], userExcluded, path, r)
    ensures forall path, text :: TextIsOf(files, userExcluded, path, text) ==> TextIsOf(files + [f], userExcluded, path, text)
  {
    var all := files + [f];
    forall path, r | RefIsOf(files, userExcluded, path, r) ensures RefIsOf(all, userExcluded, path, r) {
      var k :| 0 <= k < |files| && ReferredTo(files[k], userExcluded, path, r);
      assert all[k] == files[k];
    }
    forall path, text | TextIsOf(files, userExcluded, path, text) ensures TextIsOf(all, userExcluded, path, text) {
      var k :| 0 <= k < |files| && files[k].path == path && MayInclude(files[k], userExcluded) && files[k].body.Ok? && files[k].body.value.0 == text;
      assert all[k] == files[k];
    }
  }

  lemma HoldsOneMore(files: seq<Scored>, f: Scored, userExcluded: seq<Path>, included: seq<Path>, refs: seq<FileRef>, texts: map<Path, string>, excluded: seq<Path>)
    requires Holds(files, userExcluded, included, refs, texts, excluded)
    ensures Refused(f, userExcluded) ==> Holds(files + [f], userExcluded, included, refs, texts, excluded + [f.path])
    ensures !Refused(f, userExcluded) && (!Wanted(f, userExcluded) || |included| == 8) ==> Holds(files + [f], userExcluded, included, refs, texts, excluded)
    ensures Wanted(f, userExcluded) && |included| < 8 && f.body.Ok? ==>
      var (text, n) := f.body.value;
      Holds(files + [f], userExcluded, included + [f.path], refs + [FileRef(f.path, 1, n, n)], texts[f.path := text], excluded)
  {
    hide RefIsOf, TextIsOf;
    var all := files + [f];
    Grows(files, f, userExcluded);
    assert all[|files|] == f && forall k :: 0 <= k < |files| ==> all[k] == files[k];
    if Wanted(f, userExcluded) && f.body.Ok? { NewIsOf(files, f, userExcluded); }
  }

  lemma NewIsOf(files: seq<Scored>, f: Scored, userExcluded: seq<Path>)
    requires Wanted(f, userExcluded) && f.body.Ok?
    ensures RefIsOf(files + [f], userExcluded, f.path, FileRef(f.path, 1, f.body.value.1, f.body.value.1))
    ensures TextIsOf(files + [f], userExcluded, f.path, f.body.value.0)
  {
    var all := files + [f];
    assert all[|files|] == f && ReferredTo(all[|files|], userExcluded, f.path, FileRef(f.path, 1, f.body.value.1, f.body.value.1));
  }

  lemma PathsSoFar(files: seq<Scored>, userExcluded: seq<Path>)
    ensures WantedPaths(files[..0], userExcluded) == [] && RefusedPaths(files[..0], userExcluded) == []
    ensures Elements([]) == RefPaths([]) == {}
  {
  }

  lemma PathsStep(files: seq<Scored>, userExcluded: seq<Path>, k: nat)
    requires k < |files|
    ensures var before, f := WantedPaths(files[..k], userExcluded), files[k];
      WantedPaths(files[..k + 1], userExcluded) == if Wanted(f, userExcluded) && |before| < MAX_FILES then before + [f.path] else before
    ensures RefusedPaths(files[..k + 1], userExcluded) == RefusedPaths(files[..k], userExcluded) + if Refused(files[k], userExcluded) then [files[k].path] else []
  {
    assert files[..k + 1][..k] == files[..k];
  }

  lemma NothingExcludedIn(included: seq<Path>, userExcluded: seq<Path>)
    requires forall i :: 0 <= i < |included| ==> included[i] !in userExcluded
    ensures forall i :: 0 <= i < |included| ==> included[i] !in Elements(userExcluded)
    ensures forall p: EgressPacket :: p.includedFiles == included ==> AvoidsAll(p, Elements(userExcluded))
  {
    assert forall x :: x in Elements(userExcluded) ==> x in userExcluded;
  }

  method Assemble(base: EgressPacket, files: seq<Scored>, userExcluded: seq<Path>) returns (r: Result<EgressPacket>)
    ensures r.Ok? ==>
      && r.value.includedFiles == WantedPaths(files, userExcluded)
      && r.value.excludedFiles == RefusedPaths(files, userExcluded)
      && ConsistentSources(r.value) && |r.value.includedFiles| <= MAX_FILES
      && AvoidsAll(r.value, Elements(userExcluded))
    ensures r.Ok? ==>
      && Holds(files, userExcluded, r.value.includedFiles, r.value.includedRefs, r.value.includedTexts, r.value.excludedFiles)
      && r.value == base.(includedFiles := r.value.includedFiles, includedRefs := r.value.includedRefs,
                          includedTexts := r.value.includedTexts, excludedFiles := r.value.excludedFiles)
    ensures (forall k :: 0 <= k < |files| ==> files[k].body.Ok?) ==> r.Ok?
  {
    hide Holds, Elements, RefPaths, WantedPaths, RefusedPaths, AvoidsAll;
    PathsSoFar(files, userExcluded);
    var included: seq<Path> := [];
    var refs: seq<FileRef> := [];
    var texts: map<Path, string> := map[];
    var excluded: seq<Path> := [];
    var k := 0;
    HoldsNothing(userExcluded);
    while k < |files|
      invariant 0 <= k <= |files| && |included| <= MAX_FILES
      invariant included == WantedPaths(files[..k], userExcluded) && excluded == RefusedPaths(files[..k], userExcluded)
      invariant Holds(files[..k], userExcluded, included, refs, texts, excluded)
      invariant Elements(included) == RefPaths(refs) == texts.Keys
      invariant forall i :: 0 <= i < |included| ==> included[i] !in userExcluded
    {
      var file := files[k];
      assert files[..k + 1] == files[..k] + [file];
      PathsStep(files, userExcluded, k);
      HoldsOneMore(files[..k], file, userExcluded, included, refs, texts, excluded);
      if file.path in userExcluded {
        excluded := excluded + [file.path];
      } else if file.isSensitive {
        excluded := excluded + [file.path];
      } else if file.score < MIN_SCORE {
        excluded := excluded + [file.path];
      } else if (file.isDocument || file.isEntryPoint) && |included| < MAX_FILES {
        if file.body.Err? { return Err(file.body.code); }
        var (text, lineCount) := file.body.value;
        ElementsSnoc(included, file.path);
        RefPathsSnoc(refs, FileRef(file.path, 1, lineCount, lineCount));
        included := included + [file.path];
        refs := refs + [FileRef(file.path, 1, lineCount, lineCount)];
        texts := texts[file.path := text];
      }
      k := k + 1;
    }
    assert files[..k] == files;
    NothingExcludedIn(included, userExcluded);
    return Ok(base.(includedFiles := included, includedRefs := refs, includedTexts := texts, excludedFiles := excluded));
  }

  lemma ElementsSnoc(paths: seq<Path>, path: Path)
    ensures Elements(paths + [path]) == Elements(paths) + {path}
  {
    var all := paths + [path];
    assert forall k :: 0 <= k < |paths| ==> all[k] == paths[k];
    assert all[|paths|] == path;
  }

  lemma RefPathsSnoc(refs: seq<FileRef>, r: FileRef)
    ensures RefPaths(refs + [r]) == RefPaths(refs) + {r.path}
  {
    var all := refs + [r];
    assert forall k :: 0 <= k < |refs| ==> all[k] == refs[k];
    assert all[|refs|] == r;
  }
}

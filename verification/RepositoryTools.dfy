/** The repository tools: status, listing, searching paths and texts, reading lines, metadata. */
module RepositoryTools {
  import opened Wrappers
  import opened Text
  import opened AgentTypes
  import opened Paths
  import opened ToolJson
  import opened EgressTypes
  import Utf8
  import Redaction
  import Segments
  import EntropyRedactor

  const MAX_READ_LINES: nat := 400

  datatype Found = Found(content: string, refs: seq<SourceRef>, omissions: seq<Omission>)

  predicate IsText(found: Found) {
    Utf8.Valid(found.content) && forall i :: 0 <= i < |found.refs| ==> Utf8.Valid(found.refs[i].excerpt)
  }

  datatype FileKind = SourceCode | Documentation | Manifest | Configuration | Asset | Binary | Other

  datatype FileEntry = FileEntry(path: string, kind: FileKind, size: nat, contentHash: string, isText: bool, lineCount: Option<nat>)

  function ShownPath(f: FileEntry): string {
    Slashed(Utf8.Lossy(f.path))
  }

  lemma ShownPathIsValid(f: FileEntry)
    ensures Utf8.Valid(ShownPath(f))
  {
    hide Utf8.Valid, Utf8.Lossy;
    Utf8.LossyIsValid(f.path);
    Utf8.SwappedIsValid(Utf8.Lossy(f.path), ShownPath(f));
  }

  function Clamp(n: nat, lo: nat, hi: nat): nat {
    if n < lo then lo else if n > hi then hi else n
  }

  /** The shown paths of the wanted files, in order. */
  function Wanted(files: seq<FileEntry>, want: FileEntry -> bool): seq<string> {
    if files == [] then []
    else
      var last := files[|files| - 1];
      Wanted(files[..|files| - 1], want) + if want(last) then [ShownPath(last)] else []
  }

  lemma {:induction false} WantedAreValid(files: seq<FileEntry>, want: FileEntry -> bool)
    ensures forall i :: 0 <= i < |Wanted(files, want)| ==> Utf8.Valid(Wanted(files, want)[i])
  {
    hide Utf8.Valid, ShownPath;
    if files != [] {
      WantedAreValid(files[..|files| - 1], want);
      ShownPathIsValid(files[|files| - 1]);
    }
  }

  function UpTo(paths: seq<string>, limit: nat): (r: seq<string>)
    ensures r <= paths && |r| == (if |paths| < limit then |paths| else limit)
  {
    if |paths| < limit then paths else paths[..limit]
  }

  function LeftOver(omitted: nat, detail: string): seq<Omission> {
    if omitted == 0 then [] else [Omission("EntryLimit", None, detail, omitted, 0)]
  }

  method PickPaths(files: seq<FileEntry>, want: FileEntry -> bool, limit: nat) returns (paths: seq<string>, omitted: nat)
    ensures paths == UpTo(Wanted(files, want), limit) && |paths| + omitted == |Wanted(files, want)|
  {
    hide ShownPath;
    paths, omitted := [], 0;
    var k := 0;
    while k < |files|
      invariant 0 <= k <= |files|
      invariant paths == UpTo(Wanted(files[..k], want), limit) && |paths| + omitted == |Wanted(files[..k], want)|
    {
      assert files[..k + 1][..k] == files[..k];
      if want(files[k]) {
        if |paths| == limit { omitted := omitted + 1; } else { paths := paths + [ShownPath(files[k])]; }
      }
      k := k + 1;
    }
    assert files[..k] == files;
  }

  /** The positions of the wanted files, ascending. */
  ghost predicate Picks(files: seq<FileEntry>, want: FileEntry -> bool, picks: seq<nat>) {
    && (forall i, j :: 0 <= i < j < |picks| ==> picks[i] < picks[j])
    && (forall i :: 0 <= i < |picks| ==> picks[i] < |files| && want(files[picks[i]]))
    && (forall k :: 0 <= k < |files| && want(files[k]) ==> k in picks)
  }

  /** The first wanted files are listed by their shown paths, up to the limit, and the others are counted. */
  ghost predicate ListsExactly(files: seq<FileEntry>, want: FileEntry -> bool, limit: nat, detail: string, found: Found) {
    exists picks: seq<nat> :: Picks(files, want, picks) &&
      var shown := if |picks| < limit then |picks| else limit;
      && found.content == Strings(seq(shown, i requires 0 <= i < shown => ShownPath(files[picks[i]])))
      && found.refs == []
      && found.omissions == if |picks| <= limit then [] else [Omission("EntryLimit", None, detail, |picks| - limit, 0)]
  }

  lemma {:induction false} WantedArePicked(files: seq<FileEntry>, want: FileEntry -> bool) returns (picks: seq<nat>)
    ensures Picks(files, want, picks)
    ensures |picks| == |Wanted(files, want)| && forall i :: 0 <= i < |picks| ==> Wanted(files, want)[i] == ShownPath(files[picks[i]])
  {
    hide ShownPath, Picks;
    picks := [];
    NoPicks(files, want);
    if files != [] {
      var last := |files| - 1;
      var before := WantedArePicked(files[..last], want);
      PicksSnoc(files, want, before);
      picks := if want(files[last]) then before + [last] else before;
      PicksInside(files, want, picks);
      PicksInside(files[..last], want, before);
      forall i | 0 <= i < |picks| ensures Wanted(files, want)[i] == ShownPath(files[picks[i]]) {
        if i < |before| { assert Wanted(files, want)[i] == Wanted(files[..last], want)[i]; }
      }
    }
  }

  lemma NoPicks(files: seq<FileEntry>, want: FileEntry -> bool)
    ensures files == [] ==> Picks(files, want, [])
  {
  }

  lemma PicksSame(files: seq<FileEntry>, want: FileEntry -> bool, same: FileEntry -> bool, picks: seq<nat>)
    requires Picks(files, want, picks) && forall f :: want(f) == same(f)
    ensures Picks(files, same, picks)
  {
  }

  lemma PickedIn(files: seq<FileEntry>, want: FileEntry -> bool, picks: seq<nat>, k: nat)
    requires Picks(files, want, picks) && k < |files| && want(files[k])
    ensures k in picks
  {
  }

  lemma PicksInside(files: seq<FileEntry>, want: FileEntry -> bool, picks: seq<nat>)
    requires Picks(files, want, picks)
    ensures forall i :: 0 <= i < |picks| ==> picks[i] < |files|
  {
  }

  lemma PicksSnoc(files: seq<FileEntry>, want: FileEntry -> bool, before: seq<nat>)
    requires files != [] && Picks(files[..|files| - 1], want, before)
    ensures var last := |files| - 1; Picks(files, want, if want(files[last]) then before + [last] else before)
  {
    var last := |files| - 1;
    var after := if want(files[last]) then before + [last] else before;
    PicksInside(files[..last], want, before);
    forall i | 0 <= i < |after| ensures after[i] < |files| && want(files[after[i]]) {
      if i < |before| { assert files[..last][before[i]] == files[before[i]]; }
    }
    forall k | 0 <= k < |files| && want(files[k]) ensures k in after {
      if k < last { PickedIn(files[..last], want, before, k); }
    }
  }

  /** What is listed depends on which files are wanted, however that is decided. */
  lemma ListedExactly(files: seq<FileEntry>, want: FileEntry -> bool, same: FileEntry -> bool, limit: nat, detail: string)
    requires forall f :: want(f) == same(f)
    ensures ListsExactly(files, same, limit, detail, Listed(Wanted(files, want), limit, detail))
  {
    hide ShownPath, Strings, Wanted, Picks;
    var picks := WantedArePicked(files, want);
    PicksSame(files, want, same, picks);
    PicksInside(files, want, picks);
    var shown := if |picks| < limit then |picks| else limit;
    assert UpTo(Wanted(files, want), limit) == seq(shown, i requires 0 <= i < shown => ShownPath(files[picks[i]]));
  }

  /** A path in UTF-8 is shown as it is but for its backslashes. */
  lemma ShownPathIs(f: FileEntry)
    requires Utf8.Valid(f.path)
    ensures |ShownPath(f)| == |f.path| && forall i :: 0 <= i < |f.path| ==> ShownPath(f)[i] == if f.path[i] == '\\' then '/' else f.path[i]
  {
    hide Utf8.Valid, Utf8.Lossy;
    Utf8.LossyOfValid(f.path);
  }

  /** `part` stands somewhere in the text. */
  predicate StandsIn(text: string, part: string) {
    exists i :: 0 <= i <= |text| && part <= text[i..]
  }

  lemma ContainsExactly(text: string, part: string)
    ensures Redaction.Contains(text, part) <==> StandsIn(text, part)
  {
    var at := Segments.Find(text, part);
    if at.Some? { assert text[at.value..][..|part|] == text[at.value..at.value + |part|]; }
    if i :| 0 <= i <= |text| && part <= text[i..] {
      assert text[i..][..|part|] == text[i..i + |part|];
      assert Segments.OccursAt(text, part, i);
    }
  }

  /** The files below a directory, at most so many levels deep. */
  function Below(root: string, levels: nat): FileEntry -> bool {
    (f: FileEntry) => Components(root) <= Components(f.path) && |Components(f.path)| <= |Components(root)| + levels
  }

  /** The files whose shown path holds the query, case aside. */
  function Named(lower: string -> string, query: string): FileEntry -> bool {
    (f: FileEntry) => StandsIn(lower(ShownPath(f)), lower(query))
  }

  predicate InTree(f: FileEntry, root: string, depth: nat) {
    StartsWith(f.path, root) && |Components(f.path)| - |Components(root)| <= depth
  }

  /** What is found when paths are listed: the first ones up to the limit, and how many more there were. */
  function Listed(wanted: seq<string>, limit: nat, detail: string): Found {
    var shown := UpTo(wanted, limit);
    Found(Strings(shown), [], LeftOver(|wanted| - |shown|, detail))
  }

  lemma ListedIsText(files: seq<FileEntry>, want: FileEntry -> bool, limit: nat, detail: string)
    ensures IsText(Listed(Wanted(files, want), limit, detail))
  {
    hide Utf8.Valid, Strings, Wanted;
    WantedAreValid(files, want);
    StringsAreValid(UpTo(Wanted(files, want), limit));
  }

  function TreeListed(files: seq<FileEntry>, relativePath: Option<string>, depth: nat, limit: nat): Result<Found> {
    var root := if relativePath.Some? then relativePath.value else "";
    if !Inside(root) then Err("EXTERNAL_PATH_BLOCKED")
    else Ok(Listed(Wanted(files, f => InTree(f, root, Clamp(depth, 1, 4))), Clamp(limit, 1, 500), "LIST_TREE_LIMIT"))
  }

  function PathsFound(files: seq<FileEntry>, lower: string -> string, query: string, limit: nat): Result<Found> {
    if Utf8.Blank(query) || |query| > 512 then Err("TOOL_QUERY_INVALID")
    else Ok(Listed(Wanted(files, f => Redaction.Contains(lower(ShownPath(f)), lower(query))), Clamp(limit, 1, 100), "SEARCH_PATHS_LIMIT"))
  }

  /** Lists files below a path: the first ones up to the limit, and how many more there were. */
  method ListTree(files: seq<FileEntry>, relativePath: Option<string>, depth: nat, limit: nat) returns (r: Result<Found>)
    ensures r == TreeListed(files, relativePath, depth, limit) && (r.Ok? ==> IsText(r.value))
    ensures var root := if relativePath.Some? then relativePath.value else "";
      var levels, most := (if depth < 1 then 1 else if depth > 4 then 4 else depth), (if limit < 1 then 1 else if limit > 500 then 500 else limit);
      if !Inside(root) then r == Err("EXTERNAL_PATH_BLOCKED")
      else r.Ok? && ListsExactly(files, Below(root, levels), most, "LIST_TREE_LIMIT", r.value)
  {
    hide Inside, Strings, Wanted, IsText, ListsExactly, Components;
    var root := if relativePath.Some? then relativePath.value else "";
    if !Inside(root) { return Err("EXTERNAL_PATH_BLOCKED"); }
    var want := (f: FileEntry) => InTree(f, root, Clamp(depth, 1, 4));
    var paths, omitted := PickPaths(files, want, Clamp(limit, 1, 500));
    ListedIsText(files, want, Clamp(limit, 1, 500), "LIST_TREE_LIMIT");
    ListedExactly(files, want, Below(root, Clamp(depth, 1, 4)), Clamp(limit, 1, 500), "LIST_TREE_LIMIT");
    return Ok(Found(Strings(paths), [], LeftOver(omitted, "LIST_TREE_LIMIT")));
  }

  /** `lower` is `str::to_lowercase`. */
  method SearchPaths(files: seq<FileEntry>, lower: string -> string, query: string, limit: nat) returns (r: Result<Found>)
    ensures r == PathsFound(files, lower, query, limit) && (r.Ok? ==> IsText(r.value))
    ensures var most := if limit < 1 then 1 else if limit > 100 then 100 else limit;
      if Utf8.Blank(query) || |query| > 512 then r == Err("TOOL_QUERY_INVALID")
      else r.Ok? && ListsExactly(files, Named(lower, query), most, "SEARCH_PATHS_LIMIT", r.value)
  {
    hide Utf8.Blank, Strings, Wanted, ShownPath, IsText, ListsExactly, StandsIn, Redaction.Contains;
    if Utf8.Blank(query) || |query| > 512 { return Err("TOOL_QUERY_INVALID"); }
    var want := (f: FileEntry) => Redaction.Contains(lower(ShownPath(f)), lower(query));
    var paths, omitted := PickPaths(files, want, Clamp(limit, 1, 100));
    ListedIsText(files, want, Clamp(limit, 1, 100), "SEARCH_PATHS_LIMIT");
    forall f: FileEntry ensures want(f) == StandsIn(lower(ShownPath(f)), lower(query)) {
      ContainsExactly(lower(ShownPath(f)), lower(query));
    }
    ListedExactly(files, want, Named(lower, query), Clamp(limit, 1, 100), "SEARCH_PATHS_LIMIT");
    return Ok(Found(Strings(paths), [], LeftOver(omitted, "SEARCH_PATHS_LIMIT")));
  }

  function TrimFeeds(s: string): (r: string)
    ensures r <= s && (r != "" ==> r[|r| - 1] != '\n') && forall i :: |r| <= i < |s| ==> s[i] == '\n'
  {
    if s != "" && s[|s| - 1] == '\n' then TrimFeeds(s[..|s| - 1]) else s
  }

  /** The first `n` characters. */
  function TakeChars(s: string, n: nat): (r: string)
    ensures r <= s
    decreases n
  {
    if n == 0 || s == "" || Utf8.CharLen(s) == 0 then ""
    else s[..Utf8.CharLen(s)] + TakeChars(s[Utf8.CharLen(s)..], n - 1)
  }

  lemma {:induction false} TakenFromAscii(s: string, n: nat)
    requires Utf8.Ascii(s)
    ensures TakeChars(s, n) == s[..if n < |s| then n else |s|]
    decreases n
  {
    if n > 0 && s != "" {
      assert Utf8.CharLen(s) == 1;
      TakenFromAscii(s[1..], n - 1);
    }
  }

  lemma {:induction false} JoinedIsValid(lines: seq<string>)
    requires forall i :: 0 <= i < |lines| ==> Utf8.Valid(lines[i])
    ensures Utf8.Valid(JoinLines(lines))
  {
    hide Utf8.Valid;
    Utf8.EmptyIsValid();
    Utf8.AsciiValid("\n");
    if |lines| > 1 {
      JoinedIsValid(lines[1..]);
      Utf8.ConcatValid(lines[0], "\n");
      Utf8.ConcatValid(lines[0] + "\n", JoinLines(lines[1..]));
    }
  }

  lemma {:induction false} TrimmedIsValid(s: string)
    requires Utf8.Valid(s)
    ensures Utf8.Valid(TrimFeeds(s))
  {
    hide Utf8.Valid;
    if s != "" && s[|s| - 1] == '\n' {
      Utf8.AroundAscii(s, |s| - 1);
      Utf8.SplitValid(s, |s| - 1);
      TrimmedIsValid(s[..|s| - 1]);
    }
  }

  lemma {:induction false} TakenIsValid(s: string, n: nat)
    requires Utf8.Valid(s)
    ensures Utf8.Valid(TakeChars(s, n))
    decreases n
  {
    hide Utf8.CharLen;
    if n > 0 && s != "" {
      var k := Utf8.CharLen(s);
      assert s[0..] == s;
      Utf8.CharEnd(s, 0);
      Utf8.SplitValid(s, k);
      TakenIsValid(s[k..], n - 1);
      Utf8.ConcatValid(s[..k], TakeChars(s[k..], n - 1));
    }
  }

  function FileAt(files: seq<FileEntry>, path: string): (r: Option<FileEntry>)
    ensures r.Some? ==> r.value in files && Components(r.value.path) == Components(path)
    ensures r.None? ==> forall i :: 0 <= i < |files| ==> Components(files[i].path) != Components(path)
  {
    if files == [] then None
    else if Components(files[0].path) == Components(path) then Some(files[0])
    else FileAt(files[1..], path)
  }

  /** What the tools see of the world: the reader, SHA-256 in hexadecimal and Shannon entropy. */
  datatype Library = Library(read: string -> Result<string>, shaHex: string -> string, entropy: string -> real)

  /** The excerpt of a reference: redacted, without line feeds at its end, cut to 512 characters. */
  ghost function Excerpt(lib: Library, text: string): string {
    TakeChars(TrimFeeds(Redaction.Redacted(lib.entropy, text)), 512)
  }

  /** An excerpt is the front of the redacted text, ends in no line feed, and for ASCII text is all of it up to 512 characters. */
  lemma ExcerptIs(lib: Library, text: string)
    ensures var redacted, excerpt := Redaction.Redacted(lib.entropy, text), Excerpt(lib, text);
      && excerpt <= redacted
      && (Utf8.Ascii(redacted) ==> |excerpt| <= 512)
      && (Utf8.Ascii(redacted) && |excerpt| < 512 ==> forall i :: |excerpt| <= i < |redacted| ==> redacted[i] == '\n')
  {
    hide Redaction.Redacted;
    var redacted := Redaction.Redacted(lib.entropy, text);
    if Utf8.Ascii(redacted) { TakenFromAscii(TrimFeeds(redacted), 512); }
  }

  /** Reads a range of lines of a file whose body still has the hash the scan recorded. */
  ghost function LinesRead(lib: Library, files: seq<FileEntry>, snapshot: Uuid, refId: Uuid, path: string, start: nat, end: nat, cancelled: bool): (r: Result<Found>)
  {
    if !Inside(path) then Err("EXTERNAL_PATH_BLOCKED")
    else if start == 0 || end < start || end - start + 1 > MAX_READ_LINES then Err("READ_FILE_RANGE_INVALID")
    else if cancelled then Err("CANCELLED")
    else match FileAt(files, path)
      case None => Err("TOOL_PATH_NOT_FOUND")
      case Some(file) =>
        if !file.isText then Err("READ_FILE_BINARY")
        else match lib.read(path)
          case Err(code) => Err(code)
          case Ok(content) =>
            if lib.shaHex(content) != file.contentHash then Err("SOURCE_LIVE_HASH_MISMATCH")
            else
              var lines := TextLines(content);
              if start > |lines| then Err("READ_FILE_RANGE_INVALID")
              else
                var last := if end < |lines| then end else |lines|;
                var selected := JoinLines(lines[start - 1..last]);
                Ok(Found(selected, [SourceRef(refId, snapshot, file.path, start, last, file.contentHash,
                   TakeChars(TrimFeeds(Redaction.Redacted(lib.entropy, selected)), 512))], []))
  }

  /** Collects the lines of a text. */
  method CollectLines(content: string) returns (lines: seq<string>)
    requires Utf8.Valid(content)
    ensures lines == TextLines(content)
    ensures forall i :: 0 <= i < |lines| ==> Utf8.Valid(lines[i]) && '\n' !in lines[i]
  {
    hide Utf8.Valid, TextLines;
    lines := [];
    var rest := content;
    while rest != ""
      invariant Utf8.Valid(rest) && lines + TextLines(rest) == TextLines(content)
      invariant forall i :: 0 <= i < |lines| ==> Utf8.Valid(lines[i]) && '\n' !in lines[i]
      decreases |rest|
    {
      var line, next := Redaction.TakeLine(rest);
      assert lines + ([line] + TextLines(next)) == lines + [line] + TextLines(next);
      lines, rest := lines + [line], next;
    }
    Redaction.NoLines();
  }

  /** The selected lines can be told from the joined text. */
  predicate ReadsBack(selected: seq<string>) {
    && selected != [] && selected[|selected| - 1] != ""
    && forall i :: 0 <= i < |selected| - 1 ==> StripReturn(selected[i]) == selected[i]
  }

  /** Joined lines read back as they were exactly when the last is not empty and no earlier one ends in a carriage return. */
  lemma {:induction false} JoinedReadsBack(selected: seq<string>)
    requires selected != [] && forall i :: 0 <= i < |selected| ==> '\n' !in selected[i]
    ensures TextLines(JoinLines(selected)) == selected <==> ReadsBack(selected)
  {
    hide StripReturn, TextLines;
    var first, rest := selected[0], selected[1..];
    if rest == [] {
      if first == "" {
        Redaction.NoLines();
      } else {
        LinesEnd(first);
        assert selected == [first];
      }
    } else {
      JoinedReadsBack(rest);
      LinesStep(first, JoinLines(rest));
      assert selected == [first] + rest && selected[|selected| - 1] == rest[|rest| - 1];
      assert ReadsBack(selected) <==> StripReturn(first) == first && ReadsBack(rest) by { ReadsBackCons(first, rest); }
    }
  }

  lemma ReadsBackCons(first: string, rest: seq<string>)
    requires rest != []
    ensures ReadsBack([first] + rest) <==> StripReturn(first) == first && ReadsBack(rest)
  {
    hide StripReturn;
    var all := [first] + rest;
    assert forall i :: 0 <= i < |rest| ==> all[i + 1] == rest[i];
    if ReadsBack(all) {
      assert all[0] == first;
      forall i | 0 <= i < |rest| - 1 ensures StripReturn(rest[i]) == rest[i] {
        assert all[i + 1] == rest[i];
      }
    }
  }

  /** A reference names lines of a file in the listing, cut to the body, by their numbers and its hash. */
  ghost predicate NamesLines(lib: Library, files: seq<FileEntry>, found: Found, path: string, start: nat, end: nat) {
    lib.read(path).Ok? && start > 0 &&
    var body := lib.read(path).value;
    var lines := TextLines(body);
    && |found.refs| == 1
    && var source := found.refs[0];
    && source.lineStart == start <= source.lineEnd <= end && source.lineEnd <= |lines|
    && (source.lineEnd < end ==> source.lineEnd == |lines|) && source.lineEnd - start < MAX_READ_LINES
    && found.content == JoinLines(lines[start - 1..source.lineEnd])
    && (TextLines(found.content) == lines[start - 1..source.lineEnd] <==> ReadsBack(lines[start - 1..source.lineEnd]))
    && source.contentHash == lib.shaHex(body) && found.omissions == []
    && source.excerpt == Excerpt(lib, found.content)
    && exists i :: 0 <= i < |files| && files[i].path == source.relativePath && files[i].contentHash == source.contentHash
  }

  /** The first file in the listing at a path. */
  predicate Listing(files: seq<FileEntry>, path: string, i: nat) {
    i < |files| && Components(files[i].path) == Components(path) && forall j :: 0 <= j < i ==> Components(files[j].path) != Components(path)
  }

  lemma {:induction false} FileAtIs(files: seq<FileEntry>, path: string)
    ensures FileAt(files, path).Some? ==> exists i: nat :: Listing(files, path, i) && FileAt(files, path) == Some(files[i])
    ensures FileAt(files, path).None? ==> forall i: nat :: !Listing(files, path, i)
  {
    hide Components;
    if files != [] {
      if Components(files[0].path) == Components(path) {
        assert Listing(files, path, 0);
      } else {
        FileAtIs(files[1..], path);
        if FileAt(files, path).Some? {
          var i: nat :| Listing(files[1..], path, i) && FileAt(files[1..], path) == Some(files[1..][i]);
          assert forall j :: 0 < j < i + 1 ==> files[j] == files[1..][j - 1];
          assert Listing(files, path, i + 1);
        }
      }
    }
  }

  /** A range that can be read: of a text file in the listing, unchanged since the scan, with at least its first line there. */
  ghost predicate Readable(lib: Library, files: seq<FileEntry>, path: string, start: nat, end: nat) {
    && Inside(path) && 1 <= start <= end && end - start < 400
    && exists i: nat :: Listing(files, path, i) && files[i].isText &&
         lib.read(path).Ok? && lib.shaHex(lib.read(path).value) == files[i].contentHash && start <= |TextLines(lib.read(path).value)|
  }

  /** Why a file in the listing cannot be read. */
  predicate FileRefused(lib: Library, f: FileEntry, path: string, start: nat, code: string) {
    || (code == "READ_FILE_BINARY" && !f.isText)
    || lib.read(path) == Err(code)
    || (code == "SOURCE_LIVE_HASH_MISMATCH" && lib.read(path).Ok? && lib.shaHex(lib.read(path).value) != f.contentHash)
    || (code == "READ_FILE_RANGE_INVALID" && lib.read(path).Ok? && start > |TextLines(lib.read(path).value)|)
  }

  /** Why a range cannot be read. */
  ghost predicate ReadRefused(lib: Library, files: seq<FileEntry>, path: string, start: nat, end: nat, cancelled: bool, code: string) {
    || (code == "EXTERNAL_PATH_BLOCKED" && !Inside(path))
    || (code == "READ_FILE_RANGE_INVALID" && !(1 <= start <= end && end - start < 400))
    || (code == "CANCELLED" && cancelled)
    || (code == "TOOL_PATH_NOT_FOUND" && forall i: nat :: !Listing(files, path, i))
    || exists i: nat :: Listing(files, path, i) && FileRefused(lib, files[i], path, start, code)
  }

  lemma ListingIsOne(files: seq<FileEntry>, path: string, i: nat, j: nat)
    requires Listing(files, path, i) && Listing(files, path, j)
    ensures i == j
  {
    hide Components;
  }

  lemma ReadExactly(lib: Library, files: seq<FileEntry>, snapshot: Uuid, refId: Uuid, path: string, start: nat, end: nat, cancelled: bool)
    ensures var r := LinesRead(lib, files, snapshot, refId, path, start, end, cancelled);
      && (r.Ok? <==> Readable(lib, files, path, start, end) && !cancelled)
      && (r.Err? ==> ReadRefused(lib, files, path, start, end, cancelled, r.code))
  {
    hide Inside, Components, TextLines, Redaction.Redacted, JoinLines, TakeChars, TrimFeeds, Listing, FileAt;
    FileAtIs(files, path);
    forall i: nat, j: nat | Listing(files, path, i) && Listing(files, path, j) ensures i == j { ListingIsOne(files, path, i, j); }
  }

  /**
   Reads a range of lines. What is returned are the lines asked for, cut to the file, of a body that
   hashes to what the scan recorded; `refId` is the identifier made up for the reference.
   */
  method ReadFileLines(lib: Library, files: seq<FileEntry>, snapshot: Uuid, refId: Uuid, path: string, start: nat, end: nat, cancelled: bool)
    returns (r: Result<Found>)
    requires lib.read(path).Ok? ==> Utf8.Valid(lib.read(path).value)
    ensures r == LinesRead(lib, files, snapshot, refId, path, start, end, cancelled)
    ensures r.Ok? ==> IsText(r.value) && NamesLines(lib, files, r.value, path, start, end)
    ensures r.Ok? ==> r.value.refs[0].id == refId && r.value.refs[0].snapshotId == snapshot
    ensures r.Ok? <==> Readable(lib, files, path, start, end) && !cancelled
    ensures r.Err? ==> ReadRefused(lib, files, path, start, end, cancelled, r.code)
  {
    hide Inside, Components, Utf8.Valid, TextLines, Redaction.Redacted, JoinLines, TakeChars, TrimFeeds, EntropyRedactor.NoRunQualifies, Redaction.NoSecretRun, Redaction.Gives, ReadsBack, Readable, ReadRefused;
    ReadExactly(lib, files, snapshot, refId, path, start, end, cancelled);
    if !Inside(path) { return Err("EXTERNAL_PATH_BLOCKED"); }
    if start == 0 || end < start || end - start + 1 > MAX_READ_LINES { return Err("READ_FILE_RANGE_INVALID"); }
    if cancelled { return Err("CANCELLED"); }
    var file := FileAt(files, path);
    if file.None? { return Err("TOOL_PATH_NOT_FOUND"); }
    if !file.value.isText { return Err("READ_FILE_BINARY"); }
    var content := lib.read(path);
    if content.Err? { return Err(content.code); }
    if lib.shaHex(content.value) != file.value.contentHash { return Err("SOURCE_LIVE_HASH_MISMATCH"); }
    var lines := CollectLines(content.value);
    if start > |lines| { return Err("READ_FILE_RANGE_INVALID"); }
    var last := if end < |lines| then end else |lines|;
    var selected := JoinLines(lines[start - 1..last]);
    JoinedIsValid(lines[start - 1..last]);
    JoinedReadsBack(lines[start - 1..last]);
    var excerpt, _ := Redaction.ScanAndRedactSecrets(lib.entropy, selected);
    TrimmedIsValid(excerpt);
    TakenIsValid(TrimFeeds(excerpt), 512);
    return Ok(Found(selected, [SourceRef(refId, snapshot, file.value.path, start, last, file.value.contentHash, TakeChars(TrimFeeds(excerpt), 512))], []));
  }

  // Searching texts.

  /** The files, the library, `str::to_lowercase` and the identifiers made up for references. */
  datatype Tools = Tools(files: seq<FileEntry>, lib: Library, lower: string -> string, freshId: nat -> Uuid)

  /** What a search is for: the lower-cased query, the path filter and how many lines to find at most. */
  datatype Search = Search(tools: Tools, needle: string, filter: Option<string>, limit: nat)

  datatype Hit = Hit(file: FileEntry, number: nat, line: string)

  predicate Considered(q: Search, f: FileEntry) {
    f.isText && (q.filter.Some? ==> Redaction.Contains(ShownPath(f), q.filter.value))
  }

  function Body(q: Search, f: FileEntry): Result<string> {
    q.tools.lib.read(f.path)
  }

  /** The file is read, and its body is not the one the scan recorded. */
  predicate Changed(q: Search, f: FileEntry) {
    Considered(q, f) && f.size <= MAX_RESULT_BYTES && Body(q, f).Ok? && q.tools.lib.shaHex(Body(q, f).value) != f.contentHash
  }

  /** The note on a file that should have been searched and was not. */
  function Skipped(q: Search, f: FileEntry): seq<Omission> {
    if !Considered(q, f) then []
    else if f.size > MAX_RESULT_BYTES then [Omission("ByteLimit", Some(f.path), "SEARCH_FILE_TOO_LARGE", 1, f.size)]
    else if Body(q, f).Err? then [Omission("ReadError", Some(f.path), "SEARCH_READ_FAILED", 1, 0)]
    else []
  }

  predicate Matches(q: Search, line: string) {
    Redaction.Contains(q.tools.lower(line), q.needle)
  }

  function LineHits(q: Search, f: FileEntry, lines: seq<string>): seq<Hit> {
    if lines == [] then []
    else
      var n := |lines|;
      LineHits(q, f, lines[..n - 1]) + if Matches(q, lines[n - 1]) then [Hit(f, n, lines[n - 1])] else []
  }

  /** The matching lines of a file, if it is searched. */
  function FileHits(q: Search, f: FileEntry): seq<Hit> {
    if Considered(q, f) && f.size <= MAX_RESULT_BYTES && Body(q, f).Ok? then LineHits(q, f, TextLines(Body(q, f).value)) else []
  }

  function AllHits(q: Search, files: seq<FileEntry>): seq<Hit> {
    if files == [] then [] else AllHits(q, files[..|files| - 1]) + FileHits(q, files[|files| - 1])
  }

  function AllSkipped(q: Search, files: seq<FileEntry>): seq<Omission> {
    if files == [] then [] else AllSkipped(q, files[..|files| - 1]) + Skipped(q, files[|files| - 1])
  }

  const NOTE_LIMIT: nat := 127

  /** What the search comes to from file `k` on, at a point where it has not found enough. */
  function SearchFrom(q: Search, cancelled: nat -> bool, k: nat): Result<(seq<Hit>, seq<Omission>)>
    requires k <= |q.tools.files|
    decreases |q.tools.files| - k
  {
    var files := q.tools.files;
    var hits, skipped := AllHits(q, files[..k]), AllSkipped(q, files[..k]);
    if k == |files| then Ok((hits, skipped))
    else if |skipped| >= NOTE_LIMIT then Ok((hits, skipped + [Omission("EntryLimit", None, "OMISSION_LIMIT", |files| - k, 0)]))
    else if cancelled(k) then Err("CANCELLED")
    else if Changed(q, files[k]) then Err("SOURCE_LIVE_HASH_MISMATCH")
    else
      var more := AllHits(q, files[..k + 1]);
      if |more| >= q.limit then Ok((more[..q.limit], AllSkipped(q, files[..k + 1])))
      else SearchFrom(q, cancelled, k + 1)
  }

  ghost function RefOf(tools: Tools, snapshot: Uuid, hit: Hit, id: Uuid): SourceRef {
    SourceRef(id, snapshot, hit.file.path, hit.number, hit.number, hit.file.contentHash, Excerpt(tools.lib, hit.line))
  }

  ghost function RefsOf(tools: Tools, snapshot: Uuid, hits: seq<Hit>): (r: seq<SourceRef>)
    ensures |r| == |hits|
  {
    seq(|hits|, i requires 0 <= i < |hits| => RefOf(tools, snapshot, hits[i], tools.freshId(i)))
  }

  lemma RefsSnoc(tools: Tools, snapshot: Uuid, hits: seq<Hit>, hit: Hit)
    ensures RefsOf(tools, snapshot, hits + [hit]) == RefsOf(tools, snapshot, hits) + [RefOf(tools, snapshot, hit, tools.freshId(|hits|))]
  {
    hide RefOf;
  }

  function SummaryText(r: SourceRef): string {
    Object([Member("excerpt", Quoted(r.excerpt)), Member("line", Decimal(r.lineStart)),
            Member("path", Quoted(r.relativePath)), Member("source_ref_id", Quoted(UuidText(r.id)))])
  }

  function SummaryTexts(refs: seq<SourceRef>): seq<string> {
    seq(|refs|, i requires 0 <= i < |refs| => SummaryText(refs[i]))
  }

  predicate PathsPrintable(refs: seq<SourceRef>) {
    forall i :: 0 <= i < |refs| ==> Utf8.Valid(refs[i].relativePath)
  }

  /** The error that stands for a panic: the library's JSON macro does not take a path outside UTF-8. */
  const PANIC := "PANIC"

  ghost function TextFound(tools: Tools, snapshot: Uuid, query: string, filter: Option<string>, limit: nat, cancelled: nat -> bool): Result<Found> {
    if Utf8.Blank(query) || |query| > 512 then Err("TOOL_QUERY_INVALID")
    else if filter.Some? && !Inside(filter.value) then Err("EXTERNAL_PATH_BLOCKED")
    else match SearchFrom(Search(tools, tools.lower(query), filter, Clamp(limit, 1, 100)), cancelled, 0)
      case Err(code) => Err(code)
      case Ok((hits, omissions)) =>
        var refs := RefsOf(tools, snapshot, hits);
        if !PathsPrintable(refs) then Err(PANIC) else Ok(Found(List(SummaryTexts(refs)), refs, omissions))
  }

  lemma {:induction false} LineHitsGrow(q: Search, f: FileEntry, lines: seq<string>, k: nat)
    requires k <= |lines|
    ensures LineHits(q, f, lines[..k]) <= LineHits(q, f, lines)
    decreases |lines|
  {
    hide Matches;
    if k == |lines| {
      assert lines[..k] == lines;
    } else {
      var front := lines[..|lines| - 1];
      assert front[..k] == lines[..k];
      LineHitsGrow(q, f, front, k);
    }
  }

  lemma LineHitsSnoc(q: Search, f: FileEntry, lines: seq<string>, k: nat)
    requires k < |lines|
    ensures LineHits(q, f, lines[..k + 1]) == LineHits(q, f, lines[..k]) + if Matches(q, lines[k]) then [Hit(f, k + 1, lines[k])] else []
    ensures LineHits(q, f, lines[..0]) == []
  {
    hide Matches;
    assert lines[..k + 1][..k] == lines[..k];
  }

  /** Looks through the lines of one file, until there are enough references. */
  method SearchLines(q: Search, snapshot: Uuid, f: FileEntry, lines: seq<string>, refs0: seq<SourceRef>, ghost before: seq<Hit>)
    returns (refs: seq<SourceRef>)
    requires |before| < q.limit && refs0 == RefsOf(q.tools, snapshot, before) && TextRefs(refs0)
    requires forall i :: 0 <= i < |lines| ==> Utf8.Valid(lines[i])
    ensures refs == RefsOf(q.tools, snapshot, Capped(q, before + LineHits(q, f, lines)))
    ensures TextRefs(refs)
  {
    hide Utf8.Valid, Matches, LineHits, RefOf, EntropyRedactor.NoRunQualifies, Redaction.NoSecretRun, Redaction.Gives, Redaction.Redacted, Redaction.Scrubbed, Redaction.ScrubHits, TextLines, TrimFeeds, TakeChars;
    refs := refs0;
    ghost var hits := before;
    NoLineHits(q, f, lines[..0]);
    var k := 0;
    while k < |lines|
      invariant 0 <= k <= |lines| && hits == before + LineHits(q, f, lines[..k]) && |hits| < q.limit
      invariant refs == RefsOf(q.tools, snapshot, hits) && TextRefs(refs)
    {
      LineHitsSnoc(q, f, lines, k);
      if Matches(q, lines[k]) {
        var excerpt, _ := Redaction.ScanAndRedactSecrets(q.tools.lib.entropy, lines[k]);
        TrimmedIsValid(excerpt);
        TakenIsValid(TrimFeeds(excerpt), 512);
        var hit := Hit(f, k + 1, lines[k]);
        var ref := SourceRef(q.tools.freshId(|refs|), snapshot, f.path, k + 1, k + 1, f.contentHash, TakeChars(TrimFeeds(excerpt), 512));
        HitIsRef(q.tools, snapshot, hit, ref, excerpt);
        RefsSnoc(q.tools, snapshot, hits, hit);
        assert before + (LineHits(q, f, lines[..k]) + [hit]) == hits + [hit];
        TextRefsSnoc(refs, ref);
        refs := refs + [ref];
        hits := hits + [hit];
        if |refs| == q.limit {
          LineHitsGrow(q, f, lines, k + 1);
          PrefixOfSum(before, LineHits(q, f, lines[..k + 1]), LineHits(q, f, lines));
          return;
        }
      } else {
        assert LineHits(q, f, lines[..k]) + [] == LineHits(q, f, lines[..k]);
      }
      k := k + 1;
    }
    assert lines[..k] == lines;
  }

  lemma NoLineHits(q: Search, f: FileEntry, lines: seq<string>)
    requires lines == []
    ensures LineHits(q, f, lines) == [] && forall before: seq<Hit> :: before + [] == before
  {
  }

  lemma PrefixOfSum(a: seq<Hit>, b: seq<Hit>, c: seq<Hit>)
    requires b <= c
    ensures (a + c)[..|a| + |b|] == a + b && |a| + |b| <= |a + c|
  {
  }

  lemma HitIsRef(tools: Tools, snapshot: Uuid, hit: Hit, ref: SourceRef, excerpt: string)
    requires excerpt == Redaction.Redacted(tools.lib.entropy, hit.line)
    requires ref == SourceRef(ref.id, snapshot, hit.file.path, hit.number, hit.number, hit.file.contentHash, TakeChars(TrimFeeds(excerpt), 512))
    ensures ref == RefOf(tools, snapshot, hit, ref.id)
  {
    hide Redaction.Redacted, TakeChars, TrimFeeds;
  }

  predicate TextRefs(refs: seq<SourceRef>) {
    forall i :: 0 <= i < |refs| ==> Utf8.Valid(refs[i].excerpt)
  }

  lemma TextRefsSnoc(refs: seq<SourceRef>, ref: SourceRef)
    requires TextRefs(refs) && Utf8.Valid(ref.excerpt)
    ensures TextRefs(refs + [ref])
  {
    hide Utf8.Valid;
  }

  lemma AllSnoc(q: Search, files: seq<FileEntry>, k: nat)
    requires k < |files|
    ensures AllHits(q, files[..k + 1]) == AllHits(q, files[..k]) + FileHits(q, files[k])
    ensures AllSkipped(q, files[..k + 1]) == AllSkipped(q, files[..k]) + Skipped(q, files[k])
  {
    hide FileHits, Skipped;
    assert files[..k + 1][..k] == files[..k];
  }

  lemma NothingFound(q: Search, snapshot: Uuid, files: seq<FileEntry>)
    requires files == []
    ensures AllHits(q, files) == [] && AllSkipped(q, files) == [] && RefsOf(q.tools, snapshot, []) == [] && TextRefs([])
  {
  }

  /** At most as many hits as the search is for. */
  function Capped(q: Search, hits: seq<Hit>): seq<Hit> {
    if |hits| >= q.limit then hits[..q.limit] else hits
  }

  /** Searches one file, or notes why not. */
  method SearchFile(q: Search, snapshot: Uuid, f: FileEntry, refs0: seq<SourceRef>, ghost before: seq<Hit>)
    returns (r: Result<(seq<SourceRef>, seq<Omission>)>)
    requires |before| < q.limit && refs0 == RefsOf(q.tools, snapshot, before) && TextRefs(refs0)
    requires Body(q, f).Ok? ==> Utf8.Valid(Body(q, f).value)
    ensures r == if Changed(q, f) then Err("SOURCE_LIVE_HASH_MISMATCH")
                 else Ok((RefsOf(q.tools, snapshot, Capped(q, before + FileHits(q, f))), Skipped(q, f)))
    ensures r.Ok? ==> TextRefs(r.value.0)
  {
    hide Utf8.Valid, LineHits, TextLines, RefsOf, TextRefs, ShownPath;
    assert before + [] == before;
    if !f.isText { return Ok((refs0, [])); }
    if q.filter.Some? && !Redaction.Contains(ShownPath(f), q.filter.value) { return Ok((refs0, [])); }
    if f.size > MAX_RESULT_BYTES {
      return Ok((refs0, [Omission("ByteLimit", Some(f.path), "SEARCH_FILE_TOO_LARGE", 1, f.size)]));
    }
    var content := q.tools.lib.read(f.path);
    if content.Err? { return Ok((refs0, [Omission("ReadError", Some(f.path), "SEARCH_READ_FAILED", 1, 0)])); }
    if q.tools.lib.shaHex(content.value) != f.contentHash { return Err("SOURCE_LIVE_HASH_MISMATCH"); }
    var lines := CollectLines(content.value);
    var refs := SearchLines(q, snapshot, f, lines, refs0, before);
    return Ok((refs, []));
  }

  /** The loop over the files. */
  method SearchFiles(q: Search, snapshot: Uuid, cancelled: nat -> bool) returns (r: Result<(seq<SourceRef>, seq<Omission>)>)
    requires q.limit >= 1
    requires forall path :: q.tools.lib.read(path).Ok? ==> Utf8.Valid(q.tools.lib.read(path).value)
    ensures r == match SearchFrom(q, cancelled, 0)
                 case Err(code) => Err(code)
                 case Ok((hits, omissions)) => Ok((RefsOf(q.tools, snapshot, hits), omissions))
    ensures r.Ok? ==> TextRefs(r.value.0)
  {
    hide Utf8.Valid, Changed, Skipped, FileHits, AllHits, AllSkipped, RefsOf, TextRefs;
    var files := q.tools.files;
    var refs: seq<SourceRef> := [];
    var omissions: seq<Omission> := [];
    var k := 0;
    NothingFound(q, snapshot, files[..0]);
    while k < |files|
      invariant 0 <= k <= |files| && SearchFrom(q, cancelled, 0) == SearchFrom(q, cancelled, k)
      invariant refs == RefsOf(q.tools, snapshot, AllHits(q, files[..k])) && |AllHits(q, files[..k])| < q.limit && TextRefs(refs)
      invariant omissions == AllSkipped(q, files[..k])
    {
      if |omissions| >= NOTE_LIMIT {
        return Ok((refs, omissions + [Omission("EntryLimit", None, "OMISSION_LIMIT", |files| - k, 0)]));
      }
      if cancelled(k) { return Err("CANCELLED"); }
      AllSnoc(q, files, k);
      var found := SearchFile(q, snapshot, files[k], refs, AllHits(q, files[..k]));
      if found.Err? { return Err(found.code); }
      refs, omissions := found.value.0, omissions + found.value.1;
      if |refs| == q.limit { return Ok((refs, omissions)); }
      k := k + 1;
    }
    assert files[..k] == files;
    return Ok((refs, omissions));
  }

  lemma SummaryIsValid(r: SourceRef)
    requires Utf8.Valid(r.excerpt) && Utf8.Valid(r.relativePath)
    ensures Utf8.Valid(SummaryText(r))
  {
    hide Utf8.Valid, Quoted, Member, Object, UuidText;
    QuotedIsValid(r.excerpt);
    QuotedIsValid(r.relativePath);
    Utf8.AsciiValid(UuidText(r.id));
    QuotedIsValid(UuidText(r.id));
    DecimalIsValid(r.lineStart);
    KeysAreValid();
    MemberIsValid("excerpt", Quoted(r.excerpt));
    MemberIsValid("line", Decimal(r.lineStart));
    MemberIsValid("path", Quoted(r.relativePath));
    MemberIsValid("source_ref_id", Quoted(UuidText(r.id)));
    ObjectIsValid([Member("excerpt", Quoted(r.excerpt)), Member("line", Decimal(r.lineStart)),
                   Member("path", Quoted(r.relativePath)), Member("source_ref_id", Quoted(UuidText(r.id)))]);
  }

  lemma KeysAreValid()
    ensures Utf8.Valid("excerpt") && Utf8.Valid("line") && Utf8.Valid("path") && Utf8.Valid("source_ref_id")
  {
    hide Utf8.Valid;
    Utf8.AsciiValid("excerpt");
    Utf8.AsciiValid("line");
    Utf8.AsciiValid("path");
    Utf8.AsciiValid("source_ref_id");
  }

  lemma SummariesAreValid(refs: seq<SourceRef>)
    requires TextRefs(refs) && PathsPrintable(refs)
    ensures Utf8.Valid(List(SummaryTexts(refs)))
  {
    hide Utf8.Valid, SummaryText, List;
    forall i | 0 <= i < |refs| ensures Utf8.Valid(SummaryTexts(refs)[i]) {
      SummaryIsValid(refs[i]);
    }
    ListIsValid(SummaryTexts(refs));
  }

  /** Searches file bodies for a query, case aside, line by line. */
  method SearchText(tools: Tools, snapshot: Uuid, query: string, filter: Option<string>, limit: nat, cancelled: nat -> bool)
    returns (r: Result<Found>)
    requires forall path :: tools.lib.read(path).Ok? ==> Utf8.Valid(tools.lib.read(path).value)
    ensures r == TextFound(tools, snapshot, query, filter, limit, cancelled) && (r.Ok? ==> IsText(r.value))
  {
    hide Utf8.Valid, Utf8.Blank, Inside, SearchFrom, RefsOf, List, SummaryText;
    if Utf8.Blank(query) || |query| > 512 { return Err("TOOL_QUERY_INVALID"); }
    if filter.Some? && !Inside(filter.value) { return Err("EXTERNAL_PATH_BLOCKED"); }
    var found := SearchFiles(Search(tools, tools.lower(query), filter, Clamp(limit, 1, 100)), snapshot, cancelled);
    if found.Err? { return Err(found.code); }
    var (refs, omissions) := found.value;
    if !PathsPrintable(refs) { return Err(PANIC); }
    SummariesAreValid(refs);
    return Ok(Found(List(SummaryTexts(refs)), refs, omissions));
  }

  // What a search finds.

  /** A line to be found: of a text file of at most 64 KiB that passes the filter, holding the query, case aside. */
  predicate Eligible(q: Search, hit: Hit, files: seq<FileEntry>) {
    && hit.file in files && hit.file.isText && hit.file.size <= 64 * 1024
    && (q.filter.Some? ==> StandsIn(ShownPath(hit.file), q.filter.value))
    && q.tools.lib.read(hit.file.path).Ok?
    && var lines := TextLines(q.tools.lib.read(hit.file.path).value);
       1 <= hit.number <= |lines| && hit.line == lines[hit.number - 1] && StandsIn(q.tools.lower(hit.line), q.needle)
  }

  lemma {:induction false} LineHitsExactly(q: Search, f: FileEntry, lines: seq<string>, hit: Hit)
    ensures hit in LineHits(q, f, lines) <==>
      hit.file == f && 1 <= hit.number <= |lines| && hit.line == lines[hit.number - 1] && Matches(q, hit.line)
  {
    hide Matches;
    if lines != [] { LineHitsExactly(q, f, lines[..|lines| - 1], hit); }
  }

  lemma ConsideredExactly(q: Search, f: FileEntry)
    ensures Considered(q, f) <==> f.isText && (q.filter.Some? ==> StandsIn(ShownPath(f), q.filter.value))
  {
    hide StandsIn, ShownPath, Redaction.Contains;
    if q.filter.Some? { ContainsExactly(ShownPath(f), q.filter.value); }
  }

  lemma MatchesExactly(q: Search, line: string)
    ensures Matches(q, line) <==> StandsIn(q.tools.lower(line), q.needle)
  {
    hide StandsIn, Redaction.Contains;
    ContainsExactly(q.tools.lower(line), q.needle);
  }

  lemma FileHitsExactly(q: Search, f: FileEntry, hit: Hit)
    ensures hit in FileHits(q, f) <==> Eligible(q, hit, [f])
  {
    hide Matches, LineHits, Considered, TextLines, StandsIn, ShownPath;
    ConsideredExactly(q, f);
    MatchesExactly(q, hit.line);
    assert hit.file in [f] <==> hit.file == f;
    if Body(q, f).Ok? { LineHitsExactly(q, f, TextLines(Body(q, f).value), hit); }
  }

  /** The hits of some files are the matching lines of those of them that are searched. */
  lemma {:induction false} HitsExactly(q: Search, files: seq<FileEntry>, hit: Hit)
    ensures hit in AllHits(q, files) <==> Eligible(q, hit, files)
  {
    hide FileHits, StandsIn, TextLines, ShownPath;
    if files != [] {
      var front, last := files[..|files| - 1], files[|files| - 1];
      HitsExactly(q, front, hit);
      FileHitsExactly(q, last, hit);
      assert files == front + [last];
    }
  }

  /** A file the search should have looked at, and did not, is noted by its path. */
  predicate Noted(f: FileEntry, omissions: seq<Omission>) {
    exists i :: 0 <= i < |omissions| && NotesFile(f, omissions[i])
  }

  /** The note on one file: it is over 64 KiB, or could not be read. */
  predicate NotesFile(f: FileEntry, o: Omission) {
    || (f.size > 64 * 1024 && o == Omission("ByteLimit", Some(f.path), "SEARCH_FILE_TOO_LARGE", 1, f.size))
    || (f.size <= 64 * 1024 && o == Omission("ReadError", Some(f.path), "SEARCH_READ_FAILED", 1, 0))
  }

  /** No file among the first `m` has changed since the scan. */
  predicate Unchanged(q: Search, m: nat)
    requires m <= |q.tools.files|
  {
    forall i :: 0 <= i < m ==> AsScanned(q, q.tools.files[i])
  }

  /** A file the search reads hashes to what the scan recorded. */
  predicate AsScanned(q: Search, f: FileEntry) {
    f.isText && (q.filter.Some? ==> StandsIn(ShownPath(f), q.filter.value)) && f.size <= 64 * 1024 && q.tools.lib.read(f.path).Ok? ==>
      q.tools.lib.shaHex(q.tools.lib.read(f.path).value) == f.contentHash
  }

  lemma ChangedExactly(q: Search, f: FileEntry)
    ensures Changed(q, f) <==> !AsScanned(q, f)
  {
    hide StandsIn, ShownPath;
    ConsideredExactly(q, f);
  }

  /** Why a search fails: a file it read has changed since the scan, or it was cancelled before one. */
  lemma {:induction false} SearchFails(q: Search, cancelled: nat -> bool, k: nat)
    requires k <= |q.tools.files| && SearchFrom(q, cancelled, k).Err?
    ensures exists i :: k <= i < |q.tools.files| && Unsearched(q, cancelled, i, SearchFrom(q, cancelled, k).code)
    decreases |q.tools.files| - k
  {
    hide AllHits, AllSkipped, Changed, AsScanned;
    ChangedExactly(q, q.tools.files[k]);
    if cancelled(k) || Changed(q, q.tools.files[k]) {
      assert Unsearched(q, cancelled, k, SearchFrom(q, cancelled, k).code);
    } else {
      SearchFails(q, cancelled, k + 1);
    }
  }

  /** The search fails at file `i`. */
  predicate Unsearched(q: Search, cancelled: nat -> bool, i: nat, code: string)
    requires i < |q.tools.files|
  {
    if cancelled(i) then code == "CANCELLED" else !AsScanned(q, q.tools.files[i]) && code == "SOURCE_LIVE_HASH_MISMATCH"
  }

  /** How far a search that succeeds has come, and what it reports. */
  predicate Reports(q: Search, hits: seq<Hit>, omissions: seq<Omission>, m: nat)
    requires m <= |q.tools.files|
  {
    var files := q.tools.files;
    var all, skipped := AllHits(q, files[..m]), AllSkipped(q, files[..m]);
    && Unchanged(q, m)
    && hits == Capped(q, all)
    && omissions == skipped + (if m < |files| && |all| < q.limit then [Omission("EntryLimit", None, "OMISSION_LIMIT", |files| - m, 0)] else [])
    && (m < |files| ==> |all| >= q.limit || |skipped| >= 127)
  }

  /**
   A search that succeeds reports the first matching lines of the first `m` files, all unchanged, up
   to its limit. The files it should have searched and did not are each noted, and those behind the
   first `m` are counted, unless it stopped because it had found enough.
   */
  lemma {:induction false} SearchReports(q: Search, cancelled: nat -> bool, k: nat) returns (m: nat)
    requires k <= |q.tools.files| && Unchanged(q, k) && |AllHits(q, q.tools.files[..k])| < q.limit
    requires SearchFrom(q, cancelled, k).Ok?
    ensures k <= m <= |q.tools.files|
    ensures var (hits, omissions) := SearchFrom(q, cancelled, k).value; Reports(q, hits, omissions, m)
    decreases |q.tools.files| - k
  {
    hide AllHits, AllSkipped, Changed, AsScanned;
    var files := q.tools.files;
    m := k;
    if k == |files| {
      assert AllSkipped(q, files[..k]) + [] == AllSkipped(q, files[..k]);
    } else if |AllSkipped(q, files[..k])| < NOTE_LIMIT {
      if |AllHits(q, files[..k + 1])| >= q.limit {
        m := k + 1;
        ChangedExactly(q, files[k]);
        assert AllSkipped(q, files[..m]) + [] == AllSkipped(q, files[..m]);
      } else {
        ChangedExactly(q, files[k]);
        m := SearchReports(q, cancelled, k + 1);
      }
    }
  }

  /**
   Nothing is missed silently: when a search ends with fewer lines than its limit and counts no rest,
   every matching line of every file it should look at is reported, or the file is noted.
   */
  lemma NothingIsMissed(q: Search, cancelled: nat -> bool, f: FileEntry, number: nat)
    requires q.limit >= 1 && SearchFrom(q, cancelled, 0).Ok?
    requires f in q.tools.files && Considered(q, f)
    ensures var (hits, omissions) := SearchFrom(q, cancelled, 0).value;
      && |hits| <= q.limit
      && (|hits| < q.limit && (forall i :: 0 <= i < |omissions| ==> omissions[i].detail != "OMISSION_LIMIT") ==>
            Noted(f, omissions) || (Body(q, f).Ok? && forall hit :: Eligible(q, hit, [f]) ==> hit in hits))
  {
    hide AllHits, AllSkipped, Changed, Considered, Eligible, SearchFrom;
    var files := q.tools.files;
    NoFilesYet(q);
    var m := SearchReports(q, cancelled, 0);
    var (hits, omissions) := SearchFrom(q, cancelled, 0).value;
    WholeSearched(q, hits, omissions, m);
    if |hits| < q.limit && forall i :: 0 <= i < |omissions| ==> omissions[i].detail != "OMISSION_LIMIT" {
      assert hits == AllHits(q, files) && omissions == AllSkipped(q, files);
      if !Noted(f, omissions) {
        SkippedIsNoted(q, files, f);
        forall hit | Eligible(q, hit, [f]) ensures hit in hits {
          EligibleAmong(q, hit, f, files);
          HitsExactly(q, files, hit);
        }
      }
    }
  }

  lemma WholeSearched(q: Search, hits: seq<Hit>, omissions: seq<Omission>, m: nat)
    requires m <= |q.tools.files| && Reports(q, hits, omissions, m)
    ensures |hits| < q.limit && (forall i :: 0 <= i < |omissions| ==> omissions[i].detail != "OMISSION_LIMIT") ==>
      m == |q.tools.files| && q.tools.files[..m] == q.tools.files
  {
    hide AllHits, AllSkipped, Changed;
    assert m < |q.tools.files| && |hits| < q.limit ==> omissions != [] && omissions[|omissions| - 1].detail == "OMISSION_LIMIT";
  }

  lemma NoFilesYet(q: Search)
    ensures AllHits(q, q.tools.files[..0]) == [] && Unchanged(q, 0)
  {
  }

  lemma EligibleAmong(q: Search, hit: Hit, f: FileEntry, files: seq<FileEntry>)
    requires Eligible(q, hit, [f]) && f in files
    ensures Eligible(q, hit, files)
  {
    hide StandsIn, TextLines, ShownPath;
  }

  lemma {:induction false} SkippedIsNoted(q: Search, files: seq<FileEntry>, f: FileEntry)
    requires f in files && Considered(q, f)
    ensures Noted(f, AllSkipped(q, files)) || (f.size <= MAX_RESULT_BYTES && Body(q, f).Ok?)
  {
    hide Considered;
    var front, last := files[..|files| - 1], files[|files| - 1];
    var all := AllSkipped(q, files);
    if f == last {
      if Skipped(q, f) != [] { assert NotesFile(f, all[|all| - 1]); }
    } else {
      assert f in front;
      SkippedIsNoted(q, front, f);
      if Noted(f, AllSkipped(q, front)) {
        var i :| 0 <= i < |AllSkipped(q, front)| && NotesFile(f, AllSkipped(q, front)[i]);
        assert all[i] == AllSkipped(q, front)[i];
      }
    }
  }

  // Status and metadata.

  datatype SnapshotInfo = SnapshotInfo(id: Uuid, repositoryId: Uuid, status: SnapshotStatus, fileCount: nat, totalBytes: nat)

  function StatusName(status: SnapshotStatus): (s: string)
    ensures Utf8.Ascii(s)
  {
    match status
    case Ready => "Ready"
    case Stale => "Stale"
    case Indexing => "Indexing"
    case Incomplete => "Incomplete"
  }

  /** The status: a snapshot of a repository that has changed since is stale, whatever it was. */
  function StatusFound(info: SnapshotInfo, stale: bool): Found {
    Found(Object([Member("file_count", Decimal(info.fileCount)), Member("repository_id", Quoted(UuidText(info.repositoryId))),
                  Member("snapshot_id", Quoted(UuidText(info.id))), Member("status", Quoted(StatusName(if stale then Stale else info.status))),
                  Member("total_bytes", Decimal(info.totalBytes))]), [], [])
  }

  lemma AsciiMember(key: string, value: string)
    requires Utf8.Ascii(key) && Utf8.Ascii(value)
    ensures Utf8.Valid(Member(key, Quoted(value))) && Utf8.Valid(Member(key, value))
  {
    hide Utf8.Valid, Quoted, Member;
    Utf8.AsciiValid(key);
    Utf8.AsciiValid(value);
    QuotedIsValid(value);
    MemberIsValid(key, Quoted(value));
    MemberIsValid(key, value);
  }

  lemma StatusIsText(info: SnapshotInfo, stale: bool)
    ensures IsText(StatusFound(info, stale))
  {
    hide Utf8.Valid, Quoted, Member, Object, UuidText, StatusName;
    AsciiMember("file_count", Decimal(info.fileCount));
    AsciiMember("repository_id", UuidText(info.repositoryId));
    AsciiMember("snapshot_id", UuidText(info.id));
    AsciiMember("status", StatusName(if stale then Stale else info.status));
    AsciiMember("total_bytes", Decimal(info.totalBytes));
    ObjectIsValid([Member("file_count", Decimal(info.fileCount)), Member("repository_id", Quoted(UuidText(info.repositoryId))),
                   Member("snapshot_id", Quoted(UuidText(info.id))), Member("status", Quoted(StatusName(if stale then Stale else info.status))),
                   Member("total_bytes", Decimal(info.totalBytes))]);
  }

  function KindName(kind: FileKind): (s: string)
    ensures Utf8.Ascii(s)
  {
    match kind
    case SourceCode => "SourceCode"
    case Documentation => "Documentation"
    case Manifest => "Manifest"
    case Configuration => "Configuration"
    case Asset => "Asset"
    case Binary => "Binary"
    case Other => "Other"
  }

  function CountText(count: Option<nat>): (s: string)
    ensures Utf8.Ascii(s)
  {
    if count.Some? then Decimal(count.value) else "null"
  }

  function BoolText(b: bool): (s: string)
    ensures Utf8.Ascii(s)
  {
    if b then "true" else "false"
  }

  function MetadataText(f: FileEntry): string {
    Object([Member("content_hash", Quoted(f.contentHash)), Member("is_text", BoolText(f.isText)), Member("kind", Quoted(KindName(f.kind))),
            Member("line_count", CountText(f.lineCount)), Member("path", Quoted(f.path)), Member("size_bytes", Decimal(f.size))])
  }

  /** What the scan recorded of one file. */
  function MetadataFound(files: seq<FileEntry>, path: string): Result<Found> {
    if !Inside(path) then Err("EXTERNAL_PATH_BLOCKED")
    else match FileAt(files, path)
      case None => Err("TOOL_PATH_NOT_FOUND")
      case Some(file) => if !Utf8.Valid(file.path) then Err(PANIC) else Ok(Found(MetadataText(file), [], []))
  }

  lemma MetadataTextIsValid(f: FileEntry)
    requires Utf8.Ascii(f.contentHash) && Utf8.Valid(f.path)
    ensures Utf8.Valid(MetadataText(f))
  {
    hide Utf8.Valid, Utf8.Ascii, Quoted, Member, Object, KindName, CountText, BoolText, Decimal;
    KeysAreAscii();
    AsciiMember("content_hash", f.contentHash);
    AsciiMember("is_text", BoolText(f.isText));
    AsciiMember("kind", KindName(f.kind));
    AsciiMember("line_count", CountText(f.lineCount));
    DecimalIsAscii(f.size);
    AsciiMember("size_bytes", Decimal(f.size));
    KeysAreValid();
    QuotedIsValid(f.path);
    MemberIsValid("path", Quoted(f.path));
    ObjectIsValid([Member("content_hash", Quoted(f.contentHash)), Member("is_text", BoolText(f.isText)), Member("kind", Quoted(KindName(f.kind))),
                   Member("line_count", CountText(f.lineCount)), Member("path", Quoted(f.path)), Member("size_bytes", Decimal(f.size))]);
  }

  lemma KeysAreAscii()
    ensures Utf8.Ascii("content_hash") && Utf8.Ascii("is_text") && Utf8.Ascii("kind") && Utf8.Ascii("line_count") && Utf8.Ascii("size_bytes")
  {
  }

  lemma DecimalIsAscii(n: nat)
    ensures Utf8.Ascii(Decimal(n))
  {
    hide Decimal;
  }

  lemma MetadataIsText(files: seq<FileEntry>, path: string)
    requires forall i :: 0 <= i < |files| ==> Utf8.Ascii(files[i].contentHash)
    ensures MetadataFound(files, path).Ok? ==> IsText(MetadataFound(files, path).value)
  {
    hide Utf8.Valid, Utf8.Ascii, MetadataText, Inside, FileAt;
    if MetadataFound(files, path).Ok? { MetadataTextIsValid(FileAt(files, path).value); }
  }

  /** A search's references name the lines it found, each under an identifier of its own. */
  lemma ReferencesNameHits(tools: Tools, snapshot: Uuid, query: string, filter: Option<string>, limit: nat, cancelled: nat -> bool)
    ensures var found := TextFound(tools, snapshot, query, filter, limit, cancelled);
      found.Ok? ==>
        var searched := SearchFrom(Search(tools, tools.lower(query), filter, if limit < 1 then 1 else if limit > 100 then 100 else limit), cancelled, 0);
        && searched.Ok? && found.value.omissions == searched.value.1 && |found.value.refs| == |searched.value.0|
        && forall i :: 0 <= i < |found.value.refs| ==>
             var source, hit := found.value.refs[i], searched.value.0[i];
             && source.id == tools.freshId(i) && source.snapshotId == snapshot && source.relativePath == hit.file.path
             && source.lineStart == source.lineEnd == hit.number && source.contentHash == hit.file.contentHash
             && source.excerpt == Excerpt(tools.lib, hit.line)
  {
    hide Utf8.Blank, Inside, SearchFrom, List, SummaryText, Excerpt, PathsPrintable;
  }

  /** A reference to a found line. */
  ghost predicate Names(tools: Tools, snapshot: Uuid, source: SourceRef, hit: Hit) {
    && source.snapshotId == snapshot && source.relativePath == hit.file.path && source.lineStart == source.lineEnd == hit.number
    && source.contentHash == hit.file.contentHash && source.excerpt == Excerpt(tools.lib, hit.line)
  }

  ghost predicate NamesSome(q: Search, snapshot: Uuid, source: SourceRef) {
    exists hit :: Eligible(q, hit, q.tools.files) && Names(q.tools, snapshot, source, hit)
  }

  /** Every reference of a search names a line that is to be found, and there are no more than asked for. */
  ghost predicate FindsOnly(tools: Tools, snapshot: Uuid, query: string, filter: Option<string>, limit: nat, found: Found) {
    var most := if limit < 1 then 1 else if limit > 100 then 100 else limit;
    && |found.refs| <= most
    && forall i :: 0 <= i < |found.refs| ==> NamesSome(Search(tools, tools.lower(query), filter, most), snapshot, found.refs[i])
  }

  lemma FoundIsEligible(tools: Tools, snapshot: Uuid, query: string, filter: Option<string>, limit: nat, cancelled: nat -> bool)
    ensures var found := TextFound(tools, snapshot, query, filter, limit, cancelled);
      found.Ok? ==> FindsOnly(tools, snapshot, query, filter, limit, found.value)
  {
    hide TextFound, SearchFrom, AllHits, AllSkipped, Changed, Unchanged, Excerpt, Eligible;
    var found := TextFound(tools, snapshot, query, filter, limit, cancelled);
    if found.Ok? {
      ReferencesNameHits(tools, snapshot, query, filter, limit, cancelled);
      var q := Search(tools, tools.lower(query), filter, if limit < 1 then 1 else if limit > 100 then 100 else limit);
      NoFilesYet(q);
      var m := SearchReports(q, cancelled, 0);
      var (hits, omissions) := SearchFrom(q, cancelled, 0).value;
      assert Reports(q, hits, omissions, m);
      assert |hits| <= q.limit;
      assert |found.value.refs| == |hits|;
      forall i | 0 <= i < |found.value.refs|
        ensures NamesSome(q, snapshot, found.value.refs[i])
      {
        assert hits[i] in AllHits(q, tools.files[..m]);
        HitsExactly(q, tools.files[..m], hits[i]);
        EligibleInFront(q, hits[i], m);
        assert Names(tools, snapshot, found.value.refs[i], hits[i]);
      }
    }
  }

  lemma EligibleInFront(q: Search, hit: Hit, m: nat)
    requires m <= |q.tools.files| && Eligible(q, hit, q.tools.files[..m])
    ensures Eligible(q, hit, q.tools.files)
  {
    hide StandsIn, TextLines, ShownPath;
  }

  /** What a search prints of a reference. */
  lemma SummaryIs(r: SourceRef)
    ensures SummaryText(r) ==
      "{" + ("\"excerpt\":" + Quoted(r.excerpt) + "," + ("\"line\":" + Decimal(r.lineStart) + ","
          + ("\"path\":" + Quoted(r.relativePath) + "," + ("\"source_ref_id\":" + Quoted(UuidText(r.id)))))) + "}"
  {
    hide Quoted, UuidText, Decimal, Separated, Member;
    SeparatedFour(Member("excerpt", Quoted(r.excerpt)), Member("line", Decimal(r.lineStart)), Member("path", Quoted(r.relativePath)), Member("source_ref_id", Quoted(UuidText(r.id))));
    PlainKey("excerpt", Quoted(r.excerpt), "\"excerpt\":");
    PlainKey("line", Decimal(r.lineStart), "\"line\":");
    PlainKey("path", Quoted(r.relativePath), "\"path\":");
    PlainKey("source_ref_id", Quoted(UuidText(r.id)), "\"source_ref_id\":");
  }

  /** What the status tool prints: `Stale` for a repository that has changed since, whatever the snapshot was. */
  lemma StatusIs(info: SnapshotInfo, stale: bool, word: string)
    requires (word == "Stale" && (stale || info.status.Stale?)) || (!stale && ((word == "Ready" && info.status.Ready?)
          || (word == "Indexing" && info.status.Indexing?) || (word == "Incomplete" && info.status.Incomplete?)))
    ensures StatusFound(info, stale).refs == [] && StatusFound(info, stale).omissions == []
    ensures StatusFound(info, stale).content ==
      "{" + ("\"file_count\":" + Decimal(info.fileCount) + "," + ("\"repository_id\":" + Quoted(UuidText(info.repositoryId)) + ","
          + ("\"snapshot_id\":" + Quoted(UuidText(info.id)) + "," + ("\"status\":" + Quoted(word) + ","
          + ("\"total_bytes\":" + Decimal(info.totalBytes)))))) + "}"
  {
    hide Quoted, UuidText, Decimal, Separated, Member, StatusFound, StatusName, Object;
    var a, b, c := Member("file_count", Decimal(info.fileCount)), Member("repository_id", Quoted(UuidText(info.repositoryId))), Member("snapshot_id", Quoted(UuidText(info.id)));
    var d, e := Member("status", Quoted(word)), Member("total_bytes", Decimal(info.totalBytes));
    SeparatedFour(b, c, d, e);
    SeparatedCons(a, [b, c, d, e]);
    assert [a] + [b, c, d, e] == [a, b, c, d, e];
    StatusParts(info, stale, word);
    PlainKey("file_count", Decimal(info.fileCount), "\"file_count\":");
    PlainKey("repository_id", Quoted(UuidText(info.repositoryId)), "\"repository_id\":");
    PlainKey("snapshot_id", Quoted(UuidText(info.id)), "\"snapshot_id\":");
    PlainKey("status", Quoted(word), "\"status\":");
    PlainKey("total_bytes", Decimal(info.totalBytes), "\"total_bytes\":");
  }

  lemma StatusParts(info: SnapshotInfo, stale: bool, word: string)
    requires (word == "Stale" && (stale || info.status.Stale?)) || (!stale && ((word == "Ready" && info.status.Ready?)
          || (word == "Indexing" && info.status.Indexing?) || (word == "Incomplete" && info.status.Incomplete?)))
    ensures StatusFound(info, stale) ==
      Found("{" + Separated([Member("file_count", Decimal(info.fileCount)), Member("repository_id", Quoted(UuidText(info.repositoryId))),
                             Member("snapshot_id", Quoted(UuidText(info.id))), Member("status", Quoted(word)),
                             Member("total_bytes", Decimal(info.totalBytes))]) + "}", [], [])
  {
    hide Quoted, UuidText, Decimal, Separated, Member;
    assert StatusName(if stale then Stale else info.status) == word;
  }

  /** What the metadata tool prints of a file. */
  lemma MetadataIs(f: FileEntry)
    ensures MetadataText(f) ==
      "{" + ("\"content_hash\":" + Quoted(f.contentHash) + "," + ("\"is_text\":" + (if f.isText then "true" else "false") + ","
          + ("\"kind\":" + Quoted(KindName(f.kind)) + ","
          + ("\"line_count\":" + (if f.lineCount.Some? then Decimal(f.lineCount.value) else "null") + ","
          + ("\"path\":" + Quoted(f.path) + "," + ("\"size_bytes\":" + Decimal(f.size))))))) + "}"
  {
    hide Quoted, Decimal, KindName, Separated, Member;
    var a, b, c := Member("content_hash", Quoted(f.contentHash)), Member("is_text", BoolText(f.isText)), Member("kind", Quoted(KindName(f.kind)));
    var d, e, g := Member("line_count", CountText(f.lineCount)), Member("path", Quoted(f.path)), Member("size_bytes", Decimal(f.size));
    SeparatedFour(c, d, e, g);
    SeparatedCons(b, [c, d, e, g]);
    SeparatedCons(a, [b, c, d, e, g]);
    assert [b] + [c, d, e, g] == [b, c, d, e, g] && [a] + [b, c, d, e, g] == [a, b, c, d, e, g];
    PlainKey("content_hash", Quoted(f.contentHash), "\"content_hash\":");
    PlainKey("is_text", BoolText(f.isText), "\"is_text\":");
    PlainKey("kind", Quoted(KindName(f.kind)), "\"kind\":");
    PlainKey("line_count", CountText(f.lineCount), "\"line_count\":");
    PlainKey("path", Quoted(f.path), "\"path\":");
    PlainKey("size_bytes", Decimal(f.size), "\"size_bytes\":");
  }

  // When a path cannot be printed.

  lemma ValidAround(a: string, b: string)
    ensures Utf8.Valid(a + ['/'] + b) <==> Utf8.Valid(a) && Utf8.Valid(b)
  {
    hide Utf8.Valid;
    var s := a + ['/'] + b;
    Utf8.AsciiValid("/");
    if Utf8.Valid(s) {
      Utf8.AroundAscii(s, |a|);
      Utf8.SplitValid(s, |a|);
      Utf8.SplitValid(s, |a| + 1);
      assert s[..|a|] == a && s[|a| + 1..] == b;
    }
    if Utf8.Valid(a) && Utf8.Valid(b) {
      Utf8.ConcatValid(a, "/");
      Utf8.ConcatValid(a + ['/'], b);
    }
  }

  predicate AllValid(pieces: seq<string>) {
    forall i :: 0 <= i < |pieces| ==> Utf8.Valid(pieces[i])
  }

  lemma ConsAllValid(piece: string, pieces: seq<string>)
    ensures AllValid([piece] + pieces) <==> Utf8.Valid(piece) && AllValid(pieces)
  {
    hide Utf8.Valid;
    var all := [piece] + pieces;
    assert all[0] == piece && forall i :: 0 <= i < |pieces| ==> all[i + 1] == pieces[i];
    if AllValid(all) {
      forall i | 0 <= i < |pieces| ensures Utf8.Valid(pieces[i]) {
        assert Utf8.Valid(all[i + 1]);
      }
    }
  }

  lemma {:induction false} PiecesDecide(s: string)
    ensures Utf8.Valid(s) <==> AllValid(Split(s, '/'))
    decreases |s|
  {
    hide Utf8.Valid;
    match Cut(s, '/')
    case None => ConsAllValid(s, []);
    case Some((before, after)) =>
      ValidAround(before, after);
      PiecesDecide(after);
      ConsAllValid(before, Split(after, '/'));
  }

  predicate NamesValid(cs: seq<Component>) {
    forall i :: 0 <= i < |cs| && cs[i].Name? ==> Utf8.Valid(cs[i].text)
  }

  lemma ConsNamesValid(c: Component, cs: seq<Component>)
    ensures NamesValid([c] + cs) <==> (c.Name? ==> Utf8.Valid(c.text)) && NamesValid(cs)
  {
    hide Utf8.Valid;
    var all := [c] + cs;
    assert all[0] == c && forall i :: 0 <= i < |cs| ==> all[i + 1] == cs[i];
    if NamesValid(all) {
      forall i | 0 <= i < |cs| && cs[i].Name? ensures Utf8.Valid(cs[i].text) {
        assert all[i + 1].Name?;
      }
    }
  }

  lemma {:induction false} ComponentsDecide(pieces: seq<string>, first: bool)
    ensures NamesValid(ComponentsOf(pieces, first)) <==> AllValid(pieces)
    decreases |pieces|
  {
    hide Utf8.Valid;
    if pieces != [] {
      var rest := ComponentsOf(pieces[1..], false);
      ComponentsDecide(pieces[1..], false);
      assert pieces == [pieces[0]] + pieces[1..];
      ConsAllValid(pieces[0], pieces[1..]);
      DotsAreValid();
      ConsNamesValid(CurDir, rest);
      ConsNamesValid(ParentDir, rest);
      ConsNamesValid(Name(pieces[0]), rest);
    }
  }

  lemma DotsAreValid()
    ensures Utf8.Valid("") && Utf8.Valid(".") && Utf8.Valid("..")
  {
    hide Utf8.Valid;
    Utf8.EmptyIsValid();
    Utf8.AsciiValid(".");
    Utf8.AsciiValid("..");
  }

  lemma PathDecides(path: string)
    ensures Utf8.Valid(path) <==> NamesValid(Components(path))
  {
    hide Utf8.Valid, ComponentsOf, Split;
    if path != "" && path[0] == '/' {
      var rest := path[1..];
      assert path == "" + ['/'] + rest;
      Utf8.EmptyIsValid();
      ValidAround("", rest);
      PiecesDecide(rest);
      ComponentsDecide(Split(rest, '/'), false);
      ConsNamesValid(RootDir, ComponentsOf(Split(rest, '/'), false));
    } else {
      PiecesDecide(path);
      ComponentsDecide(Split(path, '/'), true);
    }
  }

  /** Asked for by a path in UTF-8, metadata never meet a path that cannot be printed. */
  lemma MetadataNeverPanics(files: seq<FileEntry>, path: string)
    requires Utf8.Valid(path)
    ensures MetadataFound(files, path) != Err(PANIC)
  {
    hide Utf8.Valid, Inside, MetadataText, Components;
    var file := FileAt(files, path);
    if file.Some? {
      PathDecides(path);
      PathDecides(file.value.path);
    }
  }

  /** A text search ends in a panic exactly when it reports a line of a file whose name is outside UTF-8. */
  lemma SearchPanicsExactly(tools: Tools, snapshot: Uuid, query: string, filter: Option<string>, limit: nat, cancelled: nat -> bool)
    ensures TextFound(tools, snapshot, query, filter, limit, cancelled) == Err(PANIC) <==>
      && !Utf8.Blank(query) && |query| <= 512 && (filter.Some? ==> Inside(filter.value))
      && var found := SearchFrom(Search(tools, tools.lower(query), filter, Clamp(limit, 1, 100)), cancelled, 0);
         found.Ok? && exists i :: 0 <= i < |found.value.0| && !Utf8.Valid(found.value.0[i].file.path)
  {
    hide Utf8.Valid, Utf8.Blank, Inside, List, SummaryText, AllHits, AllSkipped, Changed, Excerpt;
    var q := Search(tools, tools.lower(query), filter, Clamp(limit, 1, 100));
    NeverPanics(q, cancelled, 0);
    if SearchFrom(q, cancelled, 0).Ok? { PathsOfRefs(tools, snapshot, SearchFrom(q, cancelled, 0).value.0); }
  }

  lemma {:induction false} NeverPanics(q: Search, cancelled: nat -> bool, k: nat)
    requires k <= |q.tools.files|
    ensures SearchFrom(q, cancelled, k) != Err(PANIC)
    decreases |q.tools.files| - k
  {
    hide AllHits, AllSkipped, Changed;
    if k < |q.tools.files| { NeverPanics(q, cancelled, k + 1); }
  }

  lemma PathsOfRefs(tools: Tools, snapshot: Uuid, hits: seq<Hit>)
    ensures !PathsPrintable(RefsOf(tools, snapshot, hits)) <==> exists i :: 0 <= i < |hits| && !Utf8.Valid(hits[i].file.path)
  {
    hide Utf8.Valid, Excerpt;
    var refs := RefsOf(tools, snapshot, hits);
    forall i | 0 <= i < |hits| ensures refs[i].relativePath == hits[i].file.path {
      assert refs[i] == RefOf(tools, snapshot, hits[i], tools.freshId(i));
    }
  }

  /** What a caller can see of the snapshot: every file the search may look at has a name in UTF-8. */
  predicate NamesPrintable(q: Search) {
    forall i :: 0 <= i < |q.tools.files| && Considered(q, q.tools.files[i]) && q.tools.files[i].size <= MAX_RESULT_BYTES ==>
      Utf8.Valid(q.tools.files[i].path)
  }

  function SearchOf(tools: Tools, query: string, filter: Option<string>, limit: nat): Search {
    Search(tools, tools.lower(query), filter, Clamp(limit, 1, 100))
  }

  /** On a snapshot in which every file to look at has a name in UTF-8, no search panics, whatever the bodies hold. */
  lemma PrintableNeverPanics(tools: Tools, snapshot: Uuid, query: string, filter: Option<string>, limit: nat, cancelled: nat -> bool)
    requires NamesPrintable(SearchOf(tools, query, filter, limit))
    ensures TextFound(tools, snapshot, query, filter, limit, cancelled) != Err(PANIC)
  {
    hide Utf8.Valid, Utf8.Blank, Inside, TextFound, SearchFrom, AllHits, AllSkipped, Considered, Changed, Unchanged, Matches, TextLines, StandsIn, ShownPath;
    var q := SearchOf(tools, query, filter, limit);
    SearchPanicsExactly(tools, snapshot, query, filter, limit, cancelled);
    if SearchFrom(q, cancelled, 0).Ok? {
      var (hits, omissions) := SearchFrom(q, cancelled, 0).value;
      NoFilesYet(q);
      var m := SearchReports(q, cancelled, 0);
      forall i | 0 <= i < |hits| ensures Utf8.Valid(hits[i].file.path) {
        assert hits[i] in AllHits(q, q.tools.files[..m]);
        HitsExactly(q, q.tools.files[..m], hits[i]);
        ConsideredExactly(q, hits[i].file);
      }
    }
  }

  /** A search that runs to its end panics as soon as any file named outside UTF-8 holds a matching line. */
  lemma UnprintablePanics(tools: Tools, snapshot: Uuid, query: string, filter: Option<string>, limit: nat, cancelled: nat -> bool, hit: Hit)
    requires !Utf8.Blank(query) && |query| <= 512 && (filter.Some? ==> Inside(filter.value))
    requires Eligible(SearchOf(tools, query, filter, limit), hit, tools.files) && !Utf8.Valid(hit.file.path)
    ensures var found := SearchFrom(SearchOf(tools, query, filter, limit), cancelled, 0);
      found.Ok? && |found.value.0| < Clamp(limit, 1, 100) && (forall i :: 0 <= i < |found.value.1| ==> found.value.1[i].detail != "OMISSION_LIMIT")
      ==> TextFound(tools, snapshot, query, filter, limit, cancelled) == Err(PANIC)
  {
    hide Utf8.Valid, Utf8.Blank, Inside, TextFound, SearchFrom, AllHits, AllSkipped, Considered, Changed, Unchanged, Matches, TextLines, StandsIn, ShownPath;
    var q := SearchOf(tools, query, filter, limit);
    SearchPanicsExactly(tools, snapshot, query, filter, limit, cancelled);
    var found := SearchFrom(q, cancelled, 0);
    if found.Ok? && |found.value.0| < q.limit && forall i :: 0 <= i < |found.value.1| ==> found.value.1[i].detail != "OMISSION_LIMIT" {
      var (hits, omissions) := found.value;
      NoFilesYet(q);
      var m := SearchReports(q, cancelled, 0);
      WholeSearched(q, hits, omissions, m);
      HitsExactly(q, tools.files, hit);
    }
  }
}

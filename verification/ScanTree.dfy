/** A bounded scan of a repository: every file met is recorded or omitted with a reason, within limits. */
module ScanTree {
  import opened Wrappers
  import opened Text
  import opened EgressTypes
  import opened Sorting
  import Utf8

  const MAX_PREVIEW_BYTES: nat := 8 * 1024 * 1024

  datatype Limits = Limits(maxFiles: nat, maxTotalBytes: nat, maxSingleBytes: nat)

  datatype FileRecord = FileRecord(path: Path, size: nat, contentHash: string, preview: Option<string>)

  datatype Reason = WalkError | MetadataError | ReadError | FileCountLimit | TotalBytesLimit | FileTooLarge | Cancelled

  datatype Omission = Omission(path: Path, reason: Reason)

  datatype Meta = NotRegular | Unreadable | Regular(length: nat)

  /** What the walk yields; `held` is what a file holds once opened, if it can be opened and read. */
  datatype Entry = WalkFailed | Seen(full: Path, meta: Meta, held: Option<FileRecord>)

  /** The reader's own limit, whatever the limits of the scan. */
  const READER_LIMIT: nat := 10 * 1024 * 1024

  /** What inspecting the file gives: the reader gives up past its own limit. */
  function Inspected(e: Entry): (r: Option<FileRecord>)
    ensures r.Some? ==> r.value.size <= READER_LIMIT
  {
    if e.Seen? && e.held.Some? && e.held.value.size <= READER_LIMIT then e.held else None
  }

  datatype Outcome = Outcome(files: seq<FileRecord>, omissions: seq<Omission>, cancelled: bool)

  predicate IsComplete(o: Outcome) {
    !o.cancelled && o.omissions == []
  }

  function SaturatingAdd(a: nat, b: nat): nat {
    if a + b < U64_LIMIT then a + b else U64_LIMIT - 1
  }

  function StripPrefix(root: Path, full: Path): Option<Path> {
    if root <= full then Some(full[|root|..]) else None
  }

  /** The scan's books: records, omissions, bytes and preview bytes so far. */
  datatype Books = Books(files: seq<FileRecord>, omissions: seq<Omission>, bytes: nat, previewBytes: nat)

  function Omit(b: Books, path: Path, reason: Reason): Books {
    b.(omissions := b.omissions + [Omission(path, reason)])
  }

  function Record(b: Books, found: FileRecord): Books {
    var keep := found.preview.Some? && SaturatingAdd(b.previewBytes, |found.preview.value|) <= MAX_PREVIEW_BYTES;
    b.(files := b.files + [if keep then found else found.(preview := None)],
       bytes := (b.bytes + found.size) % U64_LIMIT,
       previewBytes := if keep then b.previewBytes + |found.preview.value| else b.previewBytes)
  }

  function Visit(root: Path, limits: Limits, b: Books, e: Entry): Books {
    if e.WalkFailed? then Omit(b, ["<walk>"], WalkError)
    else if ".git" in e.full || e.meta.NotRegular? then b
    else
      var relative := StripPrefix(root, e.full);
      if e.meta.Unreadable? then Omit(b, if relative.Some? then relative.value else e.full, MetadataError)
      else if relative.None? then b
      else if e.meta.length > limits.maxSingleBytes then Omit(b, relative.value, FileTooLarge)
      else if SaturatingAdd(b.bytes, e.meta.length) > limits.maxTotalBytes then Omit(b, relative.value, TotalBytesLimit)
      else if |b.files| >= limits.maxFiles then Omit(b, relative.value, FileCountLimit)
      else if Inspected(e).Some? then Record(b, Inspected(e).value)
      else Omit(b, relative.value, ReadError)
  }

  function Scan(root: Path, limits: Limits, entries: seq<Entry>): Books {
    if entries == [] then Books([], [], 0, 0)
    else Visit(root, limits, Scan(root, limits, entries[..|entries| - 1]), entries[|entries| - 1])
  }

  /** How many entries are looked at before the cancellation is seen. */
  function Reached(cancel: nat -> bool, n: nat, k: nat): (r: nat)
    requires k <= n
    ensures k <= r <= n && (r < n ==> cancel(r)) && forall i :: k <= i < r ==> !cancel(i)
    decreases n - k
  {
    if k == n || cancel(k) then k else Reached(cancel, n, k + 1)
  }

  lemma ScanStart(root: Path, limits: Limits, entries: seq<Entry>)
    ensures Scan(root, limits, entries[..0]) == Books([], [], 0, 0)
  {
  }

  lemma ScanStep(root: Path, limits: Limits, entries: seq<Entry>, k: nat)
    requires k < |entries|
    ensures Scan(root, limits, entries[..k + 1]) == Visit(root, limits, Scan(root, limits, entries[..k]), entries[k])
  {
    hide Visit;
    assert entries[..k + 1][..k] == entries[..k];
  }

  /** `cancel(k)`: the scan is found cancelled before entry `k`. */
  method ScanFiles(root: Path, limits: Limits, entries: seq<Entry>, cancel: nat -> bool) returns (o: Outcome)
    ensures var n := Reached(cancel, |entries|, 0);
      var b := Scan(root, limits, entries[..n]);
      && o.files == b.files && o.cancelled == (n < |entries|)
      && o.omissions == b.omissions + if o.cancelled then [Omission(["<scan>"], Cancelled)] else []
  {
    hide Scan, SaturatingAdd, StripPrefix;
    var records: seq<FileRecord> := [];
    var omissions: seq<Omission> := [];
    var bytes: nat, previewBytes: nat := 0, 0;
    var k := 0;
    ScanStart(root, limits, entries);
    while k < |entries|
      invariant 0 <= k <= |entries| && Reached(cancel, |entries|, 0) == Reached(cancel, |entries|, k)
      invariant Books(records, omissions, bytes, previewBytes) == Scan(root, limits, entries[..k])
    {
      if cancel(k) {
        return Outcome(records, omissions + [Omission(["<scan>"], Cancelled)], true);
      }
      ScanStep(root, limits, entries, k);
      var e := entries[k];
      k := k + 1;
      if e.WalkFailed? {
        omissions := omissions + [Omission(["<walk>"], WalkError)];
        continue;
      }
      if ".git" in e.full || e.meta.NotRegular? { continue; }
      var relative := StripPrefix(root, e.full);
      if e.meta.Unreadable? {
        omissions := omissions + [Omission(if relative.Some? then relative.value else e.full, MetadataError)];
        continue;
      }
      if relative.None? { continue; }
      if e.meta.length > limits.maxSingleBytes {
        omissions := omissions + [Omission(relative.value, FileTooLarge)];
      } else if SaturatingAdd(bytes, e.meta.length) > limits.maxTotalBytes {
        omissions := omissions + [Omission(relative.value, TotalBytesLimit)];
      } else if |records| >= limits.maxFiles {
        omissions := omissions + [Omission(relative.value, FileCountLimit)];
      } else if Inspected(e).Some? {
        var found := Inspected(e).value;
        if found.preview.Some? {
          if SaturatingAdd(previewBytes, |found.preview.value|) <= MAX_PREVIEW_BYTES {
            previewBytes := previewBytes + |found.preview.value|;
          } else {
            found := found.(preview := None);
          }
        }
        bytes := (bytes + found.size) % U64_LIMIT;
        records := records + [found];
      } else {
        omissions := omissions + [Omission(relative.value, ReadError)];
      }
    }
    assert entries[..k] == entries;
    return Outcome(records, omissions, false);
  }

  /** One more file of this length is beyond the budget; nothing is beyond a budget of the whole 64-bit range. */
  predicate BeyondBudget(limits: Limits, b: Books, length: nat) {
    limits.maxTotalBytes < U64_LIMIT - 1 && b.bytes + length > limits.maxTotalBytes
  }

  /** The omission of a file says which limit it broke, or that it could not be read. */
  predicate ReasonHolds(limits: Limits, b: Books, length: nat, reason: Reason) {
    match reason
    case FileTooLarge => length > limits.maxSingleBytes
    case TotalBytesLimit => length <= limits.maxSingleBytes && BeyondBudget(limits, b, length)
    case FileCountLimit => length <= limits.maxSingleBytes && !BeyondBudget(limits, b, length) && |b.files| >= limits.maxFiles
    case ReadError => length <= limits.maxSingleBytes && !BeyondBudget(limits, b, length) && |b.files| < limits.maxFiles
    case _ => false
  }

  /** The books with one more file: its preview is kept exactly when all previews still come to at most 8 MiB. */
  predicate Enters(b: Books, after: Books, found: FileRecord) {
    var keep := found.preview.Some? && b.previewBytes + |found.preview.value| <= 8 * 1024 * 1024;
    && |after.files| == |b.files| + 1 && b.files <= after.files && after.omissions == b.omissions
    && after.bytes == (b.bytes + found.size) % U64_LIMIT
    && after.previewBytes == b.previewBytes + (if keep then |found.preview.value| else 0)
    && var kept := after.files[|b.files|];
       && kept.path == found.path && kept.size == found.size && kept.contentHash == found.contentHash
       && kept.preview == if keep then found.preview else None
  }

  /** The books with one more omission. */
  predicate Leaves(b: Books, after: Books, path: Path, reason: Reason) {
    && after.omissions == b.omissions + [Omission(path, reason)]
    && after.files == b.files && after.bytes == b.bytes && after.previewBytes == b.previewBytes
  }

  lemma RecordEnters(b: Books, found: FileRecord)
    ensures Enters(b, Record(b, found), found)
  {
  }

  /** What is no file under the root leaves the books alone, unless the walk or its metadata failed. */
  lemma OtherEntries(root: Path, limits: Limits, b: Books, e: Entry)
    requires !IsFile(root, e)
    ensures var after := Visit(root, limits, b, e);
      if e.WalkFailed? then Leaves(b, after, ["<walk>"], WalkError)
      else if ".git" !in e.full && e.meta.Unreadable? then Leaves(b, after, if root <= e.full then e.full[|root|..] else e.full, MetadataError)
      else after == b
  {
    hide Record, SaturatingAdd;
  }

  /** A regular file is recorded exactly when it fits every limit and can be read; otherwise it is omitted for a reason that holds. */
  lemma RecordedExactly(root: Path, limits: Limits, b: Books, e: Entry)
    requires IsFile(root, e) && limits.maxTotalBytes < U64_LIMIT
    ensures var after := Visit(root, limits, b, e);
      var fits := e.meta.length <= limits.maxSingleBytes && !BeyondBudget(limits, b, e.meta.length) && |b.files| < limits.maxFiles;
      if fits && e.held.Some? && e.held.value.size <= 10 * 1024 * 1024 then Enters(b, after, e.held.value)
      else exists reason :: ReasonHolds(limits, b, e.meta.length, reason) && Leaves(b, after, e.full[|root|..], reason)
  {
    hide Record, Omit, Enters;
    OmitLeaves(b, e.full[|root|..]);
    if Inspected(e).Some? { RecordEnters(b, Inspected(e).value); }
    var after := Visit(root, limits, b, e);
    assert after == Omit(b, e.full[|root|..], FileTooLarge) || after == Omit(b, e.full[|root|..], TotalBytesLimit)
      || after == Omit(b, e.full[|root|..], FileCountLimit) || after == Omit(b, e.full[|root|..], ReadError) || Inspected(e).Some?;
    assert ReasonHolds(limits, b, e.meta.length, FileTooLarge) || ReasonHolds(limits, b, e.meta.length, TotalBytesLimit)
      || ReasonHolds(limits, b, e.meta.length, FileCountLimit) || ReasonHolds(limits, b, e.meta.length, ReadError);
  }

  lemma OmitLeaves(b: Books, path: Path)
    ensures forall reason :: Leaves(b, Omit(b, path, reason), path, reason)
  {
  }

  // Conservation.

  /** A regular file under the root, outside any `.git`. */
  predicate IsFile(root: Path, e: Entry) {
    e.Seen? && ".git" !in e.full && e.meta.Regular? && root <= e.full
  }

  /** What must be accounted for: regular files, and whatever the walk could not look at. */
  predicate Accountable(root: Path, e: Entry) {
    e.WalkFailed? || IsFile(root, e) || (".git" !in e.full && e.meta.Unreadable?)
  }

  function NameOf(root: Path, e: Entry): Path
    requires Accountable(root, e)
  {
    if e.WalkFailed? then ["<walk>"] else if root <= e.full then e.full[|root|..] else e.full
  }

  /** Reading a file gives a record of that file. */
  ghost predicate ReadsOwnFile(root: Path, entries: seq<Entry>) {
    forall k :: 0 <= k < |entries| && IsFile(root, entries[k]) && Inspected(entries[k]).Some? ==>
      Inspected(entries[k]).value.path == entries[k].full[|root|..]
  }

  function Names(root: Path, entries: seq<Entry>): seq<Path> {
    if entries == [] then []
    else
      var last := entries[|entries| - 1];
      Names(root, entries[..|entries| - 1]) + if Accountable(root, last) then [NameOf(root, last)] else []
  }

  function RecordPaths(files: seq<FileRecord>): seq<Path> {
    seq(|files|, i requires 0 <= i < |files| => files[i].path)
  }

  function OmittedPaths(omissions: seq<Omission>): seq<Path> {
    seq(|omissions|, i requires 0 <= i < |omissions| => omissions[i].path)
  }

  ghost function Accounted(b: Books): multiset<Path> {
    multiset(RecordPaths(b.files)) + multiset(OmittedPaths(b.omissions))
  }

  lemma OmitAccounts(b: Books, path: Path, reason: Reason)
    ensures Accounted(Omit(b, path, reason)) == Accounted(b) + multiset{path}
  {
    var after := Omit(b, path, reason);
    assert OmittedPaths(after.omissions) == OmittedPaths(b.omissions) + [path];
  }

  lemma RecordAccounts(b: Books, found: FileRecord)
    ensures Accounted(Record(b, found)) == Accounted(b) + multiset{found.path}
  {
    hide SaturatingAdd;
    var after := Record(b, found);
    assert RecordPaths(after.files) == RecordPaths(b.files) + [found.path];
  }

  lemma VisitAccounts(root: Path, limits: Limits, b: Books, e: Entry)
    requires ReadsOwnFile(root, [e])
    ensures Accounted(Visit(root, limits, b, e)) == Accounted(b) + if Accountable(root, e) then multiset{NameOf(root, e)} else multiset{}
  {
    hide Accounted, Record, Omit, SaturatingAdd;
    assert [e][0] == e;
    assert Accounted(b) + multiset{} == Accounted(b);
    if e.WalkFailed? {
      OmitAccounts(b, ["<walk>"], WalkError);
    } else if ".git" !in e.full && e.meta.Unreadable? {
      OmitAccounts(b, NameOf(root, e), MetadataError);
    } else if IsFile(root, e) {
      FileAccounts(root, limits, b, e);
    }
  }

  lemma FileAccounts(root: Path, limits: Limits, b: Books, e: Entry)
    requires IsFile(root, e) && (Inspected(e).Some? ==> Inspected(e).value.path == e.full[|root|..])
    ensures Accounted(Visit(root, limits, b, e)) == Accounted(b) + multiset{e.full[|root|..]}
  {
    hide Accounted, Record, Omit, SaturatingAdd;
    var path := e.full[|root|..];
    OmitAccounts(b, path, FileTooLarge);
    OmitAccounts(b, path, TotalBytesLimit);
    OmitAccounts(b, path, FileCountLimit);
    OmitAccounts(b, path, ReadError);
    if Inspected(e).Some? { RecordAccounts(b, Inspected(e).value); }
  }

  /**
   Whatever the order of the entries and whatever the limits, the records and omissions together
   name exactly what had to be accounted for: nothing is lost, nothing counted twice.
   */
  lemma {:induction false} NothingIsLost(root: Path, limits: Limits, entries: seq<Entry>)
    requires ReadsOwnFile(root, entries)
    ensures Accounted(Scan(root, limits, entries)) == multiset(Names(root, entries))
    decreases |entries|
  {
    hide Visit, Accounted, Accountable, NameOf, IsFile;
    if entries == [] {
      assert Accounted(Books([], [], 0, 0)) == multiset{} by { NothingYet(); }
    } else {
      var front, last := entries[..|entries| - 1], entries[|entries| - 1];
      PrefixReads(root, entries);
      NothingIsLost(root, limits, front);
      VisitAccounts(root, limits, Scan(root, limits, front), last);
    }
  }

  lemma NothingYet()
    ensures Accounted(Books([], [], 0, 0)) == multiset{}
  {
  }

  lemma PrefixReads(root: Path, entries: seq<Entry>)
    requires ReadsOwnFile(root, entries) && entries != []
    ensures ReadsOwnFile(root, entries[..|entries| - 1]) && ReadsOwnFile(root, [entries[|entries| - 1]])
  {
    hide IsFile;
    assert forall k :: 0 <= k < |entries| - 1 ==> entries[..|entries| - 1][k] == entries[k];
  }

  /** A file the walk meets once is in exactly one place: one record, or one omission. */
  lemma EachFileInOnePlace(root: Path, limits: Limits, entries: seq<Entry>, k: nat)
    requires ReadsOwnFile(root, entries) && k < |entries| && IsFile(root, entries[k])
    requires multiset(Names(root, entries))[entries[k].full[|root|..]] == 1
    ensures var b := Scan(root, limits, entries);
      var path := entries[k].full[|root|..];
      multiset(RecordPaths(b.files))[path] + multiset(OmittedPaths(b.omissions))[path] == 1
  {
    hide Scan, RecordPaths, OmittedPaths, Names, IsFile;
    NothingIsLost(root, limits, entries);
  }

  // Limits.

  function SumOfSizes(files: seq<FileRecord>): nat {
    if files == [] then 0 else SumOfSizes(files[..|files| - 1]) + files[|files| - 1].size
  }

  function SumOfPreviews(files: seq<FileRecord>): nat {
    if files == [] then 0
    else
      var last := files[|files| - 1];
      SumOfPreviews(files[..|files| - 1]) + if last.preview.Some? then |last.preview.value| else 0
  }

  function Smaller(a: nat, b: nat): nat {
    if a < b then a else b
  }

  /** The largest file a scan can record. */
  function Largest(limits: Limits): nat {
    Smaller(limits.maxSingleBytes, READER_LIMIT)
  }

  /** Each file still has the size its metadata gave when it is read. */
  ghost predicate Unchanging(root: Path, entries: seq<Entry>) {
    forall k :: 0 <= k < |entries| && IsFile(root, entries[k]) && Inspected(entries[k]).Some? ==>
      Inspected(entries[k]).value.size == entries[k].meta.length
  }

  ghost predicate WithinLimits(limits: Limits, b: Books) {
    |b.files| <= limits.maxFiles && SumOfPreviews(b.files) == b.previewBytes <= MAX_PREVIEW_BYTES
  }

  ghost predicate WithinBytes(limits: Limits, b: Books) {
    && SumOfSizes(b.files) == b.bytes <= limits.maxTotalBytes
    && forall i :: 0 <= i < |b.files| ==> b.files[i].size <= Largest(limits)
  }

  lemma RecordWithin(b: Books, found: FileRecord, limits: Limits)
    requires WithinLimits(limits, b) && |b.files| < limits.maxFiles
    ensures WithinLimits(limits, Record(b, found))
  {
    var after := Record(b, found);
    assert after.files[..|b.files|] == b.files;
  }

  /** No more files than allowed, and no more preview bytes than 8 MiB. */
  lemma {:induction false} LimitsHold(root: Path, limits: Limits, entries: seq<Entry>)
    ensures WithinLimits(limits, Scan(root, limits, entries))
    decreases |entries|
  {
    hide Record, SaturatingAdd, SumOfPreviews;
    if entries == [] {
      NoPreviews();
    } else {
      var front, last := entries[..|entries| - 1], entries[|entries| - 1];
      LimitsHold(root, limits, front);
      var b := Scan(root, limits, front);
      if last.Seen? && Inspected(last).Some? && |b.files| < limits.maxFiles { RecordWithin(b, Inspected(last).value, limits); }
    }
  }

  lemma NoPreviews()
    ensures SumOfPreviews([]) == 0 && SumOfSizes([]) == 0
  {
  }

  lemma RecordWithinBytes(b: Books, found: FileRecord, limits: Limits)
    requires WithinBytes(limits, b) && limits.maxTotalBytes < U64_LIMIT
    requires found.size <= Largest(limits) && SaturatingAdd(b.bytes, found.size) <= limits.maxTotalBytes && b.bytes + found.size < U64_LIMIT
    ensures WithinBytes(limits, Record(b, found))
  {
    var after := Record(b, found);
    assert after.files[..|b.files|] == b.files;
  }

  /** Limits under which the bytes are bounded: by the budget, or by the number of files and the largest of them. */
  predicate Bounding(limits: Limits) {
    limits.maxTotalBytes < U64_LIMIT - 1 || limits.maxFiles * Largest(limits) <= limits.maxTotalBytes < U64_LIMIT
  }

  lemma OneMore(k: nat, each: nat)
    ensures (k + 1) * each == k * each + each
  {
  }

  lemma {:induction false} Grows(k: nat, n: nat, each: nat)
    requires k < n
    ensures k * each + each <= n * each
  {
    OneMore(n - 1, each);
    if k < n - 1 { Grows(k, n - 1, each); }
  }

  lemma {:induction false} SumIsBounded(files: seq<FileRecord>, each: nat)
    requires forall i :: 0 <= i < |files| ==> files[i].size <= each
    ensures SumOfSizes(files) <= |files| * each
  {
    if files != [] {
      SumIsBounded(files[..|files| - 1], each);
      Grows(|files| - 1, |files|, each);
    }
  }

  /** A file recorded within the limits does not carry the sum beyond the budget. */
  lemma NextFits(limits: Limits, b: Books, length: nat)
    requires Bounding(limits) && WithinBytes(limits, b) && |b.files| < limits.maxFiles && length <= Largest(limits)
    requires SaturatingAdd(b.bytes, length) <= limits.maxTotalBytes
    ensures b.bytes + length <= limits.maxTotalBytes < U64_LIMIT
  {
    hide SumOfSizes, Largest;
    if limits.maxTotalBytes == U64_LIMIT - 1 {
      SumIsBounded(b.files, Largest(limits));
      Grows(|b.files|, limits.maxFiles, Largest(limits));
    }
  }

  /** On a tree that does not change, under bounding limits, the recorded sizes stay within the budgets. */
  lemma {:induction false} BytesStayWithinBudget(root: Path, limits: Limits, entries: seq<Entry>)
    requires Unchanging(root, entries) && Bounding(limits)
    ensures WithinBytes(limits, Scan(root, limits, entries))
    decreases |entries|
  {
    hide Record, SumOfSizes, Bounding;
    if entries == [] {
      NoPreviews();
    } else {
      var front, last := entries[..|entries| - 1], entries[|entries| - 1];
      assert forall k :: 0 <= k < |front| ==> front[k] == entries[k];
      BytesStayWithinBudget(root, limits, front);
      var b := Scan(root, limits, front);
      if IsFile(root, last) && Inspected(last).Some? && last.meta.length <= limits.maxSingleBytes
         && SaturatingAdd(b.bytes, last.meta.length) <= limits.maxTotalBytes && |b.files| < limits.maxFiles {
        NextFits(limits, b, last.meta.length);
        RecordWithinBytes(b, Inspected(last).value, limits);
      }
    }
  }

  // When the budget holds.

  /** A tree as a walk can meet it: no file twice, each read as itself, none changing meanwhile. */
  ghost predicate IsTree(root: Path, entries: seq<Entry>) {
    && Unchanging(root, entries) && ReadsOwnFile(root, entries)
    && forall i, j :: 0 <= i < j < |entries| && entries[i].Seen? && entries[j].Seen? ==> entries[i].full != entries[j].full
  }

  /** The recorded sizes of every tree stay within the budget. */
  ghost predicate BudgetHolds(limits: Limits) {
    forall root, entries :: IsTree(root, entries) ==> SumOfSizes(Scan(root, limits, entries).files) <= limits.maxTotalBytes
  }

  function Numbered(k: nat, size: nat): FileRecord {
    FileRecord([Decimal(k)], size, "", None)
  }

  /** `n` files of one size, named by their numbers. */
  function Tree(n: nat, size: nat): seq<Entry> {
    seq(n, k requires 0 <= k < n => Seen([Decimal(k)], Regular(size), Some(Numbered(k, size))))
  }

  lemma TreeIsTree(n: nat, size: nat)
    ensures IsTree([], Tree(n, size))
  {
    hide Decimal;
    var tree := Tree(n, size);
    forall i, j | 0 <= i < j < |tree| ensures tree[i].full != tree[j].full {
      DecimalRoundTrip(i);
      DecimalRoundTrip(j);
      assert tree[i].full[0] == Decimal(i) && tree[j].full[0] == Decimal(j);
    }
  }

  lemma NumberedVisited(limits: Limits, b: Books, k: nat, size: nat)
    requires limits.maxTotalBytes == U64_LIMIT - 1 && size <= Largest(limits) && |b.files| < limits.maxFiles
    ensures Visit([], limits, b, Seen([Decimal(k)], Regular(size), Some(Numbered(k, size)))).files == b.files + [Numbered(k, size)]
  {
    hide Decimal;
    var name := [Decimal(k)];
    assert IsDigit(Decimal(k)[0]) && ".git"[0] == '.';
    assert ".git" !in name && name[0..] == name;
  }

  /** With the whole range as budget, files are recorded until there are too many. */
  lemma {:induction false} TreeIsRecorded(limits: Limits, n: nat, size: nat)
    requires limits.maxTotalBytes == U64_LIMIT - 1 && size <= Largest(limits) && n <= limits.maxFiles
    ensures var files := Scan([], limits, Tree(n, size)).files;
      |files| == n && SumOfSizes(files) == n * size
    decreases n
  {
    hide Visit, Largest, Decimal;
    if n == 0 {
      NoPreviews();
    } else {
      var all, front := Tree(n, size), Tree(n - 1, size);
      assert all[..|all| - 1] == front;
      TreeIsRecorded(limits, n - 1, size);
      var b := Scan([], limits, front);
      NumberedVisited(limits, b, n - 1, size);
      assert (b.files + [Numbered(n - 1, size)])[..n - 1] == b.files;
      OneMore(n - 1, size);
    }
  }

  /**
   For 64-bit limits: the recorded sizes of every tree stay within the byte budget exactly when the
   budget is not the whole range, or that many files of the largest size keep within it.
   */
  lemma BudgetHoldsExactly(limits: Limits)
    requires limits.maxTotalBytes < U64_LIMIT
    ensures BudgetHolds(limits) <==>
      limits.maxTotalBytes < U64_LIMIT - 1 || limits.maxFiles * Smaller(limits.maxSingleBytes, READER_LIMIT) <= limits.maxTotalBytes
  {
    hide Scan, SumOfSizes, Unchanging, ReadsOwnFile;
    if Bounding(limits) {
      forall root, entries | IsTree(root, entries) ensures SumOfSizes(Scan(root, limits, entries).files) <= limits.maxTotalBytes {
        BytesStayWithinBudget(root, limits, entries);
      }
    } else {
      TreeIsTree(limits.maxFiles, Largest(limits));
      TreeIsRecorded(limits, limits.maxFiles, Largest(limits));
    }
  }

  /** So many files of the largest size the reader takes are more than 2^64-1 bytes. */
  const FILES_TO_EXCEED: nat := 1_759_218_604_442

  /** With the whole range as budget and files of any size allowed, the budget holds as long as no more files are allowed. */
  lemma FullRangeHoldsExactly(maxFiles: nat, maxSingleBytes: nat)
    requires maxSingleBytes >= READER_LIMIT
    ensures BudgetHolds(Limits(maxFiles, U64_LIMIT - 1, maxSingleBytes)) <==> maxFiles < FILES_TO_EXCEED
  {
    hide BudgetHolds;
    BudgetHoldsExactly(Limits(maxFiles, U64_LIMIT - 1, maxSingleBytes));
    assert Smaller(maxSingleBytes, READER_LIMIT) == READER_LIMIT;
    assert (FILES_TO_EXCEED - 1) * READER_LIMIT < U64_LIMIT - 1 < FILES_TO_EXCEED * READER_LIMIT;
  }

  // Snapshots.

  datatype Snapshot = Snapshot(treeDigest: string, status: SnapshotStatus, fileCount: nat, totalBytes: nat)

  predicate RecordLeq(a: FileRecord, b: FileRecord) {
    PathLeq(a.path, b.path)
  }

  lemma RecordPreorder()
    ensures Preorder(RecordLeq)
  {
    hide PathLeq;
    PathOrder();
  }

  function TreeText(files: seq<FileRecord>): string {
    if files == [] then ""
    else TreeText(files[..|files| - 1]) + Utf8.Lossy(PathText(files[|files| - 1].path)) + files[|files| - 1].contentHash
  }

  function SnapshotOf(shaHex: string -> string, files: seq<FileRecord>): Snapshot {
    var sorted := Sort(RecordLeq, files);
    Snapshot(shaHex(TreeText(sorted)), Ready, |files|, SumOfSizes(sorted) % U64_LIMIT)
  }

  function SnapshotOfOutcome(shaHex: string -> string, o: Outcome): Snapshot {
    var s := SnapshotOf(shaHex, o.files);
    if IsComplete(o) then s else s.(status := Incomplete)
  }

  /** What is hashed: each file's shown path and then its hash, in the order given. */
  lemma TwoFilesFed(a: FileRecord, b: FileRecord)
    ensures TreeText([a, b]) == Utf8.Lossy(PathText(a.path)) + a.contentHash + Utf8.Lossy(PathText(b.path)) + b.contentHash
  {
    hide Utf8.Lossy, PathText;
    assert [a, b][..1] == [a] && [a][..0] == [];
    var first := Utf8.Lossy(PathText(a.path));
    assert TreeText([a]) == "" + first + a.contentHash && "" + first == first;
  }

  lemma NothingFed(files: seq<FileRecord>)
    requires files == []
    ensures TreeText(files) == "" && SumOfSizes(files) == 0
  {
  }

  lemma FedStep(files: seq<FileRecord>, k: nat)
    requires k < |files|
    ensures TreeText(files[..k + 1]) == TreeText(files[..k]) + Utf8.Lossy(PathText(files[k].path)) + files[k].contentHash
    ensures SumOfSizes(files[..k + 1]) % U64_LIMIT == (SumOfSizes(files[..k]) % U64_LIMIT + files[k].size) % U64_LIMIT
  {
    hide PathText, Utf8.Lossy;
    assert files[..k + 1][..k] == files[..k];
    WrapsOnce(SumOfSizes(files[..k]), files[k].size);
  }

  /** Wrapping at every step is wrapping once. */
  lemma WrapsOnce(a: nat, b: nat)
    ensures (a % U64_LIMIT + b) % U64_LIMIT == (a + b) % U64_LIMIT
  {
    assert a == (a / U64_LIMIT) * U64_LIMIT + a % U64_LIMIT;
  }

  lemma {:induction false} SumWithout(files: seq<FileRecord>, i: nat)
    requires i < |files|
    ensures SumOfSizes(files) == SumOfSizes(files[..i] + files[i + 1..]) + files[i].size
  {
    var last := |files| - 1;
    if i == last {
      assert files[..i] + files[i + 1..] == files[..last];
    } else {
      SumWithout(files[..last], i);
      var rest := files[..i] + files[i + 1..];
      assert rest[..|rest| - 1] == files[..last][..i] + files[..last][i + 1..] && rest[|rest| - 1] == files[last];
    }
  }

  /** A sum of sizes does not depend on the order of the files. */
  lemma {:induction false} SumForgetsOrder(a: seq<FileRecord>, b: seq<FileRecord>)
    requires multiset(a) == multiset(b)
    ensures SumOfSizes(a) == SumOfSizes(b)
    decreases |a|
  {
    hide SumOfSizes;
    if a == [] {
      assert |multiset(b)| == |b| == |multiset(a)|;
    } else {
      var i := Position(b, a[0], a);
      CountWithout(a, 0);
      CountWithout(b, i);
      SumForgetsOrder(a[..0] + a[1..], b[..i] + b[i + 1..]);
      SumWithout(a, 0);
      SumWithout(b, i);
    }
  }

  lemma Position(b: seq<FileRecord>, f: FileRecord, a: seq<FileRecord>) returns (i: nat)
    requires multiset(a) == multiset(b) && f in a
    ensures i < |b| && b[i] == f
  {
    assert f in multiset(b);
    i :| 0 <= i < |b| && b[i] == f;
  }

  lemma CountWithout(files: seq<FileRecord>, i: nat)
    requires i < |files|
    ensures multiset(files[..i] + files[i + 1..]) == multiset(files) - multiset{files[i]}
  {
    var front, back := files[..i], files[i + 1..];
    assert files == (front + [files[i]]) + back;
    assert multiset(files) == multiset(front) + multiset{files[i]} + multiset(back);
  }

  lemma SortedSum(files: seq<FileRecord>)
    ensures SumOfSizes(Sort(RecordLeq, files)) == SumOfSizes(files)
  {
    hide SumOfSizes, RecordLeq, Sort;
    RecordPreorder();
    SortKeeps(RecordLeq, files);
    SumForgetsOrder(Sort(RecordLeq, files), files);
  }

  method CreateSnapshot(shaHex: string -> string, o: Outcome) returns (s: Snapshot)
    ensures s == SnapshotOfOutcome(shaHex, o)
    ensures s.totalBytes == SumOfSizes(o.files) % 0x1_0000_0000_0000_0000
    ensures s.fileCount == |o.files| && s.status == if !o.cancelled && o.omissions == [] then Ready else Incomplete
  {
    hide RecordLeq, TreeText, SumOfSizes, PathText, Utf8.Lossy;
    var sorted := Sort(RecordLeq, o.files);
    SortedSum(o.files);
    NothingFed(sorted[..0]);
    var fed, total := "", 0;
    var k := 0;
    while k < |sorted|
      invariant 0 <= k <= |sorted| && fed == TreeText(sorted[..k]) && total == SumOfSizes(sorted[..k]) % U64_LIMIT
    {
      FedStep(sorted, k);
      fed := fed + Utf8.Lossy(PathText(sorted[k].path)) + sorted[k].contentHash;
      total := (total + sorted[k].size) % U64_LIMIT;
      k := k + 1;
    }
    assert sorted[..k] == sorted;
    s := Snapshot(shaHex(fed), Ready, |o.files|, total);
    if !IsComplete(o) { s := s.(status := Incomplete); }
  }

  predicate DistinctPaths(files: seq<FileRecord>) {
    forall i, j :: 0 <= i < j < |files| ==> files[i].path != files[j].path
  }

  /** Among files with distinct paths, at most one ties with anything. */
  lemma {:induction false} OneTie(files: seq<FileRecord>, y: FileRecord)
    requires DistinctPaths(files)
    ensures |Ties(RecordLeq, files, y)| <= 1
    ensures forall x :: x in Ties(RecordLeq, files, y) <==> x in files && x.path == y.path
  {
    hide PathLeq;
    PathOrder();
    if files != [] {
      OneTie(files[1..], y);
      assert files == [files[0]] + files[1..];
      assert Tie(RecordLeq, files[0], y) <==> files[0].path == y.path;
      if files[0].path == y.path {
        assert forall x :: x in files[1..] ==> x.path != y.path;
        assert Ties(RecordLeq, files[1..], y) == [] by {
          var rest := Ties(RecordLeq, files[1..], y);
          SomeElement(rest);
        }
      }
    }
  }

  lemma AtMostOneSame(s: seq<FileRecord>, t: seq<FileRecord>)
    requires |s| <= 1 && |t| <= 1 && forall x :: x in s <==> x in t
    ensures s == t
  {
    if |s| == 1 { assert s[0] in t; }
    if |t| == 1 { assert t[0] in s; }
  }

  /** The digest depends on which files there are, not on the order the walk met them in. */
  lemma DigestForgetsWalkOrder(shaHex: string -> string, a: seq<FileRecord>, b: seq<FileRecord>)
    requires multiset(a) == multiset(b) && DistinctPaths(a) && DistinctPaths(b)
    ensures SnapshotOf(shaHex, a) == SnapshotOf(shaHex, b)
  {
    hide RecordLeq, TreeText, SumOfSizes, DistinctPaths;
    RecordPreorder();
    assert |a| == |multiset(a)| && |b| == |multiset(b)|;
    assert forall x :: x in a <==> x in multiset(a);
    assert forall x :: x in b <==> x in multiset(b);
    forall y ensures Ties(RecordLeq, a, y) == Ties(RecordLeq, b, y) {
      OneTie(a, y);
      OneTie(b, y);
      AtMostOneSame(Ties(RecordLeq, a, y), Ties(RecordLeq, b, y));
    }
    SortsAgreeExactly(RecordLeq, a, b);
  }

  /** A snapshot is Ready exactly when the scan ran to its end and recorded everything it had to account for. */
  lemma ReadyExactlyWhenWhole(shaHex: string -> string, root: Path, limits: Limits, entries: seq<Entry>, o: Outcome, n: nat)
    requires ReadsOwnFile(root, entries) && n <= |entries|
    requires o == Outcome(Scan(root, limits, entries[..n]).files,
                          Scan(root, limits, entries[..n]).omissions + (if n < |entries| then [Omission(["<scan>"], Cancelled)] else []), n < |entries|)
    ensures SnapshotOfOutcome(shaHex, o).status.Ready? <==>
      n == |entries| && multiset(RecordPaths(o.files)) == multiset(Names(root, entries))
  {
    hide Names, TreeText, RecordLeq, IsFile, Scan;
    if n == |entries| {
      assert entries[..n] == entries;
      NothingIsLost(root, limits, entries);
      assert |multiset(OmittedPaths(o.omissions))| == |o.omissions|;
      WholeIsAll(multiset(RecordPaths(o.files)), multiset(OmittedPaths(o.omissions)));
    }
  }

  lemma WholeIsAll(kept: multiset<Path>, omitted: multiset<Path>)
    ensures kept + omitted == kept <==> |omitted| == 0
  {
    if kept + omitted == kept { assert |kept + omitted| == |kept| + |omitted|; }
  }
}

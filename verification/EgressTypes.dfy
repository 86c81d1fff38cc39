/** The packet of repository context a user approves before it is sent. */
module EgressTypes {
  import opened Wrappers
  import opened Text

  /** A normalised relative path: its components. */
  type Path = seq<string>

  function PathText(p: Path): string {
    if p == [] then "" else if |p| == 1 then p[0] else p[0] + "/" + PathText(p[1..])
  }

  datatype FileRef = FileRef(path: Path, lineStart: nat, lineEnd: nat, lineCount: nat)

  datatype EgressPacket = EgressPacket(
    packetId: Uuid,
    packetHash: string,
    includedFiles: seq<Path>,
    includedRefs: seq<FileRef>,
    excludedFiles: seq<Path>,
    redactedSecrets: nat,
    estimatedTokens: nat,
    promptContext: string,
    snapshotId: Uuid,
    redactedQuestion: string,
    includedTexts: map<Path, string>)

  datatype SnapshotStatus = Ready | Stale | Indexing | Incomplete

  /** Where a tool-egress receipt stands. */
  datatype ReceiptStatus = Prepared | Sent | Failed | OutcomeUnknown

  predicate AvoidsAll(packet: EgressPacket, excluded: set<Path>) {
    forall k :: 0 <= k < |packet.includedFiles| ==> packet.includedFiles[k] !in excluded
  }

  function Elements(paths: seq<Path>): set<Path> {
    set k | 0 <= k < |paths| :: paths[k]
  }

  function RefPaths(refs: seq<FileRef>): set<Path> {
    set k | 0 <= k < |refs| :: refs[k].path
  }

  /** Files, line references and citation texts name the same paths. */
  predicate ConsistentSources(packet: EgressPacket) {
    Elements(packet.includedFiles) == RefPaths(packet.includedRefs) == packet.includedTexts.Keys
  }
}
